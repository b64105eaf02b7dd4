/**
 * The role and permission flags the pages read: the three role tests and one
 * flag per fixed permission name, all taken from the session state.
 */
module UsePermissions {
  import opened Wrappers
  import opened Database
  import opened AuthContext

  const BOOK_ROOM: string := "book_room"
  const VIEW_ALL_SCHEDULES: string := "view_all_schedules"
  const CANCEL_OWN_BOOKING: string := "cancel_own_booking"
  const CANCEL_ANY_BOOKING: string := "cancel_any_booking"
  const MANAGE_ROOMS: string := "manage_rooms"
  const BLOCK_ROOM_MAINTENANCE: string := "block_room_maintenance"
  const MANAGE_USERS: string := "manage_users"

  datatype PermissionFlags = PermissionFlags(
    isAdmin: bool,
    isGerente: bool,
    isUsuario: bool,
    canBookRoom: bool,
    canViewAllSchedules: bool,
    canCancelOwnBooking: bool,
    canCancelAnyBooking: bool,
    canManageRooms: bool,
    canBlockRoomMaintenance: bool,
    canManageUsers: bool)
  {
    predicate AnyCan()
    {
      canBookRoom || canViewAllSchedules || canCancelOwnBooking || canCancelAnyBooking ||
      canManageRooms || canBlockRoomMaintenance || canManageUsers
    }

    predicate AllCan()
    {
      canBookRoom && canViewAllSchedules && canCancelOwnBooking && canCancelAnyBooking &&
      canManageRooms && canBlockRoomMaintenance && canManageUsers
    }
  }

  /**
   * `usePermissions()`: the role flags are `hasRole` of the three roles, so a
   * profile has exactly one of them and no profile has none.
   */
  function Flags(profile: Option<Profile>, permissions: seq<Permission>): (r: PermissionFlags)
    ensures profile.None? ==> !r.isAdmin && !r.isGerente && !r.isUsuario
    ensures profile.Some? ==> r.isAdmin || r.isGerente || r.isUsuario
    ensures !(r.isAdmin && r.isGerente) && !(r.isAdmin && r.isUsuario) && !(r.isGerente && r.isUsuario)
  {
    RoleFlagsExact(profile);
    PermissionFlags(
      HasRole(profile, "admin"),
      HasRole(profile, "gerente"),
      HasRole(profile, "usuario"),
      CheckPermission(profile, permissions, BOOK_ROOM),
      CheckPermission(profile, permissions, VIEW_ALL_SCHEDULES),
      CheckPermission(profile, permissions, CANCEL_OWN_BOOKING),
      CheckPermission(profile, permissions, CANCEL_ANY_BOOKING),
      CheckPermission(profile, permissions, MANAGE_ROOMS),
      CheckPermission(profile, permissions, BLOCK_ROOM_MAINTENANCE),
      CheckPermission(profile, permissions, MANAGE_USERS))
  }

  lemma RoleFlagsExact(profile: Option<Profile>)
    ensures profile.Some? ==>
      (HasRole(profile, "admin") <==> profile.value.role == Admin) &&
      (HasRole(profile, "gerente") <==> profile.value.role == Gerente) &&
      (HasRole(profile, "usuario") <==> profile.value.role == Usuario)
  {
    if profile.Some? {
      RolesAreExact(profile.value);
    }
  }

  /** An admin has the admin flag and every `can*` flag, granted or not. */
  lemma AdminCanEverything(profile: Profile, permissions: seq<Permission>)
    requires profile.role == Admin
    ensures Flags(Some(profile), permissions).isAdmin
    ensures Flags(Some(profile), permissions).AllCan()
  {
  }

  /** With no profile every flag is false. */
  lemma NoProfileNoFlags(permissions: seq<Permission>)
    ensures var r := Flags(None, permissions);
      !r.isAdmin && !r.isGerente && !r.isUsuario && !r.AnyCan()
  {
  }

  /** Some granted permission has the name. */
  ghost predicate Granted(permissions: seq<Permission>, name: string)
  {
    exists p :: p in permissions && p.name == name
  }

  /** For a manager or a user, a `can*` flag holds exactly when its permission was granted by name. */
  lemma FlagsFollowGrants(profile: Profile, permissions: seq<Permission>)
    requires profile.role != Admin
    ensures var r := Flags(Some(profile), permissions);
      && (r.canBookRoom <==> Granted(permissions, BOOK_ROOM))
      && (r.canViewAllSchedules <==> Granted(permissions, VIEW_ALL_SCHEDULES))
      && (r.canCancelOwnBooking <==> Granted(permissions, CANCEL_OWN_BOOKING))
      && (r.canCancelAnyBooking <==> Granted(permissions, CANCEL_ANY_BOOKING))
      && (r.canManageRooms <==> Granted(permissions, MANAGE_ROOMS))
      && (r.canBlockRoomMaintenance <==> Granted(permissions, BLOCK_ROOM_MAINTENANCE))
      && (r.canManageUsers <==> Granted(permissions, MANAGE_USERS))
  {
  }

  /** A user with no grants can do nothing, whatever their role short of admin. */
  lemma NoGrantsNoAbilities(profile: Profile)
    requires profile.role != Admin
    ensures !Flags(Some(profile), []).AnyCan()
  {
  }
}
