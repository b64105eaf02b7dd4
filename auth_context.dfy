/**
 * The session state shared by every page: the signed-in user, their profile
 * and granted permissions, the permission and role tests built on them, and
 * how the state follows sign-in, sign-out and the auth service's session
 * changes. The auth service and the database are parameters: each fetch is
 * given as its outcome.
 */
module AuthContext {
  import opened Wrappers
  import opened Database
  import opened JsArrays

  // ----------------------------------------------------------------- tests

  /**
   * `checkPermission(name)`: never without a profile, always for an admin,
   * otherwise when some loaded permission has that name.
   */
  function CheckPermission(profile: Option<Profile>, permissions: seq<Permission>, name: string): (r: bool)
    ensures r <==> (profile.Some? &&
      (profile.value.role == Admin || exists p :: p in permissions && p.name == name))
  {
    SomeHasName(permissions, name);
    if profile.None? then false
    else if profile.value.role == Admin then true
    else Any(permissions, (p: Permission) => p.name == name)
  }

  /** `hasRole(role)`: the profile's role is exactly `role`; roles do not include one another. */
  function HasRole(profile: Option<Profile>, role: string): (r: bool)
    ensures r <==> (profile.Some? &&
      (|| (role == "admin" && profile.value.role == Admin)
       || (role == "gerente" && profile.value.role == Gerente)
       || (role == "usuario" && profile.value.role == Usuario)))
  {
    profile.Some? && profile.value.role.Name() == role
  }

  /** Without a profile no permission and no role holds. */
  lemma NoProfileNoAccess(permissions: seq<Permission>, name: string, role: string)
    ensures !CheckPermission(None, permissions, name)
    ensures !HasRole(None, role)
  {
  }

  /** An admin holds every permission, whatever was granted. */
  lemma AdminHoldsEveryPermission(profile: Profile, permissions: seq<Permission>, name: string)
    requires profile.role == Admin
    ensures CheckPermission(Some(profile), permissions, name)
  {
  }

  /** `permissions.some((p) => p.name === name)` asks whether one permission has that name. */
  lemma SomeHasName(permissions: seq<Permission>, name: string)
    ensures Any(permissions, (p: Permission) => p.name == name) <==> exists p :: p in permissions && p.name == name
  {
    AnyIff(permissions, (p: Permission) => p.name == name);
    if exists p :: p in permissions && p.name == name {
      var p :| p in permissions && p.name == name;
      var k :| 0 <= k < |permissions| && permissions[k] == p;
    }
  }

  /** The role test knows no hierarchy: an admin is not a manager, a manager not a user. */
  lemma RolesAreExact(profile: Profile)
    ensures HasRole(Some(profile), "admin") <==> profile.role == Admin
    ensures HasRole(Some(profile), "gerente") <==> profile.role == Gerente
    ensures HasRole(Some(profile), "usuario") <==> profile.role == Usuario
    ensures profile.role == Admin ==> !HasRole(Some(profile), "gerente") && !HasRole(Some(profile), "usuario")
  {
    assert "admin" != "gerente" && "admin" != "usuario" && "gerente" != "usuario";
  }

  // ----------------------------------------------------------------- loads

  /** A session is the signed-in user's id. */
  datatype Session = Session(userId: string)

  /** `fetchPermissions`: the granted permissions; a failed query gives none. */
  function FetchPermissions(read: Read<Permission>): (r: seq<Permission>)
    ensures read.ReadFailed? || read.ReadNull? ==> r == []
    ensures read.ReadRows? ==> r == read.rows
  {
    read.RowsOrEmpty()
  }

  /** The session state. */
  class AuthState {
    var session: Option<Session>
    var user: Option<string>
    var profile: Option<Profile>
    var permissions: seq<Permission>
    var loading: bool

    constructor()
      ensures session.None? && user.None? && profile.None? && permissions == [] && loading
    {
      session, user, profile, permissions := None, None, None, [];
      loading := true;
    }

    /**
     * `onAuthStateChange`, given the new session and the outcomes of the two
     * fetches (`fetchProfile` gives `None` on an error): with a session the
     * profile and permissions are fetched for its user; without one both are
     * cleared. Loading ends.
     */
    method OnAuthStateChange(newSession: Option<Session>, fetchedProfile: Option<Profile>,
                             permissionsRead: Read<Permission>)
      modifies this
      ensures session == newSession
      ensures user == (if newSession.Some? then Some(newSession.value.userId) else None)
      ensures newSession.Some? ==> profile == fetchedProfile && permissions == FetchPermissions(permissionsRead)
      ensures newSession.None? ==> profile.None? && permissions == []
      ensures newSession.None? ==> forall name :: !CheckPermission(profile, permissions, name)
      ensures !loading
    {
      session := newSession;
      user := if newSession.Some? then Some(newSession.value.userId) else None;
      if newSession.Some? {
        profile := fetchedProfile;
        permissions := FetchPermissions(permissionsRead);
      } else {
        profile := None;
        permissions := [];
      }
      loading := false;
    }

    /**
     * The first `getSession` on mount: like a session change, except that
     * with no session the profile and permissions are left as they are.
     */
    method InitialSession(newSession: Option<Session>, fetchedProfile: Option<Profile>,
                          permissionsRead: Read<Permission>)
      modifies this
      ensures session == newSession
      ensures user == (if newSession.Some? then Some(newSession.value.userId) else None)
      ensures newSession.Some? ==> profile == fetchedProfile && permissions == FetchPermissions(permissionsRead)
      ensures newSession.None? ==> profile == old(profile) && permissions == old(permissions)
      ensures !loading
    {
      session := newSession;
      user := if newSession.Some? then Some(newSession.value.userId) else None;
      if newSession.Some? {
        profile := fetchedProfile;
        permissions := FetchPermissions(permissionsRead);
      }
      loading := false;
    }

    /**
     * `login`, given whether sign-in succeeds, the signed-in user and the
     * fetch outcomes: a failed sign-in throws and changes nothing; otherwise
     * the user's profile and permissions are loaded. The session itself is
     * set by the session change the auth service reports.
     */
    method Login(signInOk: bool, signedInUser: Option<string>, fetchedProfile: Option<Profile>,
                 permissionsRead: Read<Permission>) returns (thrown: bool)
      modifies this
      ensures thrown <==> !signInOk
      ensures thrown || signedInUser.None? ==> profile == old(profile) && permissions == old(permissions)
      ensures !thrown && signedInUser.Some? ==>
        profile == fetchedProfile && permissions == FetchPermissions(permissionsRead)
      ensures session == old(session) && user == old(user) && loading == old(loading)
    {
      if !signInOk {
        return true;
      }
      thrown := false;
      if signedInUser.Some? {
        profile := fetchedProfile;
        permissions := FetchPermissions(permissionsRead);
      }
    }

    /**
     * `logout`, given whether sign-out succeeds: an error throws before
     * anything is cleared; otherwise profile and permissions are cleared, so
     * no permission holds any more.
     */
    method Logout(signOutOk: bool) returns (thrown: bool)
      modifies this
      ensures thrown <==> !signOutOk
      ensures thrown ==> profile == old(profile) && permissions == old(permissions)
      ensures !thrown ==> profile.None? && permissions == []
      ensures !thrown ==> forall name :: !CheckPermission(profile, permissions, name)
      ensures session == old(session) && user == old(user) && loading == old(loading)
    {
      if !signOutOk {
        return true;
      }
      thrown := false;
      profile := None;
      permissions := [];
    }

    /** `refreshProfile`: without a user nothing happens; otherwise both are fetched again. */
    method RefreshProfile(fetchedProfile: Option<Profile>, permissionsRead: Read<Permission>)
      modifies this
      ensures user.None? ==> profile == old(profile) && permissions == old(permissions)
      ensures user.Some? ==> profile == fetchedProfile && permissions == FetchPermissions(permissionsRead)
      ensures session == old(session) && user == old(user) && loading == old(loading)
    {
      if user.None? {
        return;
      }
      profile := fetchedProfile;
      permissions := FetchPermissions(permissionsRead);
    }
  }
}
