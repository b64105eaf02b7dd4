/**
 * The rows of the hosted database the application reads and writes, and the
 * outcome of a read. Timestamps are instants in milliseconds; identifiers are
 * strings.
 */
module Database {
  import opened Wrappers
  import opened Instants

  datatype Role = Admin | Gerente | Usuario {
    /** The stored spelling of the role. */
    function Name(): string {
      match this
      case Admin => "admin"
      case Gerente => "gerente"
      case Usuario => "usuario"
    }
  }

  datatype BookingStatus = Confirmado | Cancelado

  datatype RoomStatus = Ativo | Manutencao

  datatype Profile = Profile(
    id: string,
    email: string,
    fullName: string,
    department: string,
    role: Role,
    avatarUrl: Option<string>,
    termsAccepted: bool)

  datatype Permission = Permission(id: string, name: string)

  datatype Room = Room(
    id: string,
    name: string,
    floor: int,
    capacity: int,
    facilities: seq<string>,
    status: RoomStatus,
    imageUrl: Option<string>)

  datatype RoomBlock = RoomBlock(
    id: string,
    roomId: string,
    start: Instant,
    end: Instant,
    reason: Option<string>,
    createdBy: string)

  /** A booking row; `user` is the organiser's profile when the query embeds it. */
  datatype Booking = Booking(
    id: string,
    roomId: string,
    userId: string,
    title: string,
    description: Option<string>,
    start: Instant,
    end: Instant,
    status: BookingStatus,
    attendeesCount: int,
    user: Option<Profile>)

  datatype Setting = Setting(key: string, value: string)

  /**
   * What a `select` returns: an error, no data without an error (`data` is
   * null), or the rows.
   */
  datatype Read<T> = ReadFailed | ReadNull | ReadRows(rows: seq<T>) {
    /** The rows, with a null `data` read as no rows (`data || []`). */
    function RowsOrEmpty(): seq<T> {
      if ReadRows? then rows else []
    }
  }
}
