/**
 * The booking rule engine: settings with their defaults, the duration, advance
 * window and capacity policies, and the availability check of a candidate
 * interval against the confirmed bookings and the maintenance blocks of a room.
 * The database reads are inputs (`Read` values); the clock is the `now` input.
 */
module BookingValidation {
  import opened Wrappers
  import opened JsNumbers
  import opened Instants
  import opened Database
  import opened JsArrays

  /** Why a check rejects; `Message` gives the text the user sees. */
  datatype Reason =
    | EndNotAfterStart
    | ExceedsMaxDuration(maxHours: int)
    | TooFarAhead(maxDays: int)
    | InThePast
    | OverCapacity(capacity: int)
    | TooFewAttendees
    | BookingsReadFailed
    | AlreadyBooked
    | BlocksReadFailed
    | BlockedForMaintenance

  function Message(r: Reason): string
  {
    match r
    case EndNotAfterStart => "O horário de término deve ser após o horário de início."
    case ExceedsMaxDuration(h) => "A duração máxima permitida é de " + IntToString(h) + " horas."
    case TooFarAhead(d) => "Você só pode agendar até " + IntToString(d) + " dias à frente."
    case InThePast => "Não é possível agendar para datas passadas."
    case OverCapacity(c) => "A sala suporta no máximo " + IntToString(c) + " participantes."
    case TooFewAttendees => "O número de participantes deve ser pelo menos 1."
    case BookingsReadFailed => "Erro ao verificar disponibilidade da sala."
    case AlreadyBooked => "Este horário já está ocupado por outra reserva."
    case BlocksReadFailed => "Erro ao verificar bloqueios da sala."
    case BlockedForMaintenance => "A sala está bloqueada para manutenção neste período."
  }

  /** The `{ valid, error? }` record every check returns. */
  datatype Verdict = Valid | Invalid(reason: Reason)

  // ---------------------------------------------------------------- settings

  const MAX_DURATION_KEY: string := "max_booking_duration_hours"
  const MAX_DAYS_KEY: string := "max_days_ahead"

  /** What `getSettings` returns when the settings table cannot be read. */
  const DEFAULT_SETTINGS: map<string, string> := map[MAX_DURATION_KEY := "4", MAX_DAYS_KEY := "30"]

  /** The dictionary the `reduce` builds from the rows, a later row overwriting an earlier one. */
  function FoldSettings(rows: seq<Setting>): map<string, string>
  {
    if rows == [] then map[]
    else
      var last := rows[|rows| - 1];
      FoldSettings(rows[..|rows| - 1])[last.key := last.value]
  }

  function SettingsOf(read: Read<Setting>): map<string, string>
  {
    if read.ReadRows? then FoldSettings(read.rows) else DEFAULT_SETTINGS
  }

  /** `getSettings`, given the outcome of reading the settings table. */
  method GetSettings(read: Read<Setting>) returns (settings: map<string, string>)
    ensures settings == SettingsOf(read)
    ensures !read.ReadRows? ==> settings == DEFAULT_SETTINGS
  {
    if !read.ReadRows? {
      return DEFAULT_SETTINGS;
    }
    var rows := read.rows;
    settings := map[];
    var i := 0;
    while i < |rows|
      invariant 0 <= i <= |rows|
      invariant settings == FoldSettings(rows[..i])
    {
      assert rows[..i + 1][..i] == rows[..i];
      settings := settings[rows[i].key := rows[i].value];
      i := i + 1;
    }
    assert rows[..i] == rows;
  }

  /**
   * A key is in the folded dictionary exactly when some row has it, and its
   * value is the one of the last such row.
   */
  lemma {:induction false} FoldSettingsLookup(rows: seq<Setting>, k: string)
    ensures k in FoldSettings(rows) <==> exists i :: 0 <= i < |rows| && rows[i].key == k
    ensures k in FoldSettings(rows) ==>
      exists i :: 0 <= i < |rows| && rows[i].key == k && FoldSettings(rows)[k] == rows[i].value &&
        forall j :: i < j < |rows| ==> rows[j].key != k
  {
    if rows != [] {
      var n := |rows| - 1;
      var init := rows[..n];
      var last := rows[n];
      assert FoldSettings(rows) == FoldSettings(init)[last.key := last.value];
      FoldSettingsLookup(init, k);
      if last.key == k {
        assert k in FoldSettings(rows) && FoldSettings(rows)[k] == rows[n].value;
      } else {
        assert k in FoldSettings(rows) <==> k in FoldSettings(init);
        forall i | 0 <= i < n
          ensures rows[i] == init[i]
        {
        }
        if k in FoldSettings(init) {
          var i :| 0 <= i < |init| && init[i].key == k && FoldSettings(init)[k] == init[i].value &&
            forall j :: i < j < |init| ==> init[j].key != k;
          assert rows[i].key == k && FoldSettings(rows)[k] == rows[i].value;
        }
      }
    }
  }

  /** `settings.key || fallback`: a missing key or an empty value gives the fallback. */
  function SettingOr(settings: map<string, string>, key: string, fallback: string): (r: string)
    ensures key in settings && settings[key] != "" ==> r == settings[key]
    ensures key !in settings || settings[key] == "" ==> r == fallback
  {
    if key in settings && settings[key] != "" then settings[key] else fallback
  }

  /** `parseInt(settings.max_booking_duration_hours || "4", 10)`. */
  function MaxHours(settings: map<string, string>): Option<int>
  {
    ParseInt(SettingOr(settings, MAX_DURATION_KEY, "4"))
  }

  /** `parseInt(settings.max_days_ahead || "30", 10)`. */
  function MaxDays(settings: map<string, string>): Option<int>
  {
    ParseInt(SettingOr(settings, MAX_DAYS_KEY, "30"))
  }

  lemma DefaultLimits(settings: map<string, string>)
    ensures MAX_DURATION_KEY !in settings ==> MaxHours(settings) == Some(4)
    ensures MAX_DAYS_KEY !in settings ==> MaxDays(settings) == Some(30)
    ensures MaxHours(DEFAULT_SETTINGS) == Some(4) && MaxDays(DEFAULT_SETTINGS) == Some(30)
  {
    ParsesDefaults();
    if MAX_DURATION_KEY !in settings {
      assert SettingOr(settings, MAX_DURATION_KEY, "4") == "4";
    }
    if MAX_DAYS_KEY !in settings {
      assert SettingOr(settings, MAX_DAYS_KEY, "30") == "30";
    }
    assert SettingOr(DEFAULT_SETTINGS, MAX_DURATION_KEY, "4") == "4";
    assert SettingOr(DEFAULT_SETTINGS, MAX_DAYS_KEY, "30") == "30";
  }

  lemma ParsesDefaults()
    ensures ParseInt("4") == Some(4) && ParseInt("30") == Some(30)
  {
    ParseIntOfIntToString(4);
    ParseIntOfIntToString(30);
    assert IntToString(4) == "4";
    assert IntToString(30) == "30";
  }

  // ---------------------------------------------------------------- policies

  /**
   * `validateBookingDuration`: the whole minutes from start to end must be
   * positive and, as hours, not above the maximum. A maximum that does not
   * parse (NaN) compares false and so never rejects.
   */
  function ValidateBookingDuration(settings: map<string, string>, start: Instant, end: Instant): (r: Verdict)
    ensures r == Invalid(EndNotAfterStart) <==> end - start < MS_PER_MINUTE
    ensures r == Valid <==>
      MS_PER_MINUTE <= end - start &&
      (MaxHours(settings).None? || DifferenceInMinutes(end, start) <= MaxHours(settings).value * 60)
    ensures r.Invalid? && r.reason != EndNotAfterStart ==>
      MaxHours(settings).Some? && r == Invalid(ExceedsMaxDuration(MaxHours(settings).value))
  {
    var maxHours := MaxHours(settings);
    var durationMinutes := DifferenceInMinutes(end, start);
    if durationMinutes <= 0 then Invalid(EndNotAfterStart)
    else if maxHours.Some? && (durationMinutes as real) / 60.0 > maxHours.value as real then
      Invalid(ExceedsMaxDuration(maxHours.value))
    else Valid
  }

  /** Exactly the maximum is accepted; one minute more is not. */
  lemma DurationBoundary(settings: map<string, string>, start: Instant, h: int)
    requires MaxHours(settings) == Some(h) && h > 0
    ensures ValidateBookingDuration(settings, start, start + h * 60 * MS_PER_MINUTE) == Valid
    ensures ValidateBookingDuration(settings, start, start + (h * 60 + 1) * MS_PER_MINUTE) ==
      Invalid(ExceedsMaxDuration(h))
  {
  }

  /**
   * `validateBookingAdvance`: a start after now plus the maximum number of days
   * is rejected first; a start before now is rejected next.
   */
  function ValidateBookingAdvance(settings: map<string, string>, now: Instant, start: Instant): (r: Verdict)
    ensures MaxDays(settings).Some? && start > AddDays(now, MaxDays(settings).value) ==>
      r == Invalid(TooFarAhead(MaxDays(settings).value))
    ensures r == Invalid(InThePast) <==>
      start < now && (MaxDays(settings).None? || start <= AddDays(now, MaxDays(settings).value))
    ensures r == Valid <==>
      now <= start && (MaxDays(settings).None? || start <= AddDays(now, MaxDays(settings).value))
  {
    var maxDays := MaxDays(settings);
    if maxDays.Some? && start > AddDays(now, maxDays.value) then Invalid(TooFarAhead(maxDays.value))
    else if start < now then Invalid(InThePast)
    else Valid
  }

  /** `validateRoomCapacity`: over capacity is reported before fewer than one. */
  function ValidateRoomCapacity(attendeesCount: int, roomCapacity: int): (r: Verdict)
    ensures r == Valid <==> 1 <= attendeesCount <= roomCapacity
    ensures attendeesCount > roomCapacity ==> r == Invalid(OverCapacity(roomCapacity))
    ensures r == Invalid(TooFewAttendees) <==> attendeesCount < 1 && attendeesCount <= roomCapacity
  {
    if attendeesCount > roomCapacity then Invalid(OverCapacity(roomCapacity))
    else if attendeesCount < 1 then Invalid(TooFewAttendees)
    else Valid
  }

  // ------------------------------------------------------------ availability

  /**
   * The conflict test the source writes as three cases: the new start inside
   * the existing interval, the new end inside it, or the new interval covering it.
   */
  function Overlaps(start: Instant, end: Instant, otherStart: Instant, otherEnd: Instant): (r: bool)
    ensures start < end && otherStart < otherEnd ==> (r <==> start < otherEnd && end > otherStart)
  {
    || (start >= otherStart && start < otherEnd)
    || (end > otherStart && end <= otherEnd)
    || (start <= otherStart && end >= otherEnd)
  }

  /** An empty existing interval anywhere in `[start, end]`, ends included, conflicts. */
  lemma EmptyIntervalOverlaps(start: Instant, end: Instant, at: Instant)
    ensures Overlaps(start, end, at, at) <==> start <= at <= end
  {
  }

  /** `excludeBookingId && booking.id === excludeBookingId`: an empty id excludes nothing. */
  function IsExcluded(b: Booking, excludeBookingId: Option<string>): (r: bool)
    ensures r ==> excludeBookingId == Some(b.id) && b.id != ""
    ensures excludeBookingId.None? || excludeBookingId == Some("") ==> !r
  {
    excludeBookingId.Some? && excludeBookingId.value != "" && b.id == excludeBookingId.value
  }

  /** The rows the bookings query returns: `.eq("room_id", roomId).eq("status", "confirmado")`. */
  function RoomConfirmedBookings(rows: seq<Booking>, roomId: string): (r: seq<Booking>)
    ensures forall b :: b in r <==> b in rows && b.roomId == roomId && b.status == Confirmado
  {
    Filter(rows, (b: Booking) => b.roomId == roomId && b.status == Confirmado)
  }

  /** The rows the blocks query returns: `.eq("room_id", roomId)`. */
  function RoomBlocksOf(rows: seq<RoomBlock>, roomId: string): (r: seq<RoomBlock>)
    ensures forall bl :: bl in r <==> bl in rows && bl.roomId == roomId
  {
    Filter(rows, (bl: RoomBlock) => bl.roomId == roomId)
  }

  predicate BookingConflicts(b: Booking, roomId: string, start: Instant, end: Instant, excludeBookingId: Option<string>)
  {
    b.roomId == roomId && b.status == Confirmado && !IsExcluded(b, excludeBookingId) &&
    Overlaps(start, end, b.start, b.end)
  }

  predicate BlockConflicts(bl: RoomBlock, roomId: string, start: Instant, end: Instant)
  {
    bl.roomId == roomId && Overlaps(start, end, bl.start, bl.end)
  }

  predicate SomeBookingConflicts(rows: seq<Booking>, roomId: string, start: Instant, end: Instant, excludeBookingId: Option<string>)
  {
    exists i :: 0 <= i < |rows| && BookingConflicts(rows[i], roomId, start, end, excludeBookingId)
  }

  predicate SomeBlockConflicts(rows: seq<RoomBlock>, roomId: string, start: Instant, end: Instant)
  {
    exists i :: 0 <= i < |rows| && BlockConflicts(rows[i], roomId, start, end)
  }

  /**
   * `validateRoomAvailability`, given the outcome of the bookings read and of
   * the blocks read (the blocks are read only when no booking conflicts).
   */
  function ValidateRoomAvailability(
    roomId: string, start: Instant, end: Instant, excludeBookingId: Option<string>,
    bookings: Read<Booking>, blocks: Read<RoomBlock>): (r: Verdict)
    ensures r ==
      if bookings.ReadFailed? then Invalid(BookingsReadFailed)
      else if SomeBookingConflicts(bookings.RowsOrEmpty(), roomId, start, end, excludeBookingId) then
        Invalid(AlreadyBooked)
      else if blocks.ReadFailed? then Invalid(BlocksReadFailed)
      else if SomeBlockConflicts(blocks.RowsOrEmpty(), roomId, start, end) then Invalid(BlockedForMaintenance)
      else Valid
  {
    if bookings.ReadFailed? then Invalid(BookingsReadFailed)
    else
      var candidates := RoomConfirmedBookings(bookings.RowsOrEmpty(), roomId);
      var conflicting := Find(candidates, (b: Booking) =>
        !IsExcluded(b, excludeBookingId) && Overlaps(start, end, b.start, b.end));
      ConflictFoundIff(bookings.RowsOrEmpty(), roomId, start, end, excludeBookingId);
      if conflicting.Some? then Invalid(AlreadyBooked)
      else if blocks.ReadFailed? then Invalid(BlocksReadFailed)
      else
        var roomBlocks := RoomBlocksOf(blocks.RowsOrEmpty(), roomId);
        BlockFoundIff(blocks.RowsOrEmpty(), roomId, start, end);
        if Any(roomBlocks, (bl: RoomBlock) => Overlaps(start, end, bl.start, bl.end)) then
          Invalid(BlockedForMaintenance)
        else Valid
  }

  lemma ConflictFoundIff(rows: seq<Booking>, roomId: string, start: Instant, end: Instant, excludeBookingId: Option<string>)
    ensures Find(RoomConfirmedBookings(rows, roomId), (b: Booking) =>
        !IsExcluded(b, excludeBookingId) && Overlaps(start, end, b.start, b.end)).Some? <==>
      SomeBookingConflicts(rows, roomId, start, end, excludeBookingId)
  {
    var candidates := RoomConfirmedBookings(rows, roomId);
    var p := (b: Booking) => !IsExcluded(b, excludeBookingId) && Overlaps(start, end, b.start, b.end);
    if SomeBookingConflicts(rows, roomId, start, end, excludeBookingId) {
      var i :| 0 <= i < |rows| && BookingConflicts(rows[i], roomId, start, end, excludeBookingId);
      assert rows[i] in candidates;
      var k :| 0 <= k < |candidates| && candidates[k] == rows[i];
      assert p(candidates[k]);
    }
    if Find(candidates, p).Some? {
      var k :| 0 <= k < |candidates| && p(candidates[k]);
      assert candidates[k] in rows;
      var i :| 0 <= i < |rows| && rows[i] == candidates[k];
      assert BookingConflicts(rows[i], roomId, start, end, excludeBookingId);
    }
  }

  lemma BlockFoundIff(rows: seq<RoomBlock>, roomId: string, start: Instant, end: Instant)
    ensures Any(RoomBlocksOf(rows, roomId), (bl: RoomBlock) => Overlaps(start, end, bl.start, bl.end)) <==>
      SomeBlockConflicts(rows, roomId, start, end)
  {
    var roomBlocks := RoomBlocksOf(rows, roomId);
    var p := (bl: RoomBlock) => Overlaps(start, end, bl.start, bl.end);
    AnyIff(roomBlocks, p);
    if SomeBlockConflicts(rows, roomId, start, end) {
      var i :| 0 <= i < |rows| && BlockConflicts(rows[i], roomId, start, end);
      assert rows[i] in roomBlocks;
      var k :| 0 <= k < |roomBlocks| && roomBlocks[k] == rows[i];
      assert p(roomBlocks[k]);
    }
    if Any(roomBlocks, p) {
      var k :| 0 <= k < |roomBlocks| && p(roomBlocks[k]);
      assert roomBlocks[k] in rows;
      var i :| 0 <= i < |rows| && rows[i] == roomBlocks[k];
      assert BlockConflicts(rows[i], roomId, start, end);
    }
  }

  /**
   * Excluding a booking id is the same as checking against the rows without
   * that booking; the blocks are never excluded.
   */
  lemma ExcludingIsRemoving(
    roomId: string, start: Instant, end: Instant, id: string, rows: seq<Booking>, blocks: Read<RoomBlock>)
    requires id != ""
    ensures ValidateRoomAvailability(roomId, start, end, Some(id), ReadRows(rows), blocks) ==
      ValidateRoomAvailability(roomId, start, end, None, ReadRows(Filter(rows, (b: Booking) => b.id != id)), blocks)
  {
    var kept := Filter(rows, (b: Booking) => b.id != id);
    if SomeBookingConflicts(rows, roomId, start, end, Some(id)) {
      var i :| 0 <= i < |rows| && BookingConflicts(rows[i], roomId, start, end, Some(id));
      assert rows[i] in kept;
      var k :| 0 <= k < |kept| && kept[k] == rows[i];
      assert BookingConflicts(kept[k], roomId, start, end, None);
    }
    if SomeBookingConflicts(kept, roomId, start, end, None) {
      var k :| 0 <= k < |kept| && BookingConflicts(kept[k], roomId, start, end, None);
      assert kept[k] in rows;
      var i :| 0 <= i < |rows| && rows[i] == kept[k];
      assert BookingConflicts(rows[i], roomId, start, end, Some(id));
    }
  }

  /**
   * A worked example: a room with a confirmed booking
   * 09:00-10:00; 09:30-10:30 is rejected, 10:00-10:30 (abutting) is accepted.
   */
  lemma AbuttingExample(day: int, room: string, a: Booking)
    requires a.roomId == room && a.status == Confirmado
    requires a.start == day * MS_PER_DAY + 540 * MS_PER_MINUTE && a.end == day * MS_PER_DAY + 600 * MS_PER_MINUTE
    ensures ValidateRoomAvailability(room, day * MS_PER_DAY + 570 * MS_PER_MINUTE, day * MS_PER_DAY + 630 * MS_PER_MINUTE,
      None, ReadRows([a]), ReadRows([])) == Invalid(AlreadyBooked)
    ensures ValidateRoomAvailability(room, day * MS_PER_DAY + 600 * MS_PER_MINUTE, day * MS_PER_DAY + 630 * MS_PER_MINUTE,
      None, ReadRows([a]), ReadRows([])) == Valid
  {
    assert BookingConflicts([a][0], room, day * MS_PER_DAY + 570 * MS_PER_MINUTE, day * MS_PER_DAY + 630 * MS_PER_MINUTE, None);
  }
}
