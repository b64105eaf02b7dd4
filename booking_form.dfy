/**
 * The booking dialog: the room it books, the fields the user fills in, and
 * the submit pipeline that runs the four rules before inserting a booking.
 */
module BookingForm {
  import opened Wrappers
  import opened JsNumbers
  import opened Instants
  import opened Database
  import opened JsArrays
  import opened Timeline
  import opened BookingValidation

  /** The row the dialog inserts into `bookings`. */
  datatype NewBooking = NewBooking(
    roomId: string,
    userId: string,
    title: string,
    description: Option<string>,
    attendeesCount: int,
    start: Instant,
    end: Instant,
    status: BookingStatus)

  /** What one submit ends in. */
  datatype SubmitOutcome =
    | NotSubmitted              // no signed-in user or the room has not loaded
    | Rejected(reason: Reason)  // a rule failed; its message is shown
    | InsertFailed(row: NewBooking)
    | Created(row: NewBooking)

  /**
   * The interval the two selected slots stand for on the day of `date`: it
   * starts at the start slot's time on that day and ends at the end slot's
   * time, on that day when it is later and on the next day otherwise; so it
   * is never empty and never longer than a day.
   */
  function RequestedInterval(date: Instant, startSlot: int, endSlot: int): (r: (Instant, Instant))
    ensures DayOf(r.0) == DayOf(date) && MinuteOfDay(r.0) == GetTimeFromSlotIndex(startSlot)
    ensures MinuteOfDay(r.1) == GetTimeFromSlotIndex(endSlot)
    ensures r.0 < r.1 <= r.0 + MS_PER_DAY
    ensures DayOf(r.1) == DayOf(date) <==> GetTimeFromSlotIndex(startSlot) < GetTimeFromSlotIndex(endSlot)
    ensures DayOf(r.1) == DayOf(date) + 1 <==> GetTimeFromSlotIndex(endSlot) <= GetTimeFromSlotIndex(startSlot)
  {
    var a := GetTimeFromSlotIndex(startSlot);
    var b := GetTimeFromSlotIndex(endSlot);
    AtMinuteMonotone(date, a, b);
    AtMinuteMonotone(date, b, a);
    var start := AtMinute(date, a);
    var end := AtMinute(date, b);
    if end <= start then (start, AddDays(end, 1)) else (start, end)
  }

  /** `description || null`. */
  function DescriptionOrNull(description: string): (r: Option<string>)
    ensures r.None? <==> description == ""
    ensures r.Some? ==> r.value == description
  {
    if description == "" then None else Some(description)
  }

  /**
   * The four rules in the order `handleSubmit` runs them, each given what it
   * reads: the first that fails decides.
   */
  function Checks(
    durationSettings: map<string, string>, advanceSettings: map<string, string>, now: Instant,
    start: Instant, end: Instant, attendeesCount: int, roomCapacity: int, roomId: string,
    bookings: Read<Booking>, blocks: Read<RoomBlock>): (r: Verdict)
    ensures r == Valid <==>
      && ValidateBookingDuration(durationSettings, start, end) == Valid
      && ValidateBookingAdvance(advanceSettings, now, start) == Valid
      && ValidateRoomCapacity(attendeesCount, roomCapacity) == Valid
      && ValidateRoomAvailability(roomId, start, end, None, bookings, blocks) == Valid
  {
    FirstInvalid(
      ValidateBookingDuration(durationSettings, start, end),
      ValidateBookingAdvance(advanceSettings, now, start),
      ValidateRoomCapacity(attendeesCount, roomCapacity),
      ValidateRoomAvailability(roomId, start, end, None, bookings, blocks))
  }

  /** The first of four verdicts, taken in order, that rejects; `Valid` when none does. */
  function FirstInvalid(duration: Verdict, advance: Verdict, capacity: Verdict, availability: Verdict): (r: Verdict)
    ensures r == Valid <==> duration == Valid && advance == Valid && capacity == Valid && availability == Valid
  {
    if duration.Invalid? then duration
    else if advance.Invalid? then advance
    else if capacity.Invalid? then capacity
    else availability
  }

  /** Which of the four rules a rejection reason belongs to, in the order they run. */
  function Stage(reason: Reason): nat
  {
    match reason
    case EndNotAfterStart => 0
    case ExceedsMaxDuration(_) => 0
    case TooFarAhead(_) => 1
    case InThePast => 1
    case OverCapacity(_) => 2
    case TooFewAttendees => 2
    case _ => 3
  }

  /**
   * A rejection names the first rule that fails: every earlier rule passed and
   * the rule it belongs to gives exactly that reason.
   */
  lemma ChecksReportFirstFailure(
    durationSettings: map<string, string>, advanceSettings: map<string, string>, now: Instant,
    start: Instant, end: Instant, attendeesCount: int, roomCapacity: int, roomId: string,
    bookings: Read<Booking>, blocks: Read<RoomBlock>, reason: Reason)
    requires Checks(durationSettings, advanceSettings, now, start, end, attendeesCount, roomCapacity,
      roomId, bookings, blocks) == Invalid(reason)
    ensures Stage(reason) == 0 <==> ValidateBookingDuration(durationSettings, start, end) == Invalid(reason)
    ensures Stage(reason) > 0 ==> ValidateBookingDuration(durationSettings, start, end) == Valid
    ensures Stage(reason) == 1 ==> ValidateBookingAdvance(advanceSettings, now, start) == Invalid(reason)
    ensures Stage(reason) > 1 ==> ValidateBookingAdvance(advanceSettings, now, start) == Valid
    ensures Stage(reason) == 2 ==> ValidateRoomCapacity(attendeesCount, roomCapacity) == Invalid(reason)
    ensures Stage(reason) > 2 ==> ValidateRoomCapacity(attendeesCount, roomCapacity) == Valid
    ensures Stage(reason) == 3 ==> ValidateRoomAvailability(roomId, start, end, None, bookings, blocks) == Invalid(reason)
  {
    var duration := ValidateBookingDuration(durationSettings, start, end);
    var advance := ValidateBookingAdvance(advanceSettings, now, start);
    var capacity := ValidateRoomCapacity(attendeesCount, roomCapacity);
    var availability := ValidateRoomAvailability(roomId, start, end, None, bookings, blocks);
    assert FirstInvalid(duration, advance, capacity, availability) == Invalid(reason);
    DurationReasons(durationSettings, start, end);
    AdvanceReasons(advanceSettings, now, start);
    AvailabilityReasons(roomId, start, end, bookings, blocks);
    StagesOfReasons(duration, advance, capacity, availability);
    FirstFailureStage(duration, advance, capacity, availability, reason);
  }

  /** The first failing verdict of four, each of its own stage, shows its stage by its reason. */
  lemma FirstFailureStage(duration: Verdict, advance: Verdict, capacity: Verdict, availability: Verdict, reason: Reason)
    requires duration.Invalid? ==> Stage(duration.reason) == 0
    requires advance.Invalid? ==> Stage(advance.reason) == 1
    requires capacity.Invalid? ==> Stage(capacity.reason) == 2
    requires availability.Invalid? ==> Stage(availability.reason) == 3
    requires FirstInvalid(duration, advance, capacity, availability) == Invalid(reason)
    ensures Stage(reason) == 0 <==> duration == Invalid(reason)
    ensures Stage(reason) > 0 ==> duration == Valid
    ensures Stage(reason) == 1 ==> advance == Invalid(reason)
    ensures Stage(reason) > 1 ==> advance == Valid
    ensures Stage(reason) == 2 ==> capacity == Invalid(reason)
    ensures Stage(reason) > 2 ==> capacity == Valid
    ensures Stage(reason) == 3 ==> availability == Invalid(reason)
  {
  }

  /** The duration rule rejects only for an end not after the start, or for the maximum. */
  lemma DurationReasons(settings: map<string, string>, start: Instant, end: Instant)
    ensures ValidateBookingDuration(settings, start, end).Invalid? ==>
      ValidateBookingDuration(settings, start, end).reason.EndNotAfterStart? ||
      ValidateBookingDuration(settings, start, end).reason.ExceedsMaxDuration?
  {
  }

  /** The advance rule rejects only for a start too far ahead or in the past. */
  lemma AdvanceReasons(settings: map<string, string>, now: Instant, start: Instant)
    ensures ValidateBookingAdvance(settings, now, start).Invalid? ==>
      ValidateBookingAdvance(settings, now, start).reason.TooFarAhead? ||
      ValidateBookingAdvance(settings, now, start).reason.InThePast?
  {
  }

  /** The availability rule rejects only for a failed read or a conflict. */
  lemma AvailabilityReasons(roomId: string, start: Instant, end: Instant, bookings: Read<Booking>, blocks: Read<RoomBlock>)
    ensures var v := ValidateRoomAvailability(roomId, start, end, None, bookings, blocks);
      v.Invalid? ==>
        (|| v.reason.BookingsReadFailed? || v.reason.AlreadyBooked?
         || v.reason.BlocksReadFailed? || v.reason.BlockedForMaintenance?)
  {
  }

  /** Each rule rejects only with reasons of its own stage. */
  lemma StagesOfReasons(duration: Verdict, advance: Verdict, capacity: Verdict, availability: Verdict)
    requires duration.Invalid? ==> duration.reason.EndNotAfterStart? || duration.reason.ExceedsMaxDuration?
    requires advance.Invalid? ==> advance.reason.TooFarAhead? || advance.reason.InThePast?
    requires capacity.Invalid? ==> capacity.reason.OverCapacity? || capacity.reason.TooFewAttendees?
    requires availability.Invalid? ==>
      (|| availability.reason.BookingsReadFailed? || availability.reason.AlreadyBooked?
       || availability.reason.BlocksReadFailed? || availability.reason.BlockedForMaintenance?)
    ensures duration.Invalid? ==> Stage(duration.reason) == 0
    ensures advance.Invalid? ==> Stage(advance.reason) == 1
    ensures capacity.Invalid? ==> Stage(capacity.reason) == 2
    ensures availability.Invalid? ==> Stage(availability.reason) == 3
  {
  }

  /**
   * `handleSubmit`, given the signed-in user's id, the loaded room, the form's
   * fields, the clock, the two settings reads (one per validator that reads
   * them), the two availability reads and whether the insert succeeds.
   */
  function Submit(
    userId: Option<string>, room: Option<Room>, roomId: string, date: Instant,
    title: string, description: string, attendeesCount: int, startSlot: int, endSlot: int,
    now: Instant, durationSettings: Read<Setting>, advanceSettings: Read<Setting>,
    bookings: Read<Booking>, blocks: Read<RoomBlock>, insertOk: bool): (r: SubmitOutcome)
    ensures r.NotSubmitted? <==> userId.None? || room.None?
    ensures r.Created? ==> insertOk
    ensures r.InsertFailed? ==> !insertOk
    ensures r.Created? || r.InsertFailed? ==>
      userId == Some(r.row.userId) && r.row.roomId == roomId && r.row.status == Confirmado
  {
    if userId.None? || room.None? then NotSubmitted
    else
      var (start, end) := RequestedInterval(date, startSlot, endSlot);
      var verdict := Checks(SettingsOf(durationSettings), SettingsOf(advanceSettings), now, start, end,
        attendeesCount, room.value.capacity, roomId, bookings, blocks);
      if verdict.Invalid? then Rejected(verdict.reason)
      else
        var row := NewBooking(roomId, userId.value, title, DescriptionOrNull(description),
          attendeesCount, start, end, Confirmado);
        if insertOk then Created(row) else InsertFailed(row)
  }

  /**
   * The outcome of a submit with a user and a loaded room follows the
   * verdict of the four rules on the requested interval: a failed rule is
   * reported with its own reason, and when all pass the row is inserted,
   * with the outcome telling whether the insert succeeded.
   */
  lemma SubmitFollowsChecks(
    userId: string, room: Room, roomId: string, date: Instant,
    title: string, description: string, attendeesCount: int, startSlot: int, endSlot: int,
    now: Instant, durationSettings: Read<Setting>, advanceSettings: Read<Setting>,
    bookings: Read<Booking>, blocks: Read<RoomBlock>, insertOk: bool, reason: Reason)
    ensures var (start, end) := RequestedInterval(date, startSlot, endSlot);
      Submit(Some(userId), Some(room), roomId, date, title, description, attendeesCount, startSlot, endSlot,
        now, durationSettings, advanceSettings, bookings, blocks, insertOk) == Rejected(reason) <==>
      Checks(SettingsOf(durationSettings), SettingsOf(advanceSettings), now, start, end,
        attendeesCount, room.capacity, roomId, bookings, blocks) == Invalid(reason)
    ensures var (start, end) := RequestedInterval(date, startSlot, endSlot);
      Submit(Some(userId), Some(room), roomId, date, title, description, attendeesCount, startSlot, endSlot,
        now, durationSettings, advanceSettings, bookings, blocks, insertOk).Created? <==>
      insertOk && Checks(SettingsOf(durationSettings), SettingsOf(advanceSettings), now, start, end,
        attendeesCount, room.capacity, roomId, bookings, blocks) == Valid
    ensures var (start, end) := RequestedInterval(date, startSlot, endSlot);
      Submit(Some(userId), Some(room), roomId, date, title, description, attendeesCount, startSlot, endSlot,
        now, durationSettings, advanceSettings, bookings, blocks, insertOk).InsertFailed? <==>
      !insertOk && Checks(SettingsOf(durationSettings), SettingsOf(advanceSettings), now, start, end,
        attendeesCount, room.capacity, roomId, bookings, blocks) == Valid
  {
  }

  /**
   * A booking the dialog sends to the table keeps every rule, whether or not
   * the insert then succeeds: it lies after now and within the allowed days,
   * lasts between one minute and the maximum, fits in the room, and overlaps
   * no confirmed booking (its own id excluded from nothing) and no block of
   * the room.
   */
  lemma CreatedBookingKeepsRules(
    userId: Option<string>, room: Option<Room>, roomId: string, date: Instant,
    title: string, description: string, attendeesCount: int, startSlot: int, endSlot: int,
    now: Instant, durationSettings: Read<Setting>, advanceSettings: Read<Setting>,
    bookings: Read<Booking>, blocks: Read<RoomBlock>, insertOk: bool, row: NewBooking)
    requires Submit(userId, room, roomId, date, title, description, attendeesCount, startSlot, endSlot,
        now, durationSettings, advanceSettings, bookings, blocks, insertOk) == Created(row) ||
      Submit(userId, room, roomId, date, title, description, attendeesCount, startSlot, endSlot,
        now, durationSettings, advanceSettings, bookings, blocks, insertOk) == InsertFailed(row)
    ensures userId == Some(row.userId) && room.Some?
    ensures row.roomId == roomId && row.status == Confirmado && row.title == title
    ensures row.description.None? <==> description == ""
    ensures (row.start, row.end) == RequestedInterval(date, startSlot, endSlot)
    ensures MS_PER_MINUTE <= row.end - row.start
    ensures MaxHours(SettingsOf(durationSettings)).Some? ==>
      DifferenceInMinutes(row.end, row.start) <= MaxHours(SettingsOf(durationSettings)).value * 60
    ensures now <= row.start
    ensures MaxDays(SettingsOf(advanceSettings)).Some? ==>
      row.start <= AddDays(now, MaxDays(SettingsOf(advanceSettings)).value)
    ensures 1 <= row.attendeesCount == attendeesCount <= room.value.capacity
    ensures !bookings.ReadFailed? && !blocks.ReadFailed?
    ensures forall b :: b in bookings.RowsOrEmpty() && b.roomId == roomId && b.status == Confirmado ==>
      !Overlaps(row.start, row.end, b.start, b.end)
    ensures forall bl :: bl in blocks.RowsOrEmpty() && bl.roomId == roomId ==>
      !Overlaps(row.start, row.end, bl.start, bl.end)
  {
    var (start, end) := RequestedInterval(date, startSlot, endSlot);
    assert !SomeBookingConflicts(bookings.RowsOrEmpty(), roomId, start, end, None);
    assert !SomeBlockConflicts(blocks.RowsOrEmpty(), roomId, start, end);
  }

  /**
   * Under a maximum of at most ten hours, an end slot that is not after the
   * start slot is always rejected: the end moves to the next day and the
   * shortest such booking is 24 hours minus the 13 h 10 of the grid.
   */
  lemma WrappedEndIsTooLong(
    userId: string, room: Room, roomId: string, date: Instant,
    title: string, description: string, attendeesCount: int, startSlot: int, endSlot: int,
    now: Instant, durationSettings: Read<Setting>, advanceSettings: Read<Setting>,
    bookings: Read<Booking>, blocks: Read<RoomBlock>, insertOk: bool, h: int)
    requires 0 <= endSlot <= startSlot < SLOT_COUNT
    requires MaxHours(SettingsOf(durationSettings)) == Some(h) && h <= 10
    ensures Submit(Some(userId), Some(room), roomId, date, title, description, attendeesCount, startSlot, endSlot,
      now, durationSettings, advanceSettings, bookings, blocks, insertOk) == Rejected(ExceedsMaxDuration(h))
  {
    var (start, end) := RequestedInterval(date, startSlot, endSlot);
    WrappedLength(date, startSlot, endSlot);
    assert ValidateBookingDuration(SettingsOf(durationSettings), start, end) == Invalid(ExceedsMaxDuration(h));
  }

  lemma WrappedLength(date: Instant, startSlot: int, endSlot: int)
    requires 0 <= endSlot <= startSlot < SLOT_COUNT
    ensures var (start, end) := RequestedInterval(date, startSlot, endSlot);
      DifferenceInMinutes(end, start) == MINUTES_PER_DAY - 10 * (startSlot - endSlot)
  {
    var (start, end) := RequestedInterval(date, startSlot, endSlot);
    var endToday := AtMinute(date, GetTimeFromSlotIndex(endSlot));
    AtMinuteMonotone(date, GetTimeFromSlotIndex(endSlot), GetTimeFromSlotIndex(startSlot));
    assert end == endToday + MS_PER_DAY;
    assert end - start == (MINUTES_PER_DAY - 10 * (startSlot - endSlot)) * MS_PER_MINUTE;
  }

  /**
   * `onValueChange` of the start select: the end moves to the slot after the
   * new start, capped at the last slot, when it is no longer after the start.
   */
  function EndAfterStartChange(newStart: int, end: int): (r: int)
    ensures newStart < end ==> r == end
    ensures newStart < SLOT_COUNT - 1 ==> newStart < r
    ensures newStart >= end && newStart < SLOT_COUNT - 1 ==> r == newStart + 1
    ensures newStart >= end && newStart >= SLOT_COUNT - 1 ==> r == SLOT_COUNT - 1
  {
    if newStart >= end then (if newStart + 1 < SLOT_COUNT - 1 then newStart + 1 else SLOT_COUNT - 1) else end
  }

  /** The end select lists the slots after the start, the other way round of `EndAfterStartChange`. */
  function EndSlotOptions(start: int): (r: seq<TimeSlot>)
    ensures forall i :: 0 <= i < |r| ==> r[i].index > start
    ensures forall s :: s in r <==> s in TimeSlots() && s.index > start
  {
    Filter(TimeSlots(), (s: TimeSlot) => s.index > start)
  }

  /** The options for a start slot on the grid are exactly the slots after it, in order. */
  lemma EndSlotOptionsAreLaterSlots(start: int)
    requires 0 <= start < SLOT_COUNT
    ensures EndSlotOptions(start) == TimeSlots()[start + 1..]
  {
    var slots := TimeSlots();
    forall i | 0 <= i < |slots|
      ensures slots[i].index == i
    {
      TimeSlotsAt(i);
    }
    FilterIndexAbove(slots, 0, start);
  }

  lemma {:induction false} FilterIndexAbove(s: seq<TimeSlot>, base: int, start: int)
    requires forall i :: 0 <= i < |s| ==> s[i].index == base + i
    requires base <= start + 1 <= base + |s|
    ensures Filter(s, (t: TimeSlot) => t.index > start) == s[start + 1 - base..]
    decreases |s|
  {
    if start + 1 - base > 0 {
      assert s[0].index == base && !(s[0].index > start);
      FilterIndexAbove(s[1..], base + 1, start);
      assert s[1..][start + 1 - (base + 1)..] == s[start + 1 - base..];
    } else {
      FilterAllAbove(s, base, start);
    }
  }

  lemma {:induction false} FilterAllAbove(s: seq<TimeSlot>, base: int, start: int)
    requires forall i :: 0 <= i < |s| ==> s[i].index == base + i
    requires start < base
    ensures Filter(s, (t: TimeSlot) => t.index > start) == s
    decreases |s|
  {
    if s != [] {
      FilterAllAbove(s[1..], base + 1, start);
      assert [s[0]] + s[1..] == s;
    }
  }

  /**
   * The rule sequence inside `handleSubmit`'s `try` block: each rule runs only
   * when the previous passed, and each settings-reading rule reads afresh.
   */
  method RunChecks(
    durationSettingsRead: Read<Setting>, advanceSettingsRead: Read<Setting>, now: Instant,
    start: Instant, end: Instant, attendeesCount: int, roomCapacity: int, roomId: string,
    bookingsRead: Read<Booking>, blocksRead: Read<RoomBlock>)
    returns (verdict: Verdict)
    ensures verdict == Checks(SettingsOf(durationSettingsRead), SettingsOf(advanceSettingsRead), now,
      start, end, attendeesCount, roomCapacity, roomId, bookingsRead, blocksRead)
  {
    var durationSettings := GetSettings(durationSettingsRead);
    verdict := ValidateBookingDuration(durationSettings, start, end);
    if verdict.Invalid? {
      return;
    }
    var advanceSettings := GetSettings(advanceSettingsRead);
    verdict := ValidateBookingAdvance(advanceSettings, now, start);
    if verdict.Invalid? {
      return;
    }
    verdict := ValidateRoomCapacity(attendeesCount, roomCapacity);
    if verdict.Invalid? {
      return;
    }
    verdict := ValidateRoomAvailability(roomId, start, end, None, bookingsRead, blocksRead);
  }

  /** The dialog's state. */
  class BookingForm {
    const roomId: string
    const date: Instant
    var room: Option<Room>
    var title: string
    var description: string
    var attendeesCount: int
    var selectedStartSlot: int
    var selectedEndSlot: int
    var loading: bool

    /** Opened on the slots chosen on the grid, before the room has loaded. */
    constructor(roomId: string, date: Instant, startSlot: int, endSlot: int)
      ensures this.roomId == roomId && this.date == date
      ensures room.None? && title == "" && description == "" && attendeesCount == 1
      ensures selectedStartSlot == startSlot && selectedEndSlot == endSlot && !loading
    {
      this.roomId := roomId;
      this.date := date;
      room := None;
      title := "";
      description := "";
      attendeesCount := 1;
      selectedStartSlot := startSlot;
      selectedEndSlot := endSlot;
      loading := false;
    }

    /**
     * `loadRoom`, given the room read (`None` when it fails): a failure leaves
     * the dialog waiting; a room sets the attendee count to `min(1, capacity)`.
     */
    method LoadRoom(result: Option<Room>)
      modifies this
      ensures result.None? ==> room == old(room) && attendeesCount == old(attendeesCount)
      ensures result.Some? ==>
        room == result && attendeesCount == (if result.value.capacity < 1 then result.value.capacity else 1)
      ensures title == old(title) && description == old(description) && loading == old(loading)
      ensures selectedStartSlot == old(selectedStartSlot) && selectedEndSlot == old(selectedEndSlot)
    {
      if result.Some? {
        room := result;
        attendeesCount := if result.value.capacity < 1 then result.value.capacity else 1;
      }
    }

    method OnTitleChange(value: string)
      modifies this
      ensures title == value
      ensures room == old(room) && description == old(description) && attendeesCount == old(attendeesCount)
      ensures selectedStartSlot == old(selectedStartSlot) && selectedEndSlot == old(selectedEndSlot)
      ensures loading == old(loading)
    {
      title := value;
    }

    method OnDescriptionChange(value: string)
      modifies this
      ensures description == value
      ensures room == old(room) && title == old(title) && attendeesCount == old(attendeesCount)
      ensures selectedStartSlot == old(selectedStartSlot) && selectedEndSlot == old(selectedEndSlot)
      ensures loading == old(loading)
    {
      description := value;
    }

    /** The start select: the end is pushed past the new start when needed. */
    method OnStartSlotChange(slot: int)
      modifies this
      ensures selectedStartSlot == slot
      ensures selectedEndSlot == EndAfterStartChange(slot, old(selectedEndSlot))
      ensures slot < SLOT_COUNT - 1 ==> selectedStartSlot < selectedEndSlot
      ensures room == old(room) && title == old(title) && description == old(description)
      ensures attendeesCount == old(attendeesCount) && loading == old(loading)
    {
      selectedStartSlot := slot;
      if slot >= selectedEndSlot {
        selectedEndSlot := if slot + 1 < SLOT_COUNT - 1 then slot + 1 else SLOT_COUNT - 1;
      }
    }

    /** The end select: the chosen slot's index. */
    method OnEndSlotChange(slot: int)
      modifies this
      ensures selectedEndSlot == slot
      ensures room == old(room) && title == old(title) && description == old(description)
      ensures selectedStartSlot == old(selectedStartSlot)
      ensures attendeesCount == old(attendeesCount) && loading == old(loading)
    {
      selectedEndSlot := slot;
    }

    /** The attendees input: `parseInt(value) || 1`. */
    method OnAttendeesChange(value: string)
      modifies this
      ensures attendeesCount == ParseIntOr(value, 1) && attendeesCount != 0
      ensures room == old(room) && title == old(title) && description == old(description)
      ensures selectedStartSlot == old(selectedStartSlot) && selectedEndSlot == old(selectedEndSlot)
      ensures loading == old(loading)
    {
      attendeesCount := ParseIntOr(value, 1);
    }

    /**
     * `handleSubmit`: nothing happens without a user and a room; otherwise the
     * checks and the insert run with `loading` set, and `loading` ends false.
     * Only `loading` changes.
     */
    method HandleSubmit(
      userId: Option<string>, now: Instant,
      durationSettingsRead: Read<Setting>, advanceSettingsRead: Read<Setting>,
      bookingsRead: Read<Booking>, blocksRead: Read<RoomBlock>, insertOk: bool)
      returns (outcome: SubmitOutcome)
      modifies this
      ensures outcome == Submit(userId, room, roomId, date, title, description, attendeesCount,
        selectedStartSlot, selectedEndSlot, now, durationSettingsRead, advanceSettingsRead,
        bookingsRead, blocksRead, insertOk)
      ensures loading == (if outcome.NotSubmitted? then old(loading) else false)
      ensures room == old(room) && title == old(title) && description == old(description)
      ensures attendeesCount == old(attendeesCount)
      ensures selectedStartSlot == old(selectedStartSlot) && selectedEndSlot == old(selectedEndSlot)
    {
      if userId.None? || room.None? {
        return NotSubmitted;
      }
      loading := true;
      var (start, end) := RequestedInterval(date, selectedStartSlot, selectedEndSlot);
      var verdict := RunChecks(durationSettingsRead, advanceSettingsRead, now, start, end,
        attendeesCount, room.value.capacity, roomId, bookingsRead, blocksRead);
      if verdict.Invalid? {
        outcome := Rejected(verdict.reason);
      } else {
        var row := NewBooking(roomId, userId.value, title, DescriptionOrNull(description),
          attendeesCount, start, end, Confirmado);
        outcome := if insertOk then Created(row) else InsertFailed(row);
      }
      loading := false;
    }
  }
}
