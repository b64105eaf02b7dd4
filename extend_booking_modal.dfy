/**
 * The dialog that moves the end of an existing booking later: it offers the
 * grid slots after the current end, and on submit checks only that the new end
 * is later and that the room is free, excluding the booking itself.
 */
module ExtendBookingModal {
  import opened Wrappers
  import opened Instants
  import opened Database
  import opened JsArrays
  import opened Timeline
  import opened BookingValidation

  /** What one submit ends in. */
  datatype ExtendOutcome =
    | NotSubmitted                     // no end slot selected
    | EndNotLater                      // the new end is not after the current one
    | NoSuchSlot                       // the selected index has no slot (a TypeError, caught)
    | Rejected(reason: Reason)         // the availability check failed
    | UpdateFailed(newEnd: Instant)
    | Extended(updated: Booking)

  /** `loadAvailableSlots`' filter: the slots after the current end's time of day, up to 19:00. */
  function OfferedSlots(booking: Booking): (r: seq<TimeSlot>)
    ensures forall s :: s in r <==> s in TimeSlots() && MinuteOfDay(booking.end) < s.time <= END_TIME
  {
    Filter(TimeSlots(), (s: TimeSlot) => s.time > MinuteOfDay(booking.end) && s.time <= END_TIME)
  }

  /** Some slot is offered exactly when the booking ends before 19:00. */
  lemma OfferedSlotsNonEmptyIff(booking: Booking)
    ensures OfferedSlots(booking) != [] <==> MinuteOfDay(booking.end) < END_TIME
  {
    var r := OfferedSlots(booking);
    TimeSlotsAt(SLOT_COUNT - 1);
    if MinuteOfDay(booking.end) < END_TIME {
      assert TimeSlots()[SLOT_COUNT - 1] in r;
    }
    if r != [] {
      assert r[0] in TimeSlots();
    }
  }

  /** The offered slots keep the grid's order, earliest first. */
  lemma OfferedSlotsInOrder(booking: Booking)
    ensures SortedBy(OfferedSlots(booking), (s: TimeSlot) => s.time)
    ensures IsSubsequence(OfferedSlots(booking), TimeSlots())
  {
    var slots := TimeSlots();
    forall i, j | 0 <= i < j < |slots|
      ensures slots[i].time < slots[j].time
    {
      TimeSlotsAt(i);
      TimeSlotsAt(j);
    }
    FilterKeepsSorted(slots, (s: TimeSlot) => s.time > MinuteOfDay(booking.end) && s.time <= END_TIME,
      (s: TimeSlot) => s.time);
    FilterIsSubsequence(slots, (s: TimeSlot) => s.time > MinuteOfDay(booking.end) && s.time <= END_TIME);
  }

  /** `parse(selectedSlot.time, "HH:mm", startTime)`: the slot's time on the start's day. */
  function NewEnd(booking: Booking, slotTime: Clock): (r: Instant)
    ensures DayOf(r) == DayOf(booking.start) && MinuteOfDay(r) == slotTime
  {
    AtMinute(booking.start, slotTime)
  }

  /**
   * `handleSubmit`, given the selected slot index, the two availability reads
   * and whether the update succeeds.
   */
  function Extend(
    booking: Booking, selectedEndSlot: Option<int>,
    bookings: Read<Booking>, blocks: Read<RoomBlock>, updateOk: bool): (r: ExtendOutcome)
    ensures r.NotSubmitted? <==> selectedEndSlot.None?
    ensures r.NoSuchSlot? <==> selectedEndSlot.Some? && !(0 <= selectedEndSlot.value < SLOT_COUNT)
  {
    if selectedEndSlot.None? then NotSubmitted
    else
      var slots := TimeSlots();
      var index := selectedEndSlot.value;
      if !(0 <= index < |slots|) then NoSuchSlot
      else
        var newEnd := NewEnd(booking, slots[index].time);
        if newEnd <= booking.end then EndNotLater
        else
          var verdict := ValidateRoomAvailability(booking.roomId, booking.start, newEnd, Some(booking.id), bookings, blocks);
          if verdict.Invalid? then Rejected(verdict.reason)
          else if updateOk then Extended(booking.(end := newEnd))
          else UpdateFailed(newEnd)
  }

  /**
   * An extension changes the end and nothing else; the new end is a slot time
   * on the start's day, after the old end, and the room is free from the
   * unchanged start to it apart from the booking itself.
   */
  lemma ExtendedChangesOnlyEnd(
    booking: Booking, selectedEndSlot: Option<int>,
    bookings: Read<Booking>, blocks: Read<RoomBlock>, updateOk: bool, updated: Booking)
    requires Extend(booking, selectedEndSlot, bookings, blocks, updateOk) == Extended(updated)
    ensures updateOk && selectedEndSlot.Some? && 0 <= selectedEndSlot.value < SLOT_COUNT
    ensures updated == booking.(end := updated.end)
    ensures booking.end < updated.end
    ensures DayOf(updated.end) == DayOf(booking.start)
    ensures MinuteOfDay(updated.end) == START_TIME + 10 * selectedEndSlot.value
    ensures !bookings.ReadFailed? && !blocks.ReadFailed?
    ensures forall b :: (b in bookings.RowsOrEmpty() && b.roomId == booking.roomId && b.status == Confirmado &&
      !IsExcluded(b, Some(booking.id))) ==> !Overlaps(booking.start, updated.end, b.start, b.end)
    ensures forall bl :: bl in blocks.RowsOrEmpty() && bl.roomId == booking.roomId ==>
      !Overlaps(booking.start, updated.end, bl.start, bl.end)
  {
    TimeSlotsAt(selectedEndSlot.value);
    var newEnd := NewEnd(booking, TimeSlots()[selectedEndSlot.value].time);
    assert !SomeBookingConflicts(bookings.RowsOrEmpty(), booking.roomId, booking.start, newEnd, Some(booking.id));
    assert !SomeBlockConflicts(blocks.RowsOrEmpty(), booking.roomId, booking.start, newEnd);
  }

  /**
   * For a slot on the grid, the outcome follows the slot's time on the
   * start's day: not after the current end is refused before any query;
   * otherwise the availability verdict, with the booking itself excluded,
   * decides between the reported reason and the update, and the update's
   * own success between extended and failed.
   */
  lemma ExtendFollowsAvailability(
    booking: Booking, index: int, bookings: Read<Booking>, blocks: Read<RoomBlock>, updateOk: bool, reason: Reason)
    requires 0 <= index < SLOT_COUNT
    ensures Extend(booking, Some(index), bookings, blocks, updateOk) == EndNotLater <==>
      NewEnd(booking, START_TIME + 10 * index) <= booking.end
    ensures var newEnd := NewEnd(booking, START_TIME + 10 * index);
      Extend(booking, Some(index), bookings, blocks, updateOk) == Rejected(reason) <==>
      booking.end < newEnd &&
      ValidateRoomAvailability(booking.roomId, booking.start, newEnd, Some(booking.id), bookings, blocks) == Invalid(reason)
    ensures var newEnd := NewEnd(booking, START_TIME + 10 * index);
      Extend(booking, Some(index), bookings, blocks, updateOk) == UpdateFailed(newEnd) <==>
      booking.end < newEnd && !updateOk &&
      ValidateRoomAvailability(booking.roomId, booking.start, newEnd, Some(booking.id), bookings, blocks) == Valid
    ensures var newEnd := NewEnd(booking, START_TIME + 10 * index);
      Extend(booking, Some(index), bookings, blocks, updateOk) == Extended(booking.(end := newEnd)) <==>
      booking.end < newEnd && updateOk &&
      ValidateRoomAvailability(booking.roomId, booking.start, newEnd, Some(booking.id), bookings, blocks) == Valid
  {
    TimeSlotsAt(index);
  }

  /**
   * For a booking that starts and ends on one day, every offered slot gives a
   * later end, so the "must be later" guard only stops ends on a later day.
   */
  lemma OfferedSlotIsLater(booking: Booking, slot: TimeSlot)
    requires DayOf(booking.start) == DayOf(booking.end)
    requires slot in OfferedSlots(booking)
    ensures booking.end < NewEnd(booking, slot.time)
  {
    var day := DayStart(booking.end);
    assert booking.end < day + (MinuteOfDay(booking.end) + 1) * MS_PER_MINUTE;
  }

  /**
   * The extension does not re-apply the duration rule: a 09:00-10:00 booking
   * with no competing rows is extended to 19:00, ten hours, although a
   * maximum of four hours rejects that interval.
   */
  lemma ExtensionSkipsDurationRule(booking: Booking, settings: map<string, string>)
    requires MinuteOfDay(booking.start) == 540 && booking.start % MS_PER_MINUTE == 0
    requires booking.end == booking.start + 60 * MS_PER_MINUTE
    requires MaxHours(settings) == Some(4)
    ensures Extend(booking, Some(SLOT_COUNT - 1), ReadRows([]), ReadRows([]), true) ==
      Extended(booking.(end := booking.start + 600 * MS_PER_MINUTE))
    ensures ValidateBookingDuration(settings, booking.start, booking.start + 600 * MS_PER_MINUTE) ==
      Invalid(ExceedsMaxDuration(4))
  {
    TimeSlotsAt(SLOT_COUNT - 1);
    LastSlotIsTenHoursLater(booking);
    var newEnd := booking.start + 600 * MS_PER_MINUTE;
    NothingToConflictWith(booking.roomId, booking.start, newEnd, Some(booking.id));
    TenHoursExceedFour(settings, booking.start);
  }

  lemma NothingToConflictWith(roomId: string, start: Instant, end: Instant, excludeBookingId: Option<string>)
    ensures ValidateRoomAvailability(roomId, start, end, excludeBookingId, ReadRows([]), ReadRows([])) == Valid
  {
  }

  lemma LastSlotIsTenHoursLater(booking: Booking)
    requires MinuteOfDay(booking.start) == 540 && booking.start % MS_PER_MINUTE == 0
    ensures NewEnd(booking, END_TIME) == booking.start + 600 * MS_PER_MINUTE
  {
    AtOwnMinute(booking.start);
  }

  lemma TenHoursExceedFour(settings: map<string, string>, start: Instant)
    requires MaxHours(settings) == Some(4)
    ensures ValidateBookingDuration(settings, start, start + 600 * MS_PER_MINUTE) == Invalid(ExceedsMaxDuration(4))
  {
    assert DifferenceInMinutes(start + 600 * MS_PER_MINUTE, start) == 600;
  }

  /** The dialog's state. */
  class ExtendBookingModal {
    const booking: Booking
    var selectedEndSlot: Option<int>
    var loading: bool
    var availableSlots: seq<TimeSlot>

    constructor(booking: Booking)
      ensures this.booking == booking
      ensures selectedEndSlot.None? && !loading && availableSlots == []
    {
      this.booking := booking;
      selectedEndSlot := None;
      loading := false;
      availableSlots := [];
    }

    /** The submit button is enabled when not loading and some slot is offered. */
    predicate SubmitEnabled()
      reads this
    {
      !loading && |availableSlots| > 0
    }

    /**
     * `loadAvailableSlots`: offer the later slots and preselect the first;
     * with none offered the selection stays as it was.
     */
    method LoadAvailableSlots()
      modifies this
      ensures availableSlots == OfferedSlots(booking)
      ensures availableSlots != [] ==> selectedEndSlot == Some(availableSlots[0].index)
      ensures availableSlots == [] ==> selectedEndSlot == old(selectedEndSlot)
      ensures loading == old(loading)
      ensures SubmitEnabled() <==> !loading && MinuteOfDay(booking.end) < END_TIME
    {
      OfferedSlotsNonEmptyIff(booking);
      var slots := GenerateTimeSlots();
      var available := Filter(slots, (s: TimeSlot) => s.time > MinuteOfDay(booking.end) && s.time <= END_TIME);
      availableSlots := available;
      if |available| > 0 {
        selectedEndSlot := Some(available[0].index);
      }
    }

    /** The end select: the chosen slot's index. */
    method OnEndSlotChange(index: int)
      modifies this
      ensures selectedEndSlot == Some(index)
      ensures availableSlots == old(availableSlots) && loading == old(loading)
    {
      selectedEndSlot := Some(index);
    }

    /**
     * `handleSubmit`: the later-end guard, the availability check excluding
     * the booking itself, then the update of `end_time`. `loading` ends false
     * once a submit has started; nothing else in the dialog changes.
     */
    method HandleSubmit(bookingsRead: Read<Booking>, blocksRead: Read<RoomBlock>, updateOk: bool)
      returns (outcome: ExtendOutcome)
      modifies this
      ensures outcome == Extend(booking, selectedEndSlot, bookingsRead, blocksRead, updateOk)
      ensures loading == (if outcome.NotSubmitted? then old(loading) else false)
      ensures selectedEndSlot == old(selectedEndSlot) && availableSlots == old(availableSlots)
    {
      if selectedEndSlot.None? {
        return NotSubmitted;
      }
      loading := true;
      var slots := GenerateTimeSlots();
      var index := selectedEndSlot.value;
      if !(0 <= index < |slots|) {
        outcome := NoSuchSlot;
      } else {
        var newEnd := AtMinute(booking.start, slots[index].time);
        if newEnd <= booking.end {
          outcome := EndNotLater;
        } else {
          var verdict := ValidateRoomAvailability(booking.roomId, booking.start, newEnd, Some(booking.id),
            bookingsRead, blocksRead);
          if verdict.Invalid? {
            outcome := Rejected(verdict.reason);
          } else if updateOk {
            outcome := Extended(booking.(end := newEnd));
          } else {
            outcome := UpdateFailed(newEnd);
          }
        }
      }
      loading := false;
    }
  }
}
