/**
 * The slot grid: the fixed table of 10-minute slots from 05:50 to 19:00, the
 * lookups between slot indices and times of day, the normalisation of an
 * instant to its nearest slot, the projection of bookings onto slot ranges and
 * the in-memory availability test of a slot range.
 */
module Timeline {
  import opened Wrappers
  import opened Instants
  import opened Database
  import opened JsArrays
  import opened BookingValidation

  /** "05:50" */
  const START_TIME: Clock := 350
  /** "19:00" */
  const END_TIME: Clock := 1140
  const SLOT_DURATION_MINUTES: int := 10

  /** One column of the grid; `time` and `display` are both the "HH:mm" of the slot. */
  datatype TimeSlot = TimeSlot(time: Clock, display: Clock, index: int)

  /** How many times the generating loop runs: every slot from the start time up to the end time inclusive. */
  const SLOT_COUNT: nat := (END_TIME - START_TIME) / SLOT_DURATION_MINUTES + 1

  function SlotAt(i: nat): TimeSlot
    requires i < SLOT_COUNT
  {
    var t := START_TIME + SLOT_DURATION_MINUTES * i;
    TimeSlot(t, t, i)
  }

  /** The table `generateTimeSlots` builds, in closed form. */
  function TimeSlots(): seq<TimeSlot>
  {
    seq(SLOT_COUNT, i requires 0 <= i < SLOT_COUNT => SlotAt(i))
  }

  /** `generateTimeSlots`: the loop that steps from 05:50 by 10 minutes while not past 19:00. */
  method GenerateTimeSlots() returns (slots: seq<TimeSlot>)
    ensures slots == TimeSlots()
    ensures |slots| == 80
    ensures forall i :: 0 <= i < |slots| ==>
      slots[i].time == START_TIME + 10 * i && slots[i].display == slots[i].time && slots[i].index == i
    ensures slots[0].time == START_TIME && slots[|slots| - 1].time == END_TIME
    ensures forall i, j :: 0 <= i < j < |slots| ==> slots[i].time < slots[j].time
  {
    slots := [];
    var current := START_TIME;
    var index := 0;
    while current <= END_TIME
      invariant 0 <= index <= SLOT_COUNT
      invariant current == START_TIME + SLOT_DURATION_MINUTES * index
      invariant slots == TimeSlots()[..index]
      decreases END_TIME - current
    {
      slots := slots + [TimeSlot(current, current, index)];
      index := index + 1;
      current := current + SLOT_DURATION_MINUTES;
    }
    assert index == SLOT_COUNT;
  }

  lemma TimeSlotsAt(i: int)
    requires 0 <= i < 80
    ensures |TimeSlots()| == 80 && TimeSlots()[i] == TimeSlot(START_TIME + 10 * i, START_TIME + 10 * i, i)
  {
  }

  /** `slots.findIndex((s) => s.time === time)`. */
  function SlotIndexIn(slots: seq<TimeSlot>, time: Clock): int
  {
    FindIndex(slots, (s: TimeSlot) => s.time == time)
  }

  /** `getSlotIndex`: the position of the slot whose time is `time`, or -1. */
  function GetSlotIndex(time: Clock): (r: int)
    ensures r == -1 <==> !IsSlotTime(time)
    ensures IsSlotTime(time) ==> r == (time - START_TIME) / SLOT_DURATION_MINUTES
  {
    SlotIndexInGrid(time);
    SlotIndexIn(TimeSlots(), time)
  }

  /** `getTimeFromSlotIndex`: the time of slot `index`, or "05:50" when there is no such slot. */
  function GetTimeFromSlotIndex(index: int): (t: Clock)
    ensures 0 <= index < 80 ==> t == START_TIME + 10 * index
    ensures !(0 <= index < 80) ==> t == START_TIME
  {
    var slots := TimeSlots();
    if 0 <= index < |slots| then slots[index].time else START_TIME
  }

  /** A time of day is a slot time exactly when it is 05:50 plus a multiple of 10 minutes, up to 19:00. */
  predicate IsSlotTime(t: int)
  {
    START_TIME <= t <= END_TIME && (t - START_TIME) % SLOT_DURATION_MINUTES == 0
  }

  /** In the grid, the lookup finds exactly the slot times, each at its own position. */
  lemma SlotIndexInGrid(time: Clock)
    ensures SlotIndexIn(TimeSlots(), time) == -1 <==> !IsSlotTime(time)
    ensures IsSlotTime(time) ==> SlotIndexIn(TimeSlots(), time) == (time - START_TIME) / SLOT_DURATION_MINUTES
  {
    var r := SlotIndexIn(TimeSlots(), time);
    if IsSlotTime(time) {
      var k := (time - START_TIME) / SLOT_DURATION_MINUTES;
      assert START_TIME + 10 * k == time;
      TimeSlotsAt(k);
      if r != -1 {
        TimeSlotsAt(r);
      }
    } else if r != -1 {
      TimeSlotsAt(r);
    }
  }

  /** Slot index to time and back is the identity on the 80 slots. */
  lemma SlotIndexRoundTrip(i: int)
    requires 0 <= i < 80
    ensures GetSlotIndex(GetTimeFromSlotIndex(i)) == i
  {
  }

  /** Time to slot index and back is the identity on slot times. */
  lemma SlotTimeRoundTrip(t: Clock)
    requires IsSlotTime(t)
    ensures GetTimeFromSlotIndex(GetSlotIndex(t)) == t
  {
  }

  // ----------------------------------------------------------- normalisation

  function Distance(slotTime: int, target: int): nat
  {
    if slotTime >= target then slotTime - target else target - slotTime
  }

  /**
   * The position of the slot the `reduce` keeps: it replaces the kept slot
   * only by a strictly nearer one, so it ends on the first slot at the least
   * distance from `target`.
   */
  function ClosestIndex(s: seq<TimeSlot>, target: int): (k: nat)
    requires |s| > 0
    ensures k < |s|
    ensures forall j :: 0 <= j < |s| ==> Distance(s[k].time, target) <= Distance(s[j].time, target)
    ensures forall j :: 0 <= j < k ==> Distance(s[j].time, target) > Distance(s[k].time, target)
  {
    if |s| == 1 then 0
    else
      var prev := ClosestIndex(s[..|s| - 1], target);
      if Distance(s[|s| - 1].time, target) < Distance(s[prev].time, target) then |s| - 1 else prev
  }

  /**
   * The time of day `normalizeTimeToSlot` moves `m` to: the slot time equal to
   * `m`, or else the nearest slot time, the earlier one on a tie.
   */
  function NearestSlotTime(m: Clock): (t: Clock)
    ensures IsSlotTime(t)
    ensures IsSlotTime(m) ==> t == m
    ensures forall i :: 0 <= i < 80 ==> Distance(t, m) <= Distance(START_TIME + 10 * i, m)
    ensures forall i :: (0 <= i < 80 && Distance(START_TIME + 10 * i, m) == Distance(t, m)) ==>
      t <= START_TIME + 10 * i
  {
    var slots := TimeSlots();
    var slot := Find(slots, (s: TimeSlot) => s.time == m);
    if slot.Some? then
      NearestWhenFound(m, slot.value);
      slot.value.time
    else
      var k := ClosestIndex(slots, m);
      ClosestFacts(m, slots, slots[k], k);
      slots[k].time
  }

  lemma NearestWhenFound(m: Clock, slot: TimeSlot)
    requires slot in TimeSlots() && slot.time == m
    ensures IsSlotTime(slot.time) && IsSlotTime(m)
    ensures forall i :: 0 <= i < 80 ==> Distance(slot.time, m) <= Distance(START_TIME + 10 * i, m)
    ensures forall i :: (0 <= i < 80 && Distance(START_TIME + 10 * i, m) == Distance(slot.time, m)) ==>
      slot.time <= START_TIME + 10 * i
  {
    var k :| 0 <= k < |TimeSlots()| && TimeSlots()[k] == slot;
    TimeSlotsAt(k);
  }

  lemma ClosestFacts(m: Clock, slots: seq<TimeSlot>, closest: TimeSlot, k: int)
    requires slots == TimeSlots() && 0 <= k < |slots| && slots[k] == closest
    requires forall j :: 0 <= j < |slots| ==> Distance(closest.time, m) <= Distance(slots[j].time, m)
    requires forall j :: 0 <= j < k ==> Distance(slots[j].time, m) > Distance(closest.time, m)
    ensures IsSlotTime(closest.time)
    ensures IsSlotTime(m) ==> closest.time == m
    ensures forall i :: 0 <= i < 80 ==> Distance(closest.time, m) <= Distance(START_TIME + 10 * i, m)
    ensures forall i :: (0 <= i < 80 && Distance(START_TIME + 10 * i, m) == Distance(closest.time, m)) ==>
      closest.time <= START_TIME + 10 * i
  {
    TimeSlotsAt(k);
    assert closest.time == START_TIME + 10 * k;
    forall i | 0 <= i < 80
      ensures Distance(closest.time, m) <= Distance(START_TIME + 10 * i, m)
      ensures Distance(START_TIME + 10 * i, m) == Distance(closest.time, m) ==> closest.time <= START_TIME + 10 * i
    {
      TimeSlotsAt(i);
      assert slots[i].time == START_TIME + 10 * i;
      if i < k {
        assert Distance(slots[i].time, m) > Distance(closest.time, m);
      }
    }
    if IsSlotTime(m) {
      var i := (m - START_TIME) / 10;
      assert START_TIME + 10 * i == m;
      assert Distance(closest.time, m) <= Distance(START_TIME + 10 * i, m);
    }
  }

  /**
   * `normalizeTimeToSlot`: the instant on the same day at `NearestSlotTime` of
   * its time of day, with the seconds dropped.
   */
  function NormalizeTimeToSlot(time: Instant): (r: Instant)
    ensures DayOf(r) == DayOf(time) && r == AtMinute(time, MinuteOfDay(r))
    ensures MinuteOfDay(r) == NearestSlotTime(MinuteOfDay(time))
  {
    AtMinute(time, NearestSlotTime(MinuteOfDay(time)))
  }

  /** An instant on a whole minute that is already at a slot time is returned unchanged. */
  lemma NormalizeKeepsSlotInstant(time: Instant)
    requires time % MS_PER_MINUTE == 0 && IsSlotTime(MinuteOfDay(time))
    ensures NormalizeTimeToSlot(time) == time
  {
    AtOwnMinute(time);
  }

  /** A time before the first slot goes to 05:50 and one after the last to 19:00. */
  lemma NormalizeClamps(time: Instant)
    ensures MinuteOfDay(time) <= START_TIME ==> MinuteOfDay(NormalizeTimeToSlot(time)) == START_TIME
    ensures MinuteOfDay(time) >= END_TIME ==> MinuteOfDay(NormalizeTimeToSlot(time)) == END_TIME
  {
    var m := MinuteOfDay(time);
    var r := NearestSlotTime(m);
    assert Distance(r, m) <= Distance(START_TIME + 10 * 0, m);
    assert Distance(r, m) <= Distance(START_TIME + 10 * 79, m);
  }

  /** Half way between two slots the earlier one is kept. */
  lemma NormalizeTieExample(ref: Instant)
    ensures NormalizeTimeToSlot(AtMinute(ref, 355)) == AtMinute(ref, 350)
  {
    NearestAtTie();
  }

  lemma NearestAtTie()
    ensures NearestSlotTime(355) == 350
  {
    var r := NearestSlotTime(355);
    assert Distance(r, 355) <= Distance(START_TIME + 10 * 0, 355);
  }

  // ------------------------------------------------------------- projection

  /** A booking drawn as the contiguous cells `startSlot <= i < endSlot`. */
  datatype BookingBlock = BookingBlock(booking: Booking, startSlot: int, endSlot: int, duration: int)

  /** What the loop body of `getBookingBlocks` pushes for one booking, if anything. */
  function BlockOf(b: Booking, date: Instant, slots: seq<TimeSlot>): (r: Option<BookingBlock>)
    ensures DayOf(b.start) != DayOf(date) && DayOf(b.end) != DayOf(date) ==> r.None?
    ensures SlotIndexIn(slots, MinuteOfDay(b.start)) == -1 ==> r.None?
    ensures r.Some? ==>
      var startSlot := SlotIndexIn(slots, MinuteOfDay(b.start));
      var endSlot := SlotIndexIn(slots, MinuteOfDay(b.end));
      && r.value.booking == b
      && r.value.startSlot == startSlot
      && r.value.endSlot == (if endSlot == -1 then |slots| else endSlot + 1)
      && r.value.duration == r.value.endSlot - r.value.startSlot
    ensures ((DayOf(b.start) == DayOf(date) || DayOf(b.end) == DayOf(date)) &&
      SlotIndexIn(slots, MinuteOfDay(b.start)) != -1) ==> r.Some?
  {
    if DayOf(b.start) != DayOf(date) && DayOf(b.end) != DayOf(date) then None
    else
      var startSlot := SlotIndexIn(slots, MinuteOfDay(b.start));
      var endSlot := SlotIndexIn(slots, MinuteOfDay(b.end));
      if startSlot != -1 && endSlot != -1 then
        Some(BookingBlock(b, startSlot, endSlot + 1, endSlot + 1 - startSlot))
      else if startSlot != -1 && endSlot == -1 then
        Some(BookingBlock(b, startSlot, |slots|, |slots| - startSlot))
      else None
  }

  /** The blocks `getBookingBlocks` returns, in the order of the bookings. */
  function BookingBlocks(bookings: seq<Booking>, date: Instant, slots: seq<TimeSlot>): seq<BookingBlock>
  {
    if bookings == [] then []
    else
      var init := BookingBlocks(bookings[..|bookings| - 1], date, slots);
      match BlockOf(bookings[|bookings| - 1], date, slots)
      case Some(block) => init + [block]
      case None => init
  }

  /** `getBookingBlocks`: push the block of each booking that has one. */
  method GetBookingBlocks(bookings: seq<Booking>, date: Instant, slots: seq<TimeSlot>) returns (blocks: seq<BookingBlock>)
    ensures blocks == BookingBlocks(bookings, date, slots)
  {
    blocks := [];
    for i := 0 to |bookings|
      invariant blocks == BookingBlocks(bookings[..i], date, slots)
    {
      assert bookings[..i + 1][..i] == bookings[..i];
      var block := BlockOf(bookings[i], date, slots);
      if block.Some? {
        blocks := blocks + [block.value];
      }
    }
    assert bookings[..|bookings|] == bookings;
  }

  function BlockBookings(blocks: seq<BookingBlock>): seq<Booking>
  {
    if blocks == [] then [] else [blocks[0].booking] + BlockBookings(blocks[1..])
  }

  lemma BlockBookingsAppend(a: seq<BookingBlock>, b: seq<BookingBlock>)
    ensures BlockBookings(a + b) == BlockBookings(a) + BlockBookings(b)
  {
    if a != [] {
      assert (a + b)[0] == a[0] && (a + b)[1..] == a[1..] + b;
      BlockBookingsAppend(a[1..], b);
      calc {
        BlockBookings(a + b);
        [a[0].booking] + BlockBookings(a[1..] + b);
        [a[0].booking] + (BlockBookings(a[1..]) + BlockBookings(b));
        ([a[0].booking] + BlockBookings(a[1..])) + BlockBookings(b);
        BlockBookings(a) + BlockBookings(b);
      }
    } else {
      assert a + b == b;
    }
  }

  /** Every block comes from one of the bookings. */
  lemma {:induction false} BookingBlocksSound(bookings: seq<Booking>, date: Instant, slots: seq<TimeSlot>)
    ensures forall x :: x in BookingBlocks(bookings, date, slots) ==>
      exists i :: 0 <= i < |bookings| && BlockOf(bookings[i], date, slots) == Some(x)
  {
    if bookings != [] {
      var n := |bookings| - 1;
      var init := bookings[..n];
      BookingBlocksSound(init, date, slots);
      var prev := BookingBlocks(init, date, slots);
      var last := BlockOf(bookings[n], date, slots);
      assert BookingBlocks(bookings, date, slots) == if last.Some? then prev + [last.value] else prev;
      forall x | x in BookingBlocks(bookings, date, slots)
        ensures exists i :: 0 <= i < |bookings| && BlockOf(bookings[i], date, slots) == Some(x)
      {
        if x in prev {
          var i :| 0 <= i < |init| && BlockOf(init[i], date, slots) == Some(x);
          assert bookings[i] == init[i];
        } else {
          assert BlockOf(bookings[n], date, slots) == Some(x);
        }
      }
    }
  }

  /** Every booking that has a block has it among the blocks. */
  lemma {:induction false} BookingBlocksComplete(bookings: seq<Booking>, date: Instant, slots: seq<TimeSlot>)
    ensures forall i :: 0 <= i < |bookings| && BlockOf(bookings[i], date, slots).Some? ==>
      BlockOf(bookings[i], date, slots).value in BookingBlocks(bookings, date, slots)
  {
    if bookings != [] {
      var n := |bookings| - 1;
      var init := bookings[..n];
      BookingBlocksComplete(init, date, slots);
      var prev := BookingBlocks(init, date, slots);
      var r := BookingBlocks(bookings, date, slots);
      assert forall x :: x in prev ==> x in r;
      forall i | 0 <= i < n ensures bookings[i] == init[i] { }
    }
  }

  /** The blocks follow the order of the bookings they come from. */
  lemma {:induction false} BookingBlocksOrdered(bookings: seq<Booking>, date: Instant, slots: seq<TimeSlot>)
    ensures IsSubsequence(BlockBookings(BookingBlocks(bookings, date, slots)), bookings)
  {
    if bookings != [] {
      var n := |bookings| - 1;
      var init := bookings[..n];
      BookingBlocksOrdered(init, date, slots);
      var prev := BookingBlocks(init, date, slots);
      var r := BookingBlocks(bookings, date, slots);
      assert init + [bookings[n]] == bookings;
      match BlockOf(bookings[n], date, slots)
      case Some(block) =>
        assert r == prev + [block];
        BlockBookingsAppend(prev, [block]);
        SubsequenceAppend(BlockBookings(prev), init, bookings[n]);
        assert BlockBookings([block]) == [bookings[n]];
      case None =>
        assert r == prev;
        SubsequenceExtend(BlockBookings(prev), init, bookings[n]);
    }
  }

  lemma {:induction false} SubsequenceAppend<T>(a: seq<T>, b: seq<T>, x: T)
    requires IsSubsequence(a, b)
    ensures IsSubsequence(a + [x], b + [x])
    decreases |b|
  {
    if a == [] {
      SubsequenceOfSingle(b, x);
      assert a + [x] == [x];
    } else {
      assert b != [];
      assert (a + [x])[0] == a[0] && (a + [x])[1..] == a[1..] + [x];
      assert (b + [x])[0] == b[0] && (b + [x])[1..] == b[1..] + [x];
      if a[0] == b[0] {
        SubsequenceAppend(a[1..], b[1..], x);
      } else {
        SubsequenceAppend(a, b[1..], x);
      }
    }
  }

  lemma {:induction false} SubsequenceOfSingle<T>(b: seq<T>, x: T)
    ensures IsSubsequence([x], b + [x])
    decreases |b|
  {
    if b != [] {
      assert (b + [x])[1..] == b[1..] + [x];
      SubsequenceOfSingle(b[1..], x);
      if b[0] == x {
        assert [x][1..] == [];
      }
    } else {
      assert [x][1..] == [];
    }
  }

  lemma {:induction false} SubsequenceExtend<T>(a: seq<T>, b: seq<T>, x: T)
    requires IsSubsequence(a, b)
    ensures IsSubsequence(a, b + [x])
    decreases |b|
  {
    if a != [] {
      assert b != [];
      assert (b + [x])[0] == b[0] && (b + [x])[1..] == b[1..] + [x];
      if a[0] == b[0] {
        SubsequenceExtend(a[1..], b[1..], x);
      } else {
        SubsequenceExtend(a, b[1..], x);
      }
    }
  }

  /**
   * A booking from 09:00 to 09:10 covers the two cells 09:00 and 09:10: the
   * end slot is the index of the end time plus one.
   */
  lemma TenMinuteBookingCoversTwoCells(b: Booking, date: Instant)
    requires DayOf(b.start) == DayOf(date)
    requires MinuteOfDay(b.start) == 540 && MinuteOfDay(b.end) == 550
    ensures BlockOf(b, date, TimeSlots()) == Some(BookingBlock(b, 19, 21, 2))
  {
    NineOClockSlots();
    BlockOfBothFound(b, date, TimeSlots(), 19, 20);
  }

  lemma NineOClockSlots()
    ensures GetSlotIndex(540) == 19 && GetSlotIndex(550) == 20
  {
    SlotIndexRoundTrip(19);
    SlotIndexRoundTrip(20);
  }

  lemma BlockOfBothFound(b: Booking, date: Instant, slots: seq<TimeSlot>, startSlot: int, endSlot: int)
    requires DayOf(b.start) == DayOf(date)
    requires SlotIndexIn(slots, MinuteOfDay(b.start)) == startSlot != -1
    requires SlotIndexIn(slots, MinuteOfDay(b.end)) == endSlot != -1
    ensures BlockOf(b, date, slots) == Some(BookingBlock(b, startSlot, endSlot + 1, endSlot + 1 - startSlot))
  {
  }

  // ------------------------------------------------------------ availability

  /**
   * `checkTimeSlotAvailability`: whether no confirmed booking and no block of
   * the room overlaps the interval from slot `startSlot` to slot `endSlot` on
   * the day of `date`. `None` stands for the TypeError thrown when either
   * index has no slot.
   */
  function CheckTimeSlotAvailability(
    roomId: string, date: Instant, startSlot: int, endSlot: int,
    bookings: seq<Booking>, roomBlocks: seq<RoomBlock>): (r: Option<bool>)
    ensures r.None? <==> !(0 <= startSlot < 80 && 0 <= endSlot < 80)
    ensures r.Some? ==>
      var start := AtMinute(date, START_TIME + 10 * startSlot);
      var end := AtMinute(date, START_TIME + 10 * endSlot);
      (r.value <==>
        !SomeBookingConflicts(bookings, roomId, start, end, None) &&
        !SomeBlockConflicts(roomBlocks, roomId, start, end))
  {
    var slots := TimeSlots();
    if !(0 <= startSlot < |slots|) || !(0 <= endSlot < |slots|) then None
    else
      var dayStart := DayStart(date);
      var startTime := AtMinute(dayStart, slots[startSlot].time);
      var endTime := AtMinute(dayStart, slots[endSlot].time);
      var hasConflict := Any(bookings, (b: Booking) =>
        b.roomId == roomId && b.status == Confirmado && Overlaps(startTime, endTime, b.start, b.end));
      AnyIff(bookings, (b: Booking) =>
        b.roomId == roomId && b.status == Confirmado && Overlaps(startTime, endTime, b.start, b.end));
      if hasConflict then Some(false)
      else
        var hasBlock := Any(roomBlocks, (bl: RoomBlock) =>
          bl.roomId == roomId && Overlaps(startTime, endTime, bl.start, bl.end));
        AnyIff(roomBlocks, (bl: RoomBlock) =>
          bl.roomId == roomId && Overlaps(startTime, endTime, bl.start, bl.end));
        Some(!hasBlock)
  }

  /**
   * The in-memory test agrees with the availability validator run on the
   * same rows with no exclusion.
   */
  lemma CheckAgreesWithValidator(
    roomId: string, date: Instant, startSlot: int, endSlot: int,
    bookings: seq<Booking>, roomBlocks: seq<RoomBlock>)
    requires 0 <= startSlot < 80 && 0 <= endSlot < 80
    ensures CheckTimeSlotAvailability(roomId, date, startSlot, endSlot, bookings, roomBlocks) == Some(true) <==>
      ValidateRoomAvailability(roomId, AtMinute(date, START_TIME + 10 * startSlot),
        AtMinute(date, START_TIME + 10 * endSlot), None, ReadRows(bookings), ReadRows(roomBlocks)) == Valid
  {
  }
}
