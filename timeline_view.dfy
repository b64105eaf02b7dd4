/**
 * The day grid of rooms by ten-minute slots: the floor, capacity and
 * "only available" filters over the rooms, the classification of each cell as
 * a booking, a maintenance block or a free slot, the selection made by
 * clicking a free cell, day navigation, the day's data load, and the avatar
 * initials shown at the start of a booking.
 */
module TimelineView {
  import opened Wrappers
  import opened Instants
  import opened Database
  import opened JsArrays
  import opened Timeline
  import opened BookingValidation
  import opened BookingForm

  // ------------------------------------------------------------ occupancy

  /** `getBookingBlocks` over the bookings of one room. */
  function RoomBookingBlocks(roomId: string, bookings: seq<Booking>, date: Instant): seq<BookingBlock>
  {
    BookingBlocks(Filter(bookings, (b: Booking) => b.roomId == roomId), date, TimeSlots())
  }

  /** Cell `i` lies in the block's range `startSlot <= i < endSlot`. */
  predicate InRange(block: BookingBlock, i: int)
  {
    block.startSlot <= i < block.endSlot
  }

  /** `roomBookingBlocks.some(...)`: some block's range holds cell `i`. */
  predicate SlotHasBooking(blocks: seq<BookingBlock>, i: int)
  {
    Any(blocks, (b: BookingBlock) => InRange(b, i))
  }

  /**
   * A maintenance block covers a slot time when it starts on the grid's day
   * and the time lies between its start and end read as times of day.
   */
  predicate InBlockWindow(block: RoomBlock, date: Instant, time: Clock)
  {
    DayOf(block.start) == DayOf(date) && MinuteOfDay(block.start) <= time < MinuteOfDay(block.end)
  }

  /** The reference meaning of "booked": some booking of the room has a block holding cell `i`. */
  ghost predicate BookedAt(bookings: seq<Booking>, roomId: string, date: Instant, i: int)
  {
    exists b :: b in bookings && b.roomId == roomId && Covers(BlockOf(b, date, TimeSlots()), i)
  }

  predicate Covers(block: Option<BookingBlock>, i: int)
  {
    block.Some? && InRange(block.value, i)
  }

  /** The reference meaning of "blocked": some block of the room covers the slot time. */
  ghost predicate BlockedAt(roomBlocks: seq<RoomBlock>, roomId: string, date: Instant, time: Clock)
  {
    exists bl :: bl in roomBlocks && bl.roomId == roomId && InBlockWindow(bl, date, time)
  }

  /** Some booking of the room has a block starting at cell `i`. */
  ghost predicate StartsAt(bookings: seq<Booking>, roomId: string, date: Instant, i: int)
  {
    exists b :: b in bookings && b.roomId == roomId && BlockOf(b, date, TimeSlots()).Some? &&
      BlockOf(b, date, TimeSlots()).value.startSlot == i
  }

  /** A block of the room's bookings comes from one of them, and has each such booking's block. */
  lemma RoomBookingBlocksFacts(roomId: string, bookings: seq<Booking>, date: Instant)
    ensures forall x :: x in RoomBookingBlocks(roomId, bookings, date) ==>
      x.booking in bookings && x.booking.roomId == roomId && BlockOf(x.booking, date, TimeSlots()) == Some(x)
    ensures forall b :: b in bookings && b.roomId == roomId && BlockOf(b, date, TimeSlots()).Some? ==>
      BlockOf(b, date, TimeSlots()).value in RoomBookingBlocks(roomId, bookings, date)
  {
    var own := Filter(bookings, (b: Booking) => b.roomId == roomId);
    BookingBlocksSound(own, date, TimeSlots());
    BookingBlocksComplete(own, date, TimeSlots());
    forall b | b in bookings && b.roomId == roomId && BlockOf(b, date, TimeSlots()).Some?
      ensures BlockOf(b, date, TimeSlots()).value in RoomBookingBlocks(roomId, bookings, date)
    {
      assert b in own;
      var i :| 0 <= i < |own| && own[i] == b;
    }
  }

  /** The source's test for a booked cell agrees with `BookedAt`. */
  lemma SlotHasBookingIff(roomId: string, bookings: seq<Booking>, date: Instant, i: int)
    ensures SlotHasBooking(RoomBookingBlocks(roomId, bookings, date), i) <==> BookedAt(bookings, roomId, date, i)
  {
    if SlotHasBooking(RoomBookingBlocks(roomId, bookings, date), i) {
      BookedWhenSomeBlockHolds(roomId, bookings, date, i);
    }
    if BookedAt(bookings, roomId, date, i) {
      SomeBlockHoldsWhenBooked(roomId, bookings, date, i);
    }
  }

  lemma BookedWhenSomeBlockHolds(roomId: string, bookings: seq<Booking>, date: Instant, i: int)
    requires SlotHasBooking(RoomBookingBlocks(roomId, bookings, date), i)
    ensures BookedAt(bookings, roomId, date, i)
  {
    var blocks := RoomBookingBlocks(roomId, bookings, date);
    AnyIff(blocks, (b: BookingBlock) => InRange(b, i));
    var k :| 0 <= k < |blocks| && InRange(blocks[k], i);
    RoomBookingBlocksFacts(roomId, bookings, date);
    var x := blocks[k];
    assert x in blocks;
    assert BlockOf(x.booking, date, TimeSlots()) == Some(x);
  }

  lemma SomeBlockHoldsWhenBooked(roomId: string, bookings: seq<Booking>, date: Instant, i: int)
    requires BookedAt(bookings, roomId, date, i)
    ensures SlotHasBooking(RoomBookingBlocks(roomId, bookings, date), i)
  {
    var blocks := RoomBookingBlocks(roomId, bookings, date);
    var b :| b in bookings && b.roomId == roomId && Covers(BlockOf(b, date, TimeSlots()), i);
    var x := BlockOf(b, date, TimeSlots()).value;
    RoomBookingBlocksFacts(roomId, bookings, date);
    assert x in blocks;
    var k :| 0 <= k < |blocks| && blocks[k] == x;
    AnyIff(blocks, (b: BookingBlock) => InRange(b, i));
  }

  /** The "only available" test, on the room's blocks filtered first, agrees with `BlockedAt`. */
  lemma RoomBlocksFirstIff(roomId: string, roomBlocks: seq<RoomBlock>, date: Instant, time: Clock)
    ensures Any(Filter(roomBlocks, (rb: RoomBlock) => rb.roomId == roomId), (bl: RoomBlock) => InBlockWindow(bl, date, time))
      <==> BlockedAt(roomBlocks, roomId, date, time)
  {
    var own := Filter(roomBlocks, (rb: RoomBlock) => rb.roomId == roomId);
    AnyIff(own, (bl: RoomBlock) => InBlockWindow(bl, date, time));
    if BlockedAt(roomBlocks, roomId, date, time) {
      var bl :| bl in roomBlocks && bl.roomId == roomId && InBlockWindow(bl, date, time);
      assert bl in own;
      var k :| 0 <= k < |own| && own[k] == bl;
    }
  }

  /** The cell's test, with the room check inside, agrees with `BlockedAt`. */
  lemma RoomCheckInsideIff(roomId: string, roomBlocks: seq<RoomBlock>, date: Instant, time: Clock)
    ensures Any(roomBlocks, (bl: RoomBlock) => bl.roomId == roomId && InBlockWindow(bl, date, time))
      <==> BlockedAt(roomBlocks, roomId, date, time)
  {
    AnyIff(roomBlocks, (bl: RoomBlock) => bl.roomId == roomId && InBlockWindow(bl, date, time));
    if BlockedAt(roomBlocks, roomId, date, time) {
      var bl :| bl in roomBlocks && bl.roomId == roomId && InBlockWindow(bl, date, time);
      var k :| 0 <= k < |roomBlocks| && roomBlocks[k] == bl;
    }
  }

  // -------------------------------------------------------------- filters

  /** The "only available" test: some slot has neither a booking nor a block of the room. */
  predicate RoomHasFreeSlot(room: Room, bookings: seq<Booking>, roomBlocks: seq<RoomBlock>, date: Instant)
  {
    var blocks := RoomBookingBlocks(room.id, bookings, date);
    var own := Filter(roomBlocks, (rb: RoomBlock) => rb.roomId == room.id);
    Any(TimeSlots(), (slot: TimeSlot) =>
      !SlotHasBooking(blocks, slot.index) && !Any(own, (bl: RoomBlock) => InBlockWindow(bl, date, slot.time)))
  }

  /** A room passes "only available" exactly when some cell is neither booked nor blocked. */
  lemma RoomHasFreeSlotIff(room: Room, bookings: seq<Booking>, roomBlocks: seq<RoomBlock>, date: Instant)
    ensures RoomHasFreeSlot(room, bookings, roomBlocks, date) <==>
      exists i :: 0 <= i < SLOT_COUNT && FreeAt(room, bookings, roomBlocks, date, i)
  {
    if RoomHasFreeSlot(room, bookings, roomBlocks, date) {
      FreeSlotIsFreeCell(room, bookings, roomBlocks, date);
    }
    if exists i :: 0 <= i < SLOT_COUNT && FreeAt(room, bookings, roomBlocks, date, i) {
      var i :| 0 <= i < SLOT_COUNT && FreeAt(room, bookings, roomBlocks, date, i);
      FreeCellIsFreeSlot(room, bookings, roomBlocks, date, i);
    }
  }

  /** Cell `i` is neither booked nor blocked, in the reference terms. */
  ghost predicate FreeAt(room: Room, bookings: seq<Booking>, roomBlocks: seq<RoomBlock>, date: Instant, i: int)
    requires 0 <= i < SLOT_COUNT
  {
    !BookedAt(bookings, room.id, date, i) && !BlockedAt(roomBlocks, room.id, date, START_TIME + 10 * i)
  }

  lemma FreeSlotIsFreeCell(room: Room, bookings: seq<Booking>, roomBlocks: seq<RoomBlock>, date: Instant)
    requires RoomHasFreeSlot(room, bookings, roomBlocks, date)
    ensures exists i :: 0 <= i < SLOT_COUNT && FreeAt(room, bookings, roomBlocks, date, i)
  {
    var blocks := RoomBookingBlocks(room.id, bookings, date);
    var own := Filter(roomBlocks, (rb: RoomBlock) => rb.roomId == room.id);
    var free := (slot: TimeSlot) =>
      !SlotHasBooking(blocks, slot.index) && !Any(own, (bl: RoomBlock) => InBlockWindow(bl, date, slot.time));
    AnyIff(TimeSlots(), free);
    var i :| 0 <= i < |TimeSlots()| && free(TimeSlots()[i]);
    TimeSlotsAt(i);
    SlotHasBookingIff(room.id, bookings, date, i);
    RoomBlocksFirstIff(room.id, roomBlocks, date, START_TIME + 10 * i);
    assert FreeAt(room, bookings, roomBlocks, date, i);
  }

  lemma FreeCellIsFreeSlot(room: Room, bookings: seq<Booking>, roomBlocks: seq<RoomBlock>, date: Instant, i: int)
    requires 0 <= i < SLOT_COUNT && FreeAt(room, bookings, roomBlocks, date, i)
    ensures RoomHasFreeSlot(room, bookings, roomBlocks, date)
  {
    var blocks := RoomBookingBlocks(room.id, bookings, date);
    var own := Filter(roomBlocks, (rb: RoomBlock) => rb.roomId == room.id);
    var free := (slot: TimeSlot) =>
      !SlotHasBooking(blocks, slot.index) && !Any(own, (bl: RoomBlock) => InBlockWindow(bl, date, slot.time));
    TimeSlotsAt(i);
    SlotHasBookingIff(room.id, bookings, date, i);
    RoomBlocksFirstIff(room.id, roomBlocks, date, START_TIME + 10 * i);
    assert free(TimeSlots()[i]);
    AnyIff(TimeSlots(), free);
  }

  /**
   * `filteredRooms`: the floor filter (`None` is "all"), the minimum-capacity
   * filter (`None` is "all") and, when switched on, "only available".
   */
  function FilteredRooms(
    rooms: seq<Room>, floor: Option<int>, minCapacity: Option<int>, onlyAvailable: bool,
    bookings: seq<Booking>, roomBlocks: seq<RoomBlock>, date: Instant): (r: seq<Room>)
    ensures forall x :: x in r <==>
      && x in rooms
      && (floor.None? || x.floor == floor.value)
      && (minCapacity.None? || x.capacity >= minCapacity.value)
      && (!onlyAvailable || RoomHasFreeSlot(x, bookings, roomBlocks, date))
  {
    var byFloor := if floor.None? then rooms else Filter(rooms, (x: Room) => x.floor == floor.value);
    var byCapacity := if minCapacity.None? then byFloor
      else Filter(byFloor, (x: Room) => x.capacity >= minCapacity.value);
    if onlyAvailable then Filter(byCapacity, (x: Room) => RoomHasFreeSlot(x, bookings, roomBlocks, date))
    else byCapacity
  }

  /** With every filter at "all" and "only available" off the grid lists every room. */
  lemma NoFilterKeepsAll(rooms: seq<Room>, bookings: seq<Booking>, roomBlocks: seq<RoomBlock>, date: Instant)
    ensures FilteredRooms(rooms, None, None, false, bookings, roomBlocks, date) == rooms
  {
  }

  /** The filters only remove rooms: the rest keep their order. */
  lemma FilteredRoomsInOrder(
    rooms: seq<Room>, floor: Option<int>, minCapacity: Option<int>, onlyAvailable: bool,
    bookings: seq<Booking>, roomBlocks: seq<RoomBlock>, date: Instant)
    ensures IsSubsequence(FilteredRooms(rooms, floor, minCapacity, onlyAvailable, bookings, roomBlocks, date), rooms)
  {
    var byFloor := if floor.None? then rooms else Filter(rooms, (x: Room) => x.floor == floor.value);
    var byCapacity := if minCapacity.None? then byFloor
      else Filter(byFloor, (x: Room) => x.capacity >= minCapacity.value);
    SubsequenceReflexive(rooms);
    if floor.Some? {
      FilterIsSubsequence(rooms, (x: Room) => x.floor == floor.value);
    }
    SubsequenceReflexive(byFloor);
    if minCapacity.Some? {
      FilterIsSubsequence(byFloor, (x: Room) => x.capacity >= minCapacity.value);
    }
    SubsequenceTransitive(byCapacity, byFloor, rooms);
    if onlyAvailable {
      FilterIsSubsequence(byCapacity, (x: Room) => RoomHasFreeSlot(x, bookings, roomBlocks, date));
      SubsequenceTransitive(
        Filter(byCapacity, (x: Room) => RoomHasFreeSlot(x, bookings, roomBlocks, date)), byCapacity, rooms);
    }
  }

  lemma {:induction false} SubsequenceReflexive<T>(s: seq<T>)
    ensures IsSubsequence(s, s)
  {
    if s != [] {
      SubsequenceReflexive(s[1..]);
    }
  }

  // ---------------------------------------------------------------- cells

  /** What one cell of a room's row shows. */
  datatype Cell =
    | BookingCell(booking: Booking, showHeader: bool)   // blue; the header carries avatar and title
    | BlockedCell                                        // red "Bloqueada"
    | FreeCell                                           // a button that selects the slot

  /**
   * One cell: the first booking block holding it wins, then a block of the
   * room covering its time, else it is free. The header is shown when any of
   * the room's blocks starts at this cell.
   */
  function CellAt(
    roomBookings: seq<BookingBlock>, roomBlocks: seq<RoomBlock>, roomId: string, date: Instant,
    slot: TimeSlot): (r: Cell)
    ensures r.BookingCell? ==>
      exists k :: (0 <= k < |roomBookings| && roomBookings[k].booking == r.booking &&
        InRange(roomBookings[k], slot.index) && forall j :: 0 <= j < k ==> !InRange(roomBookings[j], slot.index))
    ensures !r.BookingCell? ==> forall k :: 0 <= k < |roomBookings| ==> !InRange(roomBookings[k], slot.index)
  {
    var found := Find(roomBookings, (b: BookingBlock) => InRange(b, slot.index));
    var isStart := Any(roomBookings, (b: BookingBlock) => b.startSlot == slot.index);
    var isBlocked := Any(roomBlocks, (bl: RoomBlock) => bl.roomId == roomId && InBlockWindow(bl, date, slot.time));
    if found.Some? then BookingCell(found.value.booking, isStart)
    else if isBlocked then BlockedCell
    else FreeCell
  }

  /** The cells of a room's row, one per slot. */
  function RoomRow(room: Room, bookings: seq<Booking>, roomBlocks: seq<RoomBlock>, date: Instant): (r: seq<Cell>)
    ensures |r| == |TimeSlots()|
  {
    var roomBookings := RoomBookingBlocks(room.id, bookings, date);
    seq(|TimeSlots()|, i requires 0 <= i < |TimeSlots()| =>
      CellAt(roomBookings, roomBlocks, room.id, date, TimeSlots()[i]))
  }

  /** Booking beats blocked, blocked beats free. */
  lemma CellPriority(room: Room, bookings: seq<Booking>, roomBlocks: seq<RoomBlock>, date: Instant, i: int)
    requires 0 <= i < SLOT_COUNT
    ensures |RoomRow(room, bookings, roomBlocks, date)| == SLOT_COUNT
    ensures var c := RoomRow(room, bookings, roomBlocks, date)[i];
      var booked := BookedAt(bookings, room.id, date, i);
      var blocked := BlockedAt(roomBlocks, room.id, date, START_TIME + 10 * i);
      && (c.BookingCell? <==> booked)
      && (c.BlockedCell? <==> !booked && blocked)
      && (c.FreeCell? <==> !booked && !blocked)
  {
    var roomBookings := RoomBookingBlocks(room.id, bookings, date);
    TimeSlotsAt(i);
    var slot := TimeSlots()[i];
    assert RoomRow(room, bookings, roomBlocks, date)[i] == CellAt(roomBookings, roomBlocks, room.id, date, slot);
    AnyIff(roomBookings, (b: BookingBlock) => InRange(b, i));
    SlotHasBookingIff(room.id, bookings, date, i);
    RoomCheckInsideIff(room.id, roomBlocks, date, slot.time);
  }

  /** A booking cell shows a booking of the room whose block holds the cell. */
  lemma BookingCellShowsHolder(room: Room, bookings: seq<Booking>, roomBlocks: seq<RoomBlock>, date: Instant, i: int)
    requires 0 <= i < SLOT_COUNT
    requires |RoomRow(room, bookings, roomBlocks, date)| == SLOT_COUNT
    requires RoomRow(room, bookings, roomBlocks, date)[i].BookingCell?
    ensures var c := RoomRow(room, bookings, roomBlocks, date)[i];
      && c.booking in bookings && c.booking.roomId == room.id
      && Covers(BlockOf(c.booking, date, TimeSlots()), i)
  {
    var roomBookings := RoomBookingBlocks(room.id, bookings, date);
    TimeSlotsAt(i);
    var c := RoomRow(room, bookings, roomBlocks, date)[i];
    assert c == CellAt(roomBookings, roomBlocks, room.id, date, TimeSlots()[i]);
    var found := Find(roomBookings, (b: BookingBlock) => InRange(b, i));
    var x := found.value;
    assert x in roomBookings && InRange(x, i) && c.booking == x.booking;
    RoomBookingBlocksFacts(room.id, bookings, date);
    assert BlockOf(x.booking, date, TimeSlots()) == Some(x);
  }

  /**
   * A booking cell carries the header exactly when some booking of the room
   * starts at the cell; so a booking's own first cell always has it.
   */
  lemma BookingCellHeader(room: Room, bookings: seq<Booking>, roomBlocks: seq<RoomBlock>, date: Instant, i: int)
    requires 0 <= i < SLOT_COUNT
    requires |RoomRow(room, bookings, roomBlocks, date)| == SLOT_COUNT
    requires RoomRow(room, bookings, roomBlocks, date)[i].BookingCell?
    ensures var c := RoomRow(room, bookings, roomBlocks, date)[i];
      && (c.showHeader <==> StartsAt(bookings, room.id, date, i))
      && ((BlockOf(c.booking, date, TimeSlots()).Some? &&
           BlockOf(c.booking, date, TimeSlots()).value.startSlot == i) ==> c.showHeader)
  {
    var roomBookings := RoomBookingBlocks(room.id, bookings, date);
    TimeSlotsAt(i);
    var c := RoomRow(room, bookings, roomBlocks, date)[i];
    assert c == CellAt(roomBookings, roomBlocks, room.id, date, TimeSlots()[i]);
    assert c.showHeader == Any(roomBookings, (b: BookingBlock) => b.startSlot == i);
    if c.showHeader {
      HeaderHasStarter(room.id, bookings, date, i);
    }
    if StartsAt(bookings, room.id, date, i) {
      StarterGivesHeader(room.id, bookings, date, i);
    }
    if BlockOf(c.booking, date, TimeSlots()).Some? && BlockOf(c.booking, date, TimeSlots()).value.startSlot == i {
      BookingCellShowsHolder(room, bookings, roomBlocks, date, i);
      assert StartsAt(bookings, room.id, date, i);
      StarterGivesHeader(room.id, bookings, date, i);
    }
  }

  lemma HeaderHasStarter(roomId: string, bookings: seq<Booking>, date: Instant, i: int)
    requires Any(RoomBookingBlocks(roomId, bookings, date), (b: BookingBlock) => b.startSlot == i)
    ensures StartsAt(bookings, roomId, date, i)
  {
    var blocks := RoomBookingBlocks(roomId, bookings, date);
    AnyIff(blocks, (b: BookingBlock) => b.startSlot == i);
    var k :| 0 <= k < |blocks| && blocks[k].startSlot == i;
    RoomBookingBlocksFacts(roomId, bookings, date);
    var x := blocks[k];
    assert x in blocks;
    assert BlockOf(x.booking, date, TimeSlots()) == Some(x);
  }

  lemma StarterGivesHeader(roomId: string, bookings: seq<Booking>, date: Instant, i: int)
    requires StartsAt(bookings, roomId, date, i)
    ensures Any(RoomBookingBlocks(roomId, bookings, date), (b: BookingBlock) => b.startSlot == i)
  {
    var blocks := RoomBookingBlocks(roomId, bookings, date);
    var b :| b in bookings && b.roomId == roomId && BlockOf(b, date, TimeSlots()).Some? &&
      BlockOf(b, date, TimeSlots()).value.startSlot == i;
    var x := BlockOf(b, date, TimeSlots()).value;
    RoomBookingBlocksFacts(roomId, bookings, date);
    assert x in blocks;
    var k :| 0 <= k < |blocks| && blocks[k] == x;
    AnyIff(blocks, (b: BookingBlock) => b.startSlot == i);
  }

  /** "Only available" keeps a room exactly when its row shows a free cell. */
  lemma OnlyAvailableMeansFreeCell(room: Room, bookings: seq<Booking>, roomBlocks: seq<RoomBlock>, date: Instant)
    ensures |RoomRow(room, bookings, roomBlocks, date)| == SLOT_COUNT
    ensures RoomHasFreeSlot(room, bookings, roomBlocks, date) <==>
      exists i :: 0 <= i < SLOT_COUNT && RoomRow(room, bookings, roomBlocks, date)[i].FreeCell?
  {
    var row := RoomRow(room, bookings, roomBlocks, date);
    TimeSlotsAt(0);
    RoomHasFreeSlotIff(room, bookings, roomBlocks, date);
    forall i | 0 <= i < SLOT_COUNT
      ensures row[i].FreeCell? <==> FreeAt(room, bookings, roomBlocks, date, i)
    {
      CellPriority(room, bookings, roomBlocks, date, i);
    }
  }

  // ------------------------------------------------------------ selection

  /** `selectedSlot`: the room and the start and end slots handed to the booking dialog. */
  datatype SlotSelection = SlotSelection(roomId: string, startSlot: int, endSlot: int)

  /**
   * A click on cell `i` before the last one opens the dialog on the ten
   * minutes from that cell's time, on the grid's day.
   */
  lemma ClickedCellIsTenMinutes(date: Instant, i: int)
    requires 0 <= i < SLOT_COUNT - 1
    ensures var (start, end) := RequestedInterval(date, i, i + 1);
      DayOf(start) == DayOf(date) && MinuteOfDay(start) == START_TIME + 10 * i &&
      end - start == 10 * MS_PER_MINUTE
  {
    AtMinuteMonotone(date, GetTimeFromSlotIndex(i), GetTimeFromSlotIndex(i + 1));
  }

  /**
   * A click on the last cell, 19:00, selects end slot 80, which has no slot:
   * its time falls back to 05:50, the interval wraps to 05:50 the next day,
   * and under a maximum of at most ten hours the dialog can only reject it.
   */
  lemma LastCellClickIsTooLong(
    userId: string, room: Room, roomId: string, date: Instant,
    title: string, description: string, attendeesCount: int,
    now: Instant, durationSettings: Read<Setting>, advanceSettings: Read<Setting>,
    bookings: Read<Booking>, blocks: Read<RoomBlock>, insertOk: bool, h: int)
    requires MaxHours(SettingsOf(durationSettings)) == Some(h) && h <= 10
    ensures Submit(Some(userId), Some(room), roomId, date, title, description, attendeesCount,
      SLOT_COUNT - 1, SLOT_COUNT, now, durationSettings, advanceSettings, bookings, blocks, insertOk)
      == Rejected(ExceedsMaxDuration(h))
  {
    assert RequestedInterval(date, SLOT_COUNT - 1, SLOT_COUNT) == RequestedInterval(date, SLOT_COUNT - 1, 0);
    WrappedEndIsTooLong(userId, room, roomId, date, title, description, attendeesCount,
      SLOT_COUNT - 1, 0, now, durationSettings, advanceSettings, bookings, blocks, insertOk, h);
  }

  // ---------------------------------------------------------------- loads

  /** The rooms query: active rooms only. */
  function ActiveRooms(rows: seq<Room>): (r: seq<Room>)
    ensures forall x :: x in r <==> x in rows && x.status == Ativo
  {
    Filter(rows, (x: Room) => x.status == Ativo)
  }

  /** The start lies in `[startOfDay(date), startOfDay(date) + 1 day)`. */
  predicate StartsWithinDay(start: Instant, date: Instant)
  {
    DayStart(date) <= start < DayStart(date) + MS_PER_DAY
  }

  /** The bookings query: confirmed bookings starting within the grid's day. */
  function DayBookings(rows: seq<Booking>, date: Instant): (r: seq<Booking>)
    ensures forall b :: b in r <==> b in rows && b.status == Confirmado && DayOf(b.start) == DayOf(date)
  {
    DayRangeIsDay(date);
    Filter(rows, (b: Booking) => b.status == Confirmado && StartsWithinDay(b.start, date))
  }

  /** The blocks query: blocks starting within the grid's day, of any room. */
  function DayBlocks(rows: seq<RoomBlock>, date: Instant): (r: seq<RoomBlock>)
    ensures forall bl :: bl in r <==> bl in rows && DayOf(bl.start) == DayOf(date)
  {
    DayRangeIsDay(date);
    Filter(rows, (bl: RoomBlock) => StartsWithinDay(bl.start, date))
  }

  /** The query's range is exactly the instants on the day of `date`. */
  lemma DayRangeIsDay(date: Instant)
    ensures forall t :: StartsWithinDay(t, date) <==> DayOf(t) == DayOf(date)
  {
    forall t ensures StartsWithinDay(t, date) <==> DayOf(t) == DayOf(date)
    {
      var d := DayOf(date);
      assert DayStart(date) == d * MS_PER_DAY;
      if StartsWithinDay(t, date) {
        assert t / MS_PER_DAY == d;
      }
      if DayOf(t) == d {
        assert DayStart(t) == DayStart(date);
      }
    }
  }

  // ------------------------------------------------------------- initials

  /** `s.split(" ")`: the parts between single spaces, empty parts included. */
  function SplitOnSpace(s: string): (r: seq<string>)
    ensures |r| >= 1
    ensures forall k :: 0 <= k < |r| ==> ' ' !in r[k]
  {
    if s == [] then [""]
    else
      var rest := SplitOnSpace(s[1..]);
      if s[0] == ' ' then [""] + rest else [[s[0]] + rest[0]] + rest[1..]
  }

  /** `parts.join(" ")`. */
  function JoinWithSpace(parts: seq<string>): string
    requires |parts| >= 1
  {
    if |parts| == 1 then parts[0] else parts[0] + " " + JoinWithSpace(parts[1..])
  }

  /** Splitting loses nothing: joining the parts back gives the name. */
  lemma {:induction false} JoinSplit(s: string)
    ensures JoinWithSpace(SplitOnSpace(s)) == s
  {
    if s != [] {
      var rest := SplitOnSpace(s[1..]);
      JoinSplit(s[1..]);
      if s[0] == ' ' {
        assert SplitOnSpace(s)[1..] == rest;
        assert s == " " + s[1..];
      } else {
        var r := SplitOnSpace(s);
        assert r[0] == [s[0]] + rest[0] && r[1..] == rest[1..];
        if |rest| > 1 {
          assert JoinWithSpace(rest) == rest[0] + " " + JoinWithSpace(rest[1..]);
          assert JoinWithSpace(r) == ([s[0]] + rest[0]) + " " + JoinWithSpace(rest[1..]);
        }
      }
    }
  }

  /** `.map((n) => n[0]).join("")`: an empty part's `n[0]` is undefined and joins as "". */
  function FirstLetters(parts: seq<string>): string
  {
    if parts == [] then ""
    else (if parts[0] == "" then "" else [parts[0][0]]) + FirstLetters(parts[1..])
  }

  /** The reference: each character that is not a space and follows a space or the start. */
  function WordStarts(s: string, afterSpace: bool): string
  {
    if s == [] then ""
    else (if s[0] != ' ' && afterSpace then [s[0]] else "") + WordStarts(s[1..], s[0] == ' ')
  }

  lemma {:induction false} FirstLettersOfSplit(s: string)
    ensures FirstLetters(SplitOnSpace(s)) == WordStarts(s, true)
    ensures FirstLetters(SplitOnSpace(s)[1..]) == WordStarts(s, false)
  {
    if s != [] {
      FirstLettersOfSplit(s[1..]);
      var rest := SplitOnSpace(s[1..]);
      var r := SplitOnSpace(s);
      if s[0] == ' ' {
        assert r[1..] == rest;
      } else {
        assert r[0] == [s[0]] + rest[0] && r[1..] == rest[1..];
        assert FirstLetters(r) == [s[0]] + FirstLetters(rest[1..]);
      }
    }
  }

  /** `toUpperCase` on ASCII letters; other characters are kept. */
  function UpperChar(c: char): char
  {
    if 'a' <= c <= 'z' then (c as int - 32) as char else c
  }

  function Upper(s: string): (r: string)
    ensures |r| == |s| && forall k :: 0 <= k < |s| ==> r[k] == UpperChar(s[k])
  {
    seq(|s|, k requires 0 <= k < |s| => UpperChar(s[k]))
  }

  /** `getInitials(name)`. */
  function GetInitials(name: Option<string>): (r: string)
    ensures name.None? || name == Some("") ==> r == "?"
    ensures |r| <= 2
  {
    if name.None? || name.value == "" then "?"
    else
      var letters := Upper(FirstLetters(SplitOnSpace(name.value)));
      letters[..if |letters| < 2 then |letters| else 2]
  }

  /**
   * For a non-empty name the initials are the upper-cased first characters of
   * its words, the first two of them.
   */
  lemma GetInitialsOfName(name: string)
    requires name != ""
    ensures var starts := Upper(WordStarts(name, true));
      GetInitials(Some(name)) == starts[..if |starts| < 2 then |starts| else 2]
  {
    FirstLettersOfSplit(name);
  }

  /** Only the first two words count. */
  lemma InitialsOfThreeWords()
    ensures GetInitials(Some("a b c")) == "AB"
  {
    GetInitialsOfName("a b c");
    WordStartsOfThreeWords();
    var up := Upper("abc");
    assert up[0] == 'A' && up[1] == 'B';
    assert up[..2] == "AB";
  }

  /** The word starts of "a b c", one step per character. */
  lemma WordStartsOfThreeWords()
    ensures WordStarts("a b c", true) == "abc"
  {
    assert WordStarts("c", true) == "c";
    assert WordStarts(" c", false) == "c";
    assert WordStarts("b c", true) == "bc";
    assert WordStarts(" b c", false) == "bc";
  }

  /** A name of spaces only has no word starts, so its initials are empty, not "?". */
  lemma InitialsOfBlankName()
    ensures GetInitials(Some("  ")) == ""
  {
    GetInitialsOfName("  ");
    assert WordStarts("  ", true) == "";
  }

  // ---------------------------------------------------------------- state

  /** The grid's state. */
  class TimelineView {
    var currentDate: Instant
    var rooms: seq<Room>
    var bookings: seq<Booking>
    var roomBlocks: seq<RoomBlock>
    var selectedFloor: Option<int>
    var minCapacity: Option<int>
    var showOnlyAvailable: bool
    var selectedSlot: Option<SlotSelection>
    var selectedBooking: Option<Booking>
    var loading: bool

    /** The grid opens on the given date, or on `now` without one, with nothing loaded. */
    constructor(selectedDate: Option<Instant>, now: Instant)
      ensures currentDate == selectedDate.GetOr(now)
      ensures rooms == [] && bookings == [] && roomBlocks == []
      ensures selectedFloor.None? && minCapacity.None? && !showOnlyAvailable
      ensures selectedSlot.None? && selectedBooking.None? && loading
    {
      currentDate := selectedDate.GetOr(now);
      rooms, bookings, roomBlocks := [], [], [];
      selectedFloor, minCapacity, showOnlyAvailable := None, None, false;
      selectedSlot, selectedBooking := None, None;
      loading := true;
    }

    /** The rooms the grid shows under the current filters. */
    function VisibleRooms(): seq<Room>
      reads this
    {
      FilteredRooms(rooms, selectedFloor, minCapacity, showOnlyAvailable, bookings, roomBlocks, currentDate)
    }

    /** `handleSlotClick`: select cell `slotIndex` alone in the room; nothing else changes. */
    method HandleSlotClick(roomId: string, slotIndex: int)
      modifies this
      ensures selectedSlot == Some(SlotSelection(roomId, slotIndex, slotIndex + 1))
      ensures currentDate == old(currentDate) && rooms == old(rooms) && bookings == old(bookings)
      ensures roomBlocks == old(roomBlocks) && selectedBooking == old(selectedBooking)
      ensures selectedFloor == old(selectedFloor) && minCapacity == old(minCapacity)
      ensures showOnlyAvailable == old(showOnlyAvailable) && loading == old(loading)
      ensures VisibleRooms() == old(VisibleRooms())
    {
      selectedSlot := Some(SlotSelection(roomId, slotIndex, slotIndex + 1));
    }

    /** A click on a booking cell opens that booking's details. */
    method HandleBookingClick(booking: Booking)
      modifies this
      ensures selectedBooking == Some(booking)
      ensures currentDate == old(currentDate) && selectedSlot == old(selectedSlot)
      ensures rooms == old(rooms) && bookings == old(bookings) && roomBlocks == old(roomBlocks)
      ensures selectedFloor == old(selectedFloor) && minCapacity == old(minCapacity)
      ensures showOnlyAvailable == old(showOnlyAvailable) && loading == old(loading)
      ensures VisibleRooms() == old(VisibleRooms())
    {
      selectedBooking := Some(booking);
    }

    /** `handlePreviousDay`: one day back, at the same time of day. */
    method HandlePreviousDay()
      modifies this
      ensures currentDate == AddDays(old(currentDate), -1)
      ensures DayOf(currentDate) == DayOf(old(currentDate)) - 1
      ensures rooms == old(rooms) && bookings == old(bookings) && roomBlocks == old(roomBlocks)
      ensures selectedSlot == old(selectedSlot) && selectedBooking == old(selectedBooking)
      ensures selectedFloor == old(selectedFloor) && minCapacity == old(minCapacity)
      ensures showOnlyAvailable == old(showOnlyAvailable) && loading == old(loading)
    {
      currentDate := AddDays(currentDate, -1);
    }

    /** `handleNextDay`: one day forward, at the same time of day. */
    method HandleNextDay()
      modifies this
      ensures currentDate == AddDays(old(currentDate), 1)
      ensures DayOf(currentDate) == DayOf(old(currentDate)) + 1
      ensures rooms == old(rooms) && bookings == old(bookings) && roomBlocks == old(roomBlocks)
      ensures selectedSlot == old(selectedSlot) && selectedBooking == old(selectedBooking)
      ensures selectedFloor == old(selectedFloor) && minCapacity == old(minCapacity)
      ensures showOnlyAvailable == old(showOnlyAvailable) && loading == old(loading)
    {
      currentDate := AddDays(currentDate, 1);
    }

    /**
     * `loadData`, given each table's rows or `None` where the query returned
     * no data: each list is replaced by its query's rows when there are some
     * and kept otherwise, and loading ends.
     */
    method LoadData(roomRows: Option<seq<Room>>, bookingRows: Option<seq<Booking>>, blockRows: Option<seq<RoomBlock>>)
      modifies this
      ensures rooms == (if roomRows.Some? then ActiveRooms(roomRows.value) else old(rooms))
      ensures bookings == (if bookingRows.Some? then DayBookings(bookingRows.value, currentDate) else old(bookings))
      ensures roomBlocks == (if blockRows.Some? then DayBlocks(blockRows.value, currentDate) else old(roomBlocks))
      ensures !loading
      ensures currentDate == old(currentDate) && selectedSlot == old(selectedSlot)
      ensures selectedFloor == old(selectedFloor) && minCapacity == old(minCapacity)
      ensures showOnlyAvailable == old(showOnlyAvailable) && selectedBooking == old(selectedBooking)
    {
      loading := true;
      if roomRows.Some? {
        rooms := ActiveRooms(roomRows.value);
      }
      if bookingRows.Some? {
        bookings := DayBookings(bookingRows.value, currentDate);
      }
      if blockRows.Some? {
        roomBlocks := DayBlocks(blockRows.value, currentDate);
      }
      loading := false;
    }
  }
}
