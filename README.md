# spot: a verified model of the booking core

spot is a meeting-room booking application. Its users:

- see a day grid of rooms by ten-minute slots, from 05:50 to 19:00;
- pick a free cell and book the room through a dialog;
- extend or cancel their own bookings;
- have their access decided by a role (admin, gerente, usuario) and by permissions granted by name.

Administrators maintain rooms through a form that uploads a room image.

This project models that core and proves its properties:

- the rule engine that accepts or rejects a booking;
- the slot grid helpers;
- the booking and extension dialogs;
- the grid page: filters, cell classification, selection, day navigation, data load and avatar initials;
- the "my bookings" page;
- the permission and session state, and the flags derived from it;
- the avatar image check;
- the room form.

## Model conventions

- **Instants.** An instant is an integer number of milliseconds in UTC.
  - The day of an instant is `t / 86400000`.
  - An `"HH:mm"` string is a minute of the day. `parse(hhmm, "HH:mm", ref)` is that minute on `ref`'s day, with the seconds dropped.
- **Conversions.** `parseInt` gives `Option<int>`, where `None` is NaN. `parseInt(x) || fallback` is `ParseIntOr`.
- **Database, storage and auth calls.** Each becomes a parameter holding its outcome.
  - A query's outcome is a `Read` value: failed, no data, or rows.
  - The model applies the query's `.eq`/`.gte`/`.lt` filters to the rows.
  - An update or insert is given as whether it succeeds.
- **Component state.** Each component is a class.
  - Its fields are the component's state variables.
  - Each handler is a method whose `ensures` gives the whole new state: every field it does not set is stated unchanged.
  - Each method is proved to compute the function that defines its outcome: `Submit`, `Extend`, `SaveRoom`, `GetBookingBlocks`, and so on. The grid's shown rooms are the function `VisibleRooms`, which applies `FilteredRooms` to the fields.
  - The properties are proved as lemmas about those functions.

### Where the model follows the code

- **Booking blocks.** A booking's block on the grid ends at the index of its end time plus one (`src/lib/timeline.ts:80`). So a booking from 09:00 to 09:10 occupies the two cells 09:00 and 09:10, and a one-hour booking occupies seven cells. The model follows the code (`Timeline.TenMinuteBookingCoversTwoCells`).
- **The booking header.** A booking cell shows its header when *any* block of the room starts at that cell (`Timeline.tsx:344-346`), not only the displayed booking's own block. `TimelineView.BookingCellHeader` states exactly that.
- **The last cell.** Clicking the 19:00 cell selects end slot 80. Slot 80 does not exist, so its time falls back to 05:50. The booking dialog then moves the end to the next day. Under any maximum duration of ten hours or less, that selection can only be rejected (`TimelineView.LastCellClickIsTooLong`).
- **Two image checks.** The room form's image guard (5 MiB, size first, `image/jpg` allowed) is looser than `validateImageFile` (2 MiB, type first). `RoomFormModal.GuardIsLooserThanValidator` proves the guard accepts everything the validator does, with witnesses of strictness.
- **The initial session.** The first session read on mount leaves the profile and permissions as they were when there is no session. A later session change clears them.

## Model

| member | source | states |
|---|---|---|
| BookingValidation.Message | src/lib/bookingValidation.ts:32-164 | the text each rejection shows, the limits rendered as decimal integers |
| BookingValidation.FoldSettings | src/lib/bookingValidation.ts:14-17 | the `reduce` into a dictionary, a later row overwriting an earlier one; what it holds is stated by `FoldSettingsLookup` |
| BookingValidation.SettingsOf | src/lib/bookingValidation.ts:5-17 | a failed read or null data gives the defaults; rows, however few, give their fold |
| BookingValidation.GetSettings | src/lib/bookingValidation.ts:3-18 | the loop folds the rows into a dictionary, later rows overwriting earlier ones; only a failed read or null data gives the two defaults, while zero rows give the empty dictionary, on which the per-key `|| "4"` and `|| "30"` fallbacks then apply |
| BookingValidation.FoldSettingsLookup | src/lib/bookingValidation.ts:14-17 | a key is in the dictionary iff some row has it, and its value is that of the last such row |
| BookingValidation.SettingOr | src/lib/bookingValidation.ts:25 | a missing key or an empty value gives the fallback, otherwise the stored value |
| BookingValidation.MaxHours | src/lib/bookingValidation.ts:25 | `parseInt` of the stored maximum hours or of "4"; 4 without the key, by `DefaultLimits` |
| BookingValidation.MaxDays | src/lib/bookingValidation.ts:50 | `parseInt` of the stored maximum days or of "30"; 30 without the key, by `DefaultLimits` |
| BookingValidation.DefaultLimits | src/lib/bookingValidation.ts:7-12 | without the key (and for the default settings) the limits are 4 hours and 30 days |
| BookingValidation.ParsesDefaults | src/lib/bookingValidation.ts:25 | the fallback strings "4" and "30" parse to 4 and 30 |
| BookingValidation.ValidateBookingDuration | src/lib/bookingValidation.ts:20-44 | end-not-after-start iff less than a whole minute; valid iff at least a minute and, when the maximum parses, the whole minutes are at most 60 times it; otherwise the maximum-duration reason |
| BookingValidation.DurationBoundary | src/lib/bookingValidation.ts:36-41 | exactly the maximum is accepted, one minute more is rejected |
| BookingValidation.ValidateBookingAdvance | src/lib/bookingValidation.ts:46-69 | beyond now plus the maximum days is rejected first; before now is rejected next; valid iff neither |
| BookingValidation.ValidateRoomCapacity | src/lib/bookingValidation.ts:71-90 | valid iff 1 <= attendees <= capacity; over capacity is reported before too few |
| BookingValidation.Overlaps | src/lib/bookingValidation.ts:122-126 | for non-empty intervals the three-case test holds iff start < otherEnd and end > otherStart, the half-open overlap |
| BookingValidation.EmptyIntervalOverlaps | src/lib/bookingValidation.ts:122-126 | an empty existing interval conflicts iff it lies within the candidate, ends included |
| BookingValidation.IsExcluded | src/lib/bookingValidation.ts:115-117 | a booking is excluded only by its own non-empty id; no id or the empty id excludes nothing |
| BookingValidation.RoomConfirmedBookings | src/lib/bookingValidation.ts:100-104 | the query's rows are exactly the table's confirmed bookings of the room |
| BookingValidation.RoomBlocksOf | src/lib/bookingValidation.ts:137-140 | the query's rows are exactly the table's blocks of the room |
| BookingValidation.ValidateRoomAvailability | src/lib/bookingValidation.ts:92-170 | a failed bookings read, then a conflicting confirmed non-excluded booking of the room, then a failed blocks read, then a conflicting block of the room, each decide in turn; valid otherwise |
| BookingValidation.ConflictFoundIff | src/lib/bookingValidation.ts:100-127 | the `find` over the room's confirmed rows succeeds iff some row of the table is a conflicting booking |
| BookingValidation.BlockFoundIff | src/lib/bookingValidation.ts:137-159 | the `some` over the room's blocks holds iff some block of the table conflicts |
| BookingValidation.ExcludingIsRemoving | src/lib/bookingValidation.ts:115-117 | excluding a non-empty id gives the same verdict as checking the rows without that booking |
| BookingValidation.AbuttingExample | src/lib/bookingValidation.ts:122-134 | against a 09:00-10:00 booking, 09:30-10:30 is already booked and 10:00-10:30 is valid |
| Timeline.TimeSlots | src/lib/timeline.ts:8-26 | the slot table in closed form; its entries are stated by `TimeSlotsAt` and the loop is proved to build it |
| Timeline.GenerateTimeSlots | src/lib/timeline.ts:8-26 | the loop yields 80 slots from 05:50 to 19:00 ten minutes apart, indexed by position, strictly increasing |
| Timeline.TimeSlotsAt | src/lib/timeline.ts:16-23 | slot i has time and display 05:50 plus 10*i and index i |
| Timeline.GetTimeFromSlotIndex | src/lib/timeline.ts:148-151 | an index on the grid gives its slot time; any other index gives 05:50 |
| Timeline.SlotIndexIn | src/lib/timeline.ts:145 | `findIndex` by time over a slot list; on the grid its meaning is stated by `SlotIndexInGrid` |
| Timeline.GetSlotIndex | src/lib/timeline.ts:143-146 | -1 iff the time is not a slot time; otherwise (time - 05:50) / 10 |
| Timeline.SlotIndexInGrid | src/lib/timeline.ts:143-146 | the `findIndex` over the 80 slots misses exactly the non-slot times and finds a slot time at its own position |
| Timeline.SlotIndexRoundTrip | src/lib/timeline.ts:143-151 | index to time to index is the identity on the 80 slots |
| Timeline.SlotTimeRoundTrip | src/lib/timeline.ts:143-151 | time to index to time is the identity on slot times |
| Timeline.ClosestIndex | src/lib/timeline.ts:37-46 | the `reduce` keeps the first slot at the least distance from the target |
| Timeline.NearestSlotTime | src/lib/timeline.ts:28-49 | a slot time, the time itself when it is one, at least as near as every slot, and the earliest on a tie |
| Timeline.NearestWhenFound | src/lib/timeline.ts:32-35 | a slot found by exact match meets the nearest-slot properties |
| Timeline.ClosestFacts | src/lib/timeline.ts:37-48 | the slot the `reduce` returns meets the nearest-slot properties |
| Timeline.NormalizeTimeToSlot | src/lib/timeline.ts:28-49 | the result is on the same day, on a whole minute, at the nearest slot time of the input's time of day |
| Timeline.NormalizeKeepsSlotInstant | src/lib/timeline.ts:32-35 | an instant on a whole minute at a slot time is returned unchanged |
| Timeline.NormalizeClamps | src/lib/timeline.ts:37-48 | times before 05:50 go to 05:50, times after 19:00 go to 19:00 |
| Timeline.NormalizeTieExample | src/lib/timeline.ts:45 | 05:55, half way between two slots, goes to the earlier 05:50 |
| Timeline.NearestAtTie | src/lib/timeline.ts:45 | the nearest slot time of 05:55 is 05:50 |
| Timeline.BlockOf | src/lib/timeline.ts:58-91 | no block unless the booking starts or ends on the day and its start is a slot; both found gives [start, end index + 1); end not found gives [start, 80) |
| Timeline.BookingBlocks | src/lib/timeline.ts:51-94 | the blocks of the bookings that have one, in booking order; stated by `BookingBlocksSound`, `BookingBlocksComplete` and `BookingBlocksOrdered` |
| Timeline.GetBookingBlocks | src/lib/timeline.ts:51-94 | the loop pushes the block of each booking that has one, in order |
| Timeline.BlockBookingsAppend | src/lib/timeline.ts:77-89 | the bookings of concatenated blocks are the concatenation of their bookings |
| Timeline.BookingBlocksSound | src/lib/timeline.ts:58-91 | every returned block is the block of one of the bookings |
| Timeline.BookingBlocksComplete | src/lib/timeline.ts:58-91 | every booking that has a block has it among the returned blocks |
| Timeline.BookingBlocksOrdered | src/lib/timeline.ts:58-91 | the blocks' bookings are a subsequence of the bookings |
| Timeline.TenMinuteBookingCoversTwoCells | src/lib/timeline.ts:76-82 | a 09:00-09:10 booking is drawn over cells 19 and 20 |
| Timeline.NineOClockSlots | src/lib/timeline.ts:143-146 | 09:00 and 09:10 are slots 19 and 20 |
| Timeline.BlockOfBothFound | src/lib/timeline.ts:76-82 | with both times found the block is [start, end + 1) with that duration |
| Timeline.CheckTimeSlotAvailability | src/lib/timeline.ts:96-141 | no result (a thrown TypeError) iff an index is off the grid; otherwise true iff no confirmed booking and no block of the room overlaps the slot interval on that day |
| Timeline.CheckAgreesWithValidator | src/lib/timeline.ts:110-140 | the in-memory test says free iff the availability validator over the same rows with no exclusion is valid |
| BookingForm.RequestedInterval | src/components/bookings/BookingForm.tsx:65-73 | the interval starts at the start slot on the date's day, ends at the end slot's time on that day when later and on the next day otherwise, and lasts more than nothing and at most a day |
| BookingForm.DescriptionOrNull | src/components/bookings/BookingForm.tsx:107 | `description or null`: none iff the description is empty, otherwise the description |
| BookingForm.Checks | src/components/bookings/BookingForm.tsx:75-101 | the pipeline passes iff each of the four rules passes |
| BookingForm.FirstInvalid | src/components/bookings/BookingForm.tsx:75-101 | the early returns of `handleSubmit`: the first rejecting verdict, and `Valid` iff none rejects |
| BookingForm.ChecksReportFirstFailure | src/components/bookings/BookingForm.tsx:75-101 | a rejection comes from the first failing rule, every earlier rule having passed |
| BookingForm.FirstFailureStage | src/components/bookings/BookingForm.tsx:75-101 | of four verdicts each of its own stage, the first failure's stage says which rules passed and which one failed |
| BookingForm.StagesOfReasons | src/components/bookings/BookingForm.tsx:75-101 | each rule rejects only with reasons of its own stage |
| BookingForm.RunChecks | src/components/bookings/BookingForm.tsx:75-101 | the rules run in order, stopping at the first failure, each settings-reading rule reading afresh |
| BookingForm.Submit | src/components/bookings/BookingForm.tsx:58-123 | nothing is submitted iff there is no user or no room; an insert attempted carries the user, the room and the confirmed status, and is reported created only when the insert succeeds and failed only when it does not |
| BookingForm.SubmitFollowsChecks | src/components/bookings/BookingForm.tsx:58-123 | with a user and a room: rejected with a reason iff the four rules on the requested interval give that reason; created iff they pass and the insert succeeds; insert failed iff they pass and it fails |
| BookingForm.CreatedBookingKeepsRules | src/components/bookings/BookingForm.tsx:58-123 | a booking sent for insert, created or not, is confirmed, carries the form's fields, lies in the requested interval, keeps the duration, advance and capacity rules, and overlaps no confirmed booking and no block of the room |
| BookingForm.WrappedEndIsTooLong | src/components/bookings/BookingForm.tsx:71-80 | an end slot not after the start slot, under a maximum of at most ten hours, is rejected as too long |
| BookingForm.WrappedLength | src/components/bookings/BookingForm.tsx:71-73 | such a wrapped interval lasts a day minus ten minutes per slot between the two |
| BookingForm.EndAfterStartChange | src/components/bookings/BookingForm.tsx:176-182 | the end is kept when after the new start; otherwise it becomes the slot right after the new start, or the last slot when the new start is the last |
| BookingForm.EndSlotOptions | src/components/bookings/BookingForm.tsx:207-208 | the options are exactly the grid slots with a larger index |
| BookingForm.EndSlotOptionsAreLaterSlots | src/components/bookings/BookingForm.tsx:207-208 | for a start on the grid the options are the slots after it, in order |
| BookingForm.BookingForm.constructor | src/components/bookings/BookingForm.tsx:30-38 | the dialog opens on the chosen slots, with no room, empty fields and one attendee |
| BookingForm.BookingForm.LoadRoom | src/components/bookings/BookingForm.tsx:46-56 | a failed read changes nothing; a room is stored and the attendee count becomes min(1, capacity) |
| BookingForm.BookingForm.OnTitleChange | src/components/bookings/BookingForm.tsx:152 | only the title changes |
| BookingForm.BookingForm.OnDescriptionChange | src/components/bookings/BookingForm.tsx:164 | only the description changes |
| BookingForm.BookingForm.OnStartSlotChange | src/components/bookings/BookingForm.tsx:176-182 | the start is set and the end moves past it when needed |
| BookingForm.BookingForm.OnEndSlotChange | src/components/bookings/BookingForm.tsx:201 | only the end slot changes |
| BookingForm.BookingForm.OnAttendeesChange | src/components/bookings/BookingForm.tsx:227 | the count becomes the parsed input, or 1 when it is NaN or 0, so never 0 |
| BookingForm.BookingForm.HandleSubmit | src/components/bookings/BookingForm.tsx:58-123 | the outcome is `Submit` of the form's state; loading ends false once submitted; no field changes |
| ExtendBookingModal.OfferedSlots | src/components/bookings/ExtendBookingModal.tsx:57-64 | the offered slots are exactly the grid slots after the current end's time of day, up to 19:00 |
| ExtendBookingModal.OfferedSlotsNonEmptyIff | src/components/bookings/ExtendBookingModal.tsx:61-66 | some slot is offered iff the booking ends before 19:00 |
| ExtendBookingModal.OfferedSlotsInOrder | src/components/bookings/ExtendBookingModal.tsx:61-64 | the offered slots are in increasing time order, a subsequence of the grid |
| ExtendBookingModal.NewEnd | src/components/bookings/ExtendBookingModal.tsx:80-82 | the new end lies on the start's day at the slot's time |
| ExtendBookingModal.Extend | src/components/bookings/ExtendBookingModal.tsx:73-121 | no submit iff no slot selected; a no-such-slot error iff the index is off the grid |
| ExtendBookingModal.ExtendFollowsAvailability | src/components/bookings/ExtendBookingModal.tsx:80-111 | for a slot on the grid: refused as not later iff its time on the start's day is not after the end; otherwise rejected with a reason iff the availability check excluding the booking gives it, extended iff valid and the update succeeds, update failed iff valid and it fails |
| ExtendBookingModal.ExtendedChangesOnlyEnd | src/components/bookings/ExtendBookingModal.tsx:80-109 | an extension changes only the end, to a slot time on the start's day after the old end, with no conflicting booking (itself excluded) and no conflicting block |
| ExtendBookingModal.OfferedSlotIsLater | src/components/bookings/ExtendBookingModal.tsx:61-64 | for a same-day booking every offered slot gives a later end |
| ExtendBookingModal.ExtensionSkipsDurationRule | src/components/bookings/ExtendBookingModal.tsx:84-95 | a 09:00-10:00 booking is extended to 19:00 although a 4-hour maximum rejects that interval |
| ExtendBookingModal.NothingToConflictWith | src/lib/bookingValidation.ts:169 | with no rows the availability check is valid |
| ExtendBookingModal.LastSlotIsTenHoursLater | src/components/bookings/ExtendBookingModal.tsx:82 | 19:00 on the day of a 09:00 start is ten hours later |
| ExtendBookingModal.TenHoursExceedFour | src/lib/bookingValidation.ts:36-41 | ten hours exceed a 4-hour maximum |
| ExtendBookingModal.ExtendBookingModal.constructor | src/components/bookings/ExtendBookingModal.tsx:41-45 | nothing selected, not loading, no slots offered |
| ExtendBookingModal.ExtendBookingModal.LoadAvailableSlots | src/components/bookings/ExtendBookingModal.tsx:57-71 | the offered slots are stored and the first is preselected; none offered keeps the selection; afterwards submit is enabled iff not loading and the booking ends before 19:00 |
| ExtendBookingModal.ExtendBookingModal.SubmitEnabled | src/components/bookings/ExtendBookingModal.tsx:213 | the button's enabled test; its value after the slots load is stated by `LoadAvailableSlots` |
| ExtendBookingModal.ExtendBookingModal.OnEndSlotChange | src/components/bookings/ExtendBookingModal.tsx:176 | only the selection changes |
| ExtendBookingModal.ExtendBookingModal.HandleSubmit | src/components/bookings/ExtendBookingModal.tsx:73-121 | the outcome is `Extend` of the dialog's state; loading ends false once submitted |
| TimelineView.RoomBookingBlocks | src/components/bookings/Timeline.tsx:308-312 | `getBookingBlocks` over the room's bookings; stated by `RoomBookingBlocksFacts` |
| TimelineView.SlotHasBooking | src/components/bookings/Timeline.tsx:126-128 | some block's range holds the cell; stated by `SlotHasBookingIff` |
| TimelineView.InBlockWindow | src/components/bookings/Timeline.tsx:130-150 | a block covers a slot time when it starts on the grid's day and the time lies from its start's time of day up to, not including, its end's time of day, both re-read on the grid's day |
| TimelineView.RoomBookingBlocksFacts | src/components/bookings/Timeline.tsx:308-312 | a room's blocks come from that room's bookings and include each such booking's block |
| TimelineView.SlotHasBookingIff | src/components/bookings/Timeline.tsx:125-128 | a cell has a booking iff some booking of the room has a block holding it |
| TimelineView.BookedWhenSomeBlockHolds | src/components/bookings/Timeline.tsx:125-128 | a block holding the cell comes from a booking of the room |
| TimelineView.SomeBlockHoldsWhenBooked | src/components/bookings/Timeline.tsx:125-128 | a booking of the room holding the cell yields a block holding it |
| TimelineView.RoomBlocksFirstIff | src/components/bookings/Timeline.tsx:121-150 | testing the room's blocks after filtering them is testing the room and the window together |
| TimelineView.RoomCheckInsideIff | src/components/bookings/Timeline.tsx:348-376 | the cell test holds iff some block of the room covers the slot time on the grid's day |
| TimelineView.RoomHasFreeSlotIff | src/components/bookings/Timeline.tsx:114-154 | a room passes the availability filter iff some grid cell is neither booked nor blocked |
| TimelineView.RoomHasFreeSlot | src/components/bookings/Timeline.tsx:114-154 | the filter's own test; its meaning is stated by `RoomHasFreeSlotIff` |
| TimelineView.FreeSlotIsFreeCell | src/components/bookings/Timeline.tsx:125-153 | a passing room has a cell neither booked nor blocked |
| TimelineView.FreeCellIsFreeSlot | src/components/bookings/Timeline.tsx:125-153 | a cell neither booked nor blocked makes the room pass |
| TimelineView.FilteredRooms | src/components/bookings/Timeline.tsx:103-167 | a room is shown iff it is loaded, on the chosen floor, at least the chosen capacity and, when asked, has a free cell |
| TimelineView.NoFilterKeepsAll | src/components/bookings/Timeline.tsx:103-112 | with no filter every loaded room is shown |
| TimelineView.FilteredRoomsInOrder | src/components/bookings/Timeline.tsx:103-157 | the shown rooms keep the loaded order |
| TimelineView.CellAt | src/components/bookings/Timeline.tsx:341-378 | a booking cell shows the booking of the first block holding the slot; any other cell has no block holding it |
| TimelineView.RoomRow | src/components/bookings/Timeline.tsx:341-435 | one cell per slot; what each cell shows is stated by `CellPriority` |
| TimelineView.CellPriority | src/components/bookings/Timeline.tsx:378-435 | 80 cells; a cell is a booking iff booked, blocked iff not booked and blocked, free iff neither |
| TimelineView.BookingCellShowsHolder | src/components/bookings/Timeline.tsx:314-317 | a booking cell shows a booking of that room whose block holds the cell |
| TimelineView.BookingCellHeader | src/components/bookings/Timeline.tsx:343-346 | the header shows iff some booking of the room starts at the cell, in particular when the shown one does |
| TimelineView.HeaderHasStarter | src/components/bookings/Timeline.tsx:344-346 | a block starting at the cell comes from a booking of the room starting there |
| TimelineView.StarterGivesHeader | src/components/bookings/Timeline.tsx:344-346 | a booking of the room starting at the cell yields a block starting there |
| TimelineView.OnlyAvailableMeansFreeCell | src/components/bookings/Timeline.tsx:114-154 | a room passes the availability filter iff its drawn row has a free cell |
| TimelineView.ClickedCellIsTenMinutes | src/components/bookings/Timeline.tsx:169-171 | a click on any cell but the last asks to book ten minutes from that cell's time on the grid's day |
| TimelineView.LastCellClickIsTooLong | src/components/bookings/Timeline.tsx:169-171 | a click on the 19:00 cell, under a maximum of at most ten hours, is rejected as too long |
| TimelineView.ActiveRooms | src/components/bookings/Timeline.tsx:64-69 | the rooms query keeps exactly the active rooms |
| TimelineView.DayBookings | src/components/bookings/Timeline.tsx:70-75 | the bookings query keeps exactly the confirmed bookings starting on the grid's day |
| TimelineView.DayBlocks | src/components/bookings/Timeline.tsx:76-80 | the blocks query keeps exactly the blocks starting on the grid's day |
| TimelineView.DayRangeIsDay | src/components/bookings/Timeline.tsx:60-61 | a start in [start of day, start of next day) is a start on that day |
| TimelineView.SplitOnSpace | src/components/bookings/Timeline.tsx:184 | at least one part, none holding a space |
| TimelineView.JoinSplit | src/components/bookings/Timeline.tsx:184 | joining the parts with spaces gives the name back |
| TimelineView.FirstLettersOfSplit | src/components/bookings/Timeline.tsx:184-186 | the parts' first letters are the letters that follow a space or begin the name |
| TimelineView.Upper | src/components/bookings/Timeline.tsx:187 | same length, each letter upper-cased |
| TimelineView.GetInitials | src/components/bookings/Timeline.tsx:181-189 | no name or "" gives "?"; never more than two letters |
| TimelineView.GetInitialsOfName | src/components/bookings/Timeline.tsx:183-188 | a name gives the first two word-start letters, upper-cased |
| TimelineView.InitialsOfThreeWords | src/components/bookings/Timeline.tsx:183-188 | "a b c" gives "AB" |
| TimelineView.InitialsOfBlankName | src/components/bookings/Timeline.tsx:183-188 | a name of spaces gives "", not "?" |
| TimelineView.TimelineView.constructor | src/components/bookings/Timeline.tsx:33-47 | the grid opens on the given date or on now, empty, with no filter and loading |
| TimelineView.TimelineView.VisibleRooms | src/components/bookings/Timeline.tsx:103-167 | `FilteredRooms` of the grid's fields: the memoised list the grid draws |
| TimelineView.TimelineView.HandleSlotClick | src/components/bookings/Timeline.tsx:169-171 | the selection becomes that room from the cell to the next; every other field keeps its value |
| TimelineView.TimelineView.HandleBookingClick | src/components/bookings/Timeline.tsx:383-385 | the clicked booking is selected; every other field keeps its value |
| TimelineView.TimelineView.HandlePreviousDay | src/components/bookings/Timeline.tsx:173-175 | the date moves to the previous day at the same time of day; every other field keeps its value |
| TimelineView.TimelineView.HandleNextDay | src/components/bookings/Timeline.tsx:177-179 | the date moves to the next day at the same time of day; every other field keeps its value |
| TimelineView.TimelineView.LoadData | src/components/bookings/Timeline.tsx:57-91 | each list is replaced by its query's rows when they came back and kept otherwise; loading ends |
| MyBookings.FutureBookings | src/pages/MyBookings.tsx:92-94 | exactly the confirmed bookings starting now or later |
| MyBookings.PastBookings | src/pages/MyBookings.tsx:95-97 | exactly the confirmed bookings that started before now |
| MyBookings.CancelledBookings | src/pages/MyBookings.tsx:98 | exactly the cancelled bookings |
| MyBookings.ListsAreDisjoint | src/pages/MyBookings.tsx:92-98 | no booking is in two lists |
| MyBookings.ListsCoverBookings | src/pages/MyBookings.tsx:92-98 | the three lists together are a permutation of the loaded bookings |
| MyBookings.ListsKeepStartOrder | src/pages/MyBookings.tsx:52 | with the rows loaded by start time, each list stays in start order |
| MyBookings.PastBeforeFuture | src/pages/MyBookings.tsx:92-97 | every past booking starts before every upcoming one |
| MyBookings.ActionsByList | src/pages/MyBookings.tsx:303-322 | upcoming bookings can be extended and cancelled, past ones cancelled and extended only while running, cancelled ones neither |
| MyBookings.CanExtend | src/pages/MyBookings.tsx:303-305 | extend is offered iff the booking is confirmed and ends after now |
| MyBookings.CanCancel | src/pages/MyBookings.tsx:303 | cancel is offered iff the booking is confirmed |
| MyBookings.MyBookingsPage.ExtendOffered | src/pages/MyBookings.tsx:303-305 | the extend button shows iff a booking is selected, confirmed and not yet ended |
| MyBookings.MyBookingsPage.CancelOffered | src/pages/MyBookings.tsx:303 | the cancel button shows iff a booking is selected and confirmed |
| MyBookings.CancelInTable | src/pages/MyBookings.tsx:75-78 | the update keeps the table's length |
| MyBookings.CancelChangesOnlyStatus | src/pages/MyBookings.tsx:75-78 | rows with the id become cancelled and differ only in status; every other row is unchanged |
| MyBookings.UserBookings | src/pages/MyBookings.tsx:48-52 | exactly the rows of that user |
| MyBookings.CancelledMovesToCancelled | src/pages/MyBookings.tsx:68-90 | after cancelling and reloading, the booking is among the cancelled and no booking with its id is upcoming or past |
| MyBookings.MyBookingsPage.constructor | src/pages/MyBookings.tsx:30-35 | the page opens empty and loading, nothing selected, no dialog open |
| MyBookings.MyBookingsPage.LoadBookings | src/pages/MyBookings.tsx:43-62 | without a user nothing changes; a failed read keeps the list; otherwise the user's rows; loading ends |
| MyBookings.MyBookingsPage.SelectBooking | src/pages/MyBookings.tsx:32 | the booking is selected and nothing else changes |
| MyBookings.MyBookingsPage.HandleCancelClick | src/pages/MyBookings.tsx:64-66 | the confirmation opens and nothing else changes |
| MyBookings.MyBookingsPage.HandleCancelConfirm | src/pages/MyBookings.tsx:68-90 | with nothing selected nothing happens; on success the row is cancelled, the selection cleared and the list reloaded from the updated table (kept when the reload fails), loading ending false with a user; on failure only the dialog flags change |
| MyBookings.MyBookingsPage.OnExtendSuccess | src/pages/MyBookings.tsx:334-338 | the dialog closes, the selection clears and the list reloads as `loadBookings` does, loading ending false with a user |
| AuthContext.NoProfileNoAccess | src/context/AuthContext.tsx:120-129 | without a profile no permission and no role holds |
| AuthContext.AdminHoldsEveryPermission | src/context/AuthContext.tsx:122 | an admin holds every permission |
| AuthContext.CheckPermission | src/context/AuthContext.tsx:120-124 | a permission holds iff there is a profile and it is an admin or some loaded permission has that name |
| AuthContext.SomeHasName | src/context/AuthContext.tsx:123 | the `some` over the permissions holds iff one of them has the name |
| AuthContext.HasRole | src/context/AuthContext.tsx:126-129 | a role test holds iff there is a profile and the name is "admin", "gerente" or "usuario" for exactly that role |
| AuthContext.RolesAreExact | src/context/AuthContext.tsx:126-129 | each role test holds for exactly its own role; an admin is not a manager or a user |
| AuthContext.FetchPermissions | src/context/AuthContext.tsx:44-56 | a failed or empty read gives no permissions, otherwise the rows |
| AuthContext.AuthState.constructor | src/context/AuthContext.tsx:23-27 | no session, user, profile or permission, and loading |
| AuthContext.AuthState.OnAuthStateChange | src/context/AuthContext.tsx:81-92 | the session and user follow the change; with a session the fetched profile and permissions are stored, without one both clear and no permission holds; loading ends |
| AuthContext.AuthState.InitialSession | src/context/AuthContext.tsx:68-77 | as a session change, but with no session the profile and permissions are kept |
| AuthContext.AuthState.Login | src/context/AuthContext.tsx:97-111 | throws iff sign-in fails, changing nothing; otherwise the user's profile and permissions are loaded |
| AuthContext.AuthState.Logout | src/context/AuthContext.tsx:113-118 | throws iff sign-out fails, changing nothing; otherwise both clear and no permission holds |
| AuthContext.AuthState.RefreshProfile | src/context/AuthContext.tsx:58-66 | without a user nothing changes; otherwise both are fetched again |
| UsePermissions.Flags | src/hooks/usePermissions.ts:10-19 | no role flag without a profile; with one, exactly one role flag |
| UsePermissions.RoleFlagsExact | src/hooks/usePermissions.ts:10-12 | each role flag holds iff the profile has that role |
| UsePermissions.AdminCanEverything | src/hooks/usePermissions.ts:13-19 | an admin has every ability flag |
| UsePermissions.NoProfileNoFlags | src/hooks/usePermissions.ts:10-19 | without a profile every flag is false |
| UsePermissions.FlagsFollowGrants | src/hooks/usePermissions.ts:13-19 | for other roles each of the seven ability flags holds iff its permission was granted by name |
| UsePermissions.NoGrantsNoAbilities | src/hooks/usePermissions.ts:13-19 | a non-admin with no grants has no ability |
| ImageUtils.ValidateImageFile | src/lib/imageUtils.ts:8-27 | valid iff an allowed type and at most 2 MiB, with no error; a wrong type gives the format message, a large file of a right type the size message |
| ImageUtils.JpgAliasIsRefused | src/lib/imageUtils.ts:9-17 | "image/jpg" is refused with the format message |
| ImageUtils.SizeLimitIsInclusive | src/lib/imageUtils.ts:10-24 | exactly 2 MiB passes, one byte more is too large |
| ImageUtils.TypeIsCheckedFirst | src/lib/imageUtils.ts:12-24 | a wrong type that is also too large reports the format error |
| RoomFormModal.ToggleFacility | src/components/admin/RoomFormModal.tsx:51-55 | the facility is present afterwards iff it was absent; every other facility keeps its membership |
| RoomFormModal.ToggleKeepsOrder | src/components/admin/RoomFormModal.tsx:51-55 | removal keeps the remaining order; adding keeps the old list as a prefix |
| RoomFormModal.ToggleTwiceFromAbsent | src/components/admin/RoomFormModal.tsx:51-55 | adding then removing restores the list |
| RoomFormModal.ToggleTwiceFromPresent | src/components/admin/RoomFormModal.tsx:51-55 | removing then adding moves the facility to the end |
| RoomFormModal.CapacityFromInput | src/components/admin/RoomFormModal.tsx:178 | a parsed non-zero number is kept; NaN or 0 gives 1 |
| RoomFormModal.CapacityInputExamples | src/components/admin/RoomFormModal.tsx:178 | any rendered non-zero number, negatives included, is kept; "0" and "" give 1 |
| RoomFormModal.FloorFromSelect | src/components/admin/RoomFormModal.tsx:159 | `parseInt` of the select's value; the offered values are stated by `FloorOptionsParse` |
| RoomFormModal.FloorOptionsParse | src/components/admin/RoomFormModal.tsx:159 | the select's values "0", "1", "2" give floors 0, 1, 2 |
| RoomFormModal.ImageGuard | src/components/admin/RoomFormModal.tsx:64-78 | over 5 MiB is too large iff; otherwise a type outside the four is refused iff; accepted iff neither |
| RoomFormModal.GuardIsLooserThanValidator | src/components/admin/RoomFormModal.tsx:65-66 | every image the avatar check accepts the room guard accepts; a 3 MiB JPEG and an "image/jpg" file pass the guard only |
| RoomFormModal.KeptImageUrl | src/components/admin/RoomFormModal.tsx:62 | a room's image URL is kept iff present and non-empty |
| RoomFormModal.SaveRoom | src/components/admin/RoomFormModal.tsx:57-132 | without a file no image error; a refused file gives its error; an accepted file whose upload fails gives the upload error; saved or save failed only with no file or an accepted, uploaded one; when saved, the form's fields, the room's id when editing, and the uploaded or kept URL; past those checks the save's own success decides saved against save failed |
| RoomFormModal.RoomFormModal.constructor | src/components/admin/RoomFormModal.tsx:22-28 | empty fields, no file, not loading |
| RoomFormModal.RoomFormModal.ResetForm | src/components/admin/RoomFormModal.tsx:42-49 | the fields return to their initial values and the file is dropped |
| RoomFormModal.RoomFormModal.Open | src/components/admin/RoomFormModal.tsx:30-40 | a room fills the fields from it; no room resets the form |
| RoomFormModal.RoomFormModal.OnFacilityToggle | src/components/admin/RoomFormModal.tsx:51-55 | only the facilities change, toggled |
| RoomFormModal.RoomFormModal.OnCapacityChange | src/components/admin/RoomFormModal.tsx:178 | only the capacity changes, to the parsed input |
| RoomFormModal.RoomFormModal.OnFloorChange | src/components/admin/RoomFormModal.tsx:159 | only the floor changes, to the parsed value |
| RoomFormModal.RoomFormModal.HandleSubmit | src/components/admin/RoomFormModal.tsx:57-132 | the outcome is `SaveRoom` of the form; a save resets the form, anything else leaves it; loading ends false |
| Instants.DayStart | src/lib/timeline.ts:105 | the start of the instant's day, on that day |
| Instants.MinuteOfDay | src/lib/timeline.ts:30 | the time of day in minutes, within the day |
| Instants.AtMinute | src/lib/timeline.ts:34 | that minute on the reference's day |
| Instants.AddDays | src/lib/bookingValidation.ts:51 | the same time of day, n days later |
| Instants.DifferenceInMinutes | src/lib/bookingValidation.ts:26 | the whole minutes between two instants, truncated toward zero |
| JsNumbers.ParseInt | src/lib/bookingValidation.ts:25 | the `parseInt` model; what it reads is stated by `ParseIntOfIntToString` |
| JsNumbers.ParseIntOfIntToString | src/lib/bookingValidation.ts:25 | `parseInt` reads back every rendered integer |
| JsNumbers.ParseIntOr | src/components/bookings/BookingForm.tsx:227 | NaN and 0 give the fallback; any other number is kept |

## Left out

- Supabase queries, storage uploads and auth calls are not executed. Each becomes a parameter holding its outcome, and the model applies the query filters itself.
- Time zones, daylight saving and locale formatting (`ptBR` dates, "Térreo"/"º Andar" labels) are left out. Days are 24-hour UTC days.
- Each `new Date()` in one handler is taken as the same `now` parameter.
- JavaScript numbers are unbounded integers here. Doubles, precision beyond 2^53 and `parseInt` on exponents are not modelled. `parseInt`'s leading white space is a subset of the Unicode spaces.
- TimelineView.Upper: `toUpperCase` is modelled for ASCII letters only. Other letters are kept as they are.
- TimelineView.GetInitials: the source takes `n[0]` and `slice(0, 2)` on UTF-16 code units, so a letter outside the Basic Multilingual Plane is split in half there. The model works on whole characters.
- The order of query results is not modelled. Rooms are sorted by floor and name; my bookings by start time. `MyBookings.ListsKeepStartOrder` takes the order as a precondition.
- Asynchronous completion order is not modelled. The profile and permission fetches in the session handlers are not awaited, and neither is the reload after a cancel. Each is taken to complete in program order; the reload's own success is a parameter.
- Concurrency between users is not modelled. Two dialogs can both pass the availability check before either insert lands.
- HTML form constraints (`required`, `min`, `max`) are not modelled. They are enforced by the browser, not by the handlers.
- The grid's floor and capacity select handlers are not modelled separately. `FilteredRooms` takes their parsed values as `Option<int>`, with `None` standing for "all".
- The realtime subscription (`useRealtimeBookings`, `handleRealtimeUpdate`) is not part of this model. Nor are the edge functions, the analytics pages, the avatar upload dialog and the image crop and canvas helpers, or the other admin forms.
- RoomFormModal.SaveRoom: the random file name of an upload is not modelled. Nor is the file-extension split. The public URL is a parameter.
- RoomFormModal.RoomFormModal.Open: the fallback from missing facilities to an empty list is not modelled; a room always has a facilities list.
- AuthContext.AuthState.Login: a profile fetch that errors (`.single()` with no row) is modelled as `None`. The error log is dropped.
- Toast messages, console logging and dialog closing callbacks are left out. These state changes are not modelled:
  - the grid's booking dialog `onClose` and `onSuccess`, which clear `selectedSlot` and reload;
  - closing the booking details dialog, `setSelectedBooking(null)`, on the grid and on the my-bookings page;
  - the "Prolongar" button (`setShowExtendModal(true)`), the extend dialog's `onClose` and the "Voltar" button on the my-bookings page.
