/**
 * The "my bookings" page: the signed-in user's bookings split into upcoming,
 * past and cancelled lists, the actions the details dialog offers, and
 * cancelling a booking by setting its status.
 */
module MyBookings {
  import opened Wrappers
  import opened Instants
  import opened Database
  import opened JsArrays

  // ----------------------------------------------------------------- lists

  predicate IsFuture(b: Booking, now: Instant)
  {
    b.status == Confirmado && b.start >= now
  }

  predicate IsPast(b: Booking, now: Instant)
  {
    b.status == Confirmado && b.start < now
  }

  predicate IsCancelled(b: Booking)
  {
    b.status == Cancelado
  }

  /** `futureBookings`. */
  function FutureBookings(bookings: seq<Booking>, now: Instant): (r: seq<Booking>)
    ensures forall b :: b in r <==> b in bookings && b.status == Confirmado && b.start >= now
  {
    Filter(bookings, (b: Booking) => IsFuture(b, now))
  }

  /** `pastBookings`. */
  function PastBookings(bookings: seq<Booking>, now: Instant): (r: seq<Booking>)
    ensures forall b :: b in r <==> b in bookings && b.status == Confirmado && b.start < now
  {
    Filter(bookings, (b: Booking) => IsPast(b, now))
  }

  /** `cancelledBookings`. */
  function CancelledBookings(bookings: seq<Booking>): (r: seq<Booking>)
    ensures forall b :: b in r <==> b in bookings && b.status == Cancelado
  {
    Filter(bookings, (b: Booking) => IsCancelled(b))
  }

  /** No booking is in two of the lists. */
  lemma ListsAreDisjoint(bookings: seq<Booking>, now: Instant, b: Booking)
    ensures !(b in FutureBookings(bookings, now) && b in PastBookings(bookings, now))
    ensures !(b in FutureBookings(bookings, now) && b in CancelledBookings(bookings))
    ensures !(b in PastBookings(bookings, now) && b in CancelledBookings(bookings))
  {
  }

  /**
   * Together the lists hold every loaded booking exactly as often as it was
   * loaded, since a status is either confirmed or cancelled.
   */
  lemma {:induction false} ListsCoverBookings(bookings: seq<Booking>, now: Instant)
    ensures multiset(FutureBookings(bookings, now)) + multiset(PastBookings(bookings, now)) +
      multiset(CancelledBookings(bookings)) == multiset(bookings)
  {
    if bookings != [] {
      var b, rest := bookings[0], bookings[1..];
      ListsCoverBookings(rest, now);
      assert bookings == [b] + rest;
      var f, p, c := FutureBookings(rest, now), PastBookings(rest, now), CancelledBookings(rest);
      assert FutureBookings(bookings, now) == if IsFuture(b, now) then [b] + f else f;
      assert PastBookings(bookings, now) == if IsPast(b, now) then [b] + p else p;
      assert CancelledBookings(bookings) == if IsCancelled(b) then [b] + c else c;
    }
  }

  /** With the bookings loaded in ascending start order, each list keeps that order. */
  lemma ListsKeepStartOrder(bookings: seq<Booking>, now: Instant)
    requires SortedBy(bookings, (b: Booking) => b.start)
    ensures SortedBy(FutureBookings(bookings, now), (b: Booking) => b.start)
    ensures SortedBy(PastBookings(bookings, now), (b: Booking) => b.start)
    ensures SortedBy(CancelledBookings(bookings), (b: Booking) => b.start)
  {
    FilterKeepsSorted(bookings, (b: Booking) => IsFuture(b, now), (b: Booking) => b.start);
    FilterKeepsSorted(bookings, (b: Booking) => IsPast(b, now), (b: Booking) => b.start);
    FilterKeepsSorted(bookings, (b: Booking) => IsCancelled(b), (b: Booking) => b.start);
  }

  /** Every past booking started before every upcoming one. */
  lemma PastBeforeFuture(bookings: seq<Booking>, now: Instant, p: Booking, f: Booking)
    requires p in PastBookings(bookings, now) && f in FutureBookings(bookings, now)
    ensures p.start < f.start
  {
  }

  // --------------------------------------------------------------- actions

  /** The details dialog offers "extend" for a live booking that has not ended. */
  function CanExtend(b: Booking, now: Instant): (r: bool)
    ensures r <==> b.status == Confirmado && now < b.end
  {
    b.status != Cancelado && b.end > now
  }

  /** The details dialog offers "cancel" for any booking that is not cancelled. */
  function CanCancel(b: Booking): (r: bool)
    ensures r <==> b.status == Confirmado
  {
    b.status != Cancelado
  }

  /**
   * What each list's bookings are offered: an upcoming booking that ends after
   * it starts can be extended and cancelled; a past one can be cancelled and
   * is extendable only while it is still running; a cancelled one gets neither.
   */
  lemma ActionsByList(bookings: seq<Booking>, now: Instant, b: Booking)
    ensures b in FutureBookings(bookings, now) && b.start < b.end ==> CanExtend(b, now) && CanCancel(b)
    ensures b in PastBookings(bookings, now) ==> CanCancel(b) && (CanExtend(b, now) <==> b.end > now)
    ensures b in CancelledBookings(bookings) ==> !CanExtend(b, now) && !CanCancel(b)
  {
  }

  // ---------------------------------------------------------------- cancel

  /** The query `update({status: "cancelado"}).eq("id", id)` on the bookings table. */
  function CancelInTable(table: seq<Booking>, id: string): (r: seq<Booking>)
    ensures |r| == |table|
  {
    seq(|table|, i requires 0 <= i < |table| =>
      if table[i].id == id then table[i].(status := Cancelado) else table[i])
  }

  /**
   * Cancelling changes only the status of the rows with that id, to
   * cancelled, and leaves every other row as it was.
   */
  lemma CancelChangesOnlyStatus(table: seq<Booking>, id: string, i: int)
    requires 0 <= i < |table|
    ensures var r := CancelInTable(table, id);
      && (table[i].id == id ==> r[i].status == Cancelado && r[i].(status := table[i].status) == table[i])
      && (table[i].id != id ==> r[i] == table[i])
      && r[i].id == table[i].id
  {
  }

  /** `.eq("user_id", user.id)`: the rows of one user. */
  function UserBookings(table: seq<Booking>, userId: string): (r: seq<Booking>)
    ensures forall b :: b in r <==> b in table && b.userId == userId
  {
    Filter(table, (b: Booking) => b.userId == userId)
  }

  /**
   * After a booking of the user is cancelled and the list reloaded, the
   * booking appears among the cancelled ones and no booking with its id is
   * upcoming or past.
   */
  lemma CancelledMovesToCancelled(table: seq<Booking>, userId: string, b: Booking, now: Instant)
    requires b in table && b.userId == userId
    ensures var after := UserBookings(CancelInTable(table, b.id), userId);
      && b.(status := Cancelado) in CancelledBookings(after)
      && (forall x :: x in FutureBookings(after, now) ==> x.id != b.id)
      && (forall x :: x in PastBookings(after, now) ==> x.id != b.id)
  {
    var t := CancelInTable(table, b.id);
    var i :| 0 <= i < |table| && table[i] == b;
    assert t[i] == b.(status := Cancelado);
    forall x | x in t && x.id == b.id
      ensures x.status == Cancelado
    {
      var k :| 0 <= k < |t| && t[k] == x;
    }
  }

  // ----------------------------------------------------------------- state

  /** The page's state. */
  class MyBookingsPage {
    var bookings: seq<Booking>
    var loading: bool
    var selectedBooking: Option<Booking>
    var cancelling: bool
    var showExtendModal: bool
    var showCancelConfirm: bool

    constructor()
      ensures bookings == [] && loading && selectedBooking.None?
      ensures !cancelling && !showExtendModal && !showCancelConfirm
    {
      bookings := [];
      loading := true;
      selectedBooking := None;
      cancelling, showExtendModal, showCancelConfirm := false, false, false;
    }

    /** What the details dialog offers for the selected booking: the extend button. */
    function ExtendOffered(now: Instant): (r: bool)
      reads this
      ensures r <==> selectedBooking.Some? && selectedBooking.value.status == Confirmado && now < selectedBooking.value.end
    {
      selectedBooking.Some? && CanExtend(selectedBooking.value, now)
    }

    /** What the details dialog offers for the selected booking: the cancel button. */
    function CancelOffered(): (r: bool)
      reads this
      ensures r <==> selectedBooking.Some? && selectedBooking.value.status == Confirmado
    {
      selectedBooking.Some? && CanCancel(selectedBooking.value)
    }

    /**
     * `loadBookings`, given the session's user id and the read of the
     * bookings table: without a user nothing happens; a failed read keeps
     * the list; no data gives an empty list; otherwise the user's rows.
     */
    method LoadBookings(userId: Option<string>, table: Read<Booking>)
      modifies this
      ensures userId.None? ==> bookings == old(bookings) && loading == old(loading)
      ensures userId.Some? ==> (!loading && bookings ==
        (if table.ReadFailed? then old(bookings) else UserBookings(table.RowsOrEmpty(), userId.value)))
      ensures selectedBooking == old(selectedBooking) && cancelling == old(cancelling)
      ensures showExtendModal == old(showExtendModal) && showCancelConfirm == old(showCancelConfirm)
    {
      if userId.None? {
        return;
      }
      loading := true;
      if !table.ReadFailed? {
        bookings := UserBookings(table.RowsOrEmpty(), userId.value);
      }
      loading := false;
    }

    /** A click on an upcoming or past card opens its details. */
    method SelectBooking(b: Booking)
      modifies this
      ensures selectedBooking == Some(b)
      ensures bookings == old(bookings) && cancelling == old(cancelling) && loading == old(loading)
      ensures showExtendModal == old(showExtendModal) && showCancelConfirm == old(showCancelConfirm)
    {
      selectedBooking := Some(b);
    }

    /** `handleCancelClick`: ask for confirmation. */
    method HandleCancelClick()
      modifies this
      ensures showCancelConfirm
      ensures bookings == old(bookings) && selectedBooking == old(selectedBooking)
      ensures cancelling == old(cancelling) && showExtendModal == old(showExtendModal)
      ensures loading == old(loading)
    {
      showCancelConfirm := true;
    }

    /**
     * `handleCancelConfirm`, given the user, the bookings table, whether
     * the update succeeds and whether the reload's read succeeds; returns
     * the table afterwards. With a booking selected the confirmation closes;
     * on success the selected booking's row is cancelled, the selection
     * cleared and the list reloaded from the updated table (kept when the
     * reload fails); on failure nothing else changes. `cancelling` ends false.
     */
    method HandleCancelConfirm(userId: Option<string>, table: seq<Booking>, updateOk: bool, reloadOk: bool)
      returns (newTable: seq<Booking>)
      modifies this
      ensures old(selectedBooking).None? ==>
        newTable == table && bookings == old(bookings) && selectedBooking == old(selectedBooking) &&
        cancelling == old(cancelling) && showCancelConfirm == old(showCancelConfirm)
      ensures old(selectedBooking).Some? ==> !cancelling && !showCancelConfirm
      ensures old(selectedBooking).Some? && updateOk ==>
        newTable == CancelInTable(table, old(selectedBooking).value.id) && selectedBooking.None? &&
        bookings == (if userId.Some? && reloadOk then UserBookings(newTable, userId.value) else old(bookings))
      ensures old(selectedBooking).Some? && !updateOk ==>
        newTable == table && selectedBooking == old(selectedBooking) && bookings == old(bookings)
      ensures loading == (if old(selectedBooking).Some? && updateOk && userId.Some? then false else old(loading))
      ensures showExtendModal == old(showExtendModal)
    {
      newTable := table;
      if selectedBooking.None? {
        return;
      }
      cancelling := true;
      showCancelConfirm := false;
      if updateOk {
        newTable := CancelInTable(table, selectedBooking.value.id);
        selectedBooking := None;
        LoadBookings(userId, if reloadOk then ReadRows(newTable) else ReadFailed);
      }
      cancelling := false;
    }

    /** The extend dialog's `onSuccess`: close it, clear the selection and reload. */
    method OnExtendSuccess(userId: Option<string>, table: Read<Booking>)
      modifies this
      ensures !showExtendModal && selectedBooking.None?
      ensures userId.Some? ==> (bookings ==
        (if table.ReadFailed? then old(bookings) else UserBookings(table.RowsOrEmpty(), userId.value)))
      ensures userId.None? ==> bookings == old(bookings)
      ensures loading == (if userId.Some? then false else old(loading))
      ensures cancelling == old(cancelling) && showCancelConfirm == old(showCancelConfirm)
    {
      showExtendModal := false;
      selectedBooking := None;
      LoadBookings(userId, table);
    }
  }
}
