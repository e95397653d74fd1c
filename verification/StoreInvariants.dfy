/** Who owns a seat: what every transaction keeps, what only an untimely cancel
    can break, and exactly when it does. */
module StoreInvariants {
  import opened Wrappers
  import opened BookingStore

  /** The link from seat rows back to bookings. */
  ghost predicate SeatLinked(s: Store, k: SeatKey)
    requires k in s.seats
  {
    var seat := s.seats[k];
    match seat.status
    case Available => seat == FREE
    case OnHold =>
      && seat.booking.Some? && seat.booking.value in s.bookings
      && var b := s.bookings[seat.booking.value];
      b.status == Holding && b.expires == seat.expires && k in b.items
    case Sold => true
  }

  ghost predicate BookingLinked(s: Store, id: BookingId)
    requires id in s.bookings
  {
    s.bookings[id].items.Keys <= s.seats.Keys && (s.bookings[id].status == Holding ==> s.bookings[id].expires.Some?)
  }

  ghost predicate Linked(s: Store) {
    && (forall k :: k in s.seats ==> SeatLinked(s, k))
    && (forall id :: id in s.bookings ==> BookingLinked(s, id))
  }

  lemma HoldLinked(s: Store, req: Request, id: BookingId, now: Time)
    requires Linked(s)
    ensures Linked(Hold(s, req, id, now).0)
  {
    var s1 := Hold(s, req, id, now).0;
    if s1 != s {
      forall k | k in s1.seats ensures SeatLinked(s1, k) { assert SeatLinked(s, k); }
      forall i | i in s1.bookings ensures BookingLinked(s1, i) { if i != id { assert BookingLinked(s, i); } }
    }
  }

  lemma ConfirmLinked(s: Store, id: BookingId, now: Time)
    requires Linked(s)
    ensures Linked(Confirm(s, id, now).0)
  {
    var s1 := Confirm(s, id, now).0;
    if s1 != s {
      forall k | k in s1.seats ensures SeatLinked(s1, k) { assert SeatLinked(s, k); }
      forall i | i in s1.bookings ensures BookingLinked(s1, i) { assert BookingLinked(s, i); }
    }
  }

  lemma CancelLinked(s: Store, id: BookingId)
    requires Linked(s)
    ensures Linked(Cancel(s, id).0)
  {
    var s1 := Cancel(s, id).0;
    if s1 != s {
      forall k | k in s1.seats ensures SeatLinked(s1, k) { assert SeatLinked(s, k); }
      forall i | i in s1.bookings ensures BookingLinked(s1, i) { assert BookingLinked(s, i); }
    }
  }

  lemma ReleaseLinked(s: Store, now: Time)
    requires Linked(s)
    ensures Linked(Release(s, now).0)
  {
    var s1 := Release(s, now).0;
    forall k | k in s1.seats ensures SeatLinked(s1, k) { assert SeatLinked(s, k); }
    forall i | i in s1.bookings ensures BookingLinked(s1, i) { assert BookingLinked(s, i); }
  }

  lemma StepLinked(s: Store, e: Event)
    requires Linked(s)
    ensures Linked(Step(s, e).0)
  {
    hide Linked, Hold, Confirm, Cancel, Release, View;
    match e.action
    case DoHold(req, id) => HoldLinked(s, req, id, e.now);
    case DoConfirm(id) => ConfirmLinked(s, id, e.now);
    case DoCancel(id) => CancelLinked(s, id);
    case DoRelease => ReleaseLinked(s, e.now);
    case DoView(_) =>
  }

  lemma {:induction false} RunLinked(s: Store, es: seq<Event>)
    requires Linked(s)
    ensures Linked(Run(s, es))
    decreases |es|
  {
    hide Linked, Step;
    if es != [] {
      StepLinked(s, es[0]);
      RunLinked(Step(s, es[0]).0, es[1..]);
    }
  }

  lemma InLapsedHolds(s: Store, id: BookingId, now: Time)
    ensures id in LapsedHolds(s, now) <==> id in s.bookings && LapsedHold(s.bookings[id], now)
  {
  }

  /** Lazy expiry equals eager release: the table GetSeatsStatus shows is the table
      a release at the same instant would leave. */
  lemma ReleaseIsShown(s: Store, now: Time)
    requires Linked(s)
    ensures Release(s, now).0.seats == ShownTable(s.seats, now)
  {
    forall k | k in s.seats ensures Release(s, now).0.seats[k] == Shown(s.seats[k], now) {
      assert SeatLinked(s, k);
      if s.seats[k].status == OnHold {
        InLapsedHolds(s, s.seats[k].booking.value, now);
      }
    }
  }

  /** ... in every reachable store, late cancels included. */
  lemma LazyEqualsEager(s: Store, es: seq<Event>, now: Time)
    requires Fresh(s)
    ensures var s1 := Run(s, es); var released := Release(s1, now).0.seats;
            && released == ShownTable(s1.seats, now) && released.Keys == s1.seats.Keys
            && forall k :: k in s1.seats ==>
                 var seat := s1.seats[k];
                 released[k] == if seat.status == OnHold && seat.expires.Some? && seat.expires.value < now
                                then Seat(Available, None, None) else seat
  {
    hide Run;
    assert Linked(s);
    RunLinked(s, es);
    ReleaseIsShown(Run(s, es), now);
  }

  // ---------- ownership ----------

  /** The booking still has a claim on its seats. */
  predicate Binding(b: Booking, now: Time) {
    b.status == Paid || (b.status == Holding && !Lapsed(b.expires, now))
  }

  ghost predicate Owns(s: Store, id: BookingId, k: SeatKey)
    requires id in s.bookings
  {
    && k in s.seats && s.seats[k].booking == Some(id)
    && s.seats[k].status == (if s.bookings[id].status == Paid then Sold else OnHold)
  }

  ghost predicate SoldToSomebody(s: Store, k: SeatKey)
    requires k in s.seats
  {
    s.seats[k].status == Sold ==>
      && s.seats[k].booking.Some? && s.seats[k].booking.value in s.bookings
      && var b := s.bookings[s.seats[k].booking.value];
      b.status == Paid && k in b.items
  }

  /** Every binding booking owns all its seats, and every sold seat is owned. */
  ghost predicate Owned(s: Store, now: Time) {
    && Linked(s)
    && (forall id, k ::
         id in s.bookings && Binding(s.bookings[id], now) && k in s.bookings[id].items ==> Owns(s, id, k))
    && (forall k :: k in s.seats ==> SoldToSomebody(s, k))
  }

  lemma OwnedLasts(s: Store, now: Time, later: Time)
    requires Owned(s, now) && now <= later
    ensures Owned(s, later)
  {
    forall id, k | id in s.bookings && Binding(s.bookings[id], later) && k in s.bookings[id].items
      ensures Owns(s, id, k)
    {
      assert Binding(s.bookings[id], now);
    }
  }

  /** What a caller could look up before a cancel: the booking is not HOLDING, so
      nothing happens, or each of its seats is its own or up for grabs. */
  predicate CancelSafe(s: Store, id: BookingId, now: Time) {
    id in s.bookings && s.bookings[id].status == Holding ==>
      forall k :: k in s.bookings[id].items && k in s.seats ==>
        s.seats[k].booking == Some(id) || Claimable(s.seats[k], now)
  }

  /** A cancel that does not hit a lapsed hold. */
  predicate CancelTimely(s: Store, id: BookingId, now: Time) {
    id in s.bookings ==> !LapsedHold(s.bookings[id], now)
  }

  lemma TimelyIsSafe(s: Store, id: BookingId, now: Time)
    requires Owned(s, now) && CancelTimely(s, id, now)
    ensures CancelSafe(s, id, now)
  {
    if id in s.bookings && s.bookings[id].status == Holding {
      forall k | k in s.bookings[id].items ensures s.seats[k].booking == Some(id) { assert Owns(s, id, k); }
    }
  }

  lemma HoldOwned(s: Store, req: Request, id: BookingId, now: Time)
    requires Owned(s, now)
    ensures Owned(Hold(s, req, id, now).0, now)
  {
    var s1 := Hold(s, req, id, now).0;
    HoldLinked(s, req, id, now);
    if s1 != s {
      forall i, k | i in s1.bookings && Binding(s1.bookings[i], now) && k in s1.bookings[i].items
        ensures Owns(s1, i, k)
      {
        if i != id { assert Owns(s, i, k); assert SeatLinked(s, k); }
      }
      forall k | k in s1.seats ensures SoldToSomebody(s1, k) { assert SoldToSomebody(s, k); }
    }
  }

  lemma ConfirmOwned(s: Store, id: BookingId, now: Time)
    requires Owned(s, now)
    ensures Owned(Confirm(s, id, now).0, now)
  {
    var s1 := Confirm(s, id, now).0;
    ConfirmLinked(s, id, now);
    if s1 != s {
      forall i, k | i in s1.bookings && Binding(s1.bookings[i], now) && k in s1.bookings[i].items
        ensures Owns(s1, i, k)
      {
        assert Owns(s, i, k);
        if k in s.bookings[id].items { assert Owns(s, id, k); }
      }
      forall k | k in s1.seats ensures SoldToSomebody(s1, k) {
        assert SoldToSomebody(s, k);
        if k in s.bookings[id].items { assert Owns(s, id, k); }
      }
    }
  }

  lemma ReleaseOwned(s: Store, now: Time)
    requires Owned(s, now)
    ensures Owned(Release(s, now).0, now)
  {
    var s1 := Release(s, now).0;
    ReleaseLinked(s, now);
    forall i, k | i in s1.bookings && Binding(s1.bookings[i], now) && k in s1.bookings[i].items ensures Owns(s1, i, k) {
      assert Owns(s, i, k);
    }
    forall k | k in s1.seats ensures SoldToSomebody(s1, k) {
      assert SoldToSomebody(s, k);
      if s.seats[k].status == Sold { InLapsedHolds(s, s.seats[k].booking.value, now); }
    }
  }

  /** Exactly when a cancel keeps ownership: a cancel of a lapsed hold may free a
      seat that somebody else holds or has bought, and then it always breaks it. */
  lemma CancelOwnedExactly(s: Store, id: BookingId, now: Time)
    requires Owned(s, now)
    ensures Owned(Cancel(s, id).0, now) <==> CancelSafe(s, id, now)
  {
    var s1 := Cancel(s, id).0;
    CancelLinked(s, id);
    if s1 != s {
      if CancelSafe(s, id, now) {
        CancelSafeOwned(s, id, now);
      } else {
        var k :| k in s.bookings[id].items && k in s.seats
                 && s.seats[k].booking != Some(id) && !Claimable(s.seats[k], now);
        assert SeatLinked(s, k) && SoldToSomebody(s, k);
        var other := s.seats[k].booking.value;
        assert Binding(s1.bookings[other], now) && k in s1.bookings[other].items;
        assert !Owns(s1, other, k);
      }
    }
  }

  lemma CancelSafeOwned(s: Store, id: BookingId, now: Time)
    requires Owned(s, now) && CancelSafe(s, id, now)
    ensures Owned(Cancel(s, id).0, now)
  {
    var s1 := Cancel(s, id).0;
    CancelLinked(s, id);
    if s1 != s {
      forall i, k | i in s1.bookings && Binding(s1.bookings[i], now) && k in s1.bookings[i].items
        ensures Owns(s1, i, k)
      {
        assert Owns(s, i, k) && SeatLinked(s, k);
      }
      forall k | k in s1.seats ensures SoldToSomebody(s1, k) { assert SoldToSomebody(s, k); }
    }
  }

  lemma StepOwned(s: Store, e: Event)
    requires Owned(s, e.now)
    requires e.action.DoCancel? ==> CancelSafe(s, e.action.booking, e.now)
    ensures Owned(Step(s, e).0, e.now)
  {
    hide Owned, Hold, Confirm, Cancel, Release, View, CancelSafe;
    match e.action
    case DoHold(req, id) => HoldOwned(s, req, id, e.now);
    case DoConfirm(id) => ConfirmOwned(s, id, e.now);
    case DoCancel(id) => CancelSafeOwned(s, id, e.now);
    case DoRelease => ReleaseOwned(s, e.now);
    case DoView(_) =>
  }

  ghost predicate SafeCancels(s: Store, es: seq<Event>)
    decreases |es|
  {
    es == [] ||
    (&& (es[0].action.DoCancel? ==> CancelSafe(s, es[0].action.booking, es[0].now))
     && SafeCancels(Step(s, es[0]).0, es[1..]))
  }

  ghost predicate TimelyCancels(s: Store, es: seq<Event>)
    decreases |es|
  {
    es == [] ||
    (&& (es[0].action.DoCancel? ==> CancelTimely(s, es[0].action.booking, es[0].now))
     && TimelyCancels(Step(s, es[0]).0, es[1..]))
  }

  lemma {:induction false} RunOwned(s: Store, start: Time, es: seq<Event>)
    requires Owned(s, start) && Timed(start, es) && SafeCancels(s, es)
    ensures Owned(Run(s, es), EndTime(start, es))
    decreases |es|
  {
    hide Owned, Step, CancelSafe;
    if es != [] {
      OwnedLasts(s, start, es[0].now);
      StepOwned(s, es[0]);
      RunOwned(Step(s, es[0]).0, es[0].now, es[1..]);
    }
  }

  lemma {:induction false} TimelyRunIsSafe(s: Store, start: Time, es: seq<Event>)
    requires Owned(s, start) && Timed(start, es) && TimelyCancels(s, es)
    ensures SafeCancels(s, es)
    decreases |es|
  {
    hide Owned, Step, CancelSafe, CancelTimely;
    if es != [] {
      OwnedLasts(s, start, es[0].now);
      if es[0].action.DoCancel? { TimelyIsSafe(s, es[0].action.booking, es[0].now); }
      StepOwned(s, es[0]);
      TimelyRunIsSafe(Step(s, es[0]).0, es[0].now, es[1..]);
    }
  }

  /** The two sides of the expiry test never overlap: while a booking can still be
      confirmed, nobody can claim one of its seats. */
  lemma ConfirmableIsNotClaimable(s: Store, id: BookingId, now: Time, k: SeatKey)
    requires Owned(s, now) && Confirm(s, id, now).1.Ok? && k in s.bookings[id].items
    ensures k in s.seats && !Claimable(s.seats[k], now)
  {
    assert Owns(s, id, k) && SeatLinked(s, k);
  }

  predicate PaidItem(s: Store, id: BookingId, k: SeatKey) {
    id in s.bookings && s.bookings[id].status == Paid && k in s.bookings[id].items
  }

  /** No double sale: in every store reached by safe cancels (timely ones are), a
      sold seat carries the id of the one paid booking with that item, a paid
      booking has all its seats sold to it, and no two paid bookings share a seat. */
  lemma NoDoubleSale(s: Store, start: Time, es: seq<Event>)
    requires Fresh(s) && Timed(start, es) && SafeCancels(s, es)
    ensures var s1 := Run(s, es);
            && (forall k :: k in s1.seats && s1.seats[k].status == Sold ==>
                 && s1.seats[k].booking.Some? && s1.seats[k].booking.value in s1.bookings
                 && var b := s1.bookings[s1.seats[k].booking.value]; b.status == Paid && k in b.items)
            && (forall id, k :: PaidItem(s1, id, k) ==>
                 k in s1.seats && s1.seats[k].status == Sold && s1.seats[k].booking == Some(id))
            && (forall i, j, k :: PaidItem(s1, i, k) && PaidItem(s1, j, k) ==> i == j)
  {
    hide Run, Timed, SafeCancels;
    assert Owned(s, start);
    RunOwned(s, start, es);
    var s1 := Run(s, es);
    forall id, k | PaidItem(s1, id, k) ensures Owns(s1, id, k) {
      assert Binding(s1.bookings[id], EndTime(start, es));
    }
    forall k | k in s1.seats && s1.seats[k].status == Sold ensures SoldToSomebody(s1, k) {}
  }
}
