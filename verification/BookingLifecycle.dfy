/** The life of a booking and of a seat: which request may change them, and what
    never changes again. */
module BookingLifecycle {
  import opened Wrappers
  import opened BookingStore
  import opened StoreInvariants

  /** A booking never changes its buyer, showtime or items; it leaves HOLDING once,
      by its own confirm before it lapses, its own cancel, or a release after. */
  ghost predicate Moves(b: Booking, b1: Booking, id: BookingId, e: Event) {
    || b1 == b
    || (&& b.status == Holding
        && match b1.status
           case Holding => false
           case Paid =>
             e.action == DoConfirm(id) && !Lapsed(b.expires, e.now) && b1 == b.(status := Paid, expires := None)
           case Canceled => e.action == DoCancel(id) && b1 == b.(status := Canceled, expires := None)
           case Expired => e.action == DoRelease && Lapsed(b.expires, e.now) && b1 == b.(status := Expired))
  }

  lemma StepMoves(s: Store, e: Event, id: BookingId)
    requires id in s.bookings
    ensures id in Step(s, e).0.bookings
    ensures Moves(s.bookings[id], Step(s, e).0.bookings[id], id, e)
  {
    InLapsedHolds(s, id, e.now);
  }

  /** A seat is touched only by a hold that claims it, a confirm or cancel of a
      booking with that item, or a release of the lapsed hold it names. */
  lemma SeatMoves(s: Store, e: Event, k: SeatKey)
    requires Linked(s) && k in s.seats && Step(s, e).0.seats[k] != s.seats[k]
    ensures var seat, seat1 := s.seats[k], Step(s, e).0.seats[k];
            match e.action
            case DoHold(req, id) =>
              && Claimable(seat, e.now) && k.showtime == req.showtime && k.seat in req.seatIds
              && seat1 == Seat(OnHold, Some(id), Some(e.now + HOLD_TIME))
            case DoConfirm(id) =>
              && id in s.bookings && k in s.bookings[id].items && Binding(s.bookings[id], e.now)
              && seat1 == seat.(status := Sold, expires := None)
            case DoCancel(id) =>
              id in s.bookings && k in s.bookings[id].items && s.bookings[id].status == Holding && seat1 == FREE
            case DoRelease => seat.status == OnHold && Lapsed(seat.expires, e.now) && seat1 == FREE
            case DoView(_) => false
    ensures Step(s, e).0.seats.Keys == s.seats.Keys
  {
    assert SeatLinked(s, k);
    if e.action.DoRelease? && s.seats[k].booking.Some? {
      InLapsedHolds(s, s.seats[k].booking.value, e.now);
    }
  }

  /** Paid, canceled and expired are final: no run changes such a booking. */
  lemma {:induction false} ClosedIsForever(s: Store, es: seq<Event>, id: BookingId)
    requires id in s.bookings && s.bookings[id].status != Holding
    ensures id in Run(s, es).bookings && Run(s, es).bookings[id] == s.bookings[id]
    decreases |es|
  {
    hide Step;
    if es != [] {
      StepMoves(s, es[0], id);
      ClosedIsForever(Step(s, es[0]).0, es[1..], id);
    }
  }

  /** A seat once sold stays sold to the same booking in every run whose cancels
      are safe. */
  lemma SoldStaysSold(s: Store, start: Time, es: seq<Event>, k: SeatKey)
    requires Owned(s, start) && Timed(start, es) && SafeCancels(s, es)
    requires k in s.seats && s.seats[k].status == Sold
    ensures var seats := Run(s, es).seats;
            k in seats && seats[k].status == Sold && seats[k].booking == s.seats[k].booking
  {
    hide Run, Timed, SafeCancels;
    assert SoldToSomebody(s, k);
    var id := s.seats[k].booking.value;
    ClosedIsForever(s, es, id);
    RunOwned(s, start, es);
    assert Binding(Run(s, es).bookings[id], EndTime(start, es));
    assert Owns(Run(s, es), id, k);
  }
}
