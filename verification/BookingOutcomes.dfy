/** What each transaction on the tables comes to, in terms of the rows it finds, and
    how long a hold lasts for its buyer and for everybody else. */
module BookingOutcomes {
  import opened Wrappers
  import opened BookingStore
  import opened StoreInvariants
  import opened BookingLifecycle
  import opened HoldClaims

  // ---------- outcomes, row by row ----------

  /** The seat can be had: it is available, or held by somebody whose hold lapsed. */
  ghost predicate ForTaking(s: Store, k: SeatKey, now: Time) {
    && k in s.seats
    && (|| s.seats[k].status == Available
        || (s.seats[k].status == OnHold && s.seats[k].expires.Some? && s.seats[k].expires.value < now))
  }

  ghost predicate AllForTaking(s: Store, req: Request, now: Time) {
    Distinct(req.seatIds) && forall id :: id in req.seatIds ==> ForTaking(s, SeatKey(req.showtime, id), now)
  }

  ghost predicate AllPriced(s: Store, req: Request) {
    forall id :: id in req.seatIds ==> SeatKey(req.showtime, id) in s.prices
  }

  ghost predicate Wants(req: Request, k: SeatKey) { k.showtime == req.showtime && k.seat in req.seatIds }

  /** A hold of seats that repeats an id or names one that cannot be had is a conflict
      over the requested rows somebody holds or owns; one that has no price, no
      seat or no fresh booking id is an internal error; any other holds exactly the
      requested seats, at their prices, for ten minutes. */
  ghost predicate HoldOutcome(s: Store, s1: Store, req: Request, id: BookingId, now: Time, r: Outcome<Booking>) {
    if !AllForTaking(s, req, now) then
      && s1 == s && r.Failed? && r.error.Conflict?
      && forall k :: k in r.error.taken <==> k in s.seats && Wants(req, k) && !ForTaking(s, k, now)
    else if !AllPriced(s, req) || req.seatIds == [] || id in s.bookings then
      s1 == s && r == Failed(Internal)
    else
      && r.Ok? && r.value.user == req.user && r.value.showtime == req.showtime
      && r.value.status == Holding && r.value.expires == Some(now + 600_000_000)
      && (forall k :: k in r.value.items <==> Wants(req, k))
      && (forall k :: k in r.value.items ==> r.value.items[k] == s.prices[k])
      && s1.bookings == s.bookings[id := r.value] && s1.prices == s.prices && s1.seats.Keys == s.seats.Keys
      && forall k :: k in s.seats ==>
           s1.seats[k] == if Wants(req, k) then Seat(OnHold, Some(id), Some(now + 600_000_000)) else s.seats[k]
  }

  /** A confirm succeeds iff the booking is on hold and its expiry, if any, has not
      passed; its rows are then sold. */
  ghost predicate ConfirmOutcome(s: Store, s1: Store, id: BookingId, now: Time, r: Outcome<Booking>) {
    if id !in s.bookings then s1 == s && r == Failed(NotFound)
    else
      var b := s.bookings[id];
      if b.status == Holding && (b.expires == None || now <= b.expires.value) then
        && r == Ok(Booking(b.user, b.showtime, Paid, None, b.items))
        && s1.bookings == s.bookings[id := r.value] && s1.prices == s.prices && s1.seats.Keys == s.seats.Keys
        && forall k :: k in s.seats ==>
             s1.seats[k] == if k in b.items then Seat(Sold, s.seats[k].booking, None) else s.seats[k]
      else s1 == s && r == Failed(Conflict({}))
  }

  ghost predicate CancelOutcome(s: Store, s1: Store, id: BookingId, r: Outcome<Booking>) {
    if id !in s.bookings then s1 == s && r == Failed(NotFound)
    else
      var b := s.bookings[id];
      if b.status == Holding then
        && r == Ok(Booking(b.user, b.showtime, Canceled, None, b.items))
        && s1.bookings == s.bookings[id := r.value] && s1.prices == s.prices && s1.seats.Keys == s.seats.Keys
        && forall k :: k in s.seats ==>
             s1.seats[k] == if k in b.items then Seat(Available, None, None) else s.seats[k]
      else s1 == s && r == Failed(Conflict({}))
  }

  ghost predicate PastDue(b: Booking, now: Time) {
    b.status == Holding && b.expires.Some? && b.expires.value < now
  }

  /** A release expires the holds that are past due, frees the seats they hold, and
      counts the bookings that went from HOLDING to EXPIRED. */
  ghost predicate ReleaseOutcome(s: Store, s1: Store, now: Time, count: nat) {
    && s1.prices == s.prices && s1.seats.Keys == s.seats.Keys && s1.bookings.Keys == s.bookings.Keys
    && (forall id :: id in s.bookings ==>
         s1.bookings[id] == if PastDue(s.bookings[id], now) then s.bookings[id].(status := Expired) else s.bookings[id])
    && (forall k :: k in s.seats ==>
         s1.seats[k] == if HeldPastDue(s, k, now) then Seat(Available, None, None) else s.seats[k])
    && count == |set id | id in s.bookings && s.bookings[id].status == Holding && s1.bookings[id].status == Expired|
  }

  ghost predicate HeldPastDue(s: Store, k: SeatKey, now: Time)
    requires k in s.seats
  {
    && s.seats[k].status == OnHold && s.seats[k].booking.Some? && s.seats[k].booking.value in s.bookings
    && PastDue(s.bookings[s.seats[k].booking.value], now)
  }

  lemma FreeIsForTaking(s: Store, req: Request, now: Time)
    ensures Distinct(req.seatIds) && AllFree(s, req, now) <==> AllForTaking(s, req, now)
    ensures (forall i :: 0 <= i < |req.seatIds| ==> SeatKey(req.showtime, req.seatIds[i]) in s.prices) <==>
            AllPriced(s, req)
  {
    forall id | id in req.seatIds
      ensures Free(s, req.showtime, id, now) <==> ForTaking(s, SeatKey(req.showtime, id), now)
    {
    }
    if AllFree(s, req, now) {
      forall id | id in req.seatIds ensures Free(s, req.showtime, id, now) {
        var i :| 0 <= i < |req.seatIds| && req.seatIds[i] == id;
      }
    }
  }

  lemma HoldComesTo(s: Store, req: Request, id: BookingId, now: Time)
    ensures HoldOutcome(s, Hold(s, req, id, now).0, req, id, now, Hold(s, req, id, now).1)
  {
    hide Distinct, AllFree;
    ClaimCheckIsExact(s, req, now);
    HoldSucceedsExactly(s, req, id, now);
    FreeIsForTaking(s, req, now);
  }

  lemma ConfirmComesTo(s: Store, id: BookingId, now: Time)
    ensures ConfirmOutcome(s, Confirm(s, id, now).0, id, now, Confirm(s, id, now).1)
  {
  }

  lemma CancelComesTo(s: Store, id: BookingId)
    ensures CancelOutcome(s, Cancel(s, id).0, id, Cancel(s, id).1)
  {
  }

  lemma ReleaseComesTo(s: Store, now: Time)
    ensures ReleaseOutcome(s, Release(s, now).0, now, Release(s, now).1)
  {
    var s1 := Release(s, now).0;
    forall id ensures id in LapsedHolds(s, now) <==> id in s.bookings && PastDue(s.bookings[id], now) {
      InLapsedHolds(s, id, now);
    }
    assert LapsedHolds(s, now) ==
           set id | id in s.bookings && s.bookings[id].status == Holding && s1.bookings[id].status == Expired;
  }

  // ---------- deadlock victims ----------

  /** The hold transaction gets as far as issuing this statement. */
  ghost predicate HoldGetsTo(s: Store, req: Request, id: BookingId, now: Time, at: HoldStatement) {
    match at
    case SelectSeats => true
    case SelectConflicted => !AllForTaking(s, req, now)
    case InsertBooking => AllForTaking(s, req, now)
    case UpdateHeldSeats | SelectPrices => AllForTaking(s, req, now) && id !in s.bookings
    case InsertItems | ReloadBooking | CommitHold =>
      AllForTaking(s, req, now) && id !in s.bookings && AllPriced(s, req) && req.seatIds != []
  }

  lemma HoldReachesExactly(s: Store, req: Request, id: BookingId, now: Time, at: HoldStatement)
    ensures HoldReaches(s, req, id, now, at) <==> HoldGetsTo(s, req, id, now, at)
  {
    hide Distinct, AllFree, Hold, Claimed;
    ClaimCheckIsExact(s, req, now);
    HoldSucceedsExactly(s, req, id, now);
    FreeIsForTaking(s, req, now);
  }

  ghost predicate ConfirmGetsTo(s: Store, id: BookingId, now: Time, at: ConfirmStatement) {
    at == SelectBooking
    || (&& id in s.bookings && s.bookings[id].status == Holding
        && (s.bookings[id].expires == None || now <= s.bookings[id].expires.value))
  }

  lemma ConfirmReachesExactly(s: Store, id: BookingId, now: Time, at: ConfirmStatement)
    ensures ConfirmReaches(s, id, now, at) <==> ConfirmGetsTo(s, id, now, at)
  {
  }

  // ---------- any order of the ids ----------

  /** The outcome of a hold does not depend on the order in which the ids are given. */
  lemma HoldOutcomeSorted(s: Store, s1: Store, req: Request, id: BookingId, now: Time, r: Outcome<Booking>)
    requires HoldOutcome(s, s1, req.(seatIds := SortIds(req.seatIds)), id, now, r)
    ensures HoldOutcome(s, s1, req, id, now, r)
  {
    hide SortIds, Elements, Distinct, ForTaking;
    var sorted := req.(seatIds := SortIds(req.seatIds));
    SortKeepsElements(req.seatIds);
    ElementsSize(req.seatIds);
    ElementsSize(sorted.seatIds);
    SameElements(sorted.seatIds, req.seatIds);
    assert Distinct(sorted.seatIds) <==> Distinct(req.seatIds);
    assert forall k :: Wants(sorted, k) <==> Wants(req, k);
    assert AllForTaking(s, sorted, now) <==> AllForTaking(s, req, now);
    assert AllPriced(s, sorted) <==> AllPriced(s, req);
  }

  // ---------- ten minutes ----------

  /** No request of the run is a confirm or a cancel of this booking. */
  ghost predicate LeftAlone(es: seq<Event>, id: BookingId) {
    forall i :: 0 <= i < |es| ==> es[i].action != DoConfirm(id) && es[i].action != DoCancel(id)
  }

  /** Left alone, a hold stays as it is until it is past due, and then stays on hold
      or expires. */
  lemma {:induction false} HoldStays(s: Store, start: Time, es: seq<Event>, id: BookingId)
    requires id in s.bookings && Timed(start, es) && LeftAlone(es, id)
    requires s.bookings[id].status == Holding && s.bookings[id].expires.Some?
    ensures id in Run(s, es).bookings
    ensures var b, b1 := s.bookings[id], Run(s, es).bookings[id];
            && (b1 == b || b1 == b.(status := Expired))
            && (EndTime(start, es) <= b.expires.value ==> b1 == b)
    decreases |es|
  {
    hide Step;
    if es != [] {
      var s1 := Step(s, es[0]).0;
      StepMoves(s, es[0], id);
      EndIsLast(es[0].now, es[1..]);
      if s1.bookings[id].status == Holding {
        HoldStays(s1, es[0].now, es[1..], id);
      } else {
        ClosedIsForever(s1, es[1..], id);
      }
    }
  }

  lemma {:induction false} EndIsLast(start: Time, es: seq<Event>)
    requires Timed(start, es)
    ensures start <= EndTime(start, es)
    decreases |es|
  {
    if es != [] { EndIsLast(es[0].now, es[1..]); }
  }

  /** A buyer has ten minutes: however others hold, confirm, cancel and release
      meanwhile, a hold made at `start` can be confirmed at `now` iff no more than
      600 s have gone by. */
  lemma TenMinutesToPay(s: Store, req: Request, id: BookingId, start: Time, es: seq<Event>, now: Time)
    requires Hold(s, req, id, start).1.Ok? && LeftAlone(es, id)
    requires Timed(start, es) && EndTime(start, es) <= now
    ensures var (s1, held) := Hold(s, req, id, start);
            Confirm(Run(s1, es), id, now).1 ==
            if now <= start + 600_000_000 then Ok(held.value.(status := Paid, expires := None))
            else Failed(Conflict({}))
  {
    hide Run, Timed, LeftAlone, Hold;
    HoldComesTo(s, req, id, start);
    var s1 := Hold(s, req, id, start).0;
    HoldStays(s1, start, es, id);
    ConfirmComesTo(Run(s1, es), id, now);
  }

  /** And the seats are kept for them: in that time, unless a late cancel of another
      booking interferes, any other hold of one of the seats is refused as a
      conflict over it, and the seat table shows it on hold. */
  lemma TenMinutesReserved(
      s: Store, req: Request, id: BookingId, start: Time, es: seq<Event>, now: Time,
      other: Request, otherId: BookingId, k: SeatKey)
    requires Owned(s, start) && Hold(s, req, id, start).1.Ok? && LeftAlone(es, id)
    requires Timed(start, es) && EndTime(start, es) <= now <= start + 600_000_000
    requires SafeCancels(Hold(s, req, id, start).0, es)
    requires Wants(req, k) && Wants(other, k)
    ensures var s1 := Run(Hold(s, req, id, start).0, es); var r := Hold(s1, other, otherId, now).1;
            && r.Failed? && r.error.Conflict? && k in r.error.taken
            && k in s1.seats && View(s1, k.showtime, now)[k] == Seat(OnHold, Some(id), Some(start + 600_000_000))
  {
    hide Run, Timed, LeftAlone, SafeCancels, Hold, Owned;
    var s0 := Hold(s, req, id, start).0;
    var s1 := Run(s0, es);
    HoldComesTo(s, req, id, start);
    HoldOwned(s, req, id, start);
    HoldStays(s0, start, es, id);
    RunOwned(s0, start, es);
    OwnedLasts(s1, EndTime(start, es), now);
    OwnSeat(s1, id, k, now);
    HoldComesTo(s1, other, otherId, now);
  }

  lemma OwnSeat(s: Store, id: BookingId, k: SeatKey, now: Time)
    requires Owned(s, now) && id in s.bookings && k in s.bookings[id].items
    requires s.bookings[id].status == Holding && s.bookings[id].expires.Some? && now <= s.bookings[id].expires.value
    ensures k in s.seats && s.seats[k] == Seat(OnHold, Some(id), s.bookings[id].expires)
  {
    assert Binding(s.bookings[id], now);
    assert Owns(s, id, k) && SeatLinked(s, k);
  }

  // ---------- the seat table ----------

  /** In every reachable store, what the seat table shows is what a release at that
      instant would leave in the showtime's rows. */
  lemma TableIsReleased(s: Store, es: seq<Event>, showtime: int, now: Time)
    requires Fresh(s)
    ensures var s1 := Run(s, es); var released := Release(s1, now).0;
            View(s1, showtime, now) == map k | k in released.seats && k.showtime == showtime :: released.seats[k]
  {
    hide Run;
    LazyEqualsEager(s, es, now);
  }
}
