/** The booking service: what it adds around the repository. */
module BookingService {
  import opened Wrappers
  import opened Sets
  import opened BookingStore
  import opened BookingOutcomes
  import opened BookingRepository
  import opened SeatLocks
  import opened HoldClaims
  import opened OneSeat

  const MAX_DEADLOCK_RETRIES := 3

  // What an attempt meets: the transactions of others that commit before it, the
  // time, and the statement at which the database makes it a deadlock victim, if
  // it gets that far.
  datatype Try<S> = Try(others: seq<BookingStore.Event>, now: Time, victim: Option<S>)

  datatype Counts = Counts(total: nat, available: nat, holding: nat, sold: nat)

  predicate IsDeadlock(error: Failure) { error.Deadlock? }

  /** The tables after what others did before the n-th attempt. */
  function Meanwhile<S>(s: Store, tries: seq<Try<S>>, n: nat): Store
    requires n <= |tries|
  {
    if n == 0 then s else BookingStore.Run(Meanwhile(s, tries, n - 1), tries[n - 1].others)
  }

  /** The request the attempts make: the ids sorted. */
  function SortedRequest(req: Request): Request { req.(seatIds := SortIds(req.seatIds)) }

  /** The attempt falls victim at a statement whose error reaches the service with
      its code: the reads of the seats, the prices and the new booking, and the
      commit; not the writes, nor the read that names the conflicting seats. */
  predicate HoldRetryable(s: Store, req: Request, id: BookingId, try: Try<HoldStatement>) {
    && try.victim.Some? && HoldReaches(s, req, id, try.now, try.victim.value)
    && try.victim.value in {SelectSeats, SelectPrices, ReloadBooking, CommitHold}
  }

  predicate ConfirmRetryable(s: Store, id: BookingId, try: Try<ConfirmStatement>) {
    && try.victim.Some? && ConfirmReaches(s, id, try.now, try.victim.value)
    && try.victim.value in {SelectBooking, CommitConfirm}
  }

  /** A hold attempt is seen as a deadlock exactly at those statements; a victim at
      any other one fails for good, although the tables would have allowed it. */
  lemma HoldDeadlockSeen(s: Store, req: Request, id: BookingId, try: Try<HoldStatement>)
    ensures var (s1, r) := HoldUnder(s, req, id, try.now, try.victim);
            if try.victim.None? || !HoldGetsTo(s, req, id, try.now, try.victim.value) then
              (s1, r) == Hold(s, req, id, try.now) && !HoldRetryable(s, req, id, try)
            else
              && s1 == s && r.Failed?
              && (HoldRetryable(s, req, id, try) <==> r.error == Deadlock)
              && match try.victim.value
                 case SelectSeats | SelectPrices | ReloadBooking | CommitHold => r.error == Deadlock
                 case SelectConflicted => r.error == Conflict({})
                 case InsertBooking | UpdateHeldSeats | InsertItems => r.error == Internal
    ensures var r := HoldUnder(s, req, id, try.now, try.victim).1;
            r.Failed? && IsDeadlock(r.error) <==> HoldRetryable(s, req, id, try)
  {
    hide HoldReaches, HoldGetsTo;
    if try.victim.Some? { HoldReachesExactly(s, req, id, try.now, try.victim.value); }
  }

  lemma ConfirmDeadlockSeen(s: Store, id: BookingId, try: Try<ConfirmStatement>)
    ensures var (s1, r) := ConfirmUnder(s, id, try.now, try.victim);
            if try.victim.None? || !ConfirmGetsTo(s, id, try.now, try.victim.value) then
              (s1, r) == Confirm(s, id, try.now) && !ConfirmRetryable(s, id, try)
            else
              && s1 == s && r.Failed?
              && (ConfirmRetryable(s, id, try) <==> r.error == Deadlock)
              && match try.victim.value
                 case SelectBooking | CommitConfirm => r.error == Deadlock
                 case UpdateBooking | UpdateSoldSeats => r.error == Internal
    ensures var r := ConfirmUnder(s, id, try.now, try.victim).1;
            r.Failed? && IsDeadlock(r.error) <==> ConfirmRetryable(s, id, try)
  {
    hide ConfirmReaches, ConfirmGetsTo;
    if try.victim.Some? { ConfirmReachesExactly(s, id, try.now, try.victim.value); }
  }

  class Service {
    const repo: Repository
    const locker: SeatLocker?

    constructor (repo: Repository, locker: SeatLocker?)
      ensures this.repo == repo && this.locker == locker
    {
      this.repo := repo;
      this.locker := locker;
    }

    function Lockers(): set<object> { if locker == null then {} else {locker} }

    /** The attempts under the lock: at most three, each a whole transaction.  One
        before the third is repeated exactly if it fell victim at a statement whose
        error is recognised; the last one made decides. */
    method Attempt(req: Request, ids: seq<BookingId>, tries: seq<Try<HoldStatement>>)
      returns (r: Outcome<Booking>, attempts: nat)
      requires |tries| == |ids| == MAX_DEADLOCK_RETRIES
      modifies repo`seats, repo`bookings
      ensures 1 <= attempts <= 3
      ensures var t := tries[attempts - 1];
              (repo.Tables(), r) ==
              HoldUnder(Meanwhile(old(repo.Tables()), tries, attempts), req, ids[attempts - 1], t.now, t.victim)
      ensures var t, s := tries[attempts - 1], Meanwhile(old(repo.Tables()), tries, attempts);
              t.victim.None? ==> HoldOutcome(s, repo.Tables(), req, ids[attempts - 1], t.now, r)
      ensures forall n :: 1 <= n <= attempts && n < 3 ==>
                (n < attempts <==>
                 HoldRetryable(Meanwhile(old(repo.Tables()), tries, n), req, ids[n - 1], tries[n - 1]))
    {
      hide HoldUnder, HoldRetryable, HoldOutcome, BookingStore.Run;
      r := Failed(Deadlock);
      attempts := 0;
      for i := 0 to MAX_DEADLOCK_RETRIES
        invariant attempts == i && (i == 0 ==> repo.Tables() == old(repo.Tables()))
        invariant i > 0 ==> repo.Tables() == Meanwhile(old(repo.Tables()), tries, i)
        invariant i > 0 ==>
                    var t := tries[i - 1];
                    && (repo.Tables(), r) == HoldUnder(repo.Tables(), req, ids[i - 1], t.now, t.victim)
                    && t.victim.Some?
        invariant forall n :: 1 <= n <= i ==>
                    HoldRetryable(Meanwhile(old(repo.Tables()), tries, n), req, ids[n - 1], tries[n - 1])
      {
        attempts := i + 1;
        repo.OtherRequests(tries[i].others);
        HoldDeadlockSeen(repo.Tables(), req, ids[i], tries[i]);
        r := repo.HoldSeats(req, ids[i], tries[i].now, tries[i].victim);
        if r.Ok? {
          break;
        }
        if !IsDeadlock(r.error) {
          return;
        }
      }
    }

    /** Retry is exactly-once, whatever others do meanwhile and wherever deadlocks
        strike: on success the tables differ from what the others made of them by
        one booking, of exactly the requested seats and within the ticket limit; on
        any error they do not differ; and either way no live seat lock carries the
        token of this call afterwards.  A request refused before any attempt touches
        neither tables nor locks. */
    method HoldSeats(
        req: Request, owner: Owner, lockAt: Time, lockers: seq<SeatLocks.Event>,
        ids: seq<BookingId>, tries: seq<Try<HoldStatement>>, unlockAt: Time)
      returns (r: Outcome<Booking>, attempts: nat)
      requires |tries| == |ids| == MAX_DEADLOCK_RETRIES && lockAt <= unlockAt
      requires locker != null ==> forall k :: k in locker.keys ==> locker.keys[k].owner != owner
      requires forall i :: 0 <= i < |lockers| ==> lockers[i].owner != owner
      modifies repo`seats, repo`bookings, Lockers()
      ensures attempts <= 3
      ensures r.Ok? ==> 1 <= attempts && var s := Meanwhile(old(repo.Tables()), tries, attempts);
                ids[attempts - 1] !in s.bookings && repo.bookings == s.bookings[ids[attempts - 1] := r.value]
                && (repo.Tables(), r) == Hold(s, SortedRequest(req), ids[attempts - 1], tries[attempts - 1].now)
      ensures r.Ok? ==> Distinct(req.seatIds) && req.seatIds != []
      ensures r.Ok? ==> forall k :: k in r.value.items <==> k.showtime == req.showtime && k.seat in req.seatIds
      ensures r.Ok? ==> req.showtime in repo.maxTickets && !TooMany(req)
      ensures r.Failed? ==> repo.Tables() == Meanwhile(old(repo.Tables()), tries, attempts)
      ensures attempts > 0 && tries[attempts - 1].victim.None? ==>
                var t, s := tries[attempts - 1], Meanwhile(old(repo.Tables()), tries, attempts);
                HoldOutcome(s, repo.Tables(), req, ids[attempts - 1], t.now, r)
      ensures attempts == 0 <==>
                || !Distinct(req.seatIds) || req.showtime !in repo.maxTickets
                || (repo.maxTickets[req.showtime].Some? && 0 < repo.maxTickets[req.showtime].value < |req.seatIds|)
                || (locker != null && exists id ::
                      id in req.seatIds && Locked(old(locker.keys), SeatKey(req.showtime, id), lockAt))
      ensures attempts > 0 ==>
                var t, s := tries[attempts - 1], Meanwhile(old(repo.Tables()), tries, attempts);
                (repo.Tables(), r) == HoldUnder(s, SortedRequest(req), ids[attempts - 1], t.now, t.victim)
      ensures attempts == 0 ==> r.Failed? && (locker != null ==> locker.keys == old(locker.keys))
      ensures attempts == 0 && Distinct(req.seatIds) && req.showtime in repo.maxTickets && !TooMany(req) ==>
                r == Failed(Conflict({}))
      ensures attempts > 0 ==> forall n :: 1 <= n <= attempts && n < 3 ==>
                (n < attempts <==>
                 HoldRetryable(Meanwhile(old(repo.Tables()), tries, n), SortedRequest(req), ids[n - 1], tries[n - 1]))
      ensures !Distinct(req.seatIds) ==> r == Failed(BadRequest)
      ensures Distinct(req.seatIds) && req.showtime !in repo.maxTickets ==> r == Failed(NotFound)
      ensures Distinct(req.seatIds) && TooMany(req) ==> r == Failed(BadRequest)
      ensures !Distinct(req.seatIds) || req.showtime !in repo.maxTickets || TooMany(req) ==>
                attempts == 0 && repo.Tables() == old(repo.Tables())
                && (locker != null ==> locker.keys == old(locker.keys))
      ensures locker != null ==> forall k :: !LockedBy(locker.keys, k, owner, unlockAt)
      ensures locker != null && lockers == [] ==> forall k ::
                (Locked(locker.keys, k, unlockAt) <==> Locked(old(locker.keys), k, unlockAt))
                && (Locked(locker.keys, k, unlockAt) ==> locker.keys[k] == old(locker.keys)[k])
    {
      hide Hold, HoldUnder, HoldOutcome, HoldRetryable, SortIds, AcquireKeys, ReleaseKeys, Distinct, BookingStore.Run;
      attempts := 0;
      var sorted := SortIds(req.seatIds);
      DuplicateTestIsExact(req.seatIds);
      var i := 1;
      while i < |sorted|
        invariant 1 <= i
        invariant forall j :: 1 <= j < i && j < |sorted| ==> sorted[j] != sorted[j - 1]
      {
        if sorted[i] == sorted[i - 1] {
          return Failed(BadRequest), attempts;
        }
        i := i + 1;
      }
      assert Distinct(req.seatIds);
      var maxTickets := repo.GetMaxTicketsPerBooking(req.showtime);
      if maxTickets.Failed? {
        return Failed(maxTickets.error), attempts;
      }
      if maxTickets.value.Some? && maxTickets.value.value > 0 && |sorted| > maxTickets.value.value {
        return Failed(BadRequest), attempts;
      }
      if locker == null {
        r, attempts := Attempt(SortedRequest(req), ids, tries);
      } else {
        ghost var before := locker.keys;
        ghost var ks := SeatKeys(req.showtime, sorted);
        LockedSeats(before, req.showtime, sorted, req.seatIds, owner, lockAt, locker.LeaseTime());
        forall k { LockThenUnlock(before, ks, owner, lockAt, locker.LeaseTime(), unlockAt, k); }
        forall k { UnlockClearsToken(before, ks, owner, lockAt, locker.LeaseTime(), lockers, unlockAt, k); }
        var locked := locker.LockSeats(req.showtime, sorted, owner, lockAt);
        if !locked {
          return Failed(Conflict({})), attempts;
        }
        r, attempts := Attempt(SortedRequest(req), ids, tries);
        locker.OtherRequests(lockers);
        locker.UnlockSeats(req.showtime, sorted, owner, unlockAt);
      }
      ghost var s := Meanwhile(old(repo.Tables()), tries, attempts);
      ghost var t := tries[attempts - 1];
      HoldUnderIsHoldOrNothing(s, SortedRequest(req), ids[attempts - 1], t.now, t.victim);
      HoldSucceedsExactly(s, SortedRequest(req), ids[attempts - 1], t.now);
      if t.victim.None? { HoldOutcomeSorted(s, repo.Tables(), req, ids[attempts - 1], t.now, r); }
      SameElements(sorted, req.seatIds);
    }

    /** The request asks for more seats than a positive limit of its event allows. */
    predicate TooMany(req: Request)
      reads repo
    {
      && req.showtime in repo.maxTickets && repo.maxTickets[req.showtime].Some?
      && 0 < repo.maxTickets[req.showtime].value < |req.seatIds|
    }

    /** Confirming retries in the same way. */
    method ConfirmBooking(id: BookingId, tries: seq<Try<ConfirmStatement>>) returns (r: Outcome<Booking>, attempts: nat)
      requires |tries| == MAX_DEADLOCK_RETRIES
      modifies repo`seats, repo`bookings
      ensures 1 <= attempts <= 3
      ensures var t := tries[attempts - 1];
              (repo.Tables(), r) == ConfirmUnder(Meanwhile(old(repo.Tables()), tries, attempts), id, t.now, t.victim)
      ensures r.Failed? ==> repo.Tables() == Meanwhile(old(repo.Tables()), tries, attempts)
      ensures var t, s := tries[attempts - 1], Meanwhile(old(repo.Tables()), tries, attempts);
              t.victim.None? ==> ConfirmOutcome(s, repo.Tables(), id, t.now, r)
      ensures forall n :: 1 <= n <= attempts && n < 3 ==>
                (n < attempts <==> ConfirmRetryable(Meanwhile(old(repo.Tables()), tries, n), id, tries[n - 1]))
    {
      hide ConfirmUnder, ConfirmRetryable, ConfirmOutcome, BookingStore.Run;
      r := Failed(Deadlock);
      attempts := 0;
      for i := 0 to MAX_DEADLOCK_RETRIES
        invariant attempts == i && (i == 0 ==> repo.Tables() == old(repo.Tables()))
        invariant i > 0 ==> repo.Tables() == Meanwhile(old(repo.Tables()), tries, i)
        invariant i > 0 ==> (repo.Tables(), r) == ConfirmUnder(repo.Tables(), id, tries[i - 1].now, tries[i - 1].victim)
        invariant i > 0 ==> tries[i - 1].victim.Some?
        invariant forall n :: 1 <= n <= i ==>
                    ConfirmRetryable(Meanwhile(old(repo.Tables()), tries, n), id, tries[n - 1])
      {
        attempts := i + 1;
        repo.OtherRequests(tries[i].others);
        ConfirmDeadlockSeen(repo.Tables(), id, tries[i]);
        r := repo.ConfirmBooking(id, tries[i].now, tries[i].victim);
        if r.Ok? {
          break;
        }
        if !IsDeadlock(r.error) {
          return;
        }
      }
    }

    /** The counters of the seat map count the seats as shown. */
    method GetSeatsStatus(showtime: int, now: Time) returns (c: Counts)
      ensures var view := View(repo.Tables(), showtime, now);
              c == Counts(|view|, |SeatsWith(view, Available)|, |SeatsWith(view, OnHold)|, |SeatsWith(view, Sold)|)
      ensures var seats := repo.seats;
              && c.total == |set k | k in seats && k.showtime == showtime|
              && c.available == |set k | k in seats && k.showtime == showtime
                                 && (seats[k].status == Available || PastHold(seats[k], now))|
              && c.holding == |set k | k in seats && k.showtime == showtime
                               && seats[k].status == OnHold && !PastHold(seats[k], now)|
              && c.sold == |set k | k in seats && k.showtime == showtime && seats[k].status == Sold|
      ensures c.total == c.available + c.holding + c.sold
    {
      hide View;
      var rows := repo.GetSeatsStatus(showtime, now);
      ghost var view := View(repo.Tables(), showtime, now);
      c := Counts(0, 0, 0, 0);
      ghost var seen: map<SeatKey, Seat> := map[];
      for i := 0 to |rows|
        invariant seen.Keys <= view.Keys && forall k :: k in seen ==> seen[k] == view[k]
        invariant forall j :: i <= j < |rows| ==> rows[j].key !in seen
        invariant c == Counts(i, |SeatsWith(seen, Available)|, |SeatsWith(seen, OnHold)|, |SeatsWith(seen, Sold)|)
        invariant |seen| == i && c.total == c.available + c.holding + c.sold
      {
        CountOneMore(seen, rows[i].key, rows[i].seat);
        seen := seen[rows[i].key := rows[i].seat];
        match rows[i].seat.status
        case Available => c := c.(total := c.total + 1, available := c.available + 1);
        case OnHold => c := c.(total := c.total + 1, holding := c.holding + 1);
        case Sold => c := c.(total := c.total + 1, sold := c.sold + 1);
      }
      SubsetSize(seen.Keys, view.Keys);
      assert seen == view;
      ViewCounts(repo.Tables(), showtime, now);
    }
  }

  ghost predicate PastHold(seat: Seat, now: Time) {
    seat.status == OnHold && seat.expires.Some? && seat.expires.value < now
  }

  lemma ViewCounts(s: Store, showtime: int, now: Time)
    ensures var view, seats := View(s, showtime, now), s.seats;
            && view.Keys == (set k | k in seats && k.showtime == showtime)
            && SeatsWith(view, Available) == (set k | k in seats && k.showtime == showtime
                                              && (seats[k].status == Available || PastHold(seats[k], now)))
            && SeatsWith(view, OnHold) == (set k | k in seats && k.showtime == showtime
                                           && seats[k].status == OnHold && !PastHold(seats[k], now))
            && SeatsWith(view, Sold) == (set k | k in seats && k.showtime == showtime && seats[k].status == Sold)
  {
  }

  /** The locks of a request are refused exactly when one of its seats is locked. */
  lemma LockedSeats(keys: Keys, showtime: int, sorted: seq<int>, ids: seq<int>, owner: Owner, now: Time, lease: Time)
    requires Elements(sorted) == Elements(ids)
    ensures !AcquireKeys(keys, SeatKeys(showtime, sorted), owner, now, lease).1 <==>
            exists id :: id in ids && Locked(keys, SeatKey(showtime, id), now)
  {
    var ks := SeatKeys(showtime, sorted);
    SameElements(sorted, ids);
    if k :| k in ks && Locked(keys, k, now) {
      var i :| 0 <= i < |ks| && ks[i] == k;
      assert sorted[i] in ids && k == SeatKey(showtime, sorted[i]);
    }
    if id :| id in ids && Locked(keys, SeatKey(showtime, id), now) {
      var i :| 0 <= i < |sorted| && sorted[i] == id;
      assert ks[i] == SeatKey(showtime, id) && ks[i] in ks;
    }
  }

  lemma HoldUnderIsHoldOrNothing(s: Store, req: Request, id: BookingId, now: Time, victim: Option<HoldStatement>)
    ensures HoldUnder(s, req, id, now, victim).1.Ok? ==> HoldUnder(s, req, id, now, victim) == Hold(s, req, id, now)
    ensures HoldUnder(s, req, id, now, victim).1.Failed? ==> HoldUnder(s, req, id, now, victim).0 == s
  {
  }

  /** A victim whose error is wrapped is not retried: a confirm that would have
      succeeded, struck at the update of its seats, fails after one attempt, while
      one struck at its commit is repeated and succeeds. */
  method WrappedVictimIsNotRetried(price: Price)
    returns (wrapped: (Outcome<Booking>, nat), raw: (Outcome<Booking>, nat))
    ensures wrapped == (Failed(Internal), 1)
    ensures raw.0.Ok? && raw.1 == 2
  {
    hide Hold, Confirm, HoldReaches;
    var repo := new Repository({K}, map[K := price], map[1 := None]);
    var service := new Service(repo, null);
    HoldOneSeat(repo.Tables(), 1, 0);
    var booked := repo.HoldSeats(Request1(), 1, 0, None);
    ConfirmOneSeat(repo.Tables(), 1, 0);
    var calm := Try([], 0, None);
    var r, n := service.ConfirmBooking(1, [Try([], 0, Some(UpdateSoldSeats)), calm, calm]);
    wrapped := (r, n);
    r, n := service.ConfirmBooking(1, [Try([], 0, Some(CommitConfirm)), calm, calm]);
    raw := (r, n);
  }

  lemma CountOneMore(seats: map<SeatKey, Seat>, k: SeatKey, seat: Seat)
    requires k !in seats
    ensures forall st ::
              |SeatsWith(seats[k := seat], st)| == |SeatsWith(seats, st)| + if seat.status == st then 1 else 0
  {
    forall st
      ensures |SeatsWith(seats[k := seat], st)| == |SeatsWith(seats, st)| + if seat.status == st then 1 else 0
    {
      var a, b := SeatsWith(seats, st), SeatsWith(seats[k := seat], st);
      if seat.status == st {
        assert b == a + {k};
        AddOne(a, k);
      } else {
        assert b == a;
      }
    }
  }
}
