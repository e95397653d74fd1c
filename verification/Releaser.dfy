/** The background releaser cannot be observed: a run with releases and the same
    run without them answer every other request alike. */
module Releaser {
  import opened BookingStore
  import opened StoreInvariants
  import opened OneSeat

  /** `r` has been released more often than `l`: some lapsed holds of `l` are
      EXPIRED in `r`, and the seats agree once lapsed holds are discounted. */
  ghost predicate Related(l: Store, r: Store, now: Time) {
    && l.prices == r.prices
    && l.seats.Keys == r.seats.Keys
    && (forall k :: k in l.seats ==> Shown(l.seats[k], now) == Shown(r.seats[k], now))
    && l.bookings.Keys == r.bookings.Keys
    && (forall id :: id in l.bookings ==> BookingRelated(l.bookings[id], r.bookings[id], now))
  }

  ghost predicate BookingRelated(b: Booking, c: Booking, now: Time) {
    c == b || (LapsedHold(b, now) && c == b.(status := Expired))
  }

  lemma RelatedLasts(l: Store, r: Store, now: Time, later: Time)
    requires Related(l, r, now) && now <= later
    ensures Related(l, r, later)
  {
    forall k | k in l.seats ensures Shown(l.seats[k], later) == Shown(r.seats[k], later) {
      assert Shown(l.seats[k], now) == Shown(r.seats[k], now);
    }
    forall id | id in l.bookings ensures BookingRelated(l.bookings[id], r.bookings[id], later) {
      assert BookingRelated(l.bookings[id], r.bookings[id], now);
    }
  }

  lemma ReleaseRelated(l: Store, r: Store, now: Time)
    requires Related(l, r, now) && Linked(r)
    ensures Related(l, Release(r, now).0, now)
  {
    var r1 := Release(r, now).0;
    ReleaseIsShown(r, now);
    forall k | k in l.seats ensures Shown(l.seats[k], now) == Shown(r1.seats[k], now) {
      assert r1.seats[k] == ShownTable(r.seats, now)[k];
    }
    forall id | id in l.bookings ensures BookingRelated(l.bookings[id], r1.bookings[id], now) {
      assert BookingRelated(l.bookings[id], r.bookings[id], now);
      InLapsedHolds(r, id, now);
    }
  }

  lemma SameClaims(l: Store, r: Store, req: Request, now: Time)
    requires Related(l, r, now)
    ensures Rows(l, req) == Rows(r, req) && Claimed(l, req, now) == Claimed(r, req, now)
  {
    assert Rows(l, req) == Rows(r, req);
    forall k | k in Rows(l, req) ensures Claimable(l.seats[k], now) == Claimable(r.seats[k], now) {
      assert Shown(l.seats[k], now) == Shown(r.seats[k], now);
    }
  }

  lemma HoldRelated(l: Store, r: Store, req: Request, id: BookingId, now: Time)
    requires Related(l, r, now)
    ensures Hold(l, req, id, now).1 == Hold(r, req, id, now).1
    ensures Related(Hold(l, req, id, now).0, Hold(r, req, id, now).0, now)
  {
    hide Claimed, Rows;
    SameClaims(l, r, req, now);
  }

  lemma ConfirmRelated(l: Store, r: Store, id: BookingId, now: Time)
    requires Related(l, r, now) && Owned(l, now)
    ensures Confirm(l, id, now).1 == Confirm(r, id, now).1
    ensures Related(Confirm(l, id, now).0, Confirm(r, id, now).0, now)
  {
    if id in l.bookings {
      assert BookingRelated(l.bookings[id], r.bookings[id], now);
      if Confirm(l, id, now).1.Ok? {
        var l1, r1 := Confirm(l, id, now).0, Confirm(r, id, now).0;
        forall k | k in l.seats ensures Shown(l1.seats[k], now) == Shown(r1.seats[k], now) {
          assert Shown(l.seats[k], now) == Shown(r.seats[k], now);
          if k in l.bookings[id].items { assert Owns(l, id, k) && SeatLinked(l, k); }
        }
        forall i | i in l1.bookings ensures BookingRelated(l1.bookings[i], r1.bookings[i], now) {
          assert BookingRelated(l.bookings[i], r.bookings[i], now);
        }
      }
    }
  }

  lemma CancelRelated(l: Store, r: Store, id: BookingId, now: Time)
    requires Related(l, r, now) && CancelTimely(l, id, now)
    ensures Cancel(l, id).1 == Cancel(r, id).1
    ensures Related(Cancel(l, id).0, Cancel(r, id).0, now)
  {
    if id in l.bookings {
      assert BookingRelated(l.bookings[id], r.bookings[id], now);
      var l1, r1 := Cancel(l, id).0, Cancel(r, id).0;
      forall i | i in l1.bookings ensures BookingRelated(l1.bookings[i], r1.bookings[i], now) {
        assert BookingRelated(l.bookings[i], r.bookings[i], now);
      }
    }
  }

  lemma ViewRelated(l: Store, r: Store, showtime: int, now: Time)
    requires Related(l, r, now)
    ensures View(l, showtime, now) == View(r, showtime, now)
  {
    var v, w := View(l, showtime, now), View(r, showtime, now);
    assert v.Keys == w.Keys;
    assert forall k :: k in v ==> v[k] == w[k];
  }

  lemma StepRelated(l: Store, r: Store, e: Event)
    requires Related(l, r, e.now) && Owned(l, e.now) && !e.action.DoRelease?
    requires e.action.DoCancel? ==> CancelTimely(l, e.action.booking, e.now)
    ensures Step(l, e).1 == Step(r, e).1
    ensures Related(Step(l, e).0, Step(r, e).0, e.now)
  {
    hide Related, Owned, Hold, Confirm, Cancel, View, CancelTimely;
    match e.action
    case DoHold(req, id) => HoldRelated(l, r, req, id, e.now);
    case DoConfirm(id) => ConfirmRelated(l, r, id, e.now);
    case DoCancel(id) => CancelRelated(l, r, id, e.now);
    case DoView(showtime) => ViewRelated(l, r, showtime, e.now);
  }

  /** A run without its releases. */
  function Strip(es: seq<Event>): seq<Event> {
    if es == [] then []
    else if es[0].action.DoRelease? then Strip(es[1..])
    else [es[0]] + Strip(es[1..])
  }

  /** The answers of everything but the releases. */
  function Observations(s: Store, es: seq<Event>): seq<Answer>
    decreases |es|
  {
    if es == [] then []
    else
      var (s1, a) := Step(s, es[0]);
      (if es[0].action.DoRelease? then [] else [a]) + Observations(s1, es[1..])
  }

  /** `fs` is `es` with releases inserted; `es` may have releases of its own. */
  ghost predicate Inserted(es: seq<Event>, fs: seq<Event>)
    decreases |fs|
  {
    if fs == [] then es == []
    else
      || (es != [] && es[0] == fs[0] && Inserted(es[1..], fs[1..]))
      || (fs[0].action.DoRelease? && Inserted(es, fs[1..]))
  }

  lemma ReleaseBothRelated(l: Store, r: Store, now: Time)
    requires Related(l, r, now) && Linked(l) && Linked(r)
    ensures Related(Release(l, now).0, Release(r, now).0, now)
  {
    var l1, r1 := Release(l, now).0, Release(r, now).0;
    ReleaseIsShown(l, now);
    ReleaseIsShown(r, now);
    forall k | k in l.seats ensures Shown(l1.seats[k], now) == Shown(r1.seats[k], now) {
      assert l1.seats[k] == ShownTable(l.seats, now)[k] && r1.seats[k] == ShownTable(r.seats, now)[k];
    }
    forall id | id in l.bookings ensures BookingRelated(l1.bookings[id], r1.bookings[id], now) {
      assert BookingRelated(l.bookings[id], r.bookings[id], now);
      InLapsedHolds(l, id, now);
      InLapsedHolds(r, id, now);
    }
  }

  lemma OwnedIsLinked(s: Store, now: Time)
    requires Owned(s, now)
    ensures Linked(s)
  {
  }

  /** One request made on both sides. */
  lemma SameStepRelated(l: Store, r: Store, e: Event)
    requires Related(l, r, e.now) && Owned(l, e.now) && Linked(r)
    requires e.action.DoCancel? ==> CancelTimely(l, e.action.booking, e.now)
    ensures e.action.DoRelease? || Step(l, e).1 == Step(r, e).1
    ensures Related(Step(l, e).0, Step(r, e).0, e.now)
    ensures Owned(Step(l, e).0, e.now) && Linked(Step(r, e).0)
  {
    hide Related, Owned, Linked, Step, CancelTimely, CancelSafe;
    StepLinked(r, e);
    if e.action.DoCancel? { TimelyIsSafe(l, e.action.booking, e.now); }
    StepOwned(l, e);
    if e.action.DoRelease? {
      StepIsRelease(l, e);
      StepIsRelease(r, e);
      OwnedIsLinked(l, e.now);
      ReleaseBothRelated(l, r, e.now);
    } else {
      StepRelated(l, r, e);
    }
  }

  lemma {:induction false} RunsRelated(l: Store, r: Store, start: Time, es: seq<Event>, fs: seq<Event>)
    requires Related(l, r, start) && Owned(l, start) && Linked(r)
    requires Timed(start, fs) && Inserted(es, fs) && TimelyCancels(l, es)
    ensures Observations(l, es) == Observations(r, fs)
    ensures Related(Run(l, es), Run(r, fs), EndTime(start, fs))
    decreases |fs|
  {
    hide Related, Owned, Linked, Step, CancelTimely;
    if fs != [] {
      var e := fs[0];
      RelatedLasts(l, r, start, e.now);
      OwnedLasts(l, start, e.now);
      if es != [] && es[0] == e && Inserted(es[1..], fs[1..]) {
        SameStepRelated(l, r, e);
        RunsRelated(Step(l, e).0, Step(r, e).0, e.now, es[1..], fs[1..]);
      } else {
        StepLinked(r, e);
        StepIsRelease(r, e);
        ReleaseRelated(l, r, e.now);
        RunsRelated(l, Step(r, e).0, e.now, es, fs[1..]);
      }
    }
  }

  lemma StepIsRelease(s: Store, e: Event)
    requires e.action.DoRelease?
    ensures Step(s, e).0 == Release(s, e.now).0
  {
  }

  /** Releases inserted anywhere into a run with timely cancels, which may have
      releases of its own, change no answer of any hold, confirm, cancel or seat
      table. */
  lemma InsertedReleasesUnobservable(s: Store, start: Time, es: seq<Event>, fs: seq<Event>)
    requires Fresh(s) && Timed(start, fs) && Inserted(es, fs) && TimelyCancels(s, es)
    ensures Observations(s, es) == Observations(s, fs)
  {
    hide Observations, Inserted, Timed, TimelyCancels;
    assert Owned(s, start) && Related(s, s, start);
    RunsRelated(s, s, start, es, fs);
  }

  lemma {:induction false} StripInserted(es: seq<Event>)
    ensures Inserted(Strip(es), es)
  {
    if es != [] {
      StripInserted(es[1..]);
      if !es[0].action.DoRelease? {
        assert Strip(es)[0] == es[0] && Strip(es)[1..] == Strip(es[1..]);
      }
    }
  }

  /** Two runs that differ only in where they release answer alike, if the cancels
      are timely without any release: dropping a release is the same as not having
      inserted it, so it is the run without it whose cancels have to be timely. */
  lemma ReleaserUnobservable(s: Store, start: Time, es: seq<Event>, fs: seq<Event>)
    requires Fresh(s) && Timed(start, es) && Timed(start, fs)
    requires Strip(es) == Strip(fs) && TimelyCancels(s, Strip(es))
    ensures Observations(s, es) == Observations(s, fs)
  {
    hide Observations, Strip, Inserted, Timed, TimelyCancels;
    StripInserted(es);
    StripInserted(fs);
    InsertedReleasesUnobservable(s, start, Strip(es), es);
    InsertedReleasesUnobservable(s, start, Strip(es), fs);
  }

  /** Timeliness is exactly what it takes: a cancel right after a release answers
      as it would have before iff it is timely. */
  lemma ReleaseSeenByLateCancelOnly(s: Store, id: BookingId, now: Time)
    ensures Cancel(s, id).1 == Cancel(Release(s, now).0, id).1 <==> CancelTimely(s, id, now)
  {
    InLapsedHolds(s, id, now);
  }

  /** Timely cancels of the longer run are not enough for dropping: a hold, its
      release once lapsed, and its cancel.  Without the release the cancel succeeds. */
  lemma DroppingCanShow(price: Price)
    ensures var s0 := Store(map[K := FREE], map[], map[K := price]);
            var es := [Event(DoHold(Request1(), 1), 0), Event(DoRelease, LATE), Event(DoCancel(1), LATE)];
            && Fresh(s0) && Timed(0, es) && TimelyCancels(s0, es) && !TimelyCancels(s0, Strip(es))
            && Observations(s0, es) != Observations(s0, Strip(es))
  {
    hide Hold, Cancel, Release, Observations, Timed, TimelyCancels, Strip, Step, CancelTimely;
    var s0 := Store(map[K := FREE], map[], map[K := price]);
    var hold, release, cancel := Event(DoHold(Request1(), 1), 0), Event(DoRelease, LATE), Event(DoCancel(1), LATE);
    var none: seq<Event> := [];
    var late, long, short := [cancel] + none, [release] + ([cancel] + none), [hold] + ([cancel] + none);
    var es := [hold] + long;
    assert es == [hold, release, cancel];
    var s1 := Step(s0, hold).0;
    var s2 := Step(s1, release).0;
    HoldLapses(s0, hold, release, cancel);
    TimedCons(0, hold, long);
    TimedCons(0, release, late);
    TimedCons(LATE, cancel, none);
    TimelyCons(s0, hold, long);
    TimelyCons(s1, release, late);
    TimelyCons(s2, cancel, none);
    TimelyCons(s0, hold, late);
    TimelyCons(s1, cancel, none);
    StripCons(hold, long);
    StripCons(release, late);
    StripCons(cancel, none);
    ObserveCons(s0, hold, long);
    ObserveCons(s1, release, late);
    ObserveCons(s2, cancel, none);
    ObserveCons(s0, hold, late);
    ObserveCons(s1, cancel, none);
    var a, b, c := Step(s0, hold).1, Step(s2, cancel).1, Step(s1, cancel).1;
    assert Observations(s0, es) == [a, b] && Observations(s0, short) == [a, c];
    assert [a, b][1] != [a, c][1];
  }

  lemma HoldLapses(s: Store, hold: Event, release: Event, cancel: Event)
    requires s.seats.Keys == {K} && s.seats[K] == FREE && s.bookings == map[] && K in s.prices
    requires hold == Event(DoHold(Request1(), 1), 0)
    requires release == Event(DoRelease, LATE) && cancel == Event(DoCancel(1), LATE)
    ensures var s1 := Step(s, hold).0; var s2 := Step(s1, release).0;
            CancelTimely(s2, 1, LATE) && !CancelTimely(s1, 1, LATE) && Step(s2, cancel).1 != Step(s1, cancel).1
  {
    hide Hold, Cancel, Release;
    HoldOneSeat(s, 1, 0);
    var s1 := Step(s, hold).0;
    ReleaseSeenByLateCancelOnly(s1, 1, LATE);
    ReleaseKeepsBooking(s1, 1, LATE);
  }

  lemma ReleaseKeepsBooking(s: Store, id: BookingId, now: Time)
    requires id in s.bookings && LapsedHold(s.bookings[id], now)
    ensures id in Release(s, now).0.bookings && CancelTimely(Release(s, now).0, id, now)
  {
    InLapsedHolds(s, id, now);
  }

  // ---------- runs, one event at a time ----------

  lemma TimedCons(start: Time, e: Event, es: seq<Event>)
    ensures Timed(start, [e] + es) <==> start <= e.now && Timed(e.now, es)
    ensures Timed(e.now, [])
  {
    assert ([e] + es)[1..] == es;
  }

  lemma TimelyCons(s: Store, e: Event, es: seq<Event>)
    ensures TimelyCancels(s, [e] + es) <==>
            (e.action.DoCancel? ==> CancelTimely(s, e.action.booking, e.now)) && TimelyCancels(Step(s, e).0, es)
    ensures TimelyCancels(Step(s, e).0, [])
  {
    hide Step, CancelTimely;
    assert ([e] + es)[1..] == es;
  }

  lemma StripCons(e: Event, es: seq<Event>)
    ensures Strip([e] + es) == if e.action.DoRelease? then Strip(es) else [e] + Strip(es)
    ensures Strip([]) == []
  {
    assert ([e] + es)[1..] == es;
  }

  lemma ObserveCons(s: Store, e: Event, es: seq<Event>)
    ensures Observations(s, [e] + es) ==
            (if e.action.DoRelease? then [] else [Step(s, e).1]) + Observations(Step(s, e).0, es)
    ensures Observations(Step(s, e).0, []) == []
  {
    hide Step;
    assert ([e] + es)[1..] == es;
  }
}
