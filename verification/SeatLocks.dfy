/** The Redis seat locks: one key per seat, taken all or nothing, given back only
    by the owner token that took them. */
module SeatLocks {
  import opened BookingStore

  type Owner = int

  datatype Lease = Lease(owner: Owner, till: Time)

  type Keys = map<SeatKey, Lease>

  predicate Locked(keys: Keys, k: SeatKey, now: Time) {
    k in keys && now < keys[k].till
  }

  predicate LockedBy(keys: Keys, k: SeatKey, owner: Owner, now: Time) {
    Locked(keys, k, now) && keys[k].owner == owner
  }

  function SetKeys(keys: Keys, ks: seq<SeatKey>, lease: Lease): Keys {
    keys + map k | k in ks :: lease
  }

  lemma SetOneMore(keys: Keys, ks: seq<SeatKey>, k: SeatKey, lease: Lease)
    ensures SetKeys(keys, ks + [k], lease) == SetKeys(keys, ks, lease)[k := lease]
  {
    var a, b := SetKeys(keys, ks + [k], lease), SetKeys(keys, ks, lease)[k := lease];
    assert a.Keys == b.Keys;
    assert forall j :: j in a ==> a[j] == b[j];
  }

  lemma SetNone(keys: Keys, ks: seq<SeatKey>, lease: Lease)
    requires ks == []
    ensures SetKeys(keys, ks, lease) == keys
  {
  }

  /** The acquire script. */
  function AcquireKeys(keys: Keys, ks: seq<SeatKey>, owner: Owner, now: Time, lease: Time): (Keys, bool) {
    if exists k :: k in ks && Locked(keys, k, now) then (keys, false)
    else (SetKeys(keys, ks, Lease(owner, now + lease)), true)
  }

  /** The release script. */
  function ReleaseKeys(keys: Keys, ks: seq<SeatKey>, owner: Owner, now: Time): Keys {
    map k | k in keys && !(k in ks && LockedBy(keys, k, owner, now)) :: keys[k]
  }

  /** An unlock never takes away a key that carries another token, whatever has
      become of the caller's own lease, nor a key it was not asked for. */
  lemma ReleaseSparesOthers(keys: Keys, ks: seq<SeatKey>, owner: Owner, now: Time, k: SeatKey)
    ensures k in ReleaseKeys(keys, ks, owner, now) <==> k in keys && !(k in ks && LockedBy(keys, k, owner, now))
    ensures k in ReleaseKeys(keys, ks, owner, now) ==> ReleaseKeys(keys, ks, owner, now)[k] == keys[k]
    ensures k in keys && keys[k].owner != owner ==> k in ReleaseKeys(keys, ks, owner, now)
    ensures k in ks ==> !LockedBy(ReleaseKeys(keys, ks, owner, now), k, owner, now)
  {
  }

  /** Taking locks and giving them back leaves the live locks as they were. */
  lemma LockThenUnlock(keys: Keys, ks: seq<SeatKey>, owner: Owner, now: Time, lease: Time, later: Time, k: SeatKey)
    requires now <= later && forall j :: j in keys ==> keys[j].owner != owner
    ensures var (taken, ok) := AcquireKeys(keys, ks, owner, now, lease);
            var after := if ok then ReleaseKeys(taken, ks, owner, later) else taken;
            && (Locked(after, k, later) <==> Locked(keys, k, later))
            && (Locked(after, k, later) ==> after[k] == keys[k] && after[k].owner != owner)
  {
  }

  // ---------- runs ----------

  // What an owner was granted and has not given back yet.
  datatype Grant = Grant(seats: set<SeatKey>, till: Time)

  datatype System = System(keys: Keys, grants: map<Owner, Grant>)

  datatype Event =
    | Lock(owner: Owner, ks: seq<SeatKey>, now: Time)
    | Unlock(owner: Owner, ks: seq<SeatKey>, now: Time)

  function KeyStep(keys: Keys, e: Event, lease: Time): Keys {
    match e
    case Lock(owner, ks, now) => AcquireKeys(keys, ks, owner, now, lease).0
    case Unlock(owner, ks, now) => ReleaseKeys(keys, ks, owner, now)
  }

  function KeysRun(keys: Keys, es: seq<Event>, lease: Time): Keys
    decreases |es|
  {
    if es == [] then keys else KeysRun(KeyStep(keys, es[0], lease), es[1..], lease)
  }

  function Step(s: System, e: Event, lease: Time): System {
    System(KeyStep(s.keys, e, lease),
      match e
      case Lock(owner, ks, now) =>
        if AcquireKeys(s.keys, ks, owner, now, lease).1 then s.grants[owner := Grant((set k | k in ks), now + lease)]
        else s.grants
      case Unlock(owner, ks, now) =>
        if owner in s.grants
        then s.grants[owner := s.grants[owner].(seats := (set k | k in s.grants[owner].seats && k !in ks))]
        else s.grants)
  }

  function Run(s: System, es: seq<Event>, lease: Time): System
    decreases |es|
  {
    if es == [] then s else Run(Step(s, es[0], lease), es[1..], lease)
  }

  /** Time goes forward and every acquire uses a new token. */
  ghost predicate GoodRun(s: System, start: Time, es: seq<Event>, lease: Time)
    decreases |es|
  {
    es == [] ||
    (&& start <= es[0].now
     && (es[0].Lock? ==> es[0].owner !in s.grants)
     && GoodRun(Step(s, es[0], lease), es[0].now, es[1..], lease))
  }

  function EndTime(start: Time, es: seq<Event>): Time
    decreases |es|
  {
    if es == [] then start else EndTime(es[0].now, es[1..])
  }

  ghost predicate Holds(s: System, o: Owner, k: SeatKey, now: Time) {
    o in s.grants && now < s.grants[o].till && k in s.grants[o].seats
  }

  /** The live keys are exactly the unlapsed, unreturned grants. */
  ghost predicate Matching(s: System, now: Time) {
    && (forall o, k :: Holds(s, o, k, now) ==> k in s.keys && s.keys[k] == Lease(o, s.grants[o].till))
    && (forall k :: Locked(s.keys, k, now) ==>
         Holds(s, s.keys[k].owner, k, now) && s.keys[k].till == s.grants[s.keys[k].owner].till)
  }

  lemma MatchingLasts(s: System, now: Time, later: Time)
    requires Matching(s, now) && now <= later
    ensures Matching(s, later)
  {
    forall o, k | Holds(s, o, k, later) ensures k in s.keys && s.keys[k] == Lease(o, s.grants[o].till) {
      assert Holds(s, o, k, now);
    }
    forall k | Locked(s.keys, k, later)
      ensures Holds(s, s.keys[k].owner, k, later) && s.keys[k].till == s.grants[s.keys[k].owner].till
    {
      assert Locked(s.keys, k, now);
    }
  }

  lemma LockMatches(s: System, e: Event, lease: Time)
    requires e.Lock? && Matching(s, e.now) && e.owner !in s.grants
    ensures Matching(Step(s, e, lease), e.now)
  {
    var s1 := Step(s, e, lease);
    forall o, k | Holds(s1, o, k, e.now) ensures k in s1.keys && s1.keys[k] == Lease(o, s1.grants[o].till) {
      if o != e.owner { assert Holds(s, o, k, e.now); assert Locked(s.keys, k, e.now); }
    }
    forall k | Locked(s1.keys, k, e.now)
      ensures Holds(s1, s1.keys[k].owner, k, e.now) && s1.keys[k].till == s1.grants[s1.keys[k].owner].till
    {
      if s1 == s || k !in e.ks { assert Locked(s.keys, k, e.now); }
    }
  }

  lemma UnlockMatches(s: System, e: Event, lease: Time)
    requires e.Unlock? && Matching(s, e.now)
    ensures Matching(Step(s, e, lease), e.now)
  {
    var s1 := Step(s, e, lease);
    forall o, k | Holds(s1, o, k, e.now) ensures k in s1.keys && s1.keys[k] == Lease(o, s1.grants[o].till) {
      assert Holds(s, o, k, e.now);
      ReleaseSparesOthers(s.keys, e.ks, e.owner, e.now, k);
    }
    forall k | Locked(s1.keys, k, e.now)
      ensures Holds(s1, s1.keys[k].owner, k, e.now) && s1.keys[k].till == s1.grants[s1.keys[k].owner].till
    {
      ReleaseSparesOthers(s.keys, e.ks, e.owner, e.now, k);
      assert Locked(s.keys, k, e.now);
    }
  }

  lemma {:induction false} RunMatches(s: System, start: Time, es: seq<Event>, lease: Time)
    requires Matching(s, start) && GoodRun(s, start, es, lease)
    ensures Matching(Run(s, es, lease), EndTime(start, es))
    decreases |es|
  {
    hide Matching, Step;
    if es != [] {
      MatchingLasts(s, start, es[0].now);
      if es[0].Lock? { LockMatches(s, es[0], lease); } else { UnlockMatches(s, es[0], lease); }
      RunMatches(Step(s, es[0], lease), es[0].now, es[1..], lease);
    }
  }

  /** However acquires, releases and lapses interleave, the grants still in force
      at a later instant cover pairwise disjoint seats, and the live keys are
      exactly those grants. */
  lemma GrantsAreDisjoint(start: Time, es: seq<Event>, lease: Time, now: Time, o1: Owner, o2: Owner, k: SeatKey)
    requires GoodRun(System(map[], map[]), start, es, lease) && EndTime(start, es) <= now
    ensures var s := Run(System(map[], map[]), es, lease);
            && (Holds(s, o1, k, now) && Holds(s, o2, k, now) ==> o1 == o2)
            && (LockedBy(s.keys, k, o1, now) <==> Holds(s, o1, k, now))
  {
    hide Run, GoodRun;
    RunMatches(System(map[], map[]), start, es, lease);
    MatchingLasts(Run(System(map[], map[]), es, lease), EndTime(start, es), now);
  }

  // ---------- one owner among others ----------

  /** The token of `owner` appears on none but the given keys. */
  ghost predicate TokenOnly(keys: Keys, owner: Owner, ks: seq<SeatKey>) {
    forall k :: k in keys && keys[k].owner == owner ==> k in ks
  }

  lemma {:induction false} OthersSpareToken(keys: Keys, owner: Owner, ks: seq<SeatKey>, es: seq<Event>, lease: Time)
    requires TokenOnly(keys, owner, ks) && forall i :: 0 <= i < |es| ==> es[i].owner != owner
    ensures TokenOnly(KeysRun(keys, es, lease), owner, ks)
    decreases |es|
  {
    if es != [] {
      var keys1 := KeyStep(keys, es[0], lease);
      assert TokenOnly(keys1, owner, ks) by { OtherSparesToken(keys, owner, ks, es[0], lease); }
      OthersSpareToken(keys1, owner, ks, es[1..], lease);
    }
  }

  lemma OtherSparesToken(keys: Keys, owner: Owner, ks: seq<SeatKey>, e: Event, lease: Time)
    requires TokenOnly(keys, owner, ks) && e.owner != owner
    ensures TokenOnly(KeyStep(keys, e, lease), owner, ks)
  {
  }

  /** Whatever others lock, unlock or let lapse in between, after its unlock an
      owner's token is on no live key. */
  lemma UnlockClearsToken(
      keys: Keys, ks: seq<SeatKey>, owner: Owner, now: Time, lease: Time, others: seq<Event>, later: Time, k: SeatKey)
    requires forall j :: j in keys ==> keys[j].owner != owner
    requires forall i :: 0 <= i < |others| ==> others[i].owner != owner
    ensures var (taken, ok) := AcquireKeys(keys, ks, owner, now, lease);
            ok ==> !LockedBy(ReleaseKeys(KeysRun(taken, others, lease), ks, owner, later), k, owner, later)
  {
    hide KeysRun;
    var (taken, ok) := AcquireKeys(keys, ks, owner, now, lease);
    if ok {
      assert TokenOnly(taken, owner, ks);
      OthersSpareToken(taken, owner, ks, others, lease);
      ReleaseSparesOthers(KeysRun(taken, others, lease), ks, owner, later, k);
    }
  }

  // ---------- the locker ----------

  const DEFAULT_TTL: Time := 5_000_000
  const MILLISECOND: Time := 1_000

  function SeatKeys(showtime: int, seatIds: seq<int>): seq<SeatKey> {
    seq(|seatIds|, i requires 0 <= i < |seatIds| => SeatKey(showtime, seatIds[i]))
  }

  lemma InSeatKeys(showtime: int, seatIds: seq<int>)
    ensures forall k :: k in SeatKeys(showtime, seatIds) <==> k.showtime == showtime && k.seat in seatIds
  {
    var ks := SeatKeys(showtime, seatIds);
    forall k: SeatKey | k.showtime == showtime && k.seat in seatIds ensures k in ks {
      var i :| 0 <= i < |seatIds| && seatIds[i] == k.seat;
      assert ks[i] == k;
    }
  }

  class SeatLocker {
    var keys: Keys
    const ttl: Time

    constructor (ttl: Time)
      ensures this.ttl == (if ttl <= 0 then 5_000_000 else ttl) && keys == map[]
    {
      this.ttl := if ttl <= 0 then DEFAULT_TTL else ttl;
      keys := map[];
    }

    /** PX takes whole milliseconds. */
    function LeaseTime(): (lease: Time)
      ensures lease == ttl - ttl % 1_000
    {
      ttl / MILLISECOND * MILLISECOND
    }

    method LockSeats(showtime: int, seatIds: seq<int>, owner: Owner, now: Time) returns (ok: bool)
      modifies this
      ensures (keys, ok) == AcquireKeys(old(keys), SeatKeys(showtime, seatIds), owner, now, LeaseTime())
      ensures !ok ==> keys == old(keys)
      ensures ok <==> forall id :: id in seatIds ==>
                var k := SeatKey(showtime, id); k in old(keys) ==> old(keys)[k].till <= now
      ensures ok ==> forall id :: id in seatIds ==>
                var k := SeatKey(showtime, id);
                k in keys && keys[k].owner == owner && keys[k].till == now + ttl - ttl % 1_000
      ensures forall k: SeatKey :: k.showtime != showtime || k.seat !in seatIds ==>
                (k in keys <==> k in old(keys)) && (k in keys ==> keys[k] == old(keys)[k])
    {
      var ks := SeatKeys(showtime, seatIds);
      InSeatKeys(showtime, seatIds);
      for i := 0 to |ks|
        invariant keys == old(keys)
        invariant forall j :: 0 <= j < i ==> !Locked(keys, ks[j], now)
      {
        if Locked(keys, ks[i], now) {
          assert ks[i] in ks;
          return false;
        }
      }
      SetKeysLoop(ks, Lease(owner, now + LeaseTime()));
      return true;
    }

    method SetKeysLoop(ks: seq<SeatKey>, lease: Lease)
      modifies this
      ensures keys == SetKeys(old(keys), ks, lease)
    {
      hide SetKeys;
      assert keys == SetKeys(keys, ks[..0], lease) by { SetNone(keys, ks[..0], lease); }
      for i := 0 to |ks|
        invariant keys == SetKeys(old(keys), ks[..i], lease)
      {
        SetOneMore(old(keys), ks[..i], ks[i], lease);
        assert ks[..i + 1] == ks[..i] + [ks[i]];
        keys := keys[ks[i] := lease];
      }
      assert ks[..|ks|] == ks;
    }

    /** Other requests at work on the same keys. */
    method OtherRequests(es: seq<Event>)
      modifies this
      ensures keys == KeysRun(old(keys), es, LeaseTime())
    {
      keys := KeysRun(keys, es, LeaseTime());
    }

    method UnlockSeats(showtime: int, seatIds: seq<int>, owner: Owner, now: Time)
      modifies this
      ensures keys == ReleaseKeys(old(keys), SeatKeys(showtime, seatIds), owner, now)
      ensures forall k :: k in keys <==>
                k in old(keys) && !(k.showtime == showtime && k.seat in seatIds
                                    && old(keys)[k].owner == owner && now < old(keys)[k].till)
      ensures forall k :: k in keys ==> keys[k] == old(keys)[k]
    {
      var ks := SeatKeys(showtime, seatIds);
      InSeatKeys(showtime, seatIds);
      assert keys == ReleaseKeys(keys, ks[..0], owner, now);
      for i := 0 to |ks|
        invariant keys == ReleaseKeys(old(keys), ks[..i], owner, now)
      {
        assert ks[..i + 1] == ks[..i] + [ks[i]];
        if LockedBy(keys, ks[i], owner, now) {
          keys := keys - {ks[i]};
        }
        assert keys == ReleaseKeys(old(keys), ks[..i + 1], owner, now);
      }
      assert ks[..|ks|] == ks;
    }
  }
  /** Whatever others lock and unlock until then, a lease stays what it is to its end. */
  lemma {:induction false} LeaseStays(keys: Keys, k: SeatKey, es: seq<Event>, lease: Time)
    requires k in keys
    requires forall i :: 0 <= i < |es| ==> es[i].owner != keys[k].owner && es[i].now < keys[k].till
    ensures k in KeysRun(keys, es, lease) && KeysRun(keys, es, lease)[k] == keys[k]
    decreases |es|
  {
    if es != [] {
      var keys1 := KeyStep(keys, es[0], lease);
      assert k in keys1 && keys1[k] == keys[k];
      LeaseStays(keys1, k, es[1..], lease);
    }
  }

  /** Two requests after one another, others in between, the first owner not unlocking:
      while the lease of the first lasts, ttl in whole milliseconds, the second is
      refused if they share a seat. */
  method SecondLockerWaits(
      ttl: Time, showtime: int, ids1: seq<int>, owner1: Owner, time1: Time,
      others: seq<Event>, ids2: seq<int>, owner2: Owner, time2: Time)
    returns (first: bool, second: bool)
    requires 0 < ttl && forall i :: 0 <= i < |others| ==> others[i].owner != owner1 && others[i].now <= time2
    ensures first
    ensures (exists id :: id in ids1 && id in ids2) && time2 < time1 + ttl - ttl % 1_000 ==> !second
    ensures others == [] ==>
              (second <==> (forall id :: id in ids1 ==> id !in ids2) || time1 + ttl - ttl % 1_000 <= time2)
  {
    var locker := new SeatLocker(ttl);
    first := locker.LockSeats(showtime, ids1, owner1, time1);
    ghost var taken := locker.keys;
    locker.OtherRequests(others);
    ghost var left := locker.keys;
    forall id | id in ids1 && time2 < time1 + ttl - ttl % 1_000
      ensures SeatKey(showtime, id) in left && left[SeatKey(showtime, id)] == taken[SeatKey(showtime, id)]
    {
      LeaseStays(taken, SeatKey(showtime, id), others, locker.LeaseTime());
    }
    second := locker.LockSeats(showtime, ids2, owner2, time2);
  }
}
