/** The operations of src/addrman.cpp on the state value. */
module AddrOps {
  import opened AddrState
  import opened OrderedSet
  import opened Services

  /** The sentinel -1 that stands for no entry. */
  const NONE := Id(-1)

  ghost predicate Known(s: State, a: NetAddr) { a in s.mapAddr && s.mapAddr[a] in s.mapInfo }

  /** `Find` followed by the exact comparison of the service, port included. */
  ghost predicate Matches(s: State, svc: Service) {
    Known(s, svc.net) && s.mapInfo[s.mapAddr[svc.net]].addr.service == svc
  }

  ghost function Update(s: State, id: Id, info: Info): State { s.(mapInfo := s.mapInfo[id := info]) }

  ghost predicate AllIn(q: seq<Id>, m: map<Id, Info>) { forall k :: 0 <= k < |q| ==> q[k] in m }

  // ---- ShrinkNew

  ghost function FirstTerrible(m: map<Id, Info>, ids: seq<Id>, now: int): Id
    requires AllIn(ids, m)
  {
    if ids == [] then NONE
    else if IsTerrible(m[ids[0]], now) then ids[0]
    else FirstTerrible(m, ids[1..], now)
  }

  function Picks(n: nat, rnd: Draws): seq<nat> {
    [RandInt(rnd(1), n), RandInt(rnd(2), n), RandInt(rnd(3), n), RandInt(rnd(4), n)]
  }

  ghost function OldestFrom(m: map<Id, Info>, ids: seq<Id>, i: nat, picks: seq<nat>, best: Id): Id
    requires i <= |ids| && AllIn(ids, m) && (best == NONE || best in m)
    decreases |ids| - i
  {
    if i == |ids| then best
    else OldestFrom(m, ids, i + 1, picks,
                    if i in picks && (best == NONE || m[ids[i]].addr.time < m[best].addr.time) then ids[i] else best)
  }

  /** The bucket entry that ShrinkNew gives up. */
  ghost function Victim(s: State, b: int, now: int, rnd: Draws): Id
    requires 0 <= b < |s.vvNew| && forall id :: id in s.vvNew[b] ==> id in s.mapInfo
  {
    var ids := Sorted(s.vvNew[b]);
    var t := FirstTerrible(s.mapInfo, ids, now);
    if t != NONE then t else OldestFrom(s.mapInfo, ids, 0, Picks(|ids|, rnd), NONE)
  }

  ghost predicate CanShrink(s: State, b: int) {
    && RandOk(s) && MapOk(s)
    && 0 <= b < |s.vvNew| && s.vvNew[b] != {}
    && forall id :: id in s.vvNew[b] ==> id in s.mapInfo
  }

  ghost predicate FirstAt(m: map<Id, Info>, ids: seq<Id>, now: int, k: nat)
    requires AllIn(ids, m)
  {
    k < |ids| && IsTerrible(m[ids[k]], now) && forall j :: 0 <= j < k ==> !IsTerrible(m[ids[j]], now)
  }

  lemma {:induction false} FirstTerribleChoice(m: map<Id, Info>, ids: seq<Id>, now: int) returns (k: nat)
    requires AllIn(ids, m) && (forall k :: 0 <= k < |ids| ==> ids[k].n >= 0)
    ensures if FirstTerrible(m, ids, now) == NONE
            then forall j :: 0 <= j < |ids| ==> !IsTerrible(m[ids[j]], now)
            else FirstAt(m, ids, now, k) && ids[k] == FirstTerrible(m, ids, now)
  {
    k := 0;
    if ids != [] && !IsTerrible(m[ids[0]], now) {
      var j := FirstTerribleChoice(m, ids[1..], now);
      k := j + 1;
    }
  }

  /** `best` is an oldest entry among the picked positions below `i`, or -1 if there is none. */
  ghost predicate BestBelow(m: map<Id, Info>, ids: seq<Id>, i: nat, picks: seq<nat>, best: Id)
    requires i <= |ids| && AllIn(ids, m)
  {
    if best == NONE then forall k :: 0 <= k < i ==> k !in picks
    else
      && (exists k :: 0 <= k < i && k in picks && ids[k] == best)
      && (forall k :: 0 <= k < i && k in picks ==> m[best].addr.time <= m[ids[k]].addr.time)
  }

  lemma {:induction false} OldestFromChoice(m: map<Id, Info>, ids: seq<Id>, i: nat, picks: seq<nat>, best: Id)
    requires i <= |ids| && AllIn(ids, m) && (forall k :: 0 <= k < |ids| ==> ids[k].n >= 0)
    requires BestBelow(m, ids, i, picks, best)
    ensures best == NONE || best in m
    ensures BestBelow(m, ids, |ids|, picks, OldestFrom(m, ids, i, picks, best))
    decreases |ids| - i
  {
    if i < |ids| {
      var next := if i in picks && (best == NONE || m[ids[i]].addr.time < m[best].addr.time) then ids[i] else best;
      assert BestBelow(m, ids, i + 1, picks, next);
      OldestFromChoice(m, ids, i + 1, picks, next);
    }
  }

  ghost predicate TerribleVictim(s: State, b: int, now: int, v: Id)
    requires 0 <= b < |s.vvNew| && forall id :: id in s.vvNew[b] ==> id in s.mapInfo
  {
    && v in s.vvNew[b] && IsTerrible(s.mapInfo[v], now)
    && forall id :: id in s.vvNew[b] && IsTerrible(s.mapInfo[id], now) ==> v.n <= id.n
  }

  ghost predicate OldestVictim(s: State, b: int, picks: seq<nat>, v: Id)
    requires 0 <= b < |s.vvNew| && forall id :: id in s.vvNew[b] ==> id in s.mapInfo
  {
    var ids := Sorted(s.vvNew[b]);
    && v in s.vvNew[b]
    && (exists k :: 0 <= k < |ids| && k in picks && ids[k] == v)
    && (forall k :: 0 <= k < |ids| && k in picks ==>
          ids[k] in s.vvNew[b] && s.mapInfo[v].addr.time <= s.mapInfo[ids[k]].addr.time)
  }

  /** The entry given up is the lowest-numbered terrible one if any entry is terrible;
      otherwise it is picked, and no picked entry was seen longer ago. */
  lemma VictimChoice(s: State, b: int, now: int, rnd: Draws)
    requires CanShrink(s, b)
    ensures if exists id :: id in s.vvNew[b] && IsTerrible(s.mapInfo[id], now)
            then TerribleVictim(s, b, now, Victim(s, b, now, rnd))
            else OldestVictim(s, b, Picks(|s.vvNew[b]|, rnd), Victim(s, b, now, rnd))
  {
    var m, ids := s.mapInfo, Sorted(s.vvNew[b]);
    if id :| id in s.vvNew[b] && IsTerrible(s.mapInfo[id], now) {
      TerribleCase(s, b, now, rnd, id);
    } else {
      OldestCase(s, b, now, rnd);
    }
  }

  lemma TerribleCase(s: State, b: int, now: int, rnd: Draws, id: Id)
    requires CanShrink(s, b) && id in s.vvNew[b] && IsTerrible(s.mapInfo[id], now)
    ensures TerribleVictim(s, b, now, Victim(s, b, now, rnd))
  {
    var m, ids := s.mapInfo, Sorted(s.vvNew[b]);
    var k := FirstTerribleChoice(m, ids, now);
    assert id in ids;
    var i :| 0 <= i < |ids| && ids[i] == id;
    assert FirstAt(m, ids, now, k);
    FirstIsLowest(s, b, now, k);
  }

  lemma FirstIsLowest(s: State, b: int, now: int, k: nat)
    requires CanShrink(s, b) && FirstAt(s.mapInfo, Sorted(s.vvNew[b]), now, k)
    ensures TerribleVictim(s, b, now, Sorted(s.vvNew[b])[k])
  {
    hide IsTerrible, Sorted, MapOk, RandOk;
    var ids := Sorted(s.vvNew[b]);
    assert ids[k] in s.vvNew[b];
    forall x | x in s.vvNew[b] && IsTerrible(s.mapInfo[x], now) ensures ids[k].n <= x.n {
      assert x in ids;
      var j :| 0 <= j < |ids| && ids[j] == x;
      assert k <= j;
    }
  }

  lemma OldestCase(s: State, b: int, now: int, rnd: Draws)
    requires CanShrink(s, b) && forall id :: id in s.vvNew[b] ==> !IsTerrible(s.mapInfo[id], now)
    ensures OldestVictim(s, b, Picks(|s.vvNew[b]|, rnd), Victim(s, b, now, rnd))
  {
    hide FirstTerrible, OldestFrom, IsTerrible, Picks, RandOk, Sorted;
    var m, ids := s.mapInfo, Sorted(s.vvNew[b]);
    var picks := Picks(|ids|, rnd);
    PicksInside(|ids|, rnd);
    TerribleNone(m, ids, now);
    var v := Victim(s, b, now, rnd);
    OldestFromChoice(m, ids, 0, picks, NONE);
    BestIsPicked(m, ids, picks, v);
  }

  lemma TerribleNone(m: map<Id, Info>, ids: seq<Id>, now: int)
    requires AllIn(ids, m) && forall k :: 0 <= k < |ids| ==> ids[k].n >= 0 && !IsTerrible(m[ids[k]], now)
    ensures FirstTerrible(m, ids, now) == NONE
  {
    hide FirstTerrible, IsTerrible;
    var k := FirstTerribleChoice(m, ids, now);
  }

  lemma PicksInside(n: nat, rnd: Draws)
    requires n > 0
    ensures Picks(n, rnd) != [] && Picks(n, rnd)[0] < n
  {
  }

  lemma BestIsPicked(m: map<Id, Info>, ids: seq<Id>, picks: seq<nat>, v: Id)
    requires AllIn(ids, m) && picks != [] && picks[0] < |ids| && BestBelow(m, ids, |ids|, picks, v)
    ensures v != NONE
  {
    assert picks[0] in picks;
  }

  ghost function Shrink(s: State, b: int, now: int, rnd: Draws): State
    requires CanShrink(s, b)
  {
    VictimChoice(s, b, now, rnd);
    DropRef(s, b, Victim(s, b, now, rnd))
  }

  // ---- SelectTried

  /** One inspection of SelectTried per step: swap a random later entry into place `i`. */
  ghost function SelectFrom(m: map<Id, Info>, q: seq<Id>, i: nat, oldest: Id, pos: int, rnd: Draws): (seq<Id>, int)
    requires AllIn(q, m) && (oldest == NONE || oldest in m)
    decreases |q| - i
  {
    if i >= TRIED_ENTRIES_INSPECT_ON_EVICT || i >= |q| then (q, pos)
    else
      var p := RandInt(rnd(i + 1), |q| - i) + i;
      var t := q[p];
      var q' := q[p := q[i]][i := t];
      if oldest == NONE || m[t].lastSuccess < m[oldest].lastSuccess
      then SelectFrom(m, q', i + 1, t, p, rnd)
      else SelectFrom(m, q', i + 1, oldest, pos, rnd)
  }

  /** One more inspection, of position `p`. */
  lemma SelectStep(m: map<Id, Info>, q: seq<Id>, i: nat, oldest: Id, pos: int, rnd: Draws, p: nat)
    requires AllIn(q, m) && (oldest == NONE || oldest in m) && i < TRIED_ENTRIES_INSPECT_ON_EVICT && i < |q|
    requires p == RandInt(rnd(i + 1), |q| - i) + i
    ensures p < |q| && q[p] in m && AllIn(q[p := q[i]][i := q[p]], m)
    ensures var better := oldest == NONE || m[q[p]].lastSuccess < m[oldest].lastSuccess;
            SelectFrom(m, q, i, oldest, pos, rnd)
            == SelectFrom(m, q[p := q[i]][i := q[p]], i + 1, if better then q[p] else oldest, if better then p else pos, rnd)
  {
    SwapAllIn(q, i, p, m);
  }

  lemma SelectDone(m: map<Id, Info>, q: seq<Id>, i: nat, oldest: Id, pos: int, rnd: Draws)
    requires AllIn(q, m) && (oldest == NONE || oldest in m) && (i >= TRIED_ENTRIES_INSPECT_ON_EVICT || i >= |q|)
    ensures SelectFrom(m, q, i, oldest, pos, rnd) == (q, pos)
  {
  }

  ghost function SelectTried(m: map<Id, Info>, q: seq<Id>, rnd: Draws): (seq<Id>, int)
    requires AllIn(q, m)
  {
    SelectFrom(m, q, 0, NONE, -1, rnd)
  }

  // ---- MakeTried

  ghost function Strip(vv: seq<set<Id>>, id: Id): (r: seq<set<Id>>)
    ensures |r| == |vv| && forall b :: 0 <= b < |vv| ==> r[b] == vv[b] - {id}
  {
    seq(|vv|, b requires 0 <= b < |vv| => vv[b] - {id})
  }

  /** Out of every new bucket, into none yet. */
  ghost function Unlist(s: State, id: Id): State
    requires id in s.mapInfo
  {
    s.(vvNew := Strip(s.vvNew, id), nNew := s.nNew - 1,
       mapInfo := s.mapInfo[id := s.mapInfo[id].(refCount := s.mapInfo[id].refCount - Refs(s.vvNew, id))])
  }

  ghost function MarkTried(s: State, id: Id): State
    requires id in s.mapInfo
  {
    Update(s, id, s.mapInfo[id].(inTried := true))
  }

  /** Swap tried entry `q[pos]` of bucket `kb` for `id`; the evicted entry goes back to a new bucket. */
  ghost function Evict(s: State, id: Id, kb: int, q: seq<Id>, pos: int, origin: int): State
    requires 0 <= kb < |s.vvTried| && 0 <= pos < |q| && 0 <= origin < |s.vvNew| == NEW_BUCKET_COUNT
    requires id in s.mapInfo && q[pos] in s.mapInfo
  {
    var evicted := q[pos];
    var info := s.mapInfo[evicted];
    var ub := NewBucket(s, info.addr.service.net, info.source);
    var target := if |s.vvNew[ub]| < NEW_BUCKET_SIZE then ub else origin;
    MarkTried(
      Update(s, evicted, info.(inTried := false, refCount := 1))
        .(vvNew := s.vvNew[target := s.vvNew[target] + {evicted}], nNew := s.nNew + 1,
          vvTried := s.vvTried[kb := q[pos := id]]),
      id)
  }

  ghost predicate CanMakeTried(s: State, id: Id, origin: int) {
    && id in s.mapInfo && |s.vvTried| == TRIED_BUCKET_COUNT && |s.vvNew| == NEW_BUCKET_COUNT
    && 0 <= origin < NEW_BUCKET_COUNT && id in s.vvNew[origin]
    && forall b :: 0 <= b < |s.vvTried| ==> AllIn(s.vvTried[b], s.mapInfo)
  }

  ghost function MakeTried(s: State, id: Id, origin: int, rnd: Draws): State
    requires CanMakeTried(s, id, origin)
  {
    var u := Unlist(s, id);
    var kb := TriedBucket(s, s.mapInfo[id].addr.service);
    if |u.vvTried[kb]| < TRIED_BUCKET_SIZE then
      MarkTried(u.(vvTried := u.vvTried[kb := u.vvTried[kb] + [id]], nTried := u.nTried + 1), id)
    else
      SelectTriedChoice(u.mapInfo, u.vvTried[kb], rnd);
      var (q, pos) := SelectTried(u.mapInfo, u.vvTried[kb], rnd);
      Evict(u, id, kb, q, pos, origin)
  }

  /** SelectTried permutes the bucket and returns one of its positions. */
  lemma SelectTriedChoice(m: map<Id, Info>, q: seq<Id>, rnd: Draws)
    requires q != [] && AllIn(q, m)
    ensures var (r, p) := SelectTried(m, q, rnd); Perm(r, q) && 0 <= p < |r| && AllIn(r, m)
  {
    SelectFromPermutes(m, q, 0, NONE, -1, rnd);
    PermAllIn(SelectTried(m, q, rnd).0, q, m);
  }

  lemma SwapPermutes(q: seq<Id>, i: nat, p: nat)
    requires i < |q| && p < |q|
    ensures Perm(q[p := q[i]][i := q[p]], q)
  {
  }

  lemma SwapAllIn(q: seq<Id>, i: nat, p: nat, m: map<Id, Info>)
    requires i < |q| && p < |q| && AllIn(q, m)
    ensures AllIn(q[p := q[i]][i := q[p]], m)
  {
  }

  ghost predicate Perm(r: seq<Id>, q: seq<Id>) { multiset(r) == multiset(q) && |r| == |q| }

  lemma PermAllIn(r: seq<Id>, q: seq<Id>, m: map<Id, Info>)
    requires Perm(r, q) && AllIn(q, m)
    ensures AllIn(r, m)
  {
    forall k | 0 <= k < |r| ensures r[k] in m {
      assert r[k] in multiset(r);
      assert r[k] in q;
    }
  }

  lemma PermVia(r: seq<Id>, q': seq<Id>, q: seq<Id>)
    requires Perm(r, q') && Perm(q', q)
    ensures Perm(r, q) && |r| == |q'| == |q|
  {
  }

  lemma PermSelf(q: seq<Id>)
    ensures Perm(q, q)
  {
  }

  lemma {:induction false} SelectFromPermutes(m: map<Id, Info>, q: seq<Id>, i: nat, oldest: Id, pos: int, rnd: Draws)
    requires AllIn(q, m) && (oldest == NONE || oldest in m)
    requires i == 0 ==> oldest == NONE
    requires i > 0 ==> 0 <= pos < |q|
    ensures var (r, p) := SelectFrom(m, q, i, oldest, pos, rnd); Perm(r, q) && (q != [] ==> 0 <= p < |r|)
    decreases |q| - i
  {
    hide SelectFrom, RandInt, Perm, AllIn;
    if i < TRIED_ENTRIES_INSPECT_ON_EVICT && i < |q| {
      var p: nat := RandInt(rnd(i + 1), |q| - i) + i;
      SelectStep(m, q, i, oldest, pos, rnd, p);
      SwapPermutes(q, i, p);
      var t, q' := q[p], q[p := q[i]][i := q[p]];
      var better := oldest == NONE || m[t].lastSuccess < m[oldest].lastSuccess;
      SelectFromPermutes(m, q', i + 1, if better then t else oldest, if better then p else pos, rnd);
      PermVia(SelectFrom(m, q, i, oldest, pos, rnd).0, q', q);
    } else {
      SelectDone(m, q, i, oldest, pos, rnd);
      PermSelf(q);
    }
  }

  // ---- Good_

  function Touch(info: Info, time: int): Info {
    info.(lastSuccess := time, attempts := 0, addr := info.addr.(lastTry := time, time := U32(time)))
  }

  /** The first bucket holding `id`, scanning cyclically from `start`; -1 if there is none. */
  ghost function FindBucket(vv: seq<set<Id>>, id: Id, start: nat, n: nat): (b: int)
    requires n <= |vv|
    ensures b == -1 || (0 <= b < |vv| && id in vv[b])
    decreases |vv| - n
  {
    if n == |vv| then -1
    else if id in vv[(n + start) % |vv|] then (n + start) % |vv|
    else FindBucket(vv, id, start, n + 1)
  }

  /** What the asserts of MakeTried ask of the tables. */
  ghost predicate Sound(s: State) {
    && |s.vvTried| == TRIED_BUCKET_COUNT && |s.vvNew| == NEW_BUCKET_COUNT
    && forall b :: 0 <= b < |s.vvTried| ==> AllIn(s.vvTried[b], s.mapInfo)
  }

  ghost function Good(s: State, svc: Service, time: int, rnd: Draws): State
    requires Sound(s)
  {
    if !Matches(s, svc) then s
    else
      var id := s.mapAddr[svc.net];
      var t := Update(s, id, Touch(s.mapInfo[id], time));
      if s.mapInfo[id].inTried then t
      else
        var b := FindBucket(t.vvNew, id, RandInt(rnd(0), |t.vvNew|), 0);
        if b == -1 then t else MakeTried(t, id, b, rnd)
  }

  // ---- Add_

  /** The periodic refresh of a known entry's time stamp and services. */
  ghost function Refresh(info: Info, addr: Address, penalty: int, now: int): Info {
    var interval := if now - addr.time < 24 * 60 * 60 then 60 * 60 else 24 * 60 * 60;
    var time := if addr.time != 0 && (info.addr.time == 0 || info.addr.time < addr.time - interval - penalty)
                then U32(Max0(addr.time - penalty)) else info.addr.time;
    info.(addr := info.addr.(time := time, services := Both(info.addr.services, addr.services)))
  }

  /** A refresh changes the announcement only, and neither address nor port. */
  lemma RefreshShape(info: Info, addr: Address, penalty: int, now: int)
    ensures var r := Refresh(info, addr, penalty, now); r == info.(addr := r.addr) && r.addr.service == info.addr.service
  {
  }

  function Pow2(n: int): nat { if n <= 0 then 1 else 2 * Pow2(n - 1) }

  /** Whether a known, refreshed entry gets one more reference. */
  ghost predicate Wanted(info: Info, addr: Address, raw: nat) {
    && addr.time != 0 && (info.addr.time == 0 || addr.time > info.addr.time)
    && !info.inTried
    && info.refCount != NEW_BUCKETS_PER_ADDRESS
    && (Pow2(info.refCount) > 1 ==> RandInt(raw, Pow2(info.refCount)) == 0)
  }

  ghost function Raise(s: State, id: Id): State
    requires id in s.mapInfo
  {
    Update(s, id, s.mapInfo[id].(refCount := s.mapInfo[id].refCount + 1))
  }

  ghost function Insert(s: State, b: int, id: Id): State
    requires 0 <= b < |s.vvNew|
  {
    s.(vvNew := s.vvNew[b := s.vvNew[b] + {id}])
  }

  ghost function MakeRoom(s: State, b: int, now: int, rnd: Draws): (t: State)
    requires 0 <= b < |s.vvNew|
    requires |s.vvNew[b]| == NEW_BUCKET_SIZE ==> CanShrink(s, b)
    ensures |t.vvNew| == |s.vvNew|
  {
    if |s.vvNew[b]| == NEW_BUCKET_SIZE then Shrink(s, b, now, rnd) else s
  }

  ghost predicate CanList(s: State, id: Id) {
    RandOk(s) && MapOk(s) && NewOk(s) && id in s.mapInfo
  }

  ghost function List(s: State, b: int, id: Id, now: int, rnd: Draws): State
    requires CanList(s, id) && 0 <= b < |s.vvNew|
  {
    if id in s.vvNew[b] then s
    else
      RaiseCanShrink(s, b, id);
      Insert(MakeRoom(Raise(s, id), b, now, rnd), b, id)
  }

  lemma RaiseCanShrink(s: State, b: int, id: Id)
    requires CanList(s, id) && 0 <= b < |s.vvNew|
    ensures Raise(s, id).vvNew == s.vvNew && (|s.vvNew[b]| == NEW_BUCKET_SIZE ==> CanShrink(Raise(s, id), b))
  {
    var t := Raise(s, id);
    assert MapOk(t) && RandOk(t);
    assert |s.vvNew[b]| > 0 ==> s.vvNew[b] != {};
  }

  ghost function AddNew(s: State, addr: Address, source: NetAddr, penalty: int): State {
    var t := Create(s, addr, source);
    var info := t.mapInfo[Id(s.idCount)];
    Update(t, Id(s.idCount), info.(addr := info.addr.(time := U32(Max0(info.addr.time - penalty)))))
      .(nNew := t.nNew + 1)
  }

  /** Add_ for an address that is already known. */
  ghost function AddKnown(s: State, addr: Address, source: NetAddr, penalty: int, now: int, rnd: Draws): State
    requires MapOk(s) && RandOk(s) && NewOk(s) && Known(s, addr.service.net)
  {
    var id := s.mapAddr[addr.service.net];
    var info := Refresh(s.mapInfo[id], addr, penalty, now);
    var t := Update(s, id, info);
    if !Wanted(info, addr, rnd(0)) then t
    else
      RefreshCanList(s, id, info);
      List(t, NewBucket(s, info.addr.service.net, source), id, now, rnd)
  }

  lemma RefreshCanList(s: State, id: Id, info: Info)
    requires MapOk(s) && RandOk(s) && NewOk(s) && id in s.mapInfo
    requires info == s.mapInfo[id].(addr := info.addr) && info.addr.service == s.mapInfo[id].addr.service
    ensures CanList(Update(s, id, info), id)
  {
    var t := Update(s, id, info);
    assert NewOk(t);
    hide NewOk;
    assert RandOk(t);
    hide RandOk;
    assert MapOk(t);
  }

  ghost function Add(s: State, addr: Address, source: NetAddr, penalty: int, now: int, rnd: Draws): (State, bool)
    requires MapOk(s) && RandOk(s) && NewOk(s)
  {
    if !s.env.routable(addr.service.net) then (s, false)
    else if Known(s, addr.service.net) then (AddKnown(s, addr, source, penalty, now, rnd), false)
    else
      AddNewCanList(s, addr, source, penalty);
      (List(AddNew(s, addr, source, penalty), NewBucket(s, addr.service.net, source), Id(s.idCount), now, rnd), true)
  }

  lemma MapInsert(s: State, t: State, id: Id, info: Info)
    requires MapOk(s) && info.addr.service.net !in s.mapAddr && id.n == s.idCount
    requires t.mapInfo == s.mapInfo[id := info] && t.mapAddr == s.mapAddr[info.addr.service.net := id]
    requires t.idCount == s.idCount + 1
    ensures MapOk(t)
  {
  }

  lemma AddNewFields(s: State, addr: Address, source: NetAddr, penalty: int)
    ensures var id, t := Id(s.idCount), AddNew(s, addr, source, penalty);
            && id in t.mapInfo && t.mapInfo == s.mapInfo[id := t.mapInfo[id]] && t.mapInfo[id].addr.service == addr.service
            && t.mapAddr == s.mapAddr[addr.service.net := id] && t.idCount == s.idCount + 1
            && t.vRandom == s.vRandom + [id] && t.mapInfo[id].randomPos == |s.vRandom| && t.vvNew == s.vvNew
  {
  }

  lemma RandInsert(s: State, t: State, id: Id)
    requires RandOk(s) && id !in s.mapInfo && id in t.mapInfo && t.mapInfo == s.mapInfo[id := t.mapInfo[id]]
    requires t.vRandom == s.vRandom + [id] && t.mapInfo[id].randomPos == |s.vRandom|
    ensures RandOk(t)
  {
  }

  lemma NewInsert(s: State, t: State, id: Id)
    requires NewOk(s) && id !in s.mapInfo && id in t.mapInfo && t.mapInfo == s.mapInfo[id := t.mapInfo[id]] && t.vvNew == s.vvNew
    ensures NewOk(t)
  {
  }

  lemma AddNewCanList(s: State, addr: Address, source: NetAddr, penalty: int)
    requires MapOk(s) && RandOk(s) && NewOk(s) && !Known(s, addr.service.net)
    ensures CanList(AddNew(s, addr, source, penalty), Id(s.idCount))
  {
    hide RandOk, NewOk;
    var id, t := Id(s.idCount), AddNew(s, addr, source, penalty);
    assert addr.service.net !in s.mapAddr && id !in s.mapInfo;
    hide MapOk;
    AddNewFields(s, addr, source, penalty);
    hide AddNew;
    MapInsert(s, t, id, t.mapInfo[id]);
    RandInsert(s, t, id);
    NewInsert(s, t, id);
  }

  // ---- Attempt_, Connected_, GetAddr_

  ghost function Attempt(s: State, svc: Service, time: int): State {
    if !Matches(s, svc) then s
    else
      var id := s.mapAddr[svc.net];
      var info := s.mapInfo[id];
      Update(s, id, info.(attempts := info.attempts + 1, addr := info.addr.(lastTry := time)))
  }

  ghost function Connected(s: State, svc: Service, time: int): State {
    if !Matches(s, svc) then s
    else
      var id := s.mapAddr[svc.net];
      var info := s.mapInfo[id];
      if time - info.addr.time > 20 * 60 then Update(s, id, info.(addr := info.addr.(time := U32(time)))) else s
  }

  function GetAddrCount(size: nat): nat {
    var n := GETADDR_MAX_PCT * size / 100;
    if n > GETADDR_MAX then GETADDR_MAX else n
  }

  /** Shuffle positions `n` up to `count` of vRandom, each with a later position. */
  ghost function Shuffle(s: State, n: nat, count: nat, rnd: Draws): State
    requires RandOk(s) && count <= |s.vRandom|
    decreases count - n
  {
    if n >= count then s
    else
      var p := RandInt(rnd(n), |s.vRandom| - n) + n;
      SwapRandOk(s, n, p);
      Shuffle(Swap(s, n, p), n + 1, count, rnd)
  }

  ghost predicate SameButPos(m: map<Id, Info>, m': map<Id, Info>) {
    m'.Keys == m.Keys && forall id :: id in m ==> m'[id] == m[id].(randomPos := m'[id].randomPos)
  }

  lemma SwapRandOk(s: State, p1: int, p2: int)
    requires RandOk(s) && 0 <= p1 < |s.vRandom| && 0 <= p2 < |s.vRandom|
    ensures var t := Swap(s, p1, p2);
            RandOk(t) && SameButPos(s.mapInfo, t.mapInfo)
            && |t.vRandom| == |s.vRandom| && t == s.(mapInfo := t.mapInfo, vRandom := t.vRandom)
  {
    if p1 != p2 {
      var t, id1, id2 := Swap(s, p1, p2), s.vRandom[p1], s.vRandom[p2];
      assert s.mapInfo[id1].randomPos == p1 && s.mapInfo[id2].randomPos == p2;
      assert t.mapInfo[id1].randomPos == p2 && t.mapInfo[id2].randomPos == p1;
    }
  }
}
