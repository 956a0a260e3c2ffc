/** Whole runs of the address manager: every reachable state satisfies the invariant and stays small. */
module AddrRuns {
  import opened OrderedSet
  import opened AddrState
  import opened AddrOps
  import opened AddrInvariant
  import opened AddrTried

  lemma InitInv(env: Env, key: seq<nat>)
    ensures Inv(Init(env, key))
  {
    var s := Init(env, key);
    assert NewIds(s.mapInfo) == {} && TriedIds(s.mapInfo) == {};
  }

  /** Attempt_ keeps the invariant exactly when its time is not negative or it has nothing to mark. */
  lemma AttemptKeeps(s: State, svc: Service, time: int)
    requires Inv(s)
    ensures Inv(Attempt(s, svc, time)) <==> time >= 0 || !Matches(s, svc)
  {
    hide MapOk, RandOk, TriedOk, CountOk, NewOk, EntriesOk;
    if Matches(s, svc) {
      var id := s.mapAddr[svc.net];
      var info := s.mapInfo[id];
      EntryAt(s, id, {});
      if time >= 0 {
        UpdateKeeps(s, id, info.(attempts := info.attempts + 1, addr := info.addr.(lastTry := time)), {}, {});
      } else if Inv(Attempt(s, svc, time)) {
        EntryAt(Attempt(s, svc, time), id, {});
      }
    }
  }

  lemma ConnectedKeeps(s: State, svc: Service, time: int)
    requires Inv(s)
    ensures Inv(Connected(s, svc, time)) && Connected(s, svc, time).mapAddr == s.mapAddr
  {
    hide MapOk, RandOk, TriedOk, CountOk, NewOk, EntriesOk;
    if Matches(s, svc) {
      var id := s.mapAddr[svc.net];
      var info := s.mapInfo[id];
      EntryAt(s, id, {});
      if time - info.addr.time > 20 * 60 {
        UpdateKeeps(s, id, info.(addr := info.addr.(time := U32(time))), {}, {});
      }
    }
  }

  // ---- GetAddr_

  lemma SwapEntriesOk(s: State, t: State)
    requires EntriesOk(s, {}) && SameButPos(s.mapInfo, t.mapInfo) && t.vvNew == s.vvNew
    ensures EntriesOk(t, {})
  {
    forall id | id in t.mapInfo ensures EntryOk(t, id, {}) {
      assert EntryOk(s, id, {});
    }
  }

  lemma SwapKeeps(s: State, p1: int, p2: int)
    requires Inv(s) && 0 <= p1 < |s.vRandom| && 0 <= p2 < |s.vRandom|
    ensures CanSwap(s, p1) && CanSwap(s, p2) && Inv(Swap(s, p1, p2))
  {
    hide MapOk, TriedOk, CountOk, NewOk, EntriesOk;
    SwapRandOk(s, p1, p2);
    var t := Swap(s, p1, p2);
    hide RandOk, Swap;
    assert SameTables(s.mapInfo, t.mapInfo, {});
    MapFrame(s, t);
    TriedFrame(s, t, {});
    NewFrame(s, t);
    CountFrame(s, t);
    SwapEntriesOk(s, t);
  }

  lemma SwapShape(s: State, p1: int, p2: int)
    requires RandOk(s) && 0 <= p1 < |s.vRandom| && 0 <= p2 < |s.vRandom|
    ensures CanSwap(s, p1) && CanSwap(s, p2)
    ensures var t := Swap(s, p1, p2);
            && RandOk(t) && |t.vRandom| == |s.vRandom|
            && t.mapAddr == s.mapAddr && t.mapInfo.Keys == s.mapInfo.Keys
            && forall i :: 0 <= i < |s.vRandom| && i != p1 && i != p2 ==> t.vRandom[i] == s.vRandom[i]
  {
    SwapRandOk(s, p1, p2);
  }

  lemma InvRandOk(s: State)
    requires Inv(s)
    ensures RandOk(s)
  {
  }

  lemma SwapInv(s: State, p1: int, p2: int)
    requires Inv(s) && RandOk(s) && 0 <= p1 < |s.vRandom| && 0 <= p2 < |s.vRandom|
    ensures CanSwap(s, p1) && CanSwap(s, p2)
    ensures var t := Swap(s, p1, p2); Inv(t) && RandOk(t) && |t.vRandom| == |s.vRandom|
  {
    hide Inv, RandOk, Swap;
    SwapShape(s, p1, p2);
    SwapKeeps(s, p1, p2);
  }

  lemma {:induction false} ShuffleKeeps(s: State, n: nat, count: nat, rnd: Draws)
    requires Inv(s) && RandOk(s) && count <= |s.vRandom|
    ensures Inv(Shuffle(s, n, count, rnd))
    decreases count - n
  {
    hide Inv, RandOk, Swap, CanSwap, RandInt;
    if n < count {
      var p: nat := RandInt(rnd(n), |s.vRandom| - n) + n;
      SwapInv(s, n, p);
      var t := Swap(s, n, p);
      ShuffleKeeps(t, n + 1, count, rnd);
    }
  }

  lemma {:induction false} ShuffleShape(s: State, n: nat, count: nat, rnd: Draws)
    requires RandOk(s) && count <= |s.vRandom|
    ensures var t := Shuffle(s, n, count, rnd);
            && |t.vRandom| == |s.vRandom| && t.mapAddr == s.mapAddr && t.mapInfo.Keys == s.mapInfo.Keys
            && forall i :: 0 <= i < n && i < |s.vRandom| ==> t.vRandom[i] == s.vRandom[i]
    decreases count - n
  {
    hide RandOk, Swap, RandInt;
    if n < count {
      var p: nat := RandInt(rnd(n), |s.vRandom| - n) + n;
      SwapShape(s, n, p);
      ShuffleShape(Swap(s, n, p), n + 1, count, rnd);
    }
  }

  /** What GetAddr_ returns: the entries at the front of the shuffled vRandom. */
  ghost function Front(s: State, count: nat): seq<Address>
    requires RandOk(s) && count <= |s.vRandom|
  {
    seq(count, i requires 0 <= i < count => s.mapInfo[s.vRandom[i]].addr)
  }

  lemma FrontDistinct(s: State, n: nat)
    requires MapOk(s) && RandOk(s) && n <= |s.vRandom|
    ensures forall i :: 0 <= i < n ==> Front(s, n)[i].service.net in s.mapAddr
    ensures forall i, j :: 0 <= i < j < n ==> Front(s, n)[i].service.net != Front(s, n)[j].service.net
  {
    forall i, j | 0 <= i < j < n ensures Front(s, n)[i].service.net != Front(s, n)[j].service.net {
      assert s.mapInfo[s.vRandom[i]].randomPos == i && s.mapInfo[s.vRandom[j]].randomPos == j;
    }
  }

  /** GetAddr_ returns known addresses, each at most once, and changes only the order of vRandom. */
  lemma GetAddrKeeps(s: State, rnd: Draws)
    requires Inv(s)
    ensures GetAddrCount(|s.vRandom|) <= |s.vRandom|
    ensures var n := GetAddrCount(|s.vRandom|);
            var t := Shuffle(s, 0, n, rnd);
            && Inv(t) && n <= |t.vRandom| && t.mapAddr == s.mapAddr && t.mapInfo.Keys == s.mapInfo.Keys
            && (forall i :: 0 <= i < n ==> Front(t, n)[i].service.net in s.mapAddr)
            && (forall i, j :: 0 <= i < j < n ==> Front(t, n)[i].service.net != Front(t, n)[j].service.net)
  {
    hide MapOk, RandOk, TriedOk, CountOk, NewOk, EntriesOk, Shuffle;
    var n := GetAddrCount(|s.vRandom|);
    ShuffleKeeps(s, 0, n, rnd);
    ShuffleShape(s, 0, n, rnd);
    FrontDistinct(Shuffle(s, 0, n, rnd), n);
  }

  /** 23 percent of all there are, rounded down, but never more than 2500. */
  predicate Share(n: nat, size: nat) {
    n <= 2500 && 100 * n <= 23 * size && (n < 2500 ==> 23 * size < 100 * (n + 1))
  }

  lemma CountBounds(size: nat)
    ensures Share(GetAddrCount(size), size)
  {
  }

  lemma FrontSize(s: State, count: nat)
    requires RandOk(s) && count <= |s.vRandom|
    ensures |Front(s, count)| == count
  {
  }

  /** Only the draws from step `n` on matter. */
  lemma {:induction false} ShuffleFrame(s: State, n: nat, count: nat, rnd: Draws, rnd': Draws)
    requires RandOk(s) && count <= |s.vRandom| && forall i: nat :: n <= i ==> rnd(i) == rnd'(i)
    ensures Shuffle(s, n, count, rnd) == Shuffle(s, n, count, rnd')
    decreases count - n
  {
    hide RandOk, Swap, RandInt;
    if n < count {
      var p: nat := RandInt(rnd(n), |s.vRandom| - n) + n;
      SwapShape(s, n, p);
      ShuffleFrame(Swap(s, n, p), n + 1, count, rnd, rnd');
    }
  }

  /** The first `n` entries of vRandom are those of `ids`. */
  ghost predicate Leads(s: State, ids: seq<Id>, n: nat) {
    n <= |ids| <= |s.vRandom| && forall k :: 0 <= k < n ==> s.vRandom[k] == ids[k]
  }

  /** The next one of different entries stands behind those. */
  lemma NextBehind(s: State, ids: seq<Id>, n: nat)
    requires RandOk(s) && Leads(s, ids, n) && n < |ids| && NoDup(ids) && ids[n] in s.mapInfo
    ensures n <= s.mapInfo[ids[n]].randomPos < |s.vRandom|
  {
    assert s.vRandom[s.mapInfo[ids[n]].randomPos] == ids[n];
  }

  lemma SwapLeads(s: State, ids: seq<Id>, n: nat)
    requires RandOk(s) && Leads(s, ids, n) && n < |ids| && ids[n] in s.mapInfo
    requires n <= s.mapInfo[ids[n]].randomPos < |s.vRandom|
    ensures var p := s.mapInfo[ids[n]].randomPos;
            CanSwap(s, n) && CanSwap(s, p) && RandOk(Swap(s, n, p)) && Leads(Swap(s, n, p), ids, n + 1)
            && Swap(s, n, p).mapInfo.Keys == s.mapInfo.Keys && |Swap(s, n, p).vRandom| == |s.vRandom|
  {
    var p := s.mapInfo[ids[n]].randomPos;
    SwapShape(s, n, p);
    assert Swap(s, n, p).vRandom[n] == ids[n];
    hide Swap, RandOk;
  }

  lemma ShuffleStep(s: State, n: nat, count: nat, rnd: Draws)
    requires RandOk(s) && n < count <= |s.vRandom|
    ensures var p := RandInt(rnd(n), |s.vRandom| - n) + n;
            && CanSwap(s, n) && CanSwap(s, p)
            && RandOk(Swap(s, n, p)) && |Swap(s, n, p).vRandom| == |s.vRandom|
            && Shuffle(s, n, count, rnd) == Shuffle(Swap(s, n, p), n + 1, count, rnd)
  {
    hide Swap, RandOk, RandInt;
    var p: nat := RandInt(rnd(n), |s.vRandom| - n) + n;
    SwapShape(s, n, p);
  }

  lemma ShuffleFirst(s: State, n: nat, count: nat, rnd: Draws, p: nat)
    requires RandOk(s) && n < count <= |s.vRandom| && n <= p < |s.vRandom| && rnd(n) == p - n
    ensures CanSwap(s, n) && CanSwap(s, p) && RandOk(Swap(s, n, p)) && |Swap(s, n, p).vRandom| == |s.vRandom|
    ensures Shuffle(s, n, count, rnd) == Shuffle(Swap(s, n, p), n + 1, count, rnd)
  {
    hide RandOk, Swap, Shuffle, RandInt;
    RandIntSmall(p - n, |s.vRandom| - n);
    ShuffleStep(s, n, count, rnd);
  }

  lemma RandIntSmall(raw: nat, max: nat)
    requires raw < max
    ensures RandInt(raw, max) == raw
  {
  }

  lemma {:induction false} AnyOrderFrom(s: State, n: nat, ids: seq<Id>) returns (rnd: Draws)
    requires RandOk(s) && Leads(s, ids, n) && NoDup(ids) && AllIn(ids, s.mapInfo)
    ensures Leads(Shuffle(s, n, |ids|, rnd), ids, |ids|)
    decreases |ids| - n
  {
    hide RandOk, Swap, Shuffle, Leads, NoDup;
    LeadsFits(s, ids, n);
    rnd := _ => 0;
    if n < |ids| {
      NextBehind(s, ids, n);
      var p := s.mapInfo[ids[n]].randomPos;
      SwapLeads(s, ids, n);
      var t := Swap(s, n, p);
      var rest := AnyOrderFrom(t, n + 1, ids);
      rnd := i => if i == n then p - n else rest(i);
      ShuffleFirst(s, n, |ids|, rnd, p);
      ShuffleFrame(t, n + 1, |ids|, rnd, rest);
    } else {
      ShuffleNone(s, n, rnd);
    }
  }

  lemma LeadsFits(s: State, ids: seq<Id>, n: nat)
    requires Leads(s, ids, n)
    ensures n <= |ids| <= |s.vRandom|
  {
  }

  lemma ShuffleNone(s: State, n: nat, rnd: Draws)
    requires RandOk(s) && n <= |s.vRandom|
    ensures Shuffle(s, n, n, rnd) == s
  {
  }

  /** GetAddr_ can return any entries in any order: the draws decide, and nothing else does. */
  lemma AnyOrder(s: State, ids: seq<Id>) returns (rnd: Draws)
    requires Inv(s) && |ids| == GetAddrCount(|s.vRandom|) && NoDup(ids) && AllIn(ids, s.mapInfo)
    ensures RandOk(s) && |ids| <= |s.vRandom| && Leads(Shuffle(s, 0, |ids|, rnd), ids, |ids|)
  {
    hide MapOk, RandOk, TriedOk, CountOk, NewOk, EntriesOk, Shuffle;
    rnd := AnyOrderFrom(s, 0, ids);
  }

  // ---- Runs

  datatype Op =
    | OpAdd(addr: Address, source: NetAddr, penalty: int, now: int, rnd: Draws)
    | OpGood(svc: Service, time: int, rnd: Draws)
    | OpAttempt(svc: Service, time: int)
    | OpConnected(svc: Service, time: int)
    | OpGetAddr(rnd: Draws)

  /** The callers pass the adjusted clock: positive for Good, not negative for Attempt. */
  predicate Legal(op: Op) {
    match op
    case OpGood(_, time, _) => time > 0
    case OpAttempt(_, time) => time >= 0
    case _ => true
  }

  ghost function Step(s: State, op: Op): (t: State)
    requires Inv(s) && Legal(op)
    ensures Inv(t)
  {
    match op
    case OpAdd(addr, source, penalty, now, rnd) =>
      AddKeeps(s, addr, source, penalty, now, rnd);
      Add(s, addr, source, penalty, now, rnd).0
    case OpGood(svc, time, rnd) =>
      GoodKeeps(s, svc, time, rnd);
      Good(s, svc, time, rnd)
    case OpAttempt(svc, time) =>
      AttemptKeeps(s, svc, time);
      Attempt(s, svc, time)
    case OpConnected(svc, time) =>
      ConnectedKeeps(s, svc, time);
      Connected(s, svc, time)
    case OpGetAddr(rnd) =>
      GetAddrKeeps(s, rnd);
      Shuffle(s, 0, GetAddrCount(|s.vRandom|), rnd)
  }

  ghost function Run(s: State, ops: seq<Op>): (t: State)
    requires Inv(s) && forall k :: 0 <= k < |ops| ==> Legal(ops[k])
    ensures Inv(t)
    decreases |ops|
  {
    if ops == [] then s else Step(Run(s, ops[..|ops| - 1]), ops[|ops| - 1])
  }

  // ---- Size

  ghost function Union(vv: seq<set<Id>>): set<Id> {
    if vv == [] then {} else Union(vv[..|vv| - 1]) + vv[|vv| - 1]
  }

  lemma {:induction false} UnionMembers(vv: seq<set<Id>>, b: nat, id: Id)
    requires b < |vv| && id in vv[b]
    ensures id in Union(vv)
  {
    if b < |vv| - 1 {
      UnionMembers(vv[..|vv| - 1], b, id);
    }
  }

  lemma {:induction false} UnionSize(vv: seq<set<Id>>, cap: nat)
    requires forall b :: 0 <= b < |vv| ==> |vv[b]| <= cap
    ensures |Union(vv)| <= cap * |vv|
  {
    if vv != [] {
      var n := |vv| - 1;
      UnionSize(vv[..n], cap);
      assert cap * |vv| == cap * n + cap;
    }
  }

  ghost function Members(q: seq<Id>): (s: set<Id>)
    ensures |s| <= |q|
    ensures forall x :: x in s <==> x in q
  {
    if q == [] then {} else Members(q[..|q| - 1]) + {q[|q| - 1]}
  }

  ghost function TriedSets(vv: seq<seq<Id>>): seq<set<Id>> {
    seq(|vv|, b requires 0 <= b < |vv| => Members(vv[b]))
  }

  lemma NewBound(s: State)
    requires NewOk(s) && EntriesOk(s, {})
    ensures |NewIds(s.mapInfo)| <= NEW_BUCKET_COUNT * NEW_BUCKET_SIZE
  {
    forall id | id in NewIds(s.mapInfo) ensures id in Union(s.vvNew) {
      var b := SomeBucket(s, id);
      UnionMembers(s.vvNew, b, id);
    }
    SubsetSize(NewIds(s.mapInfo), Union(s.vvNew));
    UnionSize(s.vvNew, NEW_BUCKET_SIZE);
  }

  lemma TriedBound(s: State)
    requires TriedOk(s)
    ensures |TriedIds(s.mapInfo)| <= TRIED_BUCKET_COUNT * TRIED_BUCKET_SIZE
  {
    var sets := TriedSets(s.vvTried);
    forall id | id in TriedIds(s.mapInfo) ensures id in Union(sets) {
      UnionMembers(sets, TriedBucket(s, s.mapInfo[id].addr.service), id);
    }
    SubsetSize(TriedIds(s.mapInfo), Union(sets));
    UnionSize(sets, TRIED_BUCKET_SIZE);
  }

  lemma {:induction false} RandomSize(m: map<Id, Info>, q: seq<Id>)
    requires forall id :: id in m ==> 0 <= m[id].randomPos < |q| && q[m[id].randomPos] == id
    requires forall i :: 0 <= i < |q| ==> q[i] in m && m[q[i]].randomPos == i
    ensures |q| == |m.Keys|
  {
    if q == [] {
      assert m.Keys == {};
    } else {
      var n := |q| - 1;
      var m' := m - {q[n]};
      assert m'.Keys == m.Keys - {q[n]};
      RandomSize(m', q[..n]);
    }
  }

  /** vRandom has one entry per known address, and there are never more than 256*64 + 64*64 of them. */
  lemma Bounded(s: State)
    requires Inv(s)
    ensures |s.vRandom| == |s.mapInfo.Keys| == s.nNew + s.nTried
    ensures |s.vRandom| <= NEW_BUCKET_COUNT * NEW_BUCKET_SIZE + TRIED_BUCKET_COUNT * TRIED_BUCKET_SIZE
  {
    hide MapOk;
    assert |s.vRandom| == |s.mapInfo.Keys| by { RandomSize(s.mapInfo, s.vRandom); }
    hide RandOk;
    NewBound(s);
    TriedBound(s);
    hide NewOk, TriedOk, EntriesOk;
    assert s.mapInfo.Keys == NewIds(s.mapInfo) + TriedIds(s.mapInfo);
  }

  /** From an empty manager, every run of legal calls ends in a consistent state of bounded size. */
  lemma EveryRun(env: Env, key: seq<nat>, ops: seq<Op>)
    requires forall k :: 0 <= k < |ops| ==> Legal(ops[k])
    ensures Inv(Init(env, key))
    ensures var t := Run(Init(env, key), ops);
            Inv(t) && |t.vRandom| == t.nNew + t.nTried <= 256 * 64 + 64 * 64
  {
    hide MapOk, RandOk, TriedOk, CountOk, NewOk, EntriesOk;
    InitInv(env, key);
    Bounded(Run(Init(env, key), ops));
  }
}
