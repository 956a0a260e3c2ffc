/** The address manager as the object the program keeps: fields updated in place by loops,
    each method proved equal to its function on the state value. */
module AddrManager {
  import opened OrderedSet
  import opened Services
  import opened AddrState
  import opened AddrOps
  import opened AddrInvariant
  import opened AddrTried
  import opened AddrEffects
  import opened AddrRuns
  import opened AddrCheck
  import opened AddrStream
  import opened AddrRoundTrip
  import opened AddrFile

  lemma NoneTerrible(s: State, b: int, now: int)
    requires CanShrink(s, b) && AllIn(Sorted(s.vvNew[b]), s.mapInfo)
    requires forall k :: 0 <= k < |Sorted(s.vvNew[b])| ==> !IsTerrible(s.mapInfo[Sorted(s.vvNew[b])[k]], now)
    ensures forall id :: id in s.vvNew[b] ==> !IsTerrible(s.mapInfo[id], now)
  {
    forall id | id in s.vvNew[b] ensures !IsTerrible(s.mapInfo[id], now) {
      assert id in Sorted(s.vvNew[b]);
    }
  }

  lemma ShrinkShape(s: State, b: int, now: int, rnd: Draws)
    requires CanShrink(s, b)
    ensures |Shrink(s, b, now, rnd).vvNew| == |s.vvNew|
  {
    hide RandOk, MapOk, Victim;
    VictimInBucket(s, b, now, rnd);
  }

  lemma FrontAfterSwap(s: State, n: nat, p: nat)
    requires RandOk(s) && n <= p < |s.vRandom|
    ensures CanSwap(s, n) && CanSwap(s, p)
    ensures var t := Swap(s, n, p);
            && RandOk(t) && |t.vRandom| == |s.vRandom| && t.vRandom[n] in t.mapInfo
            && Front(t, n + 1) == Front(s, n) + [t.mapInfo[t.vRandom[n]].addr]
  {
    SwapShape(s, n, p);
  }

  lemma EntriesNew(s: State)
    requires Inv(s)
    ensures forall id :: id in s.mapInfo ==> (s.mapInfo[id].refCount != 0 <==> !s.mapInfo[id].inTried)
    ensures forall id :: id in s.mapInfo ==> id.n < s.idCount
    ensures s.nNew == |NewIds(s.mapInfo)| && s.nTried == |TriedIds(s.mapInfo)|
  {
    forall id | id in s.mapInfo ensures s.mapInfo[id].refCount != 0 <==> !s.mapInfo[id].inTried {
      assert EntryOk(s, id, {});
    }
  }

  lemma NewOrderHolds(s: State)
    requires Inv(s)
    ensures NewOk(s) && NoDup(Sorted(s.mapInfo.Keys)) && NoDup(NewOrder(s)) && Listed(NewOrder(s), s.vvNew)
  {
    hide Sorted, MapOk, RandOk, TriedOk, EntriesOk, CountOk;
    AscendingNoDup(Sorted(s.mapInfo.Keys));
    AscendingNoDup(NewOrder(s));
    NewListed(s);
  }

  lemma SavePrinted(s: State)
    requires NewOk(s) && Listed(NewOrder(s), s.vvNew)
    ensures AllIn(NewOrder(s), s.mapInfo) && AllIn(TriedOrder(s), s.mapInfo)
    ensures Print(Save(s)) ==
            [TByte(0), TKey(s.key), TInt(s.nNew), TInt(s.nTried), TInt(NEW_BUCKET_COUNT)]
            + PrintInfos(Packs(s.mapInfo, NewOrder(s))) + PrintInfos(Packs(s.mapInfo, TriedOrder(s)))
            + PrintBuckets(BucketLists(NewOrder(s), s.vvNew))
  {
    hide Sorted, PrintInfos, PrintBuckets;
  }

  lemma AscendingNoDup(q: seq<Id>)
    requires Ascending(q)
    ensures NoDup(q)
  {
    forall i, j | 0 <= i < j < |q| ensures q[i] != q[j] { assert q[i].n < q[j].n; }
  }

  lemma InvListed(s: State)
    requires Inv(s)
    ensures forall id :: id in s.mapInfo ==> s.mapInfo[id].addr.service.net in s.mapAddr
  {
  }

  lemma PassesMeans(s: State)
    ensures Passes(s) <==>
      && |s.vRandom| == s.nTried + s.nNew
      && (forall id :: id in s.mapInfo ==> EntryPasses(s.mapInfo, s.mapAddr, s.vRandom, id))
      && |TriedIds(s.mapInfo)| == s.nTried && |NewIds(s.mapInfo)| == s.nNew
      && TriedPasses(s.vvTried, TriedIds(s.mapInfo))
      && NewPasses(s.vvNew, Counts(s.mapInfo))
  {
  }

  lemma CountsSize(m: map<Id, Info>)
    ensures |Counts(m)| == |NewIds(m)|
  {
    assert Counts(m).Keys == NewIds(m);
  }

  lemma AddNewService(s: State, addr: Address, source: NetAddr, penalty: int)
    ensures var t := AddNew(s, addr, source, penalty);
            && Id(s.idCount) in t.mapInfo && t.mapInfo[Id(s.idCount)].addr.service == addr.service
            && t.vvNew == s.vvNew && t.env == s.env && t.key == s.key
  {
  }

  lemma FrontEmpty(s: State)
    requires RandOk(s)
    ensures Front(s, 0) == []
  {
  }

  lemma ShuffleDone(s: State, count: nat, rnd: Draws)
    requires RandOk(s) && count <= |s.vRandom|
    ensures Shuffle(s, count, count, rnd) == s
  {
  }

  class AddrMan {
    const env: Env
    var nKey: seq<nat>
    var nIdCount: int
    var mapInfo: map<Id, Info>
    var mapAddr: map<NetAddr, Id>
    var vRandom: seq<Id>
    var nTried: int
    var vvTried: seq<seq<Id>>
    var nNew: int
    var vvNew: seq<set<Id>>

    function St(): State
      reads this
    {
      State(env, nKey, nIdCount, mapInfo, mapAddr, vRandom, nTried, vvTried, nNew, vvNew)
    }

    ghost predicate Valid()
      reads this
    {
      Inv(St())
    }

    constructor (e: Env, key: seq<nat>)
      ensures Valid() && St() == Init(e, key)
    {
      env, nKey, nIdCount := e, key, 0;
      mapInfo, mapAddr, vRandom := map[], map[], [];
      nTried, nNew := 0, 0;
      vvTried := seq(TRIED_BUCKET_COUNT, _ => []);
      vvNew := seq(NEW_BUCKET_COUNT, _ => {});
      new;
      InitInv(e, key);
    }

    method Find(a: NetAddr) returns (found: bool, id: Id)
      ensures found == Known(St(), a)
      ensures found ==> id == mapAddr[a]
    {
      found, id := false, NONE;
      if a in mapAddr {
        id := mapAddr[a];
        found := id in mapInfo;
      }
    }

    method Create(addr: Address, source: NetAddr) returns (id: Id)
      modifies this
      ensures id == Id(old(nIdCount)) && St() == AddrState.Create(old(St()), addr, source)
    {
      id := Id(nIdCount);
      nIdCount := nIdCount + 1;
      mapInfo := mapInfo[id := Info(addr.(lastTry := 0), source, 0, 0, 0, false, -1)];
      mapAddr := mapAddr[addr.service.net := id];
      mapInfo := mapInfo[id := mapInfo[id].(randomPos := |vRandom|)];
      vRandom := vRandom + [id];
    }

    method SwapRandom(p1: int, p2: int)
      requires CanSwap(St(), p1) && CanSwap(St(), p2)
      modifies this
      ensures St() == Swap(old(St()), p1, p2)
    {
      if p1 == p2 { return; }
      var id1, id2 := vRandom[p1], vRandom[p2];
      mapInfo := mapInfo[id1 := mapInfo[id1].(randomPos := p2)];
      mapInfo := mapInfo[id2 := mapInfo[id2].(randomPos := p1)];
      vRandom := vRandom[p1 := id2];
      vRandom := vRandom[p2 := id1];
    }

    /** The lines ShrinkNew runs on the entry it gives up. */
    method Unref(b: int, id: Id)
      requires RandOk(St()) && id in mapInfo && 0 <= b < |vvNew|
      modifies this
      ensures CanSwap(old(St()), old(mapInfo)[id].randomPos) && CanSwap(old(St()), |old(vRandom)| - 1)
      ensures St() == DropRef(old(St()), b, id)
    {
      ForgetCanSwap(St(), id);
      mapInfo := mapInfo[id := mapInfo[id].(refCount := mapInfo[id].refCount - 1)];
      if mapInfo[id].refCount == 0 {
        Delete(id);
      }
      hide Forget;
      vvNew := vvNew[b := vvNew[b] - {id}];
    }

    /** An entry whose last reference is gone leaves every table. */
    method Delete(id: Id)
      requires id in mapInfo && CanSwap(St(), mapInfo[id].randomPos) && CanSwap(St(), |vRandom| - 1)
      modifies this
      ensures St() == Forget(old(St()), id)
    {
      var info := mapInfo[id];
      SwapRandom(info.randomPos, |vRandom| - 1);
      hide Swap;
      vRandom := vRandom[..|vRandom| - 1];
      mapAddr := mapAddr - {info.addr.service.net};
      mapInfo := mapInfo - {id};
      nNew := nNew - 1;
    }

    /** The first scan of ShrinkNew: the lowest-numbered terrible entry of the bucket. */
    method FindTerrible(ids: seq<Id>, now: int) returns (t: Id)
      requires AllIn(ids, mapInfo) && forall k :: 0 <= k < |ids| ==> ids[k].n >= 0
      ensures t == FirstTerrible(mapInfo, ids, now)
      ensures t == NONE ==> forall k :: 0 <= k < |ids| ==> !IsTerrible(mapInfo[ids[k]], now)
      ensures t != NONE ==> t in mapInfo && IsTerrible(mapInfo[t], now)
    {
      var i := 0;
      while i < |ids|
        invariant 0 <= i <= |ids|
        invariant FirstTerrible(mapInfo, ids, now) == FirstTerrible(mapInfo, ids[i..], now)
        invariant forall j :: 0 <= j < i ==> !IsTerrible(mapInfo[ids[j]], now)
      {
        if IsTerrible(mapInfo[ids[i]], now) { return ids[i]; }
        i := i + 1;
      }
      return NONE;
    }

    /** The second scan of ShrinkNew: the entry seen longest ago among four random positions. */
    method FindOldest(ids: seq<Id>, rnd: Draws) returns (oldest: Id)
      requires AllIn(ids, mapInfo)
      ensures oldest == OldestFrom(mapInfo, ids, 0, Picks(|ids|, rnd), NONE)
    {
      var n := Picks(|ids|, rnd);
      oldest := NONE;
      var k := 0;
      while k < |ids|
        invariant 0 <= k <= |ids| && (oldest == NONE || oldest in mapInfo)
        invariant OldestFrom(mapInfo, ids, k, n, oldest) == OldestFrom(mapInfo, ids, 0, n, NONE)
      {
        if k == n[0] || k == n[1] || k == n[2] || k == n[3] {
          if oldest == NONE || mapInfo[ids[k]].addr.time < mapInfo[oldest].addr.time {
            oldest := ids[k];
          }
        }
        k := k + 1;
      }
    }

    /** The outcome is 0 if a terrible entry was found and 1 if one had to be picked. */
    method ShrinkNew(b: int, now: int, rnd: Draws) returns (r: int)
      requires CanShrink(St(), b)
      modifies this
      ensures St() == Shrink(old(St()), b, now, rnd)
      ensures r == 0 || r == 1
      ensures r == 0 <==> exists id :: id in old(vvNew)[b] && IsTerrible(old(mapInfo)[id], now)
      ensures exists v :: Shrunk(old(St()), St(), b, now, rnd, v)
    {
      hide RandOk, Sorted, DropRef, IsTerrible, Shrunk;
      ghost var s := St();
      ghost var gone := ShrinkDoes(s, b, now, rnd);
      var ids := Sorted(vvNew[b]);
      VictimInBucket(s, b, now, rnd);
      var t := FindTerrible(ids, now);
      if t != NONE {
        assert t == Victim(s, b, now, rnd);
        Unref(b, t);
        return 0;
      }
      NoneTerrible(s, b, now);
      var oldest := FindOldest(ids, rnd);
      assert oldest == Victim(s, b, now, rnd);
      Unref(b, oldest);
      return 1;
    }

    method SelectTried(kb: int, rnd: Draws) returns (pos: int)
      requires 0 <= kb < |vvTried| && AllIn(vvTried[kb], mapInfo)
      modifies this
      ensures mapInfo == old(mapInfo)
      ensures St() == old(St()).(vvTried := old(vvTried)[kb := AddrOps.SelectTried(mapInfo, old(vvTried)[kb], rnd).0])
      ensures pos == AddrOps.SelectTried(mapInfo, old(vvTried)[kb], rnd).1
    {
      hide RandInt, AllIn, SelectFrom;
      ghost var q0 := vvTried[kb];
      var oldest, i: nat := NONE, 0;
      pos := -1;
      while i < TRIED_ENTRIES_INSPECT_ON_EVICT && i < |vvTried[kb]|
        invariant |vvTried| == |old(vvTried)| && |vvTried[kb]| == |q0|
        invariant AllIn(vvTried[kb], mapInfo) && (oldest == NONE || oldest in mapInfo)
        invariant St() == old(St()).(vvTried := old(vvTried)[kb := vvTried[kb]])
        invariant SelectFrom(mapInfo, vvTried[kb], i, oldest, pos, rnd) == SelectFrom(mapInfo, q0, 0, NONE, -1, rnd)
        decreases |q0| - i
      {
        var p: nat := RandInt(rnd(i + 1), |vvTried[kb]| - i) + i;
        SelectStep(mapInfo, vvTried[kb], i, oldest, pos, rnd, p);
        var t := vvTried[kb][p];
        SwapTried(kb, i, p);
        if oldest == NONE || mapInfo[t].lastSuccess < mapInfo[oldest].lastSuccess {
          oldest := t;
          pos := p;
        }
        i := i + 1;
      }
      SelectDone(mapInfo, vvTried[kb], i, oldest, pos, rnd);
    }

    /** Swaps two entries of a tried bucket. */
    method SwapTried(kb: int, i: nat, p: nat)
      requires 0 <= kb < |vvTried| && i < |vvTried[kb]| && p < |vvTried[kb]|
      modifies this
      ensures var q := old(vvTried)[kb];
              St() == old(St()).(vvTried := old(vvTried)[kb := q[p := q[i]][i := q[p]]])
    {
      var t := vvTried[kb][p];
      vvTried := vvTried[kb := vvTried[kb][p := vvTried[kb][i]]];
      vvTried := vvTried[kb := vvTried[kb][i := t]];
    }

    /** The first loop of MakeTried: out of every new bucket, one reference at a time. */
    method UnlistAll(id: Id)
      requires id in mapInfo
      modifies this
      ensures St() == Unlist(old(St()), id)
    {
      ghost var vv := vvNew;
      var i := 0;
      while i < |vvNew|
        invariant 0 <= i <= |vvNew| == |vv|
        invariant forall b :: 0 <= b < |vv| ==> vvNew[b] == if b < i then vv[b] - {id} else vv[b]
        invariant id in mapInfo && old(id in mapInfo)
        invariant mapInfo == old(mapInfo)[id := old(mapInfo)[id].(refCount := old(mapInfo)[id].refCount - Refs(vv[..i], id))]
        invariant St() == old(St()).(vvNew := vvNew, mapInfo := mapInfo)
      {
        assert vv[..i + 1][..i] == vv[..i];
        if id in vvNew[i] {
          vvNew := vvNew[i := vvNew[i] - {id}];
          mapInfo := mapInfo[id := mapInfo[id].(refCount := mapInfo[id].refCount - 1)];
        } else {
          assert vvNew[i] - {id} == vvNew[i];
        }
        i := i + 1;
      }
      assert vv[..|vv|] == vv;
      assert vvNew == Strip(vv, id);
      nNew := nNew - 1;
    }

    method MakeTried(id: Id, origin: int, rnd: Draws)
      requires CanMakeTried(St(), id, origin)
      modifies this
      ensures St() == AddrOps.MakeTried(old(St()), id, origin, rnd)
    {
      ghost var s := St();
      UnlistAll(id);
      var kb := TriedBucket(St(), mapInfo[id].addr.service);
      assert kb == TriedBucket(s, s.mapInfo[id].addr.service);
      if |vvTried[kb]| < TRIED_BUCKET_SIZE {
        vvTried := vvTried[kb := vvTried[kb] + [id]];
        nTried := nTried + 1;
        mapInfo := mapInfo[id := mapInfo[id].(inTried := true)];
        return;
      }
      ghost var u := St();
      assert u == Unlist(s, id);
      SelectTriedChoice(mapInfo, vvTried[kb], rnd);
      var pos := SelectTried(kb, rnd);
      EvictAt(id, kb, pos, origin, u);
    }

    /** The last part of MakeTried: put `id` where the selected entry was, and that entry back among the new. */
    method EvictAt(id: Id, kb: nat, pos: int, origin: nat, ghost u: State)
      requires kb < |vvTried| && 0 <= pos < |vvTried[kb]| && origin < |vvNew| == NEW_BUCKET_COUNT
      requires id in mapInfo && vvTried[kb][pos] in mapInfo
      requires kb < |u.vvTried| && St() == u.(vvTried := u.vvTried[kb := vvTried[kb]])
      modifies this
      ensures St() == Evict(u, id, kb, old(vvTried)[kb], pos, origin)
    {
      var evicted := vvTried[kb][pos];
      var info := mapInfo[evicted];
      var ub := NewBucket(St(), info.addr.service.net, info.source);
      assert ub == NewBucket(u, info.addr.service.net, info.source);
      info := info.(inTried := false);
      info := info.(refCount := 1);
      mapInfo := mapInfo[evicted := info];
      if |vvNew[ub]| < NEW_BUCKET_SIZE {
        vvNew := vvNew[ub := vvNew[ub] + {evicted}];
      } else {
        vvNew := vvNew[origin := vvNew[origin] + {evicted}];
      }
      nNew := nNew + 1;
      vvTried := vvTried[kb := vvTried[kb][pos := id]];
      assert vvTried == u.vvTried[kb := vvTried[kb]];
      mapInfo := mapInfo[id := mapInfo[id].(inTried := true)];
    }

    method Good_(svc: Service, time: int, rnd: Draws)
      requires Valid()
      modifies this
      ensures Sound(old(St())) && St() == Good(old(St()), svc, time, rnd)
      ensures GoodEffect(old(St()), St(), svc) && GoodDone(old(St()), St(), svc, time, rnd)
      ensures Valid() <==> time > 0 || !Matches(old(St()), svc)
    {
      hide MapOk, RandOk, TriedOk, NewOk, EntriesOk, CountOk, GoodEffect, GoodDone;
      ghost var s := St();
      GoodDoes(s, svc, time, rnd);
      GoodKeeps(s, svc, time, rnd);
      GoodConserves(s, svc, time, rnd);
      var found, id := Find(svc.net);
      if !found || mapInfo[id].addr.service != svc { return; }
      mapInfo := mapInfo[id := Touch(mapInfo[id], time)];
      if mapInfo[id].inTried { return; }
      var origin := FirstBucket(id, RandInt(rnd(0), |vvNew|));
      if origin == -1 { return; }
      MakeTried(id, origin, rnd);
    }

    /** The scan of Good_ for a bucket that holds `id`. */
    method FirstBucket(id: Id, start: nat) returns (b: int)
      ensures b == FindBucket(vvNew, id, start, 0)
    {
      var n := 0;
      while n < |vvNew|
        invariant 0 <= n <= |vvNew| && FindBucket(vvNew, id, start, n) == FindBucket(vvNew, id, start, 0)
      {
        b := (n + start) % |vvNew|;
        if id in vvNew[b] { return b; }
        n := n + 1;
      }
      return -1;
    }

    /** Add_ on a known entry: refresh it, and decide whether it gets one more reference. */
    method RefreshEntry(id: Id, addr: Address, penalty: int, now: int, rnd: Draws) returns (wanted: bool)
      requires id in mapInfo
      modifies this
      ensures St() == Update(old(St()), id, Refresh(old(mapInfo)[id], addr, penalty, now))
      ensures wanted == Wanted(Refresh(old(mapInfo)[id], addr, penalty, now), addr, rnd(0))
    {
      hide Refresh;
      var info := Refreshed(mapInfo[id], addr, penalty, now);
      mapInfo := mapInfo[id := info];
      wanted := WantsMore(info, addr, rnd);
    }

    /** A newer time, unless what is known is new enough, and any services not known yet. */
    method Refreshed(known: Info, addr: Address, penalty: int, now: int) returns (info: Info)
      ensures info == Refresh(known, addr, penalty, now)
    {
      hide U32, Max0, Both;
      var online := now - addr.time < 24 * 60 * 60;
      var interval := if online then 60 * 60 else 24 * 60 * 60;
      var time := known.addr.time;
      if addr.time != 0 && (time == 0 || time < addr.time - interval - penalty) {
        time := U32(Max0(addr.time - penalty));
      }
      info := known.(addr := known.addr.(time := time, services := Both(known.addr.services, addr.services)));
    }

    /** The early returns of Add_ for a known entry. */
    method WantsMore(info: Info, addr: Address, rnd: Draws) returns (wanted: bool)
      ensures wanted == Wanted(info, addr, rnd(0))
    {
      if addr.time == 0 || (info.addr.time != 0 && addr.time <= info.addr.time) { return false; }
      if info.inTried { return false; }
      if info.refCount == NEW_BUCKETS_PER_ADDRESS { return false; }
      var factor := Doubled(info.refCount);
      if factor > 1 && RandInt(rnd(0), factor) != 0 { return false; }
      return true;
    }

    method CreateEntry(addr: Address, source: NetAddr, penalty: int) returns (id: Id)
      modifies this
      ensures id == Id(old(nIdCount)) && St() == AddNew(old(St()), addr, source, penalty)
    {
      id := Create(addr, source);
      var info := mapInfo[id];
      mapInfo := mapInfo[id := info.(addr := info.addr.(time := U32(Max0(info.addr.time - penalty))))];
      nNew := nNew + 1;
    }

    method Add_(addr: Address, source: NetAddr, penalty: int, now: int, rnd: Draws) returns (fNew: bool)
      requires Valid()
      modifies this
      ensures Valid() && (St(), fNew) == Add(old(St()), addr, source, penalty, now, rnd)
      ensures AddEffect(old(St()), St(), addr.service.net, fNew)
      ensures Added(old(St()), St(), addr, source, penalty, now, rnd)
    {
      assert |vvNew| == NEW_BUCKET_COUNT;
      hide MapOk, RandOk, TriedOk, NewOk, EntriesOk, CountOk, List, AddEffect, Added, Refresh, Wanted, AddNew;
      ghost var s := St();
      AddDoes(s, addr, source, penalty, now, rnd);
      AddKeeps(s, addr, source, penalty, now, rnd);
      if !env.routable(addr.service.net) { return false; }
      var found, id := Find(addr.service.net);
      if found {
        ghost var info := Refresh(mapInfo[id], addr, penalty, now);
        assert info == mapInfo[id].(addr := info.addr) && info.addr.service == mapInfo[id].addr.service by {
          RefreshShape(mapInfo[id], addr, penalty, now);
        }
        RefreshCanList(s, id, info);
        var wanted := RefreshEntry(id, addr, penalty, now, rnd);
        if !wanted { return false; }
      } else {
        AddNewCanList(s, addr, source, penalty);
        AddNewService(s, addr, source, penalty);
        id := CreateEntry(addr, source, penalty);
      }
      var b := NewBucket(St(), mapInfo[id].addr.service.net, source);
      ListIn(id, b, now, rnd);
      return !found;
    }

    /** The end of Add_: one more reference, making room in the bucket first if it is full. */
    method ListIn(id: Id, b: nat, now: int, rnd: Draws)
      requires CanList(St(), id) && b < |vvNew|
      modifies this
      ensures St() == List(old(St()), b, id, now, rnd)
    {
      hide MapOk, RandOk, NewOk, Shrink;
      if id !in vvNew[b] {
        RaiseCanShrink(St(), b, id);
        mapInfo := mapInfo[id := mapInfo[id].(refCount := mapInfo[id].refCount + 1)];
        if |vvNew[b]| == NEW_BUCKET_SIZE {
          ShrinkShape(St(), b, now, rnd);
          var r := ShrinkNew(b, now, rnd);
        }
        vvNew := vvNew[b := vvNew[b] + {id}];
      }
    }

    method Doubled(n: int) returns (factor: nat)
      ensures factor == Pow2(n)
    {
      factor := 1;
      var i := 0;
      while i < n
        invariant n <= 0 || 0 <= i <= n
        invariant n <= 0 ==> i == 0
        invariant factor == Pow2(i)
      {
        factor := factor * 2;
        i := i + 1;
      }
    }

    method Attempt_(svc: Service, time: int)
      requires Valid()
      modifies this
      ensures St() == Attempt(old(St()), svc, time) && Attempted(old(St()), St(), svc, time)
      ensures Valid() <==> time >= 0 || !Matches(old(St()), svc)
    {
      hide MapOk, RandOk, TriedOk, NewOk, EntriesOk, CountOk, Attempted;
      AttemptKeeps(St(), svc, time);
      AttemptDoes(St(), svc, time);
      var found, id := Find(svc.net);
      if !found || mapInfo[id].addr.service != svc { return; }
      mapInfo := mapInfo[id := mapInfo[id].(addr := mapInfo[id].addr.(lastTry := time))];
      mapInfo := mapInfo[id := mapInfo[id].(attempts := mapInfo[id].attempts + 1)];
    }

    method Connected_(svc: Service, time: int)
      requires Valid()
      modifies this
      ensures Valid() && St() == Connected(old(St()), svc, time) && Heard(old(St()), St(), svc, time)
    {
      hide MapOk, RandOk, TriedOk, NewOk, EntriesOk, CountOk, Heard;
      ConnectedDoes(St(), svc, time);
      ConnectedKeeps(St(), svc, time);
      var found, id := Find(svc.net);
      if !found || mapInfo[id].addr.service != svc { return; }
      if time - mapInfo[id].addr.time > 20 * 60 {
        mapInfo := mapInfo[id := mapInfo[id].(addr := mapInfo[id].addr.(time := U32(time)))];
      }
    }

    method GetAddr_(rnd: Draws) returns (vAddr: seq<Address>)
      requires Valid()
      modifies this
      ensures Valid() && GetAddrCount(|old(vRandom)|) <= |vRandom| == |old(vRandom)|
      ensures St() == Shuffle(old(St()), 0, GetAddrCount(|old(vRandom)|), rnd)
      ensures vAddr == Front(St(), GetAddrCount(|old(vRandom)|))
      ensures Share(|vAddr|, |old(vRandom)|)
    {
      hide Inv, RandOk, Swap, Shuffle, Front, RandInt, GetAddrCount, Share;
      ghost var s := St();
      CountBounds(|vRandom|);
      InvRandOk(s);
      FrontEmpty(s);
      var nNodes := GetAddrCount(|vRandom|);
      GetAddrKeeps(s, rnd);
      ShuffleShape(s, 0, nNodes, rnd);
      ghost var last := Shuffle(s, 0, nNodes, rnd);
      vAddr := [];
      var n := 0;
      while n < nNodes
        invariant 0 <= n <= nNodes <= |vRandom| == |s.vRandom| && RandOk(St())
        invariant Shuffle(St(), n, nNodes, rnd) == last
        invariant vAddr == Front(St(), n)
      {
        var p: nat := RandInt(rnd(n), |vRandom| - n) + n;
        FrontAfterSwap(St(), n, p);
        ShuffleStep(St(), n, nNodes, rnd);
        SwapRandom(n, p);
        vAddr := vAddr + [mapInfo[vRandom[n]].addr];
        n := n + 1;
      }
      ShuffleDone(St(), nNodes, rnd);
      assert |Front(St(), nNodes)| == nNodes by { FrontSize(St(), nNodes); }
    }

    /** Zero exactly when every test passes; reading a missing key of mapAddr inserts it. */
    method Check_() returns (err: int)
      modifies this
      ensures err == 0 <==> Passes(old(St()))
      ensures old(Valid()) ==> err == 0 && St() == old(St())
    {
      hide MapOk, RandOk, TriedOk, NewOk, EntriesOk, CountOk, Passes;
      ghost var s := St();
      if Valid() { InvPasses(s); InvListed(s); }
      PassesMeans(s);
      if |vRandom| != nTried + nNew { return -7; }
      var tried, counts;
      err, mapAddr, tried, counts := CheckEntries(mapInfo, mapAddr, vRandom);
      if err != 0 { return; }
      if |tried| != nTried { return -9; }
      CountsSize(mapInfo);
      if |counts| != nNew { return -10; }
      var okTried, setTried := CheckTried(vvTried, tried);
      if !okTried { return -11; }
      var okNew, mapNew := CheckNew(vvNew, counts);
      if !okNew { return -12; }
      if |setTried| != 0 { return -13; }
      if |mapNew| != 0 { return -15; }
    }

    // ---- The serializer

    method Write() returns (out: seq<Token>)
      requires Valid()
      ensures NewOk(St()) && out == Print(Save(St())) && Laid(St(), out)
    {
      var s := St();
      EntriesNew(s);
      FilterSorted(mapInfo);
      NewOrderHolds(s);
      SavePrinted(s);
      WrittenLaid(s);
      hide Laid, Inv, Sorted, PrintInfos, PrintBuckets, Packs, Filter, Numbered, Indices, NoDup, NewOk, Save, BucketLists;
      var ids := Sorted(mapInfo.Keys);
      var news, mapUnkIds := PrintUntried(mapInfo, ids, nNew);
      var trieds := PrintTried(mapInfo, ids, nTried);
      var refs := PrintRefs(mapUnkIds, Filter(mapInfo, ids, false), vvNew);
      out := [TByte(0), TKey(nKey), TInt(nNew), TInt(nTried), TInt(NEW_BUCKET_COUNT)];
      out := out + news + trieds + refs;
    }

    /** Read a stream into this object. If the stream ends early or holds the wrong kind of item, the outcome is false
        and the contents are unspecified. */
    method Read(ts: seq<Token>) returns (ok: bool, pos: nat)
      modifies this
      ensures ok <==> Parse(ts).Parsed?
      ensures ok ==> pos == Parse(ts).pos && St() == Load(env, Parse(ts).value)
      ensures ok && |Parse(ts).value.buckets| == NEW_BUCKET_COUNT ==> Taken(St(), Parse(ts).value)
    {
      if Parse(ts).Parsed? && |Parse(ts).value.buckets| == NEW_BUCKET_COUNT { StreamTaken(env, ts); }
      pos := 0;
      if !HeaderShape(ts) { return false, 0; }
      nKey, nNew, nTried := ts[1].key, ts[2].n, ts[3].n;
      var nUBuckets := ts[4].n;
      nIdCount := 0;
      mapInfo, mapAddr, vRandom := map[], map[], [];
      vvTried := seq(TRIED_BUCKET_COUNT, _ => []);
      vvNew := seq(NEW_BUCKET_COUNT, _ => {});
      ParseStages(ts, env);
      assert St() == Start(env, ts);
      hide ParseInfos, ParseBuckets, NewsAs, LoadTrieds, BucketsAs, Parse, Load, Start, Taken;
      ok, pos := ReadNews(ts, 5, nUBuckets == NEW_BUCKET_COUNT);
      if !ok { return; }
      nIdCount := nNew;
      ok, pos := ReadTrieds(ts, pos);
      if !ok { return; }
      ok, pos := ReadBuckets(ts, pos, nUBuckets);
    }

    method ReadNews(ts: seq<Token>, start: nat, same: bool) returns (ok: bool, pos: nat)
      requires |vvNew| == NEW_BUCKET_COUNT
      modifies this
      ensures nTried == old(nTried) && nNew == old(nNew)
      ensures ok <==> ParseInfos(ts, start, old(nNew)).Parsed?
      ensures ok ==> var p := ParseInfos(ts, start, old(nNew)); pos == p.pos && St() == NewsAs(old(St()), p.value, same)
    {
      hide ParseInfos, NewsAs, PlaceNew, NewBucket;
      pos := start;
      ghost var s, ds: seq<Disk> := St(), [];
      var n := 0;
      InfosNone(ts, start, 0);
      if nNew < 0 { InfosNone(ts, start, nNew); }
      NewsAsNone(s, same);
      while n < nNew
        invariant 0 <= n && (nNew >= 0 ==> n <= nNew) && (nNew < 0 ==> n == 0) && nNew == old(nNew) && nTried == old(nTried)
        invariant ParseInfos(ts, start, n) == Parsed(ds, pos) && |ds| == n
        invariant |vvNew| == NEW_BUCKET_COUNT && St() == NewsAs(s, ds, same)
      {
        InfosNext(ts, start, n, ds, pos);
        if pos >= |ts| || !ts[pos].TInfo? {
          InfosStayBad(ts, start, n + 1, nNew);
          return false, pos;
        }
        var d := ts[pos].info;
        NewsAsNext(s, ds, d, same);
        ReadOneNew(d, n, same);
        ds := ds + [d];
        pos := pos + 1;
        n := n + 1;
      }
      return true, pos;
    }

    /** One untried entry; without a bucket list to go by it is put into its own bucket. */
    method ReadOneNew(d: Disk, n: nat, same: bool)
      requires |vvNew| == NEW_BUCKET_COUNT
      modifies this
      ensures |vvNew| == NEW_BUCKET_COUNT && nNew == old(nNew) && nTried == old(nTried)
      ensures var e := Enter(old(St()), d, Id(n), false); St() == if same then e else PlaceNew(e, Id(n))
    {
      hide NewBucket, PlaceNew;
      mapInfo := mapInfo[Id(n) := Unpack(d)];
      mapAddr := mapAddr[d.service.net := Id(n)];
      mapInfo := mapInfo[Id(n) := mapInfo[Id(n)].(randomPos := |vRandom|)];
      vRandom := vRandom + [Id(n)];
      ghost var e := Enter(old(St()), d, Id(n), false);
      assert e.mapInfo == mapInfo;
      hide Enter, Unpack;
      if !same {
        PlaceRead(Id(n));
      }
    }

    method PlaceRead(id: Id)
      requires id in mapInfo && |vvNew| == NEW_BUCKET_COUNT
      modifies this
      ensures |vvNew| == NEW_BUCKET_COUNT && nNew == old(nNew) && nTried == old(nTried)
      ensures St() == PlaceNew(old(St()), id)
    {
      var info := mapInfo[id];
      var b := NewBucket(St(), info.addr.service.net, info.source);
      vvNew := vvNew[b := vvNew[b] + {id}];
      mapInfo := mapInfo[id := info.(refCount := info.refCount + 1)];
    }

    method ReadTrieds(ts: seq<Token>, start: nat) returns (ok: bool, pos: nat)
      modifies this
      ensures ok <==> ParseInfos(ts, start, old(nTried)).Parsed?
      ensures ok ==> var p := ParseInfos(ts, start, old(nTried)); pos == p.pos && St() == LoadTrieds(old(St()), p.value)
    {
      pos := start;
      ghost var s, ds: seq<Disk> := St(), [];
      var n, nLost := 0, 0;
      InfosNone(ts, start, 0);
      if nTried < 0 { InfosNone(ts, start, nTried); }
      TriedsNone(s);
      hide ParseInfos, LoadTrieds, LoadTried;
      while n < nTried
        invariant 0 <= n && (nTried >= 0 ==> n <= nTried) && (nTried < 0 ==> n == 0) && nTried == old(nTried)
        invariant ParseInfos(ts, start, n) == Parsed(ds, pos) && |ds| == n
        invariant St() == LoadTrieds(s, ds).(nTried := nTried) && LoadTrieds(s, ds).nTried == nTried - nLost
      {
        InfosNext(ts, start, n, ds, pos);
        if pos >= |ts| || !ts[pos].TInfo? {
          InfosStayBad(ts, start, n + 1, nTried);
          return false, pos;
        }
        var d := ts[pos].info;
        TriedsNext(s, ds, d);
        var more := ReadOneTried(d, LoadTrieds(s, ds));
        if !more { nLost := nLost + 1; }
        ds := ds + [d];
        pos := pos + 1;
        n := n + 1;
      }
      nTried := nTried - nLost;
      return true, pos;
    }

    /** One tried entry; `t` is the state with the count already lowered for the entries lost so far. */
    method ReadOneTried(d: Disk, ghost t: State) returns (room: bool)
      requires St() == t.(nTried := nTried)
      modifies this
      ensures nTried == old(nTried) && St() == LoadTried(t, d).(nTried := nTried)
      ensures LoadTried(t, d).nTried == if room then t.nTried else t.nTried - 1
    {
      var info := Unpack(d);
      var kb := TriedBucket(St(), d.service);
      assert TriedBucket(t, d.service) == kb;
      if kb < |vvTried| && |vvTried[kb]| < TRIED_BUCKET_SIZE {
        info := info.(randomPos := |vRandom|, inTried := true);
        vRandom := vRandom + [Id(nIdCount)];
        mapInfo := mapInfo[Id(nIdCount) := info];
        mapAddr := mapAddr[d.service.net := Id(nIdCount)];
        vvTried := vvTried[kb := vvTried[kb] + [Id(nIdCount)]];
        nIdCount := nIdCount + 1;
        return true;
      }
      return false;
    }

    method ReadBuckets(ts: seq<Token>, start: nat, count: int) returns (ok: bool, pos: nat)
      modifies this
      ensures var n := if count < 0 then 0 else count;
              && (ok <==> ParseBuckets(ts, start, n).Parsed?)
              && (ok ==> var p := ParseBuckets(ts, start, n);
                         pos == p.pos && St() == BucketsAs(old(St()), p.value, count == NEW_BUCKET_COUNT))
    {
      hide BucketsAs, RefsAs, ParseInts;
      pos := start;
      var same := count == NEW_BUCKET_COUNT;
      ghost var s, bs: seq<seq<int>>, m := St(), [], if count < 0 then 0 else count;
      RefsNone(s, 0, same);
      var b := 0;
      while b < count
        invariant 0 <= b && (count >= 0 ==> b <= count) && (count < 0 ==> b == 0)
        invariant ParseBuckets(ts, start, b) == Parsed(bs, pos) && |bs| == b
        invariant St() == BucketsAs(s, bs, same)
      {
        if pos >= |ts| || !ts[pos].TInt? {
          BucketsStayBad(ts, start, b + 1, m);
          return false, pos;
        }
        ghost var p := pos + 1;
        ok, pos := ReadRefs(ts, pos + 1, b, ts[pos].n, same);
        if !ok {
          BucketsStayBad(ts, start, b + 1, m);
          return;
        }
        ghost var ns := ParseInts(ts, p, ts[p - 1].n).value;
        MoreBuckets(s, bs, ns, same);
        bs := bs + [ns];
        b := b + 1;
      }
      return true, pos;
    }

    /** One reference; an unknown id is entered by the map's own operator. */
    method ReadOneRef(b: nat, n: int, same: bool)
      modifies this
      ensures St() == RefAs(old(St()), b, n, same)
    {
      var id := Id(n);
      if id !in mapInfo { mapInfo := mapInfo[id := DEFAULT_INFO]; }
      var info := mapInfo[id];
      if same && info.refCount < NEW_BUCKETS_PER_ADDRESS && b < |vvNew| {
        mapInfo := mapInfo[id := info.(refCount := info.refCount + 1)];
        vvNew := vvNew[b := vvNew[b] + {id}];
      }
    }

    method ReadRefs(ts: seq<Token>, start: nat, b: nat, nSize: int, same: bool) returns (ok: bool, pos: nat)
      modifies this
      ensures ok <==> ParseInts(ts, start, nSize).Parsed?
      ensures ok ==> var p := ParseInts(ts, start, nSize); pos == p.pos && St() == RefsAs(old(St()), b, p.value, same)
    {
      hide ParseInts, RefsAs, RefAs;
      pos := start;
      ghost var s, ns: seq<int> := St(), [];
      var n := 0;
      IntsNone(ts, start, 0);
      if nSize < 0 { IntsNone(ts, start, nSize); }
      RefsNone(s, b, same);
      while n < nSize
        invariant 0 <= n && (nSize >= 0 ==> n <= nSize) && (nSize < 0 ==> n == 0)
        invariant ParseInts(ts, start, n) == Parsed(ns, pos) && |ns| == n
        invariant St() == RefsAs(s, b, ns, same)
      {
        IntsNext(ts, start, n, ns, pos);
        if pos >= |ts| || !ts[pos].TInt? {
          IntsStayBad(ts, start, n + 1, nSize);
          return false, pos;
        }
        RefsNext(s, b, ns, ts[pos].n, same);
        ReadOneRef(b, ts[pos].n, same);
        ns := ns + [ts[pos].n];
        pos := pos + 1;
        n := n + 1;
      }
      return true, pos;
    }
  }
}
