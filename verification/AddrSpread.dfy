/** How far the addresses of one network group, and those told by one, can spread over the tables. */
module AddrSpread {
  import opened OrderedSet
  import opened AddrState
  import opened AddrOps
  import opened AddrInvariant
  import opened AddrTried
  import opened AddrRuns
  import opened AddrStream
  import opened AddrRoundTrip
  import opened AddrLife

  /** The `i`-th tried bucket of a group. */
  function GroupBucket(s: State, g: seq<nat>, i: nat): (b: nat)
    ensures b < TRIED_BUCKET_COUNT
  {
    s.env.hash([s.key, g, [i]]) % TRIED_BUCKET_COUNT
  }

  /** The `i`-th new bucket of a source group. */
  function SourceBucket(s: State, g: seq<nat>, i: nat): (b: nat)
    ensures b < NEW_BUCKET_COUNT
  {
    s.env.hash([s.key, g, [i]]) % NEW_BUCKET_COUNT
  }

  // ---- Tried buckets

  /** Whatever port and address, a service lies in one of its group's four tried buckets. */
  lemma TriedSpread(s: State, svc: Service) returns (i: nat)
    ensures i < TRIED_BUCKETS_PER_GROUP && TriedBucket(s, svc) == GroupBucket(s, s.env.group(svc.net), i)
  {
    i := s.env.hash([s.key, s.env.keyBytes(svc)]) % TRIED_BUCKETS_PER_GROUP;
  }

  /** The tried entries of one group. */
  ghost function TriedOf(s: State, g: seq<nat>): set<Id> {
    set id | id in s.mapInfo && s.mapInfo[id].inTried && s.env.group(s.mapInfo[id].addr.service.net) == g
  }

  /** What the first `n` tried buckets of a group hold. */
  ghost function GroupMembers(s: State, g: seq<nat>, n: nat): set<Id>
    requires |s.vvTried| == TRIED_BUCKET_COUNT
  {
    if n == 0 then {} else GroupMembers(s, g, n - 1) + Members(s.vvTried[GroupBucket(s, g, n - 1)])
  }

  lemma {:induction false} InGroup(s: State, g: seq<nat>, n: nat, i: nat, id: Id)
    requires |s.vvTried| == TRIED_BUCKET_COUNT && i < n && id in s.vvTried[GroupBucket(s, g, i)]
    ensures id in GroupMembers(s, g, n)
  {
    hide GroupBucket;
    if i < n - 1 { InGroup(s, g, n - 1, i, id); }
  }

  lemma {:induction false} GroupSize(s: State, g: seq<nat>, n: nat)
    requires |s.vvTried| == TRIED_BUCKET_COUNT
    requires forall b :: 0 <= b < |s.vvTried| ==> |s.vvTried[b]| <= TRIED_BUCKET_SIZE
    ensures |GroupMembers(s, g, n)| <= n * TRIED_BUCKET_SIZE
  {
    hide GroupBucket, Members;
    if n > 0 {
      GroupSize(s, g, n - 1);
      AtMostSum(GroupMembers(s, g, n - 1), Members(s.vvTried[GroupBucket(s, g, n - 1)]));
    }
  }

  lemma AtMostSum(a: set<Id>, b: set<Id>)
    ensures |a + b| <= |a| + |b|
  {
    assert a + b == a + (b - a);
  }

  /** No group can fill the tried table: in a consistent state at most 4 * 64 of its 4096 places are one group's. */
  lemma GroupBound(s: State, g: seq<nat>)
    requires Inv(s)
    ensures |TriedOf(s, g)| <= TRIED_BUCKETS_PER_GROUP * TRIED_BUCKET_SIZE
  {
    hide MapOk, RandOk, NewOk, EntriesOk, CountOk;
    var all := GroupMembers(s, g, TRIED_BUCKETS_PER_GROUP);
    forall id | id in TriedOf(s, g) ensures id in all {
      var svc := s.mapInfo[id].addr.service;
      var i := TriedSpread(s, svc);
      assert id in s.vvTried[TriedBucket(s, svc)];
      InGroup(s, g, TRIED_BUCKETS_PER_GROUP, i, id);
    }
    SubsetSize(TriedOf(s, g), all);
    GroupSize(s, g, TRIED_BUCKETS_PER_GROUP);
  }

  /** And so over every life. */
  lemma EveryLifeSpread(env: Env, key: seq<nat>, evs: seq<Event>, g: seq<nat>)
    requires AllAllowed(evs)
    ensures Inv(Init(env, key))
    ensures |TriedOf(Life(Init(env, key), evs), g)| <= 256
  {
    InitInv(env, key);
    GroupBound(Life(Init(env, key), evs), g);
  }

  // ---- New buckets

  /** Groups of sources, as the environment tells them apart. */
  datatype Tellers = Tellers(env: Env, gs: seq<seq<nat>>)

  /** The source belongs to one of the groups. */
  ghost predicate Sourced(ts: Tellers, source: NetAddr) {
    exists j :: 0 <= j < |ts.gs| && ts.env.group(source) == ts.gs[j]
  }

  /** One of the thirty-two new buckets of one of the groups. */
  ghost predicate Listable(s: State, ts: Tellers, b: int) {
    exists j: nat, i: nat :: j < |ts.gs| && i < NEW_BUCKETS_PER_SOURCE_GROUP && b == SourceBucket(s, ts.gs[j], i)
  }

  /** Only such buckets hold anything, and every entry came from such a source. */
  ghost predicate Inside(s: State, ts: Tellers) {
    && s.env == ts.env
    && (forall b :: 0 <= b < |s.vvNew| && s.vvNew[b] != {} ==> Listable(s, ts, b))
    && (forall id :: id in s.mapInfo ==> Sourced(ts, s.mapInfo[id].source))
  }

  /** Whatever it tells of, a source puts it into one of its own group's thirty-two new buckets. */
  lemma NewSpread(s: State, ts: Tellers, a: NetAddr, source: NetAddr)
    requires s.env == ts.env && Sourced(ts, source)
    ensures Listable(s, ts, NewBucket(s, a, source))
  {
    var j: nat :| j < |ts.gs| && ts.env.group(source) == ts.gs[j];
    var i := s.env.hash([s.key, s.env.group(a), s.env.group(source)]) % NEW_BUCKETS_PER_SOURCE_GROUP;
    assert NewBucket(s, a, source) == SourceBucket(s, ts.gs[j], i);
  }

  /** No bucket is filled and no source changes on the way from `s` to `t`. */
  ghost predicate Narrower(s: State, t: State) {
    && t.env == s.env && t.key == s.key && |t.vvNew| == |s.vvNew|
    && (forall b :: 0 <= b < |t.vvNew| && t.vvNew[b] != {} ==> s.vvNew[b] != {})
    && (forall id :: id in t.mapInfo ==> id in s.mapInfo && t.mapInfo[id].source == s.mapInfo[id].source)
  }

  lemma ListableFrame(s: State, t: State, ts: Tellers, b: int)
    requires t.env == s.env && t.key == s.key && Listable(s, ts, b)
    ensures Listable(t, ts, b)
  {
    var j: nat, i: nat :| j < |ts.gs| && i < NEW_BUCKETS_PER_SOURCE_GROUP && b == SourceBucket(s, ts.gs[j], i);
    assert b == SourceBucket(t, ts.gs[j], i);
  }

  lemma Narrows(s: State, t: State, ts: Tellers)
    requires Inside(s, ts) && Narrower(s, t)
    ensures Inside(t, ts)
  {
    hide Listable;
    forall b | 0 <= b < |t.vvNew| && t.vvNew[b] != {} ensures Listable(t, ts, b) { ListableFrame(s, t, ts, b); }
  }

  lemma InsertInside(s: State, ts: Tellers, b: int, id: Id)
    requires Inside(s, ts) && 0 <= b < |s.vvNew| && Listable(s, ts, b)
    ensures Inside(Insert(s, b, id), ts)
  {
    hide Listable;
    var t := Insert(s, b, id);
    forall c | 0 <= c < |t.vvNew| && t.vvNew[c] != {} ensures Listable(t, ts, c) { ListableFrame(s, t, ts, c); }
  }

  // ---- Add_

  lemma MakeRoomInside(s: State, ts: Tellers, b: int, now: int, rnd: Draws)
    requires Inside(s, ts) && 0 <= b < |s.vvNew| && (|s.vvNew[b]| == NEW_BUCKET_SIZE ==> CanShrink(s, b))
    ensures Inside(MakeRoom(s, b, now, rnd), ts) && |MakeRoom(s, b, now, rnd).vvNew| == |s.vvNew|
    ensures MakeRoom(s, b, now, rnd).env == s.env && MakeRoom(s, b, now, rnd).key == s.key
  {
    hide Inside, Victim, MapOk, RandOk;
    if |s.vvNew[b]| == NEW_BUCKET_SIZE {
      var v := Victim(s, b, now, rnd);
      VictimInBucket(s, b, now, rnd);
      DropRefDropped(s, b, v);
      hide DropRef;
      Narrows(s, MakeRoom(s, b, now, rnd), ts);
    }
  }

  lemma ListInside(s: State, ts: Tellers, b: int, id: Id, now: int, rnd: Draws)
    requires CanList(s, id) && 0 <= b < |s.vvNew| && Inside(s, ts) && Listable(s, ts, b)
    ensures Inside(List(s, b, id, now, rnd), ts)
  {
    if id !in s.vvNew[b] {
      RaiseCanShrink(s, b, id);
      hide Inside, Listable, MakeRoom, CanShrink, CanList;
      var r := Raise(s, id);
      Narrows(s, r, ts);
      MakeRoomInside(r, ts, b, now, rnd);
      ListableFrame(s, MakeRoom(r, b, now, rnd), ts, b);
      InsertInside(MakeRoom(r, b, now, rnd), ts, b, id);
    }
  }

  lemma UpdateNarrower(s: State, id: Id, info: Info)
    requires id in s.mapInfo && info.source == s.mapInfo[id].source
    ensures Narrower(s, Update(s, id, info)) && Update(s, id, info).vvNew == s.vvNew
  {
  }

  lemma NarrowerKey(s: State, t: State)
    requires Narrower(s, t)
    ensures t.env == s.env && t.key == s.key && |t.vvNew| == |s.vvNew|
  {
  }

  lemma AddKnownInside(s: State, ts: Tellers, addr: Address, source: NetAddr, penalty: int, now: int, rnd: Draws)
    requires Inv(s) && Inside(s, ts) && Sourced(ts, source) && Known(s, addr.service.net)
    ensures Inside(AddKnown(s, addr, source, penalty, now, rnd), ts)
  {
    assert s.env == ts.env;
    hide MapOk, RandOk, NewOk, TriedOk, EntriesOk, CountOk, Inside, Listable, Sourced, Wanted, List, CanList, NewBucket, Refresh,
      Update, Narrower;
    var id := s.mapAddr[addr.service.net];
    var info := Refresh(s.mapInfo[id], addr, penalty, now);
    RefreshShape(s.mapInfo[id], addr, penalty, now);
    var t := Update(s, id, info);
    UpdateNarrower(s, id, info);
    Narrows(s, t, ts);
    NarrowerKey(s, t);
    if Wanted(info, addr, rnd(0)) {
      RefreshCanList(s, id, info);
      NewSpread(s, ts, info.addr.service.net, source);
      var b := NewBucket(s, info.addr.service.net, source);
      ListableFrame(s, t, ts, b);
      BucketCount(s);
      ListInside(t, ts, b, id, now, rnd);
    }
  }

  lemma AddNewInside(s: State, ts: Tellers, addr: Address, source: NetAddr, penalty: int)
    requires Inside(s, ts) && Sourced(ts, source)
    ensures var t := AddNew(s, addr, source, penalty);
            Inside(t, ts) && t.env == s.env && t.key == s.key && |t.vvNew| == |s.vvNew|
  {
    hide Listable, Sourced;
    var t := AddNew(s, addr, source, penalty);
    forall b | 0 <= b < |t.vvNew| && t.vvNew[b] != {} ensures Listable(t, ts, b) { ListableFrame(s, t, ts, b); }
  }

  lemma AddInside(s: State, ts: Tellers, addr: Address, source: NetAddr, penalty: int, now: int, rnd: Draws)
    requires Inv(s) && Inside(s, ts) && Sourced(ts, source)
    ensures Inside(Add(s, addr, source, penalty, now, rnd).0, ts)
  {
    assert s.env == ts.env;
    hide MapOk, RandOk, NewOk, TriedOk, EntriesOk, CountOk, Inside, Listable, Sourced, List, CanList, NewBucket, AddNew, AddKnown;
    if s.env.routable(addr.service.net) {
      if Known(s, addr.service.net) {
        AddKnownInside(s, ts, addr, source, penalty, now, rnd);
      } else {
        AddNewCanList(s, addr, source, penalty);
        AddNewInside(s, ts, addr, source, penalty);
        NewSpread(s, ts, addr.service.net, source);
        var t, b := AddNew(s, addr, source, penalty), NewBucket(s, addr.service.net, source);
        ListableFrame(s, t, ts, b);
        BucketCount(s);
        ListInside(t, ts, b, Id(s.idCount), now, rnd);
      }
    }
  }

  // ---- Good_

  lemma EvictInside(s: State, ts: Tellers, id: Id, kb: int, q: seq<Id>, pos: int, origin: int)
    requires 0 <= kb < |s.vvTried| && 0 <= pos < |q| && 0 <= origin < |s.vvNew| == NEW_BUCKET_COUNT
    requires id in s.mapInfo && q[pos] in s.mapInfo && Inside(s, ts) && Listable(s, ts, origin)
    ensures Inside(Evict(s, id, kb, q, pos, origin), ts)
  {
    hide Listable, Sourced, NewBucket;
    var info := s.mapInfo[q[pos]];
    NewSpread(s, ts, info.addr.service.net, info.source);
    var t := Evict(s, id, kb, q, pos, origin);
    forall b | 0 <= b < |t.vvNew| && t.vvNew[b] != {} ensures Listable(t, ts, b) { ListableFrame(s, t, ts, b); }
  }

  lemma UnlistInside(s: State, ts: Tellers, id: Id)
    requires id in s.mapInfo && Inside(s, ts)
    ensures Inside(Unlist(s, id), ts)
  {
    var u := Unlist(s, id);
    assert forall b :: 0 <= b < |u.vvNew| && u.vvNew[b] != {} ==> s.vvNew[b] != {};
    hide Inside;
    Narrows(s, u, ts);
  }

  lemma MakeTriedInside(s: State, ts: Tellers, id: Id, origin: int, rnd: Draws)
    requires CanMakeTried(s, id, origin) && Inside(s, ts)
    ensures Inside(MakeTried(s, id, origin, rnd), ts)
  {
    assert Listable(s, ts, origin) by { assert s.vvNew[origin] != {}; }
    hide Inside, Listable, TriedBucket, SelectTried, Perm;
    var u := Unlist(s, id);
    UnlistInside(s, ts, id);
    var kb := TriedBucket(s, s.mapInfo[id].addr.service);
    if |u.vvTried[kb]| < TRIED_BUCKET_SIZE {
      Narrows(u, MakeTried(s, id, origin, rnd), ts);
    } else {
      SelectTriedChoice(u.mapInfo, u.vvTried[kb], rnd);
      var (q, pos) := SelectTried(u.mapInfo, u.vvTried[kb], rnd);
      ListableFrame(s, u, ts, origin);
      EvictInside(u, ts, id, kb, q, pos, origin);
    }
  }

  lemma GoodInside(s: State, ts: Tellers, svc: Service, time: int, rnd: Draws)
    requires Inv(s) && Sound(s) && Inside(s, ts)
    ensures Inside(Good(s, svc, time, rnd), ts)
  {
    hide MapOk, RandOk, NewOk, TriedOk, EntriesOk, CountOk, Inside, MakeTried, FindBucket, RandInt;
    if Matches(s, svc) {
      var id := s.mapAddr[svc.net];
      var t := Update(s, id, Touch(s.mapInfo[id], time));
      Narrows(s, t, ts);
      if !s.mapInfo[id].inTried {
        var b := FindBucket(t.vvNew, id, RandInt(rnd(0), |t.vvNew|), 0);
        if b != -1 { MakeTriedInside(t, ts, id, b, rnd); }
      }
    }
  }

  // ---- The other events

  lemma {:induction false} ShuffleInside(s: State, ts: Tellers, n: nat, count: nat, rnd: Draws)
    requires RandOk(s) && count <= |s.vRandom| && Inside(s, ts)
    ensures Inside(Shuffle(s, n, count, rnd), ts)
    decreases count - n
  {
    hide RandOk, Swap, RandInt, Inside;
    if n < count {
      var p: nat := RandInt(rnd(n), |s.vRandom| - n) + n;
      SwapShape(s, n, p);
      SwapRandOk(s, n, p);
      Narrows(s, Swap(s, n, p), ts);
      ShuffleInside(Swap(s, n, p), ts, n + 1, count, rnd);
    }
  }

  lemma MarkInside(s: State, ts: Tellers, svc: Service, time: int)
    requires Inside(s, ts)
    ensures Inside(Attempt(s, svc, time), ts) && Inside(Connected(s, svc, time), ts)
  {
    hide Inside;
    Narrows(s, Attempt(s, svc, time), ts);
    Narrows(s, Connected(s, svc, time), ts);
  }

  lemma ReloadInside(s: State, ts: Tellers)
    requires Inv(s) && Inside(s, ts)
    ensures Inside(Load(s.env, Save(s)), ts)
  {
    var n, order, t := |NewOrder(s)|, Order(s), Load(s.env, Save(s));
    hide MapOk, RandOk, TriedOk, EntriesOk, CountOk, NewOk, NewOrder, Order, Save, Load;
    LoadSaved(s);
    MirrorStands(s, order, n, t);
    MirrorCopies(s, order, n, t);
    MirrorCounts(s, order, n, t);
    MirrorEnv(s, order, n, t);
    hide Mirror, Listable, Sourced;
    forall b | 0 <= b < |t.vvNew| && t.vvNew[b] != {} ensures Listable(t, ts, b) {
      var x :| x in t.vvNew[b];
      assert Stands(order, x, s.vvNew[b]);
      ListableFrame(s, t, ts, b);
    }
    forall x | x in t.mapInfo ensures Sourced(ts, t.mapInfo[x].source) {
      CopySource(s.mapInfo[order[x.n]], x.n, t.mapInfo[x].refCount);
    }
  }

  lemma MirrorEnv(s: State, order: seq<Id>, n: nat, t: State)
    requires Mirror(s, order, n, t)
    ensures t.env == s.env
  {
  }

  lemma CopySource(info: Info, k: int, refs: int)
    ensures Copy(info, k, refs).source == info.source
  {
  }

  /** The addresses added were told by sources of these groups. */
  ghost predicate AddsFrom(ts: Tellers, ev: Event) {
    match ev
    case Call(OpAdd(_, source, _, _, _)) => Sourced(ts, source)
    case _ => true
  }

  lemma InvParts(s: State)
    requires Inv(s)
    ensures MapOk(s) && RandOk(s) && NewOk(s) && Sound(s) && GetAddrCount(|s.vRandom|) <= |s.vRandom|
  {
  }

  lemma LiveInside(s: State, ts: Tellers, ev: Event)
    requires Inv(s) && Allowed(ev) && Inside(s, ts) && AddsFrom(ts, ev)
    ensures Inside(Live(s, ev), ts)
  {
    hide Inv, Inside, MapOk, RandOk, NewOk, Sound, Add, Good, Attempt, Connected, Shuffle, Load, Save, GetAddrCount, Legal;
    InvParts(s);
    match ev
    case Call(OpAdd(addr, source, penalty, now, rnd)) => AddInside(s, ts, addr, source, penalty, now, rnd);
    case Call(OpGood(svc, time, rnd)) => GoodInside(s, ts, svc, time, rnd);
    case Call(OpAttempt(svc, time)) => MarkInside(s, ts, svc, time);
    case Call(OpConnected(svc, time)) => MarkInside(s, ts, svc, time);
    case Call(OpGetAddr(rnd)) => ShuffleInside(s, ts, 0, GetAddrCount(|s.vRandom|), rnd);
    case Reload => ReloadInside(s, ts);
  }

  lemma {:induction false} LifeInside(key: seq<nat>, ts: Tellers, evs: seq<Event>)
    requires Inv(Init(ts.env, key)) && AllAllowed(evs) && forall k :: 0 <= k < |evs| ==> AddsFrom(ts, evs[k])
    ensures Inside(Life(Init(ts.env, key), evs), ts)
    decreases |evs|
  {
    hide Inv, Inside, Live, AddsFrom, Allowed;
    if evs == [] {
      InitInside(key, ts);
    } else {
      LifeInside(key, ts, evs[..|evs| - 1]);
      LiveInside(Life(Init(ts.env, key), evs[..|evs| - 1]), ts, evs[|evs| - 1]);
    }
  }

  lemma InitInside(key: seq<nat>, ts: Tellers)
    ensures Inside(Init(ts.env, key), ts)
  {
  }

  // ---- How many addresses that leaves room for

  /** What the first `n` new buckets of a source group hold. */
  ghost function SourceMembers(s: State, g: seq<nat>, n: nat): set<Id>
    requires |s.vvNew| == NEW_BUCKET_COUNT
  {
    if n == 0 then {} else SourceMembers(s, g, n - 1) + s.vvNew[SourceBucket(s, g, n - 1)]
  }

  ghost function AllMembers(s: State, gs: seq<seq<nat>>): set<Id>
    requires |s.vvNew| == NEW_BUCKET_COUNT
  {
    if gs == [] then {}
    else AllMembers(s, gs[..|gs| - 1]) + SourceMembers(s, gs[|gs| - 1], NEW_BUCKETS_PER_SOURCE_GROUP)
  }

  lemma {:induction false} SourceSize(s: State, g: seq<nat>, n: nat)
    requires NewOk(s)
    ensures |SourceMembers(s, g, n)| <= n * NEW_BUCKET_SIZE
  {
    hide SourceBucket;
    if n > 0 {
      SourceSize(s, g, n - 1);
      AtMostSum(SourceMembers(s, g, n - 1), s.vvNew[SourceBucket(s, g, n - 1)]);
    }
  }

  lemma {:induction false} AllSize(s: State, gs: seq<seq<nat>>)
    requires NewOk(s)
    ensures |AllMembers(s, gs)| <= |gs| * 2048
  {
    hide SourceMembers;
    if gs != [] {
      var init, g := gs[..|gs| - 1], gs[|gs| - 1];
      AllSize(s, init);
      SourceSize(s, g, NEW_BUCKETS_PER_SOURCE_GROUP);
      AtMostSum(AllMembers(s, init), SourceMembers(s, g, NEW_BUCKETS_PER_SOURCE_GROUP));
    }
  }

  lemma {:induction false} InSource(s: State, g: seq<nat>, n: nat, i: nat, id: Id)
    requires |s.vvNew| == NEW_BUCKET_COUNT && i < n && id in s.vvNew[SourceBucket(s, g, i)]
    ensures id in SourceMembers(s, g, n)
  {
    hide SourceBucket;
    if i < n - 1 { InSource(s, g, n - 1, i, id); }
  }

  lemma {:induction false} InAll(s: State, gs: seq<seq<nat>>, j: nat, id: Id)
    requires |s.vvNew| == NEW_BUCKET_COUNT && j < |gs|
    requires id in SourceMembers(s, gs[j], NEW_BUCKETS_PER_SOURCE_GROUP)
    ensures id in AllMembers(s, gs)
  {
    hide SourceMembers;
    if j < |gs| - 1 { InAll(s, gs[..|gs| - 1], j, id); }
  }

  /** Each group of sources has room for 32 * 64 untried addresses at most. */
  lemma SourceBound(s: State, ts: Tellers)
    requires Inv(s) && Inside(s, ts)
    ensures |NewIds(s.mapInfo)| <= |ts.gs| * 2048
  {
    hide MapOk, RandOk, TriedOk, CountOk, EntriesOk, SourceBucket, SourceMembers, AllMembers;
    forall id | id in NewIds(s.mapInfo) ensures id in AllMembers(s, ts.gs) {
      var b := SomeBucket(s, id);
      var j: nat, i: nat :| j < |ts.gs| && i < NEW_BUCKETS_PER_SOURCE_GROUP && b == SourceBucket(s, ts.gs[j], i);
      InSource(s, ts.gs[j], NEW_BUCKETS_PER_SOURCE_GROUP, i, id);
      InAll(s, ts.gs, j, id);
    }
    SubsetSize(NewIds(s.mapInfo), AllMembers(s, ts.gs));
    AllSize(s, ts.gs);
  }

  /** Over every life in which all addresses were told by sources of these groups, only the groups' own buckets hold
      anything, evicted entries included, and there are at most 2048 untried addresses for each group. */
  lemma EveryLifeSources(key: seq<nat>, ts: Tellers, evs: seq<Event>)
    requires AllAllowed(evs) && forall k :: 0 <= k < |evs| ==> AddsFrom(ts, evs[k])
    ensures Inv(Init(ts.env, key))
    ensures var t := Life(Init(ts.env, key), evs);
            && (forall b :: 0 <= b < |t.vvNew| && t.vvNew[b] != {} ==> Listable(t, ts, b))
            && |NewIds(t.mapInfo)| <= |ts.gs| * 2048
  {
    InitInv(ts.env, key);
    hide Inv, Life, AddsFrom, Listable;
    LifeInside(key, ts, evs);
    SourceBound(Life(Init(ts.env, key), evs), ts);
  }
}
