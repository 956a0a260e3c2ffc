/** Writing the address manager and reading it back: nothing is lost, and the result is consistent. */
module AddrRoundTrip {
  import opened OrderedSet
  import opened AddrState
  import opened AddrOps
  import opened AddrInvariant
  import opened AddrTried
  import opened AddrRuns
  import opened AddrCheck
  import opened AddrStream

  // ---- The renumbering: new id k stands for old id order[k]

  ghost function Order(s: State): seq<Id> { NewOrder(s) + TriedOrder(s) }

  lemma OrderHolds(s: State, id: Id)
    requires id in s.mapInfo
    ensures id in Order(s)
  {
    hide Sorted;
    assert id in NewOrder(s) || id in TriedOrder(s);
  }

  lemma OrderAt(s: State, k: nat)
    requires k < |Order(s)|
    ensures Order(s)[k] in s.mapInfo && (s.mapInfo[Order(s)[k]].inTried <==> |NewOrder(s)| <= k)
  {
    hide Sorted;
    var n, t := NewOrder(s), TriedOrder(s);
    if k < |n| { assert n[k] in NewIds(s.mapInfo); } else { assert t[k - |n|] in TriedIds(s.mapInfo); }
  }

  lemma OrderDistinct(s: State, i: nat, j: nat)
    requires i < j < |Order(s)|
    ensures Order(s)[i] != Order(s)[j]
  {
    OrderAt(s, i);
    OrderAt(s, j);
    hide Sorted;
    var n, t := NewOrder(s), TriedOrder(s);
    if j < |n| {
      assert n[i].n < n[j].n;
    } else if i >= |n| {
      assert t[i - |n|].n < t[j - |n|].n;
    }
  }

  lemma OrderMembers(s: State)
    ensures forall id :: id in s.mapInfo ==> id in Order(s)
    ensures forall k :: 0 <= k < |Order(s)| ==> Order(s)[k] in s.mapInfo
    ensures forall k :: 0 <= k < |Order(s)| ==> (s.mapInfo[Order(s)[k]].inTried <==> |NewOrder(s)| <= k)
    ensures NoDup(Order(s))
  {
    hide Order, NewOrder, TriedOrder;
    forall id | id in s.mapInfo ensures id in Order(s) { OrderHolds(s, id); }
    forall k | 0 <= k < |Order(s)|
      ensures Order(s)[k] in s.mapInfo && (s.mapInfo[Order(s)[k]].inTried <==> |NewOrder(s)| <= k)
    {
      OrderAt(s, k);
    }
    forall i, j | 0 <= i < j < |Order(s)| ensures Order(s)[i] != Order(s)[j] { OrderDistinct(s, i, j); }
  }

  /** What is needed of the order while loading. */
  ghost predicate Numbering(s: State, order: seq<Id>, n: nat) {
    && NoDup(order) && n <= |order|
    && (forall id :: id in s.mapInfo ==> id in order)
    && AllIn(order, s.mapInfo)
    && (forall k :: 0 <= k < |order| ==> (s.mapInfo[order[k]].inTried <==> n <= k))
  }

  ghost function Copy(info: Info, k: int, refs: int): Info {
    Unpack(Pack(info)).(randomPos := k, inTried := info.inTried, refCount := refs)
  }

  // ---- Entering entries one by one

  ghost predicate InfosEntered(s: State, order: seq<Id>, t: State, i: nat)
    requires i <= |order| && AllIn(order, s.mapInfo)
  {
    && (forall x :: x in t.mapInfo <==> 0 <= x.n < i)
    && (forall x :: x in t.mapInfo ==> t.mapInfo[x] == Copy(s.mapInfo[order[x.n]], x.n, 0))
    && |t.vRandom| == i && (forall k :: 0 <= k < i ==> t.vRandom[k] == Id(k))
  }

  ghost predicate Maps(t: State, a: NetAddr, id: Id) { a in t.mapAddr && t.mapAddr[a] == id }

  ghost predicate AddrsEntered(s: State, order: seq<Id>, t: State, i: nat)
    requires i <= |order| && AllIn(order, s.mapInfo)
  {
    && (forall k :: 0 <= k < i ==> Maps(t, s.mapInfo[order[k]].addr.service.net, Id(k)))
    && (forall a :: a in t.mapAddr ==>
          0 <= t.mapAddr[a].n < i && s.mapInfo[order[t.mapAddr[a].n]].addr.service.net == a)
  }

  /** The first `i` entries of `order` have been entered. */
  ghost predicate Entered(s: State, order: seq<Id>, t: State, i: nat)
    requires i <= |order| && AllIn(order, s.mapInfo)
  {
    InfosEntered(s, order, t, i) && AddrsEntered(s, order, t, i)
  }

  lemma DistinctNets(s: State, order: seq<Id>, i: nat, j: nat)
    requires MapOk(s) && NoDup(order) && i < j < |order| && AllIn(order, s.mapInfo)
    ensures s.mapInfo[order[i]].addr.service.net != s.mapInfo[order[j]].addr.service.net
  {
    assert order[i] in s.mapInfo && order[j] in s.mapInfo;
  }

  lemma EnterInfo(s: State, order: seq<Id>, t: State, i: nat, u: State)
    requires i < |order| && AllIn(order, s.mapInfo) && InfosEntered(s, order, t, i)
    requires var e := Enter(t, Pack(s.mapInfo[order[i]]), Id(i), s.mapInfo[order[i]].inTried);
             u.mapInfo == e.mapInfo && u.vRandom == e.vRandom
    ensures InfosEntered(s, order, u, i + 1)
  {
  }

  lemma EnterAddr(s: State, order: seq<Id>, t: State, i: nat, u: State)
    requires MapOk(s) && NoDup(order) && i < |order| && AllIn(order, s.mapInfo) && AddrsEntered(s, order, t, i)
    requires u.mapAddr == t.mapAddr[s.mapInfo[order[i]].addr.service.net := Id(i)]
    ensures AddrsEntered(s, order, u, i + 1)
  {
    hide MapOk, NoDup;
    forall k | 0 <= k < i ensures s.mapInfo[order[k]].addr.service.net != s.mapInfo[order[i]].addr.service.net {
      DistinctNets(s, order, k, i);
    }
    forall k | 0 <= k < i + 1 ensures Maps(u, s.mapInfo[order[k]].addr.service.net, Id(k)) {
      if k < i { assert Maps(t, s.mapInfo[order[k]].addr.service.net, Id(k)); }
    }
  }

  lemma EnterNext(s: State, order: seq<Id>, t: State, i: nat, u: State)
    requires MapOk(s) && NoDup(order) && i < |order| && AllIn(order, s.mapInfo) && Entered(s, order, t, i)
    requires var e := Enter(t, Pack(s.mapInfo[order[i]]), Id(i), s.mapInfo[order[i]].inTried);
             u.mapInfo == e.mapInfo && u.mapAddr == e.mapAddr && u.vRandom == e.vRandom
    ensures Entered(s, order, u, i + 1)
  {
    hide MapOk, NoDup, AllIn, InfosEntered, AddrsEntered;
    EnterInfo(s, order, t, i, u);
    EnterAddr(s, order, t, i, u);
  }

  /** The parts of the state that entering entries leaves alone. */
  ghost predicate SameRest(t: State, u: State) {
    && u.env == t.env && u.key == t.key && u.vvNew == t.vvNew && u.nNew == t.nNew
  }

  lemma NumberingParts(s: State, order: seq<Id>, n: nat)
    requires Numbering(s, order, n)
    ensures NoDup(order) && AllIn(order, s.mapInfo) && n <= |order|
    ensures forall k :: 0 <= k < |order| ==> (s.mapInfo[order[k]].inTried <==> n <= k)
  {
  }

  lemma EnteredNone(s: State, order: seq<Id>, t: State)
    requires AllIn(order, s.mapInfo) && t.mapInfo == map[] && t.mapAddr == map[] && t.vRandom == []
    ensures Entered(s, order, t, 0)
  {
  }

  lemma {:induction false} NewsEntered(s: State, order: seq<Id>, n: nat, t: State, i: nat, ds: seq<Disk>)
    requires MapOk(s) && Numbering(s, order, n) && i <= n && |ds| == i
    requires forall k :: 0 <= k < i ==> ds[k] == Pack(s.mapInfo[order[k]])
    requires t.mapInfo == map[] && t.mapAddr == map[] && t.vRandom == []
    ensures var u := LoadNews(t, ds);
            && Entered(s, order, u, i)
            && u == t.(mapInfo := u.mapInfo, mapAddr := u.mapAddr, vRandom := u.vRandom)
  {
    hide Entered, MapOk, Numbering, LoadNews, Pack, Unpack;
    NumberingParts(s, order, n);
    if i == 0 {
      NewsNone(t);
      EnteredNone(s, order, t);
    } else {
      hide NoDup, AllIn;
      var front := ds[..i - 1];
      NewsEntered(s, order, n, t, i - 1, front);
      assert ds == front + [ds[i - 1]];
      NewsNext(t, front, ds[i - 1]);
      EnterNext(s, order, LoadNews(t, front), i - 1, LoadNews(t, ds));
    }
  }

  // ---- Tried entries find their bucket again, and it always has room

  ghost predicate FromBucket(s: State, order: seq<Id>, n: nat, i: nat, b: nat, x: Id) {
    n <= x.n < i <= |order| && b < |s.vvTried| && order[x.n] in s.vvTried[b]
  }

  ghost predicate BackIn(s: State, order: seq<Id>, t: State, j: nat)
    requires j < |order| && order[j] in s.mapInfo
  {
    var kb := TriedBucket(s, s.mapInfo[order[j]].addr.service);
    kb < |t.vvTried| && Id(j) in t.vvTried[kb]
  }

  ghost predicate TriedLoaded(s: State, order: seq<Id>, n: nat, t: State, i: nat)
    requires i <= |order| && AllIn(order, s.mapInfo)
  {
    && |t.vvTried| == TRIED_BUCKET_COUNT
    && (forall b :: 0 <= b < |t.vvTried| ==> NoDup(t.vvTried[b]) && |t.vvTried[b]| <= TRIED_BUCKET_SIZE)
    && (forall b, k :: 0 <= b < |t.vvTried| && 0 <= k < |t.vvTried[b]| ==>
          FromBucket(s, order, n, i, b, t.vvTried[b][k]))
    && (forall j :: n <= j < i ==> BackIn(s, order, t, j))
  }

  lemma {:induction false} NoDupFits(q: seq<Id>, a: set<Id>)
    requires NoDup(q) && forall k :: 0 <= k < |q| ==> q[k] in a
    ensures |q| <= |a|
  {
    if q != [] {
      NoDupFits(q[1..], a - {q[0]});
    }
  }

  lemma Seat(s: State, order: seq<Id>, n: nat, i: nat, kb: nat)
    requires TriedOk(s) && Numbering(s, order, n) && n <= i < |order|
    requires kb == TriedBucket(s, s.mapInfo[order[i]].addr.service)
    ensures kb < TRIED_BUCKET_COUNT == |s.vvTried| && order[i] in s.vvTried[kb] && |s.vvTried[kb]| <= TRIED_BUCKET_SIZE
  {
    hide NoDup;
  }

  /** The entries loaded into a bucket came from that bucket, and the next one was not among them. */
  lemma Room(s: State, order: seq<Id>, n: nat, t: State, i: nat, kb: nat)
    requires TriedOk(s) && Numbering(s, order, n) && n <= i < |order| && TriedLoaded(s, order, n, t, i)
    requires kb == TriedBucket(s, s.mapInfo[order[i]].addr.service)
    ensures kb < |t.vvTried| && |t.vvTried[kb]| < TRIED_BUCKET_SIZE
  {
    hide TriedOk, Numbering, TriedBucket, BackIn, Members;
    NumberingParts(s, order, n);
    Seat(s, order, n, i, kb);
    var q, o := t.vvTried[kb], s.vvTried[kb];
    var r := seq(|q|, k requires 0 <= k < |q| => if 0 <= q[k].n < |order| then order[q[k].n] else NONE);
    var a := Members(o) - {order[i]};
    forall k | 0 <= k < |q| ensures r[k] in a {
      assert FromBucket(s, order, n, i, kb, q[k]);
    }
    forall j, k | 0 <= j < k < |q| ensures r[j] != r[k] {
      assert FromBucket(s, order, n, i, kb, q[j]) && FromBucket(s, order, n, i, kb, q[k]);
      assert q[j] != q[k];
    }
    NoDupFits(r, a);
    assert order[i] in Members(o);
  }

  lemma TriedNext(s: State, order: seq<Id>, n: nat, t: State, i: nat, kb: nat, u: State)
    requires TriedOk(s) && Numbering(s, order, n) && n <= i < |order| && TriedLoaded(s, order, n, t, i)
    requires kb == TriedBucket(s, s.mapInfo[order[i]].addr.service) && kb < |t.vvTried|
    requires |t.vvTried[kb]| < TRIED_BUCKET_SIZE && u.vvTried == t.vvTried[kb := t.vvTried[kb] + [Id(i)]]
    ensures TriedLoaded(s, order, n, u, i + 1)
  {
    assert order[i] in s.vvTried[kb];
    hide TriedOk;
    forall b, k | 0 <= b < |u.vvTried| && 0 <= k < |u.vvTried[b]|
      ensures FromBucket(s, order, n, i + 1, b, u.vvTried[b][k])
    {
      if b != kb || k < |t.vvTried[b]| { assert FromBucket(s, order, n, i, b, t.vvTried[b][k]); }
    }
    forall j | n <= j < i + 1 ensures BackIn(s, order, u, j) {
      if j < i { assert BackIn(s, order, t, j); }
    }
    forall k | 0 <= k < |t.vvTried[kb]| ensures t.vvTried[kb][k] != Id(i) {
      assert FromBucket(s, order, n, i, kb, t.vvTried[kb][k]);
    }
  }

  lemma TriedStep(s: State, order: seq<Id>, n: nat, t: State, i: nat)
    requires MapOk(s) && TriedOk(s) && Numbering(s, order, n) && n <= i < |order|
    requires Entered(s, order, t, i) && TriedLoaded(s, order, n, t, i)
    requires t.idCount == i && t.env == s.env && t.key == s.key
    ensures var u := LoadTried(t, Pack(s.mapInfo[order[i]]));
            && Entered(s, order, u, i + 1) && TriedLoaded(s, order, n, u, i + 1)
            && u.idCount == i + 1 && u.nTried == t.nTried && SameRest(t, u)
  {
    hide MapOk, TriedOk, Entered, TriedLoaded;
    var kb := TriedBucket(s, s.mapInfo[order[i]].addr.service);
    var d := Pack(s.mapInfo[order[i]]);
    assert TriedBucket(t, d.service) == kb;
    Room(s, order, n, t, i, kb);
    var u := LoadTried(t, d);
    EnterNext(s, order, t, i, u);
    TriedNext(s, order, n, t, i, kb, u);
  }

  lemma {:induction false} TriedsLoaded(s: State, order: seq<Id>, n: nat, t: State, ds: seq<Disk>)
    requires MapOk(s) && TriedOk(s) && Numbering(s, order, n) && n + |ds| <= |order|
    requires forall k :: 0 <= k < |ds| ==> ds[k] == Pack(s.mapInfo[order[n + k]])
    requires Entered(s, order, t, n) && TriedLoaded(s, order, n, t, n)
    requires t.idCount == n && t.env == s.env && t.key == s.key
    ensures var u, i := LoadTrieds(t, ds), n + |ds|;
            && Entered(s, order, u, i) && TriedLoaded(s, order, n, u, i)
            && u.idCount == i && u.nTried == t.nTried && SameRest(t, u)
  {
    hide MapOk, TriedOk, Entered, TriedLoaded, LoadTried, Pack;
    if ds != [] {
      var m := |ds| - 1;
      assert ds[m] == Pack(s.mapInfo[order[n + m]]);
      TriedsLoaded(s, order, n, t, ds[..m]);
      TriedStep(s, order, n, LoadTrieds(t, ds[..m]), n + m);
    }
  }

  // ---- Bucket references find their entries again, and none is over the cap

  ghost function Held(s: State, b: nat, done: set<Id>, c: nat): set<Id>
    requires c < |s.vvNew|
  {
    if c < b then s.vvNew[c] else if c == b then done else {}
  }

  ghost predicate Stands(order: seq<Id>, x: Id, a: set<Id>) { 0 <= x.n < |order| && order[x.n] in a }

  ghost predicate CountsLoaded(s: State, order: seq<Id>, m: map<Id, Info>, b: nat, done: set<Id>)
    requires AllIn(order, s.mapInfo) && b <= |s.vvNew|
  {
    && (forall x :: x in m <==> 0 <= x.n < |order|)
    && (forall x :: x in m ==> m[x] == Copy(s.mapInfo[order[x.n]], x.n, Seen(s.vvNew[..b], done, order[x.n])))
  }

  ghost predicate BucketsLoaded(s: State, order: seq<Id>, vv: seq<set<Id>>, b: nat, done: set<Id>) {
    && |vv| == |s.vvNew|
    && forall c, x :: 0 <= c < |vv| ==> (x in vv[c] <==> Stands(order, x, Held(s, b, done, c)))
  }

  ghost predicate SameFrame(t: State, u: State) {
    && u.env == t.env && u.key == t.key && u.idCount == t.idCount && u.nNew == t.nNew && u.nTried == t.nTried
    && u.mapAddr == t.mapAddr && u.vRandom == t.vRandom && u.vvTried == t.vvTried
  }

  /** The reference about to be loaded is not the fifth. */
  lemma BelowCap(s: State, b: nat, id: Id)
    requires EntriesOk(s, {}) && id in s.mapInfo && b < |s.vvNew| && id in s.vvNew[b]
    ensures Refs(s.vvNew[..b], id) < NEW_BUCKETS_PER_ADDRESS
  {
    assert EntryOk(s, id, {});
    assert s.vvNew[..b + 1][..b] == s.vvNew[..b];
    RefsGrow(s.vvNew, b + 1, id);
    RefsZero(s.vvNew, id);
  }

  lemma CountsNext(s: State, order: seq<Id>, m: map<Id, Info>, b: nat, done: set<Id>, k: nat)
    requires AllIn(order, s.mapInfo) && NoDup(order) && b < |s.vvNew| && k < |order|
    requires CountsLoaded(s, order, m, b, done) && order[k] !in done && Id(k) in m
    ensures CountsLoaded(s, order, m[Id(k) := m[Id(k)].(refCount := m[Id(k)].refCount + 1)], b, done + {order[k]})
  {
    forall x: Id | 0 <= x.n < |order| && x != Id(k) ensures order[x.n] != order[k] {
      if x.n < k { assert order[x.n] != order[k]; } else { assert order[k] != order[x.n]; }
    }
  }

  lemma DistinctAt(order: seq<Id>, i: nat, j: nat)
    requires NoDup(order) && i < |order| && j < |order| && i != j
    ensures order[i] != order[j]
  {
  }

  lemma SameIndex(order: seq<Id>, i: nat, j: nat)
    requires NoDup(order) && i < |order| && j < |order| && order[i] == order[j]
    ensures i == j
  {
  }

  lemma BucketsNext(s: State, order: seq<Id>, vv: seq<set<Id>>, b: nat, done: set<Id>, k: nat)
    requires NoDup(order) && b < |s.vvNew| && k < |order| && BucketsLoaded(s, order, vv, b, done)
    ensures BucketsLoaded(s, order, vv[b := vv[b] + {Id(k)}], b, done + {order[k]})
  {
    var ww := vv[b := vv[b] + {Id(k)}];
    forall c, x | 0 <= c < |ww| ensures x in ww[c] <==> Stands(order, x, Held(s, b, done + {order[k]}, c)) {
      assert x in vv[c] <==> Stands(order, x, Held(s, b, done, c));
      if 0 <= x.n < |order| && order[x.n] == order[k] {
        SameIndex(order, x.n, k);
      }
    }
  }

  /** What has been counted for the entry so far. */
  lemma CountAt(s: State, order: seq<Id>, t: State, b: nat, done: set<Id>, k: nat)
    requires AllIn(order, s.mapInfo) && b < |s.vvNew| && k < |order| && order[k] !in done
    requires CountsLoaded(s, order, t.mapInfo, b, done) && BucketsLoaded(s, order, t.vvNew, b, done)
    ensures Id(k) in t.mapInfo && t.mapInfo[Id(k)].refCount == Refs(s.vvNew[..b], order[k]) && |t.vvNew| == |s.vvNew|
  {
    hide Refs, Pack, Unpack;
  }

  lemma RefNext(s: State, order: seq<Id>, n: nat, t: State, b: nat, done: set<Id>, k: nat)
    requires EntriesOk(s, {}) && Numbering(s, order, n) && b < |s.vvNew| && k < |order|
    requires order[k] in s.vvNew[b] && order[k] !in done
    requires CountsLoaded(s, order, t.mapInfo, b, done) && BucketsLoaded(s, order, t.vvNew, b, done)
    ensures var u := LoadRef(t, b, k);
            && CountsLoaded(s, order, u.mapInfo, b, done + {order[k]})
            && BucketsLoaded(s, order, u.vvNew, b, done + {order[k]})
            && SameFrame(t, u)
  {
    hide EntriesOk, Seen, Refs, CountsLoaded, BucketsLoaded;
    CountAt(s, order, t, b, done, k);
    BelowCap(s, b, order[k]);
    CountsNext(s, order, t.mapInfo, b, done, k);
    BucketsNext(s, order, t.vvNew, b, done, k);
  }

  ghost predicate Written(s: State, order: seq<Id>, n: nat) {
    Numbering(s, order, n) && n == |NewOrder(s)| && order[..n] == NewOrder(s)
  }

  lemma IndexInOrder(s: State, order: seq<Id>, n: nat, id: Id)
    requires Written(s, order, n) && id in NewOrder(s)
    ensures IndexOf(NewOrder(s), id) < n <= |order| && order[IndexOf(NewOrder(s), id)] == id
  {
    assert order[..n][IndexOf(NewOrder(s), id)] == order[IndexOf(NewOrder(s), id)];
  }

  lemma {:induction false} RefsLoaded(s: State, order: seq<Id>, n: nat, t: State, b: nat, ids: seq<Id>)
    requires EntriesOk(s, {}) && Written(s, order, n) && b < |s.vvNew| && NoDup(ids)
    requires forall k :: 0 <= k < |ids| ==> ids[k] in s.vvNew[b] && ids[k] in NewOrder(s)
    requires CountsLoaded(s, order, t.mapInfo, b, {}) && BucketsLoaded(s, order, t.vvNew, b, {})
    ensures var u := LoadRefs(t, b, Indices(NewOrder(s), ids));
            && CountsLoaded(s, order, u.mapInfo, b, Members(ids))
            && BucketsLoaded(s, order, u.vvNew, b, Members(ids))
            && SameFrame(t, u)
  {
    hide CountsLoaded, BucketsLoaded, EntriesOk, LoadRef, LoadRefs, Indices, IndexOf, NewOrder, Members, Numbering;
    if ids == [] {
      NoRefsLoaded(NewOrder(s), t, b);
    } else {
      var m := |ids| - 1;
      var front := ids[..m];
      LastIsNew(ids);
      RefsLoaded(s, order, n, t, b, front);
      IndexInOrder(s, order, n, ids[m]);
      RefsSnoc(NewOrder(s), t, b, ids);
      hide Written, NoDup;
      RefNext(s, order, n, LoadRefs(t, b, Indices(NewOrder(s), front)), b, Members(front), IndexOf(NewOrder(s), ids[m]));
    }
  }

  lemma LastIsNew(ids: seq<Id>)
    requires ids != [] && NoDup(ids)
    ensures NoDup(ids[..|ids| - 1]) && ids[|ids| - 1] !in Members(ids[..|ids| - 1])
    ensures Members(ids) == Members(ids[..|ids| - 1]) + {ids[|ids| - 1]}
  {
  }

  lemma NoRefsLoaded(news: seq<Id>, t: State, b: nat)
    ensures LoadRefs(t, b, Indices(news, [])) == t && Members([]) == {}
  {
  }

  lemma RefsSnoc(news: seq<Id>, t: State, b: nat, ids: seq<Id>)
    requires ids != [] && forall k :: 0 <= k < |ids| ==> ids[k] in news
    ensures var m := |ids| - 1;
            LoadRefs(t, b, Indices(news, ids)) == LoadRef(LoadRefs(t, b, Indices(news, ids[..m])), b, IndexOf(news, ids[m]))
  {
    hide LoadRef, IndexOf;
    assert Indices(news, ids)[..|ids| - 1] == Indices(news, ids[..|ids| - 1]);
  }

  lemma NextBucket(s: State, order: seq<Id>, m: map<Id, Info>, vv: seq<set<Id>>, b: nat)
    requires AllIn(order, s.mapInfo) && b < |s.vvNew|
    requires CountsLoaded(s, order, m, b, s.vvNew[b]) && BucketsLoaded(s, order, vv, b, s.vvNew[b])
    ensures CountsLoaded(s, order, m, b + 1, {}) && BucketsLoaded(s, order, vv, b + 1, {})
  {
    assert s.vvNew[..b + 1][..b] == s.vvNew[..b];
    assert forall id :: Seen(s.vvNew[..b + 1], {}, id) == Seen(s.vvNew[..b], s.vvNew[b], id);
    assert forall c :: 0 <= c < |s.vvNew| ==> Held(s, b + 1, {}, c) == Held(s, b, s.vvNew[b], c);
  }

  lemma BucketWritten(s: State, b: nat)
    requires NewOk(s) && b < |s.vvNew|
    ensures var ids := Sorted(s.vvNew[b]);
            && NoDup(ids) && Members(ids) == s.vvNew[b]
            && forall k :: 0 <= k < |ids| ==> ids[k] in s.vvNew[b] && ids[k] in NewOrder(s)
  {
    hide Sorted, Members;
    var ids := Sorted(s.vvNew[b]);
    forall i, j | 0 <= i < j < |ids| ensures ids[i] != ids[j] { assert ids[i].n < ids[j].n; }
    forall x ensures x in Members(ids) <==> x in s.vvNew[b] { assert x in ids <==> x in s.vvNew[b]; }
    forall k | 0 <= k < |ids| ensures ids[k] in NewOrder(s) {
      assert ids[k] in s.vvNew[b];
      assert ids[k] in NewIds(s.mapInfo);
    }
  }

  lemma {:induction false} BucketsRead(s: State, order: seq<Id>, n: nat, t: State, bs: seq<seq<int>>)
    requires NewOk(s) && EntriesOk(s, {}) && Written(s, order, n) && |bs| <= |s.vvNew|
    requires bs == BucketIndices(s)[..|bs|]
    requires CountsLoaded(s, order, t.mapInfo, 0, {}) && BucketsLoaded(s, order, t.vvNew, 0, {})
    ensures var u := LoadBuckets(t, bs);
            && CountsLoaded(s, order, u.mapInfo, |bs|, {})
            && BucketsLoaded(s, order, u.vvNew, |bs|, {})
            && SameFrame(t, u)
  {
    hide CountsLoaded, BucketsLoaded, EntriesOk, NewOrder, Written, NewOk, LoadRefs;
    if bs != [] {
      var b := |bs| - 1;
      assert bs[..b] == BucketIndices(s)[..b];
      BucketsRead(s, order, n, t, bs[..b]);
      assert bs[b] == Indices(NewOrder(s), Sorted(s.vvNew[b])) by { BucketWritten(s, b); IndicesAt(s, b); }
      OneBucket(s, order, n, LoadBuckets(t, bs[..b]), b, bs[b]);
    }
  }

  lemma IndicesAt(s: State, b: nat)
    requires NewOk(s) && b < |s.vvNew|
    requires forall k :: 0 <= k < |Sorted(s.vvNew[b])| ==> Sorted(s.vvNew[b])[k] in NewOrder(s)
    ensures b < |BucketIndices(s)| && BucketIndices(s)[b] == Indices(NewOrder(s), Sorted(s.vvNew[b]))
  {
  }

  lemma OneBucket(s: State, order: seq<Id>, n: nat, t: State, b: nat, ns: seq<int>)
    requires NewOk(s) && EntriesOk(s, {}) && Written(s, order, n) && b < |s.vvNew|
    requires forall k :: 0 <= k < |Sorted(s.vvNew[b])| ==> Sorted(s.vvNew[b])[k] in NewOrder(s)
    requires ns == Indices(NewOrder(s), Sorted(s.vvNew[b]))
    requires CountsLoaded(s, order, t.mapInfo, b, {}) && BucketsLoaded(s, order, t.vvNew, b, {})
    ensures var u := LoadRefs(t, b, ns);
            && CountsLoaded(s, order, u.mapInfo, b + 1, {})
            && BucketsLoaded(s, order, u.vvNew, b + 1, {})
            && SameFrame(t, u)
  {
    hide CountsLoaded, BucketsLoaded, EntriesOk, NewOrder, NewOk, LoadRefs;
    BucketWritten(s, b);
    RefsLoaded(s, order, n, t, b, Sorted(s.vvNew[b]));
    var u := LoadRefs(t, b, ns);
    NextBucket(s, order, u.mapInfo, u.vvNew, b);
  }

  // ---- The loaded state mirrors the saved one

  ghost predicate Mirror(s: State, order: seq<Id>, n: nat, t: State) {
    && Written(s, order, n)
    && CountsLoaded(s, order, t.mapInfo, |s.vvNew|, {})
    && BucketsLoaded(s, order, t.vvNew, |s.vvNew|, {})
    && AddrsEntered(s, order, t, |order|)
    && TriedLoaded(s, order, n, t, |order|)
    && |t.vRandom| == |order| && (forall k :: 0 <= k < |order| ==> t.vRandom[k] == Id(k))
    && t.env == s.env && t.key == s.key && t.idCount == |order| && t.nNew == s.nNew && t.nTried == s.nTried
  }

  lemma StartCounts(s: State, order: seq<Id>, t: State)
    requires AllIn(order, s.mapInfo) && InfosEntered(s, order, t, |order|)
    ensures CountsLoaded(s, order, t.mapInfo, 0, {})
    ensures |t.vRandom| == |order| && (forall k :: 0 <= k < |order| ==> t.vRandom[k] == Id(k))
  {
    assert s.vvNew[..0] == [];
  }

  lemma StartBuckets(s: State, order: seq<Id>, vv: seq<set<Id>>)
    requires |s.vvNew| == NEW_BUCKET_COUNT && vv == seq(NEW_BUCKET_COUNT, _ => {})
    ensures BucketsLoaded(s, order, vv, 0, {})
  {
    assert forall c, x :: 0 <= c < |vv| ==> x !in vv[c] && !Stands(order, x, Held(s, 0, {}, c));
  }

  lemma StartTried(s: State, order: seq<Id>, n: nat, t: State)
    requires Written(s, order, n) && t.vvTried == seq(TRIED_BUCKET_COUNT, _ => [])
    ensures TriedLoaded(s, order, n, t, n)
  {
  }

  lemma OrderSplits(s: State)
    ensures |Order(s)| == |NewOrder(s)| + |TriedOrder(s)|
    ensures Order(s)[..|NewOrder(s)|] == NewOrder(s) && Order(s)[|NewOrder(s)|..] == TriedOrder(s)
    ensures forall k :: 0 <= k < |TriedOrder(s)| ==> Order(s)[|NewOrder(s)| + k] == TriedOrder(s)[k]
  {
    hide NewOrder, TriedOrder;
  }

  lemma OrderWritten(s: State)
    ensures Written(s, Order(s), |NewOrder(s)|)
  {
    OrderMembers(s);
    OrderSplits(s);
    hide Order, NewOrder, TriedOrder;
  }

  lemma SavedCounts(s: State)
    requires CountOk(s)
    ensures var im := Filed(s, []);
            |im.news| == |NewOrder(s)| == im.nNew && |im.trieds| == |TriedOrder(s)| == im.nTried
  {
    hide Sorted;
  }

  /** Entry `k` of a list of packed entries. */
  lemma PackedAt(m: map<Id, Info>, ids: seq<Id>)
    requires AllIn(ids, m)
    ensures |Packs(m, ids)| == |ids| && forall k :: 0 <= k < |ids| ==> Packs(m, ids)[k] == Pack(m[ids[k]])
  {
    hide Pack;
  }

  lemma SavedEntries(s: State)
    ensures AllIn(NewOrder(s), s.mapInfo) && AllIn(TriedOrder(s), s.mapInfo)
    ensures var im := Filed(s, []);
            im.news == Packs(s.mapInfo, NewOrder(s)) && im.trieds == Packs(s.mapInfo, TriedOrder(s))
  {
    hide Packs;
  }

  lemma SavedInOrder(s: State)
    requires CountOk(s)
    ensures var n, order, im := |NewOrder(s)|, Order(s), Filed(s, []);
            && Written(s, order, n) && |order| == n + |TriedOrder(s)|
            && |im.news| == n == im.nNew && |im.trieds| == |TriedOrder(s)| == im.nTried
            && (forall k :: 0 <= k < n ==> im.news[k] == Pack(s.mapInfo[order[k]]))
            && (forall k :: 0 <= k < |im.trieds| ==> im.trieds[k] == Pack(s.mapInfo[order[n + k]]))
  {
    OrderWritten(s);
    OrderSplits(s);
    SavedCounts(s);
    SavedEntries(s);
    PackedAt(s.mapInfo, NewOrder(s));
    PackedAt(s.mapInfo, TriedOrder(s));
    hide Filed, Pack, Packs, NewOrder, TriedOrder, CountOk, Written;
  }

  lemma SaveCounts(s: State)
    requires NewOk(s) && CountOk(s)
    ensures |Save(s).news| == Save(s).nNew && |Save(s).trieds| == Save(s).nTried
  {
    SavedCounts(s);
  }

  ghost function LoadUntried(s: State): State {
    LoadNews(Blank(s.env, Filed(s, [])), Filed(s, []).news).(idCount := s.nNew)
  }

  ghost function LoadEntries(s: State): State { LoadTrieds(LoadUntried(s), Filed(s, []).trieds) }

  /** The first `i` entries have been read, and no bucket reference yet. */
  ghost predicate Stage(s: State, order: seq<Id>, n: nat, t: State, i: nat)
    requires AllIn(order, s.mapInfo) && i <= |order|
  {
    && Entered(s, order, t, i) && TriedLoaded(s, order, n, t, i)
    && t.env == s.env && t.key == s.key && t.idCount == i && t.nNew == s.nNew && t.nTried == s.nTried
    && t.vvNew == seq(NEW_BUCKET_COUNT, _ => {})
  }

  lemma StageTrieds(s: State, order: seq<Id>, n: nat, t: State, ds: seq<Disk>)
    requires MapOk(s) && TriedOk(s) && Numbering(s, order, n) && n + |ds| == |order|
    requires forall k :: 0 <= k < |ds| ==> ds[k] == Pack(s.mapInfo[order[n + k]])
    requires Stage(s, order, n, t, n)
    ensures Stage(s, order, n, LoadTrieds(t, ds), |order|)
  {
    hide MapOk, TriedOk, Entered, TriedLoaded, LoadTrieds, NoDup, Pack;
    TriedsLoaded(s, order, n, t, ds);
  }

  lemma UntriedLoaded(s: State)
    requires Core(s)
    ensures Written(s, Order(s), |NewOrder(s)|)
    ensures Stage(s, Order(s), |NewOrder(s)|, LoadUntried(s), |NewOrder(s)|)
  {
    SavedInOrder(s);
    hide RandOk, EntriesOk, CountOk, NewOk, Sorted, NewOrder, TriedOrder, Order, MapOk, TriedOk;
    hide InfosEntered, AddrsEntered, TriedLoaded, LoadNews;
    var n, order, im := |NewOrder(s)|, Order(s), Filed(s, []);
    var t0 := Blank(s.env, im);
    NewsEntered(s, order, n, t0, n, im.news);
    EnteredFrame(s, order, LoadNews(t0, im.news), LoadUntried(s), n);
    StartTried(s, order, n, LoadUntried(s));
  }

  lemma EntriesLoaded(s: State)
    requires Core(s)
    ensures AllIn(Order(s), s.mapInfo)
    ensures Stage(s, Order(s), |NewOrder(s)|, LoadEntries(s), |Order(s)|)
  {
    hide RandOk, EntriesOk, CountOk, NewOk, MapOk, TriedOk, Sorted, NewOrder, TriedOrder, Order;
    hide LoadUntried, LoadTrieds, Stage, Filed, NoDup, Pack;
    SavedInOrder(s);
    UntriedLoaded(s);
    StageTrieds(s, Order(s), |NewOrder(s)|, LoadUntried(s), Filed(s, []).trieds);
  }

  lemma LoadParts(s: State)
    requires NewOk(s)
    ensures Load(s.env, Save(s)) == LoadBuckets(LoadEntries(s), BucketIndices(s)) && |BucketIndices(s)| == NEW_BUCKET_COUNT
  {
    hide Listed, LoadNews, LoadTrieds, LoadBuckets, Packs, NewOrder, TriedOrder;
    BlankSame(s, BucketIndices(s));
  }

  lemma BlankSame(s: State, bs: seq<seq<int>>)
    ensures Blank(s.env, Filed(s, bs)) == Blank(s.env, Filed(s, []))
  {
    var t, u := Blank(s.env, Filed(s, bs)), Blank(s.env, Filed(s, []));
    assert t.vvTried == u.vvTried && t.vvNew == u.vvNew;
  }

  /** Loading what was saved rebuilds the state up to the numbering. */
  lemma LoadSaved(s: State)
    requires Inv(s)
    ensures Mirror(s, Order(s), |NewOrder(s)|, Load(s.env, Save(s)))
  {
    InvCore(s);
    SavedInOrder(s);
    EntriesLoaded(s);
    LoadParts(s);
    assert |s.vvNew| == NEW_BUCKET_COUNT;
    var n, order, bs := |NewOrder(s)|, Order(s), BucketIndices(s);
    var t := LoadEntries(s);
    assert bs == bs[..|bs|];
    hide MapOk, RandOk, TriedOk, EntriesOk, CountOk, NewOk, Sorted, NewOrder, TriedOrder, Order, Save, Filed,
      LoadEntries, LoadUntried, Load;
    hide InfosEntered, AddrsEntered, TriedLoaded, CountsLoaded, BucketsLoaded, LoadNews, LoadTrieds, LoadBuckets, Written;
    StartCounts(s, order, t);
    StartBuckets(s, order, t.vvNew);
    BucketsRead(s, order, n, t, bs);
    MirrorFrame(s, order, n, t, LoadBuckets(t, bs));
  }

  lemma EnteredFrame(s: State, order: seq<Id>, t: State, u: State, i: nat)
    requires i <= |order| && AllIn(order, s.mapInfo) && Entered(s, order, t, i)
    requires u.mapInfo == t.mapInfo && u.mapAddr == t.mapAddr && u.vRandom == t.vRandom
    ensures Entered(s, order, u, i)
  {
  }

  lemma MirrorFrame(s: State, order: seq<Id>, n: nat, t: State, u: State)
    requires AllIn(order, s.mapInfo) && SameFrame(t, u)
    requires AddrsEntered(s, order, t, |order|) && TriedLoaded(s, order, n, t, |order|)
    ensures AddrsEntered(s, order, u, |order|) && TriedLoaded(s, order, n, u, |order|)
  {
    forall k | 0 <= k < |order| ensures Maps(u, s.mapInfo[order[k]].addr.service.net, Id(k)) {
      assert Maps(t, s.mapInfo[order[k]].addr.service.net, Id(k));
    }
    forall j | n <= j < |order| ensures BackIn(s, order, u, j) { assert BackIn(s, order, t, j); }
  }

  // ---- A mirror of a consistent state is consistent

  /** The entries of a mirror, without their counts. */
  ghost predicate Copies(s: State, order: seq<Id>, m: map<Id, Info>)
    requires AllIn(order, s.mapInfo)
  {
    && (forall x :: x in m <==> 0 <= x.n < |order|)
    && (forall x :: x in m ==> m[x] == Copy(s.mapInfo[order[x.n]], x.n, m[x].refCount))
  }

  lemma MirrorCopies(s: State, order: seq<Id>, n: nat, t: State)
    requires Mirror(s, order, n, t)
    ensures AllIn(order, s.mapInfo) && Copies(s, order, t.mapInfo)
  {
    hide TriedLoaded, BucketsLoaded, AddrsEntered;
  }

  lemma MapParts(t: State)
    requires t.idCount >= 0 && forall x :: x in t.mapInfo ==> 0 <= x.n < t.idCount
    requires forall x :: x in t.mapInfo ==> Maps(t, t.mapInfo[x].addr.service.net, x)
    requires forall a :: a in t.mapAddr ==>
                           t.mapAddr[a] in t.mapInfo && t.mapInfo[t.mapAddr[a]].addr.service.net == a
    ensures MapOk(t)
  {
    assert forall x :: x in t.mapInfo ==> Maps(t, t.mapInfo[x].addr.service.net, x);
  }

  lemma CopiesMapOk(s: State, order: seq<Id>, t: State)
    requires AllIn(order, s.mapInfo) && Copies(s, order, t.mapInfo) && AddrsEntered(s, order, t, |order|)
    requires t.idCount == |order|
    ensures MapOk(t)
  {
    forall x | x in t.mapInfo ensures Maps(t, t.mapInfo[x].addr.service.net, x) {
      assert Maps(t, s.mapInfo[order[x.n]].addr.service.net, Id(x.n));
    }
    forall a | a in t.mapAddr
      ensures t.mapAddr[a] in t.mapInfo && t.mapInfo[t.mapAddr[a]].addr.service.net == a
    {
      assert t.mapAddr[a] in t.mapInfo;
    }
    hide Copies, AddrsEntered, MapOk;
    MapParts(t);
  }

  lemma MirrorMapOk(s: State, order: seq<Id>, n: nat, t: State)
    requires Mirror(s, order, n, t)
    ensures MapOk(t)
  {
    hide AddrsEntered, BucketsLoaded, CountsLoaded, TriedLoaded, MapOk, Copies;
    MirrorCopies(s, order, n, t);
    CopiesMapOk(s, order, t);
  }

  lemma MirrorRandOk(s: State, order: seq<Id>, n: nat, t: State)
    requires Mirror(s, order, n, t)
    ensures RandOk(t)
  {
    hide Mirror, RandOk;
    MirrorRandom(s, order, n, t);
    CountedRandOk(t, |order|);
  }

  /** Entries numbered from zero, each at the place of its number. */
  lemma CountedRandOk(t: State, n: nat)
    requires |t.vRandom| == n && forall k :: 0 <= k < n ==> t.vRandom[k] == Id(k)
    requires forall x :: x in t.mapInfo <==> 0 <= x.n < n
    requires forall x :: x in t.mapInfo ==> t.mapInfo[x].randomPos == x.n
    ensures RandOk(t)
  {
    forall x | x in t.mapInfo ensures 0 <= t.mapInfo[x].randomPos < |t.vRandom| && t.vRandom[t.mapInfo[x].randomPos] == x {
      assert t.vRandom[x.n] == Id(x.n);
    }
  }

  lemma MirrorRandom(s: State, order: seq<Id>, n: nat, t: State)
    requires Mirror(s, order, n, t)
    ensures |t.vRandom| == |order| && forall k :: 0 <= k < |order| ==> t.vRandom[k] == Id(k)
    ensures forall x :: x in t.mapInfo <==> 0 <= x.n < |order|
    ensures forall x :: x in t.mapInfo ==> t.mapInfo[x].randomPos == x.n
  {
    hide TriedLoaded, BucketsLoaded, AddrsEntered, Written, Seen, Pack, Unpack;
  }

  lemma OldTriedAt(s: State, id: Id, b: nat)
    requires TriedOk(s) && b < |s.vvTried| && id in s.vvTried[b]
    ensures TriedAt(s, id, b)
  {
    var k :| 0 <= k < |s.vvTried[b]| && s.vvTried[b][k] == id;
    assert TriedAt(s, s.vvTried[b][k], b);
  }

  lemma MirrorTriedOk(s: State, order: seq<Id>, n: nat, t: State)
    requires TriedOk(s) && Mirror(s, order, n, t)
    ensures TriedOk(t)
  {
    hide BucketsLoaded, AddrsEntered, TriedOk;
    forall b, k | 0 <= b < |t.vvTried| && 0 <= k < |t.vvTried[b]| ensures TriedAt(t, t.vvTried[b][k], b) {
      var x := t.vvTried[b][k];
      assert FromBucket(s, order, n, |order|, b, x);
      OldTriedAt(s, order[x.n], b);
    }
    forall x | x in t.mapInfo && t.mapInfo[x].inTried
      ensures x in t.vvTried[TriedBucket(t, t.mapInfo[x].addr.service)]
    {
      assert BackIn(s, order, t, x.n);
    }
    TriedParts(t);
  }

  lemma TriedParts(t: State)
    requires |t.vvTried| == TRIED_BUCKET_COUNT
    requires forall b :: 0 <= b < |t.vvTried| ==> |t.vvTried[b]| <= TRIED_BUCKET_SIZE && NoDup(t.vvTried[b])
    requires forall b, k :: 0 <= b < |t.vvTried| && 0 <= k < |t.vvTried[b]| ==> TriedAt(t, t.vvTried[b][k], b)
    requires forall x :: x in t.mapInfo && t.mapInfo[x].inTried ==>
                           x in t.vvTried[TriedBucket(t, t.mapInfo[x].addr.service)]
    ensures TriedOk(t)
  {
  }

  lemma {:induction false} StandsSize(order: seq<Id>, a: set<Id>, b: set<Id>)
    requires NoDup(order) && forall x :: x in a ==> Stands(order, x, b)
    ensures |a| <= |b|
    decreases a
  {
    if a != {} {
      var x := Pick(a);
      forall y | y in a - {x} ensures Stands(order, y, b - {order[x.n]}) {
        assert Stands(order, y, b);
        assert y.n != x.n;
        DistinctAt(order, x.n, y.n);
      }
      StandsSize(order, a - {x}, b - {order[x.n]});
    }
  }

  lemma MirrorStands(s: State, order: seq<Id>, n: nat, t: State)
    requires Mirror(s, order, n, t)
    ensures |t.vvNew| == |s.vvNew|
    ensures forall b, x :: 0 <= b < |s.vvNew| ==> (x in t.vvNew[b] <==> Stands(order, x, s.vvNew[b]))
  {
    hide TriedLoaded, AddrsEntered, CountsLoaded;
    forall b, x | 0 <= b < |s.vvNew| ensures x in t.vvNew[b] <==> Stands(order, x, s.vvNew[b]) {
      assert x in t.vvNew[b] <==> Stands(order, x, Held(s, |s.vvNew|, {}, b));
    }
  }

  lemma MirrorNewOk(s: State, order: seq<Id>, n: nat, t: State)
    requires NewOk(s) && Mirror(s, order, n, t)
    ensures NewOk(t)
  {
    hide Mirror, NoDup, Stands;
    MirrorStands(s, order, n, t);
    MirrorCopies(s, order, n, t);
    MirrorNumbers(s, order, n, t);
    forall b | 0 <= b < |t.vvNew| ensures |t.vvNew[b]| <= NEW_BUCKET_SIZE {
      assert forall x :: x in t.vvNew[b] ==> Stands(order, x, s.vvNew[b]);
      StandsSize(order, t.vvNew[b], s.vvNew[b]);
    }
    StandsUntried(s, order, t);
  }

  lemma MirrorNumbers(s: State, order: seq<Id>, n: nat, t: State)
    requires Mirror(s, order, n, t)
    ensures NoDup(order) && AllIn(order, s.mapInfo)
  {
  }

  lemma StandsUntried(s: State, order: seq<Id>, t: State)
    requires NewOk(s) && AllIn(order, s.mapInfo) && Copies(s, order, t.mapInfo) && |t.vvNew| == |s.vvNew|
    requires forall b, x :: 0 <= b < |s.vvNew| ==> (x in t.vvNew[b] <==> Stands(order, x, s.vvNew[b]))
    ensures forall b, x :: 0 <= b < |t.vvNew| && x in t.vvNew[b] ==> x in t.mapInfo && !t.mapInfo[x].inTried
  {
    forall b, x | 0 <= b < |t.vvNew| && x in t.vvNew[b] ensures x in t.mapInfo && !t.mapInfo[x].inTried {
      assert Stands(order, x, s.vvNew[b]);
      assert order[x.n] in s.vvNew[b];
    }
  }

  lemma {:induction false} MirrorRefs(order: seq<Id>, vv: seq<set<Id>>, ww: seq<set<Id>>, x: Id)
    requires |vv| == |ww| && 0 <= x.n < |order|
    requires forall c :: 0 <= c < |ww| ==> (x in ww[c] <==> order[x.n] in vv[c])
    ensures Refs(ww, x) == Refs(vv, order[x.n])
    decreases |vv|
  {
    if vv != [] {
      MirrorRefs(order, vv[..|vv| - 1], ww[..|ww| - 1], x);
    }
  }

  lemma MirrorRefCount(s: State, order: seq<Id>, n: nat, t: State, x: Id)
    requires Mirror(s, order, n, t) && x in t.mapInfo
    ensures 0 <= x.n < |order| && order[x.n] in s.mapInfo
    ensures t.mapInfo[x] == Copy(s.mapInfo[order[x.n]], x.n, Refs(s.vvNew, order[x.n]))
  {
    hide TriedLoaded, AddrsEntered, BucketsLoaded;
    assert s.vvNew[..|s.vvNew|] == s.vvNew;
  }

  lemma MirrorEntriesOk(s: State, order: seq<Id>, n: nat, t: State)
    requires EntriesOk(s, {}) && Mirror(s, order, n, t)
    ensures EntriesOk(t, {})
  {
    hide Mirror, EntryOk, Stands, Copy, Refs;
    MirrorStands(s, order, n, t);
    forall x | x in t.mapInfo ensures EntryOk(t, x, {}) {
      MirrorRefCount(s, order, n, t, x);
      assert EntryOk(s, order[x.n], {});
      forall c | 0 <= c < |t.vvNew| ensures x in t.vvNew[c] <==> order[x.n] in s.vvNew[c] {
        assert x in t.vvNew[c] <==> Stands(order, x, s.vvNew[c]);
        StandsFor(order, x, s.vvNew[c]);
      }
      MirrorRefs(order, s.vvNew, t.vvNew, x);
      CopyOk(s, order[x.n], t, x);
    }
  }

  lemma StandsFor(order: seq<Id>, x: Id, ids: set<Id>)
    requires 0 <= x.n < |order|
    ensures Stands(order, x, ids) <==> order[x.n] in ids
  {
  }

  lemma CopyOk(s: State, id: Id, t: State, x: Id)
    requires id in s.mapInfo && EntryOk(s, id, {}) && x in t.mapInfo
    requires t.mapInfo[x] == Copy(s.mapInfo[id], x.n, Refs(s.vvNew, id)) && Refs(t.vvNew, x) == Refs(s.vvNew, id)
    ensures EntryOk(t, x, {})
  {
  }

  lemma {:induction false} RangeSize(a: set<Id>, lo: int, hi: int)
    requires lo <= hi && forall x :: x in a <==> lo <= x.n < hi
    ensures |a| == hi - lo
    decreases hi - lo
  {
    if lo == hi {
      assert a == {};
    } else {
      RangeSize(a - {Id(lo)}, lo + 1, hi);
    }
  }

  lemma MirrorCountOk(s: State, order: seq<Id>, n: nat, t: State)
    requires CountOk(s) && Mirror(s, order, n, t) && |order| == n + |TriedOrder(s)|
    ensures CountOk(t)
  {
    hide TriedLoaded, AddrsEntered, BucketsLoaded, Sorted;
    RangeSize(NewIds(t.mapInfo), 0, n);
    RangeSize(TriedIds(t.mapInfo), n, |order|);
  }

  lemma MirrorInv(s: State, order: seq<Id>, n: nat, t: State)
    requires Inv(s) && Mirror(s, order, n, t) && |order| == n + |TriedOrder(s)|
    ensures Inv(t)
  {
    hide MapOk, RandOk, TriedOk, NewOk, EntriesOk, CountOk, Mirror, TriedOrder;
    MirrorMapOk(s, order, n, t);
    MirrorRandOk(s, order, n, t);
    MirrorTriedOk(s, order, n, t);
    MirrorNewOk(s, order, n, t);
    MirrorEntriesOk(s, order, n, t);
    MirrorCountOk(s, order, n, t);
  }

  // ---- What a reader of the file sees

  /** Everything of an entry that is kept: its service, what it offers, when it was seen, who told of it, when it last
      succeeded and how often it has failed since. */
  predicate SameStats(a: Info, b: Info) {
    && b.addr.service == a.addr.service && b.addr.services == a.addr.services && b.addr.time == a.addr.time
    && b.source == a.source && b.lastSuccess == a.lastSuccess && b.attempts == a.attempts
  }

  /** `t` knows `a` with the same stored statistics, in the same tried bucket or the same new buckets. */
  ghost predicate SameByAddress(s: State, t: State, a: NetAddr) {
    && Known(s, a) && Known(t, a)
    && SameStats(s.mapInfo[s.mapAddr[a]], t.mapInfo[t.mapAddr[a]])
    && IsTried(t, a) == IsTried(s, a)
    && |t.vvNew| == |s.vvNew| && |t.vvTried| == |s.vvTried|
    && (forall b :: 0 <= b < |s.vvNew| ==> (t.mapAddr[a] in t.vvNew[b] <==> s.mapAddr[a] in s.vvNew[b]))
    && (forall b :: 0 <= b < |s.vvTried| ==> (t.mapAddr[a] in t.vvTried[b] <==> s.mapAddr[a] in s.vvTried[b]))
  }

  lemma MirrorTriedSame(s: State, order: seq<Id>, n: nat, t: State, x: Id, b: nat)
    requires TriedOk(s) && TriedOk(t) && Mirror(s, order, n, t) && x in t.mapInfo && b < |s.vvTried|
    ensures x in t.vvTried[b] <==> order[x.n] in s.vvTried[b]
  {
    hide BucketsLoaded, AddrsEntered, TriedLoaded;
    var svc := t.mapInfo[x].addr.service;
    assert TriedBucket(t, svc) == TriedBucket(s, svc);
    if x in t.vvTried[b] {
      OldTriedAt(t, x, b);
      assert order[x.n] in s.vvTried[TriedBucket(s, svc)];
    }
    if order[x.n] in s.vvTried[b] {
      OldTriedAt(s, order[x.n], b);
      assert x in t.vvTried[TriedBucket(t, svc)];
    }
  }

  lemma MirrorKnows(s: State, order: seq<Id>, n: nat, t: State, a: NetAddr)
    requires MapOk(s) && Mirror(s, order, n, t)
    ensures a in t.mapAddr <==> a in s.mapAddr
    ensures a in s.mapAddr ==>
              && t.mapAddr[a] in t.mapInfo && s.mapAddr[a] in s.mapInfo
              && 0 <= t.mapAddr[a].n < |order| && order[t.mapAddr[a].n] == s.mapAddr[a]
  {
    hide TriedLoaded, BucketsLoaded;
    if a in s.mapAddr {
      assert s.mapAddr[a] in order;
      var k :| 0 <= k < |order| && order[k] == s.mapAddr[a];
      assert Maps(t, s.mapInfo[order[k]].addr.service.net, Id(k));
    }
    if a in t.mapAddr {
      assert order[t.mapAddr[a].n] in s.mapInfo;
    }
  }

  lemma MirrorBuckets(s: State, order: seq<Id>, n: nat, t: State, x: Id, id: Id)
    requires TriedOk(s) && TriedOk(t) && Mirror(s, order, n, t)
    requires x in t.mapInfo && 0 <= x.n < |order| && order[x.n] == id
    ensures |t.vvNew| == |s.vvNew| && |t.vvTried| == |s.vvTried|
    ensures forall b :: 0 <= b < |s.vvNew| ==> (x in t.vvNew[b] <==> id in s.vvNew[b])
    ensures forall b :: 0 <= b < |s.vvTried| ==> (x in t.vvTried[b] <==> id in s.vvTried[b])
  {
    assert |t.vvTried| == |s.vvTried|;
    hide TriedOk, Mirror;
    MirrorStands(s, order, n, t);
    forall b | 0 <= b < |s.vvNew| ensures x in t.vvNew[b] <==> id in s.vvNew[b] {
      assert x in t.vvNew[b] <==> Stands(order, x, s.vvNew[b]);
    }
    forall b | 0 <= b < |s.vvTried| ensures x in t.vvTried[b] <==> id in s.vvTried[b] {
      MirrorTriedSame(s, order, n, t, x, b);
    }
  }

  lemma MirrorSame(s: State, order: seq<Id>, n: nat, t: State, a: NetAddr)
    requires MapOk(s) && TriedOk(s) && TriedOk(t) && Mirror(s, order, n, t) && a in s.mapAddr
    ensures SameByAddress(s, t, a)
  {
    hide MapOk, TriedOk, Mirror;
    MirrorKnows(s, order, n, t, a);
    MirrorRefCount(s, order, n, t, t.mapAddr[a]);
    MirrorBuckets(s, order, n, t, t.mapAddr[a], s.mapAddr[a]);
  }

  /** Round trip. Reading back what a consistent manager wrote consumes exactly what was written and gives
      a consistent manager that knows the same addresses, each with its stored statistics, its tried or new
      status and its buckets; no tried entry is lost. */
  lemma RoundTrip(s: State, z: seq<Token>)
    requires Inv(s)
    ensures Parse(Print(Save(s)) + z) == Parsed(Save(s), |Print(Save(s))|)
    ensures var t := Load(s.env, Save(s));
            && Inv(t) && t.nTried == s.nTried && t.nNew == s.nNew && t.key == s.key
            && t.mapAddr.Keys == s.mapAddr.Keys
            && forall a :: a in s.mapAddr ==> SameByAddress(s, t, a)
  {
    hide MapOk, RandOk, TriedOk, EntriesOk, CountOk, NewOk, Sorted, NewOrder, TriedOrder, Order, Save, Load, Print, Parse;
    SavedInOrder(s);
    SaveCounts(s);
    ParsePrinted(Save(s), z);
    LoadSaved(s);
    var n, order, t := |NewOrder(s)|, Order(s), Load(s.env, Save(s));
    MirrorInv(s, order, n, t);
    MirrorCounts(s, order, n, t);
    hide Mirror, SameByAddress;
    forall a ensures a in t.mapAddr.Keys <==> a in s.mapAddr.Keys { MirrorKnows(s, order, n, t, a); }
    forall a | a in s.mapAddr ensures SameByAddress(s, t, a) { MirrorSame(s, order, n, t, a); }
  }

  lemma MirrorCounts(s: State, order: seq<Id>, n: nat, t: State)
    requires Mirror(s, order, n, t)
    ensures t.nTried == s.nTried && t.nNew == s.nNew && t.key == s.key
  {
  }
}
