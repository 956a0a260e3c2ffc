/** Reading what a manager with another number of new buckets wrote: its bucket lists cannot be used, and every untried
    entry goes into its own new bucket. */
module AddrRebuild {
  import opened OrderedSet
  import opened AddrState
  import opened AddrOps
  import opened AddrInvariant
  import opened AddrTried
  import opened AddrRuns
  import opened AddrCheck
  import opened AddrStream
  import opened AddrRoundTrip

  /** The entry is untried, and `b` is its own new bucket. */
  ghost predicate OwnAt(s: State, id: Id, b: int) {
    && id in s.mapInfo && !s.mapInfo[id].inTried
    && NewBucket(s, s.mapInfo[id].addr.service.net, s.mapInfo[id].source) == b
  }

  ghost function OwnIds(s: State, b: int): set<Id> { set id | id in s.mapInfo && OwnAt(s, id, b) }

  function Single(info: Info): Info { info.(refCount := if info.inTried then 0 else 1) }

  /** `s` with every untried entry in its own new bucket and in no other. */
  ghost function Rebucket(s: State): (r: State)
    ensures |r.vvNew| == NEW_BUCKET_COUNT
  {
    s.(vvNew := seq(NEW_BUCKET_COUNT, b => OwnIds(s, b)), mapInfo := map id | id in s.mapInfo :: Single(s.mapInfo[id]))
  }

  // ---- The loops build just that

  lemma PlaceCommutes(u: State, d: Disk, id: Id)
    requires id !in u.mapInfo
    ensures var e := Enter(Rebucket(u), d, id, false);
            id in e.mapInfo && PlaceNew(e, id) == Rebucket(Enter(u, d, id, false))
  {
    var e, f := Enter(Rebucket(u), d, id, false), Enter(u, d, id, false);
    var p, r := PlaceNew(e, id), Rebucket(f);
    PlacedBuckets(u, d, id);
    PlacedInfos(u, d, id);
    hide NewBucket, OwnAt, OwnIds;
    assert p.vvNew == r.vvNew;
  }

  lemma PlacedInfos(u: State, d: Disk, id: Id)
    requires id !in u.mapInfo
    ensures PlaceNew(Enter(Rebucket(u), d, id, false), id).mapInfo == Rebucket(Enter(u, d, id, false)).mapInfo
  {
    hide NewBucket, OwnAt, OwnIds;
  }

  lemma PlacedBuckets(u: State, d: Disk, id: Id)
    requires id !in u.mapInfo
    ensures var f := Enter(u, d, id, false);
            forall b :: 0 <= b < NEW_BUCKET_COUNT ==>
                          OwnIds(f, b) == if NewBucket(u, d.service.net, d.source) == b then OwnIds(u, b) + {id} else OwnIds(u, b)
  {
  }

  lemma {:induction false} NewsCommute(s: State, order: seq<Id>, n: nat, t: State, i: nat, ds: seq<Disk>)
    requires MapOk(s) && Numbering(s, order, n) && i <= n && |ds| == i && t == Rebucket(t)
    requires forall k :: 0 <= k < i ==> ds[k] == Pack(s.mapInfo[order[k]])
    requires t.mapInfo == map[] && t.mapAddr == map[] && t.vRandom == []
    ensures PlaceNews(t, ds) == Rebucket(LoadNews(t, ds))
  {
    hide MapOk, Numbering, LoadNews, PlaceNews, PlaceNew, Enter, Rebucket, Pack;
    if i == 0 {
      NewsNone(t);
      NoNewsPlaced(t);
    } else {
      var front, d := ds[..i - 1], ds[i - 1];
      assert ds == front + [d];
      NewsCommute(s, order, n, t, i - 1, front);
      NumberingParts(s, order, n);
      NewsEntered(s, order, n, t, i - 1, front);
      var u := LoadNews(t, front);
      assert Id(i - 1) !in u.mapInfo;
      NewsNext(t, front, d);
      PlaceNext(t, front, d);
      PlaceCommutes(u, d, Id(i - 1));
    }
  }

  lemma NoNewsPlaced(t: State)
    requires |t.vvNew| == NEW_BUCKET_COUNT
    ensures PlaceNews(t, []) == t
  {
  }

  lemma TriedCommutes(u: State, d: Disk)
    requires Id(u.idCount) !in u.mapInfo
    ensures LoadTried(Rebucket(u), d) == Rebucket(LoadTried(u, d))
  {
    var r, l := Rebucket(u), LoadTried(u, d);
    assert TriedBucket(r, d.service) == TriedBucket(u, d.service);
    hide TriedBucket, NewBucket, OwnAt, OwnIds, Unpack;
    TriedBuckets(u, d);
    TriedInfos(u, d);
    assert LoadTried(r, d).vvNew == Rebucket(l).vvNew;
  }

  lemma TriedInfos(u: State, d: Disk)
    requires Id(u.idCount) !in u.mapInfo
    ensures LoadTried(Rebucket(u), d).mapInfo == Rebucket(LoadTried(u, d)).mapInfo
  {
    assert TriedBucket(Rebucket(u), d.service) == TriedBucket(u, d.service);
    hide TriedBucket, NewBucket, OwnAt, OwnIds, Unpack;
    UnpackSingle(d, |u.vRandom|);
  }

  lemma UnpackSingle(d: Disk, k: nat)
    ensures var info := Unpack(d).(randomPos := k, inTried := true); Single(info) == info
  {
  }

  lemma TriedBuckets(u: State, d: Disk)
    requires Id(u.idCount) !in u.mapInfo
    ensures forall b :: 0 <= b < NEW_BUCKET_COUNT ==> OwnIds(LoadTried(u, d), b) == OwnIds(u, b)
  {
    var l := LoadTried(u, d);
    hide TriedBucket;
    forall b | 0 <= b < NEW_BUCKET_COUNT ensures OwnIds(l, b) == OwnIds(u, b) {
      assert forall id :: OwnAt(l, id, b) <==> OwnAt(u, id, b);
    }
  }

  lemma {:induction false} TriedsCommute(s: State, order: seq<Id>, n: nat, t: State, ds: seq<Disk>)
    requires MapOk(s) && TriedOk(s) && Numbering(s, order, n) && n + |ds| <= |order|
    requires forall k :: 0 <= k < |ds| ==> ds[k] == Pack(s.mapInfo[order[n + k]])
    requires Entered(s, order, t, n) && TriedLoaded(s, order, n, t, n)
    requires t.idCount == n && t.env == s.env && t.key == s.key
    ensures LoadTrieds(Rebucket(t), ds) == Rebucket(LoadTrieds(t, ds))
  {
    hide MapOk, TriedOk, TriedLoaded, LoadTried, LoadTrieds, Rebucket, Pack, Numbering;
    NumberingParts(s, order, n);
    if ds == [] {
      TriedsNone(t);
      TriedsNone(Rebucket(t));
    } else {
      var m := |ds| - 1;
      var front := ds[..m];
      assert ds == front + [ds[m]];
      TriedsCommute(s, order, n, t, front);
      TriedsLoaded(s, order, n, t, front);
      TriedsNext(t, front, ds[m]);
      TriedsNext(Rebucket(t), front, ds[m]);
      TriedCommutes(LoadTrieds(t, front), ds[m]);
    }
  }

  // ---- References only make sure that their entries are there

  /** The references name entries that were read. */
  ghost predicate InRange(bs: seq<seq<int>>, n: nat) {
    forall b, k :: 0 <= b < |bs| && 0 <= k < |bs[b]| ==> 0 <= bs[b][k] < n
  }

  /** `u` is `t` and perhaps some entries nobody knows. */
  ghost predicate Extends(t: State, u: State) {
    && u == t.(mapInfo := u.mapInfo) && (forall x :: x in t.mapInfo ==> x in u.mapInfo && u.mapInfo[x] == t.mapInfo[x])
    && forall x :: x in u.mapInfo && x !in t.mapInfo ==> u.mapInfo[x] == DEFAULT_INFO
  }

  lemma {:induction false} TouchedRefs(t: State, ns: seq<int>)
    ensures var u := TouchRefs(t, ns); Extends(t, u) && forall k :: 0 <= k < |ns| ==> Id(ns[k]) in u.mapInfo
    ensures (forall k :: 0 <= k < |ns| ==> Id(ns[k]) in t.mapInfo) ==> TouchRefs(t, ns) == t
  {
    if ns != [] { TouchedRefs(t, ns[..|ns| - 1]); }
  }

  ghost predicate AllThere(t: State, bs: seq<seq<int>>) {
    forall b, k :: 0 <= b < |bs| && 0 <= k < |bs[b]| ==> Id(bs[b][k]) in t.mapInfo
  }

  lemma {:induction false} TouchedBuckets(t: State, bs: seq<seq<int>>)
    ensures var u := TouchBuckets(t, bs); Extends(t, u) && AllThere(u, bs) && (AllThere(t, bs) ==> u == t)
  {
    hide TouchRefs;
    if bs != [] {
      var m := |bs| - 1;
      assert AllThere(t, bs) ==> AllThere(t, bs[..m]);
      TouchedBuckets(t, bs[..m]);
      TouchedRefs(TouchBuckets(t, bs[..m]), bs[m]);
    }
  }

  ghost function PlacedUntried(s: State): State {
    PlaceNews(Blank(s.env, Filed(s, [])), Filed(s, []).news).(idCount := s.nNew)
  }

  lemma RebucketCount(u: State, n: int)
    ensures Rebucket(u).(idCount := n) == Rebucket(u.(idCount := n))
  {
    assert forall b :: OwnIds(u.(idCount := n), b) == OwnIds(u, b);
  }

  lemma UntriedAnew(s: State)
    requires Core(s)
    ensures PlacedUntried(s) == Rebucket(LoadUntried(s))
  {
    hide RandOk, CountOk, MapOk, TriedOk, Ages, Sorted, NewOrder, TriedOrder, Order, Pack, LoadNews, PlaceNews, Filed;
    SavedInOrder(s);
    var im := Filed(s, []);
    var t0 := Blank(s.env, im);
    BlankOwn(s.env, im);
    BlankEmpty(s.env, im);
    hide Blank, Rebucket;
    NewsCommute(s, Order(s), |NewOrder(s)|, t0, |NewOrder(s)|, im.news);
    RebucketCount(LoadNews(t0, im.news), s.nNew);
  }

  lemma BlankEmpty(env: Env, im: Image)
    ensures var t := Blank(env, im); t.mapInfo == map[] && t.mapAddr == map[] && t.vRandom == []
  {
  }

  lemma EntriesAnew(s: State)
    requires Core(s)
    ensures LoadTrieds(Rebucket(LoadUntried(s)), Filed(s, []).trieds) == Rebucket(LoadEntries(s))
  {
    hide RandOk, CountOk, MapOk, TriedOk, Ages, Sorted, NewOrder, TriedOrder, Order, Pack, LoadUntried, LoadTrieds,
      Filed, Rebucket, Entered, TriedLoaded;
    SavedInOrder(s);
    UntriedLoaded(s);
    TriedsCommute(s, Order(s), |NewOrder(s)|, LoadUntried(s), Filed(s, []).trieds);
  }

  /** What is read with such lists: the entries as always, then in their own buckets, then what the lists name. */
  lemma LoadedAnew(s: State, bs: seq<seq<int>>)
    requires Core(s) && |bs| != NEW_BUCKET_COUNT
    ensures Load(s.env, Filed(s, bs)) == TouchBuckets(Rebucket(LoadEntries(s)), bs)
  {
    hide PlaceNews, LoadTrieds, TouchBuckets, Packs, NewOrder, TriedOrder, Blank, Core, LoadEntries, LoadUntried, Rebucket;
    BlankSame(s, bs);
    UntriedAnew(s);
    EntriesAnew(s);
  }

  lemma EntriesThere(s: State)
    requires Core(s)
    ensures forall x: Id :: x in Rebucket(LoadEntries(s)).mapInfo <==> 0 <= x.n < |Order(s)|
  {
    hide RandOk, CountOk, MapOk, TriedOk, Ages, Sorted, NewOrder, TriedOrder, Order, Pack, LoadEntries, Rebucket,
      AddrsEntered, TriedLoaded;
    EntriesLoaded(s);
    RebucketKeys(LoadEntries(s));
  }

  lemma RebucketKeys(s: State)
    ensures forall x :: x in Rebucket(s).mapInfo <==> x in s.mapInfo
  {
  }

  lemma BlankOwn(env: Env, im: Image)
    ensures Rebucket(Blank(env, im)) == Blank(env, im)
  {
    var t := Blank(env, im);
    assert forall b :: OwnIds(t, b) == {};
    assert Rebucket(t).vvNew == t.vvNew && Rebucket(t).mapInfo == t.mapInfo;
  }

  // ---- The result mirrors the state with its entries so placed

  lemma RebucketTables(s: State)
    ensures SameTables(s.mapInfo, Rebucket(s).mapInfo, {})
    ensures forall x :: x in s.mapInfo ==> Rebucket(s).mapInfo[x] == Single(s.mapInfo[x])
    ensures var r := Rebucket(s); r == s.(vvNew := r.vvNew, mapInfo := r.mapInfo)
    ensures forall b, x :: 0 <= b < NEW_BUCKET_COUNT ==> (x in Rebucket(s).vvNew[b] <==> OwnAt(s, x, b))
  {
    hide NewBucket;
  }

  lemma {:induction false} RefsOnce(vv: seq<set<Id>>, x: Id, b: nat)
    requires b < |vv| && forall c :: 0 <= c < |vv| ==> (x in vv[c] <==> c == b)
    ensures Refs(vv, x) == 1
  {
    var n := |vv| - 1;
    if b == n { RefsZero(vv[..n], x); } else { RefsOnce(vv[..n], x, b); }
  }

  /** One reference for an untried entry, none for a tried one. */
  lemma RebucketRefs(s: State, x: Id)
    requires x in s.mapInfo
    ensures Refs(Rebucket(s).vvNew, x) == Single(s.mapInfo[x]).refCount
  {
    hide Rebucket, NewBucket;
    RebucketTables(s);
    var info, vv := s.mapInfo[x], Rebucket(s).vvNew;
    if info.inTried { RefsZero(vv, x); } else { RefsOnce(vv, x, NewBucket(s, info.addr.service.net, info.source)); }
  }

  /** All of the invariant but the size of the new buckets. */
  lemma RebucketKeeps(s: State)
    requires Core(s)
    ensures var r := Rebucket(s); MapOk(r) && RandOk(r) && TriedOk(r) && EntriesOk(r, {}) && CountOk(r)
  {
    hide MapOk, RandOk, TriedOk, CountOk;
    var r := Rebucket(s);
    RebucketTables(s);
    forall x | x in r.mapInfo ensures EntryOk(r, x, {}) {
      RebucketRefs(s, x);
      hide Rebucket;
    }
    hide Rebucket, EntriesOk, Ages;
    TriedFrame(s, r, {});
    MapFrame(s, r);
    RandFrame(s, r);
    CountFrame(s, r);
  }

  lemma RebucketWritten(s: State, order: seq<Id>, n: nat)
    requires Written(s, order, n)
    ensures Written(Rebucket(s), order, n) && TriedOrder(Rebucket(s)) == TriedOrder(s)
  {
    hide Rebucket, NewOrder, TriedOrder, Numbering, OwnAt, SameTables;
    RebucketTables(s);
    SameOrders(s, Rebucket(s));
    NumberingFrame(s, Rebucket(s), order, n);
  }

  lemma NumberingFrame(s: State, r: State, order: seq<Id>, n: nat)
    requires Numbering(s, order, n) && SameTables(s.mapInfo, r.mapInfo, {})
    ensures Numbering(r, order, n)
  {
    hide NoDup;
  }

  lemma SameOrders(s: State, r: State)
    requires SameTables(s.mapInfo, r.mapInfo, {})
    ensures NewOrder(r) == NewOrder(s) && TriedOrder(r) == TriedOrder(s)
  {
    hide Sorted;
    SameIds(s.mapInfo, r.mapInfo, {});
    assert NewIds(s.mapInfo) - {} == NewIds(s.mapInfo) && TriedIds(s.mapInfo) - {} == TriedIds(s.mapInfo);
  }

  lemma OwnSame(s: State, order: seq<Id>, n: nat, v: State, x: Id, b: int)
    requires Numbering(s, order, n) && Stage(s, order, n, v, |order|)
    ensures OwnAt(v, x, b) <==> 0 <= x.n < |order| && OwnAt(s, order[x.n], b)
  {
    hide AddrsEntered, TriedLoaded;
    if x in v.mapInfo {
      assert v.mapInfo[x] == Copy(s.mapInfo[order[x.n]], x.n, 0);
    }
  }

  lemma RebuiltCounts(s: State, order: seq<Id>, n: nat, v: State)
    requires Numbering(s, order, n) && Stage(s, order, n, v, |order|)
    ensures CountsLoaded(Rebucket(s), order, Rebucket(v).mapInfo, NEW_BUCKET_COUNT, {})
  {
    hide Stage, Numbering, Rebucket, NoDup, OwnAt, Seen, Copy;
    var r, t := Rebucket(s), Rebucket(v);
    NumberingParts(s, order, n);
    StageInfos(s, order, n, v);
    RebucketTables(s);
    RebucketTables(v);
    forall x | x in t.mapInfo
      ensures t.mapInfo[x] == Copy(r.mapInfo[order[x.n]], x.n, Seen(r.vvNew[..NEW_BUCKET_COUNT], {}, order[x.n]))
    {
      RebuiltCopy(s, order[x.n], v, x);
    }
  }

  lemma RebuiltCopy(s: State, id: Id, v: State, x: Id)
    requires id in s.mapInfo && x in v.mapInfo && v.mapInfo[x] == Copy(s.mapInfo[id], x.n, 0)
    ensures var r, t := Rebucket(s), Rebucket(v);
            && id in r.mapInfo && x in t.mapInfo
            && t.mapInfo[x] == Copy(r.mapInfo[id], x.n, Seen(r.vvNew[..NEW_BUCKET_COUNT], {}, id))
  {
    hide Rebucket, Copy, Single, Seen, OwnAt;
    RebucketTables(s);
    RebucketTables(v);
    var r := Rebucket(s);
    assert r.vvNew[..NEW_BUCKET_COUNT] == r.vvNew;
    RebucketRefs(s, id);
    SeenAll(r.vvNew, id);
    SingleCopy(s.mapInfo[id], x.n);
  }

  lemma StageInfos(s: State, order: seq<Id>, n: nat, v: State)
    requires AllIn(order, s.mapInfo) && Stage(s, order, n, v, |order|)
    ensures forall x :: x in v.mapInfo <==> 0 <= x.n < |order|
    ensures forall x :: x in v.mapInfo ==> v.mapInfo[x] == Copy(s.mapInfo[order[x.n]], x.n, 0)
  {
    hide AddrsEntered, TriedLoaded, Copy;
  }

  lemma SeenAll(vv: seq<set<Id>>, id: Id)
    ensures Seen(vv, {}, id) == Refs(vv, id)
  {
  }

  lemma SingleCopy(info: Info, k: int)
    ensures Single(Copy(info, k, 0)) == Copy(Single(info), k, Single(info).refCount)
  {
  }

  lemma RebuiltBuckets(s: State, order: seq<Id>, n: nat, v: State)
    requires Numbering(s, order, n) && Stage(s, order, n, v, |order|)
    ensures BucketsLoaded(Rebucket(s), order, Rebucket(v).vvNew, NEW_BUCKET_COUNT, {})
  {
    var r, t := Rebucket(s), Rebucket(v);
    RebucketTables(s);
    RebucketTables(v);
    hide Rebucket, Stage, OwnAt;
    forall c, x | 0 <= c < |t.vvNew| ensures x in t.vvNew[c] <==> Stands(order, x, AddrRoundTrip.Held(r, NEW_BUCKET_COUNT, {}, c)) {
      OwnSame(s, order, n, v, x, c);
    }
  }

  lemma RebuiltTried(s: State, order: seq<Id>, n: nat, v: State)
    requires Numbering(s, order, n) && Stage(s, order, n, v, |order|)
    ensures AddrsEntered(Rebucket(s), order, Rebucket(v), |order|) && TriedLoaded(Rebucket(s), order, n, Rebucket(v), |order|)
  {
    var r, t := Rebucket(s), Rebucket(v);
    RebucketTables(s);
    RebucketTables(v);
    hide Rebucket, InfosEntered, NoDup;
    forall k | 0 <= k < |order| ensures Maps(t, r.mapInfo[order[k]].addr.service.net, Id(k)) {
      assert Maps(v, s.mapInfo[order[k]].addr.service.net, Id(k));
    }
    forall b, k | 0 <= b < |t.vvTried| && 0 <= k < |t.vvTried[b]| ensures FromBucket(r, order, n, |order|, b, t.vvTried[b][k]) {
      assert FromBucket(s, order, n, |order|, b, v.vvTried[b][k]);
    }
    forall j | n <= j < |order| ensures BackIn(r, order, t, j) { assert BackIn(s, order, v, j); }
  }

  lemma RebuiltMirror(s: State)
    requires Core(s)
    ensures Mirror(Rebucket(s), Order(s), |NewOrder(s)|, Rebucket(LoadEntries(s)))
  {
    hide MapOk, RandOk, TriedOk, CountOk, Ages, Sorted, NewOrder, TriedOrder, Order, LoadEntries, Rebucket;
    var n, order, v := |NewOrder(s)|, Order(s), LoadEntries(s);
    OrderWritten(s);
    EntriesLoaded(s);
    RebucketWritten(s, order, n);
    RebucketTables(s);
    RebucketTables(v);
    RebuiltCounts(s, order, n, v);
    RebuiltBuckets(s, order, n, v);
    RebuiltTried(s, order, n, v);
    StageRandom(s, order, n, v);
    hide CountsLoaded, BucketsLoaded, AddrsEntered, TriedLoaded, Written;
  }

  lemma StageRandom(s: State, order: seq<Id>, n: nat, v: State)
    requires AllIn(order, s.mapInfo) && Stage(s, order, n, v, |order|)
    ensures |v.vRandom| == |order| && forall k :: 0 <= k < |order| ==> v.vRandom[k] == Id(k)
    ensures v.env == s.env && v.key == s.key && v.idCount == |order| && v.nNew == s.nNew && v.nTried == s.nTried
  {
    hide AddrsEntered, TriedLoaded;
  }

  // ---- What the reader ends up with

  lemma {:induction false} StoodSize(order: seq<Id>, a: set<Id>, b: set<Id>)
    requires forall id :: id in b ==> exists k :: 0 <= k < |order| && order[k] == id && Id(k) in a
    ensures |b| <= |a|
    decreases b
  {
    if b != {} {
      var id := Pick(b);
      var k :| 0 <= k < |order| && order[k] == id && Id(k) in a;
      forall y | y in b - {id} ensures exists j :: 0 <= j < |order| && order[j] == y && Id(j) in a - {Id(k)} {
        var j :| 0 <= j < |order| && order[j] == y && Id(j) in a;
        assert Id(j) in a - {Id(k)};
      }
      StoodSize(order, a - {Id(k)}, b - {id});
    }
  }

  /** Bucket by bucket the numbers of entries are those of the state so placed. */
  lemma RebuiltSizes(s: State, order: seq<Id>, n: nat, t: State)
    requires Mirror(s, order, n, t) && |s.vvNew| == NEW_BUCKET_COUNT
    requires forall b, x :: 0 <= b < |s.vvNew| && x in s.vvNew[b] ==> x in s.mapInfo
    ensures |t.vvNew| == |s.vvNew| && forall b :: 0 <= b < |s.vvNew| ==> |t.vvNew[b]| == |s.vvNew[b]|
  {
    MirrorStands(s, order, n, t);
    assert Numbering(s, order, n);
    hide Mirror, Numbering, Stands;
    forall b | 0 <= b < |s.vvNew| ensures |t.vvNew[b]| == |s.vvNew[b]| {
      SameSize(s, order, n, t.vvNew[b], s.vvNew[b]);
    }
  }

  lemma SameSize(s: State, order: seq<Id>, n: nat, a: set<Id>, b: set<Id>)
    requires Numbering(s, order, n) && forall x :: x in a <==> Stands(order, x, b)
    requires forall x :: x in b ==> x in s.mapInfo
    ensures |a| == |b|
  {
    hide Numbering, NoDup;
    NumberingParts(s, order, n);
    StandsSize(order, a, b);
    forall x | x in b ensures exists k :: 0 <= k < |order| && order[k] == x && Id(k) in a {
      Placed(s, order, n, x);
      var k :| 0 <= k < |order| && order[k] == x;
      assert Stands(order, Id(k), b);
    }
    StoodSize(order, a, b);
  }

  lemma Placed(s: State, order: seq<Id>, n: nat, x: Id)
    requires Numbering(s, order, n) && x in s.mapInfo
    ensures exists k :: 0 <= k < |order| && order[k] == x
  {
    assert x in order;
  }

  /** No bucket holds more than it has room for. */
  ghost predicate Roomy(s: State) { forall b :: 0 <= b < |s.vvNew| ==> |s.vvNew[b]| <= NEW_BUCKET_SIZE }

  lemma RebuiltNewOk(v: State)
    ensures NewOk(Rebucket(v)) <==> Roomy(Rebucket(v))
  {
    RebucketTables(v);
    hide Rebucket, NewBucket;
  }

  lemma InvSplits(t: State)
    requires MapOk(t) && RandOk(t) && TriedOk(t) && EntriesOk(t, {}) && CountOk(t)
    ensures Inv(t) <==> NewOk(t)
  {
    hide MapOk, RandOk, TriedOk, EntriesOk, CountOk, NewOk;
  }

  /** From the file of a manager with another number of new buckets, whatever its own new buckets were and whatever the
      lists say: every address comes back with its statistics and its tried bucket or, untried, in its own new bucket and
      in no other. The result is consistent if and only if no new bucket is the own one of more than 64 untried entries
      and the lists name none but the entries of the file. */
  lemma Rebuilt(s: State, bs: seq<seq<int>>, z: seq<Token>)
    requires Core(s) && |bs| != NEW_BUCKET_COUNT
    ensures var im := Filed(s, bs); Parse(Print(im) + z) == Parsed(im, |Print(im)|)
    ensures var r, t := Rebucket(s), Load(s.env, Filed(s, bs));
            && (Inv(t) <==> Roomy(r) && InRange(bs, s.nNew + s.nTried))
            && t.nTried == s.nTried && t.nNew == s.nNew && t.key == s.key && t.mapAddr.Keys == s.mapAddr.Keys
            && (forall a :: a in s.mapAddr ==> SameByAddress(r, t, a))
            && forall a :: a in s.mapAddr ==> OwnBucketOnly(s, t, a)
  {
    hide Core, Inv, NewOrder, TriedOrder, Order, Filed, Load, Print, Parse, Rebucket, LoadEntries, SameByAddress, Roomy, InRange,
      TouchBuckets, Extends, AllThere, OwnBucketOnly;
    FileParsed(s, bs, z);
    LoadedAnew(s, bs);
    ReadAnew(s);
    var u := Rebucket(LoadEntries(s));
    TouchedBuckets(u, bs);
    TouchedInv(s, bs);
    ExtendsTables(u, TouchBuckets(u, bs));
    forall a | a in s.mapAddr
      ensures SameByAddress(Rebucket(s), TouchBuckets(u, bs), a) && OwnBucketOnly(s, TouchBuckets(u, bs), a)
    {
      ExtendsSame(Rebucket(s), u, TouchBuckets(u, bs), a);
      OwnOnly(s, TouchBuckets(u, bs), a);
    }
  }

  /** An untried address stands in the new bucket of its address and source, and in no other; a tried one in none. */
  ghost predicate OwnBucketOnly(s: State, t: State, a: NetAddr) {
    && Known(s, a) && Known(t, a) && |t.vvNew| == NEW_BUCKET_COUNT
    && var info := s.mapInfo[s.mapAddr[a]];
       forall b :: 0 <= b < NEW_BUCKET_COUNT ==>
         (t.mapAddr[a] in t.vvNew[b] <==> !info.inTried && b == NewBucket(s, info.addr.service.net, info.source))
  }

  lemma OwnOnly(s: State, t: State, a: NetAddr)
    requires SameByAddress(Rebucket(s), t, a)
    ensures OwnBucketOnly(s, t, a)
  {
    hide NewBucket, SameStats;
    RebucketTables(s);
  }

  lemma FileParsed(s: State, bs: seq<seq<int>>, z: seq<Token>)
    requires Core(s)
    ensures var im := Filed(s, bs); Parse(Print(im) + z) == Parsed(im, |Print(im)|)
  {
    SavedCounts(s);
    hide MapOk, RandOk, TriedOk, Ages, CountOk, NewOrder, TriedOrder, Print, Parse;
    ParsePrinted(Filed(s, bs), z);
  }

  /** The entries before the lists are read. */
  lemma ReadAnew(s: State)
    requires Core(s)
    ensures var r, u := Rebucket(s), Rebucket(LoadEntries(s));
            && (Inv(u) <==> Roomy(r)) && u.nTried == s.nTried && u.nNew == s.nNew && u.key == s.key
            && u.mapAddr.Keys == s.mapAddr.Keys && forall a :: a in s.mapAddr ==> SameByAddress(r, u, a)
  {
    hide MapOk, RandOk, TriedOk, EntriesOk, CountOk, NewOk, Ages, NewOrder, TriedOrder, Order, Rebucket, LoadEntries, Mirror,
      SameByAddress, Roomy;
    RebuiltIsMirror(s);
    var n, order, r, t := |NewOrder(s)|, Order(s), Rebucket(s), Rebucket(LoadEntries(s));
    RebuiltInv(s, LoadEntries(s));
    MirrorCounts(r, order, n, t);
    RebucketTables(s);
    forall a ensures a in t.mapAddr.Keys <==> a in s.mapAddr.Keys { MirrorKnows(r, order, n, t, a); }
    forall a | a in s.mapAddr ensures SameByAddress(r, t, a) { MirrorSame(r, order, n, t, a); }
  }

  lemma ExtendsTables(t: State, u: State)
    requires Extends(t, u)
    ensures u.nTried == t.nTried && u.nNew == t.nNew && u.key == t.key && u.mapAddr == t.mapAddr
  {
  }

  lemma ExtendsSame(r: State, t: State, u: State, a: NetAddr)
    requires Extends(t, u) && SameByAddress(r, t, a)
    ensures SameByAddress(r, u, a)
  {
  }

  /** An entry that a list alone has made has no place in vRandom. */
  lemma TouchedInv(s: State, bs: seq<seq<int>>)
    requires Core(s)
    ensures var u := Rebucket(LoadEntries(s));
            Inv(TouchBuckets(u, bs)) <==> Inv(u) && InRange(bs, s.nNew + s.nTried)
  {
    hide Core, Inv, NewOrder, TriedOrder, Order, LoadEntries, Rebucket, TouchBuckets;
    var u := Rebucket(LoadEntries(s));
    EntriesThere(s);
    EntryCount(s);
    TouchedBuckets(u, bs);
    if InRange(bs, s.nNew + s.nTried) {
      assert AllThere(u, bs);
    } else {
      var b, k :| 0 <= b < |bs| && 0 <= k < |bs[b]| && !(0 <= bs[b][k] < s.nNew + s.nTried);
      NoPlace(TouchBuckets(u, bs), Id(bs[b][k]));
    }
  }

  lemma NoPlace(t: State, x: Id)
    requires x in t.mapInfo && t.mapInfo[x] == DEFAULT_INFO
    ensures !Inv(t)
  {
    hide MapOk, TriedOk, NewOk, EntriesOk, CountOk;
  }

  lemma EntryCount(s: State)
    requires Core(s)
    ensures s.nNew >= 0 && s.nTried >= 0 && |Order(s)| == s.nNew + s.nTried
  {
    hide MapOk, RandOk, TriedOk, Ages, NewOrder, TriedOrder, Order;
    SavedInOrder(s);
  }

  /** The parts of the invariant that both have, and the mirror between them. */
  lemma RebuiltIsMirror(s: State)
    requires Core(s)
    ensures var r, t, order, n := Rebucket(s), Rebucket(LoadEntries(s)), Order(s), |NewOrder(s)|;
            && Mirror(r, order, n, t) && MapOk(r) && TriedOk(r) && |order| == n + |TriedOrder(r)|
            && MapOk(t) && RandOk(t) && TriedOk(t) && EntriesOk(t, {}) && CountOk(t)
  {
    hide MapOk, RandOk, TriedOk, EntriesOk, CountOk, Ages, Sorted, NewOrder, TriedOrder, Order, LoadEntries, Rebucket, Mirror;
    var r, t, order, n := Rebucket(s), Rebucket(LoadEntries(s)), Order(s), |NewOrder(s)|;
    OrderWritten(s);
    OrderSplits(s);
    RebucketWritten(s, order, n);
    RebucketKeeps(s);
    RebuiltMirror(s);
    MirrorMapOk(r, order, n, t);
    MirrorRandOk(r, order, n, t);
    MirrorTriedOk(r, order, n, t);
    MirrorEntriesOk(r, order, n, t);
    MirrorCountOk(r, order, n, t);
  }

  lemma RebuiltInv(s: State, v: State)
    requires Core(s) && v == LoadEntries(s)
    ensures Inv(Rebucket(v)) <==> Roomy(Rebucket(s))
  {
    hide MapOk, RandOk, TriedOk, EntriesOk, CountOk, NewOk, Ages, NewOrder, TriedOrder, Order, Rebucket, LoadEntries,
      Mirror, OwnAt;
    RebuiltIsMirror(s);
    InvSplits(Rebucket(v));
    RebuiltNewOk(v);
    OwnKnown(s);
    RebuiltSizes(Rebucket(s), Order(s), |NewOrder(s)|, Rebucket(v));
  }

  lemma OwnKnown(s: State)
    ensures var r := Rebucket(s); forall b, x :: 0 <= b < |r.vvNew| && x in r.vvNew[b] ==> x in r.mapInfo
  {
    RebucketTables(s);
    hide Rebucket, NewBucket;
  }

  // ---- More than 64 entries can have the same own bucket

  /** Everything hashes to zero, so every entry's own new bucket is the first one. */
  function Flat(): Env { Env(_ => 0, _ => [], _ => [], _ => true) }

  ghost function Ids(n: nat): (r: set<Id>)
    ensures forall x :: x in r <==> 0 <= x.n < n
  {
    set i | 0 <= i < n :: Id(i)
  }

  ghost function Nets(n: nat): (r: set<NetAddr>)
    ensures forall a :: a in r <==> a.ip < n
  {
    set i: nat | i < n :: NetAddr(i)
  }

  function Someone(i: int): Info {
    Info(Address(Service(NetAddr(if i < 0 then 0 else i), 0), 0, 1, 0), NetAddr(0), 0, 0, 1, false, i)
  }

  /** Sixty-five untried entries, the last in a bucket that is not its own. */
  ghost function Crowd(): State {
    State(Flat(), [], 65, map id | id in Ids(65) :: Someone(id.n), map a | a in Nets(65) :: Id(a.ip),
          seq(65, k => Id(k)), 0, seq(TRIED_BUCKET_COUNT, _ => []), 65,
          seq(NEW_BUCKET_COUNT, b => if b == 0 then Ids(64) else if b == 1 then {Id(64)} else {}))
  }

  lemma CrowdEntries()
    ensures var s := Crowd(); EntriesOk(s, {}) && CountOk(s) && NewOk(s)
  {
    var s := Crowd();
    RangeSize(Ids(64), 0, 64);
    RangeSize(NewIds(s.mapInfo), 0, 65);
    assert TriedIds(s.mapInfo) == {};
    forall x | x in s.mapInfo ensures EntryOk(s, x, {}) {
      RefsOnce(s.vvNew, x, if x.n < 64 then 0 else 1);
    }
  }

  lemma CrowdMaps()
    ensures var s := Crowd(); MapOk(s) && RandOk(s) && TriedOk(s)
  {
  }

  /** Such a state is consistent, and its file read with another number of buckets makes one that is not. */
  lemma TooManyOwn()
    ensures Inv(Crowd()) && !Roomy(Rebucket(Crowd()))
  {
    CrowdEntries();
    CrowdMaps();
    var s := Crowd();
    hide MapOk, RandOk, TriedOk, NewOk, EntriesOk, CountOk;
    RangeSize(OwnIds(s, 0), 0, 65);
    assert Rebucket(s).vvNew[0] == OwnIds(s, 0);
  }
}
