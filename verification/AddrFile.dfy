/** The file of the address manager: where everything stands in what is written, and what becomes of any file read. */
module AddrFile {
  import opened OrderedSet
  import opened AddrState
  import opened AddrOps
  import opened AddrInvariant
  import opened AddrTried
  import opened AddrRuns
  import opened AddrCheck
  import opened AddrStream

  // ---- The layout

  /** Where bucket `b` begins, from where the first one does. */
  ghost function Offset(vv: seq<set<Id>>, b: nat): nat
    requires b <= |vv|
  {
    if b == 0 then 0 else Offset(vv, b - 1) + 1 + |vv[b - 1]|
  }

  /** What is kept of an entry, item by item. */
  ghost predicate Describes(t: Token, info: Info) {
    && t.TInfo? && t.info.service == info.addr.service && t.info.services == info.addr.services
    && t.info.time == info.addr.time && t.info.source == info.source
    && t.info.lastSuccess == info.lastSuccess && t.info.attempts == info.attempts
  }

  ghost predicate DescribesAll(s: State, ts: seq<Token>, p: nat, ids: seq<Id>) {
    && p + |ids| <= |ts| && forall k :: 0 <= k < |ids| ==> ids[k] in s.mapInfo && Describes(ts[p + k], s.mapInfo[ids[k]])
  }

  /** The bucket's size, and then its entries by their numbers among the untried ones. */
  ghost predicate ListsBucket(ts: seq<Token>, p: nat, news: seq<Id>, bucket: set<Id>) {
    && p + 1 + |bucket| <= |ts| && ts[p] == TInt(|bucket|)
    && forall k :: 0 <= k < |bucket| ==>
         ts[p + 1 + k].TInt? && 0 <= ts[p + 1 + k].n < |news| && news[ts[p + 1 + k].n] == Sorted(bucket)[k]
  }

  /** A version byte, the key, the numbers of untried and of tried entries and of buckets; the untried entries, the tried
      ones, each in the order of their ids; and the buckets one after the other. */
  ghost predicate Laid(s: State, ts: seq<Token>) {
    var news, trieds := Sorted(NewIds(s.mapInfo)), Sorted(TriedIds(s.mapInfo));
    var p := 5 + |news| + |trieds|;
    && |ts| == p + Offset(s.vvNew, |s.vvNew|)
    && ts[0] == TByte(0) && ts[1] == TKey(s.key) && ts[2] == TInt(|news|) && ts[3] == TInt(|trieds|)
    && ts[4] == TInt(|s.vvNew|)
    && DescribesAll(s, ts, 5, news) && DescribesAll(s, ts, 5 + |news|, trieds)
    && forall b :: 0 <= b < |s.vvNew| ==> ListsBucket(ts, p + Offset(s.vvNew, b), news, s.vvNew[b])
  }

  lemma {:induction false} InfosStand(ds: seq<Disk>)
    ensures |PrintInfos(ds)| == |ds| && forall k :: 0 <= k < |ds| ==> PrintInfos(ds)[k] == TInfo(ds[k])
  {
    if ds != [] { InfosStand(ds[..|ds| - 1]); }
  }

  lemma {:induction false} IntsStand(ns: seq<int>)
    ensures |PrintInts(ns)| == |ns| && forall k :: 0 <= k < |ns| ==> PrintInts(ns)[k] == TInt(ns[k])
  {
    if ns != [] { IntsStand(ns[..|ns| - 1]); }
  }

  /** The list of one bucket, wherever it is printed. */
  lemma BucketStands(a: seq<Token>, news: seq<Id>, bucket: set<Id>, z: seq<Token>)
    requires forall k :: 0 <= k < |Sorted(bucket)| ==> Sorted(bucket)[k] in news
    ensures |Sorted(bucket)| == |bucket|
    ensures ListsBucket(a + [TInt(|bucket|)] + PrintInts(Indices(news, Sorted(bucket))) + z, |a|, news, bucket)
  {
    hide Sorted;
    var ns := Indices(news, Sorted(bucket));
    IntsStand(ns);
    var ts := a + [TInt(|bucket|)] + PrintInts(ns) + z;
    forall k | 0 <= k < |bucket|
      ensures ts[|a| + 1 + k].TInt? && 0 <= ts[|a| + 1 + k].n < |news| && news[ts[|a| + 1 + k].n] == Sorted(bucket)[k]
    {
      assert ts[|a| + 1 + k] == PrintInts(ns)[k];
    }
  }

  lemma {:induction false} BucketsSize(news: seq<Id>, vv: seq<set<Id>>, n: nat)
    requires Listed(news, vv) && n <= |vv|
    ensures |PrintBuckets(BucketLists(news, vv)[..n])| == Offset(vv, n)
  {
    hide Sorted;
    if n > 0 {
      var all := BucketLists(news, vv);
      assert all[..n][..n - 1] == all[..n - 1];
      BucketsSize(news, vv, n - 1);
      IntsStand(all[n - 1]);
      SortedSize(vv[n - 1]);
    }
  }

  lemma SortedSize(s: set<Id>)
    ensures |Sorted(s)| == |s|
  {
  }

  /** Every bucket's list stands behind those before it. */
  lemma {:induction false} PrintedFrom(bs: seq<seq<int>>, n: nat) returns (z: seq<Token>)
    requires n < |bs|
    ensures PrintBuckets(bs) == PrintBuckets(bs[..n]) + [TInt(|bs[n]|)] + PrintInts(bs[n]) + z
  {
    var m := |bs| - 1;
    if n == m {
      z := [];
    } else {
      var init := bs[..m];
      assert init[..n] == bs[..n] && init[n] == bs[n];
      var y := PrintedFrom(init, n);
      var last := [TInt(|bs[m]|)] + PrintInts(bs[m]);
      z := y + last;
      assert PrintBuckets(bs) == PrintBuckets(init) + last;
    }
  }

  lemma BucketLaid(h: seq<Token>, news: seq<Id>, vv: seq<set<Id>>, b: nat)
    requires Listed(news, vv) && b < |vv|
    ensures ListsBucket(h + PrintBuckets(BucketLists(news, vv)), |h| + Offset(vv, b), news, vv[b])
  {
    hide Sorted, ListsBucket, Offset, PrintInts, PrintBuckets, Indices;
    var all := BucketLists(news, vv);
    var z := PrintedFrom(all, b);
    BucketsSize(news, vv, b);
    var a := h + PrintBuckets(all[..b]);
    ListedAt(news, vv, b);
    BucketStands(a, news, vv[b], z);
    Regroup(h, PrintBuckets(all[..b]), [TInt(|all[b]|)], PrintInts(all[b]), z);
  }

  lemma ListedAt(news: seq<Id>, vv: seq<set<Id>>, b: nat)
    requires Listed(news, vv) && b < |vv|
    ensures (forall k :: 0 <= k < |Sorted(vv[b])| ==> Sorted(vv[b])[k] in news)
    ensures BucketLists(news, vv)[b] == Indices(news, Sorted(vv[b])) && |BucketLists(news, vv)[b]| == |vv[b]|
  {
    SortedSize(vv[b]);
    hide Sorted;
  }

  lemma Regroup(h: seq<Token>, a: seq<Token>, x: seq<Token>, y: seq<Token>, z: seq<Token>)
    ensures h + (a + x + y + z) == (h + a) + x + y + z
  {
  }

  /** What a consistent manager writes is laid out so. */
  lemma WrittenLaid(s: State)
    requires NewOk(s) && CountOk(s)
    ensures Laid(s, Print(Save(s)))
  {
    hide Sorted, Offset, ListsBucket, PrintBuckets, PrintInfos, Packs, Describes;
    NewListed(s);
    var news, trieds, vv := NewOrder(s), TriedOrder(s), s.vvNew;
    SortedSize(NewIds(s.mapInfo));
    SortedSize(TriedIds(s.mapInfo));
    OrdersIn(s);
    var a, c := PrintInfos(Packs(s.mapInfo, news)), PrintInfos(Packs(s.mapInfo, trieds));
    var head := Header(Save(s));
    var h := head + a + c;
    var tail := PrintBuckets(BucketLists(news, vv));
    PacksStand(s, head, news, c + tail);
    PacksStand(s, head + a, trieds, tail);
    Regroup3(head, a, c, tail);
    BucketsSize(news, vv, |vv|);
    assert BucketLists(news, vv)[..|vv|] == BucketLists(news, vv);
    forall b | 0 <= b < |vv| ensures ListsBucket(h + tail, 5 + |news| + |trieds| + Offset(vv, b), news, vv[b]) {
      BucketLaid(h, news, vv, b);
    }
  }

  lemma OrdersIn(s: State)
    ensures AllIn(NewOrder(s), s.mapInfo) && AllIn(TriedOrder(s), s.mapInfo)
  {
  }

  lemma Regroup3(h: seq<Token>, a: seq<Token>, c: seq<Token>, t: seq<Token>)
    ensures h + a + (c + t) == h + a + c + t
  {
  }

  lemma PacksStand(s: State, h: seq<Token>, ids: seq<Id>, z: seq<Token>)
    requires AllIn(ids, s.mapInfo)
    ensures |PrintInfos(Packs(s.mapInfo, ids))| == |ids|
    ensures DescribesAll(s, h + PrintInfos(Packs(s.mapInfo, ids)) + z, |h|, ids)
  {
    InfosStand(Packs(s.mapInfo, ids));
  }

  // ---- Any file: the tried table

  function Least(a: nat, b: nat): nat { if a < b then a else b }

  /** The entries of the file that belong to tried bucket `b`, in order. */
  ghost function Mine(t: State, ds: seq<Disk>, b: nat): seq<Disk> {
    if ds == [] then []
    else
      var d := ds[|ds| - 1];
      Mine(t, ds[..|ds| - 1], b) + if TriedBucket(t, d.service) == b then [d] else []
  }

  /** The entry just as the file has it. */
  ghost predicate FromFile(info: Info, d: Disk) {
    && info.addr.service == d.service && info.addr.services == d.services && info.addr.time == d.time
    && info.source == d.source && info.lastSuccess == d.lastSuccess && info.attempts == d.attempts
    && info.addr.lastTry == 0
  }

  /** Bucket `b` holds the first 64 of its entries. */
  ghost predicate Filled(t: State, u: State, ds: seq<Disk>, b: nat)
    requires b < |u.vvTried|
  {
    var mine, q := Mine(t, ds, b), u.vvTried[b];
    && |q| == Least(|mine|, 64)
    && forall j :: 0 <= j < |q| ==> q[j] in u.mapInfo && u.mapInfo[q[j]].inTried && FromFile(u.mapInfo[q[j]], mine[j])
  }

  ghost predicate AllFilled(t: State, u: State, ds: seq<Disk>) {
    && |u.vvTried| == TRIED_BUCKET_COUNT && u.env == t.env && u.key == t.key
    && (forall id :: id in u.mapInfo ==> id.n < u.idCount)
    && (forall id :: id in t.mapInfo ==> id in u.mapInfo && u.mapInfo[id] == t.mapInfo[id])
    && u.nTried - t.nTried + |ds| == u.idCount - t.idCount == |u.vRandom| - |t.vRandom|
    && forall b :: 0 <= b < TRIED_BUCKET_COUNT ==> Filled(t, u, ds, b)
  }

  lemma FillStep(t: State, u: State, ds: seq<Disk>, d: Disk)
    requires AllFilled(t, u, ds)
    ensures AllFilled(t, LoadTried(u, d), ds + [d])
  {
    hide TriedBucket;
    SameTried(t, u, d.service);
    var v, kb := LoadTried(u, d), TriedBucket(u, d.service);
    forall b | 0 <= b < TRIED_BUCKET_COUNT ensures Filled(t, v, ds + [d], b) {
      assert (ds + [d])[..|ds|] == ds;
      assert Filled(t, u, ds, b);
    }
  }

  lemma SameTried(t: State, u: State, svc: Service)
    requires u.env == t.env && u.key == t.key
    ensures TriedBucket(u, svc) == TriedBucket(t, svc) < TRIED_BUCKET_COUNT
  {
  }

  /** Each tried bucket takes the first 64 entries of the file that belong to it; the others are dropped, and counted
      off. */
  lemma {:induction false} TriedFill(t: State, ds: seq<Disk>)
    requires t.vvTried == seq(TRIED_BUCKET_COUNT, _ => []) && forall id :: id in t.mapInfo ==> id.n < t.idCount
    ensures AllFilled(t, LoadTrieds(t, ds), ds)
  {
    hide LoadTried, TriedBucket;
    if ds != [] {
      var n := |ds| - 1;
      TriedFill(t, ds[..n]);
      hide AllFilled;
      FillStep(t, LoadTrieds(t, ds[..n]), ds[..n], ds[n]);
      assert ds == ds[..n] + [ds[n]];
    }
  }

  // ---- Any file: the references

  /** How often the list names the number. */
  ghost function Named(ns: seq<int>, x: int): nat {
    if ns == [] then 0 else Named(ns[..|ns| - 1], x) + if ns[|ns| - 1] == x then 1 else 0
  }

  ghost function NamedIn(bs: seq<seq<int>>, x: int): nat {
    if bs == [] then 0 else NamedIn(bs[..|bs| - 1], x) + Named(bs[|bs| - 1], x)
  }

  ghost function CountOf(t: State, x: Id): int { if x in t.mapInfo then t.mapInfo[x].refCount else 0 }

  /** Four at most. */
  ghost predicate Upto4(c: int, n: nat, after: int) { after == if c + n < 4 then c + n else 4 }

  ghost predicate OneListRead(t: State, u: State, b: nat, ns: seq<int>)
    requires b < |t.vvNew|
  {
    && |u.vvNew| == |t.vvNew| && (forall x :: Upto4(CountOf(t, x), Named(ns, x.n), CountOf(u, x)))
    && (forall x :: x in u.vvNew[b] <==> x in t.vvNew[b] || (Named(ns, x.n) > 0 && CountOf(t, x) < 4))
    && forall c :: 0 <= c < |t.vvNew| && c != b ==> u.vvNew[c] == t.vvNew[c]
  }

  lemma RefRead(t: State, u: State, b: nat, ns: seq<int>, n: int)
    requires b < |t.vvNew| && OneListRead(t, u, b, ns)
    requires forall x :: CountOf(t, x) <= 4
    ensures OneListRead(t, LoadRef(u, b, n), b, ns + [n])
  {
    var v := LoadRef(u, b, n);
    assert (ns + [n])[..|ns|] == ns;
    forall x ensures Upto4(CountOf(t, x), Named(ns + [n], x.n), CountOf(v, x)) {
      assert Upto4(CountOf(t, x), Named(ns, x.n), CountOf(u, x));
    }
    forall x ensures x in v.vvNew[b] <==> x in t.vvNew[b] || (Named(ns + [n], x.n) > 0 && CountOf(t, x) < 4) {
      assert Upto4(CountOf(t, x), Named(ns, x.n), CountOf(u, x));
    }
  }

  lemma {:induction false} ListRead(t: State, b: nat, ns: seq<int>)
    requires b < |t.vvNew| && forall x :: CountOf(t, x) <= 4
    ensures OneListRead(t, LoadRefs(t, b, ns), b, ns)
  {
    hide LoadRef;
    if ns != [] {
      var n := |ns| - 1;
      ListRead(t, b, ns[..n]);
      RefRead(t, LoadRefs(t, b, ns[..n]), b, ns[..n], ns[n]);
      assert ns == ns[..n] + [ns[n]];
    }
  }

  /** Every entry has taken as many references as the lists name it, four at most, and those in the first buckets that do. */
  ghost predicate ListsRead(t: State, u: State, bs: seq<seq<int>>)
    requires |bs| <= |t.vvNew|
  {
    && |u.vvNew| == |t.vvNew| && (forall x :: Upto4(CountOf(t, x), NamedIn(bs, x.n), CountOf(u, x)))
    && (forall b, x :: 0 <= b < |bs| ==>
          (x in u.vvNew[b] <==> x in t.vvNew[b] || (Named(bs[b], x.n) > 0 && CountOf(t, x) + NamedIn(bs[..b], x.n) < 4)))
    && forall b :: |bs| <= b < |t.vvNew| ==> u.vvNew[b] == t.vvNew[b]
  }

  lemma ListsNext(t: State, u: State, v: State, bs: seq<seq<int>>, ns: seq<int>)
    requires |bs| < |t.vvNew| && ListsRead(t, u, bs) && OneListRead(u, v, |bs|, ns)
    ensures ListsRead(t, v, bs + [ns])
  {
    hide Named, CountOf;
    var more := bs + [ns];
    assert more[..|bs|] == bs;
    forall x ensures Upto4(CountOf(t, x), NamedIn(more, x.n), CountOf(v, x)) {
      assert Upto4(CountOf(t, x), NamedIn(bs, x.n), CountOf(u, x)) && Upto4(CountOf(u, x), Named(ns, x.n), CountOf(v, x));
    }
    forall b, x | 0 <= b < |more|
      ensures x in v.vvNew[b] <==> x in t.vvNew[b] || (Named(more[b], x.n) > 0 && CountOf(t, x) + NamedIn(more[..b], x.n) < 4)
    {
      assert more[..b] == bs[..b];
      assert Upto4(CountOf(t, x), NamedIn(bs, x.n), CountOf(u, x));
    }
  }

  lemma FewCounts(t: State, u: State, bs: seq<seq<int>>)
    requires |bs| <= |t.vvNew| && ListsRead(t, u, bs)
    ensures forall x :: CountOf(u, x) <= 4
  {
    hide Named, NamedIn, CountOf;
    forall x ensures CountOf(u, x) <= 4 {
      assert Upto4(CountOf(t, x), NamedIn(bs, x.n), CountOf(u, x));
    }
  }

  /** What becomes of the lists of any file with as many buckets as the manager has. */
  lemma {:induction false} RefsFill(t: State, bs: seq<seq<int>>)
    requires |bs| <= |t.vvNew| && forall x :: CountOf(t, x) <= 4
    ensures ListsRead(t, LoadBuckets(t, bs), bs)
  {
    hide LoadRefs, Named, CountOf;
    if bs != [] {
      var n := |bs| - 1;
      RefsFill(t, bs[..n]);
      var u := LoadBuckets(t, bs[..n]);
      FewCounts(t, u, bs[..n]);
      ListRead(u, n, bs[n]);
      hide ListsRead, OneListRead;
      ListsNext(t, u, LoadRefs(u, n, bs[n]), bs[..n], bs[n]);
      assert bs == bs[..n] + [bs[n]];
    } else {
      forall x ensures Upto4(CountOf(t, x), NamedIn(bs, x.n), CountOf(t, x)) {}
    }
  }

  // ---- Any file

  /** The untried entries have the ids 0, 1, 2, ... in the order of the file. */
  ghost predicate NewsRead(t: State, ds: seq<Disk>) {
    && (forall x :: x in t.mapInfo <==> 0 <= x.n < |ds|) && |t.vRandom| == |ds|
    && forall k :: 0 <= k < |ds| ==>
         Id(k) in t.mapInfo && var info := t.mapInfo[Id(k)]; FromFile(info, ds[k]) && !info.inTried && info.refCount == 0
  }

  lemma {:induction false} NewsFill(t: State, ds: seq<Disk>)
    requires t.mapInfo == map[] && t.vRandom == []
    ensures var u := LoadNews(t, ds);
            && NewsRead(u, ds) && u.vvTried == t.vvTried && u.vvNew == t.vvNew && u.nTried == t.nTried
            && u.env == t.env && u.key == t.key
  {
    if ds != [] { NewsFill(t, ds[..|ds| - 1]); }
  }

  /** The lists change reference counts and buckets only, and make entries of numbers that name none. */
  ghost predicate OnlyRefs(t: State, u: State) {
    && u.vvTried == t.vvTried && u.vRandom == t.vRandom && u.nTried == t.nTried && u.env == t.env && u.key == t.key
    && forall x :: x in t.mapInfo ==> x in u.mapInfo && u.mapInfo[x] == t.mapInfo[x].(refCount := u.mapInfo[x].refCount)
  }

  lemma {:induction false} RefsOnly(t: State, b: nat, ns: seq<int>)
    ensures OnlyRefs(t, LoadRefs(t, b, ns))
  {
    if ns != [] { RefsOnly(t, b, ns[..|ns| - 1]); }
  }

  lemma {:induction false} ListsOnly(t: State, bs: seq<seq<int>>)
    ensures OnlyRefs(t, LoadBuckets(t, bs))
  {
    hide LoadRefs;
    if bs != [] {
      var n := |bs| - 1;
      ListsOnly(t, bs[..n]);
      RefsOnly(LoadBuckets(t, bs[..n]), n, bs[n]);
    }
  }

  lemma {:induction false} SameMine(t: State, u: State, ds: seq<Disk>, b: nat)
    requires u.env == t.env && u.key == t.key
    ensures Mine(u, ds, b) == Mine(t, ds, b)
  {
    hide TriedBucket;
    if ds != [] {
      SameMine(t, u, ds[..|ds| - 1], b);
      SameTried(t, u, ds[|ds| - 1].service);
    }
  }

  lemma TriedCounts(t: State, u: State, ds: seq<Disk>)
    requires AllFilled(t, u, ds) && u == LoadTrieds(t, ds) && (forall x :: CountOf(t, x) == 0)
    ensures (forall x :: CountOf(u, x) == 0) && u.vvNew == t.vvNew
  {
    hide AllFilled;
    TriedsCount(t, ds);
  }

  lemma {:induction false} TriedsCount(t: State, ds: seq<Disk>)
    requires forall x :: CountOf(t, x) == 0
    ensures (forall x :: CountOf(LoadTrieds(t, ds), x) == 0) && LoadTrieds(t, ds).vvNew == t.vvNew
  {
    hide LoadTried;
    if ds != [] {
      TriedsCount(t, ds[..|ds| - 1]);
      TriedCount(LoadTrieds(t, ds[..|ds| - 1]), ds[|ds| - 1]);
    }
  }

  lemma TriedCount(t: State, d: Disk)
    requires forall x :: CountOf(t, x) == 0
    ensures (forall x :: CountOf(LoadTried(t, d), x) == 0) && LoadTried(t, d).vvNew == t.vvNew
  {
    hide TriedBucket;
    var u := LoadTried(t, d);
    forall x ensures CountOf(u, x) == 0 {
      assert CountOf(t, x) == 0;
    }
  }

  /** What reading makes of any file with as many new buckets as the manager has, consistent or not. */
  ghost predicate Taken(t: State, im: Image) {
    && |t.vvTried| == TRIED_BUCKET_COUNT && |t.vvNew| == NEW_BUCKET_COUNT == |im.buckets|
    && (forall k :: 0 <= k < |im.news| ==>
          Id(k) in t.mapInfo && FromFile(t.mapInfo[Id(k)], im.news[k]) && !t.mapInfo[Id(k)].inTried)
    && (forall b :: 0 <= b < TRIED_BUCKET_COUNT ==> Filled(t, t, im.trieds, b))
    && t.nTried - im.nTried + |im.trieds| == |t.vRandom| - |im.news|
    && (forall x: Id :: Upto4(0, NamedIn(im.buckets, x.n), CountOf(t, x)))
    && forall b, x :: 0 <= b < NEW_BUCKET_COUNT ==>
         (x in t.vvNew[b] <==> Named(im.buckets[b], x.n) > 0 && NamedIn(im.buckets[..b], x.n) < 4)
  }

  /** From any file: the untried entries come in as they are, each tried bucket takes the first 64 of its entries, and an
      entry is put into the first buckets that list it, with four references at most. */
  lemma AnyFile(env: Env, im: Image)
    requires |im.buckets| == NEW_BUCKET_COUNT && |im.news| == (if im.nNew < 0 then 0 else im.nNew)
    ensures Taken(Load(env, im), im)
  {
    hide LoadNews, LoadTrieds, LoadBuckets, Named, NamedIn, Mine, FromFile;
    var t0 := Blank(env, im);
    NewsFill(t0, im.news);
    var n := LoadNews(t0, im.news).(idCount := im.nNew);
    TriedFill(n, im.trieds);
    var u := LoadTrieds(n, im.trieds);
    TriedCounts(n, u, im.trieds);
    RefsFill(u, im.buckets);
    ListsOnly(u, im.buckets);
    var t := LoadBuckets(u, im.buckets);
    hide Blank;
    assert Load(env, im) == t;
    hide Load;
    forall b | 0 <= b < TRIED_BUCKET_COUNT ensures Filled(t, t, im.trieds, b) {
      SameMine(n, t, im.trieds, b);
      assert Filled(n, u, im.trieds, b);
      StillFilled(n, u, t, im.trieds, b);
    }
    hide AllFilled, ListsRead, OnlyRefs, NewsRead;
    NewsStay(n, u, t, im);
    ListsStand(u, t, im.buckets);
    Filling(n, u, t, im);
  }

  lemma StillFilled(n: State, u: State, t: State, ds: seq<Disk>, b: nat)
    requires b < |u.vvTried| && Filled(n, u, ds, b) && OnlyRefs(u, t) && Mine(t, ds, b) == Mine(n, ds, b)
    ensures b < |t.vvTried| && Filled(t, t, ds, b)
  {
    hide Mine;
  }

  lemma NewsStay(n: State, u: State, t: State, im: Image)
    requires NewsRead(n, im.news) && AllFilled(n, u, im.trieds) && OnlyRefs(u, t)
    ensures forall k :: 0 <= k < |im.news| ==>
              Id(k) in t.mapInfo && FromFile(t.mapInfo[Id(k)], im.news[k]) && !t.mapInfo[Id(k)].inTried
  {
    hide Filled;
  }

  lemma ListsStand(u: State, t: State, bs: seq<seq<int>>)
    requires |bs| == |u.vvNew| && ListsRead(u, t, bs) && (forall x :: CountOf(u, x) == 0)
    requires forall b :: 0 <= b < |u.vvNew| ==> u.vvNew[b] == {}
    ensures (forall x: Id :: Upto4(0, NamedIn(bs, x.n), CountOf(t, x)))
    ensures |t.vvNew| == |bs|
    ensures forall b, x :: 0 <= b < |bs| ==> (x in t.vvNew[b] <==> Named(bs[b], x.n) > 0 && NamedIn(bs[..b], x.n) < 4)
  {
    hide Named, NamedIn, CountOf;
    forall x: Id ensures Upto4(0, NamedIn(bs, x.n), CountOf(t, x)) {
      assert Upto4(CountOf(u, x), NamedIn(bs, x.n), CountOf(t, x));
    }
  }

  lemma Filling(n: State, u: State, t: State, im: Image)
    requires NewsRead(n, im.news) && AllFilled(n, u, im.trieds) && OnlyRefs(u, t) && n.nTried == im.nTried
    ensures |t.vvTried| == TRIED_BUCKET_COUNT && t.nTried - im.nTried + |im.trieds| == |t.vRandom| - |im.news|
  {
    hide Filled;
  }

  lemma {:induction false} InfosCounted(ts: seq<Token>, pos: nat, n: int)
    ensures ParseInfos(ts, pos, n).Parsed? ==> |ParseInfos(ts, pos, n).value| == if n < 0 then 0 else n
    decreases if n < 0 then 0 else n
  {
    if n > 0 { InfosCounted(ts, pos, n - 1); }
  }

  /** Any stream that parses with that many buckets. */
  lemma StreamTaken(env: Env, ts: seq<Token>)
    requires Parse(ts).Parsed? && |Parse(ts).value.buckets| == NEW_BUCKET_COUNT
    ensures Taken(Load(env, Parse(ts).value), Parse(ts).value)
  {
    InfosCounted(ts, 5, ts[2].n);
    var im := Parse(ts).value;
    hide ParseInfos, ParseBuckets, Taken, Load;
    assert |im.news| == if im.nNew < 0 then 0 else im.nNew;
    AnyFile(env, im);
  }
}
