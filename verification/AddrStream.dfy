/** The serialized form of the address manager, and reading it back (the IMPLEMENT_SERIALIZE block of
    src/addrman.h). The byte stream is a sequence of typed tokens. */
module AddrStream {
  import opened OrderedSet
  import opened AddrState
  import opened AddrOps
  import opened AddrInvariant
  import opened AddrTried
  import opened AddrRuns
  import opened AddrCheck

  /** The fields of an entry that are written out. */
  datatype Disk = Disk(service: Service, services: bv64, time: nat, source: NetAddr, lastSuccess: int, attempts: int)

  datatype Token = TByte(b: nat) | TKey(key: seq<nat>) | TInt(n: int) | TInfo(info: Disk)

  function Pack(info: Info): Disk {
    Disk(info.addr.service, info.addr.services, info.addr.time, info.source, info.lastSuccess, info.attempts)
  }

  /** A freshly read entry: what is not on disk has its initial value. */
  function Unpack(d: Disk): Info {
    Info(Address(d.service, d.services, d.time, 0), d.source, d.lastSuccess, d.attempts, 0, false, -1)
  }

  /** What the stream holds. */
  datatype Image = Image(key: seq<nat>, nNew: int, nTried: int, news: seq<Disk>, trieds: seq<Disk>,
                         buckets: seq<seq<int>>)

  // ---- Printing and parsing

  function PrintInfos(ds: seq<Disk>): seq<Token> {
    if ds == [] then [] else PrintInfos(ds[..|ds| - 1]) + [TInfo(ds[|ds| - 1])]
  }

  function PrintInts(ns: seq<int>): seq<Token> {
    if ns == [] then [] else PrintInts(ns[..|ns| - 1]) + [TInt(ns[|ns| - 1])]
  }

  function PrintBuckets(bs: seq<seq<int>>): seq<Token> {
    if bs == [] then [] else PrintBuckets(bs[..|bs| - 1]) + [TInt(|bs[|bs| - 1]|)] + PrintInts(bs[|bs| - 1])
  }

  function Header(im: Image): seq<Token> {
    [TByte(0), TKey(im.key), TInt(im.nNew), TInt(im.nTried), TInt(|im.buckets|)]
  }

  function Print(im: Image): seq<Token> {
    Header(im) + PrintInfos(im.news) + PrintInfos(im.trieds) + PrintBuckets(im.buckets)
  }

  datatype Parsed<T> = Parsed(value: T, pos: nat) | Bad

  /** `n` entries from position `pos`; a non-positive count reads none. */
  function ParseInfos(ts: seq<Token>, pos: nat, n: int): Parsed<seq<Disk>>
    decreases if n < 0 then 0 else n
  {
    if n <= 0 then Parsed([], pos)
    else
      match ParseInfos(ts, pos, n - 1)
      case Bad => Bad
      case Parsed(ds, p) => if p < |ts| && ts[p].TInfo? then Parsed(ds + [ts[p].info], p + 1) else Bad
  }

  function ParseInts(ts: seq<Token>, pos: nat, n: int): Parsed<seq<int>>
    decreases if n < 0 then 0 else n
  {
    if n <= 0 then Parsed([], pos)
    else
      match ParseInts(ts, pos, n - 1)
      case Bad => Bad
      case Parsed(ns, p) => if p < |ts| && ts[p].TInt? then Parsed(ns + [ts[p].n], p + 1) else Bad
  }

  function ParseBuckets(ts: seq<Token>, pos: nat, n: nat): Parsed<seq<seq<int>>> {
    if n == 0 then Parsed([], pos)
    else
      match ParseBuckets(ts, pos, n - 1)
      case Bad => Bad
      case Parsed(bs, p) =>
        if p < |ts| && ts[p].TInt? then
          match ParseInts(ts, p + 1, ts[p].n)
          case Bad => Bad
          case Parsed(ns, q) => Parsed(bs + [ns], q)
        else Bad
  }

  predicate HeaderShape(ts: seq<Token>) {
    5 <= |ts| && ts[0].TByte? && ts[1].TKey? && ts[2].TInt? && ts[3].TInt? && ts[4].TInt?
  }

  /** The number of new buckets in the stream; a negative count reads none. */
  function BucketCountOf(ts: seq<Token>): nat
    requires HeaderShape(ts)
  {
    if ts[4].n < 0 then 0 else ts[4].n
  }

  function Parse(ts: seq<Token>): Parsed<Image> {
    if !HeaderShape(ts) then Bad
    else
      match ParseInfos(ts, 5, ts[2].n)
      case Bad => Bad
      case Parsed(news, p) =>
        match ParseInfos(ts, p, ts[3].n)
        case Bad => Bad
        case Parsed(trieds, q) =>
          match ParseBuckets(ts, q, BucketCountOf(ts))
          case Bad => Bad
          case Parsed(bs, r) => Parsed(Image(ts[1].key, ts[2].n, ts[3].n, news, trieds, bs), r)
  }

  // ---- Parsing what was printed

  /** `part` stands in `ts` from position `pos` on. */
  ghost predicate At(ts: seq<Token>, pos: nat, part: seq<Token>) {
    pos + |part| <= |ts| && ts[pos..pos + |part|] == part
  }

  lemma AtSplit(ts: seq<Token>, pos: nat, x: seq<Token>, y: seq<Token>)
    requires At(ts, pos, x + y)
    ensures At(ts, pos, x) && At(ts, pos + |x|, y)
  {
    assert ts[pos..pos + |x + y|] == x + y;
    assert ts[pos..pos + |x|] == (x + y)[..|x|];
    assert ts[pos + |x|..pos + |x| + |y|] == (x + y)[|x|..];
  }

  lemma AtOne(ts: seq<Token>, pos: nat, x: Token)
    requires At(ts, pos, [x])
    ensures pos < |ts| && ts[pos] == x
  {
    assert ts[pos..pos + 1][0] == x;
  }

  lemma {:induction false} ParsePrintedInfos(ts: seq<Token>, pos: nat, ds: seq<Disk>)
    requires At(ts, pos, PrintInfos(ds))
    ensures ParseInfos(ts, pos, |ds|) == Parsed(ds, pos + |PrintInfos(ds)|)
    decreases |ds|
  {
    if ds != [] {
      var n := |ds| - 1;
      AtSplit(ts, pos, PrintInfos(ds[..n]), [TInfo(ds[n])]);
      AtOne(ts, pos + |PrintInfos(ds[..n])|, TInfo(ds[n]));
      ParsePrintedInfos(ts, pos, ds[..n]);
      assert ds == ds[..n] + [ds[n]];
    }
  }

  lemma {:induction false} ParsePrintedInts(ts: seq<Token>, pos: nat, ns: seq<int>)
    requires At(ts, pos, PrintInts(ns))
    ensures ParseInts(ts, pos, |ns|) == Parsed(ns, pos + |PrintInts(ns)|)
    decreases |ns|
  {
    if ns != [] {
      var n := |ns| - 1;
      AtSplit(ts, pos, PrintInts(ns[..n]), [TInt(ns[n])]);
      AtOne(ts, pos + |PrintInts(ns[..n])|, TInt(ns[n]));
      ParsePrintedInts(ts, pos, ns[..n]);
      assert ns == ns[..n] + [ns[n]];
    }
  }

  lemma {:induction false} ParsePrintedBuckets(ts: seq<Token>, pos: nat, bs: seq<seq<int>>)
    requires At(ts, pos, PrintBuckets(bs))
    ensures ParseBuckets(ts, pos, |bs|) == Parsed(bs, pos + |PrintBuckets(bs)|)
    decreases |bs|
  {
    hide PrintInts, ParseInts, At;
    if bs != [] {
      var n := |bs| - 1;
      var front, size, last := PrintBuckets(bs[..n]), [TInt(|bs[n]|)], PrintInts(bs[n]);
      AtSplit(ts, pos, front + size, last);
      AtSplit(ts, pos, front, size);
      AtOne(ts, pos + |front|, TInt(|bs[n]|));
      ParsePrintedBuckets(ts, pos, bs[..n]);
      ParsePrintedInts(ts, pos + |front| + 1, bs[n]);
      assert bs == bs[..n] + [bs[n]];
    }
  }

  lemma PrintedParts(h: seq<Token>, n: seq<Token>, t: seq<Token>, b: seq<Token>, z: seq<Token>)
    ensures var ts := h + n + t + b + z;
            At(ts, 0, h) && At(ts, |h|, n) && At(ts, |h| + |n|, t) && At(ts, |h| + |n| + |t|, b)
  {
    var ts := h + n + t + b + z;
    assert At(ts, 0, h + n + t + b);
    hide At;
    AtSplit(ts, 0, h + n + t, b);
    AtSplit(ts, 0, h + n, t);
    AtSplit(ts, 0, h, n);
  }

  /** Reading a printed image gives it back and stops right after it. */
  lemma ParsePrinted(im: Image, z: seq<Token>)
    requires |im.news| == im.nNew && |im.trieds| == im.nTried
    ensures Parse(Print(im) + z) == Parsed(im, |Print(im)|)
  {
    hide PrintInfos, PrintBuckets, ParseInfos, ParseBuckets;
    var n, t, b := PrintInfos(im.news), PrintInfos(im.trieds), PrintBuckets(im.buckets);
    var ts := Print(im) + z;
    PrintedParts(Header(im), n, t, b, z);
    assert ts[..5] == Header(im);
    hide At;
    ParsePrintedInfos(ts, 5, im.news);
    ParsePrintedInfos(ts, 5 + |n|, im.trieds);
    ParsePrintedBuckets(ts, 5 + |n| + |t|, im.buckets);
    ParseHeader(ts, im);
  }

  lemma ParseHeader(ts: seq<Token>, im: Image)
    requires |ts| >= 5 && ts[..5] == Header(im)
    ensures HeaderShape(ts) && ts[1].key == im.key && ts[2].n == im.nNew && ts[3].n == im.nTried
            && ts[4].n == |im.buckets|
  {
    assert ts[0] == ts[..5][0] && ts[1] == ts[..5][1] && ts[2] == ts[..5][2] && ts[3] == ts[..5][3] && ts[4] == ts[..5][4];
  }

  // ---- Writing

  /** The position of `id` in `q`: the index under which it is written. */
  function IndexOf(q: seq<Id>, id: Id): (k: nat)
    requires id in q
    ensures k < |q| && q[k] == id
  {
    if q[0] == id then 0 else 1 + IndexOf(q[1..], id)
  }

  ghost function Packs(m: map<Id, Info>, ids: seq<Id>): seq<Disk>
    requires AllIn(ids, m)
  {
    seq(|ids|, i requires 0 <= i < |ids| => Pack(m[ids[i]]))
  }

  ghost function Indices(news: seq<Id>, ids: seq<Id>): seq<int>
    requires forall k :: 0 <= k < |ids| ==> ids[k] in news
  {
    seq(|ids|, k requires 0 <= k < |ids| => IndexOf(news, ids[k]))
  }

  ghost function NewOrder(s: State): seq<Id> { Sorted(NewIds(s.mapInfo)) }

  ghost function TriedOrder(s: State): seq<Id> { Sorted(TriedIds(s.mapInfo)) }

  ghost predicate Listed(news: seq<Id>, vv: seq<set<Id>>) {
    forall b, k :: 0 <= b < |vv| && 0 <= k < |Sorted(vv[b])| ==> Sorted(vv[b])[k] in news
  }

  ghost function BucketLists(news: seq<Id>, vv: seq<set<Id>>): seq<seq<int>>
    requires Listed(news, vv)
  {
    seq(|vv|, b requires 0 <= b < |vv| => Indices(news, Sorted(vv[b])))
  }

  lemma NewListed(s: State)
    requires NewOk(s)
    ensures Listed(NewOrder(s), s.vvNew)
  {
    hide Sorted;
    forall b, k | 0 <= b < |s.vvNew| && 0 <= k < |Sorted(s.vvNew[b])| ensures Sorted(s.vvNew[b])[k] in NewOrder(s) {
      assert Sorted(s.vvNew[b])[k] in s.vvNew[b];
    }
  }

  ghost function BucketIndices(s: State): (r: seq<seq<int>>)
    requires NewOk(s)
  {
    NewListed(s);
    BucketLists(NewOrder(s), s.vvNew)
  }

  /** A file of the entries with some lists of buckets. */
  ghost function Filed(s: State, bs: seq<seq<int>>): Image {
    Image(s.key, s.nNew, s.nTried, Packs(s.mapInfo, NewOrder(s)), Packs(s.mapInfo, TriedOrder(s)), bs)
  }

  /** What the manager writes. */
  ghost function Save(s: State): Image
    requires NewOk(s)
  {
    Filed(s, BucketIndices(s))
  }

  // ---- Reading

  function Enter(t: State, d: Disk, id: Id, tried: bool): State {
    t.(mapInfo := t.mapInfo[id := Unpack(d).(randomPos := |t.vRandom|, inTried := tried)],
       mapAddr := t.mapAddr[d.service.net := id], vRandom := t.vRandom + [id])
  }

  function Blank(env: Env, im: Image): State {
    State(env, im.key, 0, map[], map[], [], im.nTried, seq(TRIED_BUCKET_COUNT, _ => []),
          im.nNew, seq(NEW_BUCKET_COUNT, _ => {}))
  }

  /** Untried entries get the ids 0, 1, 2, ... in the order in which they are read. */
  ghost function LoadNews(t: State, ds: seq<Disk>): State {
    if ds == [] then t else Enter(LoadNews(t, ds[..|ds| - 1]), ds[|ds| - 1], Id(|ds| - 1), false)
  }

  function LoadTried(t: State, d: Disk): State {
    var kb := TriedBucket(t, d.service);
    if kb < |t.vvTried| && |t.vvTried[kb]| < TRIED_BUCKET_SIZE then
      var id := Id(t.idCount);
      Enter(t, d, id, true).(vvTried := t.vvTried[kb := t.vvTried[kb] + [id]], idCount := t.idCount + 1)
    else t.(nTried := t.nTried - 1)
  }

  ghost function LoadTrieds(t: State, ds: seq<Disk>): State {
    if ds == [] then t else LoadTried(LoadTrieds(t, ds[..|ds| - 1]), ds[|ds| - 1])
  }

  const DEFAULT_INFO := Info(Address(Service(NetAddr(0), 0), 1, 100000000, 0), NetAddr(0), 0, 0, 0, false, -1)

  function Entry(m: map<Id, Info>, id: Id): Info { if id in m then m[id] else DEFAULT_INFO }

  /** One reference of bucket `b`; an entry takes at most four. */
  function LoadRef(t: State, b: nat, n: int): State {
    var info := Entry(t.mapInfo, Id(n));
    if info.refCount < NEW_BUCKETS_PER_ADDRESS && b < |t.vvNew| then
      t.(mapInfo := t.mapInfo[Id(n) := info.(refCount := info.refCount + 1)],
         vvNew := t.vvNew[b := t.vvNew[b] + {Id(n)}])
    else t.(mapInfo := t.mapInfo[Id(n) := info])
  }

  ghost function LoadRefs(t: State, b: nat, ns: seq<int>): State {
    if ns == [] then t else LoadRef(LoadRefs(t, b, ns[..|ns| - 1]), b, ns[|ns| - 1])
  }

  ghost function LoadBuckets(t: State, bs: seq<seq<int>>): State {
    if bs == [] then t else LoadRefs(LoadBuckets(t, bs[..|bs| - 1]), |bs| - 1, bs[|bs| - 1])
  }

  // ---- Reading a stream with another number of new buckets

  /** An untried entry just read goes into its own new bucket, whether that is full or not. */
  function PlaceNew(t: State, id: Id): State
    requires id in t.mapInfo && |t.vvNew| == NEW_BUCKET_COUNT
  {
    var info := t.mapInfo[id];
    var b := NewBucket(t, info.addr.service.net, info.source);
    t.(vvNew := t.vvNew[b := t.vvNew[b] + {id}], mapInfo := t.mapInfo[id := info.(refCount := info.refCount + 1)])
  }

  ghost function PlaceNews(t: State, ds: seq<Disk>): (u: State)
    requires |t.vvNew| == NEW_BUCKET_COUNT
    ensures |u.vvNew| == NEW_BUCKET_COUNT
  {
    if ds == [] then t
    else PlaceNew(Enter(PlaceNews(t, ds[..|ds| - 1]), ds[|ds| - 1], Id(|ds| - 1), false), Id(|ds| - 1))
  }

  /** A reference only makes sure that its entry is there. */
  function TouchRef(t: State, n: int): State { t.(mapInfo := t.mapInfo[Id(n) := Entry(t.mapInfo, Id(n))]) }

  ghost function TouchRefs(t: State, ns: seq<int>): State {
    if ns == [] then t else TouchRef(TouchRefs(t, ns[..|ns| - 1]), ns[|ns| - 1])
  }

  ghost function TouchBuckets(t: State, bs: seq<seq<int>>): State {
    if bs == [] then t else TouchRefs(TouchBuckets(t, bs[..|bs| - 1]), bs[|bs| - 1])
  }

  // ---- Both ways; `same` says that the stream has the current number of new buckets

  ghost function NewsAs(t: State, ds: seq<Disk>, same: bool): State
    requires |t.vvNew| == NEW_BUCKET_COUNT
  {
    if same then LoadNews(t, ds) else PlaceNews(t, ds)
  }

  ghost function RefAs(t: State, b: nat, n: int, same: bool): State {
    if same then LoadRef(t, b, n) else TouchRef(t, n)
  }

  ghost function RefsAs(t: State, b: nat, ns: seq<int>, same: bool): State {
    if same then LoadRefs(t, b, ns) else TouchRefs(t, ns)
  }

  ghost function BucketsAs(t: State, bs: seq<seq<int>>, same: bool): State {
    if same then LoadBuckets(t, bs) else TouchBuckets(t, bs)
  }

  /** The state that reading an image builds. */
  ghost function Load(env: Env, im: Image): State {
    var same := |im.buckets| == NEW_BUCKET_COUNT;
    var t := NewsAs(Blank(env, im), im.news, same).(idCount := im.nNew);
    BucketsAs(LoadTrieds(t, im.trieds), im.buckets, same)
  }

  // ---- Facts for the loops

  function Filter(m: map<Id, Info>, ids: seq<Id>, tried: bool): (r: seq<Id>)
    requires AllIn(ids, m)
    ensures AllIn(r, m) && |r| <= |ids|
  {
    if ids == [] then []
    else
      var n := |ids| - 1;
      Filter(m, ids[..n], tried) + if m[ids[n]].inTried == tried then [ids[n]] else []
  }

  lemma {:induction false} FilterMembers(m: map<Id, Info>, ids: seq<Id>, tried: bool)
    requires AllIn(ids, m)
    ensures forall x :: x in Filter(m, ids, tried) <==> x in ids && m[x].inTried == tried
  {
    if ids != [] {
      var n := |ids| - 1;
      FilterMembers(m, ids[..n], tried);
      assert ids == ids[..n] + [ids[n]];
    }
  }

  lemma {:induction false} FilterAscends(m: map<Id, Info>, ids: seq<Id>, tried: bool)
    requires AllIn(ids, m) && Ascending(ids)
    ensures Ascending(Filter(m, ids, tried))
  {
    if ids != [] {
      var n := |ids| - 1;
      FilterAscends(m, ids[..n], tried);
      FilterMembers(m, ids[..n], tried);
      var f := Filter(m, ids[..n], tried);
      forall k | 0 <= k < |f| ensures f[k].n < ids[n].n {
        assert f[k] in f;
        var j :| 0 <= j < n && ids[j] == f[k];
      }
    }
  }

  lemma FilterSorted(m: map<Id, Info>)
    ensures AllIn(Sorted(m.Keys), m)
    ensures Filter(m, Sorted(m.Keys), false) == Sorted(NewIds(m))
    ensures Filter(m, Sorted(m.Keys), true) == Sorted(TriedIds(m))
  {
    var ids := Sorted(m.Keys);
    hide Sorted;
    FilterAscends(m, ids, false);
    FilterAscends(m, ids, true);
    FilterMembers(m, ids, false);
    FilterMembers(m, ids, true);
    SortedUnique(NewIds(m), Filter(m, ids, false));
    SortedUnique(TriedIds(m), Filter(m, ids, true));
  }

  /** Filtering a prefix gives a prefix; one that is long enough is everything. */
  lemma {:induction false} FilterPrefix(m: map<Id, Info>, ids: seq<Id>, tried: bool, i: nat)
    requires AllIn(ids, m) && i <= |ids|
    ensures |Filter(m, ids[..i], tried)| <= |Filter(m, ids, tried)|
    ensures |Filter(m, ids[..i], tried)| == |Filter(m, ids, tried)| ==> Filter(m, ids[..i], tried) == Filter(m, ids, tried)
    decreases |ids| - i
  {
    if i == |ids| {
      assert ids[..i] == ids;
    } else {
      assert ids[..i + 1][..i] == ids[..i];
      FilterPrefix(m, ids, tried, i + 1);
    }
  }

  lemma FilterStep(m: map<Id, Info>, ids: seq<Id>, tried: bool, i: nat)
    requires AllIn(ids, m) && i < |ids|
    ensures Filter(m, ids[..i + 1], tried) ==
            if m[ids[i]].inTried == tried then Filter(m, ids[..i], tried) + [ids[i]] else Filter(m, ids[..i], tried)
  {
    assert ids[..i + 1][..i] == ids[..i];
  }

  lemma PrintInfosStep(m: map<Id, Info>, ids: seq<Id>, id: Id)
    requires AllIn(ids, m) && id in m
    ensures AllIn(ids + [id], m)
    ensures PrintInfos(Packs(m, ids + [id])) == PrintInfos(Packs(m, ids)) + [TInfo(Pack(m[id]))]
  {
    assert Packs(m, ids + [id])[..|ids|] == Packs(m, ids);
  }

  lemma {:induction false} IndexOfUnique(q: seq<Id>, k: nat)
    requires NoDup(q) && k < |q|
    ensures IndexOf(q, q[k]) == k
  {
    if k > 0 {
      assert q[k] == q[1..][k - 1];
      IndexOfUnique(q[1..], k - 1);
    }
  }

  /** Once parsing has failed it stays failed. */
  lemma InfosNone(ts: seq<Token>, pos: nat, n: int)
    requires n <= 0
    ensures ParseInfos(ts, pos, n) == Parsed([], pos)
  {
  }

  lemma NewsNone(t: State)
    ensures LoadNews(t, []) == t
  {
  }

  lemma NewsNext(t: State, ds: seq<Disk>, d: Disk)
    ensures LoadNews(t, ds + [d]) == Enter(LoadNews(t, ds), d, Id(|ds|), false)
  {
    assert (ds + [d])[..|ds|] == ds;
  }

  lemma PlaceNext(t: State, ds: seq<Disk>, d: Disk)
    requires |t.vvNew| == NEW_BUCKET_COUNT
    ensures PlaceNews(t, ds + [d]) == PlaceNew(Enter(PlaceNews(t, ds), d, Id(|ds|), false), Id(|ds|))
  {
    assert (ds + [d])[..|ds|] == ds;
  }

  lemma NewsAsNone(t: State, same: bool)
    requires |t.vvNew| == NEW_BUCKET_COUNT
    ensures NewsAs(t, [], same) == t
  {
  }

  lemma NewsAsNext(t: State, ds: seq<Disk>, d: Disk, same: bool)
    requires |t.vvNew| == NEW_BUCKET_COUNT && |NewsAs(t, ds, same).vvNew| == NEW_BUCKET_COUNT
    ensures var e := Enter(NewsAs(t, ds, same), d, Id(|ds|), false);
            NewsAs(t, ds + [d], same) == if same then e else PlaceNew(e, Id(|ds|))
  {
    hide LoadNews, PlaceNews, Enter, PlaceNew;
    if same { NewsNext(t, ds, d); } else { PlaceNext(t, ds, d); }
  }

  lemma InfosNext(ts: seq<Token>, pos: nat, n: nat, ds: seq<Disk>, p: nat)
    requires ParseInfos(ts, pos, n) == Parsed(ds, p)
    ensures ParseInfos(ts, pos, n + 1) == if p < |ts| && ts[p].TInfo? then Parsed(ds + [ts[p].info], p + 1) else Bad
  {
  }

  lemma IntsNone(ts: seq<Token>, pos: nat, n: int)
    requires n <= 0
    ensures ParseInts(ts, pos, n) == Parsed([], pos)
  {
  }

  lemma IntsNext(ts: seq<Token>, pos: nat, n: nat, ns: seq<int>, p: nat)
    requires ParseInts(ts, pos, n) == Parsed(ns, p)
    ensures ParseInts(ts, pos, n + 1) == if p < |ts| && ts[p].TInt? then Parsed(ns + [ts[p].n], p + 1) else Bad
  {
  }

  lemma RefsNone(t: State, b: nat, same: bool)
    ensures RefsAs(t, b, [], same) == t && BucketsAs(t, [], same) == t
  {
  }

  lemma RefsNext(t: State, b: nat, ns: seq<int>, n: int, same: bool)
    ensures RefsAs(t, b, ns + [n], same) == RefAs(RefsAs(t, b, ns, same), b, n, same)
  {
    assert (ns + [n])[..|ns|] == ns;
  }

  lemma MoreBuckets(t: State, bs: seq<seq<int>>, ns: seq<int>, same: bool)
    ensures BucketsAs(t, bs + [ns], same) == RefsAs(BucketsAs(t, bs, same), |bs|, ns, same)
  {
    assert (bs + [ns])[..|bs|] == bs;
  }

  lemma TriedsNext(t: State, ds: seq<Disk>, d: Disk)
    ensures LoadTrieds(t, ds + [d]) == LoadTried(LoadTrieds(t, ds), d)
  {
    assert (ds + [d])[..|ds|] == ds;
  }

  lemma TriedsNone(t: State)
    ensures LoadTrieds(t, []) == t
  {
  }

  lemma {:induction false} InfosStayBad(ts: seq<Token>, pos: nat, i: int, n: int)
    requires i <= n && ParseInfos(ts, pos, i).Bad?
    ensures ParseInfos(ts, pos, n).Bad?
    decreases n - i
  {
    if i < n {
      InfosStayBad(ts, pos, i, n - 1);
    }
  }

  lemma {:induction false} IntsStayBad(ts: seq<Token>, pos: nat, i: int, n: int)
    requires i <= n && ParseInts(ts, pos, i).Bad?
    ensures ParseInts(ts, pos, n).Bad?
    decreases n - i
  {
    if i < n {
      IntsStayBad(ts, pos, i, n - 1);
    }
  }

  lemma {:induction false} BucketsStayBad(ts: seq<Token>, pos: nat, i: nat, n: nat)
    requires i <= n && ParseBuckets(ts, pos, i).Bad?
    ensures ParseBuckets(ts, pos, n).Bad?
    decreases n - i
  {
    if i < n {
      BucketsStayBad(ts, pos, i, n - 1);
    }
  }

  // ---- The loops of the writer

  ghost predicate Numbered(unk: map<Id, int>, q: seq<Id>) {
    forall k :: 0 <= k < |q| ==> q[k] in unk && unk[q[k]] == k
  }

  lemma NumberedStep(unk: map<Id, int>, q: seq<Id>, id: Id)
    requires Numbered(unk, q) && id !in q
    ensures Numbered(unk[id := |q|], q) && Numbered(unk[id := |q|], q + [id])
  {
    forall k | 0 <= k < |q| ensures q[k] != id { assert q[k] in q; }
  }

  lemma NextIsNew(m: map<Id, Info>, ids: seq<Id>, i: nat, tried: bool)
    requires AllIn(ids, m) && NoDup(ids) && i < |ids|
    ensures ids[i] !in Filter(m, ids[..i], tried)
  {
    FilterMembers(m, ids[..i], tried);
  }

  /** One pass over the entries: each untried one is written and numbered. */
  method PrintUntried(m: map<Id, Info>, ids: seq<Id>, nNew: int) returns (out: seq<Token>, unk: map<Id, int>)
    requires AllIn(ids, m) && NoDup(ids) && nNew == |Filter(m, ids, false)|
    requires forall id :: id in m ==> (m[id].refCount != 0 <==> !m[id].inTried)
    ensures out == PrintInfos(Packs(m, Filter(m, ids, false))) && Numbered(unk, Filter(m, ids, false))
  {
    out, unk := [], map[];
    hide PrintInfos, Packs, Numbered, Filter, NoDup;
    FilterEmpty(m, false, unk);
    ghost var f: seq<Id> := [];
    var nIds, i := 0, 0;
    assert ids[..0] == [];
    while i < |ids|
      invariant 0 <= i <= |ids| && f == Filter(m, ids[..i], false) && nIds == |f| && AllIn(f, m)
      invariant out == PrintInfos(Packs(m, f)) && Numbered(unk, f)
    {
      FilterPrefix(m, ids, false, i);
      if nIds == nNew { return; }
      FilterStep(m, ids, false, i);
      NextIsNew(m, ids, i, false);
      NumberedStep(unk, f, ids[i]);
      unk := unk[ids[i] := nIds];
      var info := m[ids[i]];
      if info.refCount != 0 {
        PrintInfosStep(m, f, ids[i]);
        out := out + [TInfo(Pack(info))];
        nIds := nIds + 1;
        f := f + [ids[i]];
      }
      i := i + 1;
    }
    assert ids[..|ids|] == ids;
  }

  lemma FilterEmpty(m: map<Id, Info>, tried: bool, unk: map<Id, int>)
    ensures Filter(m, [], tried) == [] && PrintInfos(Packs(m, [])) == [] && Numbered(unk, [])
  {
  }

  method PrintTried(m: map<Id, Info>, ids: seq<Id>, nTried: int) returns (out: seq<Token>)
    requires AllIn(ids, m) && nTried == |Filter(m, ids, true)|
    ensures out == PrintInfos(Packs(m, Filter(m, ids, true)))
  {
    out := [];
    hide PrintInfos, Packs, Filter;
    FilterEmpty(m, true, map[]);
    ghost var f: seq<Id> := [];
    var nIds, i := 0, 0;
    assert ids[..0] == [];
    while i < |ids|
      invariant 0 <= i <= |ids| && f == Filter(m, ids[..i], true) && nIds == |f| && AllIn(f, m)
      invariant out == PrintInfos(Packs(m, f))
    {
      FilterPrefix(m, ids, true, i);
      if nIds == nTried { return; }
      FilterStep(m, ids, true, i);
      var info := m[ids[i]];
      if info.inTried {
        PrintInfosStep(m, f, ids[i]);
        out := out + [TInfo(Pack(info))];
        nIds := nIds + 1;
        f := f + [ids[i]];
      }
      i := i + 1;
    }
    assert ids[..|ids|] == ids;
  }

  /** The references of one bucket, by number. */
  method PrintBucket(unk: map<Id, int>, news: seq<Id>, ids: seq<Id>) returns (out: seq<Token>)
    requires Numbered(unk, news) && NoDup(news) && forall k :: 0 <= k < |ids| ==> ids[k] in news
    ensures out == PrintInts(Indices(news, ids))
  {
    out := [];
    var i := 0;
    var ns := [];
    while i < |ids|
      invariant 0 <= i <= |ids| && out == PrintInts(ns)
      invariant |ns| == i && forall k :: 0 <= k < i ==> ns[k] == IndexOf(news, ids[k])
    {
      var j := IndexOf(news, ids[i]);
      assert news[j] == ids[i];
      var n := unk[ids[i]];
      assert (ns + [n])[..i] == ns;
      ns := ns + [n];
      out := out + [TInt(n)];
      i := i + 1;
    }
    assert ns == Indices(news, ids);
  }

  method PrintRefs(unk: map<Id, int>, news: seq<Id>, vv: seq<set<Id>>) returns (out: seq<Token>)
    requires Numbered(unk, news) && NoDup(news)
    requires Listed(news, vv)
    ensures out == PrintBuckets(BucketLists(news, vv))
  {
    hide Sorted, Indices, PrintInts, Numbered, NoDup;
    ghost var all := BucketLists(news, vv);
    out := [];
    var b := 0;
    while b < |vv|
      invariant 0 <= b <= |vv| && out == PrintBuckets(all[..b])
    {
      var refs := PrintBucket(unk, news, Sorted(vv[b]));
      out := out + [TInt(|vv[b]|)] + refs;
      assert all[..b + 1][..b] == all[..b];
      IndicesSize(news, Sorted(vv[b]));
      b := b + 1;
    }
    assert all[..|vv|] == all;
  }

  lemma IndicesSize(news: seq<Id>, ids: seq<Id>)
    requires forall k :: 0 <= k < |ids| ==> ids[k] in news
    ensures |Indices(news, ids)| == |ids|
  {
  }

  /** Reading is three parses after the header, each from where the last one stopped. */
  lemma ParseStages(ts: seq<Token>, env: Env)
    requires HeaderShape(ts)
    ensures var a, same := ParseInfos(ts, 5, ts[2].n), ts[4].n == NEW_BUCKET_COUNT;
            if a.Bad? then Parse(ts).Bad?
            else
              var b := ParseInfos(ts, a.pos, ts[3].n);
              if b.Bad? then Parse(ts).Bad?
              else
                var c := ParseBuckets(ts, b.pos, BucketCountOf(ts));
                if c.Bad? then Parse(ts).Bad?
                else
                  && Parse(ts).Parsed? && Parse(ts).pos == c.pos
                  && Load(env, Parse(ts).value) ==
                     BucketsAs(LoadTrieds(NewsAs(Start(env, ts), a.value, same).(idCount := ts[2].n), b.value), c.value, same)
  {
    hide ParseInfos, ParseBuckets, NewsAs, LoadTrieds, BucketsAs;
    var a := ParseInfos(ts, 5, ts[2].n);
    if a.Parsed? {
      var b := ParseInfos(ts, a.pos, ts[3].n);
      if b.Parsed? { BucketsCounted(ts, b.pos, BucketCountOf(ts)); }
    }
  }

  lemma {:induction false} BucketsCounted(ts: seq<Token>, pos: nat, n: nat)
    ensures ParseBuckets(ts, pos, n).Parsed? ==> |ParseBuckets(ts, pos, n).value| == n
  {
    hide ParseInts;
    if n > 0 { BucketsCounted(ts, pos, n - 1); }
  }

  function Start(env: Env, ts: seq<Token>): State
    requires HeaderShape(ts)
  {
    Blank(env, Image(ts[1].key, ts[2].n, ts[3].n, [], [], []))
  }
}
