/** The manager's own consistency check, and what it means for it to pass. */
module AddrCheck {
  import opened OrderedSet
  import opened AddrState
  import opened AddrOps
  import opened AddrInvariant
  import opened AddrTried
  import opened AddrRuns

  /** std::map's operator[] reads a missing key as a zero it inserts. */
  function Lookup(m: map<NetAddr, Id>, a: NetAddr): Id { if a in m then m[a] else Id(0) }

  predicate StatsPass(info: Info) {
    && (if info.inTried then info.lastSuccess != 0 && info.refCount == 0
        else 1 <= info.refCount <= NEW_BUCKETS_PER_ADDRESS)
    && info.addr.lastTry >= 0 && info.lastSuccess >= 0
  }

  predicate EntryPasses(m: map<Id, Info>, addrs: map<NetAddr, Id>, order: seq<Id>, id: Id)
    requires id in m
  {
    var info := m[id];
    && StatsPass(info)
    && Lookup(addrs, info.addr.service.net) == id
    && 0 <= info.randomPos < |order| && order[info.randomPos] == id
  }

  /** How often `id` occurs in the tried buckets. */
  ghost function Occurrences(vv: seq<seq<Id>>, id: Id): nat {
    if vv == [] then 0 else Occurrences(vv[..|vv| - 1], id) + multiset(vv[|vv| - 1])[id]
  }

  /** Every tried id occurs once in the tried buckets, and nothing else occurs there. */
  ghost predicate TriedPasses(vv: seq<seq<Id>>, tried: set<Id>) {
    forall id :: Occurrences(vv, id) == if id in tried then 1 else 0
  }

  /** Every new id is in as many buckets as its count says, and nothing else is in any. */
  ghost predicate NewPasses(vv: seq<set<Id>>, counts: map<Id, int>) {
    forall id :: Refs(vv, id) == if id in counts then counts[id] else 0
  }

  ghost function Counts(m: map<Id, Info>): map<Id, int> { map id | id in m && !m[id].inTried :: m[id].refCount }

  /** What the whole check tests. */
  ghost predicate Passes(s: State) {
    && |s.vRandom| == s.nTried + s.nNew
    && (forall id :: id in s.mapInfo ==> EntryPasses(s.mapInfo, s.mapAddr, s.vRandom, id))
    && |TriedIds(s.mapInfo)| == s.nTried && |NewIds(s.mapInfo)| == s.nNew
    && TriedPasses(s.vvTried, TriedIds(s.mapInfo))
    && NewPasses(s.vvNew, Counts(s.mapInfo))
  }

  // ---- The tried half

  lemma {:induction false} OccurrencesGrow(vv: seq<seq<Id>>, n: nat, id: Id)
    requires n <= |vv|
    ensures Occurrences(vv[..n], id) <= Occurrences(vv, id)
    decreases |vv| - n
  {
    if n < |vv| {
      assert vv[..n + 1][..n] == vv[..n];
      OccurrencesGrow(vv, n + 1, id);
    } else {
      assert vv[..n] == vv;
    }
  }

  /** The loop over one tried bucket: strike each entry off the set. */
  method StrikeBucket(q: seq<Id>, pending: set<Id>) returns (ok: bool, rest: set<Id>)
    ensures ok <==> forall id :: multiset(q)[id] <= if id in pending then 1 else 0
    ensures ok ==> rest <= pending && forall id :: id in pending ==> (id in rest <==> multiset(q)[id] == 0)
  {
    rest := pending;
    var k := 0;
    while k < |q|
      invariant 0 <= k <= |q| && rest <= pending
      invariant forall id :: multiset(q[..k])[id] == if id in pending && id !in rest then 1 else 0
    {
      assert q[..k + 1] == q[..k] + [q[k]];
      if q[k] !in rest {
        assert q == q[..k] + [q[k]] + q[k + 1..];
        assert multiset(q)[q[k]] > if q[k] in pending then 1 else 0;
        return false, rest;
      }
      rest := rest - {q[k]};
      k := k + 1;
    }
    assert q[..|q|] == q;
    return true, rest;
  }

  /** Strike off every occurrence; what is left over was in no bucket. */
  method CheckTried(vv: seq<seq<Id>>, tried: set<Id>) returns (ok: bool, pending: set<Id>)
    ensures ok && pending == {} <==> TriedPasses(vv, tried)
  {
    var n := 0;
    pending := tried;
    while n < |vv|
      invariant 0 <= n <= |vv| && pending <= tried
      invariant forall id :: Occurrences(vv[..n], id) == if id in tried && id !in pending then 1 else 0
    {
      var good, rest := StrikeBucket(vv[n], pending);
      assert vv[..n + 1][..n] == vv[..n];
      if !good {
        var id :| multiset(vv[n])[id] > if id in pending then 1 else 0;
        OccurrencesGrow(vv, n + 1, id);
        assert Occurrences(vv, id) > if id in tried then 1 else 0;
        return false, pending;
      }
      pending := rest;
      n := n + 1;
    }
    assert vv[..|vv|] == vv;
    ok := true;
    if pending != {} {
      ghost var id := Pick(pending);
      assert Occurrences(vv, id) == 0;
    }
  }

  // ---- The new half

  lemma {:induction false} RefsGrow(vv: seq<set<Id>>, n: nat, id: Id)
    requires n <= |vv|
    ensures Refs(vv[..n], id) <= Refs(vv, id)
    decreases |vv| - n
  {
    if n < |vv| {
      assert vv[..n + 1][..n] == vv[..n];
      RefsGrow(vv, n + 1, id);
    } else {
      assert vv[..n] == vv;
    }
  }

  /** References of `id` in the buckets `vv`, and one more if it is in `done`. */
  ghost function Seen(vv: seq<set<Id>>, done: set<Id>, id: Id): nat {
    Refs(vv, id) + if id in done then 1 else 0
  }

  /** `left` counts down from `counts` as references are seen, and drops an id when it reaches zero. */
  ghost predicate CountingDown(counts: map<Id, int>, left: map<Id, int>, vv: seq<set<Id>>, done: set<Id>) {
    && (forall id :: id in left ==> id in counts && left[id] == counts[id] - Seen(vv, done, id) && left[id] > 0)
    && (forall id :: id !in left ==> Seen(vv, done, id) == if id in counts then counts[id] else 0)
  }

  method CountOne(counts: map<Id, int>, left: map<Id, int>, id: Id, ghost vv: seq<set<Id>>, ghost done: set<Id>)
    returns (next: map<Id, int>)
    requires CountingDown(counts, left, vv, done) && id in left && id !in done
    ensures CountingDown(counts, next, vv, done + {id})
    ensures forall x :: x != id ==> (x in next <==> x in left)
  {
    if left[id] - 1 == 0 {
      next := left - {id};
    } else {
      next := left[id := left[id] - 1];
    }
  }

  /** The loop over one new bucket: count each entry down. */
  method CountBucket(b: set<Id>, counts: map<Id, int>, before: map<Id, int>, ghost vv: seq<set<Id>>)
    returns (ok: bool, left: map<Id, int>)
    requires CountingDown(counts, before, vv, {})
    ensures ok <==> forall id :: id in b ==> id in before
    ensures ok ==> CountingDown(counts, left, vv, b)
  {
    hide CountingDown;
    left := before;
    var ids := Sorted(b);
    ghost var done: set<Id> := {};
    var k := 0;
    while k < |ids|
      invariant 0 <= k <= |ids|
      invariant forall j :: 0 <= j < k ==> ids[j] in done
      invariant forall j :: k <= j < |ids| ==> ids[j] !in done
      invariant done <= b && done <= before.Keys
      invariant forall x :: x !in done ==> (x in left <==> x in before)
      invariant CountingDown(counts, left, vv, done)
    {
      var id := ids[k];
      if id !in left { return false, left; }
      left := CountOne(counts, left, id, vv, done);
      done := done + {id};
      k := k + 1;
    }
    forall x | x in b ensures x in done { assert x in ids; }
    assert done == b;
    return true, left;
  }

  lemma CountNext(counts: map<Id, int>, left: map<Id, int>, vv: seq<set<Id>>, b: set<Id>)
    requires CountingDown(counts, left, vv, b)
    ensures CountingDown(counts, left, vv + [b], {})
  {
    assert (vv + [b])[..|vv|] == vv;
    assert forall id :: Seen(vv + [b], {}, id) == Seen(vv, b, id);
  }

  method CheckNew(vv: seq<set<Id>>, counts: map<Id, int>) returns (ok: bool, left: map<Id, int>)
    requires forall id :: id in counts ==> counts[id] > 0
    ensures ok && left == map[] <==> NewPasses(vv, counts)
  {
    var n := 0;
    left := counts;
    while n < |vv|
      invariant 0 <= n <= |vv|
      invariant CountingDown(counts, left, vv[..n], {})
    {
      assert vv[..n + 1] == vv[..n] + [vv[n]];
      var good, next := CountBucket(vv[n], counts, left, vv[..n]);
      if !good {
        var id :| id in vv[n] && id !in left;
        assert Seen(vv[..n], {}, id) == Refs(vv[..n], id);
        assert vv[..n + 1][..n] == vv[..n];
        RefsGrow(vv, n + 1, id);
        assert Refs(vv, id) > if id in counts then counts[id] else 0;
        return false, left;
      }
      left := next;
      CountNext(counts, left, vv[..n], vv[n]);
      n := n + 1;
    }
    assert vv[..|vv|] == vv;
    ok := true;
    if left == map[] {
      forall id ensures Refs(vv, id) == if id in counts then counts[id] else 0 {
        assert Seen(vv, {}, id) == Refs(vv, id);
      }
    } else {
      ghost var id := Pick(left.Keys);
      assert Seen(vv, {}, id) == Refs(vv, id);
      assert Refs(vv, id) < counts[id];
    }
  }

  // ---- The entries

  /** The tests on one entry, with the code of the first that fails. */
  method CheckEntry(m: map<Id, Info>, ghost addrs: map<NetAddr, Id>, order: seq<Id>, id: Id, found: Id)
    returns (err: int)
    requires id in m && found == Lookup(addrs, m[id].addr.service.net)
    ensures err == 0 <==> EntryPasses(m, addrs, order, id)
  {
    var info := m[id];
    if info.inTried {
      if info.lastSuccess == 0 { return -1; }
      if info.refCount != 0 { return -2; }
    } else {
      if info.refCount < 0 || info.refCount > NEW_BUCKETS_PER_ADDRESS { return -3; }
      if info.refCount == 0 { return -4; }
    }
    if found != id { return -5; }
    if info.randomPos < 0 || info.randomPos >= |order| || order[info.randomPos] != id { return -14; }
    if info.addr.lastTry < 0 { return -6; }
    if info.lastSuccess < 0 { return -8; }
    return 0;
  }

  method ReadKey(ghost addrs: map<NetAddr, Id>, before: map<NetAddr, Id>, a: NetAddr)
    returns (grown: map<NetAddr, Id>, found: Id)
    requires ReadsAlike(addrs, before)
    ensures ReadsAlike(addrs, grown) && found == Lookup(addrs, a)
    ensures a in before ==> grown == before
  {
    grown := before;
    if a !in grown { grown := grown[a := Id(0)]; }
    found := grown[a];
    assert Lookup(before, a) == Lookup(addrs, a);
  }

  ghost predicate ReadsAlike(a: map<NetAddr, Id>, b: map<NetAddr, Id>) {
    a.Keys <= b.Keys && forall x :: Lookup(a, x) == Lookup(b, x)
  }

  method CheckEntries(m: map<Id, Info>, addrs: map<NetAddr, Id>, order: seq<Id>)
    returns (err: int, grown: map<NetAddr, Id>, tried: set<Id>, counts: map<Id, int>)
    ensures err == 0 <==> forall id :: id in m ==> EntryPasses(m, addrs, order, id)
    ensures err == 0 ==> tried == TriedIds(m) && counts == Counts(m)
    ensures ReadsAlike(addrs, grown)
    ensures (forall id :: id in m ==> m[id].addr.service.net in addrs) ==> grown == addrs
  {
    hide EntryPasses, StatsPass, Held, Collected, ReadsAlike, Sorted, Ascending;
    err, grown, tried, counts := 0, addrs, {}, map[];
    CollectedNone(m, addrs);
    var ids, i := Sorted(m.Keys), 0;
    while i < |ids|
      invariant 0 <= i <= |ids| && err == 0 && ReadsAlike(addrs, grown)
      invariant forall j :: 0 <= j < i ==> EntryPasses(m, addrs, order, ids[j])
      invariant forall j :: 0 <= j < i ==> Held(m, tried, counts, ids[j])
      invariant Collected(m, tried, counts)
      invariant (forall id :: id in m ==> m[id].addr.service.net in addrs) ==> grown == addrs
    {
      var id := ids[i];
      var info := m[id];
      var found;
      grown, found := ReadKey(addrs, grown, info.addr.service.net);
      err := CheckEntry(m, addrs, order, id, found);
      if err != 0 { return; }
      tried, counts := Collect(m, id, tried, counts);
      i := i + 1;
    }
    forall id | id in m
      ensures EntryPasses(m, addrs, order, id) && Held(m, tried, counts, id)
    {
      assert id in ids;
    }
    CollectedAll(m, tried, counts);
  }

  ghost predicate Collected(m: map<Id, Info>, tried: set<Id>, counts: map<Id, int>) {
    && (forall x :: x in tried ==> x in m && m[x].inTried)
    && (forall x :: x in counts ==> x in m && !m[x].inTried && counts[x] == m[x].refCount)
  }

  ghost predicate Held(m: map<Id, Info>, tried: set<Id>, counts: map<Id, int>, id: Id) {
    id in m && if m[id].inTried then id in tried else id in counts
  }

  lemma CollectedNone(m: map<Id, Info>, addrs: map<NetAddr, Id>)
    ensures Collected(m, {}, map[]) && ReadsAlike(addrs, addrs)
  {
  }

  method Collect(m: map<Id, Info>, id: Id, tried0: set<Id>, counts0: map<Id, int>)
    returns (tried: set<Id>, counts: map<Id, int>)
    requires id in m && Collected(m, tried0, counts0)
    ensures Collected(m, tried, counts) && Held(m, tried, counts, id)
    ensures forall x :: Held(m, tried0, counts0, x) ==> Held(m, tried, counts, x)
  {
    tried, counts := tried0, counts0;
    if m[id].inTried { tried := tried + {id}; } else { counts := counts[id := m[id].refCount]; }
  }

  lemma CollectedAll(m: map<Id, Info>, tried: set<Id>, counts: map<Id, int>)
    requires Collected(m, tried, counts)
    requires forall id :: id in m ==> Held(m, tried, counts, id)
    ensures tried == TriedIds(m) && counts == Counts(m)
  {
  }

  // ---- The invariant passes the check

  lemma {:induction false} OccurrencesOf(vv: seq<seq<Id>>, id: Id, kb: int)
    requires forall b :: 0 <= b < |vv| ==> multiset(vv[b])[id] == if b == kb then 1 else 0
    ensures Occurrences(vv, id) == if 0 <= kb < |vv| then 1 else 0
  {
    if vv != [] {
      OccurrencesOf(vv[..|vv| - 1], id, kb);
    }
  }

  lemma InvTriedPasses(s: State)
    requires TriedOk(s)
    ensures TriedPasses(s.vvTried, TriedIds(s.mapInfo))
  {
    forall id ensures Occurrences(s.vvTried, id) == if id in TriedIds(s.mapInfo) then 1 else 0 {
      var kb := if id in TriedIds(s.mapInfo) then TriedBucket(s, s.mapInfo[id].addr.service) else -1;
      forall b | 0 <= b < |s.vvTried| ensures multiset(s.vvTried[b])[id] == if b == kb then 1 else 0 {
        NoDupCounts(s.vvTried[b]);
        forall k | 0 <= k < |s.vvTried[b]| ensures s.vvTried[b][k] == id ==> b == kb {
          assert TriedAt(s, s.vvTried[b][k], b);
        }
        assert id in s.vvTried[b] <==> b == kb;
      }
      OccurrencesOf(s.vvTried, id, kb);
    }
  }

  lemma InvNewPasses(s: State)
    requires NewOk(s) && EntriesOk(s, {})
    ensures NewPasses(s.vvNew, Counts(s.mapInfo))
  {
    forall id ensures Refs(s.vvNew, id) == if id in Counts(s.mapInfo) then Counts(s.mapInfo)[id] else 0 {
      RefsZero(s.vvNew, id);
      if id in s.mapInfo { assert EntryOk(s, id, {}); }
    }
  }

  /** Every state that satisfies the invariant passes the manager's own check. */
  lemma InvPasses(s: State)
    requires Inv(s)
    ensures Passes(s)
  {
    Bounded(s);
    InvTriedPasses(s);
    InvNewPasses(s);
    hide MapOk, RandOk, EntriesOk, TriedOk, NewOk, EntryPasses, TriedPasses, NewPasses;
    forall id | id in s.mapInfo ensures EntryPasses(s.mapInfo, s.mapAddr, s.vRandom, id) {
      InvEntryPasses(s, id);
    }
  }

  lemma InvEntryPasses(s: State, id: Id)
    requires MapOk(s) && RandOk(s) && EntriesOk(s, {}) && id in s.mapInfo
    ensures EntryPasses(s.mapInfo, s.mapAddr, s.vRandom, id)
  {
    assert EntryOk(s, id, {});
  }

  // ---- And a state that passes has the invariant, as far as the check goes

  /** What Check_ does not look at: the range of ids, the index by address, the sizes of buckets and which bucket a tried
      entry belongs to. */
  ghost predicate Unchecked(s: State) {
    && s.idCount >= 0 && (forall id :: id in s.mapInfo ==> 0 <= id.n < s.idCount)
    && (forall id :: id in s.mapInfo ==> s.mapInfo[id].addr.service.net in s.mapAddr)
    && (forall a :: a in s.mapAddr ==> s.mapAddr[a] in s.mapInfo && s.mapInfo[s.mapAddr[a]].addr.service.net == a)
    && |s.vvTried| == TRIED_BUCKET_COUNT && (forall b :: 0 <= b < |s.vvTried| ==> |s.vvTried[b]| <= TRIED_BUCKET_SIZE)
    && |s.vvNew| == NEW_BUCKET_COUNT && (forall b :: 0 <= b < |s.vvNew| ==> |s.vvNew[b]| <= NEW_BUCKET_SIZE)
    && forall b, k :: 0 <= b < |s.vvTried| && 0 <= k < |s.vvTried[b]| && s.vvTried[b][k] in s.mapInfo ==>
         TriedBucket(s, s.mapInfo[s.vvTried[b][k]].addr.service) == b
  }

  lemma PassesMaps(s: State)
    requires Passes(s) && Unchecked(s)
    ensures MapOk(s) && CountOk(s)
  {
    hide TriedPasses, NewPasses, StatsPass;
    forall id | id in s.mapInfo ensures s.mapAddr[s.mapInfo[id].addr.service.net] == id {
      assert EntryPasses(s.mapInfo, s.mapAddr, s.vRandom, id);
    }
  }

  lemma PassesEntries(s: State)
    requires Passes(s)
    ensures EntriesOk(s, {})
  {
    hide TriedPasses;
    forall id | id in s.mapInfo ensures EntryOk(s, id, {}) {
      assert EntryPasses(s.mapInfo, s.mapAddr, s.vRandom, id);
      CountedRefs(s, id);
      hide NewPasses, Refs;
    }
  }

  lemma CountedRefs(s: State, id: Id)
    requires NewPasses(s.vvNew, Counts(s.mapInfo))
    ensures Refs(s.vvNew, id) == if id in s.mapInfo && !s.mapInfo[id].inTried then s.mapInfo[id].refCount else 0
  {
  }

  lemma PassesNew(s: State)
    requires NewPasses(s.vvNew, Counts(s.mapInfo))
    requires |s.vvNew| == NEW_BUCKET_COUNT && forall b :: 0 <= b < |s.vvNew| ==> |s.vvNew[b]| <= NEW_BUCKET_SIZE
    ensures NewOk(s)
  {
    hide NewPasses, Refs;
    forall b, id | 0 <= b < |s.vvNew| && id in s.vvNew[b] ensures id in s.mapInfo && !s.mapInfo[id].inTried {
      RefsZero(s.vvNew, id);
      InNewPasses(s, id);
    }
  }

  lemma InNewPasses(s: State, id: Id)
    requires NewPasses(s.vvNew, Counts(s.mapInfo)) && Refs(s.vvNew, id) != 0
    ensures id in s.mapInfo && !s.mapInfo[id].inTried
  {
  }

  /** Entries with places of their own, as many as there are places, fill all of them. */
  lemma AllPlaced(m: map<Id, Info>, q: seq<Id>, i: nat)
    requires i < |q| == |m.Keys|
    requires forall id :: id in m ==> 0 <= m[id].randomPos < |q| && q[m[id].randomPos] == id
    ensures q[i] in m && m[q[i]].randomPos == i
  {
    if !(q[i] in m && m[q[i]].randomPos == i) {
      var r := q[..i] + q[i + 1..];
      forall id | id in m.Keys ensures id in Members(r) {
        var p := m[id].randomPos;
        assert r[if p < i then p else p - 1] == id;
      }
      SubsetSize(m.Keys, Members(r));
    }
  }

  lemma PassesRandom(s: State)
    requires Passes(s)
    ensures RandOk(s)
  {
    hide TriedPasses, NewPasses, StatsPass;
    assert forall id :: id in s.mapInfo ==> EntryPasses(s.mapInfo, s.mapAddr, s.vRandom, id);
    assert s.mapInfo.Keys == NewIds(s.mapInfo) + TriedIds(s.mapInfo);
    forall i | 0 <= i < |s.vRandom| ensures s.vRandom[i] in s.mapInfo && s.mapInfo[s.vRandom[i]].randomPos == i {
      AllPlaced(s.mapInfo, s.vRandom, i);
    }
  }

  lemma {:induction false} OccurrencesBound(vv: seq<seq<Id>>, b: nat, id: Id)
    requires b < |vv|
    ensures multiset(vv[b])[id] <= Occurrences(vv, id)
  {
    if b < |vv| - 1 { OccurrencesBound(vv[..|vv| - 1], b, id); }
  }

  lemma {:induction false} OccurrencesSome(vv: seq<seq<Id>>, id: Id) returns (b: nat)
    requires Occurrences(vv, id) > 0
    ensures b < |vv| && id in vv[b]
  {
    var n := |vv| - 1;
    if multiset(vv[n])[id] > 0 {
      b := n;
      assert id in multiset(vv[n]);
    } else {
      b := OccurrencesSome(vv[..n], id);
    }
  }

  lemma PassesTried(s: State)
    requires TriedPasses(s.vvTried, TriedIds(s.mapInfo)) && Unchecked(s)
    ensures TriedOk(s)
  {
    hide TriedBucket;
    forall b | 0 <= b < |s.vvTried| ensures NoDup(s.vvTried[b]) {
      forall id ensures multiset(s.vvTried[b])[id] <= 1 {
        OccurrencesBound(s.vvTried, b, id);
        assert Occurrences(s.vvTried, id) <= 1;
      }
      NoDupCounts(s.vvTried[b]);
    }
    forall b, k | 0 <= b < |s.vvTried| && 0 <= k < |s.vvTried[b]| ensures TriedAt(s, s.vvTried[b][k], b) {
      var id := s.vvTried[b][k];
      OccurrencesBound(s.vvTried, b, id);
      assert id in multiset(s.vvTried[b]);
      assert Occurrences(s.vvTried, id) == if id in TriedIds(s.mapInfo) then 1 else 0;
    }
    forall id | id in s.mapInfo && s.mapInfo[id].inTried ensures id in s.vvTried[TriedBucket(s, s.mapInfo[id].addr.service)] {
      assert Occurrences(s.vvTried, id) == 1;
      var b := OccurrencesSome(s.vvTried, id);
      var k :| 0 <= k < |s.vvTried[b]| && s.vvTried[b][k] == id;
      assert TriedBucket(s, s.mapInfo[s.vvTried[b][k]].addr.service) == b;
    }
  }

  /** The invariant is exactly what Check_ tests together with what it leaves out. */
  lemma CheckDecides(s: State)
    ensures Inv(s) <==> Passes(s) && Unchecked(s)
  {
    hide MapOk, RandOk, TriedOk, EntriesOk, NewOk, CountOk, Passes, Unchecked, TriedPasses, NewPasses;
    if Inv(s) {
      InvPasses(s);
      InvUnchecked(s);
    }
    if Passes(s) && Unchecked(s) {
      UncheckedSizes(s);
      PassesTables(s);
      PassesMaps(s);
      PassesEntries(s);
      PassesNew(s);
      PassesRandom(s);
      PassesTried(s);
    }
  }

  lemma PassesTables(s: State)
    requires Passes(s)
    ensures TriedPasses(s.vvTried, TriedIds(s.mapInfo)) && NewPasses(s.vvNew, Counts(s.mapInfo))
  {
  }

  lemma UncheckedSizes(s: State)
    requires Unchecked(s)
    ensures |s.vvNew| == NEW_BUCKET_COUNT && forall b :: 0 <= b < |s.vvNew| ==> |s.vvNew[b]| <= NEW_BUCKET_SIZE
  {
  }

  lemma InvUnchecked(s: State)
    requires Inv(s)
    ensures Unchecked(s)
  {
    forall b, k | 0 <= b < |s.vvTried| && 0 <= k < |s.vvTried[b]| ensures TriedAt(s, s.vvTried[b][k], b) {}
  }
}
