/** Good_ and MakeTried: moving an entry from the new buckets to its tried bucket. */
module AddrTried {
  import opened OrderedSet
  import opened AddrState
  import opened AddrOps
  import opened AddrInvariant

  // ---- Permutations without repetition

  lemma {:induction false} NoDupCounts(q: seq<Id>)
    ensures NoDup(q) <==> forall x :: multiset(q)[x] <= 1
  {
    if q != [] {
      var n := |q| - 1;
      NoDupCounts(q[..n]);
      assert q == q[..n] + [q[n]];
      assert multiset(q) == multiset(q[..n]) + multiset{q[n]};
      if NoDup(q) {
        assert forall k :: 0 <= k < n ==> q[..n][k] == q[k];
        assert q[n] !in q[..n];
        assert multiset(q[..n])[q[n]] == 0;
      } else {
        var i, j :| 0 <= i < j < |q| && q[i] == q[j];
        if j == n {
          assert q[..n][i] in multiset(q[..n]);
          assert multiset(q)[q[n]] >= 2;
        } else {
          assert q[..n][i] == q[..n][j];
          assert !NoDup(q[..n]);
          var x :| multiset(q[..n])[x] > 1;
          assert multiset(q)[x] > 1;
        }
      }
    }
  }

  lemma PermNoDup(r: seq<Id>, q: seq<Id>)
    requires Perm(r, q) && NoDup(q)
    ensures NoDup(r)
  {
    NoDupCounts(q);
    NoDupCounts(r);
  }

  lemma PermMembers(r: seq<Id>, q: seq<Id>)
    requires Perm(r, q)
    ensures forall x :: x in r <==> x in q
  {
    forall x ensures x in r <==> x in q {
      assert x in r <==> x in multiset(r);
      assert x in q <==> x in multiset(q);
    }
  }

  // ---- What a move does

  lemma {:induction false} StripRefs(vv: seq<set<Id>>, id: Id, x: Id)
    ensures Refs(Strip(vv, id), x) == if x == id then 0 else Refs(vv, x)
  {
    if vv != [] {
      var n := |vv| - 1;
      assert Strip(vv, id)[..n] == Strip(vv[..n], id);
      StripRefs(vv[..n], id, x);
    }
  }

  /** `id` has left the new buckets for the tried table; the entries in `back`, at most one, have gone the
      other way, into bucket `target`. */
  ghost predicate Moved(s: State, t: State, id: Id, back: set<Id>, target: nat) {
    && id in s.mapInfo && !s.mapInfo[id].inTried && id !in back && |back| <= 1 && back <= s.mapInfo.Keys
    && t.mapInfo.Keys == s.mapInfo.Keys
    && t.mapInfo[id] == s.mapInfo[id].(inTried := true, refCount := 0)
    && (forall x :: x in back ==>
          s.mapInfo[x].inTried && t.mapInfo[x] == s.mapInfo[x].(inTried := false, refCount := 1))
    && (forall x :: x in s.mapInfo && x != id && x !in back ==> t.mapInfo[x] == s.mapInfo[x])
    && t.idCount == s.idCount && t.mapAddr == s.mapAddr && t.vRandom == s.vRandom
    && t.env == s.env && t.key == s.key
    && t.nNew == s.nNew - 1 + |back| && t.nTried == s.nTried + 1 - |back|
    && target < |s.vvNew|
    && t.vvNew == Strip(s.vvNew, id)[target := Strip(s.vvNew, id)[target] + back]
    && (back != {} ==> |Strip(s.vvNew, id)[target]| < NEW_BUCKET_SIZE)
  }

  lemma MovedMapOk(s: State, t: State, id: Id, back: set<Id>, target: nat)
    requires MapOk(s) && RandOk(s) && Moved(s, t, id, back, target)
    ensures MapOk(t) && RandOk(t)
  {
    hide MapOk, RandOk, Moved;
    MovedIndexes(s, t, id, back, target);
    MovedPlaces(s, t, id, back, target);
  }

  lemma MovedIndexes(s: State, t: State, id: Id, back: set<Id>, target: nat)
    requires MapOk(s) && Moved(s, t, id, back, target)
    ensures MapOk(t)
  {
  }

  lemma MovedPlaces(s: State, t: State, id: Id, back: set<Id>, target: nat)
    requires RandOk(s) && Moved(s, t, id, back, target)
    ensures RandOk(t)
  {
  }

  lemma MovedNewOk(s: State, t: State, id: Id, back: set<Id>, target: nat)
    requires NewOk(s) && Moved(s, t, id, back, target)
    ensures NewOk(t)
  {
    forall b | 0 <= b < |t.vvNew| ensures |t.vvNew[b]| <= NEW_BUCKET_SIZE {
      SubsetSize(Strip(s.vvNew, id)[b], s.vvNew[b]);
    }
    forall b, x | 0 <= b < |t.vvNew| && x in t.vvNew[b] ensures x in t.mapInfo && !t.mapInfo[x].inTried {
      if x !in back { assert x in s.vvNew[b]; }
    }
  }

  lemma MovedEntriesOk(s: State, t: State, id: Id, back: set<Id>, target: nat)
    requires NewOk(s) && EntriesOk(s, {}) && Moved(s, t, id, back, target) && s.mapInfo[id].lastSuccess != 0
    ensures EntriesOk(t, {})
  {
    var vv := Strip(s.vvNew, id);
    forall x | x in t.mapInfo ensures EntryOk(t, x, {}) {
      assert EntryOk(s, x, {});
      StripRefs(s.vvNew, id, x);
      RefsUpdate(vv, target, vv[target] + back, x);
      RefsZero(s.vvNew, x);
    }
  }

  lemma MovedIds(s: State, t: State, id: Id, back: set<Id>, target: nat)
    requires Moved(s, t, id, back, target)
    ensures NewIds(t.mapInfo) == NewIds(s.mapInfo) - {id} + back
    ensures TriedIds(t.mapInfo) == TriedIds(s.mapInfo) + {id} - back
    ensures id in NewIds(s.mapInfo) && back <= TriedIds(s.mapInfo) && back !! NewIds(s.mapInfo)
  {
    hide Strip;
    forall x | x in s.mapInfo ensures x in NewIds(t.mapInfo) <==> x in NewIds(s.mapInfo) - {id} + back {}
    forall x | x in s.mapInfo ensures x in TriedIds(t.mapInfo) <==> x in TriedIds(s.mapInfo) + {id} - back {}
  }

  lemma SwapSizes<T>(a: set<T>, b: set<T>, x: T, back: set<T>)
    requires a !! b && x in a && back <= b
    ensures |a - {x} + back| == |a| - 1 + |back| && |b + {x} - back| == |b| + 1 - |back|
  {
    assert |b + {x} - back| == |(b - back) + {x}| by { assert b + {x} - back == (b - back) + {x}; }
  }

  lemma MovedCountOk(s: State, t: State, id: Id, back: set<Id>, target: nat)
    requires CountOk(s) && Moved(s, t, id, back, target)
    ensures CountOk(t)
  {
    MovedIds(s, t, id, back, target);
    SwapSizes(NewIds(s.mapInfo), TriedIds(s.mapInfo), id, back);
  }

  /** Bucket `kb` of `t` holds what it held in `s`, with `id` in and `back` out. */
  ghost predicate Rebucketed(s: State, t: State, id: Id, back: set<Id>, kb: nat) {
    && kb < |s.vvTried| == |t.vvTried| && t.vvTried == s.vvTried[kb := t.vvTried[kb]]
    && NoDup(t.vvTried[kb]) && |t.vvTried[kb]| <= TRIED_BUCKET_SIZE
    && (forall x :: x in back ==> x in s.vvTried[kb])
    && (forall x :: x in t.vvTried[kb] <==> x == id || (x in s.vvTried[kb] && x !in back))
  }

  lemma MovedTriedOk(s: State, t: State, id: Id, back: set<Id>, target: nat, kb: nat)
    requires TriedOk(s) && Moved(s, t, id, back, target) && Rebucketed(s, t, id, back, kb)
    requires kb == TriedBucket(s, s.mapInfo[id].addr.service)
    ensures TriedOk(t)
  {
    forall x | x in back ensures TriedAt(s, x, kb) {
      var i :| 0 <= i < |s.vvTried[kb]| && s.vvTried[kb][i] == x;
      assert TriedAt(s, s.vvTried[kb][i], kb);
    }
    forall b, k | 0 <= b < |t.vvTried| && 0 <= k < |t.vvTried[b]| ensures TriedAt(t, t.vvTried[b][k], b) {
      var x := t.vvTried[b][k];
      assert x in t.vvTried[b];
      if x != id {
        assert x in s.vvTried[b];
        var j :| 0 <= j < |s.vvTried[b]| && s.vvTried[b][j] == x;
        assert TriedAt(s, s.vvTried[b][j], b);
      }
    }
    forall x | x in t.mapInfo && t.mapInfo[x].inTried
      ensures x in t.vvTried[TriedBucket(t, t.mapInfo[x].addr.service)]
    {
      if x != id { assert x in s.vvTried[TriedBucket(s, s.mapInfo[x].addr.service)]; }
    }
  }

  lemma MovedKeeps(s: State, t: State, id: Id, back: set<Id>, target: nat, kb: nat)
    requires Inv(s) && Moved(s, t, id, back, target) && Rebucketed(s, t, id, back, kb)
    requires kb == TriedBucket(s, s.mapInfo[id].addr.service) && s.mapInfo[id].lastSuccess != 0
    ensures Inv(t)
  {
    hide MapOk, RandOk, TriedOk, NewOk, EntriesOk, CountOk, Moved, Rebucketed;
    MovedMapOk(s, t, id, back, target);
    MovedNewOk(s, t, id, back, target);
    MovedEntriesOk(s, t, id, back, target);
    MovedCountOk(s, t, id, back, target);
    MovedTriedOk(s, t, id, back, target, kb);
  }

  // ---- MakeTried makes such a move

  ghost predicate CanPromote(s: State, id: Id, origin: nat) {
    && TriedOk(s) && NewOk(s) && id in s.mapInfo && !s.mapInfo[id].inTried
    && origin < |s.vvNew| && id in s.vvNew[origin]
    && s.mapInfo[id].refCount == Refs(s.vvNew, id)
  }

  lemma CanPromoteCall(s: State, id: Id, origin: nat)
    requires CanPromote(s, id, origin)
    ensures CanMakeTried(s, id, origin)
  {
    forall b, k | 0 <= b < |s.vvTried| && 0 <= k < |s.vvTried[b]| ensures s.vvTried[b][k] in s.mapInfo {
      assert TriedAt(s, s.vvTried[b][k], b);
    }
  }

  /** `id` is not in any tried bucket yet. */
  lemma NotYetTried(s: State, id: Id, kb: nat)
    requires TriedOk(s) && id in s.mapInfo && !s.mapInfo[id].inTried && kb < |s.vvTried|
    ensures id !in s.vvTried[kb]
  {
    forall k | 0 <= k < |s.vvTried[kb]| ensures s.vvTried[kb][k] != id {
      assert TriedAt(s, s.vvTried[kb][k], kb);
    }
  }

  lemma PromoteRoom(s: State, id: Id, origin: nat, rnd: Draws)
    requires CanPromote(s, id, origin) && CanMakeTried(s, id, origin)
    requires |s.vvTried[TriedBucket(s, s.mapInfo[id].addr.service)]| < TRIED_BUCKET_SIZE
    ensures var t := MakeTried(s, id, origin, rnd);
            && Moved(s, t, id, {}, origin)
            && Rebucketed(s, t, id, {}, TriedBucket(s, s.mapInfo[id].addr.service))
  {
    var kb := TriedBucket(s, s.mapInfo[id].addr.service);
    var t := MakeTried(s, id, origin, rnd);
    NotYetTried(s, id, kb);
    assert t.vvTried[kb] == s.vvTried[kb] + [id];
    assert t.vvNew == Strip(s.vvNew, id);
    assert Strip(s.vvNew, id)[origin] + {} == Strip(s.vvNew, id)[origin];
  }

  /** The bucket that receives the evicted entry: its own if there is room, else the one `id` came from. */
  ghost function Target(u: State, evicted: Id, origin: nat): nat
    requires evicted in u.mapInfo && |u.vvNew| == NEW_BUCKET_COUNT
  {
    var ub := NewBucket(u, u.mapInfo[evicted].addr.service.net, u.mapInfo[evicted].source);
    if |u.vvNew[ub]| < NEW_BUCKET_SIZE then ub else origin
  }

  /** The fallback bucket always has room, because `id` has just left it. */
  lemma TargetHasRoom(s: State, id: Id, origin: nat, evicted: Id)
    requires CanPromote(s, id, origin) && evicted in s.mapInfo
    ensures var u := Unlist(s, id);
            Target(u, evicted, origin) < |u.vvNew| && |u.vvNew[Target(u, evicted, origin)]| < NEW_BUCKET_SIZE
  {
    assert |s.vvNew[origin] - {id}| == |s.vvNew[origin]| - 1;
  }

  lemma EvictMoves(s: State, id: Id, origin: nat, kb: nat, q: seq<Id>, pos: nat)
    requires CanPromote(s, id, origin) && kb < |s.vvTried| && pos < |q|
    requires q[pos] in s.mapInfo && s.mapInfo[q[pos]].inTried
    ensures var u := Unlist(s, id);
            var t := Evict(u, id, kb, q, pos, origin);
            Moved(s, t, id, {q[pos]}, Target(u, q[pos], origin)) && t.vvTried == s.vvTried[kb := q[pos := id]]
  {
    hide TriedOk;
    var u := Unlist(s, id);
    TargetHasRoom(s, id, origin, q[pos]);
    assert u.mapInfo.Keys == s.mapInfo.Keys;
  }

  /** Writing `id` over position `pos` of a rearranged bucket. */
  lemma EvictRebuckets(s: State, t: State, id: Id, kb: nat, q: seq<Id>, pos: nat)
    requires TriedOk(s) && id in s.mapInfo && !s.mapInfo[id].inTried && kb < |s.vvTried| && pos < |q|
    requires Perm(q, s.vvTried[kb]) && t.vvTried == s.vvTried[kb := q[pos := id]]
    ensures Rebucketed(s, t, id, {q[pos]}, kb)
    ensures TriedAt(s, q[pos], kb)
  {
    var o := s.vvTried[kb];
    NotYetTried(s, id, kb);
    PermMembers(q, o);
    PermNoDup(q, o);
    assert q[pos] in q;
    var i :| 0 <= i < |o| && o[i] == q[pos];
    assert TriedAt(s, o[i], kb);
    OverwriteMembers(q, pos, id);
  }

  lemma OverwriteMembers(q: seq<Id>, pos: nat, id: Id)
    requires pos < |q| && NoDup(q) && id !in q
    ensures NoDup(q[pos := id])
    ensures forall x :: x in q[pos := id] <==> x == id || (x in q && x != q[pos])
  {
    var r := q[pos := id];
    forall x ensures x in r <==> x == id || (x in q && x != q[pos]) {
      if x == id { assert r[pos] == id; }
      if x in q && x != q[pos] {
        var i :| 0 <= i < |q| && q[i] == x;
        assert r[i] == x;
      }
      if x in r {
        var i :| 0 <= i < |r| && r[i] == x;
        if i != pos { assert q[i] == x; }
      }
    }
  }

  lemma PromoteFull(s: State, id: Id, origin: nat, rnd: Draws) returns (evicted: Id, target: nat)
    requires CanPromote(s, id, origin) && CanMakeTried(s, id, origin)
    requires |s.vvTried[TriedBucket(s, s.mapInfo[id].addr.service)]| == TRIED_BUCKET_SIZE
    ensures var t := MakeTried(s, id, origin, rnd);
            && Moved(s, t, id, {evicted}, target)
            && Rebucketed(s, t, id, {evicted}, TriedBucket(s, s.mapInfo[id].addr.service))
  {
    hide TriedOk, NewOk, Moved, Rebucketed;
    var kb := TriedBucket(s, s.mapInfo[id].addr.service);
    var u := Unlist(s, id);
    SelectTriedChoice(u.mapInfo, u.vvTried[kb], rnd);
    var (q, pos) := SelectTried(u.mapInfo, u.vvTried[kb], rnd);
    evicted := q[pos];
    target := Target(u, evicted, origin);
    var t := Evict(u, id, kb, q, pos, origin);
    EvictRebuckets(s, s.(vvTried := s.vvTried[kb := q[pos := id]]), id, kb, q, pos);
    EvictMoves(s, id, origin, kb, q, pos);
    EvictRebuckets(s, t, id, kb, q, pos);
  }

  lemma Promote(s: State, id: Id, origin: nat, rnd: Draws) returns (back: set<Id>, target: nat)
    requires CanPromote(s, id, origin)
    ensures CanMakeTried(s, id, origin)
    ensures var kb := TriedBucket(s, s.mapInfo[id].addr.service);
            && kb < |s.vvTried|
            && (back != {} ==> |s.vvTried[kb]| == TRIED_BUCKET_SIZE)
            && Moved(s, MakeTried(s, id, origin, rnd), id, back, target)
            && Rebucketed(s, MakeTried(s, id, origin, rnd), id, back, kb)
  {
    CanPromoteCall(s, id, origin);
    hide NewOk, Moved, Rebucketed, MakeTried;
    var kb := TriedBucket(s, s.mapInfo[id].addr.service);
    assert |s.vvTried[kb]| <= TRIED_BUCKET_SIZE;
    hide TriedOk;
    if |s.vvTried[kb]| < TRIED_BUCKET_SIZE {
      back, target := {}, origin;
      PromoteRoom(s, id, origin, rnd);
    } else {
      var evicted;
      evicted, target := PromoteFull(s, id, origin, rnd);
      back := {evicted};
    }
  }

  // ---- Good_

  lemma {:induction false} FindBucketMisses(vv: seq<set<Id>>, id: Id, start: nat, n: nat, k: nat)
    requires n <= k < |vv| && FindBucket(vv, id, start, n) == -1
    ensures id !in vv[(k + start) % |vv|]
    decreases |vv| - n
  {
    if n < k {
      FindBucketMisses(vv, id, start, n + 1, k);
    }
  }

  /** The cyclic scan visits every bucket. */
  lemma FindBucketFinds(vv: seq<set<Id>>, id: Id, start: nat, b: nat)
    requires b < |vv| && id in vv[b] && start < |vv|
    ensures FindBucket(vv, id, start, 0) != -1
  {
    var k := if b >= start then b - start else b + |vv| - start;
    assert (k + start) % |vv| == b by {
      if b < start { assert k + start == b + |vv|; }
    }
    if FindBucket(vv, id, start, 0) == -1 {
      FindBucketMisses(vv, id, start, 0, k);
    }
  }

  lemma TouchCanPromote(s: State, id: Id, info: Info, b: nat)
    requires Inv(s) && id in s.mapInfo && !s.mapInfo[id].inTried && b < |s.vvNew| && id in s.vvNew[b]
    requires SameTables(s.mapInfo, Update(s, id, info).mapInfo, {}) && info.refCount == s.mapInfo[id].refCount
    ensures CanPromote(Update(s, id, info), id, b)
  {
    hide MapOk, RandOk, CountOk, NewOk;
    var t := Update(s, id, info);
    EntryAt(s, id, {});
    TriedFrame(s, t, {});
    NewFrame(s, t);
  }

  lemma SomeBucket(s: State, id: Id) returns (b: nat)
    requires EntriesOk(s, {}) && id in s.mapInfo && !s.mapInfo[id].inTried
    ensures b < |s.vvNew| && id in s.vvNew[b]
  {
    assert EntryOk(s, id, {});
    RefsZero(s.vvNew, id);
    b :| 0 <= b < |s.vvNew| && id in s.vvNew[b];
  }

  lemma InvSound(s: State)
    requires TriedOk(s) && NewOk(s)
    ensures Sound(s)
  {
    forall b, k | 0 <= b < |s.vvTried| && 0 <= k < |s.vvTried[b]| ensures s.vvTried[b][k] in s.mapInfo {
      assert TriedAt(s, s.vvTried[b][k], b);
    }
  }

  /** Good_ of a matching untried entry is the refresh of its statistics followed by a move. */
  lemma GoodMoves(s: State, svc: Service, time: int, rnd: Draws) returns (back: set<Id>, target: nat)
    requires Inv(s) && Matches(s, svc) && !s.mapInfo[s.mapAddr[svc.net]].inTried
    ensures Sound(s)
    ensures var id := s.mapAddr[svc.net];
            var u := Update(s, id, Touch(s.mapInfo[id], time));
            var kb := TriedBucket(s, svc);
            && kb < |s.vvTried|
            && (back != {} ==> |s.vvTried[kb]| == TRIED_BUCKET_SIZE)
            && Moved(u, Good(s, svc, time, rnd), id, back, target)
            && Rebucketed(u, Good(s, svc, time, rnd), id, back, kb)
  {
    hide MapOk, RandOk, TriedOk, CountOk, Moved, Rebucketed, MakeTried;
    InvSound(s);
    var id := s.mapAddr[svc.net];
    var u := Update(s, id, Touch(s.mapInfo[id], time));
    var b := SomeBucket(s, id);
    hide NewOk, EntriesOk;
    var start := RandInt(rnd(0), |u.vvNew|);
    FindBucketFinds(u.vvNew, id, start, b);
    var origin := FindBucket(u.vvNew, id, start, 0);
    assert SameTables(s.mapInfo, u.mapInfo, {});
    TouchCanPromote(s, id, Touch(s.mapInfo[id], time), origin);
    back, target := Promote(u, id, origin, rnd);
  }

  lemma TouchKeeps(s: State, id: Id, time: int)
    requires Inv(s) && id in s.mapInfo && time > 0
    ensures Inv(Update(s, id, Touch(s.mapInfo[id], time)))
  {
    hide MapOk, RandOk, TriedOk, CountOk, NewOk;
    EntryAt(s, id, {});
    UpdateKeeps(s, id, Touch(s.mapInfo[id], time), {}, {});
  }

  lemma GoodKeepsUntried(s: State, svc: Service, time: int, rnd: Draws)
    requires Inv(s) && Sound(s) && Matches(s, svc) && !s.mapInfo[s.mapAddr[svc.net]].inTried
    ensures Inv(Good(s, svc, time, rnd)) <==> time > 0
  {
    hide MapOk, RandOk, TriedOk, CountOk, NewOk, EntriesOk, Rebucketed, MakeTried, Good;
    var id := s.mapAddr[svc.net];
    var u := Update(s, id, Touch(s.mapInfo[id], time));
    var back, target := GoodMoves(s, svc, time, rnd);
    if time > 0 {
      TouchKeeps(s, id, time);
      MovedKeeps(u, Good(s, svc, time, rnd), id, back, target, TriedBucket(s, svc));
    } else if Inv(Good(s, svc, time, rnd)) {
      EntryAt(Good(s, svc, time, rnd), id, {});
    }
  }

  lemma GoodKeepsTried(s: State, svc: Service, time: int, rnd: Draws)
    requires Inv(s) && Sound(s) && Matches(s, svc) && s.mapInfo[s.mapAddr[svc.net]].inTried
    ensures Inv(Good(s, svc, time, rnd)) <==> time > 0
  {
    hide MapOk, RandOk, TriedOk, CountOk, NewOk, EntriesOk, Rebucketed, MakeTried;
    var id := s.mapAddr[svc.net];
    if time > 0 {
      TouchKeeps(s, id, time);
    } else if Inv(Good(s, svc, time, rnd)) {
      EntryAt(Good(s, svc, time, rnd), id, {});
    }
  }

  /** Good_ keeps the invariant exactly when its time stamp is positive or it has nothing to mark. */
  lemma GoodKeeps(s: State, svc: Service, time: int, rnd: Draws)
    requires Inv(s)
    ensures Sound(s)
    ensures Inv(Good(s, svc, time, rnd)) <==> time > 0 || !Matches(s, svc)
  {
    hide MapOk, RandOk, TriedOk, CountOk, NewOk, EntriesOk, Rebucketed, MakeTried, Sound;
    InvSound(s);
    if Matches(s, svc) {
      if s.mapInfo[s.mapAddr[svc.net]].inTried {
        GoodKeepsTried(s, svc, time, rnd);
      } else {
        GoodKeepsUntried(s, svc, time, rnd);
      }
    }
  }

  ghost function Demoted(s: State, t: State): set<NetAddr> {
    set a | a in s.mapAddr && Known(s, a) && Known(t, a) && IsTried(s, a) && !IsTried(t, a)
  }

  /** No address is forgotten; the marked one ends up tried, in its own bucket; no other one becomes tried;
      at most one stops being tried, and only when that bucket was full. */
  ghost predicate GoodEffect(s: State, t: State, svc: Service) {
    && t.mapAddr == s.mapAddr && t.vRandom == s.vRandom
    && (forall a :: a in s.mapAddr ==>
          Known(s, a) && Known(t, a) && t.mapInfo[t.mapAddr[a]].addr.service == s.mapInfo[s.mapAddr[a]].addr.service)
    && (Matches(s, svc) ==>
          && IsTried(t, svc.net)
          && TriedBucket(s, svc) < |t.vvTried|
          && s.mapAddr[svc.net] in t.vvTried[TriedBucket(s, svc)])
    && (forall a :: a in s.mapAddr && IsTried(t, a) && !IsTried(s, a) ==> a == svc.net && Matches(s, svc))
    && |Demoted(s, t)| <= 1
    && (Demoted(s, t) != {} ==>
          TriedBucket(s, svc) < |s.vvTried| && |s.vvTried[TriedBucket(s, svc)]| == TRIED_BUCKET_SIZE)
  }

  lemma GoodConserves(s: State, svc: Service, time: int, rnd: Draws)
    requires Inv(s)
    ensures Sound(s) && GoodEffect(s, Good(s, svc, time, rnd), svc)
  {
    hide RandOk, CountOk, NewOk, EntriesOk, Sound;
    InvSound(s);
    var t := Good(s, svc, time, rnd);
    if !Matches(s, svc) {
      hide Good;
      assert Demoted(s, s) == {};
    } else if s.mapInfo[s.mapAddr[svc.net]].inTried {
      hide MakeTried;
      assert Demoted(s, t) == {};
    } else {
      hide Good;
      var back, target := GoodMoves(s, svc, time, rnd);
      MoveConserves(s, t, svc, time, back, target);
    }
  }

  lemma MovedFrame(s: State, u: State, t: State, id: Id, back: set<Id>, target: nat, b: nat)
    requires Moved(u, t, id, back, target) && Rebucketed(u, t, id, back, b) && b < |s.vvTried|
    requires u == s.(mapInfo := u.mapInfo)
    ensures t.mapAddr == s.mapAddr && t.vRandom == s.vRandom && |back| <= 1 && b < |t.vvTried| && id in t.vvTried[b]
  {
    hide Strip;
  }

  lemma MoveConserves(s: State, t: State, svc: Service, time: int, back: set<Id>, target: nat)
    requires MapOk(s) && Matches(s, svc) && !IsTried(s, svc.net) && TriedBucket(s, svc) < |s.vvTried|
    requires var id := s.mapAddr[svc.net];
             var u := Update(s, id, Touch(s.mapInfo[id], time));
             Moved(u, t, id, back, target) && Rebucketed(u, t, id, back, TriedBucket(s, svc))
    requires back != {} ==> |s.vvTried[TriedBucket(s, svc)]| == TRIED_BUCKET_SIZE
    ensures GoodEffect(s, t, svc)
  {
    hide Moved, Rebucketed, MapOk, TriedBucket;
    var id := s.mapAddr[svc.net];
    var u := Update(s, id, Touch(s.mapInfo[id], time));
    MovedFrame(s, u, t, id, back, target, TriedBucket(s, svc));
    MovedStatus(s, u, t, svc, time, back, target);
    assert Matches(s, svc);
    forall a | a in Demoted(s, t) ensures s.mapAddr[a] in back {}
    AtMostOne(s, Demoted(s, t), back);
  }

  /** What the move does to each address's status. */
  lemma MovedStatus(s: State, u: State, t: State, svc: Service, time: int, back: set<Id>, target: nat)
    requires MapOk(s) && Matches(s, svc)
    requires var id := s.mapAddr[svc.net]; u == Update(s, id, Touch(s.mapInfo[id], time)) && Moved(u, t, id, back, target)
    ensures forall a :: a in s.mapAddr ==>
              && Known(s, a) && Known(t, a) && t.mapInfo[t.mapAddr[a]].addr.service == s.mapInfo[s.mapAddr[a]].addr.service
              && (IsTried(t, a) <==> a == svc.net || (IsTried(s, a) && s.mapAddr[a] !in back))
  {
    hide Strip;
    forall a | a in s.mapAddr
      ensures Known(s, a) && Known(t, a) && t.mapInfo[t.mapAddr[a]].addr.service == s.mapInfo[s.mapAddr[a]].addr.service
      ensures IsTried(t, a) <==> a == svc.net || (IsTried(s, a) && s.mapAddr[a] !in back)
    {
      var x := s.mapAddr[a];
      assert x in t.mapInfo;
    }
  }

  /** Addresses whose ids all lie in a set of at most one are at most one. */
  lemma AtMostOne(s: State, d: set<NetAddr>, back: set<Id>)
    requires MapOk(s) && |back| <= 1 && forall a :: a in d ==> a in s.mapAddr && s.mapAddr[a] in back
    ensures |d| <= 1 && (d != {} ==> back != {})
  {
    if d != {} {
      var a := Pick(d);
      OneElement(back, s.mapAddr[a]);
      forall x | x in d ensures x == a { assert s.mapAddr[x] in back; }
      SubsetSize(d, {a});
    }
  }
}
