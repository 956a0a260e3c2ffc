/** What every operation of the address manager keeps. */
module AddrInvariant {
  import opened OrderedSet
  import opened AddrState
  import opened AddrOps

  // ---- Frames: which part of the invariant depends on which part of the state

  /** `m'` is `m` without the entries in `gone`, as far as the bucket tables can tell. */
  ghost predicate SameTables(m: map<Id, Info>, m': map<Id, Info>, gone: set<Id>) {
    && m'.Keys == m.Keys - gone
    && forall id :: id in m' ==> m'[id].inTried == m[id].inTried && m'[id].addr.service == m[id].addr.service
  }

  lemma SameIds(m: map<Id, Info>, m': map<Id, Info>, gone: set<Id>)
    requires SameTables(m, m', gone)
    ensures NewIds(m') == NewIds(m) - gone && TriedIds(m') == TriedIds(m) - gone
  {
  }

  lemma TriedFrame(s: State, t: State, gone: set<Id>)
    requires TriedOk(s) && SameTables(s.mapInfo, t.mapInfo, gone)
    requires forall id :: id in gone && id in s.mapInfo ==> !s.mapInfo[id].inTried
    requires t.vvTried == s.vvTried && t.env == s.env && t.key == s.key
    ensures TriedOk(t)
  {
    forall b, k | 0 <= b < |t.vvTried| && 0 <= k < |t.vvTried[b]| ensures TriedAt(t, t.vvTried[b][k], b) {
      assert TriedAt(s, s.vvTried[b][k], b);
    }
  }

  lemma MapFrame(s: State, t: State)
    requires MapOk(s) && SameTables(s.mapInfo, t.mapInfo, {})
    requires t.mapAddr == s.mapAddr && t.idCount == s.idCount
    ensures MapOk(t)
  {
  }

  lemma RandFrame(s: State, t: State)
    requires RandOk(s) && t.vRandom == s.vRandom && t.mapInfo.Keys == s.mapInfo.Keys
    requires forall id :: id in s.mapInfo ==> t.mapInfo[id].randomPos == s.mapInfo[id].randomPos
    ensures RandOk(t)
  {
  }

  lemma NewFrame(s: State, t: State)
    requires NewOk(s) && t.vvNew == s.vvNew && SameTables(s.mapInfo, t.mapInfo, {})
    ensures NewOk(t)
  {
  }

  lemma CountFrame(s: State, t: State)
    requires CountOk(s) && t.nNew == s.nNew && t.nTried == s.nTried && SameTables(s.mapInfo, t.mapInfo, {})
    ensures CountOk(t)
  {
    SameIds(s.mapInfo, t.mapInfo, {});
    assert NewIds(s.mapInfo) - {} == NewIds(s.mapInfo) && TriedIds(s.mapInfo) - {} == TriedIds(s.mapInfo);
  }

  lemma EntriesFrame(s: State, t: State, id: Id, pend: set<Id>, pend': set<Id>)
    requires EntriesOk(s, pend) && t.vvNew == s.vvNew
    requires id in t.mapInfo ==> EntryOk(t, id, pend')
    requires forall x :: x in t.mapInfo && x != id ==> x in s.mapInfo && t.mapInfo[x] == s.mapInfo[x]
    requires forall x :: x != id ==> (x in pend' <==> x in pend)
    ensures EntriesOk(t, pend')
  {
    forall x | x in t.mapInfo ensures EntryOk(t, x, pend') {
      if x != id { assert EntryOk(s, x, pend); }
    }
  }

  /** Rewriting one entry's statistics and reference count. */
  lemma UpdateKeeps(s: State, id: Id, info: Info, pend: set<Id>, pend': set<Id>)
    requires InvPend(s, pend) && id in s.mapInfo
    requires info.addr.service == s.mapInfo[id].addr.service && info.inTried == s.mapInfo[id].inTried
    requires info.randomPos == s.mapInfo[id].randomPos
    requires EntryOk(Update(s, id, info), id, pend')
    requires forall x :: x != id ==> (x in pend' <==> x in pend)
    ensures InvPend(Update(s, id, info), pend')
  {
    hide MapOk, RandOk, TriedOk, NewOk, EntriesOk, CountOk;
    var t := Update(s, id, info);
    TriedFrame(s, t, {});
    MapFrame(s, t);
    RandFrame(s, t);
    NewFrame(s, t);
    CountFrame(s, t);
    EntriesFrame(s, t, id, pend, pend');
  }

  // ---- Reference counts

  /** Replacing bucket `b` changes the count of `id` by its membership there alone. */
  lemma {:induction false} RefsUpdate(vv: seq<set<Id>>, b: nat, x: set<Id>, id: Id)
    requires b < |vv|
    ensures Refs(vv[b := x], id) == Refs(vv, id) - (if id in vv[b] then 1 else 0) + (if id in x then 1 else 0)
  {
    var n := |vv| - 1;
    if b == n {
      assert vv[b := x][..n] == vv[..n];
    } else {
      assert vv[b := x][..n] == vv[..n][b := x];
      RefsUpdate(vv[..n], b, x, id);
    }
  }

  lemma {:induction false} RefsZero(vv: seq<set<Id>>, id: Id)
    ensures Refs(vv, id) == 0 <==> forall b :: 0 <= b < |vv| ==> id !in vv[b]
  {
    if vv != [] {
      RefsZero(vv[..|vv| - 1], id);
    }
  }

  // ---- ShrinkNew

  lemma MapErase(s: State, t: State, id: Id)
    requires MapOk(s) && id in s.mapInfo && SameTables(s.mapInfo, t.mapInfo, {id})
    requires t.idCount == s.idCount && t.mapAddr == s.mapAddr - {s.mapInfo[id].addr.service.net}
    ensures MapOk(t)
  {
  }

  lemma ForgetCanSwap(s: State, id: Id)
    requires RandOk(s) && id in s.mapInfo
    ensures |s.vRandom| > 0 && CanSwap(s, s.mapInfo[id].randomPos) && CanSwap(s, |s.vRandom| - 1)
  {
  }

  lemma ForgetRandOk(s: State, id: Id)
    requires RandOk(s) && id in s.mapInfo
    ensures |s.vRandom| > 0 && RandOk(Forget(s, id))
    ensures var t := Forget(s, id);
            && t.mapInfo.Keys == s.mapInfo.Keys - {id}
            && (forall x :: x in t.mapInfo ==> t.mapInfo[x] == s.mapInfo[x].(randomPos := t.mapInfo[x].randomPos))
            && t == s.(mapInfo := t.mapInfo, mapAddr := t.mapAddr, vRandom := t.vRandom, nNew := s.nNew - 1)
            && t.mapAddr == s.mapAddr - {s.mapInfo[id].addr.service.net}
  {
    hide RandOk, Forget;
    ForgetFrame(s, id);
    ForgetPlaces(s, id);
  }

  lemma ForgetPlaces(s: State, id: Id)
    requires RandOk(s) && id in s.mapInfo
    ensures RandOk(Forget(s, id))
  {
  }

  lemma ForgetFrame(s: State, id: Id)
    requires RandOk(s) && id in s.mapInfo
    ensures |s.vRandom| > 0
    ensures var t := Forget(s, id);
            && t.mapInfo.Keys == s.mapInfo.Keys - {id}
            && (forall x :: x in t.mapInfo ==> t.mapInfo[x] == s.mapInfo[x].(randomPos := t.mapInfo[x].randomPos))
            && t == s.(mapInfo := t.mapInfo, mapAddr := t.mapAddr, vRandom := t.vRandom, nNew := s.nNew - 1)
            && t.mapAddr == s.mapAddr - {s.mapInfo[id].addr.service.net}
  {
  }

  /** `t` is `s` with one reference of `id` taken out of bucket `b`; `gone` says whether `id` was erased. */
  ghost predicate Dropped(s: State, t: State, b: nat, id: Id, gone: set<Id>)
    requires b < |s.vvNew| && id in s.mapInfo
  {
    && gone == (if s.mapInfo[id].refCount == 1 then {id} else {})
    && t.vvNew == s.vvNew[b := s.vvNew[b] - {id}]
    && t.vvTried == s.vvTried && t.env == s.env && t.key == s.key && t.nTried == s.nTried
    && t.idCount == s.idCount && t.nNew == s.nNew - |gone|
    && t.mapAddr == (if gone == {} then s.mapAddr else s.mapAddr - {s.mapInfo[id].addr.service.net})
    && t.mapInfo.Keys == s.mapInfo.Keys - gone
    && (forall x :: x in t.mapInfo && x != id ==>
          t.mapInfo[x] == s.mapInfo[x].(randomPos := t.mapInfo[x].randomPos))
    && (id in t.mapInfo ==>
          t.mapInfo[id] == s.mapInfo[id].(refCount := s.mapInfo[id].refCount - 1))
  }

  lemma DropLast(s: State, b: nat, id: Id)
    requires MapOk(s) && RandOk(s) && b < |s.vvNew| && id in s.mapInfo && s.mapInfo[id].refCount == 1
    requires |s.vRandom| > 0 && CanSwap(s, s.mapInfo[id].randomPos) && CanSwap(s, |s.vRandom| - 1)
    ensures var t := DropRef(s, b, id); Dropped(s, t, b, id, {id}) && MapOk(t) && RandOk(t)
  {
    hide MapOk, RandOk;
    var s1 := Update(s, id, s.mapInfo[id].(refCount := 0));
    assert RandOk(s1) by { RandFrame(s, s1); }
    ForgetRandOk(s1, id);
    var u, t := Forget(s1, id), DropRef(s, b, id);
    assert t == u.(vvNew := t.vvNew);
    assert t.mapInfo.Keys == s.mapInfo.Keys - {id};
    RandFrame(u, t);
    MapErase(s, t, id);
  }

  lemma DropOne(s: State, b: nat, id: Id)
    requires MapOk(s) && RandOk(s) && b < |s.vvNew| && id in s.mapInfo && s.mapInfo[id].refCount != 1
    requires |s.vRandom| > 0 && CanSwap(s, s.mapInfo[id].randomPos) && CanSwap(s, |s.vRandom| - 1)
    ensures var t := DropRef(s, b, id); Dropped(s, t, b, id, {}) && MapOk(t) && RandOk(t)
  {
    hide MapOk, RandOk;
    var t := DropRef(s, b, id);
    MapFrame(s, t);
    RandFrame(s, t);
  }

  lemma DropRefDropped(s: State, b: nat, id: Id)
    requires MapOk(s) && RandOk(s) && b < |s.vvNew| && id in s.mapInfo
    ensures |s.vRandom| > 0 && CanSwap(s, s.mapInfo[id].randomPos) && CanSwap(s, |s.vRandom| - 1)
    ensures var t := DropRef(s, b, id);
            && Dropped(s, t, b, id, if s.mapInfo[id].refCount == 1 then {id} else {})
            && MapOk(t) && RandOk(t)
  {
    hide MapOk, RandOk;
    ForgetCanSwap(s, id);
    if s.mapInfo[id].refCount == 1 { DropLast(s, b, id); } else { DropOne(s, b, id); }
  }

  lemma DroppedNewOk(s: State, t: State, b: nat, id: Id, gone: set<Id>)
    requires NewOk(s) && b < |s.vvNew| && id in s.vvNew[b] && id in s.mapInfo && Dropped(s, t, b, id, gone)
    requires s.mapInfo[id].refCount == Refs(s.vvNew, id)
    ensures NewOk(t)
  {
    SubsetSize(t.vvNew[b], s.vvNew[b]);
    RefsUpdate(s.vvNew, b, s.vvNew[b] - {id}, id);
    RefsZero(t.vvNew, id);
    forall c, x | 0 <= c < |t.vvNew| && x in t.vvNew[c] ensures x in t.mapInfo && !t.mapInfo[x].inTried {
      assert x in s.vvNew[c];
    }
  }

  lemma DroppedEntriesOk(s: State, t: State, b: nat, id: Id, gone: set<Id>, pend: set<Id>)
    requires EntriesOk(s, pend) && b < |s.vvNew| && id in s.vvNew[b] && id in s.mapInfo && id !in pend
    requires !s.mapInfo[id].inTried && Dropped(s, t, b, id, gone)
    ensures EntriesOk(t, pend)
  {
    forall x | x in t.mapInfo ensures EntryOk(t, x, pend) {
      RefsUpdate(s.vvNew, b, s.vvNew[b] - {id}, x);
      assert EntryOk(s, x, pend);
    }
  }

  lemma DroppedCountOk(s: State, t: State, b: nat, id: Id, gone: set<Id>)
    requires CountOk(s) && b < |s.vvNew| && id in s.mapInfo && !s.mapInfo[id].inTried && Dropped(s, t, b, id, gone)
    ensures CountOk(t)
  {
    DroppedTables(s, t, b, id, gone);
    assert t.nNew == s.nNew - |gone| && t.nTried == s.nTried && gone <= {id};
    hide Dropped, SameTables;
    SameIds(s.mapInfo, t.mapInfo, gone);
    assert id in NewIds(s.mapInfo) && id !in TriedIds(s.mapInfo);
    hide NewIds, TriedIds;
    NoneLost(TriedIds(s.mapInfo), gone, id);
    SetLess(NewIds(s.mapInfo), gone);
  }

  lemma NoneLost(a: set<Id>, gone: set<Id>, id: Id)
    requires gone <= {id} && id !in a
    ensures a - gone == a
  {
  }

  lemma SetLess(a: set<Id>, b: set<Id>)
    requires b <= a
    ensures |a - b| == |a| - |b|
  {
  }

  /** Giving up one reference keeps the invariant; an entry disappears only with its last reference. */
  lemma DropRefKeeps(s: State, b: nat, id: Id, pend: set<Id>)
    requires InvPend(s, pend) && b < |s.vvNew| && id in s.vvNew[b] && id !in pend
    ensures id in s.mapInfo && |s.vRandom| > 0
    ensures CanSwap(s, s.mapInfo[id].randomPos) && CanSwap(s, |s.vRandom| - 1)
    ensures var t := DropRef(s, b, id);
            InvPend(t, pend) && Dropped(s, t, b, id, if s.mapInfo[id].refCount == 1 then {id} else {})
  {
    hide TriedOk, EntriesOk, CountOk, MapOk, RandOk;
    assert id in s.mapInfo && !s.mapInfo[id].inTried;
    hide NewOk;
    var gone := if s.mapInfo[id].refCount == 1 then {id} else {};
    DropRefDropped(s, b, id);
    var t := DropRef(s, b, id);
    assert EntryOk(s, id, pend) by { EntryAt(s, id, pend); }
    DroppedNewOk(s, t, b, id, gone);
    DroppedEntriesOk(s, t, b, id, gone, pend);
    DroppedCountOk(s, t, b, id, gone);
    TriedFrame(s, t, gone);
  }

  lemma EntryAt(s: State, id: Id, pend: set<Id>)
    requires EntriesOk(s, pend) && id in s.mapInfo
    ensures EntryOk(s, id, pend)
  {
  }

  // ---- Add_

  lemma InsertNewOk(s: State, b: nat, id: Id)
    requires NewOk(s) && b < |s.vvNew| && id in s.mapInfo && !s.mapInfo[id].inTried
    requires |s.vvNew[b]| < NEW_BUCKET_SIZE
    ensures NewOk(Insert(s, b, id))
  {
  }

  lemma InsertEntriesOk(s: State, b: nat, id: Id)
    requires EntriesOk(s, {id}) && b < |s.vvNew| && id in s.mapInfo && id !in s.vvNew[b]
    ensures EntriesOk(Insert(s, b, id), {})
  {
    var t := Insert(s, b, id);
    forall x | x in t.mapInfo ensures EntryOk(t, x, {}) {
      RefsUpdate(s.vvNew, b, s.vvNew[b] + {id}, x);
      assert EntryOk(s, x, {id});
    }
  }

  /** Listing the pending entry settles its reference count. */
  lemma InsertKeeps(s: State, b: nat, id: Id)
    requires InvPend(s, {id}) && b < |s.vvNew| && id in s.mapInfo && !s.mapInfo[id].inTried
    requires id !in s.vvNew[b] && |s.vvNew[b]| < NEW_BUCKET_SIZE
    ensures Inv(Insert(s, b, id))
  {
    hide TriedOk, EntriesOk, NewOk, MapOk, RandOk;
    var t := Insert(s, b, id);
    InsertNewOk(s, b, id);
    InsertEntriesOk(s, b, id);
    assert SameTables(s.mapInfo, t.mapInfo, {});
    TriedFrame(s, t, {});
    MapFrame(s, t);
    RandFrame(s, t);
  }

  /** `t` has every entry of `s` except those in `gone`: at most one, and not a tried one. */
  ghost predicate LosesOnly(s: State, t: State, gone: set<Id>) {
    && |gone| <= 1 && (forall x :: x in gone ==> x in s.mapInfo && !s.mapInfo[x].inTried)
    && SameTables(s.mapInfo, t.mapInfo, gone)
  }

  lemma VictimInBucket(s: State, b: int, now: int, rnd: Draws)
    requires CanShrink(s, b)
    ensures Victim(s, b, now, rnd) in s.vvNew[b]
  {
    hide RandOk, MapOk;
    VictimChoice(s, b, now, rnd);
  }

  /** ShrinkNew makes room in a full bucket, loses at most one entry, and leaves the pending one alone. */
  lemma ShrinkKeeps(s: State, b: nat, now: int, rnd: Draws, pend: set<Id>) returns (gone: set<Id>)
    requires InvPend(s, pend) && CanShrink(s, b) && s.vvNew[b] !! pend
    ensures var t := Shrink(s, b, now, rnd);
            && InvPend(t, pend) && LosesOnly(s, t, gone) && gone <= s.vvNew[b]
            && t.vvNew == s.vvNew[b := t.vvNew[b]] && t.vvTried == s.vvTried
            && t.vvNew[b] < s.vvNew[b] && |t.vvNew[b]| == |s.vvNew[b]| - 1
  {
    hide TriedOk, EntriesOk, MapOk, RandOk, CountOk, EntryOk, Victim, DropRef, Dropped;
    VictimInBucket(s, b, now, rnd);
    var v := Victim(s, b, now, rnd);
    assert v in s.mapInfo && !s.mapInfo[v].inTried;
    DropRefKeeps(s, b, v, pend);
    gone := if s.mapInfo[v].refCount == 1 then {v} else {};
    DroppedOne(s, DropRef(s, b, v), b, v, gone);
    hide NewOk, InvPend, LosesOnly;
  }

  /** What dropping a reference means for the bucket and for the known entries. */
  lemma DroppedOne(s: State, t: State, b: nat, v: Id, gone: set<Id>)
    requires b < |s.vvNew| && v in s.vvNew[b] && v in s.mapInfo && !s.mapInfo[v].inTried && Dropped(s, t, b, v, gone)
    ensures LosesOnly(s, t, gone) && gone <= s.vvNew[b]
    ensures t.vvNew == s.vvNew[b := t.vvNew[b]] && t.vvTried == s.vvTried
    ensures t.vvNew[b] < s.vvNew[b] && |t.vvNew[b]| == |s.vvNew[b]| - 1
  {
    DroppedTables(s, t, b, v, gone);
    hide SameTables;
    OneFewer(s.vvNew[b], v);
  }

  lemma OneFewer(a: set<Id>, x: Id)
    requires x in a
    ensures a - {x} < a && |a - {x}| == |a| - 1
  {
  }

  lemma DroppedTables(s: State, t: State, b: nat, id: Id, gone: set<Id>)
    requires b < |s.vvNew| && id in s.mapInfo && Dropped(s, t, b, id, gone)
    ensures SameTables(s.mapInfo, t.mapInfo, gone)
  {
  }

  lemma MakeRoomKeeps(s: State, b: nat, now: int, rnd: Draws, id: Id) returns (gone: set<Id>)
    requires InvPend(s, {id}) && b < |s.vvNew| && id !in s.vvNew[b] && id in s.mapInfo
    ensures |s.vvNew[b]| == NEW_BUCKET_SIZE ==> CanShrink(s, b)
    ensures var t := MakeRoom(s, b, now, rnd);
            && InvPend(t, {id}) && LosesOnly(s, t, gone) && id !in gone
            && |t.vvNew| == |s.vvNew| && id !in t.vvNew[b] && |t.vvNew[b]| < NEW_BUCKET_SIZE
            && t.vvTried == s.vvTried
  {
    hide TriedOk, EntriesOk, MapOk, RandOk, CountOk;
    gone := {};
    if |s.vvNew[b]| == NEW_BUCKET_SIZE {
      assert s.vvNew[b] != {};
      hide NewOk;
      gone := ShrinkKeeps(s, b, now, rnd, {id});
    } else {
      assert SameTables(s.mapInfo, s.mapInfo, {});
    }
  }

  lemma LosesOnlyVia(s: State, r: State, t: State, u: State, gone: set<Id>)
    requires SameTables(s.mapInfo, r.mapInfo, {}) && LosesOnly(r, t, gone) && u.mapInfo == t.mapInfo
    ensures LosesOnly(s, u, gone)
  {
  }

  /** From the point where the reference count is raised to the end of Add_. */
  lemma ListKeeps(s: State, b: nat, id: Id, now: int, rnd: Draws) returns (gone: set<Id>)
    requires CanList(s, id) && b < |s.vvNew| && id !in s.vvNew[b] && !s.mapInfo[id].inTried
    requires InvPend(Raise(s, id), {id})
    ensures var t := List(s, b, id, now, rnd);
            Inv(t) && LosesOnly(s, t, gone) && id !in gone && id in t.vvNew[b]
  {
    hide TriedOk, EntriesOk, MapOk, RandOk, CountOk, NewOk, InvPend, CanShrink, Shrink, MakeRoom, Inv, LosesOnly;
    var r := Raise(s, id);
    assert SameTables(s.mapInfo, r.mapInfo, {});
    hide SameTables;
    gone := MakeRoomKeeps(r, b, now, rnd, id);
    var t := MakeRoom(r, b, now, rnd);
    StillUntried(r, t, id, gone);
    hide Raise;
    InsertKeeps(t, b, id);
    LosesOnlyVia(s, r, t, Insert(t, b, id), gone);
  }

  lemma StillUntried(r: State, t: State, id: Id, gone: set<Id>)
    requires LosesOnly(r, t, gone) && id in r.mapInfo && id !in gone
    ensures id in t.mapInfo && t.mapInfo[id].inTried == r.mapInfo[id].inTried
  {
  }

  lemma RefreshKeeps(s: State, id: Id, addr: Address, penalty: int, now: int)
    requires Inv(s) && id in s.mapInfo
    ensures Inv(Update(s, id, Refresh(s.mapInfo[id], addr, penalty, now)))
  {
    hide TriedOk, MapOk, RandOk, CountOk, NewOk;
    EntryAt(s, id, {});
    UpdateKeeps(s, id, Refresh(s.mapInfo[id], addr, penalty, now), {}, {});
  }

  /** An untried entry below the cap may be given one more, still pending, reference. */
  lemma RaiseKeeps(s: State, id: Id)
    requires Inv(s) && id in s.mapInfo && !s.mapInfo[id].inTried && s.mapInfo[id].refCount != NEW_BUCKETS_PER_ADDRESS
    ensures InvPend(Raise(s, id), {id})
  {
    hide TriedOk, MapOk, RandOk, CountOk, NewOk;
    EntryAt(s, id, {});
    UpdateKeeps(s, id, s.mapInfo[id].(refCount := s.mapInfo[id].refCount + 1), {}, {id});
  }

  /** `t` is `s` with one fresh, untried entry that has one pending reference and no bucket. */
  ghost predicate Fresh(s: State, t: State, id: Id, info: Info) {
    && id !in s.mapInfo && t.mapInfo == s.mapInfo[id := info]
    && !info.inTried && info.refCount == 1 && info.addr.lastTry >= 0 && info.lastSuccess >= 0
    && t.vvNew == s.vvNew && t.vvTried == s.vvTried && t.env == s.env && t.key == s.key
    && t.nNew == s.nNew + 1 && t.nTried == s.nTried
  }

  lemma FreshTriedOk(s: State, t: State, id: Id, info: Info)
    requires TriedOk(s) && Fresh(s, t, id, info)
    ensures TriedOk(t)
  {
    forall b, k | 0 <= b < |t.vvTried| && 0 <= k < |t.vvTried[b]| ensures TriedAt(t, t.vvTried[b][k], b) {
      assert TriedAt(s, s.vvTried[b][k], b);
    }
  }

  lemma FreshCountOk(s: State, t: State, id: Id, info: Info)
    requires CountOk(s) && Fresh(s, t, id, info)
    ensures CountOk(t)
  {
    assert NewIds(t.mapInfo) == NewIds(s.mapInfo) + {id};
    assert TriedIds(t.mapInfo) == TriedIds(s.mapInfo);
  }

  lemma FreshEntriesOk(s: State, t: State, id: Id, info: Info)
    requires NewOk(s) && EntriesOk(s, {}) && Fresh(s, t, id, info)
    ensures EntriesOk(t, {id}) && NewOk(t)
  {
    forall x | x in t.mapInfo ensures EntryOk(t, x, {id}) {
      RefsZero(s.vvNew, id);
      if x != id { assert EntryOk(s, x, {}); }
    }
  }

  lemma AddNewFresh(s: State, addr: Address, source: NetAddr, penalty: int)
    requires MapOk(s)
    ensures var id, t := Id(s.idCount), AddNew(s, addr, source, penalty);
            id in t.mapInfo && Fresh(s, Raise(t, id), id, Raise(t, id).mapInfo[id])
  {
    var id, t := Id(s.idCount), AddNew(s, addr, source, penalty);
    assert id !in s.mapInfo;
    assert Raise(t, id).mapInfo == s.mapInfo[id := Raise(t, id).mapInfo[id]];
  }

  lemma FreshKeeps(s: State, t: State, id: Id, info: Info)
    requires Inv(s) && Fresh(s, t, id, info) && MapOk(t) && RandOk(t)
    ensures InvPend(t, {id})
  {
    hide NewOk, EntriesOk, CountOk, TriedOk, MapOk, RandOk, Fresh;
    FreshTriedOk(s, t, id, info);
    FreshCountOk(s, t, id, info);
    FreshEntriesOk(s, t, id, info);
  }

  /** A new entry starts with one pending reference. */
  lemma AddNewKeeps(s: State, addr: Address, source: NetAddr, penalty: int)
    requires Inv(s) && !Known(s, addr.service.net)
    ensures CanList(AddNew(s, addr, source, penalty), Id(s.idCount))
    ensures InvPend(Raise(AddNew(s, addr, source, penalty), Id(s.idCount)), {Id(s.idCount)})
  {
    hide NewOk, EntriesOk, CountOk, TriedOk, MapOk, RandOk, Fresh, AddNew, Raise;
    var id, t := Id(s.idCount), AddNew(s, addr, source, penalty);
    AddNewCanList(s, addr, source, penalty);
    RaiseFrame(t, id);
    AddNewFresh(s, addr, source, penalty);
    FreshKeeps(s, Raise(t, id), id, Raise(t, id).mapInfo[id]);
  }

  lemma RaiseFrame(t: State, id: Id)
    requires MapOk(t) && RandOk(t) && id in t.mapInfo
    ensures MapOk(Raise(t, id)) && RandOk(Raise(t, id))
  {
    hide MapOk, RandOk;
    MapFrame(t, Raise(t, id));
    RandFrame(t, Raise(t, id));
  }

  lemma AddKnownKeeps(s: State, addr: Address, source: NetAddr, penalty: int, now: int, rnd: Draws)
    returns (gone: set<Id>)
    requires Inv(s) && Known(s, addr.service.net)
    ensures var t := AddKnown(s, addr, source, penalty, now, rnd);
            Inv(t) && LosesOnly(s, t, gone) && s.mapAddr[addr.service.net] !in gone
  {
    hide NewOk, EntriesOk, CountOk, TriedOk, MapOk, RandOk, List, LosesOnly;
    var id := s.mapAddr[addr.service.net];
    var info := Refresh(s.mapInfo[id], addr, penalty, now);
    RefreshKeeps(s, id, addr, penalty, now);
    var t := Update(s, id, info);
    gone := {};
    LosesNothing(s, t);
    if Wanted(info, addr, rnd(0)) {
      var b := NewBucket(s, info.addr.service.net, source);
      RefreshCanList(s, id, info);
      assert b < |t.vvNew| by { BucketCount(s); }
      if id !in t.vvNew[b] {
        RaiseKeeps(t, id);
        gone := ListKeeps(t, b, id, now, rnd);
        LosesOnlyVia(s, t, List(t, b, id, now, rnd), List(t, b, id, now, rnd), gone);
      } else {
        ListAgain(t, b, id, now, rnd);
      }
    }
  }

  lemma ListAgain(s: State, b: int, id: Id, now: int, rnd: Draws)
    requires CanList(s, id) && 0 <= b < |s.vvNew| && id in s.vvNew[b]
    ensures List(s, b, id, now, rnd) == s
  {
  }

  lemma LosesNothing(s: State, t: State)
    requires SameTables(s.mapInfo, t.mapInfo, {})
    ensures LosesOnly(s, t, {})
  {
  }

  lemma BucketCount(s: State)
    requires NewOk(s)
    ensures |s.vvNew| == NEW_BUCKET_COUNT
  {
  }

  lemma AddFreshKeeps(s: State, addr: Address, source: NetAddr, penalty: int, now: int, rnd: Draws)
    returns (gone: set<Id>)
    requires Inv(s) && !Known(s, addr.service.net) && s.env.routable(addr.service.net)
    ensures var (t, r) := (AddNew(s, addr, source, penalty), Add(s, addr, source, penalty, now, rnd).0);
            Inv(r) && MapOk(t) && LosesOnly(t, r, gone) && Id(s.idCount) !in gone
  {
    hide NewOk, EntriesOk, CountOk, TriedOk, MapOk, RandOk, List, LosesOnly, AddNew, Raise;
    var id, t := Id(s.idCount), AddNew(s, addr, source, penalty);
    var b := NewBucket(s, addr.service.net, source);
    AddNewKeeps(s, addr, source, penalty);
    AddNewShape(s, addr, source, penalty);
    gone := ListKeeps(t, b, id, now, rnd);
  }

  lemma AddNewShape(s: State, addr: Address, source: NetAddr, penalty: int)
    requires MapOk(s) && NewOk(s)
    ensures var id, t := Id(s.idCount), AddNew(s, addr, source, penalty);
            && t.vvNew == s.vvNew && |s.vvNew| == NEW_BUCKET_COUNT && t.env == s.env
            && id in t.mapInfo && !t.mapInfo[id].inTried
            && t.mapAddr == s.mapAddr[addr.service.net := id]
            && t.mapInfo == s.mapInfo[id := t.mapInfo[id]] && id !in s.mapInfo
            && forall b :: 0 <= b < |s.vvNew| ==> id !in s.vvNew[b]
  {
    assert Id(s.idCount) !in s.mapInfo;
  }

  ghost predicate IsTried(s: State, a: NetAddr)
    requires Known(s, a)
  {
    s.mapInfo[s.mapAddr[a]].inTried
  }

  /** Both states know `a` by the same id, service and tried status. */
  ghost predicate SameEntry(s: State, t: State, a: NetAddr)
  {
    && Known(s, a) && Known(t, a) && t.mapAddr[a] == s.mapAddr[a]
    && t.mapInfo[t.mapAddr[a]].addr.service == s.mapInfo[s.mapAddr[a]].addr.service
    && IsTried(t, a) == IsTried(s, a)
  }

  /** What losing the entries in `gone` means for the address index. */
  lemma LossByAddress(s: State, t: State, gone: set<Id>)
    requires MapOk(s) && MapOk(t) && LosesOnly(s, t, gone)
    ensures forall a :: a in t.mapAddr ==> a in s.mapAddr && SameEntry(s, t, a)
    ensures forall a :: a in s.mapAddr ==> (a in t.mapAddr <==> s.mapAddr[a] !in gone)
    ensures |s.mapAddr.Keys - t.mapAddr.Keys| <= 1
    ensures forall a :: a in s.mapAddr && a !in t.mapAddr ==> Known(s, a) && !IsTried(s, a)
  {
    hide MapOk, LosesOnly, SameEntry, Known, IsTried;
    forall a | a in t.mapAddr ensures a in s.mapAddr && SameEntry(s, t, a) { KeptEntry(s, t, gone, a); }
    forall a | a in s.mapAddr
      ensures a in t.mapAddr <==> s.mapAddr[a] !in gone
      ensures a !in t.mapAddr ==> Known(s, a) && !IsTried(s, a)
    {
      LostEntry(s, t, gone, a);
    }
    LossSize(s, t, gone);
  }

  lemma KeptEntry(s: State, t: State, gone: set<Id>, a: NetAddr)
    requires MapOk(s) && MapOk(t) && LosesOnly(s, t, gone) && a in t.mapAddr
    ensures a in s.mapAddr && SameEntry(s, t, a)
  {
    assert t.mapAddr[a] in s.mapInfo;
  }

  lemma LostEntry(s: State, t: State, gone: set<Id>, a: NetAddr)
    requires MapOk(s) && MapOk(t) && LosesOnly(s, t, gone) && a in s.mapAddr
    ensures a in t.mapAddr <==> s.mapAddr[a] !in gone
    ensures a !in t.mapAddr ==> Known(s, a) && !IsTried(s, a)
  {
    if s.mapAddr[a] !in gone { assert s.mapAddr[a] in t.mapInfo; }
    if a in t.mapAddr { KeptEntry(s, t, gone, a); }
  }

  lemma LossSize(s: State, t: State, gone: set<Id>)
    requires MapOk(s) && LosesOnly(s, t, gone)
    requires forall a :: a in s.mapAddr ==> (a in t.mapAddr <==> s.mapAddr[a] !in gone)
    ensures |s.mapAddr.Keys - t.mapAddr.Keys| <= 1
  {
    var lost := s.mapAddr.Keys - t.mapAddr.Keys;
    if lost != {} {
      var a := Pick(lost);
      OneElement(gone, s.mapAddr[a]);
      forall x | x in lost ensures x == a { assert s.mapAddr[x] in gone; }
      SubsetSize(lost, {a});
    }
  }

  lemma OneElement<T>(a: set<T>, x: T)
    requires |a| <= 1 && x in a
    ensures a == {x}
  {
    SubsetSize({x}, a);
    if a != {x} {
      var y := Pick(a - {x});
      SubsetSize({x, y}, a);
    }
  }

  /** What Add_ does to the set of known addresses. */
  ghost predicate AddEffect(s: State, t: State, a: NetAddr, isNew: bool) {
    var lost := s.mapAddr.Keys - t.mapAddr.Keys;
    && isNew == (s.env.routable(a) && a !in s.mapAddr)
    && t.mapAddr.Keys - s.mapAddr.Keys == (if isNew then {a} else {})
    && |lost| <= 1 && a !in lost
    && (forall x :: x in lost ==> Known(s, x) && !IsTried(s, x))
    && (forall x :: x in s.mapAddr && x in t.mapAddr ==> SameEntry(s, t, x))
  }

  /** Add_ keeps the invariant and forgets at most one address, never a tried one and never the one it
      was told about; it reports and adds exactly an unknown routable address. */
  lemma AddKeeps(s: State, addr: Address, source: NetAddr, penalty: int, now: int, rnd: Draws)
    requires Inv(s)
    ensures var (t, isNew) := Add(s, addr, source, penalty, now, rnd);
            Inv(t) && AddEffect(s, t, addr.service.net, isNew)
  {
    hide NewOk, EntriesOk, CountOk, TriedOk, RandOk, AddKnown, AddNew, List, MapOk, LosesOnly;
    var a := addr.service.net;
    assert Known(s, a) <==> a in s.mapAddr by { KnownIsListed(s, a); }
    var t := Add(s, addr, source, penalty, now, rnd).0;
    if !s.env.routable(a) {
      AddEffectSame(s, s, a, {});
    } else if Known(s, a) {
      var gone := AddKnownKeeps(s, addr, source, penalty, now, rnd);
      AddEffectSame(s, t, a, gone);
    } else {
      var gone := AddFreshKeeps(s, addr, source, penalty, now, rnd);
      AddNewShape(s, addr, source, penalty);
      AddEffectFresh(s, AddNew(s, addr, source, penalty), t, a, gone);
    }
  }

  lemma KnownIsListed(s: State, a: NetAddr)
    requires MapOk(s)
    ensures Known(s, a) <==> a in s.mapAddr
  {
  }

  lemma AddEffectSame(s: State, t: State, a: NetAddr, gone: set<Id>)
    requires MapOk(s) && MapOk(t) && ((gone == {} && t == s) || LosesOnly(s, t, gone))
    requires s.env.routable(a) ==> a in s.mapAddr && s.mapAddr[a] !in gone
    requires !s.env.routable(a) ==> t == s
    ensures AddEffect(s, t, a, false)
  {
    if t == s { LosesNothing(s, s); }
    LossByAddress(s, t, gone);
    assert t.mapAddr.Keys - s.mapAddr.Keys == {};
  }

  lemma LostFromEither<T>(s: set<T>, n: set<T>, t: set<T>, a: T)
    requires n == s + {a} && a !in s && t - n == {} && a !in n - t
    ensures s - t == n - t && t - s == {a}
  {
    assert a in t;
    assert t <= n;
  }

  lemma OldSameEntry(s: State, n: State, a: NetAddr)
    requires MapOk(s) && a !in s.mapAddr && n.mapAddr == s.mapAddr[a := Id(s.idCount)]
    requires Id(s.idCount) in n.mapInfo && n.mapInfo == s.mapInfo[Id(s.idCount) := n.mapInfo[Id(s.idCount)]]
    ensures forall x :: x in s.mapAddr ==> SameEntry(s, n, x)
  {
  }

  lemma AddEffectVia(s: State, n: State, t: State, a: NetAddr)
    requires AddEffect(n, t, a, false) && s.env.routable(a)
    requires a !in s.mapAddr && n.mapAddr.Keys == s.mapAddr.Keys + {a}
    requires forall x :: x in s.mapAddr ==> SameEntry(s, n, x)
    ensures AddEffect(s, t, a, true)
  {
    LostFromEither(s.mapAddr.Keys, n.mapAddr.Keys, t.mapAddr.Keys, a);
    forall x | x in s.mapAddr && x in t.mapAddr ensures SameEntry(s, t, x) {
      assert SameEntry(n, t, x);
    }
  }

  lemma AddEffectFresh(s: State, n: State, t: State, a: NetAddr, gone: set<Id>)
    requires MapOk(s) && MapOk(n) && MapOk(t) && LosesOnly(n, t, gone)
    requires s.env.routable(a) && n.env == s.env && a !in s.mapAddr
    requires Id(s.idCount) !in gone && Id(s.idCount) in n.mapInfo
    requires n.mapInfo == s.mapInfo[Id(s.idCount) := n.mapInfo[Id(s.idCount)]]
    requires n.mapAddr == s.mapAddr[a := Id(s.idCount)]
    ensures AddEffect(s, t, a, true)
  {
    hide LosesOnly, MapOk, AddEffect;
    AddEffectSame(n, t, a, gone);
    OldSameEntry(s, n, a);
    AddEffectVia(s, n, t, a);
  }
}
