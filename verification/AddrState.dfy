/** The address manager as a value: what src/addrman.h declares, and each operation
    of src/addrman.cpp as a function from one state to the next. */
module AddrState {
  import opened OrderedSet

  const TRIED_BUCKET_COUNT := 64
  const TRIED_BUCKET_SIZE := 64
  const NEW_BUCKET_COUNT := 256
  const NEW_BUCKET_SIZE := 64
  const TRIED_BUCKETS_PER_GROUP := 4
  const NEW_BUCKETS_PER_SOURCE_GROUP := 32
  const NEW_BUCKETS_PER_ADDRESS := 4
  const TRIED_ENTRIES_INSPECT_ON_EVICT := 4
  const HORIZON_DAYS := 30
  const RETRIES := 3
  const MAX_FAILURES := 10
  const MIN_FAIL_DAYS := 7
  const GETADDR_MAX_PCT := 23
  const GETADDR_MAX := 2500

  datatype NetAddr = NetAddr(ip: nat)
  datatype Service = Service(net: NetAddr, port: nat)
  datatype Address = Address(service: Service, services: bv64, time: nat, lastTry: int)
  datatype Info = Info(addr: Address, source: NetAddr, lastSuccess: int, attempts: int,
                       refCount: int, inTried: bool, randomPos: int)

  /** Foreign code: the hash, the address classification and the key encodings. */
  datatype Env = Env(hash: seq<seq<nat>> -> nat, group: NetAddr -> seq<nat>,
                     keyBytes: Service -> seq<nat>, routable: NetAddr -> bool)

  /** The i-th raw value drawn from the random source during one call. */
  type Draws = nat -> nat

  function RandInt(raw: nat, max: nat): (r: nat)
    ensures max > 0 ==> r < max
    ensures max == 0 ==> r == 0
  {
    if max == 0 then 0 else raw % max
  }

  function Max0(x: int): nat { if x < 0 then 0 else x }

  function U32(x: int): nat { x % 0x1_0000_0000 }

  datatype State = State(env: Env, key: seq<nat>, idCount: int,
                         mapInfo: map<Id, Info>, mapAddr: map<NetAddr, Id>, vRandom: seq<Id>,
                         nTried: int, vvTried: seq<seq<Id>>,
                         nNew: int, vvNew: seq<set<Id>>)

  function TriedBucket(s: State, svc: Service): (b: nat)
    ensures b < TRIED_BUCKET_COUNT
  {
    var h := s.env.hash([s.key, s.env.keyBytes(svc)]);
    s.env.hash([s.key, s.env.group(svc.net), [h % TRIED_BUCKETS_PER_GROUP]]) % TRIED_BUCKET_COUNT
  }

  function NewBucket(s: State, a: NetAddr, source: NetAddr): (b: nat)
    ensures b < NEW_BUCKET_COUNT
  {
    var h := s.env.hash([s.key, s.env.group(a), s.env.group(source)]);
    s.env.hash([s.key, s.env.group(source), [h % NEW_BUCKETS_PER_SOURCE_GROUP]]) % NEW_BUCKET_COUNT
  }

  predicate IsTerrible(info: Info, now: int) {
    if info.addr.lastTry != 0 && info.addr.lastTry >= now - 60 then false
    else
      || info.addr.time > now + 10 * 60
      || info.addr.time == 0
      || now - info.addr.time > HORIZON_DAYS * 86400
      || (info.lastSuccess == 0 && info.attempts >= RETRIES)
      || (now - info.lastSuccess > MIN_FAIL_DAYS * 86400 && info.attempts >= MAX_FAILURES)
  }

  // ---- Derived views

  /** How many buckets hold `id`. */
  ghost function Refs(vv: seq<set<Id>>, id: Id): nat {
    if vv == [] then 0 else Refs(vv[..|vv| - 1], id) + if id in vv[|vv| - 1] then 1 else 0
  }

  ghost function NewIds(m: map<Id, Info>): set<Id> { set id | id in m && !m[id].inTried }

  ghost function TriedIds(m: map<Id, Info>): set<Id> { set id | id in m && m[id].inTried }

  ghost predicate NoDup(q: seq<Id>) { forall i, j :: 0 <= i < j < |q| ==> q[i] != q[j] }

  // ---- The invariant, part by part. `pend` is the one entry whose reference count has been
  //      raised ahead of its insertion into a bucket, if there is one.

  ghost predicate MapOk(s: State) {
    && s.idCount >= 0
    && (forall id :: id in s.mapInfo ==> 0 <= id.n < s.idCount)
    && (forall id :: id in s.mapInfo ==>
          s.mapInfo[id].addr.service.net in s.mapAddr && s.mapAddr[s.mapInfo[id].addr.service.net] == id)
    && (forall a :: a in s.mapAddr ==>
          s.mapAddr[a] in s.mapInfo && s.mapInfo[s.mapAddr[a]].addr.service.net == a)
  }

  ghost predicate RandOk(s: State) {
    && (forall id :: id in s.mapInfo ==>
          0 <= s.mapInfo[id].randomPos < |s.vRandom| && s.vRandom[s.mapInfo[id].randomPos] == id)
    && (forall i :: 0 <= i < |s.vRandom| ==>
          s.vRandom[i] in s.mapInfo && s.mapInfo[s.vRandom[i]].randomPos == i)
  }

  /** `id` is a tried entry whose own hash puts it in bucket `b`. */
  ghost predicate TriedAt(s: State, id: Id, b: int) {
    id in s.mapInfo && s.mapInfo[id].inTried && TriedBucket(s, s.mapInfo[id].addr.service) == b
  }

  ghost predicate TriedOk(s: State) {
    && |s.vvTried| == TRIED_BUCKET_COUNT
    && (forall b :: 0 <= b < |s.vvTried| ==> |s.vvTried[b]| <= TRIED_BUCKET_SIZE && NoDup(s.vvTried[b]))
    && (forall b, k :: 0 <= b < |s.vvTried| && 0 <= k < |s.vvTried[b]| ==> TriedAt(s, s.vvTried[b][k], b))
    && (forall id :: id in s.mapInfo && s.mapInfo[id].inTried ==>
          id in s.vvTried[TriedBucket(s, s.mapInfo[id].addr.service)])
  }

  ghost predicate NewOk(s: State) {
    && |s.vvNew| == NEW_BUCKET_COUNT
    && (forall b :: 0 <= b < |s.vvNew| ==> |s.vvNew[b]| <= NEW_BUCKET_SIZE)
    && (forall b, id :: 0 <= b < |s.vvNew| && id in s.vvNew[b] ==> id in s.mapInfo && !s.mapInfo[id].inTried)
  }

  ghost predicate EntryOk(s: State, id: Id, pend: set<Id>)
    requires id in s.mapInfo
  {
    var info := s.mapInfo[id];
    && info.addr.lastTry >= 0 && info.lastSuccess >= 0
    && info.refCount == Refs(s.vvNew, id) + (if id in pend then 1 else 0)
    && (info.inTried ==> info.refCount == 0 && info.lastSuccess != 0)
    && (!info.inTried ==> 1 <= info.refCount <= NEW_BUCKETS_PER_ADDRESS)
  }

  ghost predicate EntriesOk(s: State, pend: set<Id>) {
    forall id :: id in s.mapInfo ==> EntryOk(s, id, pend)
  }

  ghost predicate Ages(s: State) {
    forall id :: id in s.mapInfo ==>
      var info := s.mapInfo[id];
      info.addr.lastTry >= 0 && info.lastSuccess >= 0 && (info.inTried ==> info.lastSuccess != 0)
  }

  ghost predicate CountOk(s: State) {
    s.nNew == |NewIds(s.mapInfo)| && s.nTried == |TriedIds(s.mapInfo)|
  }

  ghost predicate InvPend(s: State, pend: set<Id>) {
    MapOk(s) && RandOk(s) && TriedOk(s) && NewOk(s) && EntriesOk(s, pend) && CountOk(s)
  }

  ghost predicate Inv(s: State) { InvPend(s, {}) }

  /** Consistent but for the new buckets and the references to them. */
  ghost predicate Core(s: State) { MapOk(s) && RandOk(s) && TriedOk(s) && Ages(s) && CountOk(s) }

  lemma InvCore(s: State)
    requires Inv(s)
    ensures Core(s)
  {
    hide MapOk, RandOk, TriedOk, NewOk, CountOk;
    forall id | id in s.mapInfo ensures EntryOk(s, id, {}) {
    }
  }

  // ---- Operations

  function Init(env: Env, key: seq<nat>): State {
    State(env, key, 0, map[], map[], [], 0, seq(TRIED_BUCKET_COUNT, _ => []), 0, seq(NEW_BUCKET_COUNT, _ => {}))
  }

  function Create(s: State, addr: Address, source: NetAddr): State {
    var id := Id(s.idCount);
    s.(idCount := s.idCount + 1,
       mapInfo := s.mapInfo[id := Info(addr.(lastTry := 0), source, 0, 0, 0, false, |s.vRandom|)],
       mapAddr := s.mapAddr[addr.service.net := id],
       vRandom := s.vRandom + [id])
  }

  ghost predicate CanSwap(s: State, p: int) { 0 <= p < |s.vRandom| && s.vRandom[p] in s.mapInfo }

  ghost function Swap(s: State, p1: int, p2: int): State
    requires CanSwap(s, p1) && CanSwap(s, p2)
  {
    if p1 == p2 then s else
      var id1, id2 := s.vRandom[p1], s.vRandom[p2];
      var m := s.mapInfo[id1 := s.mapInfo[id1].(randomPos := p2)];
      s.(mapInfo := m[id2 := m[id2].(randomPos := p1)],
         vRandom := s.vRandom[p1 := id2][p2 := id1])
  }

  /** Erase an entry that no bucket refers to any more. */
  ghost function Forget(s: State, id: Id): State
    requires id in s.mapInfo && CanSwap(s, s.mapInfo[id].randomPos) && CanSwap(s, |s.vRandom| - 1)
  {
    var t := Swap(s, s.mapInfo[id].randomPos, |s.vRandom| - 1);
    t.(vRandom := t.vRandom[..|t.vRandom| - 1],
       mapAddr := t.mapAddr - {s.mapInfo[id].addr.service.net},
       mapInfo := t.mapInfo - {id},
       nNew := t.nNew - 1)
  }

  /** Take one reference of `id` out of new bucket `b`. */
  ghost function DropRef(s: State, b: int, id: Id): State
    requires id in s.mapInfo && 0 <= b < |s.vvNew|
    requires CanSwap(s, s.mapInfo[id].randomPos) && CanSwap(s, |s.vRandom| - 1)
  {
    var r := s.mapInfo[id].refCount - 1;
    var t := s.(mapInfo := s.mapInfo[id := s.mapInfo[id].(refCount := r)]);
    var u := if r == 0 then Forget(t, id) else t;
    u.(vvNew := u.vvNew[b := u.vvNew[b] - {id}])
  }
}
