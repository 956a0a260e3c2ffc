/** What the operations of the address manager leave behind, entry by entry and bucket by bucket. */
module AddrEffects {
  import opened OrderedSet
  import opened Services
  import opened AddrState
  import opened AddrOps
  import opened AddrInvariant
  import opened AddrTried

  const HOUR := 3600
  const DAY := 86400

  // ---- Terrible entries

  /** What an entry that was not just tried has to show to be kept: seen within thirty days and not in the future, and
      neither three failures without any success nor ten since a success more than a week ago. */
  lemma KeptExactly(info: Info, now: int)
    ensures !IsTerrible(info, now) <==>
            || (info.addr.lastTry != 0 && now - info.addr.lastTry <= 60)
            || (&& info.addr.time != 0 && now - 30 * DAY <= info.addr.time <= now + 600
                && (info.lastSuccess != 0 || info.attempts < 3)
                && (now - info.lastSuccess <= 7 * DAY || info.attempts < 10))
  {
  }

  // ---- Who makes room

  /** The lowest-numbered terrible entry of the bucket, or else, of the entries at four drawn places, one seen longest
      ago. */
  ghost predicate GivenUp(s: State, b: int, now: int, rnd: Draws, v: Id) {
    && 0 <= b < |s.vvNew| && s.vvNew[b] != {} && (forall id :: id in s.vvNew[b] ==> id in s.mapInfo)
    && var n := |s.vvNew[b]|;
       if exists id :: id in s.vvNew[b] && IsTerrible(s.mapInfo[id], now)
       then TerribleVictim(s, b, now, v)
       else OldestVictim(s, b, [rnd(1) % n, rnd(2) % n, rnd(3) % n, rnd(4) % n], v)
  }

  lemma VictimGivenUp(s: State, b: int, now: int, rnd: Draws)
    requires CanShrink(s, b)
    ensures GivenUp(s, b, now, rnd, Victim(s, b, now, rnd))
  {
    VictimChoice(s, b, now, rnd);
    hide Victim, OldestVictim, TerribleVictim, IsTerrible, RandOk, MapOk;
  }

  /** The choice looks at the entries of the bucket only. */
  lemma GivenUpFrame(s: State, t: State, b: int, now: int, rnd: Draws, v: Id)
    requires GivenUp(s, b, now, rnd, v) && t.vvNew == s.vvNew
    requires forall id :: id in s.vvNew[b] ==> id in t.mapInfo && t.mapInfo[id] == s.mapInfo[id]
    ensures GivenUp(t, b, now, rnd, v)
  {
    hide IsTerrible, Sorted;
  }

  // ---- One more place in a bucket

  /** The same entry, wherever it stands in vRandom. */
  predicate SameInfo(a: Info, b: Info) { b == a.(randomPos := b.randomPos) }

  /** Every entry but those of `x` is what it was. */
  ghost predicate Others(s: State, t: State, x: set<Id>) {
    forall id :: id in s.mapInfo && id !in x ==> id in t.mapInfo && SameInfo(s.mapInfo[id], t.mapInfo[id])
  }

  /** The entry `v` has lost the reference from bucket `b`, and has gone if it was its last. */
  ghost predicate Lost(s: State, t: State, v: Id) {
    && v in s.mapInfo
    && if s.mapInfo[v].refCount == 1 then v !in t.mapInfo
       else v in t.mapInfo && SameInfo(s.mapInfo[v].(refCount := s.mapInfo[v].refCount - 1), t.mapInfo[v])
  }

  /** `id` has come into bucket `b`; in a full one another entry has made room for it. */
  ghost predicate Entered(s: State, t: State, b: int, id: Id, now: int, rnd: Draws) {
    && 0 <= b < |s.vvNew| && t.vvTried == s.vvTried
    && if |s.vvNew[b]| < NEW_BUCKET_SIZE then
         && t.vvNew == s.vvNew[b := s.vvNew[b] + {id}] && Others(s, t, {id})
         && t.mapInfo.Keys == s.mapInfo.Keys + {id}
       else exists v :: Displaced(s, t, b, id, now, rnd, v)
  }

  ghost predicate Displaced(s: State, t: State, b: int, id: Id, now: int, rnd: Draws, v: Id) {
    && GivenUp(s, b, now, rnd, v) && t.vvNew == s.vvNew[b := s.vvNew[b] - {v} + {id}]
    && Lost(s, t, v) && Others(s, t, {id, v})
    && t.mapInfo.Keys == s.mapInfo.Keys + {id} - (if s.mapInfo[v].refCount == 1 then {v} else {})
  }

  lemma DroppedLost(s: State, t: State, b: nat, v: Id, gone: set<Id>)
    requires b < |s.vvNew| && v in s.mapInfo && Dropped(s, t, b, v, gone)
    ensures Lost(s, t, v) && Others(s, t, {v}) && t.vvTried == s.vvTried
    ensures t.vvNew == s.vvNew[b := s.vvNew[b] - {v}]
    ensures t.mapInfo.Keys == s.mapInfo.Keys - (if s.mapInfo[v].refCount == 1 then {v} else {})
  {
  }

  /** The entry given up has lost its reference, and nothing else has happened. */
  ghost predicate Shrunk(s: State, t: State, b: int, now: int, rnd: Draws, v: Id) {
    && GivenUp(s, b, now, rnd, v) && v in s.vvNew[b]
    && Lost(s, t, v) && Others(s, t, {v}) && t.vvTried == s.vvTried
    && t.vvNew == s.vvNew[b := s.vvNew[b] - {v}]
    && t.mapInfo.Keys == s.mapInfo.Keys - (if s.mapInfo[v].refCount == 1 then {v} else {})
  }

  lemma ShrinkDoes(s: State, b: nat, now: int, rnd: Draws) returns (v: Id)
    requires CanShrink(s, b)
    ensures Shrunk(s, Shrink(s, b, now, rnd), b, now, rnd, v)
  {
    hide MapOk, RandOk, Victim, DropRef, Dropped, GivenUp, Lost, Others;
    v := Victim(s, b, now, rnd);
    VictimGivenUp(s, b, now, rnd);
    VictimInBucket(s, b, now, rnd);
    DropRefDropped(s, b, v);
    DroppedLost(s, Shrink(s, b, now, rnd), b, v, if s.mapInfo[v].refCount == 1 then {v} else {});
  }

  lemma ListDoes(s: State, b: nat, id: Id, now: int, rnd: Draws)
    requires CanList(s, id) && b < |s.vvNew| && id !in s.vvNew[b]
    ensures var t := List(s, b, id, now, rnd);
            && Entered(s, t, b, id, now, rnd) && id in t.mapInfo
            && SameInfo(s.mapInfo[id].(refCount := s.mapInfo[id].refCount + 1), t.mapInfo[id])
  {
    hide MapOk, RandOk, NewOk, Shrink, GivenUp, Lost, CanShrink;
    var u, t := Raise(s, id), List(s, b, id, now, rnd);
    RaiseCanShrink(s, b, id);
    BucketFits(s, b);
    if |s.vvNew[b]| == NEW_BUCKET_SIZE {
      var v := ShrinkDoes(u, b, now, rnd);
      ShrunkEntered(s, u, Shrink(u, b, now, rnd), t, b, id, now, rnd, v);
    }
  }

  lemma BucketFits(s: State, b: nat)
    requires NewOk(s) && b < |s.vvNew|
    ensures |s.vvNew[b]| <= NEW_BUCKET_SIZE && forall x :: x in s.vvNew[b] ==> x in s.mapInfo
  {
  }

  lemma ShrunkEntered(s: State, u: State, w: State, t: State, b: nat, id: Id, now: int, rnd: Draws, v: Id)
    requires id in s.mapInfo && u == s.(mapInfo := s.mapInfo[id := s.mapInfo[id].(refCount := s.mapInfo[id].refCount + 1)])
    requires b < |s.vvNew| && id !in s.vvNew[b] && v in s.vvNew[b] && |s.vvNew[b]| >= NEW_BUCKET_SIZE
    requires GivenUp(u, b, now, rnd, v) && Lost(u, w, v) && Others(u, w, {v}) && w.vvTried == u.vvTried
    requires w.vvNew == u.vvNew[b := u.vvNew[b] - {v}]
    requires w.mapInfo.Keys == u.mapInfo.Keys - (if u.mapInfo[v].refCount == 1 then {v} else {})
    requires t == w.(vvNew := w.vvNew[b := w.vvNew[b] + {id}])
    ensures Entered(s, t, b, id, now, rnd) && id in t.mapInfo && SameInfo(u.mapInfo[id], t.mapInfo[id])
  {
    hide GivenUp, Lost, Others, SameInfo;
    RaisedFrame(s, u, w, t, id, v);
    RaisedGivenUp(s, u, b, id, now, rnd, v);
    assert Displaced(s, t, b, id, now, rnd, v);
  }

  lemma RaisedGivenUp(s: State, u: State, b: int, id: Id, now: int, rnd: Draws, v: Id)
    requires id in s.mapInfo && id in u.mapInfo && u.vvNew == s.vvNew && u.mapInfo == s.mapInfo[id := u.mapInfo[id]]
    requires GivenUp(u, b, now, rnd, v) && id !in u.vvNew[b]
    ensures GivenUp(s, b, now, rnd, v)
  {
    assert forall x :: x in u.vvNew[b] ==> x in s.mapInfo && s.mapInfo[x] == u.mapInfo[x];
    hide GivenUp;
    GivenUpFrame(u, s, b, now, rnd, v);
  }

  lemma RaisedFrame(s: State, u: State, w: State, t: State, id: Id, v: Id)
    requires id in s.mapInfo && id in u.mapInfo && u.mapInfo == s.mapInfo[id := u.mapInfo[id]] && id != v
    requires Lost(u, w, v) && Others(u, w, {v}) && t.mapInfo == w.mapInfo
    ensures Lost(s, t, v) && Others(s, t, {id, v}) && id in t.mapInfo && SameInfo(u.mapInfo[id], t.mapInfo[id])
    ensures v in s.mapInfo && u.mapInfo[v] == s.mapInfo[v]
  {
  }

  // ---- Add_ of a known address

  /** The time of a known entry that is told of at time `told`: never far behind what it is told, an hour and the penalty
      if that is less than a day ago, a day and the penalty otherwise; left alone if it is not; and otherwise the time
      told less the penalty. */
  ghost predicate Told(before: nat, after: nat, told: nat, penalty: int, now: int) {
    && (after == before || (told != 0 && after == (if told < penalty then 0 else told - penalty) % 0x1_0000_0000))
    && (told != 0 && told - penalty < 0x1_0000_0000 ==>
          && (now - told < DAY ==>
                after >= told - HOUR - penalty && (before != 0 && before >= told - HOUR - penalty ==> after == before))
          && (now - told >= DAY ==>
                after >= told - DAY - penalty && (before != 0 && before >= told - DAY - penalty ==> after == before))
          && (before == 0 ==> after == if told < penalty then 0 else told - penalty))
  }

  /** The entry has been told of: its time, its services, and perhaps its references. */
  ghost predicate Renewed(was: Info, become: Info, addr: Address, penalty: int, now: int) {
    && SameInfo(was.(addr := was.addr.(time := become.addr.time, services := become.addr.services),
                     refCount := become.refCount), become)
    && Told(was.addr.time, become.addr.time, addr.time, penalty, now)
    && forall bit :: Offers(become.addr.services, bit) <==> Offers(was.addr.services, bit) || Offers(addr.services, bit)
  }

  lemma RefreshRenews(was: Info, addr: Address, penalty: int, now: int)
    ensures Renewed(was, Refresh(was, addr, penalty, now), addr, penalty, now)
  {
    hide Both, Offers;
    var become := Refresh(was, addr, penalty, now);
    forall bit ensures Offers(become.addr.services, bit) <==> Offers(was.addr.services, bit) || Offers(addr.services, bit) {
      BothOffer(was.addr.services, addr.services, bit);
    }
  }

  /** One more reference is given to an untried entry that has fewer than four and was told of at a later time than it
      now has, and then in one out of 2, 4 or 8 cases. */
  ghost predicate Earns(was: Info, become: Info, addr: Address, raw: nat) {
    && addr.time > become.addr.time && !was.inTried && 1 <= was.refCount <= 3
    && (was.refCount == 1 ==> raw % 2 == 0) && (was.refCount == 2 ==> raw % 4 == 0) && (was.refCount == 3 ==> raw % 8 == 0)
  }

  lemma WantedEarns(was: Info, become: Info, addr: Address, raw: nat)
    requires become.inTried == was.inTried && become.refCount == was.refCount && (!was.inTried ==> 1 <= was.refCount <= 4)
    ensures Wanted(become, addr, raw) <==> Earns(was, become, addr, raw)
  {
    assert Pow2(1) == 2 && Pow2(2) == 4 && Pow2(3) == 8;
  }

  /** Add_ of a known, routable address. */
  ghost predicate KnownAdded(s: State, t: State, addr: Address, source: NetAddr, penalty: int, now: int, rnd: Draws) {
    var a := addr.service.net;
    && Known(s, a)
    && var id := s.mapAddr[a];
       && id in t.mapInfo && Renewed(s.mapInfo[id], t.mapInfo[id], addr, penalty, now)
       && var b := NewBucket(s, a, source);
          && b < |s.vvNew|
          && if Earns(s.mapInfo[id], t.mapInfo[id], addr, rnd(0)) && id !in s.vvNew[b] then
               t.mapInfo[id].refCount == s.mapInfo[id].refCount + 1 && Entered(s, t, b, id, now, rnd)
             else
               && t.mapInfo[id].refCount == s.mapInfo[id].refCount
               && t.mapInfo.Keys == s.mapInfo.Keys && Others(s, t, {id}) && t.vvNew == s.vvNew && t.vvTried == s.vvTried
  }

  lemma AddKnownDoes(s: State, addr: Address, source: NetAddr, penalty: int, now: int, rnd: Draws)
    requires Inv(s) && Known(s, addr.service.net)
    ensures KnownAdded(s, AddKnown(s, addr, source, penalty, now, rnd), addr, source, penalty, now, rnd)
  {
    hide MapOk, RandOk, TriedOk, NewOk, CountOk, EntriesOk, Refresh, Wanted, Earns, List, Entered, Renewed, NewBucket;
    var a := addr.service.net;
    var id := s.mapAddr[a];
    var was, become := s.mapInfo[id], Refresh(s.mapInfo[id], addr, penalty, now);
    var u, t, b := Update(s, id, become), AddKnown(s, addr, source, penalty, now, rnd), NewBucket(s, a, source);
    NetKept(s, a);
    RefreshShape(was, addr, penalty, now);
    RefreshRenews(was, addr, penalty, now);
    EntryCounts(s, id);
    WantedEarns(was, become, addr, rnd(0));
    RefreshCanList(s, id, become);
    BucketCount(s);
    if Wanted(become, addr, rnd(0)) && id !in s.vvNew[b] {
      ListDoes(u, b, id, now, rnd);
      EnteredVia(s, u, t, b, id, now, rnd);
      RenewedMore(was, become, t.mapInfo[id], addr, penalty, now);
      EarnsMore(was, become, t.mapInfo[id], addr, rnd(0));
    } else if Wanted(become, addr, rnd(0)) {
      ListAgain(u, b, id, now, rnd);
    }
  }

  lemma NetKept(s: State, a: NetAddr)
    requires MapOk(s) && Known(s, a)
    ensures s.mapInfo[s.mapAddr[a]].addr.service.net == a
  {
  }

  lemma EntryCounts(s: State, id: Id)
    requires EntriesOk(s, {}) && id in s.mapInfo
    ensures !s.mapInfo[id].inTried ==> 1 <= s.mapInfo[id].refCount <= 4
  {
    assert EntryOk(s, id, {});
  }

  lemma RenewedMore(was: Info, become: Info, more: Info, addr: Address, penalty: int, now: int)
    requires Renewed(was, become, addr, penalty, now)
    requires SameInfo(become.(refCount := become.refCount + 1), more)
    ensures Renewed(was, more, addr, penalty, now)
  {
    hide Told, Offers;
  }

  lemma EarnsMore(was: Info, become: Info, more: Info, addr: Address, raw: nat)
    requires Earns(was, become, addr, raw) && more.addr.time == become.addr.time
    ensures Earns(was, more, addr, raw)
  {
  }

  /** A change to the entry itself does not matter to the others. */
  lemma EnteredVia(s: State, u: State, t: State, b: int, id: Id, now: int, rnd: Draws)
    requires id in s.mapInfo && id in u.mapInfo && u == s.(mapInfo := s.mapInfo[id := u.mapInfo[id]])
    requires Entered(u, t, b, id, now, rnd) && id !in u.vvNew[b]
    ensures Entered(s, t, b, id, now, rnd)
  {
    hide GivenUp, SameInfo, Others, Lost;
    if |s.vvNew[b]| < NEW_BUCKET_SIZE {
      OthersVia(s, u, t, id, {id});
    } else {
      var v :| Displaced(u, t, b, id, now, rnd, v);
      GivenUpIn(u, b, now, rnd, v);
      RaisedGivenUp(s, u, b, id, now, rnd, v);
      OthersVia(s, u, t, id, {id, v});
      LostVia(s, u, t, id, v);
      assert Displaced(s, t, b, id, now, rnd, v);
    }
  }

  lemma GivenUpIn(s: State, b: int, now: int, rnd: Draws, v: Id)
    requires GivenUp(s, b, now, rnd, v)
    ensures v in s.vvNew[b]
  {
  }

  lemma OthersVia(s: State, u: State, t: State, id: Id, x: set<Id>)
    requires id in s.mapInfo && id in u.mapInfo && u.mapInfo == s.mapInfo[id := u.mapInfo[id]] && id in x && Others(u, t, x)
    ensures Others(s, t, x)
  {
  }

  lemma LostVia(s: State, u: State, t: State, id: Id, v: Id)
    requires id in s.mapInfo && id in u.mapInfo && u.mapInfo == s.mapInfo[id := u.mapInfo[id]] && id != v && Lost(u, t, v)
    ensures Lost(s, t, v) && u.mapInfo[v] == s.mapInfo[v]
  {
  }

  // ---- Add_ of a new address

  /** A new entry: told of, never tried, one reference. */
  ghost predicate Newcomer(info: Info, addr: Address, source: NetAddr, penalty: int) {
    && info.addr.service == addr.service && info.addr.services == addr.services && info.source == source
    && info.addr.time == (if addr.time < penalty then 0 else addr.time - penalty) % 0x1_0000_0000
    && info.addr.lastTry == 0 && info.lastSuccess == 0 && info.attempts == 0 && info.refCount == 1 && !info.inTried
  }

  /** Add_ of an unknown, routable address. */
  ghost predicate NewAdded(s: State, t: State, addr: Address, source: NetAddr, penalty: int, now: int, rnd: Draws) {
    var a, id := addr.service.net, Id(s.idCount);
    && id !in s.mapInfo && id in t.mapInfo && Newcomer(t.mapInfo[id], addr, source, penalty)
    && t.idCount == s.idCount + 1 && a in t.mapAddr && t.mapAddr[a] == id
    && Entered(s, t, NewBucket(s, a, source), id, now, rnd)
  }

  lemma AddNewDoes(s: State, addr: Address, source: NetAddr, penalty: int, now: int, rnd: Draws)
    requires Inv(s) && !Known(s, addr.service.net) && s.env.routable(addr.service.net)
    ensures NewAdded(s, Add(s, addr, source, penalty, now, rnd).0, addr, source, penalty, now, rnd)
  {
    hide MapOk, RandOk, TriedOk, NewOk, CountOk, EntriesOk, List, Entered, NewBucket, AddNew, SameInfo;
    var id, n, b := Id(s.idCount), AddNew(s, addr, source, penalty), NewBucket(s, addr.service.net, source);
    AddNewCanList(s, addr, source, penalty);
    AddNewShape(s, addr, source, penalty);
    AddNewEntry(s, addr, source, penalty);
    var t := List(n, b, id, now, rnd);
    ListDoes(n, b, id, now, rnd);
    EnteredFresh(s, n, t, b, id, now, rnd);
    NewIndexed(s, addr, source, penalty, now, rnd);
    NewcomerSame(n.mapInfo[id].(refCount := 1), t.mapInfo[id], addr, source, penalty);
  }

  lemma AddNewEntry(s: State, addr: Address, source: NetAddr, penalty: int)
    ensures var id, n := Id(s.idCount), AddNew(s, addr, source, penalty);
            && id in n.mapInfo && n.mapInfo[id].refCount == 0 && Newcomer(n.mapInfo[id].(refCount := 1), addr, source, penalty)
            && n.idCount == s.idCount + 1 && n.vvTried == s.vvTried
  {
  }

  lemma NewcomerSame(a: Info, b: Info, addr: Address, source: NetAddr, penalty: int)
    requires Newcomer(a, addr, source, penalty) && SameInfo(a, b)
    ensures Newcomer(b, addr, source, penalty)
  {
  }

  /** The address keeps its place in the index, and the ids their count. */
  lemma NewIndexed(s: State, addr: Address, source: NetAddr, penalty: int, now: int, rnd: Draws)
    requires Inv(s) && !Known(s, addr.service.net) && s.env.routable(addr.service.net)
    ensures var t := Add(s, addr, source, penalty, now, rnd).0;
            && t.idCount == s.idCount + 1 && addr.service.net in t.mapAddr && t.mapAddr[addr.service.net] == Id(s.idCount)
  {
    hide RandOk, TriedOk, NewOk, CountOk, EntriesOk, List, AddNew, LosesOnly, MapOk;
    var n, t := AddNew(s, addr, source, penalty), Add(s, addr, source, penalty, now, rnd).0;
    AddNewShape(s, addr, source, penalty);
    AddNewEntry(s, addr, source, penalty);
    var gone := AddFreshKeeps(s, addr, source, penalty, now, rnd);
    AddNewCanList(s, addr, source, penalty);
    ListCount(n, NewBucket(s, addr.service.net, source), Id(s.idCount), now, rnd);
    FreshIndexed(n, t, addr.service.net, Id(s.idCount), gone);
  }

  lemma FreshIndexed(n: State, t: State, a: NetAddr, id: Id, gone: set<Id>)
    requires MapOk(n) && MapOk(t) && LosesOnly(n, t, gone) && a in n.mapAddr && n.mapAddr[a] == id && id !in gone
    ensures a in t.mapAddr && t.mapAddr[a] == id
  {
    assert id in t.mapInfo;
  }

  lemma ListCount(s: State, b: nat, id: Id, now: int, rnd: Draws)
    requires CanList(s, id) && b < |s.vvNew|
    ensures List(s, b, id, now, rnd).idCount == s.idCount
  {
    hide MapOk, RandOk, NewOk, Victim;
    if id !in s.vvNew[b] {
      RaiseCanShrink(s, b, id);
    }
  }

  /** A fresh entry does not matter to the others. */
  lemma EnteredFresh(s: State, n: State, t: State, b: int, id: Id, now: int, rnd: Draws)
    requires id !in s.mapInfo && id in n.mapInfo && n.mapInfo == s.mapInfo[id := n.mapInfo[id]]
    requires n.vvNew == s.vvNew && n.vvTried == s.vvTried && Entered(n, t, b, id, now, rnd)
    requires forall c :: 0 <= c < |s.vvNew| ==> id !in s.vvNew[c]
    ensures Entered(s, t, b, id, now, rnd)
  {
    hide GivenUp, SameInfo, Others, Lost;
    if |s.vvNew[b]| < NEW_BUCKET_SIZE {
      OthersFresh(s, n, t, id, {id});
    } else {
      var v :| Displaced(n, t, b, id, now, rnd, v);
      GivenUpIn(n, b, now, rnd, v);
      FreshGivenUp(s, n, b, id, now, rnd, v);
      OthersFresh(s, n, t, id, {id, v});
      LostFresh(s, n, t, id, v);
      assert Displaced(s, t, b, id, now, rnd, v);
    }
  }

  lemma FreshGivenUp(s: State, n: State, b: int, id: Id, now: int, rnd: Draws, v: Id)
    requires id in n.mapInfo && n.vvNew == s.vvNew && n.mapInfo == s.mapInfo[id := n.mapInfo[id]]
    requires GivenUp(n, b, now, rnd, v) && id !in n.vvNew[b]
    ensures GivenUp(s, b, now, rnd, v)
  {
    assert forall x :: x in n.vvNew[b] ==> x in s.mapInfo && s.mapInfo[x] == n.mapInfo[x];
    hide GivenUp;
    GivenUpFrame(n, s, b, now, rnd, v);
  }

  lemma OthersFresh(s: State, n: State, t: State, id: Id, x: set<Id>)
    requires id in n.mapInfo && n.mapInfo == s.mapInfo[id := n.mapInfo[id]] && id in x && Others(n, t, x)
    ensures Others(s, t, x)
  {
  }

  lemma LostFresh(s: State, n: State, t: State, id: Id, v: Id)
    requires id in n.mapInfo && n.mapInfo == s.mapInfo[id := n.mapInfo[id]] && id != v && Lost(n, t, v)
    ensures Lost(s, t, v) && n.mapInfo[v] == s.mapInfo[v]
  {
  }

  /** Add_. */
  ghost predicate Added(s: State, t: State, addr: Address, source: NetAddr, penalty: int, now: int, rnd: Draws) {
    if !s.env.routable(addr.service.net) then t == s
    else if Known(s, addr.service.net) then KnownAdded(s, t, addr, source, penalty, now, rnd)
    else NewAdded(s, t, addr, source, penalty, now, rnd)
  }

  /** The whole of Add_, whatever the address. */
  lemma AddDoes(s: State, addr: Address, source: NetAddr, penalty: int, now: int, rnd: Draws)
    requires Inv(s)
    ensures Added(s, Add(s, addr, source, penalty, now, rnd).0, addr, source, penalty, now, rnd)
  {
    hide MapOk, RandOk, TriedOk, NewOk, CountOk, EntriesOk, AddKnown, AddNew, List, KnownAdded, NewAdded;
    if !s.env.routable(addr.service.net) {
    } else if Known(s, addr.service.net) {
      AddKnownDoes(s, addr, source, penalty, now, rnd);
    } else {
      AddNewDoes(s, addr, source, penalty, now, rnd);
    }
  }

  // ---- Attempt_ and Connected_

  /** The same state but for the entry `id`. */
  ghost predicate OnlyEntry(s: State, t: State, id: Id) {
    t == s.(mapInfo := t.mapInfo) && t.mapInfo.Keys == s.mapInfo.Keys
    && forall x :: x in s.mapInfo && x != id ==> t.mapInfo[x] == s.mapInfo[x]
  }

  /** An attempt is counted and dated, on the very service only. */
  ghost predicate Attempted(s: State, t: State, svc: Service, time: int) {
    if !Matches(s, svc) then t == s
    else
      var id := s.mapAddr[svc.net];
      && OnlyEntry(s, t, id)
      && var was, become := s.mapInfo[id], t.mapInfo[id];
         && become.attempts == was.attempts + 1 && become.addr.lastTry == time
         && become.addr.time == was.addr.time && become.addr.services == was.addr.services
         && become.addr.service == was.addr.service && become.source == was.source
         && become.lastSuccess == was.lastSuccess && become.refCount == was.refCount
         && become.inTried == was.inTried && become.randomPos == was.randomPos
  }

  lemma AttemptDoes(s: State, svc: Service, time: int)
    ensures Attempted(s, Attempt(s, svc, time), svc, time)
  {
  }

  /** The entry is dated, if it has not been for twenty minutes, and nothing else of it changes. */
  ghost predicate Heard(s: State, t: State, svc: Service, time: int) {
    if !Matches(s, svc) || time <= s.mapInfo[s.mapAddr[svc.net]].addr.time + 1200 then t == s
    else
      var id := s.mapAddr[svc.net];
      && OnlyEntry(s, t, id) && t.mapInfo[id].addr.time == time % 0x1_0000_0000
      && t.mapInfo[id].(addr := s.mapInfo[id].addr) == s.mapInfo[id]
      && t.mapInfo[id].addr.(time := s.mapInfo[id].addr.time) == s.mapInfo[id].addr
  }

  lemma ConnectedDoes(s: State, svc: Service, time: int)
    ensures Heard(s, Connected(s, svc, time), svc, time)
  {
  }

  // ---- Good_

  /** SelectTried looks at when the entries of its bucket last succeeded, and at nothing else. */
  lemma {:induction false} SelectFrame(m: map<Id, Info>, m': map<Id, Info>, q: seq<Id>, i: nat, oldest: Id, pos: int,
                                       rnd: Draws)
    requires AllIn(q, m) && AllIn(q, m') && (oldest == NONE || (oldest in m && oldest in m'))
    requires forall k :: 0 <= k < |q| ==> m[q[k]].lastSuccess == m'[q[k]].lastSuccess
    requires oldest != NONE ==> m[oldest].lastSuccess == m'[oldest].lastSuccess
    ensures SelectFrom(m, q, i, oldest, pos, rnd) == SelectFrom(m', q, i, oldest, pos, rnd)
    decreases |q| - i
  {
    hide SelectFrom, RandInt;
    if i < TRIED_ENTRIES_INSPECT_ON_EVICT && i < |q| {
      var p: nat := RandInt(rnd(i + 1), |q| - i) + i;
      SelectStep(m, q, i, oldest, pos, rnd, p);
      SelectStep(m', q, i, oldest, pos, rnd, p);
      var t, r := q[p], q[p := q[i]][i := q[p]];
      var better := oldest == NONE || m[t].lastSuccess < m[oldest].lastSuccess;
      SelectFrame(m, m', r, i + 1, if better then t else oldest, if better then p else pos, rnd);
    } else {
      SelectDone(m, q, i, oldest, pos, rnd);
      SelectDone(m', q, i, oldest, pos, rnd);
    }
  }

  /** The bucket `c` without `id`, and with `e` if it is the target. */
  ghost predicate Refilled(s: State, t: State, id: Id, e: set<Id>, target: int) {
    && |t.vvNew| == |s.vvNew|
    && forall c :: 0 <= c < |s.vvNew| ==> t.vvNew[c] == s.vvNew[c] - {id} + if c == target then e else {}
  }

  /** Tried bucket `kb` has room: `id` goes to its end. */
  ghost predicate Appended(s: State, t: State, id: Id, kb: nat)
    requires kb < |s.vvTried|
  {
    && t.vvTried == s.vvTried[kb := s.vvTried[kb] + [id]] && Refilled(s, t, id, {}, 0)
    && t.mapInfo.Keys == s.mapInfo.Keys && forall x :: x in s.mapInfo && x != id ==> t.mapInfo[x] == s.mapInfo[x]
  }

  /** The bucket `k` places on from `start`, going round. */
  function Round(start: nat, k: nat, n: nat): (b: nat)
    requires n > 0
    ensures b < n
  {
    (start + k) % n
  }

  ghost predicate FirstAfter(vv: seq<set<Id>>, id: Id, start: nat, k: nat, b: int) {
    && k < |vv| && b == Round(start, k, |vv|) && id in vv[b]
    && forall j: nat :: j < k ==> id !in vv[Round(start, j, |vv|)]
  }

  /** Going round from `start`, bucket `b` is the first to hold `id`. */
  ghost predicate FirstFrom(vv: seq<set<Id>>, id: Id, start: nat, b: int) { exists k :: FirstAfter(vv, id, start, k, b) }

  lemma FindStep(vv: seq<set<Id>>, id: Id, start: nat, n: nat)
    requires n < |vv|
    ensures FindBucket(vv, id, start, n) ==
            if id in vv[Round(start, n, |vv|)] then Round(start, n, |vv|) else FindBucket(vv, id, start, n + 1)
  {
  }

  lemma {:induction false} FoundFirst(vv: seq<set<Id>>, id: Id, start: nat, n: nat)
    requires n <= |vv| && FindBucket(vv, id, start, n) != -1
    requires vv != [] && forall j: nat :: j < n ==> id !in vv[Round(start, j, |vv|)]
    ensures FirstFrom(vv, id, start, FindBucket(vv, id, start, n))
    decreases |vv| - n
  {
    hide FindBucket, Round;
    if n == |vv| {
      FindNone(vv, id, start);
    } else {
      FindStep(vv, id, start, n);
      if id in vv[Round(start, n, |vv|)] {
        assert FirstAfter(vv, id, start, n, FindBucket(vv, id, start, n));
      } else {
        FoundFirst(vv, id, start, n + 1);
      }
    }
  }

  lemma FindNone(vv: seq<set<Id>>, id: Id, start: nat)
    ensures FindBucket(vv, id, start, |vv|) == -1
  {
  }

  /** It is full: the entry at the place SelectTried returns gives way to `id`, and goes back to its own new bucket, or if
      that is full to the one in which `id` was found, the first that held it, going round from a drawn one. */
  ghost predicate Replaced(s: State, t: State, id: Id, kb: nat, rnd: Draws, target: nat)
    requires kb < |s.vvTried| && AllIn(s.vvTried[kb], s.mapInfo)
  {
    var (q, pos) := SelectTried(s.mapInfo, s.vvTried[kb], rnd);
    && 0 <= pos < |q| && q[pos] in s.mapInfo && q[pos] in t.mapInfo
    && var e, was := q[pos], s.mapInfo[q[pos]];
       var home := NewBucket(s, was.addr.service.net, was.source);
       && t.vvTried == s.vvTried[kb := q[pos := id]] && Refilled(s, t, id, {e}, target)
       && home < |s.vvNew| && target < |s.vvNew|
       && (if |s.vvNew[home] - {id}| < NEW_BUCKET_SIZE then target == home
           else FirstFrom(s.vvNew, id, rnd(0) % NEW_BUCKET_COUNT, target))
       && t.mapInfo[e] == was.(inTried := false, refCount := 1) && t.mapInfo.Keys == s.mapInfo.Keys
       && forall x :: x in s.mapInfo && x != id && x != e ==> t.mapInfo[x] == s.mapInfo[x]
  }

  /** The statistics of the entry marked. */
  predicate Marked(was: Info, become: Info, time: int) {
    && become.lastSuccess == time && become.addr.lastTry == time && become.addr.time == time % 0x1_0000_0000
    && become.attempts == 0 && become.addr.service == was.addr.service && become.addr.services == was.addr.services
    && become.source == was.source && become.randomPos == was.randomPos
  }

  ghost predicate GoodDone(s: State, t: State, svc: Service, time: int, rnd: Draws)
    requires Sound(s)
  {
    if !Matches(s, svc) then t == s
    else
      var id, kb := s.mapAddr[svc.net], TriedBucket(s, svc);
      && id in t.mapInfo && Marked(s.mapInfo[id], t.mapInfo[id], time) && t.mapInfo[id].inTried && kb < |s.vvTried|
      && if s.mapInfo[id].inTried then
           t.mapInfo[id].refCount == s.mapInfo[id].refCount && OnlyEntry(s, t, id)
         else
           && t.mapInfo[id].refCount == 0
           && if |s.vvTried[kb]| < TRIED_BUCKET_SIZE then Appended(s, t, id, kb)
              else exists target :: Replaced(s, t, id, kb, rnd, target)
  }

  /** The move itself, from a state that differs from `s` in the entry `id` only. */
  lemma PromoteDoes(s: State, u: State, id: Id, origin: nat, rnd: Draws)
    requires FirstFrom(s.vvNew, id, rnd(0) % NEW_BUCKET_COUNT, origin)
    requires Sound(s) && id in s.mapInfo && id in u.mapInfo && u == s.(mapInfo := s.mapInfo[id := u.mapInfo[id]])
    requires CanPromote(u, id, origin) && CanMakeTried(u, id, origin)
    requires u.mapInfo[id].addr.service == s.mapInfo[id].addr.service
    ensures var t, kb := MakeTried(u, id, origin, rnd), TriedBucket(s, s.mapInfo[id].addr.service);
            && id in t.mapInfo && t.mapInfo[id] == u.mapInfo[id].(inTried := true, refCount := 0) && kb < |s.vvTried|
            && if |s.vvTried[kb]| < TRIED_BUCKET_SIZE then Appended(s, t, id, kb)
               else exists target :: Replaced(s, t, id, kb, rnd, target)
  {
    hide TriedOk, NewOk, Refs, SelectFrom, Appended, Replaced, FirstFrom;
    var kb := TriedBucket(s, s.mapInfo[id].addr.service);
    if |s.vvTried[kb]| < TRIED_BUCKET_SIZE {
      PromoteAppends(s, u, id, origin, rnd);
    } else {
      var target := PromoteReplaces(s, u, id, origin, rnd);
    }
  }

  lemma PromoteAppends(s: State, u: State, id: Id, origin: nat, rnd: Draws)
    requires Sound(s) && id in s.mapInfo && id in u.mapInfo && u == s.(mapInfo := s.mapInfo[id := u.mapInfo[id]])
    requires CanPromote(u, id, origin) && CanMakeTried(u, id, origin)
    requires |u.vvTried[TriedBucket(u, u.mapInfo[id].addr.service)]| < TRIED_BUCKET_SIZE
    ensures var t, kb := MakeTried(u, id, origin, rnd), TriedBucket(u, u.mapInfo[id].addr.service);
            && id in t.mapInfo && t.mapInfo[id] == u.mapInfo[id].(inTried := true, refCount := 0) && Appended(s, t, id, kb)
  {
    hide TriedOk, NewOk;
    var t := MakeTried(u, id, origin, rnd);
    forall c | 0 <= c < |s.vvNew| ensures t.vvNew[c] == s.vvNew[c] - {id} + if c == 0 then {} else {} {}
  }

  lemma PromoteReplaces(s: State, u: State, id: Id, origin: nat, rnd: Draws) returns (target: nat)
    requires FirstFrom(s.vvNew, id, rnd(0) % NEW_BUCKET_COUNT, origin)
    requires Sound(s) && id in s.mapInfo && id in u.mapInfo && u == s.(mapInfo := s.mapInfo[id := u.mapInfo[id]])
    requires CanPromote(u, id, origin) && CanMakeTried(u, id, origin)
    requires |u.vvTried[TriedBucket(u, u.mapInfo[id].addr.service)]| >= TRIED_BUCKET_SIZE
    ensures var t, kb := MakeTried(u, id, origin, rnd), TriedBucket(u, u.mapInfo[id].addr.service);
            && id in t.mapInfo && t.mapInfo[id] == u.mapInfo[id].(inTried := true, refCount := 0)
            && Replaced(s, t, id, kb, rnd, target)
  {
    hide NewOk, SelectFrom, Perm, TriedOk, Refs, MakeTried, Evict, FirstFrom;
    var kb := TriedBucket(u, u.mapInfo[id].addr.service);
    var w := Unlist(u, id);
    NotYetTried(u, id, kb);
    assert forall k :: 0 <= k < |s.vvTried[kb]| ==> s.vvTried[kb][k] in s.vvTried[kb];
    SelectFrame(s.mapInfo, w.mapInfo, s.vvTried[kb], 0, NONE, -1, rnd);
    var (q, pos) := SelectTried(s.mapInfo, s.vvTried[kb], rnd);
    SelectTriedChoice(s.mapInfo, s.vvTried[kb], rnd);
    PermMembers(q, s.vvTried[kb]);
    assert q[pos] in q;
    target := Target(w, q[pos], origin);
    EvictDoes(s, u, id, origin, kb, q, pos);
    MadeByEvict(u, id, origin, rnd);
  }

  lemma MadeByEvict(u: State, id: Id, origin: nat, rnd: Draws)
    requires CanMakeTried(u, id, origin)
    requires |u.vvTried[TriedBucket(u, u.mapInfo[id].addr.service)]| >= TRIED_BUCKET_SIZE
    ensures var kb, w := TriedBucket(u, u.mapInfo[id].addr.service), Unlist(u, id);
            var (q, pos) := SelectTried(w.mapInfo, w.vvTried[kb], rnd);
            && 0 <= pos < |q| && q[pos] in w.mapInfo
            && MakeTried(u, id, origin, rnd) == Evict(w, id, kb, q, pos, origin)
  {
    hide SelectTried, SelectFrom, Evict;
    var kb, w := TriedBucket(u, u.mapInfo[id].addr.service), Unlist(u, id);
    SelectTriedChoice(w.mapInfo, w.vvTried[kb], rnd);
  }

  lemma EvictDoes(s: State, u: State, id: Id, origin: nat, kb: nat, q: seq<Id>, pos: nat)
    requires Sound(s) && id in s.mapInfo && id in u.mapInfo && u == s.(mapInfo := s.mapInfo[id := u.mapInfo[id]])
    requires origin < |s.vvNew| && id in s.vvNew[origin] && u.mapInfo[id].refCount == Refs(s.vvNew, id)
    requires kb < |s.vvTried| && pos < |q| && q[pos] in s.mapInfo && q[pos] != id
    ensures var w, was := Unlist(u, id), s.mapInfo[q[pos]];
            var t := Evict(w, id, kb, q, pos, origin);
            var home, target := NewBucket(s, was.addr.service.net, was.source), Target(w, q[pos], origin);
            && id in t.mapInfo && t.mapInfo[id] == u.mapInfo[id].(inTried := true, refCount := 0)
            && t.vvTried == s.vvTried[kb := q[pos := id]] && Refilled(s, t, id, {q[pos]}, target)
            && home < |s.vvNew| && target < |s.vvNew|
            && (if |s.vvNew[home] - {id}| < NEW_BUCKET_SIZE then target == home else target == origin)
            && t.mapInfo.Keys == s.mapInfo.Keys && t.mapInfo[q[pos]] == was.(inTried := false, refCount := 1)
            && forall x :: x in s.mapInfo && x != id && x != q[pos] ==> t.mapInfo[x] == s.mapInfo[x]
  {
    hide Refs, AllIn, NewBucket, Evict, Unlist, Target, Sound, Refilled;
    var w, e := Unlist(u, id), q[pos];
    SoundTables(s);
    UnlistShape(s, u, id);
    SameHome(s, w, s.mapInfo[e].addr.service.net, s.mapInfo[e].source);
    EvictShape(w, id, kb, q, pos, origin);
    TargetIs(w, e, origin);
    var t := Evict(w, id, kb, q, pos, origin);
    EvictRefills(s, w, t, id, e, Target(w, e, origin));
    EvictInfos(s, u.mapInfo[id], w, t, id, e);
  }

  lemma EvictInfos(s: State, info: Info, w: State, t: State, id: Id, e: Id)
    requires id in s.mapInfo && e in s.mapInfo && e != id && w.mapInfo == s.mapInfo[id := info.(refCount := 0)]
    requires t.mapInfo == w.mapInfo[e := w.mapInfo[e].(inTried := false, refCount := 1)]
                                  [id := w.mapInfo[id].(inTried := true)]
    ensures t.mapInfo.Keys == s.mapInfo.Keys && t.mapInfo[e] == s.mapInfo[e].(inTried := false, refCount := 1)
    ensures t.mapInfo[id] == info.(inTried := true, refCount := 0)
    ensures forall x :: x in s.mapInfo && x != id && x != e ==> t.mapInfo[x] == s.mapInfo[x]
  {
  }

  lemma EvictRefills(s: State, w: State, t: State, id: Id, e: Id, target: nat)
    requires |w.vvNew| == |s.vvNew| && forall c :: 0 <= c < |s.vvNew| ==> w.vvNew[c] == s.vvNew[c] - {id}
    requires target < |w.vvNew| && t.vvNew == w.vvNew[target := w.vvNew[target] + {e}]
    ensures Refilled(s, t, id, {e}, target)
  {
  }

  lemma SameHome(s: State, w: State, a: NetAddr, source: NetAddr)
    requires w.env == s.env && w.key == s.key
    ensures NewBucket(w, a, source) == NewBucket(s, a, source) < NEW_BUCKET_COUNT
  {
  }

  lemma TargetIs(w: State, e: Id, origin: nat)
    requires e in w.mapInfo && |w.vvNew| == NEW_BUCKET_COUNT
    ensures var ub := NewBucket(w, w.mapInfo[e].addr.service.net, w.mapInfo[e].source);
            ub < |w.vvNew| && Target(w, e, origin) == if |w.vvNew[ub]| < NEW_BUCKET_SIZE then ub else origin
  {
  }

  lemma UnlistShape(s: State, u: State, id: Id)
    requires id in s.mapInfo && id in u.mapInfo && u == s.(mapInfo := s.mapInfo[id := u.mapInfo[id]])
    requires u.mapInfo[id].refCount == Refs(s.vvNew, id)
    ensures var w := Unlist(u, id);
            && w.mapInfo == s.mapInfo[id := u.mapInfo[id].(refCount := 0)] && w.vvTried == s.vvTried
            && w.env == s.env && w.key == s.key
            && |w.vvNew| == |s.vvNew| && forall c :: 0 <= c < |s.vvNew| ==> w.vvNew[c] == s.vvNew[c] - {id}
  {
  }

  lemma EvictShape(w: State, id: Id, kb: nat, q: seq<Id>, pos: nat, origin: nat)
    requires kb < |w.vvTried| && pos < |q| && origin < |w.vvNew| == NEW_BUCKET_COUNT
    requires id in w.mapInfo && q[pos] in w.mapInfo && q[pos] != id
    ensures var t, e := Evict(w, id, kb, q, pos, origin), q[pos];
            var target := Target(w, e, origin);
            && target < |w.vvNew| && t.vvTried == w.vvTried[kb := q[pos := id]]
            && t.vvNew == w.vvNew[target := w.vvNew[target] + {e}]
            && t.mapInfo == w.mapInfo[e := w.mapInfo[e].(inTried := false, refCount := 1)]
                                    [id := w.mapInfo[id].(inTried := true)]
  {
    hide NewBucket;
    TargetIs(w, q[pos], origin);
  }

  /** The whole of Good_. */
  lemma GoodDoes(s: State, svc: Service, time: int, rnd: Draws)
    requires Inv(s)
    ensures Sound(s) && GoodDone(s, Good(s, svc, time, rnd), svc, time, rnd)
  {
    hide MapOk, RandOk, TriedOk, CountOk, NewOk, EntriesOk, Sound, MakeTried, Appended, Replaced;
    InvSound(s);
    SoundTables(s);
    if Matches(s, svc) && !s.mapInfo[s.mapAddr[svc.net]].inTried {
      var id := s.mapAddr[svc.net];
      var u := Update(s, id, Touch(s.mapInfo[id], time));
      var b := SomeBucket(s, id);
      var start := RandInt(rnd(0), |u.vvNew|);
      SoundOf(s, u);
      FindBucketFinds(u.vvNew, id, start, b);
      var origin := FindBucket(u.vvNew, id, start, 0);
      FoundFirst(u.vvNew, id, start, 0);
      hide FirstFrom;
      assert SameTables(s.mapInfo, u.mapInfo, {});
      TouchCanPromote(s, id, Touch(s.mapInfo[id], time), origin);
      CanPromoteCall(u, id, origin);
      PromoteDoes(s, u, id, origin, rnd);
    }
  }

  lemma SoundTables(s: State)
    requires Sound(s)
    ensures |s.vvTried| == TRIED_BUCKET_COUNT && |s.vvNew| == NEW_BUCKET_COUNT
  {
  }

  lemma SoundOf(s: State, u: State)
    requires Sound(s) && u.vvTried == s.vvTried && u.vvNew == s.vvNew && u.mapInfo.Keys == s.mapInfo.Keys
    ensures Sound(u)
  {
  }
}
