/** Synchronized checkpoints over the block tree (src/checkpoints.cpp, and the calls in AcceptBlock). */
module BlockTree {
  import opened Options

  /** A 256-bit block hash; zero stands for no block. */
  datatype Hash = Hash(n: nat)

  const ZERO := Hash(0)

  /** A block index entry; `pprev` is the hash of the entry the parent pointer leads to. */
  datatype Block = Block(pprev: Option<Hash>, height: int, time: int)

  type Tree = map<Hash, Block>

  /** Parents are in the index, one lower; only blocks of height zero have none. */
  ghost predicate WellFormed(t: Tree) {
    forall h :: h in t ==>
      && t[h].height >= 0
      && (t[h].pprev.None? ==> t[h].height == 0)
      && (t[h].pprev.Some? ==> t[h].pprev.value in t && t[h].height == t[t[h].pprev.value].height + 1)
  }

  /** `a` is `h` or can be reached from it along parent pointers. */
  ghost predicate Ancestor(t: Tree, a: Hash, h: Hash)
    requires WellFormed(t) && h in t
    decreases t[h].height
  {
    a == h || (t[h].pprev.Some? && Ancestor(t, a, t[h].pprev.value))
  }

  ghost predicate ProperAncestor(t: Tree, a: Hash, h: Hash)
    requires WellFormed(t) && h in t
  {
    a != h && Ancestor(t, a, h)
  }

  /** Where the back-walks end: the first block on the way up whose height is not above `height`. */
  ghost function Walk(t: Tree, h: Hash, height: int): (r: Hash)
    requires WellFormed(t) && h in t && height >= 0
    ensures r in t && t[r].height <= height && Ancestor(t, r, h)
    ensures t[h].height >= height ==> t[r].height == height
    decreases t[h].height
  {
    if t[h].height <= height then h else Walk(t, t[h].pprev.value, height)
  }

  lemma {:induction false} AncestorHeight(t: Tree, a: Hash, h: Hash)
    requires WellFormed(t) && h in t && Ancestor(t, a, h)
    ensures a in t && t[a].height <= t[h].height
    ensures a != h ==> t[a].height < t[h].height
    decreases t[h].height
  {
    if a != h {
      AncestorHeight(t, a, t[h].pprev.value);
    }
  }

  /** A block has one ancestor at each height, and the walk finds it. */
  lemma {:induction false} WalkFinds(t: Tree, a: Hash, h: Hash)
    requires WellFormed(t) && h in t && a in t && t[a].height <= t[h].height
    ensures Ancestor(t, a, h) <==> Walk(t, h, t[a].height) == a
    decreases t[h].height
  {
    if t[h].height > t[a].height {
      WalkFinds(t, a, t[h].pprev.value);
    } else if Ancestor(t, a, h) {
      AncestorHeight(t, a, h);
    }
  }

  lemma {:induction false} AncestorTransitive(t: Tree, a: Hash, b: Hash, c: Hash)
    requires WellFormed(t) && c in t && b in t && Ancestor(t, a, b) && Ancestor(t, b, c)
    ensures Ancestor(t, a, c)
    decreases t[c].height
  {
    if b != c {
      AncestorTransitive(t, a, b, t[c].pprev.value);
    }
  }

  /** `u` has everything `t` has. */
  ghost predicate Grows(t: Tree, u: Tree) { forall h :: h in t ==> h in u && u[h] == t[h] }

  lemma {:induction false} AncestorGrows(t: Tree, u: Tree, a: Hash, h: Hash)
    requires WellFormed(t) && WellFormed(u) && Grows(t, u) && h in t
    ensures h in u && (Ancestor(t, a, h) <==> Ancestor(u, a, h))
    decreases t[h].height
  {
    if a != h && t[h].pprev.Some? {
      AncestorGrows(t, u, a, t[h].pprev.value);
    }
  }
}

module Checkpoints {
  import opened Options
  import opened BlockTree

  datatype Mode = STRICT | ADVISORY | PERMISSIVE

  /** The globals of the checkpoint code, with the block index. */
  datatype State = State(testNet: bool, mode: Mode, tree: Tree, sync: Hash, pending: Hash, invalid: Hash)

  /** How the foreign parts of one call turn out: the signature, the main-chain test, reading the block,
      switching the best chain, and the two database steps. */
  datatype Luck = Luck(sigOk: bool, inMain: bool, readOk: bool, bestOk: bool, writeOk: bool, commitOk: bool)

  /** The index is well formed and holds the current sync-checkpoint. */
  ghost predicate Inv(s: State) {
    WellFormed(s.tree) && s.sync in s.tree
  }

  // ---- ValidateSyncCheckpoint

  /** Neither block is an ancestor of the other. */
  ghost predicate Conflicts(s: State, h: Hash)
    requires Inv(s) && h in s.tree
  {
    !Ancestor(s.tree, h, s.sync) && !Ancestor(s.tree, s.sync, h)
  }

  ghost predicate Validates(s: State, h: Hash)
    requires Inv(s)
  {
    h in s.tree && ProperAncestor(s.tree, s.sync, h)
  }

  ghost function Validate(s: State, h: Hash): State
    requires Inv(s)
  {
    if h in s.tree && Conflicts(s, h) then s.(invalid := h) else s
  }

  // ---- WriteSyncCheckpoint, and the part shared by its two callers

  /** Make `h` the sync-checkpoint, if the chain switch and the database allow. */
  ghost function Adopt(s: State, h: Hash, luck: Luck): (State, bool) {
    if !luck.inMain && !luck.readOk then (s, false)
    else if !luck.inMain && !luck.bestOk then (s.(invalid := h), false)
    else if !luck.writeOk || !luck.commitOk then (s, false)
    else (s.(sync := h, pending := ZERO), true)
  }

  ghost function AcceptPending(s: State, luck: Luck): (State, bool)
    requires Inv(s)
  {
    if s.pending == ZERO || s.pending !in s.tree then (s, false)
    else if !Validates(s, s.pending) then (Validate(s, s.pending).(pending := ZERO), false)
    else Adopt(s, s.pending, luck)
  }

  ghost function Process(s: State, h: Hash, luck: Luck): (State, bool)
    requires Inv(s)
  {
    if !luck.sigOk then (s, false)
    else if h !in s.tree then (s.(pending := h), false)
    else if !Validates(s, h) then (Validate(s, h), false)
    else Adopt(s, h, luck)
  }

  // ---- CheckSync and the admission of a block

  /** What CheckSync answers for block `h` with parent `prev`. */
  ghost predicate SyncAllows(s: State, h: Hash, prev: Hash)
    requires Inv(s) && prev in s.tree
  {
    var height := s.tree[prev].height + 1;
    || s.testNet
    || (height > s.tree[s.sync].height && Ancestor(s.tree, s.sync, prev))
    || (height == s.tree[s.sync].height && h == s.sync)
    || (height < s.tree[s.sync].height && h in s.tree)
  }

  /** How the rest of AcceptBlock turns out: the other block checks, the disk, and the steps of
      AddToBlockIndex before and after the entry is inserted. */
  datatype BlockLuck = BlockLuck(checksOk: bool, diskOk: bool, indexOk: bool, connectOk: bool, pending: Luck)

  ghost predicate Admits(s: State, h: Hash, prev: Hash, luck: BlockLuck)
    requires Inv(s)
  {
    && h !in s.tree && prev in s.tree && luck.checksOk && luck.diskOk && luck.indexOk
    && (s.mode == STRICT ==> SyncAllows(s, h, prev))
  }

  /** In strict mode off testnet an unseen block has to descend from the sync-checkpoint. */
  lemma AdmitsWhat(s: State, h: Hash, prev: Hash, luck: BlockLuck)
    requires Inv(s)
    ensures Admits(s, h, prev, luck) <==>
            && h !in s.tree && prev in s.tree && luck.checksOk && luck.diskOk && luck.indexOk
            && (s.mode == STRICT && !s.testNet ==> Ancestor(s.tree, s.sync, prev))
  {
    if prev in s.tree && Ancestor(s.tree, s.sync, prev) { AncestorHeight(s.tree, s.sync, prev); }
  }

  ghost function Extend(s: State, h: Hash, prev: Hash, time: int): State
    requires prev in s.tree
  {
    s.(tree := s.tree[h := Block(Some(prev), s.tree[prev].height + 1, time)])
  }

  lemma ExtendKeeps(s: State, h: Hash, prev: Hash, time: int)
    requires Inv(s) && h !in s.tree && prev in s.tree
    ensures Inv(Extend(s, h, prev, time)) && Grows(s.tree, Extend(s, h, prev, time).tree)
  {
  }

  ghost function Arrive(s: State, h: Hash, prev: Hash, time: int, luck: BlockLuck): State
    requires Inv(s)
  {
    if !Admits(s, h, prev, luck) then s
    else
      var t := Extend(s, h, prev, time);
      ExtendKeeps(s, h, prev, time);
      if luck.connectOk then AcceptPending(t, luck.pending).0 else t
  }

  /** CheckSync lets in a block that is not yet in the index exactly when the sync-checkpoint is a proper
      ancestor of it. */
  lemma CheckSyncExact(s: State, h: Hash, prev: Hash, time: int)
    requires Inv(s) && !s.testNet && h !in s.tree && prev in s.tree
    ensures Inv(Extend(s, h, prev, time))
    ensures SyncAllows(s, h, prev) <==> ProperAncestor(Extend(s, h, prev, time).tree, s.sync, h)
  {
    ExtendKeeps(s, h, prev, time);
    var t := Extend(s, h, prev, time).tree;
    AncestorGrows(s.tree, t, s.sync, prev);
    if Ancestor(s.tree, s.sync, prev) {
      AncestorHeight(s.tree, s.sync, prev);
    }
  }

  // ---- Runs

  datatype Event =
    | Message(h: Hash, luck: Luck)
    | Pending(luck: Luck)
    | Arrival(h: Hash, prev: Hash, time: int, blockLuck: BlockLuck)

  ghost function Step(s: State, e: Event): State
    requires Inv(s)
  {
    match e
    case Message(h, luck) => Process(s, h, luck).0
    case Pending(luck) => AcceptPending(s, luck).0
    case Arrival(h, prev, time, luck) => Arrive(s, h, prev, time, luck)
  }

  /** One step keeps the index well formed and growing, and moves the sync-checkpoint only down the tree. */
  ghost predicate Advances(s: State, t: State) {
    && Inv(s) && Inv(t) && Grows(s.tree, t.tree) && t.mode == s.mode && t.testNet == s.testNet
    && s.sync in t.tree && Ancestor(t.tree, s.sync, t.sync)
    && (t.sync != s.sync ==> t.tree[s.sync].height < t.tree[t.sync].height)
  }

  lemma AdvancesRefl(s: State)
    requires Inv(s)
    ensures Advances(s, s)
  {
  }

  lemma AdvancesTrans(s: State, t: State, u: State)
    requires Advances(s, t) && Advances(t, u)
    ensures Advances(s, u)
  {
    AncestorGrows(t.tree, u.tree, s.sync, t.sync);
    AncestorTransitive(u.tree, s.sync, t.sync, u.sync);
    AncestorHeight(u.tree, s.sync, u.sync);
  }

  lemma AdoptAdvances(s: State, h: Hash, luck: Luck)
    requires Inv(s) && Validates(s, h)
    ensures Advances(s, Adopt(s, h, luck).0)
  {
    AncestorHeight(s.tree, s.sync, h);
  }

  lemma PendingAdvances(s: State, luck: Luck)
    requires Inv(s)
    ensures Advances(s, AcceptPending(s, luck).0)
  {
    if s.pending in s.tree && Validates(s, s.pending) {
      AdoptAdvances(s, s.pending, luck);
    }
  }

  lemma StepAdvances(s: State, e: Event)
    requires Inv(s)
    ensures Advances(s, Step(s, e))
  {
    match e
    case Message(h, luck) =>
      if h in s.tree && Validates(s, h) { AdoptAdvances(s, h, luck); }
    case Pending(luck) =>
      PendingAdvances(s, luck);
    case Arrival(h, prev, time, luck) =>
      if Admits(s, h, prev, luck) {
        var t := Extend(s, h, prev, time);
        ExtendKeeps(s, h, prev, time);
        PendingAdvances(t, luck.pending);
        assert Advances(s, t);
        AdvancesTrans(s, t, AcceptPending(t, luck.pending).0);
      }
  }

  /** The state after the first `k` events. */
  ghost function After(s: State, es: seq<Event>, k: nat): (t: State)
    requires Inv(s) && k <= |es|
    ensures Inv(t)
  {
    if k == 0 then s
    else
      StepAdvances(After(s, es, k - 1), es[k - 1]);
      Step(After(s, es, k - 1), es[k - 1])
  }

  lemma {:induction false} RunAdvances(s: State, es: seq<Event>, i: nat, j: nat)
    requires Inv(s) && i <= j <= |es|
    ensures Advances(After(s, es, i), After(s, es, j))
    decreases j
  {
    hide Advances, Step, Inv;
    if i == j {
      AdvancesRefl(After(s, es, i));
    } else {
      RunAdvances(s, es, i, j - 1);
      StepAdvances(After(s, es, j - 1), es[j - 1]);
      AdvancesTrans(After(s, es, i), After(s, es, j - 1), After(s, es, j));
    }
  }

  /** Event `k` let block `h` into the index. */
  ghost predicate AdmittedAt(s: State, es: seq<Event>, k: nat, h: Hash)
    requires Inv(s) && k < |es|
  {
    h !in After(s, es, k).tree && h in After(s, es, k + 1).tree
  }

  lemma AdmissionNeedsCheck(s: State, e: Event, h: Hash)
    requires Inv(s) && h !in s.tree && h in Step(s, e).tree
    ensures e.Arrival? && e.h == h && Admits(s, h, e.prev, e.blockLuck)
  {
  }

  /** Checkpoint safety over whole runs. Whatever messages, pending checks and blocks arrive in whatever order,
      the sync-checkpoint only ever moves to a strictly higher descendant; and under strict mode, off testnet,
      a block admitted after C was the sync-checkpoint descends from C. */
  lemma CheckpointSafety(s: State, es: seq<Event>, i: nat, j: nat)
    requires Inv(s) && i <= j <= |es|
    ensures var a, b := After(s, es, i), After(s, es, j);
            && a.sync in b.tree && Ancestor(b.tree, a.sync, b.sync)
            && (b.sync != a.sync ==> b.tree[a.sync].height < b.tree[b.sync].height)
    ensures forall k, h :: j <= k < |es| && AdmittedAt(s, es, k, h) && s.mode == STRICT && !s.testNet ==>
              ProperAncestor(After(s, es, k + 1).tree, After(s, es, i).sync, h)
  {
    RunAdvances(s, es, i, j);
    forall k, h | j <= k < |es| && AdmittedAt(s, es, k, h) && s.mode == STRICT && !s.testNet
      ensures ProperAncestor(After(s, es, k + 1).tree, After(s, es, i).sync, h)
    {
      RunAdvances(s, es, 0, k);
      RunAdvances(s, es, i, k);
      AdmittedDescends(After(s, es, k), es[k], h, After(s, es, i).sync);
    }
  }

  lemma AdmittedDescends(s: State, e: Event, h: Hash, c: Hash)
    requires Inv(s) && h !in s.tree && h in Step(s, e).tree && s.mode == STRICT && !s.testNet
    requires c in s.tree && Ancestor(s.tree, c, s.sync)
    ensures Inv(Step(s, e)) && ProperAncestor(Step(s, e).tree, c, h)
  {
    AdmissionNeedsCheck(s, e, h);
    CheckSyncExact(s, h, e.prev, e.time);
    var t := Extend(s, h, e.prev, e.time);
    ExtendKeeps(s, h, e.prev, e.time);
    AncestorGrows(s.tree, t.tree, c, s.sync);
    AncestorTransitive(t.tree, c, s.sync, h);
    StepAdvances(s, e);
    assert Step(s, e).tree == t.tree;
  }

  // ---- When a checkpoint is taken

  /** The block is in the main chain, or the chain can be switched to it. */
  predicate Switched(luck: Luck) { luck.inMain || (luck.readOk && luck.bestOk) }

  /** A known block properly below the sync-checkpoint, the chain on it, and both database steps done. */
  ghost predicate Takes(s: State, h: Hash, luck: Luck)
    requires Inv(s)
  {
    h in s.tree && ProperAncestor(s.tree, s.sync, h) && Switched(luck) && luck.writeOk && luck.commitOk
  }

  /** A known block neither above nor below the sync-checkpoint, or one below it that the chain cannot be switched to. */
  ghost predicate Bad(s: State, h: Hash, luck: Luck)
    requires Inv(s)
  {
    && h in s.tree
    && if ProperAncestor(s.tree, s.sync, h) then !luck.inMain && luck.readOk && !luck.bestOk
       else !Ancestor(s.tree, h, s.sync)
  }

  /** A message that gives the pending checkpoint up: signed, and of an unknown block or of one that is taken. */
  ghost predicate Supersedes(s: State, e: Event)
    requires Inv(s)
  {
    e.Message? && e.luck.sigOk && (e.h !in s.tree || Takes(s, e.h, e.luck))
  }

  /** While its block is unknown a pending checkpoint stays, unless a message supersedes it. */
  lemma PendingStays(s: State, e: Event)
    requires Inv(s) && s.pending != ZERO && s.pending !in Step(s, e).tree && !Supersedes(s, e)
    ensures Step(s, e).pending == s.pending && s.pending !in s.tree
  {
    StepAdvances(s, e);
  }

  lemma {:induction false} PendingWaits(s: State, es: seq<Event>, i: nat, k: nat, h: Hash)
    requires Inv(s) && i <= k <= |es| && h != ZERO && After(s, es, i).pending == h && h !in After(s, es, k).tree
    requires forall j :: i <= j < k ==> !Supersedes(After(s, es, j), es[j])
    ensures After(s, es, k).pending == h
    decreases k
  {
    hide Supersedes, Step, Inv;
    if i < k {
      var p := After(s, es, k - 1);
      StillUnknown(p, es[k - 1], h);
      PendingWaits(s, es, i, k - 1, h);
      PendingStays(p, es[k - 1]);
    }
  }

  lemma StillUnknown(s: State, e: Event, h: Hash)
    requires Inv(s) && h !in Step(s, e).tree
    ensures h !in s.tree
  {
    StepAdvances(s, e);
  }

  /** Its block arrives: the pending checkpoint is taken exactly if it descends from the sync-checkpoint, the chain is on
      it, and the database agrees. */
  lemma ArrivalTakes(s: State, h: Hash, prev: Hash, time: int, luck: BlockLuck)
    requires Inv(s) && h != ZERO && s.pending == h && Admits(s, h, prev, luck) && luck.connectOk
    ensures var t := Step(s, Arrival(h, prev, time, luck));
            var ok := Ancestor(s.tree, s.sync, prev) && Switched(luck.pending) && luck.pending.writeOk && luck.pending.commitOk;
            t.sync == (if ok then h else s.sync) && (ok ==> t.pending == ZERO)
  {
    var u := Extend(s, h, prev, time);
    ExtendKeeps(s, h, prev, time);
    AncestorGrows(s.tree, u.tree, s.sync, prev);
  }

  /** Over a run: a signed checkpoint whose block is not known yet is adopted when the block arrives, however many events
      later, if no message has superseded it, the block descends from the sync-checkpoint of then, the chain is on it and
      the database agrees; and only then. */
  lemma PendingAdopted(s: State, es: seq<Event>, i: nat, k: nat)
    requires Inv(s) && i < k < |es| && es[i].Message? && es[i].luck.sigOk && es[i].h != ZERO
    requires es[i].h !in After(s, es, i).tree
    requires forall j :: i < j < k ==> !Supersedes(After(s, es, j), es[j])
    requires es[k].Arrival? && es[k].h == es[i].h && es[k].blockLuck.connectOk
    requires Admits(After(s, es, k), es[k].h, es[k].prev, es[k].blockLuck)
    ensures var c, luck := After(s, es, k), es[k].blockLuck.pending;
            After(s, es, k + 1).sync == es[i].h <==>
            Ancestor(c.tree, c.sync, es[k].prev) && Switched(luck) && luck.writeOk && luck.commitOk
  {
    hide Switched, Supersedes, Step, Admits, Ancestor, Inv;
    var h, c := es[i].h, After(s, es, k);
    MessageWaits(After(s, es, i), es[i]);
    UnknownBefore(c, h, es[k].prev, es[k].blockLuck);
    PendingWaits(s, es, i + 1, k, h);
    ArrivalTakes(c, h, es[k].prev, es[k].time, es[k].blockLuck);
    NotYet(c, h);
  }

  lemma MessageWaits(s: State, e: Event)
    requires Inv(s) && e.Message? && e.luck.sigOk && e.h !in s.tree
    ensures Step(s, e).pending == e.h
  {
  }

  lemma UnknownBefore(s: State, h: Hash, prev: Hash, luck: BlockLuck)
    requires Inv(s) && Admits(s, h, prev, luck)
    ensures h !in s.tree && prev in s.tree
  {
  }

  lemma NotYet(s: State, h: Hash)
    requires Inv(s) && h !in s.tree
    ensures s.sync != h
  {
  }

  const CHECKPOINT_SPAN := 10

  /** Block `h` is at least ten target spacings and ten blocks behind the best one. */
  predicate Mature(t: Tree, h: Hash, best: Hash, spacing: int)
    requires h in t && best in t
  {
    && t[h].time + CHECKPOINT_SPAN * spacing <= t[best].time
    && t[h].height + CHECKPOINT_SPAN <= t[best].height
  }

  // ---- The code

  class SyncCheckpoints {
    const fTestNet: bool
    var mode: Mode
    var mapBlockIndex: Tree
    var hashSyncCheckpoint: Hash
    var hashPendingCheckpoint: Hash
    var hashInvalidCheckpoint: Hash

    ghost function St(): State
      reads this
    {
      State(fTestNet, mode, mapBlockIndex, hashSyncCheckpoint, hashPendingCheckpoint, hashInvalidCheckpoint)
    }

    ghost predicate Valid()
      reads this
    {
      Inv(St())
    }

    constructor (testNet: bool, m: Mode, genesis: Hash, time: int)
      ensures Valid() && St() == State(testNet, m, map[genesis := Block(None, 0, time)], genesis, ZERO, ZERO)
    {
      fTestNet, mode := testNet, m;
      mapBlockIndex := map[genesis := Block(None, 0, time)];
      hashSyncCheckpoint, hashPendingCheckpoint, hashInvalidCheckpoint := genesis, ZERO, ZERO;
    }

    /** The back-walk all three checks use. It never meets a null parent. */
    method TraceBack(h: Hash, height: int) returns (ok: bool, r: Hash)
      requires Valid() && h in mapBlockIndex && height >= 0
      ensures ok && r == Walk(mapBlockIndex, h, height)
    {
      r := h;
      while mapBlockIndex[r].height > height
        invariant r in mapBlockIndex && Walk(mapBlockIndex, r, height) == Walk(mapBlockIndex, h, height)
        decreases mapBlockIndex[r].height
      {
        match mapBlockIndex[r].pprev
        case None => return false, r;
        case Some(p) => r := p;
      }
      ok := true;
    }

    method ValidateSyncCheckpoint(h: Hash) returns (ok: bool)
      requires Valid()
      modifies this`hashInvalidCheckpoint
      ensures ok == Validates(old(St()), h)
      ensures St() == if ok then old(St()) else Validate(old(St()), h)
    {
      if hashSyncCheckpoint !in mapBlockIndex { return false; }
      if h !in mapBlockIndex { return false; }
      var sync, recv := mapBlockIndex[hashSyncCheckpoint], mapBlockIndex[h];
      var found, r;
      if recv.height <= sync.height {
        found, r := TraceBack(hashSyncCheckpoint, recv.height);
        WalkFinds(mapBlockIndex, h, hashSyncCheckpoint);
        NotBelow(mapBlockIndex, hashSyncCheckpoint, h);
        if !found { return false; }
        if r != h { hashInvalidCheckpoint := h; }
        return false;
      }
      found, r := TraceBack(h, sync.height);
      WalkFinds(mapBlockIndex, hashSyncCheckpoint, h);
      NotBelow(mapBlockIndex, h, hashSyncCheckpoint);
      if !found { return false; }
      if r != hashSyncCheckpoint {
        hashInvalidCheckpoint := h;
        return false;
      }
      return true;
    }

    method WriteSyncCheckpoint(h: Hash, luck: Luck) returns (ok: bool)
      modifies this`hashSyncCheckpoint
      ensures ok == (luck.writeOk && luck.commitOk)
      ensures hashSyncCheckpoint == if ok then h else old(hashSyncCheckpoint)
    {
      if !luck.writeOk { return false; }
      if !luck.commitOk { return false; }
      hashSyncCheckpoint := h;
      return true;
    }

    method AcceptPendingSyncCheckpoint(luck: Luck) returns (ok: bool)
      requires Valid()
      modifies this
      ensures Valid() && Advances(old(St()), St())
      ensures (St(), ok) == AcceptPending(old(St()), luck)
      ensures var p := old(hashPendingCheckpoint);
              && (ok <==> p != ZERO && Takes(old(St()), p, luck))
              && hashSyncCheckpoint == (if ok then p else old(hashSyncCheckpoint))
              && hashPendingCheckpoint ==
                 (if ok || (p in mapBlockIndex && !ProperAncestor(mapBlockIndex, old(hashSyncCheckpoint), p)) then ZERO else p)
              && hashInvalidCheckpoint ==
                 (if p != ZERO && Bad(old(St()), p, luck) then p else old(hashInvalidCheckpoint))
      ensures mapBlockIndex == old(mapBlockIndex) && mode == old(mode)
    {
      hide Ancestor, WellFormed, Advances;
      PendingAdvances(St(), luck);
      if hashPendingCheckpoint != ZERO && hashPendingCheckpoint in mapBlockIndex {
        var good := ValidateSyncCheckpoint(hashPendingCheckpoint);
        if !good {
          hashPendingCheckpoint := ZERO;
          return false;
        }
        if !luck.inMain {
          if !luck.readOk { return false; }
          if !luck.bestOk {
            hashInvalidCheckpoint := hashPendingCheckpoint;
            return false;
          }
        }
        var written := WriteSyncCheckpoint(hashPendingCheckpoint, luck);
        if !written { return false; }
        hashPendingCheckpoint := ZERO;
        return true;
      }
      return false;
    }

    method ProcessSyncCheckpoint(h: Hash, luck: Luck) returns (ok: bool)
      requires Valid()
      modifies this
      ensures Valid() && Advances(old(St()), St())
      ensures (St(), ok) == Process(old(St()), h, luck)
      ensures ok <==> luck.sigOk && Takes(old(St()), h, luck)
      ensures hashSyncCheckpoint == if ok then h else old(hashSyncCheckpoint)
      ensures hashPendingCheckpoint ==
              if ok then ZERO else if luck.sigOk && h !in mapBlockIndex then h else old(hashPendingCheckpoint)
      ensures hashInvalidCheckpoint ==
              if luck.sigOk && Bad(old(St()), h, luck) then h else old(hashInvalidCheckpoint)
      ensures mapBlockIndex == old(mapBlockIndex) && mode == old(mode)
    {
      hide Ancestor, WellFormed, Advances;
      StepAdvances(St(), Message(h, luck));
      if !luck.sigOk { return false; }
      if h !in mapBlockIndex {
        hashPendingCheckpoint := h;
        return false;
      }
      var good := ValidateSyncCheckpoint(h);
      if !good { return false; }
      if !luck.inMain {
        if !luck.readOk { return false; }
        if !luck.bestOk {
          hashInvalidCheckpoint := h;
          return false;
        }
      }
      var written := WriteSyncCheckpoint(h, luck);
      if !written { return false; }
      hashPendingCheckpoint := ZERO;
      return true;
    }

    method CheckSync(h: Hash, prev: Hash) returns (ok: bool)
      requires Valid() && prev in mapBlockIndex
      ensures ok == SyncAllows(St(), h, prev)
    {
      if fTestNet { return true; }
      var height := mapBlockIndex[prev].height + 1;
      var sync := mapBlockIndex[hashSyncCheckpoint];
      if height > sync.height {
        var found, r := TraceBack(prev, sync.height);
        WalkFinds(mapBlockIndex, hashSyncCheckpoint, prev);
        if !found { return false; }
        if mapBlockIndex[r].height < sync.height || r != hashSyncCheckpoint { return false; }
      }
      if height == sync.height && h != hashSyncCheckpoint { return false; }
      if height < sync.height && h !in mapBlockIndex { return false; }
      return true;
    }

    /** The tests of AcceptBlock. */
    method MayAccept(h: Hash, prev: Hash, luck: BlockLuck) returns (ok: bool)
      requires Valid()
      ensures ok == Admits(St(), h, prev, luck)
    {
      hide SyncAllows;
      if h in mapBlockIndex { return false; }
      if prev !in mapBlockIndex { return false; }
      if !luck.checksOk { return false; }
      var satisfies := CheckSync(h, prev);
      if mode == STRICT && !satisfies { return false; }
      return luck.diskOk && luck.indexOk;
    }

    /** AddToBlockIndex: the new block's index entry. */
    method AddToBlockIndex(h: Hash, prev: Hash, time: int)
      requires Valid() && h !in mapBlockIndex && prev in mapBlockIndex
      modifies this
      ensures Valid() && St() == Extend(old(St()), h, prev, time)
    {
      ExtendKeeps(St(), h, prev, time);
      hide WellFormed;
      mapBlockIndex := mapBlockIndex[h := Block(Some(prev), mapBlockIndex[prev].height + 1, time)];
      assert St() == Extend(old(St()), h, prev, time);
    }

    /** The parts of AcceptBlock and AddToBlockIndex that touch the index and the checkpoints. */
    method AcceptBlock(h: Hash, prev: Hash, time: int, luck: BlockLuck) returns (ok: bool)
      requires Valid()
      modifies this
      ensures Valid() && Advances(old(St()), St())
      ensures St() == Arrive(old(St()), h, prev, time, luck)
      ensures ok == (Admits(old(St()), h, prev, luck) && luck.connectOk)
      ensures var indexed := && h !in old(mapBlockIndex) && prev in old(mapBlockIndex)
                             && luck.checksOk && luck.diskOk && luck.indexOk
                             && (mode == STRICT && !fTestNet ==>
                                   Ancestor(old(mapBlockIndex), old(hashSyncCheckpoint), prev));
              && ok == (indexed && luck.connectOk)
              && mapBlockIndex == if indexed
                                  then old(mapBlockIndex)[h := Block(Some(prev), old(mapBlockIndex)[prev].height + 1, time)]
                                  else old(mapBlockIndex)
      ensures mode == old(mode)
      ensures ok && h != ZERO && old(hashPendingCheckpoint) == h ==>
                var taken := && Ancestor(old(mapBlockIndex), old(hashSyncCheckpoint), prev) && Switched(luck.pending)
                             && luck.pending.writeOk && luck.pending.commitOk;
                hashSyncCheckpoint == (if taken then h else old(hashSyncCheckpoint))
      ensures !ok ==> hashSyncCheckpoint == old(hashSyncCheckpoint) && hashPendingCheckpoint == old(hashPendingCheckpoint)
    {
      AdmitsWhat(St(), h, prev, luck);
      if Admits(St(), h, prev, luck) && luck.connectOk && h != ZERO && hashPendingCheckpoint == h {
        ArrivalTakes(St(), h, prev, time, luck);
      }
      StepAdvances(St(), Arrival(h, prev, time, luck));
      hide AcceptPending, Advances, SyncAllows, WellFormed, Extend;
      var good := MayAccept(h, prev, luck);
      if !good { return false; }
      AddToBlockIndex(h, prev, time);
      if !luck.connectOk { return false; }
      var accepted := AcceptPendingSyncCheckpoint(luck.pending);
      return true;
    }

    /** Walk back from the best block to one that is far enough behind it in time and height. */
    method AutoSelectSyncCheckpoint(best: Hash, spacing: int) returns (r: Hash)
      requires Valid() && best in mapBlockIndex
      ensures r in mapBlockIndex && Ancestor(mapBlockIndex, r, best)
      ensures mapBlockIndex[r].pprev.None? || Mature(mapBlockIndex, r, best, spacing)
      ensures mapBlockIndex[r].pprev.Some? ==>
                mapBlockIndex[best].time - mapBlockIndex[r].time >= 10 * spacing
                && mapBlockIndex[best].height - mapBlockIndex[r].height >= 10
      ensures forall x ::
                x in mapBlockIndex && Ancestor(mapBlockIndex, x, best)
                && mapBlockIndex[best].time - mapBlockIndex[x].time >= 10 * spacing
                && mapBlockIndex[best].height - mapBlockIndex[x].height >= 10
                ==> Ancestor(mapBlockIndex, x, r)
      ensures forall x ::
                x in mapBlockIndex && Ancestor(mapBlockIndex, x, best) && Mature(mapBlockIndex, x, best, spacing)
                ==> Ancestor(mapBlockIndex, x, r)
    {
      r := best;
      while mapBlockIndex[r].pprev.Some? && !Mature(mapBlockIndex, r, best, spacing)
        invariant r in mapBlockIndex && Ancestor(mapBlockIndex, r, best)
        invariant forall x ::
                    x in mapBlockIndex && Ancestor(mapBlockIndex, x, best) && Mature(mapBlockIndex, x, best, spacing)
                    ==> Ancestor(mapBlockIndex, x, r)
        decreases mapBlockIndex[r].height
      {
        AncestorTransitive(mapBlockIndex, mapBlockIndex[r].pprev.value, r, best);
        r := mapBlockIndex[r].pprev.value;
      }
    }
  }

  lemma NotBelow(t: Tree, a: Hash, b: Hash)
    requires WellFormed(t) && a in t && b in t && t[b].height <= t[a].height
    ensures Ancestor(t, a, b) ==> a == b
  {
    if Ancestor(t, a, b) { AncestorHeight(t, a, b); }
  }
}
