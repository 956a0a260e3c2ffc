/** The best block beside the sync-checkpoint: SetBestChain as src/checkpoints.cpp and AddToBlockIndex call it. */
module BestChain {
  import opened Options
  import opened BlockTree
  import opened Checkpoints

  /** The checkpoint state and pindexBest. */
  datatype Node = Node(s: State, best: Hash)

  /** An event, and for a block that arrives whether its chain has more trust than the best one. */
  datatype Move = Move(e: Event, wins: bool)

  ghost predicate NodeInv(n: Node) { Inv(n.s) && n.best in n.s.tree }

  /** SetBestChain moves the best block to the one given, or fails and leaves it where it is. */
  function SetBestChain(best: Hash, h: Hash, ok: bool): Hash { if ok then h else best }

  /** The best block after Adopt, which switches to a checkpoint that is not on the main chain yet. */
  function AdoptBest(best: Hash, h: Hash, luck: Luck): Hash {
    if luck.inMain || !luck.readOk then best else SetBestChain(best, h, luck.bestOk)
  }

  ghost predicate PendingAdopts(s: State)
    requires Inv(s)
  {
    s.pending != ZERO && s.pending in s.tree && Validates(s, s.pending)
  }

  ghost function PendingBest(s: State, best: Hash, luck: Luck): Hash
    requires Inv(s)
  {
    if PendingAdopts(s) then AdoptBest(best, s.pending, luck) else best
  }

  /** The best block once an admitted block is in the index, before the pending checkpoint is looked at. */
  function ArrivalBest(best: Hash, h: Hash, wins: bool, luck: BlockLuck): Hash {
    if wins then SetBestChain(best, h, luck.connectOk) else best
  }

  ghost function NextBest(n: Node, m: Move): Hash
    requires NodeInv(n)
  {
    match m.e
    case Message(h, luck) => if luck.sigOk && Validates(n.s, h) then AdoptBest(n.best, h, luck) else n.best
    case Pending(luck) => PendingBest(n.s, n.best, luck)
    case Arrival(h, prev, time, luck) =>
      if !Admits(n.s, h, prev, luck) then n.best
      else
        var t := Extend(n.s, h, prev, time);
        ExtendKeeps(n.s, h, prev, time);
        var best := ArrivalBest(n.best, h, m.wins, luck);
        if luck.connectOk then PendingBest(t, best, luck.pending) else best
  }

  ghost function NextNode(n: Node, m: Move): Node
    requires NodeInv(n)
  {
    Node(Step(n.s, m.e), NextBest(n, m))
  }

  /** IsInMainChain answers yes only for ancestors of the best block. */
  ghost predicate MainIs(s: State, best: Hash, h: Hash, luck: Luck)
    requires Inv(s) && best in s.tree && h in s.tree
  {
    luck.inMain ==> Ancestor(s.tree, h, best)
  }

  ghost predicate PendingMainIs(s: State, best: Hash, luck: Luck)
    requires Inv(s) && best in s.tree
  {
    PendingAdopts(s) ==> MainIs(s, best, s.pending, luck)
  }

  ghost predicate Fair(n: Node, m: Move)
    requires NodeInv(n)
  {
    match m.e
    case Message(h, luck) => luck.sigOk && Validates(n.s, h) ==> MainIs(n.s, n.best, h, luck)
    case Pending(luck) => PendingMainIs(n.s, n.best, luck)
    case Arrival(h, prev, time, luck) =>
      Admits(n.s, h, prev, luck) && luck.connectOk ==>
        var t := Extend(n.s, h, prev, time);
        ExtendKeeps(n.s, h, prev, time);
        PendingMainIs(t, ArrivalBest(n.best, h, m.wins, luck), luck.pending)
  }

  /** The sync-checkpoint lies on the best chain. */
  ghost predicate Behind(n: Node) { NodeInv(n) && Ancestor(n.s.tree, n.s.sync, n.best) }

  lemma AdoptBehind(s: State, best: Hash, h: Hash, luck: Luck)
    requires Inv(s) && best in s.tree && Validates(s, h) && MainIs(s, best, h, luck) && Ancestor(s.tree, s.sync, best)
    ensures Behind(Node(Adopt(s, h, luck).0, AdoptBest(best, h, luck)))
  {
  }

  lemma PendingBehind(s: State, best: Hash, luck: Luck)
    requires Behind(Node(s, best)) && PendingMainIs(s, best, luck)
    ensures Behind(Node(AcceptPending(s, luck).0, PendingBest(s, best, luck)))
  {
    if PendingAdopts(s) { AdoptBehind(s, best, s.pending, luck); }
  }

  /** The block is admitted, becomes the best one, and does not descend from the sync-checkpoint. */
  ghost predicate Strays(n: Node, m: Move)
    requires NodeInv(n)
  {
    && m.e.Arrival? && Admits(n.s, m.e.h, m.e.prev, m.e.blockLuck) && m.wins && m.e.blockLuck.connectOk
    && !Ancestor(n.s.tree, n.s.sync, m.e.prev)
  }

  lemma ArrivalBehind(n: Node, m: Move)
    requires Behind(n) && m.e.Arrival? && Admits(n.s, m.e.h, m.e.prev, m.e.blockLuck)
    ensures var t := Extend(n.s, m.e.h, m.e.prev, m.e.time);
            var best := ArrivalBest(n.best, m.e.h, m.wins, m.e.blockLuck);
            Inv(t) && best in t.tree && (Behind(Node(t, best)) <==> !Strays(n, m))
  {
    var t := Extend(n.s, m.e.h, m.e.prev, m.e.time);
    ExtendKeeps(n.s, m.e.h, m.e.prev, m.e.time);
    AncestorGrows(n.s.tree, t.tree, n.s.sync, n.best);
    AncestorGrows(n.s.tree, t.tree, n.s.sync, m.e.prev);
  }

  /** One step keeps the sync-checkpoint on the best chain, unless the block that arrives strays. */
  lemma StepBehind(n: Node, m: Move)
    requires Behind(n) && Fair(n, m) && !Strays(n, m)
    ensures Behind(NextNode(n, m))
  {
    hide Ancestor;
    match m.e
    case Message(h, luck) =>
      if luck.sigOk && Validates(n.s, h) { AdoptBehind(n.s, n.best, h, luck); }
    case Pending(luck) => PendingBehind(n.s, n.best, luck);
    case Arrival(h, prev, time, luck) =>
      if Admits(n.s, h, prev, luck) {
        ArrivalBehind(n, m);
        var t := Extend(n.s, h, prev, time);
        if luck.connectOk { PendingBehind(t, ArrivalBest(n.best, h, m.wins, luck), luck.pending); }
      }
  }

  /** Under strict mode, off testnet, no block strays: the admission rule asks for the sync-checkpoint behind it. */
  lemma StrictNeverStrays(n: Node, m: Move)
    requires NodeInv(n) && n.s.mode == STRICT && !n.s.testNet
    ensures !Strays(n, m)
  {
  }

  // ---- Runs

  ghost function NodeAfter(n: Node, ms: seq<Move>, k: nat): Node
    requires k <= |ms|
  {
    if k == 0 then n
    else
      var p := NodeAfter(n, ms, k - 1);
      if NodeInv(p) then NextNode(p, ms[k - 1]) else p
  }

  ghost predicate AllFair(n: Node, ms: seq<Move>) {
    forall k :: 0 <= k < |ms| && NodeInv(NodeAfter(n, ms, k)) ==> Fair(NodeAfter(n, ms, k), ms[k])
  }

  /** Over every run under strict mode, off testnet, the sync-checkpoint stays an ancestor of the best block. */
  lemma {:induction false} SyncStaysBehind(n: Node, ms: seq<Move>, k: nat)
    requires Behind(n) && n.s.mode == STRICT && !n.s.testNet && AllFair(n, ms) && k <= |ms|
    ensures Behind(NodeAfter(n, ms, k))
    ensures var t := NodeAfter(n, ms, k).s; t.mode == STRICT && !t.testNet
  {
    hide Fair, Behind, Strays, Step, NextBest;
    if k > 0 {
      SyncStaysBehind(n, ms, k - 1);
      var p := NodeAfter(n, ms, k - 1);
      BehindParts(p);
      StrictNeverStrays(p, ms[k - 1]);
      StepBehind(p, ms[k - 1]);
      StepAdvances(p.s, ms[k - 1].e);
    }
  }

  lemma BehindParts(n: Node)
    requires Behind(n)
    ensures NodeInv(n)
  {
  }

  /** Without strict mode one block can take the best chain away from the sync-checkpoint. */
  lemma StrayBlock(luck: Luck)
    ensures var g, c, d := Hash(1), Hash(2), Hash(3);
            var tree: Tree := map[g := Block(None, 0, 0), c := Block(Some(g), 1, 0)];
            var n := Node(State(false, ADVISORY, tree, c, ZERO, ZERO), c);
            var m := Move(Arrival(d, g, 0, BlockLuck(true, true, true, true, luck)), true);
            Behind(n) && Fair(n, m) && NodeInv(n) && !Behind(NextNode(n, m))
  {
    var g, c, d := Hash(1), Hash(2), Hash(3);
    var tree: Tree := map[g := Block(None, 0, 0), c := Block(Some(g), 1, 0)];
    var n := Node(State(false, ADVISORY, tree, c, ZERO, ZERO), c);
    var m := Move(Arrival(d, g, 0, BlockLuck(true, true, true, true, luck)), true);
    assert Ancestor(tree, c, c) && !Ancestor(tree, c, g);
    ArrivalBehind(n, m);
  }
}
