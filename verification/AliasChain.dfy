/** The chain of connected blocks: what CheckBlock and ConnectBlock (src/main.cpp) require, over every run. */
module AliasChain {
  import opened AliasScript
  import opened AliasPost

  /** The connected blocks, by height. */
  type Chain = seq<seq<Tx>>

  /** A transaction's place in the chain. */
  datatype Loc = Loc(height: nat, index: nat)

  predicate On(c: Chain, a: Loc) { a.height < |c| && a.index < |c[a.height]| }

  predicate Before(a: Loc, b: Loc) { a.height < b.height || (a.height == b.height && a.index < b.index) }

  function Where(x: Input): Loc { Loc(x.height, x.index) }

  function TxAt(c: Chain, a: Loc): Tx
    requires On(c, a)
  {
    c[a.height][a.index]
  }

  function ValueOf(t: Tx, n: nat): nat { if n < |t.values| then t.values[n] else 0 }

  // ---- What a block must be like

  /** IsEmpty */
  predicate Empty(t: Tx, n: nat)
    requires n < |t.vout|
  {
    t.vout[n] == [] && ValueOf(t, n) == 0
  }

  /** CheckTransaction, as far as scripts and inputs go. */
  ghost predicate CheckTransaction(t: Tx) {
    && t.vout != [] && |t.values| == |t.vout| && (t.kind == Coinbase <==> t.vin == [])
    && (t.kind == Coinstake ==> |t.vout| >= 2 && Empty(t, 0))
    && (t.kind == Ordinary ==> forall n :: 0 <= n < |t.vout| ==> !Empty(t, n))
    && forall j, k :: 0 <= j < k < |t.vin| ==> t.vin[j] != t.vin[k]
  }

  /** CheckBlock: one coinbase, in front; with a coinstake behind it, it pays nothing and no other coinstake follows. */
  ghost predicate CheckBlock(b: seq<Tx>) {
    && b != [] && b[0].kind == Coinbase
    && (forall i :: 0 < i < |b| ==> b[i].kind != Coinbase)
    && (|b| > 1 && b[1].kind == Coinstake ==>
          |b[0].vout| == 1 && Empty(b[0], 0) && forall i :: 1 < i < |b| ==> b[i].kind != Coinstake)
    && forall i :: 0 <= i < |b| ==> CheckTransaction(b[i])
  }

  // ---- What connecting it requires

  /** nCoinbaseMaturity */
  function Maturity(testNet: bool): nat { if testNet then 10 else 100 }

  /** The inputs of the transaction at `a` are outputs of earlier transactions; the genesis block is not indexed. */
  ghost predicate Resolved(c: Chain, a: Loc)
    requires On(c, a)
  {
    forall k :: 0 <= k < |TxAt(c, a).vin| ==>
                  var x := TxAt(c, a).vin[k];
                  0 < x.height && On(c, Where(x)) && Before(Where(x), a) && x.n < |TxAt(c, Where(x)).vout|
  }

  /** The scripts that the transaction at `a` spends. */
  ghost function Spent(c: Chain, a: Loc): (r: seq<Script>)
    requires On(c, a) && Resolved(c, a)
    ensures |r| == |TxAt(c, a).vin|
  {
    seq(|TxAt(c, a).vin|, k requires 0 <= k < |TxAt(c, a).vin| =>
      var x := TxAt(c, a).vin[k];
      TxAt(c, Where(x)).vout[x.n])
  }

  /** A coinbase or a coinstake is spent only when it is deep enough. */
  ghost predicate Matured(env: Env, c: Chain, a: Loc)
    requires On(c, a) && Resolved(c, a)
  {
    forall k :: 0 <= k < |TxAt(c, a).vin| ==>
                  var x := TxAt(c, a).vin[k];
                  TxAt(c, Where(x)).kind == Ordinary || a.height - x.height >= Maturity(env.testNet)
  }

  /** The transaction at `b` spends the output. */
  predicate Spends(c: Chain, b: Loc, x: Input) {
    On(c, b) && exists k :: 0 <= k < |TxAt(c, b).vin| && TxAt(c, b).vin[k] == x
  }

  /** A transaction before the one at `a` has spent the output. */
  ghost predicate SpentBefore(c: Chain, a: Loc, x: Input) { exists b :: Before(b, a) && Spends(c, b, x) }

  /** No input has been spent before, but an output of value zero may be spent again. */
  ghost predicate Unspent(c: Chain, a: Loc)
    requires On(c, a) && Resolved(c, a)
  {
    forall k :: 0 <= k < |TxAt(c, a).vin| ==>
                  var x := TxAt(c, a).vin[k];
                  SpentBefore(c, a, x) ==> ValueOf(TxAt(c, Where(x)), x.n) == 0
  }

  /** ConnectBlock lets the transaction at `a` through. A coinbase connects no inputs, and ConnectInputs calls
      ConnectInputsPost for ordinary transactions only. */
  ghost predicate Passed(env: Env, c: Chain, a: Loc)
    requires On(c, a)
  {
    var t := TxAt(c, a);
    t.kind == Coinbase || (Resolved(c, a) && Matured(env, c, a) && Unspent(c, a)
                           && (t.kind == Ordinary ==> Post(env, t, Spent(c, a), a.height) == Accepted))
  }

  // ---- Runs

  /** The genesis block, which is never connected: one coinbase with nothing in its output. */
  function Genesis(): seq<Tx> { [Tx(TxId(0), Coinbase, false, [], [[]], [0])] }

  /** A block becomes the best one, or is disconnected when the chain is reorganised. */
  datatype Move = Connect(block: seq<Tx>) | Disconnect

  ghost predicate Connects(env: Env, c: Chain, b: seq<Tx>) {
    CheckBlock(b) && forall a :: On(c + [b], a) && a.height == |c| ==> Passed(env, c + [b], a)
  }

  ghost function Play(env: Env, c: Chain, m: Move): Chain {
    match m
    case Connect(b) => if Connects(env, c, b) then c + [b] else c
    case Disconnect => if |c| <= 1 then c else c[..|c| - 1]
  }

  ghost function Run(env: Env, moves: seq<Move>): Chain {
    if moves == [] then [Genesis()] else Play(env, Run(env, moves[..|moves| - 1]), moves[|moves| - 1])
  }

  /** Every block but the genesis block is well formed, and every transaction in it was let through. */
  ghost predicate Valid(env: Env, c: Chain) {
    && c != [] && c[0] == Genesis()
    && (forall h :: 0 < h < |c| ==> CheckBlock(c[h]))
    && forall a :: On(c, a) && a.height > 0 ==> Passed(env, c, a)
  }

  /** What passed stays passed when blocks are added on top or taken off. */
  lemma SamePassed(env: Env, c: Chain, d: Chain, a: Loc)
    requires On(c, a) && On(d, a) && forall h :: 0 <= h <= a.height ==> c[h] == d[h]
    ensures Passed(env, c, a) <==> Passed(env, d, a)
  {
    hide Post, Maturity, SpentBefore;
    if Resolved(c, a) { SameSpent(c, d, a); SameUnspent(c, d, a); }
    if Resolved(d, a) { SameSpent(d, c, a); SameUnspent(d, c, a); }
  }

  lemma SameUnspent(c: Chain, d: Chain, a: Loc)
    requires On(c, a) && On(d, a) && (forall h :: 0 <= h <= a.height ==> c[h] == d[h])
    ensures forall x :: SpentBefore(c, a, x) <==> SpentBefore(d, a, x)
  {
    forall b, x | Before(b, a) ensures Spends(c, b, x) <==> Spends(d, b, x) {
      assert c[b.height] == d[b.height];
      assert On(c, b) ==> TxAt(c, b) == TxAt(d, b);
    }
  }

  lemma SameSpent(c: Chain, d: Chain, a: Loc)
    requires On(c, a) && On(d, a) && (forall h :: 0 <= h <= a.height ==> c[h] == d[h]) && Resolved(c, a)
    ensures Resolved(d, a) && Spent(c, a) == Spent(d, a)
  {
    var t := TxAt(c, a);
    assert TxAt(d, a) == t;
    forall k | 0 <= k < |t.vin|
      ensures On(d, Where(t.vin[k])) && TxAt(d, Where(t.vin[k])) == TxAt(c, Where(t.vin[k]))
    {
      assert Before(Where(TxAt(c, a).vin[k]), a);
    }
    assert Resolved(d, a);
  }

  lemma PlayKeeps(env: Env, c: Chain, m: Move)
    requires Valid(env, c)
    ensures Valid(env, Play(env, c, m))
  {
    hide Passed, CheckBlock;
    var d := Play(env, c, m);
    forall a | On(d, a) && a.height > 0 ensures Passed(env, d, a) {
      if On(c, a) { SamePassed(env, c, d, a); }
    }
  }

  lemma {:induction false} RunValid(env: Env, moves: seq<Move>)
    ensures Valid(env, Run(env, moves))
  {
    if moves != [] {
      RunValid(env, moves[..|moves| - 1]);
      PlayKeeps(env, Run(env, moves[..|moves| - 1]), moves[|moves| - 1]);
    }
  }

  lemma CutValid(env: Env, c: Chain, n: nat)
    requires Valid(env, c) && 0 < n <= |c|
    ensures Valid(env, c[..n])
  {
    hide Passed, CheckBlock;
    forall a | On(c[..n], a) && a.height > 0 ensures Passed(env, c[..n], a) {
      SamePassed(env, c, c[..n], a);
    }
  }

  /** On a valid chain an output is spent after it was made, if a coinbase or a coinstake made it a hundred blocks after
      (ten on the test net), and twice only if it is worth nothing. */
  lemma SpentInOrder(env: Env, c: Chain, a: Loc, x: Input)
    requires Valid(env, c) && Spends(c, a, x)
    ensures 0 < x.height && On(c, Where(x)) && Before(Where(x), a) && x.n < |TxAt(c, Where(x)).vout|
    ensures TxAt(c, Where(x)).kind != Ordinary ==> a.height - x.height >= if env.testNet then 10 else 100
    ensures forall b :: Spends(c, b, x) && b != a ==> ValueOf(TxAt(c, Where(x)), x.n) == 0
  {
    hide Post;
    SpenderPassed(env, c, a, x);
    forall b | Spends(c, b, x) && b != a ensures ValueOf(TxAt(c, Where(x)), x.n) == 0 {
      SpenderPassed(env, c, b, x);
      if Before(a, b) { assert SpentBefore(c, b, x); } else { assert SpentBefore(c, a, x); }
    }
  }

  lemma SpenderPassed(env: Env, c: Chain, a: Loc, x: Input)
    requires Valid(env, c) && Spends(c, a, x)
    ensures Resolved(c, a) && Matured(env, c, a) && Unspent(c, a)
  {
    hide Post, Resolved, Matured, Unspent;
    if a.height > 0 { assert Passed(env, c, a) && CheckTransaction(TxAt(c, a)); }
  }

  /** Connecting its blocks one by one leads to a valid chain. */
  lemma {:induction false} ValidIsReached(env: Env, c: Chain) returns (moves: seq<Move>)
    requires Valid(env, c)
    ensures Run(env, moves) == c
  {
    if |c| == 1 {
      moves := [];
    } else {
      var init, last := c[..|c| - 1], c[|c| - 1];
      CutValid(env, c, |c| - 1);
      var before := ValidIsReached(env, init);
      assert c == init + [last];
      hide Passed, CheckBlock;
      moves := before + [Connect(last)];
      assert moves[..|moves| - 1] == before;
    }
  }

  /** The chains that runs lead to are exactly the valid ones. */
  lemma RunsAreValid(env: Env, c: Chain)
    ensures (exists moves :: Run(env, moves) == c) <==> Valid(env, c)
  {
    forall moves ensures Valid(env, Run(env, moves)) { RunValid(env, moves); }
    if Valid(env, c) { var moves := ValidIsReached(env, c); }
  }
}
