/** Runs in which two SETs of one alias are accepted, or one SET has two RELAYs. */
module AliasRivals {
  import opened Options
  import opened AliasScript
  import opened AliasPost
  import opened AliasChain
  import opened AliasCustody
  import opened AliasRuns
  import opened AliasLineage
  import AliasIndex
  import AliasHolder

  // ---- The transactions

  /** The SET that opens it, with an alias output of value `v`. */
  function SetTx(id: nat, m: nat, i: nat, k: nat, r: Parts, v: nat): Tx
    requires Fit(r)
  {
    Tx(TxId(id), Ordinary, true, [Input(m + 1, i, 0), Coin(k)], [Claim(r)], [v])
  }

  /** A RELAY of the second SET. */
  function RelayTx(id: nat, m: nat, k: nat, r: Parts): Tx
    requires Fit(r)
  {
    Tx(TxId(id), Ordinary, true, [Input(m + 2, 2, 0), Coin(k)], [Handover(r, r.open[0])], [0])
  }

  /** Two parties have committed to the same alias; `v` is the value of the second one's alias output. */
  datatype Rivals = Rivals(first: Parts, second: Parts, v: nat)

  ghost predicate Matched(r: Rivals) { Fit(r.first) && Fit(r.second) && r.first.open[0] == r.second.open[0] }

  function Commits(r: Rivals): seq<Tx>
    requires Matched(r)
  {
    [CommitTx(1, 0, r.first), CommitTx(3, 1, r.second)]
  }

  function Sets(r: Rivals, m: nat): seq<Tx>
    requires Matched(r)
  {
    [SetTx(5, m, 1, 2, r.first, 0), SetTx(7, m, 2, 3, r.second, r.v)]
  }

  /** Each has signed, and each SET opens its commitment. */
  ghost predicate Agreed(env: Env, r: Rivals) {
    && Matched(r) && Opening(env, r.first) && Opening(env, r.second)
    && var m, pay := Maturity(env.testNet), r.first.pay;
       && env.signed(Commits(r)[0], [pay]) && env.signed(Commits(r)[1], [pay])
       && env.signed(Sets(r, m)[0], [Commit(r.first), pay]) && env.signed(Sets(r, m)[1], [Commit(r.second), pay])
  }

  /** What stands behind the coinbase of each block: commitments, SETs, and RELAYs of the second SET. */
  function TxsAt(r: Rivals, m: nat, h: nat): seq<Tx>
    requires Matched(r)
  {
    if h == m + 1 then Commits(r) else if h == m + 2 then Sets(r, m)
    else if h == m + 3 then [RelayTx(9, m, 4, r.second)] else if h == m + 4 then [RelayTx(11, m, 5, r.second)] else []
  }

  function BlockAt(r: Rivals, m: nat, h: nat): seq<Tx>
    requires Matched(r)
  {
    Mined(r.first, h, TxsAt(r, m, h))
  }

  function RivalChain(r: Rivals, m: nat, n: nat): Chain
    requires Matched(r)
  {
    seq(n, h requires 0 <= h => if h == 0 then Genesis() else BlockAt(r, m, h))
  }

  /** The inputs of the transaction at `b`. */
  function InputsAt(m: nat, b: Loc): seq<Input> {
    if b == Loc(m + 1, 1) then [Coin(0)]
    else if b == Loc(m + 1, 2) then [Coin(1)]
    else if b == Loc(m + 2, 1) then [Input(m + 1, 1, 0), Coin(2)]
    else if b == Loc(m + 2, 2) then [Input(m + 1, 2, 0), Coin(3)]
    else if b == Loc(m + 3, 1) then [Input(m + 2, 2, 0), Coin(4)]
    else if b == Loc(m + 4, 1) then [Input(m + 2, 2, 0), Coin(5)]
    else []
  }

  lemma ChainAt(r: Rivals, m: nat, n: nat, b: Loc)
    requires Matched(r) && On(RivalChain(r, m, n), b)
    ensures var t := TxAt(RivalChain(r, m, n), b);
            && t.vin == InputsAt(m, b)
            && (b.height > 0 ==> t == if b.index == 0 then Fund(r.first, b.height) else TxsAt(r, m, b.height)[b.index - 1])
  {
    hide Commit, Claim, Handover;
    var c := RivalChain(r, m, n);
    var t := TxAt(c, b);
    if b.height == 0 {
      assert c[0] == Genesis();
    } else {
      assert c[b.height] == BlockAt(r, m, b.height);
      if b.index > 0 {
        assert t == TxsAt(r, m, b.height)[b.index - 1];
        assert b.index == 1 || b.index == 2;
      }
    }
  }

  /** The transactions before the one at `a` that spend its inputs: only the first RELAY spends what the second does. */
  lemma SpentAt(r: Rivals, m: nat, n: nat, a: Loc, x: Input)
    requires Matched(r) && On(RivalChain(r, m, n), a) && x in InputsAt(m, a)
    ensures SpentBefore(RivalChain(r, m, n), a, x) <==> a == Loc(m + 4, 1) && x == Input(m + 2, 2, 0)
  {
    hide RivalChain, Matched;
    var c := RivalChain(r, m, n);
    forall b | Before(b, a) && Spends(c, b, x) ensures a == Loc(m + 4, 1) && x == Input(m + 2, 2, 0) {
      ChainAt(r, m, n, b);
    }
    if a == Loc(m + 4, 1) && x == Input(m + 2, 2, 0) {
      var b := Loc(m + 3, 1);
      ChainOn(r, m, n, a, b);
      ChainAt(r, m, n, b);
      assert TxAt(c, b).vin[0] == x;
      assert Spends(c, b, x);
    }
  }

  lemma ChainOn(r: Rivals, m: nat, n: nat, a: Loc, b: Loc)
    requires Matched(r) && On(RivalChain(r, m, n), a) && b.height <= a.height && b.height > 0
    ensures On(RivalChain(r, m, n), b) <==> b.index <= |TxsAt(r, m, b.height)|
  {
  }

  // ---- They pass

  /** A transaction that spends the output `x`, whose script is `s`, beside a coin. */
  lemma PairPasses(env: Env, r: Rivals, n: nat, a: Loc, x: Input, k: nat, s: Script)
    requires Matched(r) && var m, c := Maturity(env.testNet), RivalChain(r, Maturity(env.testNet), n);
                          && On(c, a) && m < a.height < n && InputsAt(m, a) == [x, Coin(k)] && k < 6
                          && TxAt(c, a).kind == Ordinary && x.height > m && On(c, Where(x)) && Before(Where(x), a)
                          && TxAt(c, Where(x)).kind == Ordinary
                          && x.n < |TxAt(c, Where(x)).vout| && TxAt(c, Where(x)).vout[x.n] == s
                          && (SpentBefore(c, a, x) ==> ValueOf(TxAt(c, Where(x)), x.n) == 0)
    ensures var c := RivalChain(r, Maturity(env.testNet), n);
            && Resolved(c, a) && Spent(c, a) == [s, r.first.pay]
            && (Passed(env, c, a) <==> Post(env, TxAt(c, a), [s, r.first.pay], a.height) == Accepted)
  {
    hide RivalChain, Matched, Post, SpentBefore, Resolved, Spent, Passed;
    var m, c := Maturity(env.testNet), RivalChain(r, Maturity(env.testNet), n);
    ChainAt(r, m, n, a);
    SpentAt(r, m, n, a, Coin(k));
    FirstBlock(r, m, n);
    CoinUsable(env, r.first, c, a, k);
    TwoReady(env, c, a, x, s, Coin(k), r.first.pay);
    ReadyPasses(env, c, a);
    ReadyResolved(env, c, a);
  }

  lemma FirstBlock(r: Rivals, m: nat, n: nat)
    requires Matched(r) && n > 1 && m > 0
    ensures RivalChain(r, m, n)[1] == Mined(r.first, 1, [])
    ensures FundsBelow(r.first, RivalChain(r, m, n), if m + 1 < n then m + 1 else n)
  {
  }

  lemma SetOk(env: Env, t: Tx, q: Parts, pay: Script, h: nat)
    requires Opening(env, q) && !Touches(pay) && t.dion && |t.vin| == 2 && t.vout == [Claim(q)] && t.vin[0].height < h
    requires env.signed(t, [Commit(q), pay])
    ensures Post(env, t, [Commit(q), pay], h) == Accepted
  {
    hide IsAlias, ReadAs, Commit, Claim, Post, Short;
    Printed(q);
    BesidePay(Commit(q), ENCRYPTED, q.commit, pay);
    OneRead(Claim(q), SET, q.open);
    SetAccepted(env, t, [Commit(q), pay], h, q);
  }

  lemma RelayOk(env: Env, t: Tx, q: Parts, pay: Script, h: nat)
    requires Fit(q) && !Touches(pay) && t.dion && |t.vin| == 2 && t.vout == [Handover(q, q.open[0])]
    requires 0 <= h - t.vin[0].height < ScaleMonitor(env.testNet)
    ensures Post(env, t, [Claim(q), pay], h) == Accepted
    ensures ReadAs([Claim(q), pay], SET, SET, q.open)
  {
    hide IsAlias, ReadAs, Handover, Claim, Post, Short;
    Printed(q);
    PrintedRelay(q, q.open[0]);
    BesidePay(Claim(q), SET, q.open, pay);
    OneRead(Handover(q, q.open[0]), RELAY, [q.open[0], q.value]);
    RelayAccepted(env, t, [Claim(q), pay], h, SET, SET, q.open, q.open[0], q.value);
  }

  lemma CommitsPass(env: Env, r: Rivals, n: nat)
    requires Agreed(env, r) && n > Maturity(env.testNet) + 1
    ensures BlockPassed(env, RivalChain(r, Maturity(env.testNet), n), Maturity(env.testNet) + 1)
  {
    hide RivalChain, Post, Passed, FundsBelow, Opening, Commit, Claim;
    var m, c := Maturity(env.testNet), RivalChain(r, Maturity(env.testNet), n);
    FirstBlock(r, m, n);
    BlockThere(r, m, n, m + 1);
    var a, b := Loc(m + 1, 1), Loc(m + 1, 2);
    assert TxAt(c, a) == Commits(r)[0] && TxAt(c, b) == Commits(r)[1];
    CommitAccepted(env, 1, 0, r.first, r.first.pay, m + 1);
    CommitAccepted(env, 3, 1, r.second, r.first.pay, m + 1);
    CoinTxPasses(env, r.first, c, a, 0);
    CoinTxPasses(env, r.first, c, b, 1);
    MinedPasses(env, r.first, c, m + 1, Commits(r));
  }

  lemma BlockThere(r: Rivals, m: nat, n: nat, h: nat)
    requires Matched(r) && 0 < h < n
    ensures |RivalChain(r, m, n)| == n && RivalChain(r, m, n)[h] == Mined(r.first, h, TxsAt(r, m, h))
  {
  }

  lemma SetPasses(env: Env, r: Rivals, n: nat, i: nat)
    requires Agreed(env, r) && n > Maturity(env.testNet) + 2 && 1 <= i <= 2
    ensures var c, a := RivalChain(r, Maturity(env.testNet), n), Loc(Maturity(env.testNet) + 2, i);
            On(c, a) && Passed(env, c, a)
  {
    hide RivalChain, Post, Passed, Commit, Claim, Handover, Resolved, Spent, SpentBefore;
    var m, c := Maturity(env.testNet), RivalChain(r, Maturity(env.testNet), n);
    BlockThere(r, m, n, m + 1);
    BlockThere(r, m, n, m + 2);
    var a, b := Loc(m + 2, i), Loc(m + 1, i);
    var q := if i == 1 then r.first else r.second;
    assert TxAt(c, a) == Sets(r, m)[i - 1] && TxAt(c, b) == Commits(r)[i - 1];
    SetOk(env, TxAt(c, a), q, r.first.pay, m + 2);
    SpentAt(r, m, n, a, Input(m + 1, i, 0));
    PairPasses(env, r, n, a, Input(m + 1, i, 0), i + 1, Commit(q));
  }

  /** The first RELAY passes, and the second one exactly if the output it spends is worth nothing. */
  lemma RelayPasses(env: Env, r: Rivals, n: nat, j: nat)
    requires Agreed(env, r) && 3 <= j <= 4 && n > Maturity(env.testNet) + j
    ensures var c, a := RivalChain(r, Maturity(env.testNet), n), Loc(Maturity(env.testNet) + j, 1);
            && On(c, a) && (Passed(env, c, a) <==> j == 3 || r.v == 0)
            && (j == 3 || r.v == 0 ==> Resolved(c, a) && Spent(c, a) == [Claim(r.second), r.first.pay])
  {
    hide RivalChain, Post, Passed, Commit, Claim, Handover, Resolved, Spent, SpentBefore;
    var m, c := Maturity(env.testNet), RivalChain(r, Maturity(env.testNet), n);
    BlockThere(r, m, n, m + 2);
    BlockThere(r, m, n, m + j);
    var a, b := Loc(m + j, 1), Loc(m + 2, 2);
    assert TxAt(c, a) == TxsAt(r, m, m + j)[0] && TxAt(c, b) == Sets(r, m)[1];
    var x := Input(m + 2, 2, 0);
    SpentAt(r, m, n, a, x);
    if j == 3 || r.v == 0 {
      RelayOk(env, TxAt(c, a), r.second, r.first.pay, m + j);
      PairPasses(env, r, n, a, x, j + 1, Claim(r.second));
    } else {
      SpentFails(env, c, a, 0);
    }
  }

  lemma SpentFails(env: Env, c: Chain, a: Loc, k: nat)
    requires On(c, a) && TxAt(c, a).kind == Ordinary && k < |TxAt(c, a).vin|
    requires var x := TxAt(c, a).vin[k]; On(c, Where(x)) && SpentBefore(c, a, x) && ValueOf(TxAt(c, Where(x)), x.n) > 0
    ensures !Passed(env, c, a)
  {
    hide Post, Spent, SpentBefore;
  }

  // ---- The chain is valid, and one more RELAY

  lemma RivalChecks(r: Rivals, m: nat, h: nat)
    requires Matched(r)
    ensures CheckBlock(Mined(r.first, h, TxsAt(r, m, h)))
  {
    hide CheckBlock, Commit, Claim, Handover, ParseAlias, Short;
    Printed(r.first);
    Printed(r.second);
    PrintedRelay(r.second, r.second.open[0]);
    forall i | 0 <= i < |TxsAt(r, m, h)|
      ensures TxsAt(r, m, h)[i].kind == Ordinary && CheckTransaction(TxsAt(r, m, h)[i])
    {
    }
    MinedChecks(r.first, h, TxsAt(r, m, h));
  }

  lemma RivalValid(env: Env, r: Rivals)
    requires Agreed(env, r)
    ensures Valid(env, RivalChain(r, Maturity(env.testNet), Maturity(env.testNet) + 4))
  {
    hide RivalChain, CheckBlock, BlockPassed, Passed, Agreed, Sets, Commits, TxsAt, FundsBelow;
    AgreedReady(env, r);
    var m, c := Maturity(env.testNet), RivalChain(r, Maturity(env.testNet), Maturity(env.testNet) + 4);
    GenesisThere(r, m, m + 4);
    RivalPasses(env, r, c);
    forall h | 0 < h < |c|
      ensures c[h] == Mined(r.first, h, []) || (CheckBlock(c[h]) && BlockPassed(env, c, h))
    {
      BlockThere(r, m, m + 4, h);
      RivalChecks(r, m, h);
      NoneThere(r, m, h);
    }
    BuiltValid(env, r.first, c);
  }

  lemma AgreedReady(env: Env, r: Rivals)
    requires Agreed(env, r)
    ensures Matched(r)
  {
  }

  lemma NoneThere(r: Rivals, m: nat, h: nat)
    requires Matched(r)
    ensures h <= m || h > m + 4 ==> TxsAt(r, m, h) == []
  {
  }

  lemma GenesisThere(r: Rivals, m: nat, n: nat)
    requires Matched(r) && n > 0
    ensures |RivalChain(r, m, n)| == n && RivalChain(r, m, n)[0] == Genesis()
  {
  }

  lemma RivalPasses(env: Env, r: Rivals, c: Chain)
    requires Agreed(env, r) && c == RivalChain(r, Maturity(env.testNet), Maturity(env.testNet) + 4)
    ensures forall h :: Maturity(env.testNet) < h < Maturity(env.testNet) + 4 ==> BlockPassed(env, c, h)
  {
    hide RivalChain, BlockPassed, Passed, Resolved, Spent;
    var m := Maturity(env.testNet);
    CommitsPass(env, r, m + 4);
    SetPasses(env, r, m + 4, 1);
    SetPasses(env, r, m + 4, 2);
    RelayPasses(env, r, m + 4, 3);
    BlockThere(r, m, m + 4, m + 2);
    BlockThere(r, m, m + 4, m + 3);
    MinedPasses(env, r.first, c, m + 2, TxsAt(r, m, m + 2));
    MinedPasses(env, r.first, c, m + 3, TxsAt(r, m, m + 3));
  }

  /** One more RELAY of the SET can follow the first exactly if the SET's alias output is worth nothing. */
  lemma Fork(env: Env, r: Rivals)
    requires Agreed(env, r)
    ensures var m := Maturity(env.testNet);
            Connects(env, RivalChain(r, m, m + 4), BlockAt(r, m, m + 4)) <==> r.v == 0
  {
    hide RivalChain, CheckBlock, Passed, Agreed, Sets, Commits, TxsAt, FundsBelow, Resolved, Spent;
    AgreedReady(env, r);
    var m := Maturity(env.testNet);
    var c, b := RivalChain(r, m, m + 4), BlockAt(r, m, m + 4);
    RivalChecks(r, m, m + 4);
    ChainGrows(r, m, m + 4);
    RelayPasses(env, r, m + 5, 4);
    GenesisThere(r, m, m + 4);
    BlockThere(r, m, m + 5, m + 4);
    OneMoreTx(r, m);
    if r.v == 0 { MinedPasses(env, r.first, c + [b], m + 4, TxsAt(r, m, m + 4)); }
  }

  lemma OneMoreTx(r: Rivals, m: nat)
    requires Matched(r)
    ensures |TxsAt(r, m, m + 4)| == 1
  {
  }

  lemma ChainGrows(r: Rivals, m: nat, n: nat)
    requires Matched(r) && n > 0
    ensures RivalChain(r, m, n) + [BlockAt(r, m, n)] == RivalChain(r, m, n + 1)
  {
  }

  // ---- Two lines of custody

  /** An alias transaction that has just that one output. */
  ghost predicate AliasOnly(t: Tx) { Checked(t) && |t.vout| == 1 && ParseAlias(t.vout[0], 0).ok }

  lemma AllAlias(r: Rivals, m: nat, h: nat)
    requires Matched(r)
    ensures forall i :: 0 <= i < |TxsAt(r, m, h)| ==> AliasOnly(TxsAt(r, m, h)[i])
  {
    hide Commit, Claim, Handover, ParseAlias, Short;
    Printed(r.first);
    Printed(r.second);
    PrintedRelay(r.second, r.second.open[0]);
  }

  /** No script but the alias scripts begins with OP_1 .. OP_16. */
  lemma RivalQuiet(r: Rivals, m: nat, n: nat)
    requires Matched(r) && n > 0
    ensures Quiet(RivalChain(r, m, n))
  {
    hide RivalChain, TxsAt, ParseAlias, Short;
    var c := RivalChain(r, m, n);
    GenesisThere(r, m, n);
    forall a, k | On(c, a) && 0 <= k < |TxAt(c, a).vout| && Touches(TxAt(c, a).vout[k])
      ensures Checked(TxAt(c, a)) && ParseAlias(TxAt(c, a).vout[k], 0).ok
    {
      ChainAt(r, m, n, a);
      AllAlias(r, m, a.height);
      if a.height > 0 { BlockThere(r, m, n, a.height); }
    }
  }

  /** The SETs, and the RELAYs of the second one, are what they should be. */
  lemma SetThere(r: Rivals, m: nat, n: nat, i: nat)
    requires Matched(r) && n > m + 2 && 1 <= i <= 2
    ensures var c, s := RivalChain(r, m, n), Loc(m + 2, i); Does(c, s, SET) && Names(c, s, r.second.open[0])
  {
    hide RivalChain, Claim, Handover, Commit, ParseAlias, Sole, ArgsOf, OwnOp, OpAfter, Short;
    Printed(r.first);
    Printed(r.second);
    OneRead(Claim(r.first), SET, r.first.open);
    OneRead(Claim(r.second), SET, r.second.open);
    BlockThere(r, m, n, m + 2);
    assert TxAt(RivalChain(r, m, n), Loc(m + 2, i)) == Sets(r, m)[i - 1];
  }

  lemma RelayThere(r: Rivals, m: nat, n: nat, j: nat)
    requires Matched(r) && 3 <= j <= 4 && n > m + j
    ensures var c, b := RivalChain(r, m, n), Loc(m + j, 1); Does(c, b, RELAY) && Names(c, b, r.second.open[0])
  {
    hide RivalChain, Claim, Handover, Commit, ParseAlias, Sole, ArgsOf, OwnOp, OpAfter, Short;
    PrintedRelay(r.second, r.second.open[0]);
    OneRead(Handover(r.second, r.second.open[0]), RELAY, [r.second.open[0], r.second.value]);
    BlockThere(r, m, n, m + j);
    assert TxAt(RivalChain(r, m, n), Loc(m + j, 1)) == TxsAt(r, m, m + j)[0];
  }

  lemma RelaySource(env: Env, r: Rivals, n: nat, j: nat)
    requires Agreed(env, r) && 3 <= j <= 4 && n > Maturity(env.testNet) + j && (j == 3 || r.v == 0)
    ensures var m := Maturity(env.testNet); var c, b := RivalChain(r, m, n), Loc(m + j, 1);
            HasSource(c, b) && Where(Source(c, b)) == Loc(m + 2, 2)
  {
    hide RivalChain, Claim, Handover, Commit, ParseAlias, Sole, ArgsOf, OwnOp, OpAfter, Short, Passed, Resolved, Spent;
    var m := Maturity(env.testNet);
    var c, b := RivalChain(r, m, n), Loc(m + j, 1);
    RelayPasses(env, r, n, j);
    ChainAt(r, m, n, b);
    Printed(r.second);
    BesidePay(Claim(r.second), SET, r.second.open, r.first.pay);
  }

  /** On a valid chain of this kind a RELAY has the alias from the second SET. */
  lemma RelayLine(env: Env, r: Rivals, n: nat, j: nat)
    requires Matched(r) && Agreed(env, r) && 3 <= j <= 4 && n > Maturity(env.testNet) + j && (j == 3 || r.v == 0)
    requires Valid(env, RivalChain(r, Maturity(env.testNet), n))
    ensures var m := Maturity(env.testNet); var c, t, b := RivalChain(r, m, n), Loc(m + 2, 2), Loc(m + j, 1);
            && RelayAfter(c, t, r.second.open[0], b) && Traced(env, c, t) && HandsOn(env, c, t, b)
            && Descends(env, c, t, b) && !Descends(env, c, Loc(m + 2, 1), b)
  {
    hide RivalChain, Agreed, Valid, Quiet, Does, Names, HasSource, Source, HandsOn, Traced, Descends, Matched;
    var m := Maturity(env.testNet);
    var c, t, b := RivalChain(r, m, n), Loc(m + 2, 2), Loc(m + j, 1);
    RivalQuiet(r, m, n);
    SetThere(r, m, n, 2);
    RelayThere(r, m, n, j);
    RelaySource(env, r, n, j);
    LineOf(env, c, Loc(m + 2, 1), t, b);
  }

  lemma LineOf(env: Env, c: Chain, s: Loc, t: Loc, b: Loc)
    requires Valid(env, c) && Quiet(c) && Does(c, t, SET) && Does(c, b, RELAY) && s != t
    requires HasSource(c, b) && Where(Source(c, b)) == t
    ensures Traced(env, c, t) && HandsOn(env, c, t, b) && Descends(env, c, t, b) && !Descends(env, c, s, b)
  {
    hide Valid, Quiet, Does, HasSource, Source, RelayGuard, HandsOn, Traced, Descends;
    QuietTraced(env, c);
    QuietRelay(env, c, b);
    RelayStep(env, c, b);
    SetDescends(env, c, t);
    DescendsStep(env, c, t, b);
    if Descends(env, c, s, b) { OneRoot(env, c, s, t, b); }
  }

  /** A SET whose alias output is worth nothing can hand its alias on twice. */
  lemma TwoHeirs(env: Env, r: Rivals) returns (moves: seq<Move>, t: Loc, a: Loc, b: Loc)
    requires Agreed(env, r) && r.v == 0
    ensures var c := Run(env, moves); Traced(env, c, t) && HandsOn(env, c, t, a) && HandsOn(env, c, t, b) && a != b
  {
    AgreedReady(env, r);
    hide RivalChain, Agreed, Valid, HandsOn, Traced, Descends, Run, Matched, BlockAt;
    var m := Maturity(env.testNet);
    var c := RivalChain(r, m, m + 4);
    RivalValid(env, r);
    Fork(env, r);
    ChainGrows(r, m, m + 4);
    OneMoreValid(env, c, BlockAt(r, m, m + 4));
    RelayLine(env, r, m + 5, 3);
    RelayLine(env, r, m + 5, 4);
    t, a, b := Loc(m + 2, 2), Loc(m + 3, 1), Loc(m + 4, 1);
    moves := ValidIsReached(env, RivalChain(r, m, m + 5));
  }

  lemma OneMoreValid(env: Env, c: Chain, b: seq<Tx>)
    requires Valid(env, c) && Connects(env, c, b)
    ensures Valid(env, c + [b])
  {
    hide Valid, Connects;
    PlayKeeps(env, c, Connect(b));
  }

  // ---- What the index makes of them

  function Read(c: Chain, places: nat -> Place): seq<AliasIndex.Block>
    requires c != []
  {
    seq(|c| - 1, k requires 0 <= k < |c| - 1 =>
      AliasIndex.Block(k + 1, places(k + 1).file, places(k + 1).pos, c[k + 1]))
  }

  /** The event of an alias transaction with one output. */
  lemma EventRead(d: AliasIndex.Disk, b: AliasIndex.Block, i: nat, s: Script, op: nat, args: seq<Bytes>)
    requires i < |b.txs| && b.txs[i].dion && b.txs[i].vout == [s] && d.readable(b.txs[i]) && IsAlias(s, op, args)
    ensures var ev := AliasIndex.EventOf(d, b, i);
            && (op == ENCRYPTED ==> ev == AliasIndex.Skip)
            && (op == SET && args != [] ==> ev.SetAlias? && ev.alias == args[0] && ev.e.height == b.height)
            && (op == RELAY && |args| >= 2 ==> ev.RelayAlias? && ev.alias == args[0] && ev.e.height == b.height)
  {
    OneRead(s, op, args);
    hide OpAfter, ArgsOf, OwnOp, ParseAlias, Sole, IsAlias;
  }

  lemma EventsAt(r: Rivals, m: nat, d: AliasIndex.Disk, b: AliasIndex.Block)
    requires Matched(r) && b.txs == BlockAt(r, m, b.height) && b.height <= m + 3 && forall t :: d.readable(t)
    ensures AliasIndex.EventOf(d, b, 0) == AliasIndex.Skip
    ensures b.height <= m + 1 ==> forall i :: 0 <= i < |b.txs| ==> AliasIndex.EventOf(d, b, i) == AliasIndex.Skip
    ensures b.height == m + 2 ==>
              |b.txs| == 3 && forall i :: 1 <= i <= 2 ==>
                var ev := AliasIndex.EventOf(d, b, i);
                ev.SetAlias? && ev.alias == r.second.open[0] && ev.e.height == m + 2
    ensures b.height == m + 3 ==>
              |b.txs| == 2 && var ev := AliasIndex.EventOf(d, b, 1); ev.RelayAlias? && ev.alias == r.second.open[0]
  {
    hide Commit, Claim, Handover, IsAlias, Short, AliasIndex.EventOf;
    Printed(r.first);
    Printed(r.second);
    var x, q := r.second.open[0], r.second;
    PrintedRelay(q, x);
    CoinbaseSkipped(d, b);
    if b.height == m + 1 {
      EventRead(d, b, 1, Commit(r.first), ENCRYPTED, r.first.commit);
      EventRead(d, b, 2, Commit(q), ENCRYPTED, q.commit);
    } else if b.height == m + 2 {
      EventRead(d, b, 1, Claim(r.first), SET, r.first.open);
      EventRead(d, b, 2, Claim(q), SET, q.open);
    } else if b.height == m + 3 {
      EventRead(d, b, 1, Handover(q, x), RELAY, [x, q.value]);
    }
  }

  lemma CoinbaseSkipped(d: AliasIndex.Disk, b: AliasIndex.Block)
    requires |b.txs| > 0 && !b.txs[0].dion
    ensures AliasIndex.EventOf(d, b, 0) == AliasIndex.Skip
  {
  }

  /** The index after the blocks up to the SETs: the first SET has the alias, and the second one is ignored. */
  lemma SetsFolded(m0: AliasIndex.Index, d: AliasIndex.Disk, b: AliasIndex.Block, x: Bytes)
    requires m0 == map[] && |b.txs| == 3 && AliasIndex.EventOf(d, b, 0) == AliasIndex.Skip
    requires forall i :: 1 <= i <= 2 ==>
               var ev := AliasIndex.EventOf(d, b, i); ev.SetAlias? && ev.alias == x && ev.e.height == b.height
    ensures AliasIndex.FoldTxs(m0, d, b, 1) == Some(m0)
    ensures AliasIndex.FoldTxs(m0, d, b, 2) == Some(map[x := AliasIndex.EventOf(d, b, 1).e])
    ensures AliasIndex.FoldTxs(m0, d, b, 3) == AliasIndex.FoldTxs(m0, d, b, 2)
  {
    hide AliasIndex.EventOf;
    var none: AliasIndex.Index := map[];
    assert AliasIndex.FoldTxs(m0, d, b, 0) == Some(none);
    var e := AliasIndex.EventOf(d, b, 1).e;
    assert none[x := e] == map[x := e];
  }

  lemma {:induction false} SkippedTxs(m0: AliasIndex.Index, d: AliasIndex.Disk, b: AliasIndex.Block, i: nat)
    requires i <= |b.txs| && forall j :: 0 <= j < i ==> AliasIndex.EventOf(d, b, j) == AliasIndex.Skip
    ensures AliasIndex.FoldTxs(m0, d, b, i) == Some(m0)
  {
    hide AliasIndex.EventOf;
    if i > 0 { SkippedTxs(m0, d, b, i - 1); }
  }

  /** Before the SETs there is nothing in the index. */
  lemma {:induction false} NothingRead(r: Rivals, m: nat, d: AliasIndex.Disk, places: nat -> Place, k: nat)
    requires Matched(r) && k <= m + 1 && forall t :: d.readable(t)
    ensures var bs := Read(RivalChain(r, m, m + 4), places);
            |bs| == m + 3 && AliasIndex.FoldBlocks(map[], d, bs[..k]) == Some(map[])
  {
    var bs := Read(RivalChain(r, m, m + 4), places);
    if k > 0 {
      NothingRead(r, m, d, places, k - 1);
      assert bs[..k][..k - 1] == bs[..k - 1];
      EventsAt(r, m, d, bs[k - 1]);
      hide AliasIndex.EventOf, RivalChain, Read;
      SkippedTxs(map[], d, bs[k - 1], |bs[k - 1].txs|);
    }
  }

  /** The first SET holds the alias, and the RELAY has written its entry. */
  lemma HolderIs(d: AliasIndex.Disk, bs: seq<AliasIndex.Block>, x: Bytes)
    requires |bs| >= 2 && AliasIndex.FoldBlocks(map[], d, bs[..|bs| - 2]) == Some(map[])
    requires var b := bs[|bs| - 2];
             && |b.txs| == 3 && AliasIndex.EventOf(d, b, 0) == AliasIndex.Skip
             && forall i :: 1 <= i <= 2 ==>
                  var ev := AliasIndex.EventOf(d, b, i); ev.SetAlias? && ev.alias == x && ev.e.height == b.height
    requires var b := bs[|bs| - 1];
             && |b.txs| == 2 && AliasIndex.EventOf(d, b, 0) == AliasIndex.Skip
             && AliasIndex.EventOf(d, b, 1).RelayAlias? && AliasIndex.EventOf(d, b, 1).alias == x
    ensures AliasHolder.Holder(d, bs, 2, x) == Some(Loc(bs[|bs| - 2].height, 1))
    ensures AliasIndex.FoldBlocks(map[], d, bs) == Some(map[x := AliasIndex.EventOf(d, bs[|bs| - 1], 1).e])
  {
    hide AliasIndex.EventOf;
    var init := bs[..|bs| - 1];
    var b, last := bs[|bs| - 2], bs[|bs| - 1];
    assert init[..|init| - 1] == bs[..|bs| - 2] && init[|init| - 1] == b;
    SetsFolded(map[], d, b, x);
    var e, e' := AliasIndex.EventOf(d, b, 1).e, AliasIndex.EventOf(d, last, 1).e;
    var one: AliasIndex.Index := map[x := e];
    assert AliasIndex.FoldBlocks(map[], d, init) == Some(one);
    assert AliasIndex.FoldTxs(one, d, last, 0) == Some(one);
    assert AliasIndex.FoldTxs(one, d, last, 1) == Some(one);
    assert one[x := e'] == map[x := e'];
    assert AliasIndex.FoldTxs(one, d, last, 2) == Some(one[x := e']);
    hide AliasIndex.FoldTxs, AliasIndex.FoldBlocks;
    assert AliasHolder.TakesOver(d, init, 1, x);
    assert !AliasHolder.TakesOver(d, init, 2, x);
    assert !AliasHolder.TakesOver(d, bs, 1, x) && !AliasHolder.TakesOver(d, bs, 0, x);
    hide AliasHolder.TakesOver;
    assert AliasHolder.Holder(d, init, 2, x) == Some(Loc(b.height, 1));
    assert AliasHolder.Holder(d, bs, 0, x) == AliasHolder.Holder(d, init, 3, x);
  }

  /** Two SETs of one alias are accepted. The index ignores the second one, but not its RELAY: that one takes over the
      entry of the first SET, from which it does not descend. */
  lemma ForeignEntry(env: Env, r: Rivals, d: AliasIndex.Disk, places: nat -> Place)
      returns (moves: seq<Move>, s: Loc, b: Loc)
    requires Agreed(env, r) && forall t :: d.readable(t)
    ensures var c, x := Run(env, moves), r.second.open[0];
            && c != [] && Quiet(c)
            && var bs := Read(c, places);
               var f := AliasIndex.FoldBlocks(map[], d, bs);
               && bs != [] && f.Some? && x in f.value
               && AliasHolder.Holder(d, bs, |bs[|bs| - 1].txs|, x) == Some(s)
               && AliasHolder.WrittenBy(d, bs, x, f.value[x], s, b) && RelayAfter(c, s, x, b)
               && Traced(env, c, b) && !Descends(env, c, s, b)
  {
    AgreedReady(env, r);
    var m, x := Maturity(env.testNet), r.second.open[0];
    var c := RivalChain(r, m, m + 4);
    s, b := Loc(m + 2, 1), Loc(m + 3, 1);
    RivalValid(env, r);
    moves := ValidIsReached(env, c);
    RivalQuiet(r, m, m + 4);
    RelayLine(env, r, m + 4, 3);
    IndexOfRivals(r, m, d, places);
    hide *;
    TracedToo(env, c, Loc(m + 2, 2), b);
  }

  lemma TracedToo(env: Env, c: Chain, s: Loc, b: Loc)
    requires Descends(env, c, s, b)
    ensures Traced(env, c, b)
  {
    var path :| Line(env, c, s, b, path);
  }

  lemma ReadThere(r: Rivals, m: nat, places: nat -> Place, k: nat)
    requires Matched(r) && k < m + 3
    ensures RivalChain(r, m, m + 4) != []
    ensures var bs := Read(RivalChain(r, m, m + 4), places);
            |bs| == m + 3 && bs[k].height == k + 1 && bs[k].txs == BlockAt(r, m, k + 1)
  {
  }

  lemma IndexOfRivals(r: Rivals, m: nat, d: AliasIndex.Disk, places: nat -> Place)
    requires Matched(r) && forall t :: d.readable(t)
    ensures var c, x := RivalChain(r, m, m + 4), r.second.open[0];
            && c != []
            && var bs := Read(c, places);
               var f := AliasIndex.FoldBlocks(map[], d, bs);
               && bs != [] && f.Some? && x in f.value
               && AliasHolder.Holder(d, bs, |bs[|bs| - 1].txs|, x) == Some(Loc(m + 2, 1))
               && AliasHolder.WrittenBy(d, bs, x, f.value[x], Loc(m + 2, 1), Loc(m + 3, 1))
  {
    hide AliasIndex.FoldBlocks, AliasHolder.Holder, AliasIndex.EventOf, RivalChain, Read, BlockAt;
    GenesisThere(r, m, m + 4);
    var c, x := RivalChain(r, m, m + 4), r.second.open[0];
    var bs := Read(c, places);
    NothingRead(r, m, d, places, m + 1);
    ReadThere(r, m, places, m + 1);
    ReadThere(r, m, places, m + 2);
    EventsAt(r, m, d, bs[m + 1]);
    EventsAt(r, m, d, bs[m + 2]);
    HolderIs(d, bs, x);
    AliasHolder.BringsLast(d, bs, 1);
  }
}
