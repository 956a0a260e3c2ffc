/** Runs of accepted blocks that break what one would expect: an alias without custody, a RELAY that came too late, a
    block that the index cannot read. */
module AliasGaps {
  import opened AliasScript
  import opened AliasPost
  import opened AliasChain
  import opened AliasCustody
  import opened AliasRuns
  import AliasIndex

  // ---- A stray script among the scripts spent

  function StrayTx(): Tx { Tx(TxId(3), Ordinary, false, [Coin(1)], [Stray(SET)], [COIN]) }

  function TakeTx(p: Parts, m: nat): Tx
    requires Fit(p)
  {
    Tx(TxId(5), Ordinary, true, [Input(m + 1, 1, 0), Input(m + 1, 2, 0)], [Handover(p, p.commit[0])], [0])
  }

  function StrayChain(p: Parts, m: nat): Chain
    requires Fit(p)
  {
    Funds(p, m + 3)[m + 1 := Mined(p, m + 1, [CommitTx(1, 0, p), StrayTx()])][m + 2 := Mined(p, m + 2, [TakeTx(p, m)])]
  }

  lemma StrayShape(p: Parts, m: nat)
    requires Fit(p)
    ensures var c := StrayChain(p, m);
            && |c| == m + 3 && FundsBelow(p, c, m + 1) && c[m + 1] == Mined(p, m + 1, [CommitTx(1, 0, p), StrayTx()])
            && c[m + 2] == Mined(p, m + 2, [TakeTx(p, m)]) && CheckBlock(c[m + 1]) && CheckBlock(c[m + 2])
  {
    hide Commit, Handover, Claim, ParseAlias, Short;
    var x, y, z := CommitTx(1, 0, p), StrayTx(), TakeTx(p, m);
    assert CheckTransaction(x) && CheckTransaction(y) && CheckTransaction(z) by {
      Printed(p);
      PrintedRelay(p, p.commit[0]);
    }
    hide CheckTransaction, CommitTx, StrayTx, TakeTx;
    MinedChecks(p, m + 1, [x, y]);
    MinedChecks(p, m + 2, [z]);
    hide CheckBlock;
  }

  /** Both transactions spend a coin each. */
  lemma CommitBlockPasses(env: Env, p: Parts, c: Chain)
    requires Fit(p) && env.signed(CommitTx(1, 0, p), [p.pay]) && c == StrayChain(p, Maturity(env.testNet))
    ensures BlockPassed(env, c, Maturity(env.testNet) + 1)
  {
    hide StrayChain, Commit, Post, Passed, CheckBlock;
    var m := Maturity(env.testNet);
    StrayShape(p, m);
    CommitAccepted(env, 1, 0, p, p.pay, m + 1);
    NotDion(env, StrayTx(), [p.pay], m + 1);
    var a, b := Loc(m + 1, 1), Loc(m + 1, 2);
    assert TxAt(c, a) == CommitTx(1, 0, p) && TxAt(c, b) == StrayTx();
    CoinTxPasses(env, p, c, a, 0);
    CoinTxPasses(env, p, c, b, 1);
    MinedPasses(env, p, c, m + 1, [CommitTx(1, 0, p), StrayTx()]);
  }

  /** The stray script gives the commitment the op of a SET. */
  lemma TakeAccepted(env: Env, p: Parts, m: nat)
    requires Fit(p)
    ensures Post(env, TakeTx(p, m), [Commit(p), Stray(SET)], m + 2) == Accepted
    ensures ReadAs([Commit(p), Stray(SET)], ENCRYPTED, SET, p.commit)
    ensures ReadAs([Handover(p, p.commit[0])], RELAY, RELAY, [p.commit[0], p.value])
  {
    hide IsAlias, ReadAs, Commit, Claim, Handover, ParseAlias, Post;
    Printed(p);
    PrintedRelay(p, p.commit[0]);
    StrayIsNone(SET);
    var spent := [Commit(p), Stray(SET)];
    TwoRead(Commit(p), ENCRYPTED, p.commit, Stray(SET));
    OneRead(Handover(p, p.commit[0]), RELAY, [p.commit[0], p.value]);
    RelayAccepted(env, TakeTx(p, m), spent, m + 2, ENCRYPTED, SET, p.commit, p.commit[0], p.value);
  }

  lemma TakeReady(env: Env, p: Parts, c: Chain)
    requires Fit(p) && c == StrayChain(p, Maturity(env.testNet))
    ensures var b := Loc(Maturity(env.testNet) + 2, 1);
            && On(c, b) && TxAt(c, b) == TakeTx(p, Maturity(env.testNet)) && Ready(env, c, b)
            && Spent(c, b) == [Commit(p), Stray(SET)]
  {
    hide StrayChain, Commit, Handover, Stray, Ready, CheckBlock;
    var m := Maturity(env.testNet);
    StrayShape(p, m);
    var b := Loc(m + 2, 1);
    assert TxAt(c, Loc(m + 1, 1)) == CommitTx(1, 0, p) && TxAt(c, Loc(m + 1, 2)) == StrayTx() && TxAt(c, b) == TakeTx(p, m);
    assert Usable(env, c, b, Input(m + 1, 1, 0), Commit(p));
    assert Usable(env, c, b, Input(m + 1, 2, 0), Stray(SET)) by {
      NothingBelow(p, c, m + 1);
    }
    hide Usable;
    TwoReady(env, c, b, Input(m + 1, 1, 0), Commit(p), Input(m + 1, 2, 0), Stray(SET));
  }

  lemma TakeBlockPasses(env: Env, p: Parts, c: Chain)
    requires Fit(p) && c == StrayChain(p, Maturity(env.testNet))
    ensures BlockPassed(env, c, Maturity(env.testNet) + 2)
  {
    hide StrayChain, Commit, Handover, Stray, Ready, Post, ReadAs, CheckBlock, Passed;
    var m := Maturity(env.testNet);
    StrayShape(p, m);
    TakeReady(env, p, c);
    TakeAccepted(env, p, m);
    ReadyPasses(env, c, Loc(m + 2, 1));
    MinedPasses(env, p, c, m + 2, [TakeTx(p, m)]);
  }

  /** The RELAY spends the commitment, which is no SET and no RELAY by its own opcode. */
  lemma TakeUnguarded(env: Env, p: Parts, c: Chain)
    requires Fit(p) && c == StrayChain(p, Maturity(env.testNet))
    ensures var b := Loc(Maturity(env.testNet) + 2, 1); Does(c, b, RELAY) && !RelayGuard(c, b)
  {
    hide StrayChain, Commit, Claim, Handover, ParseAlias, Sole, OwnOp, ArgsOf, OpAfter, Spent, Resolved, Matured, Unspent,
      Post;
    TakeReady(env, p, c);
    TakeAccepted(env, p, Maturity(env.testNet));
    Printed(p);
  }

  /** A script spent beside a commitment that merely begins with the opcode of SET lets a RELAY through. */
  lemma StraySpent(env: Env, p: Parts) returns (moves: seq<Move>, b: Loc)
    requires Fit(p) && env.signed(CommitTx(1, 0, p), [p.pay])
    ensures Does(Run(env, moves), b, RELAY) && !Traced(env, Run(env, moves), b)
  {
    hide StrayChain, BlockPassed, Does, RelayGuard, Traced, CheckBlock, CommitTx, StrayTx, TakeTx, Run;
    var m := Maturity(env.testNet);
    var c := StrayChain(p, m);
    b := Loc(m + 2, 1);
    StrayShape(p, m);
    CommitBlockPasses(env, p, c);
    TakeBlockPasses(env, p, c);
    TakeUnguarded(env, p, c);
    BuiltValid(env, p, c);
    NoCustody(env, c, b);
    moves := ValidIsReached(env, c);
  }

  /** Without the guard there is no custody. */
  lemma NoCustody(env: Env, c: Chain, b: Loc)
    requires Valid(env, c) && Does(c, b, RELAY) && !RelayGuard(c, b)
    ensures !Traced(env, c, b)
  {
    hide Valid, Does, RelayGuard, Traced, HandsOn;
    RelayStep(env, c, b);
    if Traced(env, c, b) { LastStep(env, c, b); }
  }

  // ---- A stray script among the outputs of a SET

  function ClaimTx(p: Parts): Tx
    requires Fit(p)
  {
    Tx(TxId(1), Ordinary, true, [Coin(0)], [Claim(p), Stray(MESSAGE)], [0, COIN])
  }

  function ClaimChain(p: Parts, m: nat): Chain
    requires Fit(p)
  {
    Funds(p, m + 2)[m + 1 := Mined(p, m + 1, [ClaimTx(p)])]
  }

  lemma ClaimShape(p: Parts, m: nat)
    requires Fit(p)
    ensures var c := ClaimChain(p, m);
            && |c| == m + 2 && FundsBelow(p, c, m + 1) && c[m + 1] == Mined(p, m + 1, [ClaimTx(p)]) && CheckBlock(c[m + 1])
  {
    hide Commit, Claim, ParseAlias, Short, CheckBlock;
    Printed(p);
    assert CheckTransaction(ClaimTx(p));
    MinedChecks(p, m + 1, [ClaimTx(p)]);
  }

  lemma ClaimRead(p: Parts)
    requires Fit(p)
    ensures ReadAs(ClaimTx(p).vout, SET, MESSAGE, p.open)
  {
    hide IsAlias, ReadAs, Commit, Claim, ParseAlias;
    Printed(p);
    StrayIsNone(MESSAGE);
    TwoRead(Claim(p), SET, p.open, Stray(MESSAGE));
  }

  lemma ClaimPasses(env: Env, p: Parts, c: Chain)
    requires Fit(p) && env.signed(ClaimTx(p), [p.pay]) && c == ClaimChain(p, Maturity(env.testNet))
    ensures BlockPassed(env, c, Maturity(env.testNet) + 1)
    ensures var b := Loc(Maturity(env.testNet) + 1, 1);
            On(c, b) && TxAt(c, b) == ClaimTx(p) && Resolved(c, b) && Spent(c, b) == [p.pay]
  {
    hide ClaimChain, Claim, Stray, ReadAs, Sole, ArgsOf, Post, Passed, CheckBlock;
    var m := Maturity(env.testNet);
    ClaimShape(p, m);
    NoneRead(p.pay);
    ClaimRead(p);
    SignedAccepted(env, ClaimTx(p), [p.pay], m + 1, SET, MESSAGE, p.open);
    var b := Loc(m + 1, 1);
    assert TxAt(c, b) == ClaimTx(p);
    CoinTxPasses(env, p, c, b, 0);
    MinedPasses(env, p, c, m + 1, [ClaimTx(p)]);
  }

  lemma ClaimDoes(p: Parts, c: Chain, b: Loc)
    requires Fit(p) && On(c, b) && TxAt(c, b) == ClaimTx(p)
    ensures Does(c, b, SET)
  {
    hide Claim, Stray, Sole, OwnOp, OpAfter, ArgsOf;
    ClaimRead(p);
  }

  /** An ordinary output is no alias output. */
  lemma NothingSpent(p: Parts, c: Chain, a: Loc, b: Loc)
    requires !Touches(p.pay) && On(c, b) && Resolved(c, b) && Spent(c, b) == [p.pay]
    ensures !SpendsAlias(c, a, b)
  {
    ParseOp(p.pay, 0);
    hide ParseAlias, Sole, Spent, Resolved;
    if SpendsAlias(c, a, b) { SpendsScript(c, a, b); }
  }

  lemma SpendsScript(c: Chain, a: Loc, b: Loc)
    requires SpendsAlias(c, a, b) && Resolved(c, b)
    ensures exists k :: 0 <= k < |Spent(c, b)| && ParseAlias(Spent(c, b)[k], 0).ok
  {
    hide ParseAlias, Sole;
    var ss := TxAt(c, a).vout;
    var k :| 0 <= k < |TxAt(c, b).vin| && TxAt(c, b).vin[k] == Input(a.height, a.index, Sole(ss).i);
    assert Spent(c, b)[k] == ss[Sole(ss).i];
  }

  /** Five arguments and a stray opcode of MESSAGE behind them: a SET that opens nothing is accepted on its signature. */
  lemma StraySet(env: Env, p: Parts) returns (moves: seq<Move>, b: Loc)
    requires Fit(p) && env.signed(ClaimTx(p), [p.pay])
    ensures Does(Run(env, moves), b, SET) && !Traced(env, Run(env, moves), b)
  {
    hide ClaimChain, BlockPassed, Does, SpendsAlias, CheckBlock, ClaimTx, Run, Resolved, Spent, Traced;
    var m := Maturity(env.testNet);
    var c := ClaimChain(p, m);
    b := Loc(m + 1, 1);
    ClaimShape(p, m);
    ClaimPasses(env, p, c);
    ClaimDoes(p, c, b);
    forall a ensures !SpendsAlias(c, a, b) { NothingSpent(p, c, a, b); }
    BuiltValid(env, p, c);
    if Traced(env, c, b) { LastStep(env, c, b); }
    moves := ValidIsReached(env, c);
  }

  // ---- A SET in a coinstake

  /** A coinstake that holds one more script. */
  function StakeTx(p: Parts, s: Script): Tx { Tx(TxId(1), Coinstake, true, [Coin(0)], [[], p.pay, s], [0, COIN, 0]) }

  function StakeBlock(p: Parts, m: nat, s: Script): seq<Tx> {
    [Tx(TxId(2 * (m + 1)), Coinbase, false, [], [[]], [0]), StakeTx(p, s)]
  }

  /** Such a block, and the blocks of height below `n` above it. */
  function StakeChain(p: Parts, m: nat, s: Script, n: nat): Chain
    requires n > m + 1
  {
    Funds(p, n)[m + 1 := StakeBlock(p, m, s)]
  }

  lemma StakeShape(p: Parts, m: nat, s: Script, n: nat)
    requires n > m + 1
    ensures var c := StakeChain(p, m, s, n);
            && |c| == n && FundsBelow(p, c, m + 1) && c[m + 1] == StakeBlock(p, m, s) && CheckBlock(c[m + 1])
            && forall h :: m + 1 < h < n ==> c[h] == Mined(p, h, [])
  {
  }

  /** The stake is never looked at. */
  lemma StakeBlockPasses(env: Env, p: Parts, s: Script, c: Chain)
    requires var m := Maturity(env.testNet); FundsBelow(p, c, m + 1) && |c| > m + 1 && c[m + 1] == StakeBlock(p, m, s)
    ensures BlockPassed(env, c, Maturity(env.testNet) + 1)
  {
    hide Post, Resolved, Spent, Matured, Unspent;
    var m := Maturity(env.testNet);
    var b := Loc(m + 1, 1);
    assert TxAt(c, b) == StakeTx(p, s);
    CoinTxPasses(env, p, c, b, 0);
  }

  lemma StakeValid(env: Env, p: Parts, s: Script, n: nat)
    requires n > Maturity(env.testNet) + 1
    ensures Valid(env, StakeChain(p, Maturity(env.testNet), s, n))
  {
    hide BlockPassed, CheckBlock, StakeBlock;
    var m := Maturity(env.testNet);
    var c := StakeChain(p, m, s, n);
    StakeShape(p, m, s, n);
    StakeBlockPasses(env, p, s, c);
    hide StakeChain;
    BuiltValid(env, p, c);
  }

  function RelayTx(p: Parts, m: nat): Tx
    requires Fit(p)
  {
    Tx(TxId(3), Ordinary, true, [Input(m + 1, 1, 2), Coin(1)], [Handover(p, p.open[0])], [0])
  }

  ghost predicate RelayOnTop(env: Env, p: Parts, c: Chain, h: nat)
    requires Fit(p)
  {
    var m := Maturity(env.testNet);
    && |c| > h > m + 1 && FundsBelow(p, c, m + 1) && c[m + 1] == StakeBlock(p, m, Claim(p))
    && (forall g :: m + 1 < g < h ==> c[g] == Mined(p, g, [])) && c[h] == Mined(p, h, [RelayTx(p, m)])
  }

  /** A RELAY of the SET in the coinstake, at any height where that is mature: all it needs but the age is there. */
  lemma RelayReady(env: Env, p: Parts, c: Chain, h: nat)
    requires Fit(p) && RelayOnTop(env, p, c, h) && h > 2 * Maturity(env.testNet)
    ensures var b := Loc(h, 1);
            && On(c, b) && TxAt(c, b) == RelayTx(p, Maturity(env.testNet)) && Ready(env, c, b)
            && Spent(c, b) == [Claim(p), p.pay]
  {
    hide Handover, Claim;
    var m := Maturity(env.testNet);
    var b := Loc(h, 1);
    NothingBelow(p, c, m + 1);
    assert TxAt(c, Loc(m + 1, 1)) == StakeTx(p, Claim(p)) && TxAt(c, b) == RelayTx(p, m);
    forall a: Loc, x | a.height > m + 1 && Before(a, b) ensures !Spends(c, a, x) {
      if On(c, a) { assert TxAt(c, a).vin == []; }
    }
    assert Usable(env, c, b, Input(m + 1, 1, 2), Claim(p));
    CoinUsable(env, p, c, b, 1);
    TwoReady(env, c, b, Input(m + 1, 1, 2), Claim(p), Coin(1), p.pay);
  }

  lemma RelayReads(p: Parts)
    requires Fit(p)
    ensures ReadAs([Claim(p), p.pay], SET, SET, p.open)
    ensures ReadAs([Handover(p, p.open[0])], RELAY, RELAY, [p.open[0], p.value])
    ensures Handover(p, p.open[0]) != []
  {
    Printed(p);
    PrintedRelay(p, p.open[0]);
    hide ParseAlias, ReadAs, Claim, Handover, Commit;
    BesidePay(Claim(p), SET, p.open, p.pay);
    OneRead(Handover(p, p.open[0]), RELAY, [p.open[0], p.value]);
  }

  lemma RelayChecks(p: Parts, m: nat, h: nat)
    requires Fit(p)
    ensures CheckBlock(Mined(p, h, [RelayTx(p, m)]))
  {
    hide ReadAs, Handover, Claim, CheckBlock;
    RelayReads(p);
    assert CheckTransaction(RelayTx(p, m));
    MinedChecks(p, h, [RelayTx(p, m)]);
  }

  function RelayChain(p: Parts, m: nat): Chain
    requires Fit(p) && m > 0
  {
    StakeChain(p, m, Claim(p), 2 * m + 2)[2 * m + 1 := Mined(p, 2 * m + 1, [RelayTx(p, m)])]
  }

  lemma RelayShape(env: Env, p: Parts)
    requires Fit(p)
    ensures var m := Maturity(env.testNet); var c := RelayChain(p, m);
            && |c| == 2 * m + 2 && RelayOnTop(env, p, c, 2 * m + 1) && CheckBlock(c[m + 1]) && CheckBlock(c[2 * m + 1])
  {
    var m := Maturity(env.testNet);
    StakeShape(p, m, Claim(p), 2 * m + 2);
    RelayChecks(p, m, 2 * m + 1);
    hide StakeChain, Claim, CheckBlock, StakeBlock, Handover, RelayTx;
  }

  lemma RelayBlockPasses(env: Env, p: Parts, c: Chain)
    requires Fit(p) && c == RelayChain(p, Maturity(env.testNet))
    ensures BlockPassed(env, c, 2 * Maturity(env.testNet) + 1)
  {
    hide RelayChain, Claim, Handover, ReadAs, Post, Ready, Passed, CheckBlock, FundsBelow, StakeBlock;
    var m := Maturity(env.testNet);
    RelayShape(env, p);
    RelayReady(env, p, c, 2 * m + 1);
    RelayReads(p);
    RelayAccepted(env, RelayTx(p, m), [Claim(p), p.pay], 2 * m + 1, SET, SET, p.open, p.open[0], p.value);
    ReadyPasses(env, c, Loc(2 * m + 1, 1));
    MinedPasses(env, p, c, 2 * m + 1, [RelayTx(p, m)]);
  }

  /** The RELAY spends what no check has seen. */
  lemma RelayUnguarded(env: Env, p: Parts)
    requires Fit(p)
    ensures var m := Maturity(env.testNet); var c, b := RelayChain(p, m), Loc(2 * m + 1, 1);
            Does(c, b, RELAY) && !RelayGuard(c, b)
  {
    var m := Maturity(env.testNet);
    var c := RelayChain(p, m);
    RelayShape(env, p);
    RelayReady(env, p, c, 2 * m + 1);
    RelayReads(p);
    hide RelayChain, Claim, Handover, CheckBlock, OpAfter, Sole, OwnOp, ArgsOf, ParseAlias, Resolved, Spent,
      Matured, Unspent;
    assert TxAt(c, Loc(m + 1, 1)) == StakeTx(p, Claim(p));
  }

  /** A coinstake is never looked at, so the SET in it opens nothing, and yet a RELAY may spend it once it is mature. */
  lemma UncheckedStake(env: Env, p: Parts) returns (moves: seq<Move>, b: Loc)
    requires Fit(p)
    ensures Does(Run(env, moves), b, RELAY) && !Traced(env, Run(env, moves), b)
  {
    hide BlockPassed, Does, RelayGuard, Traced, CheckBlock, StakeBlock, RelayTx, Run;
    var m := Maturity(env.testNet);
    var c := RelayChain(p, m);
    b := Loc(2 * m + 1, 1);
    RelayShape(env, p);
    StakeBlockPasses(env, p, Claim(p), c);
    RelayBlockPasses(env, p, c);
    RelayUnguarded(env, p);
    hide RelayChain;
    BuiltValid(env, p, c);
    NoCustody(env, c, b);
    moves := ValidIsReached(env, c);
  }

  // ---- A RELAY at the very end of the span

  /** Whatever else it has chosen, as long as the index holds the alias input. */
  ghost predicate MinerTakes(env: Env, tx: Tx, spent: seq<Script>, h: nat)
    requires |spent| == |tx.vin|
  {
    forall pool, pending :: PostIn(env, ForMining(pool), tx, spent, h, pending, true) == Accepted
  }

  /** On the best block at height h - 1 the miner takes the RELAY, and the block that holds it is refused, though all
      else about block and inputs is in order. */
  lemma LateRelay(env: Env, p: Parts) returns (moves: seq<Move>, tx: Tx, spent: seq<Script>)
    requires Fit(p)
    ensures var c := Run(env, moves);
            var h := |c|;
            var b := Mined(p, h, [tx]);
            && h > 0 && CheckBlock(b) && Ready(env, c + [b], Loc(h, 1)) && Spent(c + [b], Loc(h, 1)) == spent
            && |spent| == |tx.vin|
            && MinerTakes(env, tx, spent, h - 1) && InputAge(tx, spent, h) == ScaleMonitor(env.testNet)
            && Post(env, tx, spent, h) != Accepted && !Connects(env, c, b)
  {
    hide CheckBlock, Valid, Run, Post, PostIn, Handover, Claim, Ready, Spent;
    var m := Maturity(env.testNet);
    var h := m + 1 + ScaleMonitor(env.testNet);
    var c := StakeChain(p, m, Claim(p), h);
    tx, spent := RelayTx(p, m), [Claim(p), p.pay];
    var b := Mined(p, h, [tx]);
    StakeShape(p, m, Claim(p), h);
    StakeValid(env, p, Claim(p), h);
    RelayChecks(p, m, h);
    moves := ValidIsReached(env, c);
    LateShape(env, p, c, h);
    RelayReady(env, p, c + [b], h);
    RelayReads(p);
    hide ReadAs;
    RelayAccepted(env, tx, spent, h - 1, SET, SET, p.open, p.open[0], p.value);
    RelayAccepted(env, tx, spent, h, SET, SET, p.open, p.open[0], p.value);
    ReadyPasses(env, c + [b], Loc(h, 1));
    LateAge(p, tx, spent, h);
  }

  lemma LateShape(env: Env, p: Parts, c: Chain, h: nat)
    requires Fit(p) && h > Maturity(env.testNet) + 1 && c == StakeChain(p, Maturity(env.testNet), Claim(p), h)
    ensures RelayOnTop(env, p, c + [Mined(p, h, [RelayTx(p, Maturity(env.testNet))])], h)
  {
    hide Claim, StakeBlock, RelayTx;
    var m := Maturity(env.testNet);
    StakeShape(p, m, Claim(p), h);
    hide StakeChain;
  }

  lemma LateAge(p: Parts, tx: Tx, spent: seq<Script>, h: nat)
    requires |spent| == |tx.vin| > 0 && ReadAs(spent, SET, SET, p.open)
    ensures InputAge(tx, spent, h) == h - tx.vin[0].height
  {
    hide Sole, OwnOp, OpAfter, ArgsOf;
  }

  // ---- A coinstake that filter cannot read

  lemma StrayEvent(p: Parts, d: AliasIndex.Disk, b: AliasIndex.Block, m: nat)
    requires !Touches(p.pay) && b.txs == StakeBlock(p, m, Stray(SET))
    ensures AliasIndex.EventOf(d, b, 1) == AliasIndex.Unread
  {
    StrayIsNone(SET);
    ParseOp([], 0);
    ParseOp(p.pay, 0);
    hide ParseAlias;
    var ss, two, one := [[], p.pay, Stray(SET)], [[], p.pay], [[]];
    assert ss[..2] == two && two[..1] == one && one[..0] == [];
    assert Sole(one).Nothing? && Sole(two).Nothing? && Sole(ss).Nothing?;
    assert !Sole(two).Many?;
    ParseOp(Stray(SET), OpAfter(two, d.op0(b.txs[1])));
  }

  /** An output of a coinstake that merely begins with the opcode of SET: the block is accepted, and filter then reads the
      alias of a transaction without arguments, whatever is in the index. */
  lemma UnreadableStake(env: Env, p: Parts, d: AliasIndex.Disk, file: nat, pos: nat)
      returns (moves: seq<Move>, b: AliasIndex.Block)
    requires !Touches(p.pay)
    ensures var c := Run(env, moves); Valid(env, c) && b == AliasIndex.Block(|c| - 1, file, pos, c[|c| - 1])
    ensures forall m :: AliasIndex.FoldTxs(m, d, b, |b.txs|).None?
    ensures !AliasIndex.AlwaysFiltered(d, b)
  {
    hide Valid, Run, Stray, AliasIndex.EventOf;
    var m := Maturity(env.testNet);
    var c := StakeChain(p, m, Stray(SET), m + 2);
    StakeShape(p, m, Stray(SET), m + 2);
    StakeValid(env, p, Stray(SET), m + 2);
    moves := ValidIsReached(env, c);
    b := AliasIndex.Block(m + 1, file, pos, c[m + 1]);
    StrayEvent(p, d, b, m);
    forall m ensures AliasIndex.FoldTxs(m, d, b, |b.txs|).None? { UnreadAtOne(m, d, b); }
    var none: AliasIndex.Index := map[];
    assert AliasIndex.FoldTxs(none, d, b, |b.txs|).None?;
  }

  lemma UnreadAtOne(m: AliasIndex.Index, d: AliasIndex.Disk, b: AliasIndex.Block)
    requires |b.txs| == 2 && AliasIndex.EventOf(d, b, 1) == AliasIndex.Unread
    ensures AliasIndex.FoldTxs(m, d, b, |b.txs|).None?
  {
    hide AliasIndex.EventOf;
  }
}
