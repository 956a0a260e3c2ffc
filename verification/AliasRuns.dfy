/** What concrete runs are made of: scripts, transactions and chains. */
module AliasRuns {
  import opened Octets
  import opened AliasScript
  import opened AliasPost
  import opened AliasChain
  import opened AliasCustody

  const COIN := 1_0000_0000

  /** What the runs leave open: who may spend the outputs, the arguments of a commitment and of a SET, and what a RELAY
      writes. */
  datatype Parts = Parts(pay: Script, commit: seq<Bytes>, open: seq<Bytes>, value: Bytes)

  /** Arguments of the right number and within their limits. */
  ghost predicate Fit(p: Parts) {
    && !Touches(p.pay) && Short(p.commit) && |p.commit| == 8 && |p.commit[0]| <= MAX_LOCATOR_LENGTH && |p.commit[3]| == 20
    && Short(p.open) && |p.open| == 5 && |p.open[0]| <= MAX_LOCATOR_LENGTH && |p.value| <= MAX_XUNIT_LENGTH
  }

  // ---- Scripts

  function Commit(p: Parts): Script
    requires Fit(p)
  {
    Print(ENCRYPTED, p.commit, [DROP2, DROP2, DROP2, DROP2, DROP], p.pay)
  }

  function Claim(p: Parts): Script
    requires Fit(p)
  {
    Print(SET, p.open, [DROP2, DROP2, DROP2], p.pay)
  }

  function Handover(p: Parts, alias: Bytes): Script
    requires Fit(p) && |alias| <= MAX_LOCATOR_LENGTH
  {
    Print(RELAY, [alias, p.value], [DROP2, DROP], p.pay)
  }

  /** No alias script, but it begins with the opcode of `op`. */
  function Stray(op: nat): Script
    requires 1 <= op <= 16
  {
    [OP_1 + op - 1]
  }

  /** An alias script of this op and these arguments. */
  ghost predicate IsAlias(s: Script, op: nat, args: seq<Bytes>) {
    var r := ParseAlias(s, 0);
    r.ok && r.op == op && r.args == args && Begins(s, op)
  }

  lemma PrintedIs(op: nat, args: seq<Bytes>, drops: seq<Byte>, rest: Script)
    requires 1 <= op <= 16 && Short(args) && Arity(op, |args|) && drops != [] && AllDrops(drops)
    ensures IsAlias(Print(op, args, drops, rest), op, args)
  {
    PrintedAlias(op, args, drops, rest, 0);
    hide ParseAlias, Pushes;
  }

  lemma Printed(p: Parts)
    requires Fit(p)
    ensures IsAlias(Commit(p), ENCRYPTED, p.commit) && IsAlias(Claim(p), SET, p.open)
  {
    hide IsAlias;
    PrintedIs(ENCRYPTED, p.commit, [DROP2, DROP2, DROP2, DROP2, DROP], p.pay);
    PrintedIs(SET, p.open, [DROP2, DROP2, DROP2], p.pay);
  }

  lemma PrintedRelay(p: Parts, alias: Bytes)
    requires Fit(p) && |alias| <= MAX_LOCATOR_LENGTH
    ensures IsAlias(Handover(p, alias), RELAY, [alias, p.value])
  {
    hide IsAlias;
    PrintedIs(RELAY, [alias, p.value], [DROP2, DROP], p.pay);
  }

  lemma StrayIsNone(op: nat)
    requires 1 <= op <= 16
    ensures !ParseAlias(Stray(op), 0).ok && Touches(Stray(op))
  {
    assert GetOp(Stray(op), 0) == Fetch(true, OP_1 + op - 1, [], 1);
    assert GetOp(Stray(op), 1) == Fetch(false, INVALID, [], 1);
  }

  // ---- What the scripts of a transaction are read as

  /** One alias script, in front, of op `own`, and after all of them the op is `op`. */
  ghost predicate ReadAs(ss: seq<Script>, own: nat, op: nat, args: seq<Bytes>) {
    Sole(ss) == Once(0) && OwnOp(ss) == own && ArgsOf(ss) == args && forall op0 :: OpAfter(ss, op0) == op
  }

  lemma NoneRead(s: Script)
    requires !Touches(s)
    ensures Sole([s]).Nothing? && ArgsOf([s]) == []
  {
    ParseOp(s, 0);
    hide ParseAlias;
    var one := [s];
    assert one[..0] == [] && one[0] == s;
  }

  lemma OneRead(s: Script, op: nat, args: seq<Bytes>)
    requires IsAlias(s, op, args)
    ensures ReadAs([s], op, op, args)
  {
    hide ParseAlias;
    var one := [s];
    assert one[..0] == [] && one[0] == s;
    assert Sole(one) == Once(0);
    forall op0 ensures OpAfter(one, op0) == op {
      ParseOp(s, op0);
      assert OpAfter(one, op0) == ParseAlias(s, op0).op;
    }
  }

  /** A second script that is no alias script may leave its op behind. */
  lemma TwoRead(s: Script, op: nat, args: seq<Bytes>, t: Script)
    requires IsAlias(s, op, args) && !ParseAlias(t, 0).ok
    ensures ReadAs([s, t], op, if Touches(t) then t[0] - OP_1 + 1 else op, args)
  {
    OneRead(s, op, args);
    hide ParseAlias;
    var two, one := [s, t], [s];
    assert two[..1] == one && two[0] == s && two[1] == t;
    forall op0 ensures OpAfter(two, op0) == if Touches(t) then t[0] - OP_1 + 1 else op { ParseOp(t, OpAfter(one, op0)); }
  }

  lemma BesidePay(s: Script, op: nat, args: seq<Bytes>, pay: Script)
    requires IsAlias(s, op, args) && !Touches(pay)
    ensures ReadAs([s, pay], op, op, args)
  {
    ParseOp(pay, 0);
    TwoRead(s, op, args, pay);
  }

  // ---- What ConnectInputsPost says of them

  /** A commitment, or a message, that spends no alias script. */
  lemma SignedAccepted(env: Env, t: Tx, spent: seq<Script>, h: nat, own: nat, op: nat, args: seq<Bytes>)
    requires |spent| == |t.vin| && t.dion && env.signed(t, spent) && Sole(spent).Nothing? && ArgsOf(spent) == []
    requires ReadAs(t.vout, own, op, args) && args != [] && |args[0]| <= MAX_LOCATOR_LENGTH
    requires (op == ENCRYPTED && |args| == 8 && |args[3]| == 20) || (op == MESSAGE && |args| == 5)
    ensures Post(env, t, spent, h) == Accepted
  {
    hide OpAfter, ParseAlias, Sole, ArgsOf;
  }

  /** The SET opens the commitment. */
  ghost predicate Opening(env: Env, p: Parts) {
    && Fit(p) && p.open[2] == p.commit[2] && |p.open[2]| <= MAX_XUNIT_LENGTH && |p.open[3]| <= 20
    && p.commit[3] == env.hash160(p.open[3] + p.open[0])
  }

  lemma SetAccepted(env: Env, t: Tx, spent: seq<Script>, h: nat, p: Parts)
    requires |spent| == |t.vin| > 0 && t.dion && env.signed(t, spent) && Opening(env, p) && t.vin[0].height < h
    requires ReadAs(spent, ENCRYPTED, ENCRYPTED, p.commit) && ReadAs(t.vout, SET, SET, p.open)
    ensures Post(env, t, spent, h) == Accepted
  {
    hide OpAfter, ParseAlias, Sole, ArgsOf;
  }

  lemma RelayAccepted(env: Env, t: Tx, spent: seq<Script>, h: nat, own: nat, op: nat, prev: seq<Bytes>, alias: Bytes,
                      value: Bytes)
    requires |spent| == |t.vin| > 0 && t.dion && ReadAs(spent, own, op, prev) && ReadAs(t.vout, RELAY, RELAY, [alias, value])
    requires (op == SET || op == RELAY) && prev != [] && prev[0] == alias && |alias| <= MAX_LOCATOR_LENGTH
    requires |value| <= MAX_XUNIT_LENGTH
    ensures Post(env, t, spent, h) == Accepted <==> 0 <= h - t.vin[0].height < ScaleMonitor(env.testNet)
    ensures 0 <= h - t.vin[0].height < ScaleMonitor(env.testNet) ==>
              forall pool, pending :: PostIn(env, ForMining(pool), t, spent, h, pending, true) == Accepted
  {
    hide OpAfter, ParseAlias, Sole, ArgsOf;
  }

  lemma NotDion(env: Env, t: Tx, spent: seq<Script>, h: nat)
    requires |spent| == |t.vin| && !t.dion
    ensures Post(env, t, spent, h) == Accepted
  {
  }

  // ---- Chains

  /** The coinbase of the block at height `h`. */
  function Fund(p: Parts, h: nat): Tx {
    Tx(TxId(2 * h), Coinbase, false, [], [p.pay, p.pay, p.pay, p.pay, p.pay, p.pay], [COIN, COIN, COIN, COIN, COIN, COIN])
  }

  /** A block of `txs` behind such a coinbase. */
  function Mined(p: Parts, h: nat, txs: seq<Tx>): seq<Tx> { [Fund(p, h)] + txs }

  /** Blocks with a coinbase each. */
  function Funds(p: Parts, n: nat): Chain {
    seq(n, h requires 0 <= h => if h == 0 then Genesis() else Mined(p, h, []))
  }

  /** Output `k` of the first coinbase. */
  function Coin(k: nat): Input { Input(1, 0, k) }

  /** Every transaction of the block at height `h` was let through. */
  ghost predicate BlockPassed(env: Env, c: Chain, h: nat) {
    forall a :: On(c, a) && a.height == h ==> Passed(env, c, a)
  }

  lemma FundChecks(p: Parts, h: nat)
    ensures CheckBlock(Mined(p, h, []))
  {
  }

  lemma BuiltValid(env: Env, p: Parts, c: Chain)
    requires c != [] && c[0] == Genesis()
    requires forall h :: 0 < h < |c| ==> c[h] == Mined(p, h, []) || (CheckBlock(c[h]) && BlockPassed(env, c, h))
    ensures Valid(env, c)
  {
    hide Resolved, Spent, Matured, Unspent, Post, CheckBlock;
    forall h | 0 < h < |c| ensures CheckBlock(c[h]) {
      FundChecks(p, h);
    }
    forall a | On(c, a) && a.height > 0 ensures Passed(env, c, a) {
      if c[a.height] == Mined(p, a.height, []) { assert TxAt(c, a) == Fund(p, a.height); }
    }
  }

  lemma MinedChecks(p: Parts, h: nat, txs: seq<Tx>)
    requires forall i :: 0 <= i < |txs| ==> txs[i].kind == Ordinary && CheckTransaction(txs[i])
    ensures CheckBlock(Mined(p, h, txs))
  {
    assert CheckTransaction(Fund(p, h));
    hide CheckTransaction, Fund;
  }

  /** Below height `n` there are coinbases only. */
  ghost predicate FundsBelow(p: Parts, c: Chain, n: nat) {
    0 < n <= |c| && c[0] == Genesis() && forall h :: 0 < h < n ==> c[h] == Mined(p, h, [])
  }

  /** So nothing is spent there. */
  lemma NothingBelow(p: Parts, c: Chain, n: nat)
    requires FundsBelow(p, c, n)
    ensures forall b: Loc, x :: b.height < n ==> !Spends(c, b, x)
  {
    forall b: Loc, x | b.height < n && On(c, b) ensures !Spends(c, b, x) {
      assert b.height > 0 ==> c[b.height] == Mined(p, b.height, []);
      assert TxAt(c, b).vin == [];
    }
  }

  // ---- Spending

  /** The transaction at `a` may spend the output, whose script is `s`. */
  ghost predicate Usable(env: Env, c: Chain, a: Loc, x: Input, s: Script) {
    && 0 < x.height && On(c, Where(x)) && Before(Where(x), a)
    && var t := TxAt(c, Where(x));
       && x.n < |t.vout| && t.vout[x.n] == s
       && (t.kind == Ordinary || a.height - x.height >= Maturity(env.testNet))
       && (SpentBefore(c, a, x) ==> ValueOf(t, x.n) == 0)
  }

  ghost predicate Ready(env: Env, c: Chain, a: Loc)
    requires On(c, a)
  {
    Resolved(c, a) && Matured(env, c, a) && Unspent(c, a)
  }

  lemma ReadyPasses(env: Env, c: Chain, a: Loc)
    requires On(c, a) && Ready(env, c, a)
    ensures Passed(env, c, a) <==> TxAt(c, a).kind != Ordinary || Post(env, TxAt(c, a), Spent(c, a), a.height) == Accepted
  {
    hide Post, Spent, Matured, Unspent;
  }

  lemma OneReady(env: Env, c: Chain, a: Loc, x: Input, s: Script)
    requires On(c, a) && TxAt(c, a).vin == [x] && Usable(env, c, a, x, s)
    ensures Ready(env, c, a) && Spent(c, a) == [s]
  {
    hide SpentBefore;
    assert Resolved(c, a);
  }

  lemma TwoReady(env: Env, c: Chain, a: Loc, x: Input, s: Script, y: Input, t: Script)
    requires On(c, a) && TxAt(c, a).vin == [x, y] && Usable(env, c, a, x, s) && Usable(env, c, a, y, t)
    ensures Ready(env, c, a) && Spent(c, a) == [s, t]
  {
    hide SpentBefore;
    assert Resolved(c, a);
  }

  lemma CoinUsable(env: Env, p: Parts, c: Chain, a: Loc, k: nat)
    requires |c| > 1 && c[1] == Mined(p, 1, []) && k < 6 && a.height > Maturity(env.testNet)
    requires !SpentBefore(c, a, Coin(k))
    ensures Usable(env, c, a, Coin(k), p.pay)
  {
    hide SpentBefore;
    assert TxAt(c, Loc(1, 0)) == Fund(p, 1);
  }

  /** A transaction that spends one output of the first coinbase as soon as it can. */
  lemma CoinTxPasses(env: Env, p: Parts, c: Chain, a: Loc, k: nat)
    requires On(c, a) && a.height == Maturity(env.testNet) + 1 && FundsBelow(p, c, a.height) && k < 6
    requires forall i :: 0 <= i < a.index ==> Coin(k) !in c[a.height][i].vin
    requires var t := TxAt(c, a);
             t.vin == [Coin(k)] && (t.kind == Ordinary ==> Post(env, t, [p.pay], a.height) == Accepted)
    ensures Passed(env, c, a) && Resolved(c, a) && Spent(c, a) == [p.pay]
  {
    hide Post, Ready, Usable, Passed;
    NothingBelow(p, c, a.height);
    forall b | Before(b, a) ensures !Spends(c, b, Coin(k)) {
    }
    CoinUsable(env, p, c, a, k);
    OneReady(env, c, a, Coin(k), p.pay);
    ReadyPasses(env, c, a);
    ReadyResolved(env, c, a);
  }

  lemma ReadyResolved(env: Env, c: Chain, a: Loc)
    requires On(c, a) && Ready(env, c, a)
    ensures Resolved(c, a)
  {
  }

  lemma MinedPasses(env: Env, p: Parts, c: Chain, h: nat, txs: seq<Tx>)
    requires h < |c| && c[h] == Mined(p, h, txs) && forall i :: 1 <= i <= |txs| ==> Passed(env, c, Loc(h, i))
    ensures BlockPassed(env, c, h)
  {
    hide Resolved, Spent, Matured, Unspent, Post;
    forall a | On(c, a) && a.height == h ensures Passed(env, c, a) {
      if a.index == 0 { assert TxAt(c, a) == Fund(p, h); } else { assert a == Loc(h, a.index); }
    }
  }

  // ---- Committing

  /** A commitment paid for with a coin. */
  function CommitTx(id: nat, k: nat, p: Parts): Tx
    requires Fit(p)
  {
    Tx(TxId(id), Ordinary, true, [Coin(k)], [Commit(p)], [0])
  }

  lemma CommitAccepted(env: Env, id: nat, k: nat, p: Parts, pay: Script, h: nat)
    requires Fit(p) && !Touches(pay) && env.signed(CommitTx(id, k, p), [pay])
    ensures Post(env, CommitTx(id, k, p), [pay], h) == Accepted
  {
    hide IsAlias, ReadAs, Commit, Claim, Sole, ArgsOf, Post;
    NoneRead(pay);
    Printed(p);
    OneRead(Commit(p), ENCRYPTED, p.commit);
    SignedAccepted(env, CommitTx(id, k, p), [pay], h, ENCRYPTED, ENCRYPTED, p.commit);
  }
}
