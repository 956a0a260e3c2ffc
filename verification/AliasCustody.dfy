/** The chain of custody of an alias, over every run of connected and disconnected blocks. */
module AliasCustody {
  import opened AliasScript
  import opened AliasPost
  import opened AliasChain

  // ---- Whose op is read

  /** The op of the one alias script. */
  function OwnOp(ss: seq<Script>): nat
    requires Sole(ss).Once?
  {
    ParseAlias(ss[Sole(ss).i], 0).op
  }

  /** The script begins with the opcode of `op`. */
  predicate Begins(s: Script, op: nat) { s != [] && s[0] == OP_1 + op - 1 }

  /** What the last script that begins with OP_1 .. OP_16 leaves. */
  function LastTouch(ss: seq<Script>): (i: int)
    ensures -1 <= i < |ss| && (i >= 0 ==> Touches(ss[i])) && forall k :: i < k < |ss| ==> !Touches(ss[k])
  {
    if ss == [] then -1 else if Touches(ss[|ss| - 1]) then |ss| - 1 else LastTouch(ss[..|ss| - 1])
  }

  lemma {:induction false} OpIsLastTouch(ss: seq<Script>, op0: nat)
    requires !Sole(ss).Many?
    ensures OpAfter(ss, op0) == var i := LastTouch(ss); if i < 0 then op0 else ss[i][0] - OP_1 + 1
  {
    if ss != [] {
      var init := ss[..|ss| - 1];
      OpIsLastTouch(init, op0);
      ParseOp(ss[|ss| - 1], OpAfter(init, op0));
    }
  }

  /** With one alias script, the op read is its own exactly if the last script beginning with OP_1 .. OP_16 begins with
      the same opcode. */
  lemma OpAgreesExactly(ss: seq<Script>, op0: nat)
    requires Sole(ss).Once?
    ensures LastTouch(ss) >= Sole(ss).i
    ensures OpAfter(ss, op0) == OwnOp(ss) <==> ss[LastTouch(ss)][0] == ss[Sole(ss).i][0]
  {
    OpIsLastTouch(ss, op0);
    ParseOp(ss[Sole(ss).i], 0);
  }

  /** A script that is no alias script but begins with OP_1 .. OP_16 takes over the op of the alias script before it. */
  lemma OverwrittenOp()
    ensures var relay := Print(RELAY, [[1], [2]], [DROP2, DROP], [0xac]);
            var other: Script := [OP_1 + 1];
            && Sole([relay, other]) == Once(0) && ArgsOf([relay, other]) == [[1], [2]]
            && OpAfter([relay, other], 0) == SET
  {
    var relay := Print(RELAY, [[1], [2]], [DROP2, DROP], [0xac]);
    var other: Script := [OP_1 + 1];
    PrintedAlias(RELAY, [[1], [2]], [DROP2, DROP], [0xac], 0);
    var ss := [relay, other];
    var one := [relay];
    assert ss[..1] == one && one[..0] == [];
    assert GetOp(other, 0) == Fetch(true, OP_1 + 1, [], 1);
    assert GetOp(other, 1) == Fetch(false, INVALID, [], 1);
    assert !ParseAlias(other, 0).ok && ParseAlias(other, OpAfter([relay], 0)).op == SET;
    assert Sole([relay]) == Once(0);
  }

  lemma {:induction false} SoleIsOnly(ss: seq<Script>, n: nat)
    requires n < |ss| && ParseAlias(ss[n], 0).ok
    ensures !Sole(ss).Nothing? && (Sole(ss).Once? ==> Sole(ss) == Once(n))
  {
    hide ParseAlias;
    if n < |ss| - 1 { SoleIsOnly(ss[..|ss| - 1], n); }
  }

  lemma OwnArity(ss: seq<Script>)
    requires Sole(ss).Once?
    ensures Arity(OwnOp(ss), |ArgsOf(ss)|) && Begins(ss[Sole(ss).i], OwnOp(ss))
  {
    hide Sole;
    ParseOp(ss[Sole(ss).i], 0);
  }

  // ---- Custody

  /** An alias transaction that ConnectInputsPost looks at. */
  predicate Checked(t: Tx) { t.dion && t.kind == Ordinary }

  /** The transaction at `a` is such a one, and its alias script is of this op. */
  ghost predicate Does(c: Chain, a: Loc, op: nat) {
    On(c, a) && Checked(TxAt(c, a)) && Sole(TxAt(c, a).vout).Once? && OwnOp(TxAt(c, a).vout) == op
  }

  ghost function ArgsAt(c: Chain, a: Loc): seq<Bytes>
    requires On(c, a)
  {
    ArgsOf(TxAt(c, a).vout)
  }

  /** The transaction at `b` spends the alias output of the one at `a`. */
  ghost predicate SpendsAlias(c: Chain, a: Loc, b: Loc) {
    && On(c, a) && On(c, b) && Sole(TxAt(c, a).vout).Once?
    && exists k :: 0 <= k < |TxAt(c, b).vin| && TxAt(c, b).vin[k] == Input(a.height, a.index, Sole(TxAt(c, a).vout).i)
  }

  /** A SET opens the commitment of an earlier block's ENCRYPTED output: same owner, and the twenty committed bytes are
      the hash of the random bytes and the alias. */
  ghost predicate Opens(env: Env, c: Chain, a: Loc, b: Loc) {
    && Does(c, a, ENCRYPTED) && Does(c, b, SET) && SpendsAlias(c, a, b) && a.height < b.height
    && var commit, open := ArgsAt(c, a), ArgsAt(c, b);
       && |commit| >= 4 && |open| >= 4 && commit[2] == open[2] && |commit[3]| == 20
       && commit[3] == env.hash160(open[3] + open[0])
  }

  /** A RELAY hands on the same alias, within the monitored number of blocks. */
  ghost predicate HandsOn(env: Env, c: Chain, a: Loc, b: Loc) {
    && (Does(c, a, SET) || Does(c, a, RELAY)) && Does(c, b, RELAY) && SpendsAlias(c, a, b)
    && ArgsAt(c, a) != [] && ArgsAt(c, b) != [] && ArgsAt(c, a)[0] == ArgsAt(c, b)[0]
    && 0 <= b.height - a.height < ScaleMonitor(env.testNet)
  }

  /** From an ENCRYPTED commitment to its SET and on over RELAYs. */
  ghost predicate Custody(env: Env, c: Chain, path: seq<Loc>) {
    && |path| >= 2 && Opens(env, c, path[0], path[1])
    && forall j :: 2 <= j < |path| ==> HandsOn(env, c, path[j - 1], path[j])
  }

  /** Custody leads to the transaction at `b`. */
  ghost predicate Traced(env: Env, c: Chain, b: Loc) {
    exists path :: Custody(env, c, path) && path[|path| - 1] == b
  }

  // ---- The one alias input

  ghost predicate HasSource(c: Chain, b: Loc) {
    On(c, b) && Resolved(c, b) && Sole(Spent(c, b)).Once?
  }

  ghost function Source(c: Chain, b: Loc): Input
    requires HasSource(c, b)
  {
    TxAt(c, b).vin[Sole(Spent(c, b)).i]
  }

  ghost function SourceScript(c: Chain, b: Loc): Script
    requires HasSource(c, b)
  {
    Spent(c, b)[Sole(Spent(c, b)).i]
  }

  lemma SourceStands(c: Chain, b: Loc)
    requires HasSource(c, b)
    ensures var x := Source(c, b);
            && On(c, Where(x)) && Before(Where(x), b) && x.n < |TxAt(c, Where(x)).vout|
            && SourceScript(c, b) == TxAt(c, Where(x)).vout[x.n] && ParseAlias(SourceScript(c, b), 0).ok
            && ArgsOf(Spent(c, b)) == ParseAlias(SourceScript(c, b), 0).args
  {
    hide ParseAlias, Sole;
  }

  /** Only the source can be the alias transaction spent, and a checked one is. */
  lemma OnlySource(env: Env, c: Chain, b: Loc)
    requires Valid(env, c) && HasSource(c, b)
    ensures forall a :: SpendsAlias(c, a, b) ==> a == Where(Source(c, b)) && ArgsAt(c, a) == ArgsOf(Spent(c, b))
    ensures Checked(TxAt(c, Where(Source(c, b)))) ==>
              var a := Where(Source(c, b)); SpendsAlias(c, a, b) && Does(c, a, ParseAlias(SourceScript(c, b), 0).op)
  {
    SourceStands(c, b);
    hide ParseAlias, Sole;
    var x, a := Source(c, b), Where(Source(c, b));
    var t := TxAt(c, a);
    forall a' | SpendsAlias(c, a', b) ensures a' == a && ArgsAt(c, a') == ArgsOf(Spent(c, b)) {
      SpendsSource(c, a', b);
    }
    if Checked(t) {
      assert Passed(env, c, a);
      PassedIsSole(env, t, Spent(c, a), a.height);
      SoleIsOnly(t.vout, x.n);
      assert TxAt(c, b).vin[Sole(Spent(c, b)).i] == Input(a.height, a.index, Sole(t.vout).i);
    }
  }

  lemma SpendsSource(c: Chain, a: Loc, b: Loc)
    requires HasSource(c, b) && SpendsAlias(c, a, b)
    ensures a == Where(Source(c, b)) && ArgsAt(c, a) == ArgsOf(Spent(c, b))
  {
    hide ParseAlias, Sole;
    var s, t := Spent(c, b), TxAt(c, a);
    var k :| 0 <= k < |TxAt(c, b).vin| && TxAt(c, b).vin[k] == Input(a.height, a.index, Sole(t.vout).i);
    assert s[k] == t.vout[Sole(t.vout).i];
    SoleIsOnly(s, k);
  }

  lemma PassedIsSole(env: Env, t: Tx, spent: seq<Script>, h: nat)
    requires |spent| == |t.vin| && t.dion && Post(env, t, spent, h) == Accepted
    ensures Sole(t.vout).Once? && ArgsOf(t.vout) != []
  {
    hide Switch, OpAfter, Sole;
  }

  // ---- One step: RELAY

  /** The alias script spent stands in a checked transaction and begins with the opcode of SET or of RELAY. */
  ghost predicate RelayGuard(c: Chain, b: Loc) {
    && HasSource(c, b) && On(c, Where(Source(c, b))) && Checked(TxAt(c, Where(Source(c, b))))
    && (Begins(SourceScript(c, b), SET) || Begins(SourceScript(c, b), RELAY))
  }

  lemma SwitchTwo(env: Env, t: Tx, spent: seq<Script>, prevOp: nat, prev: seq<Bytes>, op: nat, args: seq<Bytes>,
                  found: bool, h: nat, g: nat)
    requires |args| == 2 && Switch(env, InBlock, t, spent, prevOp, prev, op, args, found, h, g, {}, true) == Accepted
    ensures op == RELAY && found && prev != [] && prev[0] == args[0] && g <= h && h - g < ScaleMonitor(env.testNet)
  {
  }

  /** An alias script with two arguments is only ever accepted as a RELAY, whatever scripts surround it. */
  lemma TwoIsRelay(env: Env, t: Tx, spent: seq<Script>, h: nat)
    requires |spent| == |t.vin| && t.dion && Post(env, t, spent, h) == Accepted
    requires Sole(t.vout).Once? && OwnOp(t.vout) == RELAY
    ensures Sole(spent).Once? && OpAfter(t.vout, env.op0(t)) == RELAY
    ensures ArgsOf(spent) != [] && |ArgsOf(t.vout)| == 2 && ArgsOf(spent)[0] == ArgsOf(t.vout)[0]
    ensures t.vin[Sole(spent).i].height <= h && h - t.vin[Sole(spent).i].height < ScaleMonitor(env.testNet)
  {
    OwnArity(t.vout);
    hide ParseAlias, OpAfter, Sole, ArgsOf, OwnOp, Switch;
    SwitchTwo(env, t, spent, OpAfter(spent, env.prevOp0(t)), ArgsOf(spent), OpAfter(t.vout, env.op0(t)), ArgsOf(t.vout),
              Sole(spent).Once?, h, AliasHeight(t, spent));
  }

  /** The input of an accepted RELAY. */
  lemma RelayInput(env: Env, c: Chain, b: Loc)
    requires Valid(env, c) && Does(c, b, RELAY)
    ensures HasSource(c, b) && ArgsOf(Spent(c, b)) != [] && ArgsAt(c, b) != []
    ensures ArgsOf(Spent(c, b))[0] == ArgsAt(c, b)[0]
    ensures 0 <= b.height - Source(c, b).height < ScaleMonitor(env.testNet)
  {
    hide ParseAlias, Sole, Post, OpAfter, ArgsOf;
    assert Passed(env, c, b);
    TwoIsRelay(env, TxAt(c, b), Spent(c, b), b.height);
  }

  lemma RelayHandsOn(env: Env, c: Chain, b: Loc)
    requires Valid(env, c) && Does(c, b, RELAY) && RelayGuard(c, b)
    ensures HandsOn(env, c, Where(Source(c, b)), b) && Before(Where(Source(c, b)), b)
  {
    RelayInput(env, c, b);
    OnlySource(env, c, b);
    SourceStands(c, b);
    ParseOp(SourceScript(c, b), 0);
    hide ParseAlias, Sole, ArgsOf, Valid, Resolved, Spent;
  }

  lemma RelayNeeds(env: Env, c: Chain, a: Loc, b: Loc)
    requires Valid(env, c) && HasSource(c, b) && HandsOn(env, c, a, b)
    ensures RelayGuard(c, b)
  {
    OnlySource(env, c, b);
    hide ParseAlias, Sole, ArgsOf, Resolved, Spent;
    SourceOp(env, c, b);
  }

  /** An accepted RELAY always spends one alias script of the same alias within the monitored number of blocks; it hands
      that alias on exactly if the script spent is a checked SET or RELAY by its own opcode. */
  lemma RelayStep(env: Env, c: Chain, b: Loc)
    requires Valid(env, c) && Does(c, b, RELAY)
    ensures HasSource(c, b) && ArgsOf(Spent(c, b)) != [] && ArgsAt(c, b) != []
    ensures ArgsOf(Spent(c, b))[0] == ArgsAt(c, b)[0]
    ensures 0 <= b.height - Source(c, b).height < ScaleMonitor(env.testNet)
    ensures (exists a :: HandsOn(env, c, a, b)) <==> RelayGuard(c, b)
    ensures RelayGuard(c, b) ==> HandsOn(env, c, Where(Source(c, b)), b) && Before(Where(Source(c, b)), b)
  {
    RelayInput(env, c, b);
    hide Valid, Does, RelayGuard, HandsOn, HasSource, Source;
    forall a | HandsOn(env, c, a, b) ensures RelayGuard(c, b) {
      RelayNeeds(env, c, a, b);
    }
    if RelayGuard(c, b) { RelayHandsOn(env, c, b); }
  }

  /** What a checked source does is what its script begins with. */
  lemma SourceOp(env: Env, c: Chain, b: Loc)
    requires Valid(env, c) && HasSource(c, b) && On(c, Where(Source(c, b))) && Checked(TxAt(c, Where(Source(c, b))))
    ensures forall op :: Does(c, Where(Source(c, b)), op) ==> Begins(SourceScript(c, b), op)
  {
    OnlySource(env, c, b);
    SourceStands(c, b);
    ParseOp(SourceScript(c, b), 0);
    hide ParseAlias, Sole;
  }

  // ---- One step: SET

  /** The transaction at `b` is read as a SET: the last output script beginning with OP_1 .. OP_16 is one. */
  ghost predicate ReadAsSet(c: Chain, b: Loc) {
    On(c, b) && var ss := TxAt(c, b).vout; LastTouch(ss) >= 0 && Begins(ss[LastTouch(ss)], SET)
  }

  /** The alias script spent stands in a checked transaction, begins with the opcode of ENCRYPTED, and commits to
      twenty bytes. */
  ghost predicate SetGuard(c: Chain, b: Loc) {
    && HasSource(c, b) && On(c, Where(Source(c, b))) && Checked(TxAt(c, Where(Source(c, b))))
    && Begins(SourceScript(c, b), ENCRYPTED) && |ArgsOf(Spent(c, b))| >= 4 && |ArgsOf(Spent(c, b))[3]| == 20
  }

  lemma SetChecked(env: Env, t: Tx, spent: seq<Script>, h: nat)
    requires |spent| == |t.vin| && t.dion && Post(env, t, spent, h) == Accepted && OpAfter(t.vout, env.op0(t)) == SET
    ensures Sole(spent).Once? && OpAfter(spent, env.prevOp0(t)) == ENCRYPTED && env.signed(t, spent)
    ensures var prev, args := ArgsOf(spent), ArgsOf(t.vout);
            |prev| >= 4 && |args| >= 4 && args[2] == prev[2] && AsHash(prev[3]) == env.hash160(args[3] + args[0])
    ensures t.vin[Sole(spent).i].height <= h ==> t.vin[Sole(spent).i].height < h
  {
    hide ParseAlias, OpAfter, Sole;
  }

  /** The input of a SET that is read as one. */
  lemma SetInput(env: Env, c: Chain, b: Loc)
    requires Valid(env, c) && Does(c, b, SET) && ReadAsSet(c, b)
    ensures HasSource(c, b) && Source(c, b).height < b.height
    ensures var prev, args := ArgsOf(Spent(c, b)), ArgsAt(c, b);
            |prev| >= 4 && |args| >= 4 && args[2] == prev[2] && AsHash(prev[3]) == env.hash160(args[3] + args[0])
  {
    hide ParseAlias, Sole, Post, OpAfter, ArgsOf, LastTouch, AsHash;
    var t := TxAt(c, b);
    assert Passed(env, c, b);
    OpIsLastTouch(t.vout, env.op0(t));
    SetChecked(env, t, Spent(c, b), b.height);
    SourceStands(c, b);
  }

  lemma SetOpens(env: Env, c: Chain, b: Loc)
    requires Valid(env, c) && Does(c, b, SET) && ReadAsSet(c, b) && SetGuard(c, b)
    ensures Opens(env, c, Where(Source(c, b)), b)
  {
    SetInput(env, c, b);
    OnlySource(env, c, b);
    SourceStands(c, b);
    ParseOp(SourceScript(c, b), 0);
    hide ParseAlias, Sole, ArgsOf, Valid, Resolved, Spent, ReadAsSet;
  }

  lemma SetNeeds(env: Env, c: Chain, a: Loc, b: Loc)
    requires Valid(env, c) && HasSource(c, b) && Opens(env, c, a, b)
    ensures SetGuard(c, b)
  {
    OnlySource(env, c, b);
    hide ParseAlias, Sole, ArgsOf, Resolved, Spent;
    SourceOp(env, c, b);
  }

  /** A SET read as one opens a commitment exactly if the script spent is a checked ENCRYPTED by its own opcode, with a
      commitment of full length. */
  lemma SetStep(env: Env, c: Chain, b: Loc)
    requires Valid(env, c) && Does(c, b, SET) && ReadAsSet(c, b)
    ensures HasSource(c, b) && Source(c, b).height < b.height
    ensures (exists a :: Opens(env, c, a, b)) <==> SetGuard(c, b)
    ensures SetGuard(c, b) ==> Opens(env, c, Where(Source(c, b)), b)
  {
    SetInput(env, c, b);
    hide Valid, Does, ReadAsSet, SetGuard, Opens, HasSource, Source;
    forall a | Opens(env, c, a, b) ensures SetGuard(c, b) {
      SetNeeds(env, c, a, b);
    }
    if SetGuard(c, b) { SetOpens(env, c, b); }
  }

  /** With five arguments the other branches look at no commitment: they ask for the signature, or for what a RELAY
      needs. */
  lemma SwitchFive(env: Env, t: Tx, spent: seq<Script>, prevOp: nat, prev: seq<Bytes>, op: nat, args: seq<Bytes>,
                   found: bool, h: nat, g: nat)
    requires |args| == 5 && op != SET
    ensures Switch(env, InBlock, t, spent, prevOp, prev, op, args, found, h, g, {}, true) == Accepted <==>
            || (op in [PUBLIC_KEY, VERTEX, ENCRYPTED_MESSAGE, MAP_PROJECT, MESSAGE] && env.signed(t, spent))
            || (op == RELAY && found && (prevOp == SET || prevOp == RELAY) && |args[1]| <= MAX_XUNIT_LENGTH
                && prev != [] && prev[0] == args[0] && g <= h && h - g < ScaleMonitor(env.testNet))
  {
  }

  /** A SET not read as one: accepted exactly on its signature, or as a RELAY. What it opens is not looked at. */
  lemma SetReadOtherwise(env: Env, t: Tx, spent: seq<Script>, h: nat)
    requires |spent| == |t.vin| && t.dion && Sole(t.vout).Once? && OwnOp(t.vout) == SET
    requires OpAfter(t.vout, env.op0(t)) != SET
    ensures var args, prev, op := ArgsOf(t.vout), ArgsOf(spent), OpAfter(t.vout, env.op0(t));
            && |args| == 5
            && (Post(env, t, spent, h) == Accepted <==>
                && !Sole(spent).Many? && |args[0]| <= MAX_LOCATOR_LENGTH
                && (|| (op in [PUBLIC_KEY, VERTEX, ENCRYPTED_MESSAGE, MAP_PROJECT, MESSAGE] && env.signed(t, spent))
                    || (op == RELAY && Sole(spent).Once? && |args[1]| <= MAX_XUNIT_LENGTH && prev != [] && prev[0] == args[0]
                        && (OpAfter(spent, env.prevOp0(t)) == SET || OpAfter(spent, env.prevOp0(t)) == RELAY)
                        && AliasHeight(t, spent) <= h && h - AliasHeight(t, spent) < ScaleMonitor(env.testNet))))
  {
    OwnArity(t.vout);
    hide ParseAlias, OpAfter, Sole, ArgsOf, OwnOp, Switch, AliasHeight;
    SwitchFive(env, t, spent, OpAfter(spent, env.prevOp0(t)), ArgsOf(spent), OpAfter(t.vout, env.op0(t)), ArgsOf(t.vout),
               Sole(spent).Once?, h, AliasHeight(t, spent));
  }

  // ---- The whole chain

  /** Every SET and every RELAY on the chain has an unbroken custody behind it. */
  ghost predicate AllTraced(env: Env, c: Chain) {
    forall b :: Does(c, b, SET) || Does(c, b, RELAY) ==> Traced(env, c, b)
  }

  ghost predicate AllGuarded(c: Chain) {
    forall b :: (Does(c, b, SET) ==> SetGuard(c, b)) && (Does(c, b, RELAY) ==> RelayGuard(c, b))
  }

  ghost predicate SetsReadRight(c: Chain) {
    forall b :: Does(c, b, SET) ==> ReadAsSet(c, b)
  }

  lemma CustodyGrows(env: Env, c: Chain, path: seq<Loc>, b: Loc)
    requires Custody(env, c, path) && HandsOn(env, c, path[|path| - 1], b)
    ensures Custody(env, c, path + [b])
  {
    hide Opens, HandsOn;
    var p := path + [b];
    forall j | 2 <= j < |p| ensures HandsOn(env, c, p[j - 1], p[j]) {
      if j < |path| { assert p[j - 1] == path[j - 1] && p[j] == path[j]; }
    }
  }

  lemma {:induction false} ChainOfCustody(env: Env, c: Chain, b: Loc) returns (path: seq<Loc>)
    requires Valid(env, c) && SetsReadRight(c) && AllGuarded(c) && (Does(c, b, SET) || Does(c, b, RELAY))
    ensures Custody(env, c, path) && path[|path| - 1] == b
    decreases b.height, b.index
  {
    hide Valid, Does, RelayGuard, SetGuard, ReadAsSet, Source;
    if Does(c, b, SET) {
      SetStep(env, c, b);
      path := [Where(Source(c, b)), b];
    } else {
      RelayStep(env, c, b);
      var a := Where(Source(c, b));
      assert Does(c, a, SET) || Does(c, a, RELAY);
      hide HandsOn, Custody;
      var p := ChainOfCustody(env, c, a);
      path := p + [b];
      CustodyGrows(env, c, p, b);
    }
  }

  /** The last step of a custody. */
  lemma LastStep(env: Env, c: Chain, b: Loc)
    requires Traced(env, c, b)
    ensures Does(c, b, SET) ==> exists a :: Opens(env, c, a, b)
    ensures Does(c, b, RELAY) ==> exists a :: HandsOn(env, c, a, b)
  {
    var path :| Custody(env, c, path) && path[|path| - 1] == b;
    var a := path[|path| - 2];
    hide SpendsAlias;
    assert if |path| == 2 then Opens(env, c, a, b) else HandsOn(env, c, a, b);
  }

  /** Where SETs are read as SETs, every SET and every RELAY has its custody if and only if every alias script spent by
      one stands in a checked transaction and begins with the opcode the step calls for. */
  lemma CustodyExactly(env: Env, c: Chain)
    requires Valid(env, c) && SetsReadRight(c)
    ensures AllTraced(env, c) <==> AllGuarded(c)
  {
    hide Valid, Does, RelayGuard, SetGuard, ReadAsSet, Custody, Opens, HandsOn;
    if AllTraced(env, c) {
      forall b ensures (Does(c, b, SET) ==> SetGuard(c, b)) && (Does(c, b, RELAY) ==> RelayGuard(c, b)) {
        if Does(c, b, SET) { LastStep(env, c, b); SetStep(env, c, b); }
        if Does(c, b, RELAY) { LastStep(env, c, b); RelayStep(env, c, b); }
      }
    }
    if AllGuarded(c) {
      forall b | Does(c, b, SET) || Does(c, b, RELAY) ensures Traced(env, c, b) {
        var path := ChainOfCustody(env, c, b);
      }
    }
  }

  // ---- A plain condition

  /** Scripts begin with OP_1 .. OP_16 only in alias scripts, and those stand in checked transactions only. */
  ghost predicate Quiet(c: Chain) {
    forall a, n {:trigger TxAt(c, a).vout[n]} :: On(c, a) && 0 <= n < |TxAt(c, a).vout| && Touches(TxAt(c, a).vout[n]) ==>
      Checked(TxAt(c, a)) && ParseAlias(TxAt(c, a).vout[n], 0).ok
  }

  lemma {:induction false} QuietAgrees(ss: seq<Script>, op0: nat)
    requires forall k :: 0 <= k < |ss| && Touches(ss[k]) ==> ParseAlias(ss[k], 0).ok
    ensures Sole(ss).Nothing? <==> LastTouch(ss) < 0
    ensures Sole(ss).Once? ==> LastTouch(ss) == Sole(ss).i && OpAfter(ss, op0) == OwnOp(ss)
  {
    hide ParseAlias;
    if ss != [] {
      var init, last := ss[..|ss| - 1], ss[|ss| - 1];
      QuietAgrees(init, op0);
      ParseOp(last, 0);
      if Sole(ss).Once? {
        OpIsLastTouch(ss, op0);
        ParseOp(ss[Sole(ss).i], 0);
      }
    }
  }

  lemma QuietOutputs(c: Chain, a: Loc, op0: nat)
    requires Quiet(c) && On(c, a) && Sole(TxAt(c, a).vout).Once?
    ensures var ss := TxAt(c, a).vout; LastTouch(ss) == Sole(ss).i && OpAfter(ss, op0) == OwnOp(ss)
  {
    var t := TxAt(c, a);
    hide ParseAlias, Sole, OpAfter, LastTouch, Touches;
    forall n | 0 <= n < |t.vout| && Touches(t.vout[n]) ensures ParseAlias(t.vout[n], 0).ok {
      assert Touches(TxAt(c, a).vout[n]);
    }
    QuietAgrees(t.vout, op0);
  }

  lemma QuietSource(c: Chain, b: Loc, op0: nat)
    requires Quiet(c) && HasSource(c, b)
    ensures On(c, Where(Source(c, b))) && Checked(TxAt(c, Where(Source(c, b))))
    ensures Begins(SourceScript(c, b), OpAfter(Spent(c, b), op0))
  {
    SourceStands(c, b);
    var s := Spent(c, b);
    hide ParseAlias, Sole, OpAfter, LastTouch;
    forall k | 0 <= k < |s| && Touches(s[k]) ensures ParseAlias(s[k], 0).ok {
      var x := TxAt(c, b).vin[k];
      assert s[k] == TxAt(c, Where(x)).vout[x.n];
    }
    QuietAgrees(s, op0);
    ParseOp(SourceScript(c, b), 0);
    var x := Source(c, b);
    assert Touches(TxAt(c, Where(x)).vout[x.n]);
  }

  lemma QuietRelay(env: Env, c: Chain, b: Loc)
    requires Valid(env, c) && Quiet(c) && Does(c, b, RELAY)
    ensures RelayGuard(c, b)
  {
    RelayStep(env, c, b);
    var t := TxAt(c, b);
    QuietSource(c, b, env.prevOp0(t));
    assert Passed(env, c, b);
    TwoIsRelay(env, t, Spent(c, b), b.height);
    PrevOp(env, t, Spent(c, b), b.height);
  }

  lemma PrevOp(env: Env, t: Tx, spent: seq<Script>, h: nat)
    requires |spent| == |t.vin| && t.dion && Post(env, t, spent, h) == Accepted && OpAfter(t.vout, env.op0(t)) == RELAY
    ensures OpAfter(spent, env.prevOp0(t)) == SET || OpAfter(spent, env.prevOp0(t)) == RELAY
  {
    hide ParseAlias, OpAfter, Sole, ArgsOf;
  }

  lemma QuietSet(env: Env, c: Chain, b: Loc)
    requires Valid(env, c) && Quiet(c) && Does(c, b, SET)
    ensures ReadAsSet(c, b) && SetGuard(c, b)
  {
    var t := TxAt(c, b);
    QuietOutputs(c, b, env.op0(t));
    OwnArity(t.vout);
    SetStep(env, c, b);
    assert Passed(env, c, b);
    SetChecked(env, t, Spent(c, b), b.height);
    QuietSource(c, b, env.prevOp0(t));
    OnlySource(env, c, b);
    var a := Where(Source(c, b));
    var s := TxAt(c, a);
    QuietOutputs(c, a, env.op0(s));
    SourceStands(c, b);
    ParseOp(SourceScript(c, b), 0);
    assert Passed(env, c, a);
    CommitChecked(env, s, Spent(c, a), a.height);
  }

  lemma CommitChecked(env: Env, t: Tx, spent: seq<Script>, h: nat)
    requires |spent| == |t.vin| && t.dion && Post(env, t, spent, h) == Accepted && OpAfter(t.vout, env.op0(t)) == ENCRYPTED
    ensures |ArgsOf(t.vout)| >= 4 && |ArgsOf(t.vout)[3]| == 20
  {
    hide ParseAlias, OpAfter, Sole;
  }

  // ---- Runs

  /** Every run, exactly. */
  lemma EveryRunExactly(env: Env, moves: seq<Move>)
    requires SetsReadRight(Run(env, moves))
    ensures AllTraced(env, Run(env, moves)) <==> AllGuarded(Run(env, moves))
  {
    RunValid(env, moves);
    CustodyExactly(env, Run(env, moves));
  }

  lemma QuietTraced(env: Env, c: Chain)
    requires Valid(env, c) && Quiet(c)
    ensures AllTraced(env, c)
  {
    hide Valid, Quiet, Does, ReadAsSet, SetGuard, RelayGuard, Traced;
    forall b ensures (Does(c, b, SET) ==> ReadAsSet(c, b) && SetGuard(c, b)) && (Does(c, b, RELAY) ==> RelayGuard(c, b)) {
      if Does(c, b, SET) { QuietSet(env, c, b); }
      if Does(c, b, RELAY) { QuietRelay(env, c, b); }
    }
    CustodyExactly(env, c);
  }

  /** Every run: as long as the chain is quiet, each SET and each RELAY on it traces back to its commitment. */
  lemma EveryRun(env: Env, moves: seq<Move>)
    requires Quiet(Run(env, moves))
    ensures AllTraced(env, Run(env, moves))
  {
    RunValid(env, moves);
    QuietTraced(env, Run(env, moves));
  }
}
