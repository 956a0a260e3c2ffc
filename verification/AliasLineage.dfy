/** Lines of custody: how they branch, and which SET a RELAY descends from. */
module AliasLineage {
  import opened AliasScript
  import opened AliasPost
  import opened AliasChain
  import opened AliasCustody

  // ---- Backwards there is one line only

  /** A checked transaction that spends an alias output has it as its one alias input. */
  lemma SpenderHasSource(env: Env, c: Chain, a: Loc, b: Loc)
    requires Valid(env, c) && SpendsAlias(c, a, b) && Checked(TxAt(c, b)) && b.height > 0
    ensures HasSource(c, b) && a == Where(Source(c, b))
  {
    hide ParseAlias, Sole, Post;
    assert Passed(env, c, b);
    var ss, spent := TxAt(c, a).vout, Spent(c, b);
    var k :| 0 <= k < |TxAt(c, b).vin| && TxAt(c, b).vin[k] == Input(a.height, a.index, Sole(ss).i);
    assert spent[k] == ss[Sole(ss).i];
    SoleIsOnly(spent, k);
    NotMany(env, TxAt(c, b), spent, b.height);
    OnlySource(env, c, b);
  }

  lemma NotMany(env: Env, t: Tx, spent: seq<Script>, h: nat)
    requires |spent| == |t.vin| && t.dion && Post(env, t, spent, h) == Accepted
    ensures !Sole(spent).Many?
  {
  }

  /** What the last step of a custody spends is the source of its last transaction. */
  lemma LastFromSource(env: Env, c: Chain, path: seq<Loc>)
    requires Valid(env, c) && Custody(env, c, path)
    ensures var b := path[|path| - 1]; HasSource(c, b) && path[|path| - 2] == Where(Source(c, b))
    ensures if |path| == 2 then Does(c, path[|path| - 1], SET) else Does(c, path[|path| - 1], RELAY)
  {
    hide Valid, SpendsAlias, HasSource, Sole, OwnOp, ArgsOf, ArgsAt;
    var a, b := path[|path| - 2], path[|path| - 1];
    assert if |path| == 2 then Opens(env, c, a, b) else HandsOn(env, c, a, b);
    GenesisDoes(env, c, b);
    SpenderHasSource(env, c, a, b);
  }

  lemma GenesisDoes(env: Env, c: Chain, b: Loc)
    requires Valid(env, c) && (Does(c, b, SET) || Does(c, b, RELAY))
    ensures b.height > 0
  {
    hide Sole, OwnOp;
  }

  lemma CustodyCut(env: Env, c: Chain, path: seq<Loc>)
    requires Custody(env, c, path) && |path| > 2
    ensures Custody(env, c, path[..|path| - 1])
  {
    hide Opens, HandsOn;
  }

  /** Custody of a transaction is one path: its commitment, its SET and every RELAY on the way are determined. */
  lemma {:induction false} OnePath(env: Env, c: Chain, p: seq<Loc>, q: seq<Loc>)
    requires Valid(env, c) && Custody(env, c, p) && Custody(env, c, q) && p[|p| - 1] == q[|q| - 1]
    ensures p == q
  {
    hide Valid, Custody, HasSource, Source;
    CustodyLong(env, c, p);
    CustodyLong(env, c, q);
    LastFromSource(env, c, p);
    LastFromSource(env, c, q);
    OneOp(c, p[|p| - 1]);
    if |p| > 2 {
      CustodyCut(env, c, p);
      CustodyCut(env, c, q);
      OnePath(env, c, p[..|p| - 1], q[..|q| - 1]);
      assert p == p[..|p| - 1] + [p[|p| - 1]] && q == q[..|q| - 1] + [q[|q| - 1]];
    }
  }

  lemma CustodyLong(env: Env, c: Chain, p: seq<Loc>)
    requires Custody(env, c, p)
    ensures |p| >= 2
  {
  }

  lemma OneOp(c: Chain, b: Loc)
    ensures !(Does(c, b, SET) && Does(c, b, RELAY))
  {
  }

  // ---- Forwards there is one if the outputs are worth something

  /** An output of positive value is spent by one transaction at most. */
  lemma OneSpender(env: Env, c: Chain, x: Input, a: Loc, b: Loc)
    requires Valid(env, c) && Spends(c, a, x) && Spends(c, b, x) && On(c, Where(x))
    requires ValueOf(TxAt(c, Where(x)), x.n) > 0
    ensures a == b
  {
    hide Valid;
    SpentInOrder(env, c, a, x);
  }

  /** The value of the alias output. */
  ghost function AliasValue(c: Chain, a: Loc): nat {
    if On(c, a) && Sole(TxAt(c, a).vout).Once? then ValueOf(TxAt(c, a), Sole(TxAt(c, a).vout).i) else 0
  }

  /** An alias output of positive value has one successor at most. */
  lemma OneHeir(env: Env, c: Chain, a: Loc, b: Loc, b': Loc)
    requires Valid(env, c) && SpendsAlias(c, a, b) && SpendsAlias(c, a, b') && AliasValue(c, a) > 0
    ensures b == b'
  {
    hide Sole, Valid;
    var x := Input(a.height, a.index, Sole(TxAt(c, a).vout).i);
    assert Spends(c, b, x) && Spends(c, b', x);
    OneSpender(env, c, x, b, b');
  }

  lemma StepSpends(env: Env, c: Chain, p: seq<Loc>, j: nat)
    requires Custody(env, c, p) && 2 <= j < |p|
    ensures SpendsAlias(c, p[j - 1], p[j])
  {
    hide SpendsAlias, Opens, Does, ArgsAt;
  }

  /** Two custodies from the same SET on are one line, the longer one going on where the shorter one ends, if what the
      shorter one hands on is worth something. */
  lemma {:induction false} SingleLine(env: Env, c: Chain, p: seq<Loc>, q: seq<Loc>)
    requires Valid(env, c) && Custody(env, c, p) && Custody(env, c, q) && p[1] == q[1] && |p| <= |q|
    requires forall j :: 1 <= j < |p| - 1 ==> AliasValue(c, p[j]) > 0
    ensures p == q[..|p|]
  {
    hide Valid, AliasValue, SpendsAlias, Opens, HandsOn;
    if |p| == 2 {
      OnePath(env, c, p, q[..2]);
    } else {
      var k := |p| - 1;
      CustodyCut(env, c, p);
      SingleLine(env, c, p[..k], q);
      assert p[..k][k - 1] == p[k - 1] && q[..k][k - 1] == q[k - 1];
      StepSpends(env, c, p, k);
      StepSpends(env, c, q, k);
      OneHeir(env, c, p[k - 1], p[k], q[k]);
      assert p == p[..k] + [p[k]] && q[..|p|] == q[..k] + [q[k]];
    }
  }

  // ---- Which SET a RELAY descends from

  /** Custody leads from the SET at `s` to the transaction at `b`. */
  ghost predicate Descends(env: Env, c: Chain, s: Loc, b: Loc) { exists path :: Line(env, c, s, b, path) }

  ghost predicate Line(env: Env, c: Chain, s: Loc, b: Loc, path: seq<Loc>) {
    |path| >= 2 && Custody(env, c, path) && path[1] == s && path[|path| - 1] == b
  }

  lemma DescendsRelay(env: Env, c: Chain, s: Loc, b: Loc)
    requires Valid(env, c) && Does(c, b, RELAY) && Descends(env, c, s, b)
    ensures HasSource(c, b) && Descends(env, c, s, Where(Source(c, b)))
  {
    hide Valid, Does, HasSource, Source, Custody;
    var path :| Line(env, c, s, b, path);
    LastFromSource(env, c, path);
    OneOp(c, b);
    CustodyCut(env, c, path);
    assert Line(env, c, s, Where(Source(c, b)), path[..|path| - 1]);
  }

  lemma EndDoes(env: Env, c: Chain, s: Loc, a: Loc)
    requires Valid(env, c) && Descends(env, c, s, a)
    ensures Does(c, a, SET) || Does(c, a, RELAY)
  {
    hide Valid, Does, HasSource, Source, Custody;
    var path :| Line(env, c, s, a, path);
    LastFromSource(env, c, path);
  }

  lemma CheckedGuard(env: Env, c: Chain, b: Loc)
    requires Valid(env, c) && HasSource(c, b)
    requires var a := Where(Source(c, b)); Does(c, a, SET) || Does(c, a, RELAY)
    ensures RelayGuard(c, b)
  {
    SourceStands(c, b);
    SourceOp(env, c, b);
    hide Sole, OwnOp, ParseAlias, Resolved, Spent;
  }

  /** A RELAY descends from a SET exactly if what it spends does. */
  lemma DescendsStep(env: Env, c: Chain, s: Loc, b: Loc)
    requires Valid(env, c) && Does(c, b, RELAY)
    ensures HasSource(c, b) && (Descends(env, c, s, b) <==> Descends(env, c, s, Where(Source(c, b))))
  {
    hide Valid, Does, HasSource, Source, Custody, RelayGuard, HandsOn;
    RelayStep(env, c, b);
    var a := Where(Source(c, b));
    if Descends(env, c, s, b) { DescendsRelay(env, c, s, b); }
    if Descends(env, c, s, a) {
      EndDoes(env, c, s, a);
      CheckedGuard(env, c, b);
      var path :| Line(env, c, s, a, path);
      CustodyGrows(env, c, path, b);
      assert Line(env, c, s, b, path + [b]);
    }
  }

  /** No transaction descends from two SETs. */
  lemma OneRoot(env: Env, c: Chain, s: Loc, t: Loc, b: Loc)
    requires Valid(env, c) && Descends(env, c, s, b) && Descends(env, c, t, b)
    ensures s == t
  {
    hide Valid, Custody;
    var p :| Line(env, c, s, b, p);
    var q :| Line(env, c, t, b, q);
    OnePath(env, c, p, q);
  }

  /** A SET that opens a commitment descends from itself. */
  lemma SetDescends(env: Env, c: Chain, s: Loc)
    requires Valid(env, c) && Does(c, s, SET) && Traced(env, c, s)
    ensures Descends(env, c, s, s)
  {
    hide Valid, Does, HasSource, Source, Opens, HandsOn;
    var path :| Custody(env, c, path) && path[|path| - 1] == s;
    LastFromSource(env, c, path);
    OneOp(c, s);
    assert Line(env, c, s, s, path);
  }

  /** On the line of the SET at `s`, as far as places tell: the SET itself, or a RELAY after it. */
  ghost predicate After(c: Chain, s: Loc, b: Loc) { b == s || (Does(c, b, RELAY) && Before(s, b)) }

  lemma {:induction false} DescendsAfter(env: Env, c: Chain, path: seq<Loc>)
    requires Valid(env, c) && Custody(env, c, path)
    ensures After(c, path[1], path[|path| - 1])
  {
    hide Valid, Does, HasSource, Source;
    LastFromSource(env, c, path);
    if |path| > 2 {
      CustodyCut(env, c, path);
      hide Custody;
      DescendsAfter(env, c, path[..|path| - 1]);
      SourceStands(c, path[|path| - 1]);
    }
  }

  ghost predicate Names(c: Chain, b: Loc, x: Bytes) { On(c, b) && ArgsAt(c, b) != [] && ArgsAt(c, b)[0] == x }

  /** A RELAY of the alias after the SET at `s`. */
  ghost predicate RelayAfter(c: Chain, s: Loc, x: Bytes, b: Loc) { Does(c, b, RELAY) && Names(c, b, x) && Before(s, b) }

  /** Every RELAY of the alias after the SET at `s` spends that SET or a RELAY after it. */
  ghost predicate OnlyFrom(c: Chain, s: Loc, x: Bytes) {
    forall b :: RelayAfter(c, s, x, b) ==> HasSource(c, b) && After(c, s, Where(Source(c, b)))
  }

  /** What a RELAY spends names the same alias. */
  lemma SourceNames(env: Env, c: Chain, b: Loc, x: Bytes)
    requires Valid(env, c) && Does(c, b, RELAY) && Names(c, b, x)
    requires HasSource(c, b) && Does(c, Where(Source(c, b)), RELAY)
    ensures Names(c, Where(Source(c, b)), x)
  {
    hide ParseAlias, Sole, OwnOp, ArgsOf, Valid, Resolved, Spent;
    RelayStep(env, c, b);
    OnlySource(env, c, b);
  }

  lemma {:induction false} FromLine(env: Env, c: Chain, s: Loc, x: Bytes, b: Loc)
    requires Valid(env, c) && Descends(env, c, s, s) && OnlyFrom(c, s, x) && RelayAfter(c, s, x, b)
    ensures Descends(env, c, s, b)
    decreases b.height, b.index
  {
    hide Valid, Does, HasSource, Source, Descends, Names;
    assert HasSource(c, b) && After(c, s, Where(Source(c, b)));
    DescendsStep(env, c, s, b);
    var a := Where(Source(c, b));
    if a != s {
      SourceStands(c, b);
      SourceNames(env, c, b, x);
      FromLine(env, c, s, x, a);
    }
  }

  /** All RELAYs of an alias after its SET descend from that SET if and only if each spends the SET or a RELAY after
      it. */
  lemma LineExactly(env: Env, c: Chain, s: Loc, x: Bytes)
    requires Valid(env, c) && Does(c, s, SET) && Traced(env, c, s)
    ensures (forall b :: RelayAfter(c, s, x, b) ==> Descends(env, c, s, b)) <==> OnlyFrom(c, s, x)
  {
    hide Valid, Does, HasSource, Source, Custody, Traced, Names;
    SetDescends(env, c, s);
    if forall b :: RelayAfter(c, s, x, b) ==> Descends(env, c, s, b) {
      forall b | RelayAfter(c, s, x, b) ensures HasSource(c, b) && After(c, s, Where(Source(c, b))) {
        DescendsStep(env, c, s, b);
        var path :| Line(env, c, s, Where(Source(c, b)), path);
        DescendsAfter(env, c, path);
      }
    }
    if OnlyFrom(c, s, x) {
      forall b | RelayAfter(c, s, x, b) ensures Descends(env, c, s, b) { FromLine(env, c, s, x, b); }
    }
  }
}
