/** Whose entry the alias index holds: the SET that took the alias over, and the line of custody behind the entry. */
module AliasHolder {
  import opened Options
  import opened AliasScript
  import opened AliasPost
  import opened AliasChain
  import opened AliasCustody
  import opened AliasLineage
  import opened AliasIndex

  // ---- The SET that holds an alias

  ghost predicate Inside(bs: seq<Block>, i: nat) { bs != [] ==> i <= |bs[|bs| - 1].txs| }

  /** The index after all blocks but the last and the first `i` transactions of that. */
  ghost function FoldTo(d: Disk, bs: seq<Block>, i: nat): Option<Index>
    requires Inside(bs, i)
  {
    if bs == [] then Some(map[])
    else
      var r := FoldBlocks(map[], d, bs[..|bs| - 1]);
      if r.None? then None else FoldTxs(r.value, d, bs[|bs| - 1], i)
  }

  /** Transaction `i` of the last block is a SET of the alias, and it is free. */
  ghost predicate TakesOver(d: Disk, bs: seq<Block>, i: nat, x: Bytes)
    requires bs != [] && i < |bs[|bs| - 1].txs|
  {
    var b, r := bs[|bs| - 1], FoldTo(d, bs, i);
    && EventOf(d, b, i).SetAlias? && EventOf(d, b, i).alias == x && r.Some?
    && (x in r.value ==> Overdue(r.value[x].height, b.height, ScaleMonitor(d.testNet)))
  }

  /** The last SET that took the alias over. */
  ghost function Holder(d: Disk, bs: seq<Block>, i: nat, x: Bytes): Option<Loc>
    requires Inside(bs, i)
    decreases |bs|, i
  {
    if bs == [] then None
    else if i > 0 then
      if TakesOver(d, bs, i - 1, x) then Some(Loc(bs[|bs| - 1].height, i - 1)) else Holder(d, bs, i - 1, x)
    else
      var init := bs[..|bs| - 1];
      Holder(d, init, if init == [] then 0 else |init[|init| - 1].txs|, x)
  }

  ghost predicate Climbing(bs: seq<Block>) { forall i, j :: 0 <= i < j < |bs| ==> bs[i].height < bs[j].height }

  /** The event of the transaction at `b`. */
  ghost predicate Brings(d: Disk, bs: seq<Block>, b: Loc, ev: Event) {
    exists k {:trigger bs[k]} ::
      0 <= k < |bs| && bs[k].height == b.height && b.index < |bs[k].txs| && EventOf(d, bs[k], b.index) == ev
  }

  /** The place lies in what has been read. */
  ghost predicate Reached(bs: seq<Block>, i: nat, s: Loc) {
    bs != [] && var h := bs[|bs| - 1].height; s.height < h || (s.height == h && s.index < i)
  }

  /** The entry was written by the SET at `s`, or by a RELAY after it. */
  ghost predicate WrittenBy(d: Disk, bs: seq<Block>, x: Bytes, e: Entry, s: Loc, b: Loc) {
    || (b == s && Brings(d, bs, b, SetAlias(x, e)))
    || (Before(s, b) && Brings(d, bs, b, RelayAlias(x, e)))
  }

  ghost predicate Kept(d: Disk, bs: seq<Block>, i: nat, x: Bytes, e: Entry)
    requires Inside(bs, i)
  {
    && Holder(d, bs, i, x).Some?
    && var s := Holder(d, bs, i, x).value;
       && Reached(bs, i, s) && (exists e0 :: Brings(d, bs, s, SetAlias(x, e0))) && exists b :: WrittenBy(d, bs, x, e, s, b)
  }

  lemma BringsMore(d: Disk, bs: seq<Block>, b: Loc, ev: Event)
    requires bs != [] && Brings(d, bs[..|bs| - 1], b, ev)
    ensures Brings(d, bs, b, ev)
  {
    hide EventOf;
    var init := bs[..|bs| - 1];
    var k :| 0 <= k < |init| && init[k].height == b.height && b.index < |init[k].txs| && EventOf(d, init[k], b.index) == ev;
    assert bs[k] == init[k];
  }

  /** The event at hand. */
  lemma BringsLast(d: Disk, bs: seq<Block>, i: nat)
    requires bs != [] && i < |bs[|bs| - 1].txs|
    ensures Brings(d, bs, Loc(bs[|bs| - 1].height, i), EventOf(d, bs[|bs| - 1], i))
  {
    hide EventOf;
    assert bs[|bs| - 1] == bs[|bs| - 1];
  }

  lemma KeptNextBlock(d: Disk, bs: seq<Block>, i: nat, x: Bytes, e: Entry)
    requires |bs| > 1 && Climbing(bs) && i == |bs[|bs| - 2].txs| && Kept(d, bs[..|bs| - 1], i, x, e)
    ensures Kept(d, bs, 0, x, e)
  {
    hide Brings, TakesOver;
    var init := bs[..|bs| - 1];
    var s := Holder(d, init, i, x).value;
    assert Holder(d, bs, 0, x) == Holder(d, init, i, x);
    var e0 :| Brings(d, init, s, SetAlias(x, e0));
    BringsMore(d, bs, s, SetAlias(x, e0));
    var b :| WrittenBy(d, init, x, e, s, b);
    if b == s && Brings(d, init, b, SetAlias(x, e)) {
      BringsMore(d, bs, b, SetAlias(x, e));
    } else {
      BringsMore(d, bs, b, RelayAlias(x, e));
    }
    assert WrittenBy(d, bs, x, e, s, b);
  }

  /** An event that leaves the entry alone. */
  lemma KeptStays(d: Disk, bs: seq<Block>, i: nat, x: Bytes, e: Entry)
    requires bs != [] && i < |bs[|bs| - 1].txs| && Kept(d, bs, i, x, e) && !TakesOver(d, bs, i, x)
    ensures Kept(d, bs, i + 1, x, e)
  {
    hide Brings, TakesOver;
  }

  lemma KeptTaken(d: Disk, bs: seq<Block>, i: nat, x: Bytes, e: Entry)
    requires bs != [] && i < |bs[|bs| - 1].txs| && TakesOver(d, bs, i, x)
    requires EventOf(d, bs[|bs| - 1], i) == SetAlias(x, e)
    ensures Kept(d, bs, i + 1, x, e)
  {
    BringsLast(d, bs, i);
    hide Brings, TakesOver;
    var s := Loc(bs[|bs| - 1].height, i);
    assert WrittenBy(d, bs, x, e, s, s);
  }

  lemma KeptRelayed(d: Disk, bs: seq<Block>, i: nat, x: Bytes, e: Entry, e': Entry)
    requires bs != [] && i < |bs[|bs| - 1].txs| && Kept(d, bs, i, x, e)
    requires EventOf(d, bs[|bs| - 1], i) == RelayAlias(x, e')
    ensures Kept(d, bs, i + 1, x, e')
  {
    BringsLast(d, bs, i);
    assert !TakesOver(d, bs, i, x);
    hide Brings, TakesOver;
    var b := Loc(bs[|bs| - 1].height, i);
    assert WrittenBy(d, bs, x, e', Holder(d, bs, i, x).value, b);
  }

  /** Every entry of the index has a SET that holds its alias. */
  lemma {:induction false} EntryKept(d: Disk, bs: seq<Block>, i: nat, x: Bytes)
    requires Inside(bs, i) && Climbing(bs) && FoldTo(d, bs, i).Some? && x in FoldTo(d, bs, i).value
    ensures Kept(d, bs, i, x, FoldTo(d, bs, i).value[x])
    decreases |bs|, i
  {
    hide Kept, EventOf, Overdue;
    if i > 0 {
      var ev, m := EventOf(d, bs[|bs| - 1], i - 1), FoldTo(d, bs, i - 1).value;
      if x in m { EntryKept(d, bs, i - 1, x); }
      if TakesOver(d, bs, i - 1, x) {
        KeptTaken(d, bs, i - 1, x, ev.e);
      } else if ev.RelayAlias? && ev.alias == x {
        KeptRelayed(d, bs, i - 1, x, m[x], ev.e);
      } else {
        KeptStays(d, bs, i - 1, x, m[x]);
      }
    } else {
      var init := bs[..|bs| - 1];
      var n := if init == [] then 0 else |init[|init| - 1].txs|;
      EntryKept(d, init, n, x);
      KeptNextBlock(d, bs, n, x, FoldTo(d, bs, 0).value[x]);
    }
  }

  // ---- And the custody behind it

  /** Blocks of the chain, one after the other. */
  ghost predicate Along(c: Chain, bs: seq<Block>) {
    Climbing(bs) && forall k :: 0 <= k < |bs| ==> 0 < bs[k].height < |c| && bs[k].txs == c[bs[k].height]
  }

  /** On a quiet chain filter reads SETs and RELAYs as what they are. */
  lemma EventDoes(c: Chain, d: Disk, b: Block, i: nat)
    requires Quiet(c) && 0 < b.height < |c| && b.txs == c[b.height] && i < |b.txs|
    ensures var ev, a := EventOf(d, b, i), Loc(b.height, i);
            && (ev.SetAlias? ==> Does(c, a, SET) && Names(c, a, ev.alias))
            && (ev.RelayAlias? ==> Does(c, a, RELAY) && Names(c, a, ev.alias))
  {
    hide OpAfter, ArgsOf, Sole, ParseAlias, OwnOp, Touches, LastTouch;
    var a, t := Loc(b.height, i), b.txs[i];
    assert TxAt(c, a) == t;
    if ArgsOf(t.vout) != [] {
      ArgsNeedOne(t.vout);
      QuietOutputs(c, a, d.op0(t));
      OwnArity(t.vout);
    }
  }

  lemma BringsDoes(c: Chain, d: Disk, bs: seq<Block>, b: Loc, ev: Event)
    requires Quiet(c) && Along(c, bs) && Brings(d, bs, b, ev)
    ensures ev.SetAlias? ==> Does(c, b, SET) && Names(c, b, ev.alias)
    ensures ev.RelayAlias? ==> Does(c, b, RELAY) && Names(c, b, ev.alias)
  {
    hide EventOf, Does, Names, Quiet;
    var k :| 0 <= k < |bs| && bs[k].height == b.height && b.index < |bs[k].txs| && EventOf(d, bs[k], b.index) == ev;
    EventDoes(c, d, bs[k], b.index);
  }

  /** On a quiet chain the entry of an alias is that of the SET that holds it, or of a RELAY of the alias after that; and
      it descends from this SET if each RELAY of the alias after the SET spends the SET or a RELAY after it. */
  lemma EntryDescends(env: Env, c: Chain, d: Disk, bs: seq<Block>, x: Bytes) returns (s: Loc, b: Loc)
    requires Valid(env, c) && Quiet(c) && Along(c, bs) && bs != []
    requires var r := FoldBlocks(map[], d, bs); r.Some? && x in r.value
    ensures var n := |bs[|bs| - 1].txs|; Holder(d, bs, n, x) == Some(s)
    ensures Does(c, s, SET) && Names(c, s, x) && Traced(env, c, s)
    ensures WrittenBy(d, bs, x, FoldBlocks(map[], d, bs).value[x], s, b) && (b == s || RelayAfter(c, s, x, b))
    ensures OnlyFrom(c, s, x) ==> Descends(env, c, s, b)
  {
    hide Brings, Valid, Quiet, Along, Does, Names, OnlyFrom, Descends, Traced, FoldTxs;
    var n := |bs[|bs| - 1].txs|;
    AlongClimbs(c, bs);
    EntryKept(d, bs, n, x);
    s := Holder(d, bs, n, x).value;
    var e := FoldBlocks(map[], d, bs).value[x];
    var e0 :| Brings(d, bs, s, SetAlias(x, e0));
    BringsDoes(c, d, bs, s, SetAlias(x, e0));
    b :| WrittenBy(d, bs, x, e, s, b);
    if !(b == s) { BringsDoes(c, d, bs, b, RelayAlias(x, e)); }
    QuietTraced(env, c);
    LineExactly(env, c, s, x);
    SetDescends(env, c, s);
  }

  lemma AlongClimbs(c: Chain, bs: seq<Block>)
    requires Along(c, bs)
    ensures Climbing(bs)
  {
  }
}
