/** The alias index: LocatorNodeDB::filter (src/db.cpp) against the expiry rule of aliasTx (src/dions.cpp). */
module AliasIndex {
  import opened Options
  import opened AliasScript
  import opened AliasPost
  import opened AliasChain
  import opened AliasCustody

  const WORD := 0x1_0000_0000
  const HEIGHT_LIMIT := 0x8000_0000

  /** A transaction's place on disk. */
  datatype DiskPos = DiskPos(file: nat, blockPos: nat, txPos: nat)

  /** One record of the index. */
  datatype Entry = Entry(pos: DiskPos, height: nat, value: Bytes, address: Bytes)

  type Index = map<Bytes, Entry>

  /** A block as filter sees it: where it is stored, and its transactions. */
  datatype Block = Block(height: nat, file: nat, pos: nat, txs: seq<Tx>)

  /** Left to others: the address in a script, serialized sizes, whether a transaction can be read back, and the op
      that filter declares without a value. */
  datatype Disk = Disk(testNet: bool, address: Script -> Bytes, size: Tx -> nat, header: nat, compact: nat -> nat,
                       readable: Tx -> bool, op0: Tx -> nat)

  // ---- Two forms of the expiry rule

  /** aliasTx: the entry's height plus the monitored span, in 32 bits, against the best height. */
  predicate Lapsed(height: nat, best: nat, span: nat) { (height + span) % WORD <= best }

  /** filter: the block's height less the entry's, in 32 bits, against the span. */
  predicate Overdue(height: nat, best: nat, span: nat) { (best - height) % WORD >= span }

  /** The two agree exactly when the entry is no higher than the block. */
  lemma SameExpiry(height: nat, best: nat, testNet: bool)
    requires height < HEIGHT_LIMIT && best < HEIGHT_LIMIT
    ensures (Lapsed(height, best, ScaleMonitor(testNet)) <==> Overdue(height, best, ScaleMonitor(testNet))) <==> height <= best
  {
    if height > best {
      assert (best - height) % WORD == best - height + WORD;
    }
  }

  /** aliasTx up to reading the transaction: there is an entry and it has not lapsed. */
  predicate Active(m: Index, alias: Bytes, best: nat, testNet: bool) {
    alias in m && !Lapsed(m[alias].height, best, ScaleMonitor(testNet))
  }

  // ---- The simple fold

  /** What one transaction asks of the index. `Unread` reads the alias of a transaction that has no arguments;
      `ShortRelay` reads a second argument that is not there, if the alias is known. */
  datatype Event =
    | Skip | SetAlias(alias: Bytes, e: Entry) | RelayAlias(alias: Bytes, e: Entry) | Unread | ShortRelay(alias: Bytes)

  /** A SET takes over an alias that is unknown or overdue; a RELAY updates one that is known. */
  function Apply(m: Index, ev: Event, h: nat, testNet: bool): Option<Index> {
    match ev
    case Skip => Some(m)
    case SetAlias(a, e) => Some(if a in m && !Overdue(m[a].height, h, ScaleMonitor(testNet)) then m else m[a := e])
    case RelayAlias(a, e) => Some(if a in m then m[a := e] else m)
    case Unread => None
    case ShortRelay(a) => if a in m then None else Some(m)
  }

  /** Where transaction `i` of a block begins on disk. */
  function TxPos(d: Disk, b: Block, i: nat): nat
    requires i <= |b.txs|
  {
    if i == 0 then b.pos + d.header + d.compact(|b.txs|) else TxPos(d, b, i - 1) + d.size(b.txs[i - 1])
  }

  /** The script behind the drops of the alias output. */
  function Owner(tx: Tx): Script
    requires Sole(tx.vout).Once?
  {
    var s := tx.vout[Sole(tx.vout).i];
    s[ParseAlias(s, 0).pc..]
  }

  /** The event of an alias transaction stored at `pos`. */
  function TxEvent(d: Disk, tx: Tx, pos: DiskPos, h: nat): Event {
    var op, args := OpAfter(tx.vout, d.op0(tx)), ArgsOf(tx.vout);
    if op != SET && op != RELAY then Skip
    else if args == [] then Unread
    else if !d.readable(tx) then Skip
    else if op == SET then SetAlias(args[0], Entry(pos, h, [], d.address(Owner(tx))))
    else if |args| < 2 then ShortRelay(args[0])
    else RelayAlias(args[0], Entry(pos, h, args[1], d.address(Owner(tx))))
  }

  function EventOf(d: Disk, b: Block, i: nat): Event
    requires i < |b.txs|
  {
    if b.txs[i].dion then TxEvent(d, b.txs[i], DiskPos(b.file, b.pos, TxPos(d, b, i)), b.height) else Skip
  }

  /** The index after the first `i` transactions of a block, unless an argument is read that is not there. */
  function FoldTxs(m: Index, d: Disk, b: Block, i: nat): Option<Index>
    requires i <= |b.txs|
  {
    if i == 0 then Some(m)
    else
      var r := FoldTxs(m, d, b, i - 1);
      if r.None? then None else Apply(r.value, EventOf(d, b, i - 1), b.height, d.testNet)
  }

  function FoldBlocks(m: Index, d: Disk, bs: seq<Block>): Option<Index> {
    if bs == [] then Some(m)
    else
      var last := bs[|bs| - 1];
      var r := FoldBlocks(m, d, bs[..|bs| - 1]);
      if r.None? then None else FoldTxs(r.value, d, last, |last.txs|)
  }

  // ---- The index itself

  /** One record for every alias. */
  ghost predicate Single(db: map<Bytes, seq<Entry>>) { forall a :: a in db ==> |db[a]| == 1 }

  ghost function View(db: map<Bytes, seq<Entry>>): Index
    requires Single(db)
  {
    map a | a in db :: db[a][0]
  }

  class LocatorNodeDB {
    var db: map<Bytes, seq<Entry>>

    constructor ()
      ensures db == map[]
    {
      db := map[];
    }

    /** filter: the block's transactions in order, each advancing the disk position; not `ok` when an argument is read
        that is not there. */
    method Filter(d: Disk, b: Block) returns (ok: bool)
      requires Single(db)
      modifies this
      ensures Single(db) && (ok <==> FoldTxs(View(old(db)), d, b, |b.txs|).Some?)
      ensures ok ==> FoldTxs(View(old(db)), d, b, |b.txs|) == Some(View(db))
    {
      var nTxPos := b.pos + d.header + d.compact(|b.txs|);
      ghost var m := View(db);
      for i := 0 to |b.txs|
        invariant Single(db) && nTxPos == TxPos(d, b, i) && FoldTxs(m, d, b, i) == Some(View(db))
      {
        var tx := b.txs[i];
        hide Apply, TxEvent, View;
        if tx.dion {
          ok := FilterTx(d, tx, DiskPos(b.file, b.pos, nTxPos), b.height);
          if !ok {
            NoneStays(m, d, b, i + 1);
            return;
          }
        } else {
          SkipKeeps(View(db), b.height, d.testNet);
        }
        nTxPos := nTxPos + d.size(tx);
      }
      ok := true;
    }

    /** One alias transaction of a block at height `h`. */
    method FilterTx(d: Disk, tx: Tx, pos: DiskPos, h: nat) returns (ok: bool)
      requires Single(db)
      modifies this
      ensures Single(db) && (ok <==> Apply(View(old(db)), TxEvent(d, tx, pos, h), h, d.testNet).Some?)
      ensures ok ==> Apply(View(old(db)), TxEvent(d, tx, pos, h), h, d.testNet) == Some(View(db))
    {
      hide Sole, OpAfter, ParseAlias, ArgsOf, Overdue;
      var many, found, op, nOut, args := FindAlias(tx.vout, d.op0(tx));
      if op != SET && op != RELAY {
        return true;
      }
      if args == [] {
        return false;
      }
      ArgsNeedOne(tx.vout);
      if !d.readable(tx) {
        return true;
      }
      var r := ParseAlias(tx.vout[nOut], 0);
      var e := Entry(pos, h, [], d.address(tx.vout[nOut][r.pc..]));
      if op == SET {
        PutSet(d, args[0], e);
        ok := true;
      } else if args[0] in db && |args| < 2 {
        ok := false;
      } else {
        if args[0] in db { PutRelay(args[0], e.(value := args[1])); }
        ok := true;
      }
    }

    /** A SET: a new record for an unknown alias, or in place of an overdue one. With no entry above the block that is
        when aliasTx does not call the alias active. */
    method PutSet(d: Disk, alias: Bytes, e: Entry)
      requires Single(db)
      modifies this
      ensures Single(db) && Some(View(db)) == Apply(View(old(db)), SetAlias(alias, e), e.height, d.testNet)
      ensures e.height < HEIGHT_LIMIT && (alias in old(db) ==> old(db)[alias][0].height <= e.height) ==>
                View(db) == if Active(View(old(db)), alias, e.height, d.testNet) then View(old(db))
                            else View(old(db))[alias := e]
    {
      if alias in db && db[alias][0].height <= e.height < HEIGHT_LIMIT {
        SameExpiry(db[alias][0].height, e.height, d.testNet);
      }
      hide Overdue, Lapsed;
      if alias !in db {
        db := db[alias := [e]];
        assert View(db) == View(old(db))[alias := e];
      } else {
        var v := db[alias];
        var t := v[|v| - 1];
        if Overdue(t.height, e.height, ScaleMonitor(d.testNet)) {
          db := db[alias := [e]];
          assert View(db) == View(old(db))[alias := e];
        }
      }
    }

    /** A RELAY of a known alias: a new record in place of the one there. */
    method PutRelay(alias: Bytes, e: Entry)
      requires Single(db) && alias in db
      modifies this
      ensures Single(db) && View(db) == View(old(db))[alias := e]
    {
      db := db[alias := [e]];
    }
  }

  lemma ArgsNeedOne(ss: seq<Script>)
    requires ArgsOf(ss) != []
    ensures Sole(ss).Once?
  {
    hide Sole, ParseAlias;
  }

  lemma SkipKeeps(m: Index, h: nat, testNet: bool)
    ensures Apply(m, Skip, h, testNet) == Some(m)
  {
  }

  lemma {:induction false} NoneStays(m: Index, d: Disk, b: Block, i: nat)
    requires i <= |b.txs| && FoldTxs(m, d, b, i).None?
    ensures FoldTxs(m, d, b, |b.txs|).None?
    decreases |b.txs| - i
  {
    if i < |b.txs| { NoneStays(m, d, b, i + 1); }
  }

  lemma {:induction false} NoneStaysOver(m: Index, d: Disk, bs: seq<Block>, k: nat)
    requires k <= |bs| && FoldBlocks(m, d, bs[..k]).None?
    ensures FoldBlocks(m, d, bs).None?
  {
    if k == |bs| {
      assert bs[..k] == bs;
    } else {
      assert bs[..|bs| - 1][..k] == bs[..k];
      NoneStaysOver(m, d, bs[..|bs| - 1], k);
    }
  }

  /** Over the blocks connected one after the other the index is the fold, one entry for each alias. */
  method FilterAll(d: Disk, bs: seq<Block>) returns (index: LocatorNodeDB, ok: bool)
    ensures fresh(index) && Single(index.db) && (ok <==> FoldBlocks(map[], d, bs).Some?)
    ensures ok ==> FoldBlocks(map[], d, bs) == Some(View(index.db))
  {
    index := new LocatorNodeDB();
    assert bs[..0] == [];
    for k := 0 to |bs|
      invariant Single(index.db) && FoldBlocks(map[], d, bs[..k]) == Some(View(index.db))
    {
      assert bs[..k + 1][..k] == bs[..k];
      hide FoldTxs, View;
      ok := index.Filter(d, bs[k]);
      if !ok {
        NoneStaysOver(map[], d, bs, k + 1);
        return;
      }
    }
    assert bs[..|bs|] == bs;
    ok := true;
  }

  // ---- The two expiry rules over every run

  ghost predicate Ascending(bs: seq<Block>) {
    forall i :: 0 < i < |bs| ==> bs[i - 1].height <= bs[i].height
  }

  /** No entry is higher than `h`. */
  ghost predicate UpTo(m: Index, h: nat) { forall a :: a in m ==> m[a].height <= h }

  lemma ApplyUpTo(m: Index, d: Disk, b: Block, i: nat)
    requires i < |b.txs| && UpTo(m, b.height) && Apply(m, EventOf(d, b, i), b.height, d.testNet).Some?
    ensures UpTo(Apply(m, EventOf(d, b, i), b.height, d.testNet).value, b.height)
  {
    hide Overdue, OpAfter, ArgsOf, Sole, ParseAlias;
  }

  lemma {:induction false} TxsUpTo(m: Index, d: Disk, b: Block, i: nat)
    requires i <= |b.txs| && UpTo(m, b.height) && FoldTxs(m, d, b, i).Some?
    ensures UpTo(FoldTxs(m, d, b, i).value, b.height)
  {
    hide UpTo, Apply, EventOf;
    if i > 0 {
      TxsUpTo(m, d, b, i - 1);
      ApplyUpTo(FoldTxs(m, d, b, i - 1).value, d, b, i - 1);
    }
  }

  lemma {:induction false} BlocksUpTo(d: Disk, bs: seq<Block>, h: nat)
    requires Ascending(bs) && (bs != [] ==> bs[|bs| - 1].height <= h) && FoldBlocks(map[], d, bs).Some?
    ensures UpTo(FoldBlocks(map[], d, bs).value, h)
  {
    hide FoldTxs;
    if bs != [] {
      var init, last := bs[..|bs| - 1], bs[|bs| - 1];
      BlocksUpTo(d, init, last.height);
      TxsUpTo(FoldBlocks(map[], d, init).value, d, last, |last.txs|);
    }
  }

  /** A SET does what aliasTx's rule says: it takes the alias over unless it is active. */
  ghost predicate AgreesWithActive(m: Index, a: Bytes, e: Entry, h: nat, testNet: bool) {
    Apply(m, SetAlias(a, e), h, testNet) == Some(if Active(m, a, h, testNet) then m else m[a := e])
  }

  /** It does exactly if the alias has no entry above the block. */
  lemma TakeoverExactly(m: Index, a: Bytes, e: Entry, h: nat, testNet: bool)
    requires h < HEIGHT_LIMIT && (a in m ==> m[a] != e && m[a].height < HEIGHT_LIMIT)
    ensures AgreesWithActive(m, a, e, h, testNet) <==> (a in m ==> m[a].height <= h)
  {
    if a in m {
      SameExpiry(m[a].height, h, testNet);
      hide Overdue, Lapsed;
      assert m[a := e][a] != m[a];
    }
  }

  /** After any blocks at nondecreasing heights, SETs and aliasTx agree on which aliases are free. */
  lemma RunAgrees(d: Disk, bs: seq<Block>, a: Bytes, e: Entry, h: nat)
    requires Ascending(bs) && (bs != [] ==> bs[|bs| - 1].height <= h) && h < HEIGHT_LIMIT
    requires FoldBlocks(map[], d, bs).Some?
    ensures AgreesWithActive(FoldBlocks(map[], d, bs).value, a, e, h, d.testNet)
  {
    var m := FoldBlocks(map[], d, bs).value;
    BlocksUpTo(d, bs, h);
    hide FoldBlocks;
    if a in m { SameExpiry(m[a].height, h, d.testNet); }
    hide Overdue, Lapsed;
  }

  // ---- What the fold keeps

  /** An event of the blocks is a RELAY that writes this entry. */
  ghost predicate Relayed(d: Disk, bs: seq<Block>, a: Bytes, e: Entry) {
    exists k, i {:trigger EventOf(d, bs[k], i)} ::
      0 <= k < |bs| && 0 <= i < |bs[k].txs| && EventOf(d, bs[k], i) == RelayAlias(a, e)
  }

  /** The alias is known, by `e` or by what a RELAY of the blocks wrote, at no lower a height. */
  ghost predicate Held(d: Disk, bs: seq<Block>, a: Bytes, e: Entry, m: Index) {
    a in m && m[a].height >= e.height && (m[a] == e || Relayed(d, bs, a, m[a]))
  }

  lemma ApplyHeld(d: Disk, bs: seq<Block>, i: nat, a: Bytes, e: Entry, m: Index)
    requires bs != [] && var b := bs[|bs| - 1];
                         && i < |b.txs| && e.height <= b.height < e.height + ScaleMonitor(d.testNet)
                         && b.height < HEIGHT_LIMIT && Held(d, bs, a, e, m) && UpTo(m, b.height)
                         && Apply(m, EventOf(d, b, i), b.height, d.testNet).Some?
    ensures var b := bs[|bs| - 1]; Held(d, bs, a, e, Apply(m, EventOf(d, b, i), b.height, d.testNet).value)
  {
    var b := bs[|bs| - 1];
    var ev := EventOf(d, b, i);
    EventHeight(d, b, i);
    hide EventOf, TxEvent;
    assert !Overdue(m[a].height, b.height, ScaleMonitor(d.testNet));
    hide Overdue;
    if ev.RelayAlias? && ev.alias == a { assert Relayed(d, bs, a, ev.e); }
    hide Relayed;
  }

  /** An entry carries the height of its block. */
  lemma EventHeight(d: Disk, b: Block, i: nat)
    requires i < |b.txs|
    ensures var ev := EventOf(d, b, i); ev.SetAlias? || ev.RelayAlias? ==> ev.e.height == b.height
  {
    hide OpAfter, ArgsOf, Sole, ParseAlias;
  }

  lemma {:induction false} TxsHeld(d: Disk, bs: seq<Block>, i: nat, a: Bytes, e: Entry, m: Index)
    requires bs != [] && var b := bs[|bs| - 1];
                         && i <= |b.txs| && e.height <= b.height < e.height + ScaleMonitor(d.testNet)
                         && b.height < HEIGHT_LIMIT && Held(d, bs, a, e, m) && UpTo(m, b.height)
                         && FoldTxs(m, d, b, i).Some?
    ensures var r := FoldTxs(m, d, bs[|bs| - 1], i).value; Held(d, bs, a, e, r)
  {
    hide Held, UpTo, Apply, EventOf;
    var b := bs[|bs| - 1];
    if i > 0 {
      TxsHeld(d, bs, i - 1, a, e, m);
      TxsUpTo(m, d, b, i - 1);
      ApplyHeld(d, bs, i - 1, a, e, FoldTxs(m, d, b, i - 1).value);
    }
  }

  lemma MoreHeld(d: Disk, bs: seq<Block>, b: Block, a: Bytes, e: Entry, m: Index)
    requires Held(d, bs, a, e, m)
    ensures Held(d, bs + [b], a, e, m)
  {
    hide EventOf;
    if Relayed(d, bs, a, m[a]) {
      var k, i :| 0 <= k < |bs| && 0 <= i < |bs[k].txs| && EventOf(d, bs[k], i) == RelayAlias(a, m[a]);
      assert (bs + [b])[k] == bs[k];
    }
  }

  /** Within the monitored span of an entry no SET takes the alias over: it keeps that entry, or has one that a RELAY
      wrote. */
  lemma {:induction false} Tenure(d: Disk, bs: seq<Block>, a: Bytes, m: Index)
    requires a in m && Ascending(bs) && (bs != [] ==> UpTo(m, bs[0].height) && bs[|bs| - 1].height < HEIGHT_LIMIT)
    requires bs != [] ==> bs[|bs| - 1].height < m[a].height + ScaleMonitor(d.testNet)
    requires FoldBlocks(m, d, bs).Some?
    ensures Held(d, bs, a, m[a], FoldBlocks(m, d, bs).value)
    ensures bs != [] ==> UpTo(FoldBlocks(m, d, bs).value, bs[|bs| - 1].height)
  {
    hide FoldTxs;
    if bs != [] {
      var init, last := bs[..|bs| - 1], bs[|bs| - 1];
      if init != [] {
        assert Ascending(init);
      }
      Tenure(d, init, a, m);
      var r := FoldBlocks(m, d, init).value;
      assert bs == init + [last];
      MoreHeld(d, init, last, a, m[a], r);
      assert UpTo(r, last.height) by { if init == [] { assert r == m; } }
      hide Held;
      AboveFirst(bs, |bs| - 1);
      TxsHeld(d, bs, |last.txs|, a, m[a], r);
      TxsUpTo(r, d, last, |last.txs|);
    }
  }

  lemma {:induction false} AboveFirst(bs: seq<Block>, k: nat)
    requires Ascending(bs) && k < |bs|
    ensures bs[0].height <= bs[k].height
  {
    if k > 0 { AboveFirst(bs, k - 1); }
  }

  // ---- Which blocks filter can read

  /** The event reads no argument that may be missing. */
  predicate Readable(ev: Event) { !ev.Unread? && !ev.ShortRelay? }

  /** With one alias script the op does not depend on what it was before. */
  lemma OnceOp(ss: seq<Script>, x: nat, y: nat)
    requires Sole(ss).Once?
    ensures OpAfter(ss, x) == OpAfter(ss, y)
  {
    OpAgreesExactly(ss, x);
    OpIsLastTouch(ss, x);
    OpIsLastTouch(ss, y);
  }

  lemma AcceptedArgs(env: Env, tx: Tx, spent: seq<Script>, h: nat)
    requires |spent| == |tx.vin| && tx.dion && Post(env, tx, spent, h) == Accepted
    ensures Sole(tx.vout).Once? && ArgsOf(tx.vout) != []
    ensures OpAfter(tx.vout, env.op0(tx)) == RELAY ==> |ArgsOf(tx.vout)| >= 2
  {
    hide OpAfter, Sole, ArgsOf;
  }

  /** What ConnectInputsPost has accepted filter can read. */
  lemma AcceptedReadable(env: Env, tx: Tx, spent: seq<Script>, g: nat, d: Disk, b: Block, i: nat)
    requires |spent| == |tx.vin| && Post(env, tx, spent, g) == Accepted && i < |b.txs| && b.txs[i] == tx
    ensures Readable(EventOf(d, b, i))
  {
    if tx.dion {
      AcceptedArgs(env, tx, spent, g);
      OnceOp(tx.vout, env.op0(tx), d.op0(tx));
      hide OpAfter, Sole, ArgsOf, Post;
    }
  }

  lemma {:induction false} ReadableFolds(m: Index, d: Disk, b: Block, i: nat)
    requires i <= |b.txs| && forall j :: 0 <= j < i ==> Readable(EventOf(d, b, j))
    ensures FoldTxs(m, d, b, i).Some?
  {
    hide EventOf;
    if i > 0 { ReadableFolds(m, d, b, i - 1); }
  }

  lemma {:induction false} KnownStays(m: Index, d: Disk, b: Block, i: nat, a: Bytes)
    requires i <= |b.txs| && a in m && FoldTxs(m, d, b, i).Some?
    ensures a in FoldTxs(m, d, b, i).value
  {
    hide EventOf, Overdue;
    if i > 0 { KnownStays(m, d, b, i - 1, a); }
  }

  /** Whatever the index holds. */
  ghost predicate AlwaysFiltered(d: Disk, b: Block) {
    forall m :: FoldTxs(m, d, b, |b.txs|).Some?
  }

  lemma UnreadableApplies(m: Index, ev: Event, h: nat, testNet: bool, a: Bytes)
    requires !Readable(ev) && a in m && (ev.ShortRelay? ==> ev.alias == a)
    ensures Apply(m, ev, h, testNet).None?
  {
  }

  lemma UnreadableFails(d: Disk, b: Block, i: nat)
    requires i < |b.txs| && !Readable(EventOf(d, b, i))
    ensures !AlwaysFiltered(d, b)
  {
    hide EventOf, Apply;
    var ev := EventOf(d, b, i);
    var a := if ev.ShortRelay? then ev.alias else [];
    var m: Index := map[a := Entry(DiskPos(0, 0, 0), 0, [], [])];
    if FoldTxs(m, d, b, i).Some? {
      KnownStays(m, d, b, i, a);
      UnreadableApplies(FoldTxs(m, d, b, i).value, ev, b.height, d.testNet, a);
    }
    NoneStays(m, d, b, i + 1);
  }

  /** A block of a valid chain is filtered into every index exactly if its coinbase and its coinstakes, which nothing
      has looked at, can be read. */
  lemma FilterableExactly(env: Env, c: Chain, d: Disk, b: Block)
    requires Valid(env, c) && 0 < b.height < |c| && b.txs == c[b.height]
    ensures AlwaysFiltered(d, b) <==>
            forall i :: 0 <= i < |b.txs| && b.txs[i].kind != Ordinary ==> Readable(EventOf(d, b, i))
  {
    hide Post, EventOf, FoldTxs, Readable;
    if forall i :: 0 <= i < |b.txs| && b.txs[i].kind != Ordinary ==> Readable(EventOf(d, b, i)) {
      forall i | 0 <= i < |b.txs| ensures Readable(EventOf(d, b, i)) {
        var a := Loc(b.height, i);
        assert On(c, a) && TxAt(c, a) == b.txs[i] && Passed(env, c, a);
        if b.txs[i].kind == Ordinary { AcceptedReadable(env, b.txs[i], Spent(c, a), b.height, d, b, i); }
      }
      forall m ensures FoldTxs(m, d, b, |b.txs|).Some? { ReadableFolds(m, d, b, |b.txs|); }
    }
    forall i | 0 <= i < |b.txs| && !Readable(EventOf(d, b, i)) ensures !AlwaysFiltered(d, b) { UnreadableFails(d, b, i); }
  }
}
