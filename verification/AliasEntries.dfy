/** What the index holds after a block, told from the scripts that were printed into it. */
module AliasEntries {
  import opened Octets
  import opened Options
  import opened AliasScript
  import opened AliasPost
  import opened AliasIndex

  // ---- A printed alias transaction

  /** The transaction's one alias script is this printed one, and its op is what is read. */
  ghost predicate Prints(d: Disk, tx: Tx, op: nat, args: seq<Bytes>, drops: seq<Byte>, rest: Script) {
    && 1 <= op <= 16 && Short(args) && Arity(op, |args|) && drops != [] && AllDrops(drops)
    && Sole(tx.vout).Once? && tx.vout[Sole(tx.vout).i] == Print(op, args, drops, rest)
    && OpAfter(tx.vout, d.op0(tx)) == op
  }

  /** The bytes of some transactions one after the other. */
  function SizeOf(d: Disk, txs: seq<Tx>): nat {
    if txs == [] then 0 else SizeOf(d, txs[..|txs| - 1]) + d.size(txs[|txs| - 1])
  }

  /** Where transaction `i` stands: behind the block's header, the count and the transactions before it. */
  function PlaceOnDisk(d: Disk, b: Block, i: nat): DiskPos
    requires i <= |b.txs|
  {
    DiskPos(b.file, b.pos, b.pos + d.header + d.compact(|b.txs|) + SizeOf(d, b.txs[..i]))
  }

  lemma {:induction false} OffsetIs(d: Disk, b: Block, i: nat)
    requires i <= |b.txs|
    ensures TxPos(d, b, i) == PlaceOnDisk(d, b, i).txPos
  {
    if i > 0 {
      OffsetIs(d, b, i - 1);
      assert b.txs[..i][..i - 1] == b.txs[..i - 1];
    }
  }

  lemma OnDisk(d: Disk, b: Block, i: nat)
    requires i <= |b.txs|
    ensures PlaceOnDisk(d, b, i).file == b.file && PlaceOnDisk(d, b, i).blockPos == b.pos
  {
  }

  lemma PrintedReads(d: Disk, tx: Tx, op: nat, args: seq<Bytes>, drops: seq<Byte>, rest: Script)
    requires Prints(d, tx, op, args, drops, rest)
    ensures ArgsOf(tx.vout) == args && (OneByteFirst(rest) ==> Owner(tx) == rest)
  {
    hide ParseAlias, Print, Sole, OpAfter;
    PrintedAlias(op, args, drops, rest, 0);
    PrintedStrip(op, args, drops, rest);
  }

  /** The alias is unknown, or its entry is at least the monitored span behind the block, in 32 bits. */
  predicate Free(m: Index, x: Bytes, h: nat, testNet: bool) {
    x in m ==> (h - m[x].height) % 0x1_0000_0000 >= if testNet then 200 else 210000
  }

  /** The entry of `x` after transaction `i` of the block, if that one writes it. */
  ghost predicate Stored(d: Disk, b: Block, i: nat, rest: Script, value: Bytes, e: Entry)
    requires i < |b.txs|
  {
    && e.pos == PlaceOnDisk(d, b, i) && e.height == b.height && e.value == value
    && (OneByteFirst(rest) ==> e.address == d.address(rest))
  }

  // ---- One transaction

  /** After the first `i` transactions of the block. */
  ghost predicate At(m: Index, d: Disk, b: Block, i: nat, r: Index) { i <= |b.txs| && FoldTxs(m, d, b, i) == Some(r) }

  lemma Next(m: Index, d: Disk, b: Block, i: nat, r: Index, t: Index)
    requires i < |b.txs| && At(m, d, b, i, r) && At(m, d, b, i + 1, t)
    ensures Apply(r, EventOf(d, b, i), b.height, d.testNet) == Some(t)
  {
  }

  /** A printed SET takes over its alias if that is free, with an empty value, and changes nothing else. */
  lemma SetStored(m: Index, d: Disk, b: Block, i: nat, r: Index, t: Index, args: seq<Bytes>, drops: seq<Byte>, rest: Script)
    requires i < |b.txs| && At(m, d, b, i, r) && At(m, d, b, i + 1, t)
    requires b.txs[i].dion && d.readable(b.txs[i]) && Prints(d, b.txs[i], SET, args, drops, rest)
    ensures var x := args[0];
            && (forall y :: y != x ==> (y in t <==> y in r) && (y in r ==> t[y] == r[y]))
            && x in t && (if Free(r, x, b.height, d.testNet) then Stored(d, b, i, rest, [], t[x]) else t == r)
  {
    hide Print, Sole, OpAfter, ArgsOf, ParseAlias, OneByteFirst, FoldTxs, Owner, SizeOf, TxPos, PlaceOnDisk, Short, AllDrops;
    Next(m, d, b, i, r, t);
    PrintedReads(d, b.txs[i], SET, args, drops, rest);
    OffsetIs(d, b, i);
    OnDisk(d, b, i);
  }

  /** A printed RELAY writes its second argument as the value of its alias, if that is known, and changes nothing else. */
  lemma RelayStored(m: Index, d: Disk, b: Block, i: nat, r: Index, t: Index, x: Bytes, v: Bytes, drops: seq<Byte>,
                    rest: Script)
    requires i < |b.txs| && At(m, d, b, i, r) && At(m, d, b, i + 1, t)
    requires b.txs[i].dion && d.readable(b.txs[i]) && Prints(d, b.txs[i], RELAY, [x, v], drops, rest)
    ensures (forall y :: y != x ==> (y in t <==> y in r) && (y in r ==> t[y] == r[y]))
    ensures if x in r then x in t && Stored(d, b, i, rest, v, t[x]) else t == r
  {
    hide Print, Sole, OpAfter, ArgsOf, ParseAlias, OneByteFirst, FoldTxs, Owner, SizeOf, TxPos, PlaceOnDisk, Short, AllDrops;
    Next(m, d, b, i, r, t);
    PrintedReads(d, b.txs[i], RELAY, [x, v], drops, rest);
    OffsetIs(d, b, i);
    OnDisk(d, b, i);
  }

  /** A readable transaction read as a SET or a RELAY of the alias. */
  ghost predicate Touched(d: Disk, tx: Tx, x: Bytes) {
    && tx.dion && d.readable(tx) && (OpAfter(tx.vout, d.op0(tx)) == SET || OpAfter(tx.vout, d.op0(tx)) == RELAY)
    && ArgsOf(tx.vout) != [] && ArgsOf(tx.vout)[0] == x
  }

  /** Any other leaves the alias alone. */
  lemma Untouched(m: Index, d: Disk, b: Block, i: nat, r: Index, t: Index, x: Bytes)
    requires i < |b.txs| && At(m, d, b, i, r) && At(m, d, b, i + 1, t) && !Touched(d, b.txs[i], x)
    ensures (x in t <==> x in r) && (x in r ==> t[x] == r[x])
  {
    Next(m, d, b, i, r, t);
    hide OpAfter, ArgsOf, Sole, ParseAlias, Overdue;
  }

  // ---- The whole block

  lemma {:induction false} Known(m: Index, d: Disk, b: Block, i: nat, n: nat)
    requires i <= n <= |b.txs| && FoldTxs(m, d, b, n).Some?
    ensures FoldTxs(m, d, b, i).Some?
    decreases n
  {
    hide Apply, EventOf;
    if i < n { Known(m, d, b, i, n - 1); }
  }

  /** From transaction `i` on none touches the alias. */
  lemma {:induction false} Stays(m: Index, d: Disk, b: Block, i: nat, n: nat, x: Bytes)
    requires i <= n <= |b.txs| && FoldTxs(m, d, b, n).Some? && forall j :: i <= j < n ==> !Touched(d, b.txs[j], x)
    ensures FoldTxs(m, d, b, i).Some?
    ensures var r, t := FoldTxs(m, d, b, i).value, FoldTxs(m, d, b, n).value; (x in t <==> x in r) && (x in r ==> t[x] == r[x])
    decreases n
  {
    hide Touched, FoldTxs;
    Known(m, d, b, i, n);
    if i < n {
      Known(m, d, b, n - 1, n);
      Stays(m, d, b, i, n - 1, x);
      Untouched(m, d, b, n - 1, FoldTxs(m, d, b, n - 1).value, FoldTxs(m, d, b, n).value, x);
    }
  }

  /** The last SET or RELAY of an alias in a block is a printed RELAY, and the alias is known by then: the block leaves
      the entry it asks for, with the value it prints. */
  lemma LastRelay(m: Index, d: Disk, b: Block, i: nat, x: Bytes, v: Bytes, drops: seq<Byte>, rest: Script)
    requires i < |b.txs| && FoldTxs(m, d, b, |b.txs|).Some?
    requires b.txs[i].dion && d.readable(b.txs[i]) && Prints(d, b.txs[i], RELAY, [x, v], drops, rest)
    requires forall j :: i < j < |b.txs| ==> !Touched(d, b.txs[j], x)
    ensures FoldTxs(m, d, b, i).Some?
    ensures var r, t := FoldTxs(m, d, b, i).value, FoldTxs(m, d, b, |b.txs|).value;
            if x in r then x in t && Stored(d, b, i, rest, v, t[x]) else x !in t
  {
    hide FoldTxs, Touched, Prints, Stored;
    Known(m, d, b, i, |b.txs|);
    Stays(m, d, b, i + 1, |b.txs|, x);
    RelayStored(m, d, b, i, FoldTxs(m, d, b, i).value, FoldTxs(m, d, b, i + 1).value, x, v, drops, rest);
  }

  /** The last one is a printed SET: it has the alias if that was free, and otherwise the entry is as it was. */
  lemma LastSet(m: Index, d: Disk, b: Block, i: nat, args: seq<Bytes>, drops: seq<Byte>, rest: Script)
    requires i < |b.txs| && FoldTxs(m, d, b, |b.txs|).Some?
    requires b.txs[i].dion && d.readable(b.txs[i]) && Prints(d, b.txs[i], SET, args, drops, rest) && args != []
    requires forall j :: i < j < |b.txs| ==> !Touched(d, b.txs[j], args[0])
    ensures FoldTxs(m, d, b, i).Some?
    ensures var r, t, x := FoldTxs(m, d, b, i).value, FoldTxs(m, d, b, |b.txs|).value, args[0];
            x in t && if Free(r, x, b.height, d.testNet) then Stored(d, b, i, rest, [], t[x]) else x in r && t[x] == r[x]
  {
    hide FoldTxs, Touched, Prints, Stored;
    Known(m, d, b, i, |b.txs|);
    Stays(m, d, b, i + 1, |b.txs|, args[0]);
    SetStored(m, d, b, i, FoldTxs(m, d, b, i).value, FoldTxs(m, d, b, i + 1).value, args, drops, rest);
  }

  /** No SET and no RELAY of it: the block leaves the alias as it was. */
  lemma NoneOfIt(m: Index, d: Disk, b: Block, x: Bytes)
    requires FoldTxs(m, d, b, |b.txs|).Some? && forall j :: 0 <= j < |b.txs| ==> !Touched(d, b.txs[j], x)
    ensures var t := FoldTxs(m, d, b, |b.txs|).value; (x in t <==> x in m) && (x in m ==> t[x] == m[x])
  {
    hide Touched;
    Stays(m, d, b, 0, |b.txs|, x);
  }
}
