/** ECHO (src/echo.c): a 128-bit counter in four words, zero for a block that holds no message bit. Both sizes are
    one model: blocks of `b` bytes, 192 for the small variants and 128 for the big. */
module Echo {
  import opened HashStream
  import opened Padding

  const W := 0x1_0000_0000
  const WW := 0x1_0000_0000_0000_0000
  const LIMIT := 0x1_0000_0000_0000_0000_0000_0000_0000_0000

  // ---- The counter

  /** C0 to C3 */
  datatype Counter = Counter(c0: nat, c1: nat, c2: nat, c3: nat)

  ghost predicate Words(c: Counter) { c.c0 < W && c.c1 < W && c.c2 < W && c.c3 < W }

  function Value(c: Counter): nat { c.c0 + W * (c.c1 + W * (c.c2 + W * c.c3)) }

  /** INCR_COUNTER */
  function Incr(c: Counter, d: nat): Counter {
    var c0 := (c.c0 + d) % W;
    if c0 >= d then c.(c0 := c0)
    else
      var c1 := (c.c1 + 1) % W;
      if c1 != 0 then Counter(c0, c1, c.c2, c.c3)
      else
        var c2 := (c.c2 + 1) % W;
        if c2 != 0 then Counter(c0, c1, c2, c.c3) else Counter(c0, c1, c2, (c.c3 + 1) % W)
  }

  /** The four words count modulo 2^128. */
  lemma IncrAdds(c: Counter, d: nat)
    requires Words(c) && d < W
    ensures Words(Incr(c, d)) && Value(Incr(c, d)) == (Value(c) + d) % LIMIT
  {
    IncrWords(c, d);
    hide Incr, Value;
    IncrValue(c, d);
    ValueBound(c);
    ValueBound(Incr(c, d));
    Wraps(Value(c) + d);
  }

  lemma IncrWords(c: Counter, d: nat)
    requires Words(c) && d < W
    ensures Words(Incr(c, d))
  {
  }

  lemma IncrValue(c: Counter, d: nat)
    requires Words(c) && d < W
    ensures Value(Incr(c, d)) == Value(c) + d || Value(Incr(c, d)) == Value(c) + d - LIMIT
  {
    Carry(c.c0, d);
    Carry(c.c1, 1);
    Carry(c.c2, 1);
    Carry(c.c3, 1);
  }

  lemma Carry(x: nat, d: nat)
    requires x < W && d < W
    ensures if x + d < W then (x + d) % W == x + d >= d else (x + d) % W == x + d - W < d
  {
  }

  lemma ValueBound(c: Counter)
    requires Words(c)
    ensures Value(c) < LIMIT
  {
    assert c.c2 + W * c.c3 < WW;
    assert c.c1 + W * (c.c2 + W * c.c3) < W * WW;
  }

  lemma Wraps(v: nat)
    requires v < 2 * LIMIT
    ensures v % LIMIT == if v < LIMIT then v else v - LIMIT
  {
  }

  /** C0 to C3 written one after the other. */
  function CounterField(c: Counter): seq<byte> {
    LittleEndian(c.c0, 4) + LittleEndian(c.c1, 4) + LittleEndian(c.c2, 4) + LittleEndian(c.c3, 4)
  }

  /** The four words are the number in sixteen bytes. */
  lemma CounterBytes(c: Counter)
    requires Words(c)
    ensures CounterField(c) == LittleEndian(Value(c), 16)
  {
    assert Pow256(4) == W;
    hide LittleEndian, Pow256;
    var x := c.c2 + W * c.c3;
    var y := c.c1 + W * x;
    LittleEndianSplit(c.c2, c.c3, 4, 4);
    LittleEndianSplit(c.c1, x, 4, 8);
    LittleEndianSplit(c.c0, y, 4, 12);
    var a, b, d, e := LittleEndian(c.c0, 4), LittleEndian(c.c1, 4), LittleEndian(c.c2, 4), LittleEndian(c.c3, 4);
    assert a + (b + (d + e)) == a + b + d + e;
  }

  // ---- Specification

  /** The chaining value and the counter. */
  datatype Chain<H> = Chain(h: H, c: Counter)

  /** The compression function: chaining value, block, and the counter as a number. */
  type Compress<!H> = (H, seq<byte>, nat) -> H

  /** What the update loop does with a full buffer. */
  function Step<H>(b: nat, f: Compress<H>): (Chain<H>, seq<byte>) -> Chain<H> {
    (c: Chain<H>, block: seq<byte>) => var d := Incr(c.c, 8 * b); Chain(f(c.h, block, Value(d)), d)
  }

  /** Message bits up to and including block `i`; zero for a block that holds none. */
  function BitsSoFar(b: nat, bits: nat, i: nat): nat {
    if bits <= 8 * b * i then 0 else if bits < 8 * b * (i + 1) then bits else 8 * b * (i + 1)
  }

  ghost function Spec<H>(b: nat, f: Compress<H>, iv: H, p: seq<byte>, bits: nat, k: nat): H
    requires k * b <= |p|
  {
    if k == 0 then iv
    else
      BlockBounds(b, k - 1);
      f(Spec(b, f, iv, p, bits, k - 1), BlockAt(p, b, k - 1), BitsSoFar(b, bits, k - 1) % LIMIT)
  }

  /** What ends the padded message: the hash size in 16 bits and the message's length in 128. */
  function Trailer(size: nat, bits: nat): (t: seq<byte>)
    ensures |t| == 18
  {
    LittleEndian(size, 2) + LittleEndian(bits, 16)
  }

  ghost predicate HashedAt<H>(b: nat, f: Compress<H>, iv: H, msg: seq<byte>, k: nat, r: nat, ub: byte, n: nat, size: nat, h: H)
    requires 18 < b && r < b && n < 8
  {
    var j := k + TailBlocks(b, r, 18);
    var bits := 8 * |msg| + n;
    var p := msg + PadTail(b, r, PadByte(ub, n), Trailer(size, bits));
    && Pads(p, b, j, Bits(msg) + ByteBits(ub)[..n], Trailer(size, bits))
    && h == Spec(b, f, iv, p, bits, j)
  }

  ghost predicate Hashed<H>(b: nat, f: Compress<H>, iv: H, msg: seq<byte>, ub: byte, n: nat, size: nat, h: H)
    requires 18 < b && n < 8
  {
    exists k, r :: Splits(|msg|, b, k, r) && HashedAt(b, f, iv, msg, k, r, ub, n, size, h)
  }

  // ---- Whole message blocks

  lemma CountFull(b: nat, bits: nat, i: nat)
    requires 8 * ((i + 1) * b) <= bits && b > 0
    ensures BitsSoFar(b, bits, i) == 8 * b * (i + 1) == 8 * b * i + 8 * b
  {
    assert 8 * ((i + 1) * b) == 8 * b * (i + 1);
    assert 8 * b * (i + 1) == 8 * b * i + 8 * b;
  }

  lemma {:induction false} ThroughSpec<H>(b: nat, f: Compress<H>, iv: H, data: seq<byte>, bits: nat, k: nat)
    requires 0 < b < 1024 && k * b <= |data| && 8 * (k * b) <= bits
    ensures var c := Through(Step(b, f), b, Chain(iv, Counter(0, 0, 0, 0)), data, k);
            c.h == Spec(b, f, iv, data, bits, k) && Words(c.c) && Value(c.c) == 8 * b * k % LIMIT
  {
    if k > 0 {
      BlockBounds(b, k - 1);
      ThroughSpec(b, f, iv, data, bits, k - 1);
      IncrAdds(Through(Step(b, f), b, Chain(iv, Counter(0, 0, 0, 0)), data, k - 1).c, 8 * b);
      CountFull(b, bits, k - 1);
      ModAdd(8 * b * (k - 1), 8 * b, LIMIT);
      hide Incr, Value;
    }
  }

  lemma {:induction false} SpecPrefix<H>(b: nat, f: Compress<H>, iv: H, a: seq<byte>, t: seq<byte>, bits: nat, k: nat)
    requires k * b <= |a|
    ensures Spec(b, f, iv, a + t, bits, k) == Spec(b, f, iv, a, bits, k)
  {
    if k > 0 {
      BlockBounds(b, k - 1);
      SpecPrefix(b, f, iv, a, t, bits, k - 1);
      assert BlockAt(a + t, b, k - 1) == BlockAt(a, b, k - 1);
    }
  }

  /** What the update calls leave. */
  lemma Absorbed<H(!new)>(b: nat, f: Compress<H>, iv: H, msg: seq<byte>, k: nat, r: nat, t: seq<byte>, bits: nat)
    requires 0 < b < 1024 && Splits(|msg|, b, k, r) && 8 * |msg| <= bits
    ensures var c := Feed(Step(b, f), b, Ctx(Chain(iv, Counter(0, 0, 0, 0)), []), msg);
            && k * b <= |msg| && c.pend == msg[k * b..] && |c.pend| == r
            && c.st.h == Spec(b, f, iv, msg + t, bits, k) && Words(c.st.c) && Value(c.st.c) == 8 * b * k % LIMIT
  {
    FeedIsThrough(Step(b, f), b, Chain(iv, Counter(0, 0, 0, 0)), msg, k);
    ThroughSpec(b, f, iv, msg, bits, k);
    SpecPrefix(b, f, iv, msg, t, bits, k);
  }

  // ---- Closing

  /** The counter of the block the message ends in, and of one that follows it. */
  lemma LastCounts(b: nat, k: nat, r: nat, n: nat)
    requires r < b && n < 8
    ensures var bits := 8 * b * k + 8 * r + n;
            && BitsSoFar(b, bits, k) == (if 8 * r + n == 0 then 0 else bits)
            && BitsSoFar(b, bits, k + 1) == 0
  {
    assert 8 * b * (k + 1) == 8 * b * k + 8 * b;
  }

  lemma TotalBits(size: nat, b: nat, k: nat, r: nat)
    requires Splits(size, b, k, r)
    ensures 8 * size == 8 * b * k + 8 * r
  {
    assert 8 * (k * b) == 8 * b * k;
  }

  lemma CountsAtEnd(size: nat, b: nat, k: nat, r: nat, n: nat)
    requires n < 8 && Splits(size, b, k, r)
    ensures BitsSoFar(b, 8 * size + n, k) == if 8 * r + n == 0 then 0 else 8 * size + n
    ensures BitsSoFar(b, 8 * size + n, k + 1) == 0
  {
    TotalBits(size, b, k, r);
    LastCounts(b, k, r, n);
    hide BitsSoFar;
  }

  lemma OneBlockClose<H>(b: nat, f: Compress<H>, iv: H, msg: seq<byte>, k: nat, r: nat, ub: byte, n: nat, size: nat,
                         h: H, block: seq<byte>, count: nat)
    requires 18 < b && n < 8 && Splits(|msg|, b, k, r) && TailBlocks(b, r, 18) == 1
    requires var t := Trailer(size, 8 * |msg| + n);
             && k * b <= |msg| && block == msg[k * b..] + [PadByte(ub, n)] + ZeroBytes(b - r - 19) + t
             && h == Spec(b, f, iv, msg + PadTail(b, r, PadByte(ub, n), t), 8 * |msg| + n, k)
    requires count == if 8 * r + n == 0 then 0 else (8 * |msg| + n) % LIMIT
    ensures HashedAt(b, f, iv, msg, k, r, ub, n, size, f(h, block, count))
  {
    hide PadTail, PadByte, Trailer, Bits, ByteBits, Pads, Spec, BitsSoFar, Splits, TailBlocks;
    var t := Trailer(size, 8 * |msg| + n);
    PadsOut(b, msg, k, r, ub, n, t);
    OneBlockTail(b, msg, k, r, PadByte(ub, n), t);
    CountsAtEnd(|msg|, b, k, r, n);
    SpecStep(b, f, iv, msg + PadTail(b, r, PadByte(ub, n), t), 8 * |msg| + n, k);
  }

  lemma SpecStep<H>(b: nat, f: Compress<H>, iv: H, p: seq<byte>, bits: nat, k: nat)
    requires (k + 1) * b <= |p| && 0 <= k * b <= (k + 1) * b
    ensures Spec(b, f, iv, p, bits, k + 1) == f(Spec(b, f, iv, p, bits, k), BlockAt(p, b, k), BitsSoFar(b, bits, k) % LIMIT)
  {
  }

  lemma TwoBlockClose<H>(b: nat, f: Compress<H>, iv: H, msg: seq<byte>, k: nat, r: nat, ub: byte, n: nat, size: nat,
                         h: H, first: seq<byte>, second: seq<byte>, count: nat)
    requires 18 < b && n < 8 && Splits(|msg|, b, k, r) && TailBlocks(b, r, 18) == 2
    requires var t := Trailer(size, 8 * |msg| + n);
             && k * b <= |msg| && first == msg[k * b..] + [PadByte(ub, n)] + ZeroBytes(b - r - 1) && second == ZeroBytes(b - 18) + t
             && h == Spec(b, f, iv, msg + PadTail(b, r, PadByte(ub, n), t), 8 * |msg| + n, k)
    requires count == if 8 * r + n == 0 then 0 else (8 * |msg| + n) % LIMIT
    ensures HashedAt(b, f, iv, msg, k, r, ub, n, size, f(f(h, first, count), second, 0))
  {
    hide PadTail, PadByte, Trailer, Bits, ByteBits, Pads, Spec, BitsSoFar, Splits, TailBlocks;
    var t := Trailer(size, 8 * |msg| + n);
    PadsOut(b, msg, k, r, ub, n, t);
    TwoBlockTail(b, msg, k, r, PadByte(ub, n), t);
    CountsAtEnd(|msg|, b, k, r, n);
    TwoSteps(b, f, iv, msg + PadTail(b, r, PadByte(ub, n), t), 8 * |msg| + n, k, count, first, second);
    hide BlockAt;
  }

  lemma TwoSteps<H>(b: nat, f: Compress<H>, iv: H, p: seq<byte>, bits: nat, k: nat, count: nat,
                    first: seq<byte>, second: seq<byte>)
    requires (k + 2) * b == |p| && 0 <= k * b <= (k + 1) * b <= (k + 2) * b
    requires BlockAt(p, b, k) == first && BlockAt(p, b, k + 1) == second
    requires BitsSoFar(b, bits, k) % LIMIT == count && BitsSoFar(b, bits, k + 1) == 0
    ensures Spec(b, f, iv, p, bits, k + 2) == f(f(Spec(b, f, iv, p, bits, k), first, count), second, 0)
  {
    SpecStep(b, f, iv, p, bits, k);
    SpecStep(b, f, iv, p, bits, k + 1);
    hide Spec, BlockAt, BitsSoFar;
  }

  lemma CounterTotal(c: Counter, x: nat, d: nat)
    requires Words(c) && Value(c) == x % LIMIT && d < W
    ensures Words(Incr(c, d)) && Value(Incr(c, d)) == (x + d) % LIMIT
  {
    IncrAdds(c, d);
    hide Incr, Value;
    ModAdd(x, d, LIMIT);
  }

  /** The counter at closing is the message's length. */
  lemma CloseCounter(c: Counter, b: nat, k: nat, r: nat, n: nat, size: nat)
    requires b < 1024 && r < b && n < 8 && Words(c) && Value(c) == 8 * b * k % LIMIT && Splits(size, b, k, r)
    ensures var d := Incr(c, 8 * r + n); Words(d) && Value(d) == (8 * size + n) % LIMIT
    ensures Value(Counter(0, 0, 0, 0)) == 0
  {
    TotalBits(size, b, k, r);
    hide *;
    CounterTotal(c, 8 * b * k, 8 * r + n);
    ValueZero();
  }

  lemma ValueZero()
    ensures Value(Counter(0, 0, 0, 0)) == 0
  {
  }

  lemma TrailerBytes(size: nat, c: Counter, bits: nat)
    requires Words(c) && Value(c) == bits % LIMIT
    ensures LittleEndian(size, 2) + CounterField(c) == Trailer(size, bits)
  {
    CounterBytes(c);
    assert Pow256(16) == LIMIT by { PowSixteen(); }
    hide LittleEndian, CounterField, Pow256, Value;
    LittleEndianMod(bits, 16);
  }

  lemma PowSixteen()
    ensures Pow256(16) == LIMIT
  {
    PowEight();
    assert Pow256(12) == W * WW by { assert Pow256(12) == 256 * (256 * (256 * (256 * Pow256(8)))); }
    assert Pow256(16) == 256 * (256 * (256 * (256 * Pow256(12))));
  }

  /** echo_small_close and echo_big_close up to the output. */
  method Close<H(!new)>(sc: Stream<Chain<H>>, b: nat, f: Compress<H>, ub: byte, n: nat, size: nat,
                        ghost iv: H, ghost msg: seq<byte>)
    requires 18 < b < 1024 && n < 8 && sc.Valid() && sc.buf.Length == b && sc.step == Step(b, f)
    requires sc.View() == Feed(Step(b, f), b, Ctx(Chain(iv, Counter(0, 0, 0, 0)), []), msg)
    modifies sc, sc.buf
    ensures Hashed(b, f, iv, msg, ub, n, size, sc.st.h)
  {
    hide HashedAt, Feed, Step, LittleEndian, CounterField, PadByte, Splits, Spec, Incr, PadTail, Trailer, Value, Words;
    ghost var k, r := Split(|msg|, b);
    ghost var bits := 8 * |msg| + n;
    ghost var t := Trailer(size, bits);
    Absorbed(b, f, iv, msg, k, r, PadTail(b, r, PadByte(ub, n), t), bits);
    var ptr, c, h := sc.ptr, sc.st.c, sc.st.h;
    var elen := 8 * ptr + n;
    CloseCounter(c, b, k, r, n, |msg|);
    c := Incr(c, elen);
    var trailer := LittleEndian(size, 2) + CounterField(c);
    TrailerBytes(size, c, bits);
    if elen == 0 {
      c := Counter(0, 0, 0, 0);
    }
    var count := Value(c);
    sc.CopyIn(ptr, [PadByte(ub, n)] + ZeroBytes(b - ptr - 1));
    ptr := ptr + 1;
    ghost var pend := msg[k * b..];
    assert sc.buf[..] == pend + [PadByte(ub, n)] + ZeroBytes(b - r - 1);
    if ptr > b - 18 {
      TwoBlockClose(b, f, iv, msg, k, r, ub, n, size, h, sc.buf[..], ZeroBytes(b - 18) + t, count);
      h := f(h, sc.buf[..], count);
      c := Counter(0, 0, 0, 0);
      count := Value(c);
      sc.CopyIn(0, ZeroBytes(b));
    } else {
      OneBlockClose(b, f, iv, msg, k, r, ub, n, size, h, pend + [PadByte(ub, n)] + ZeroBytes(b - r - 19) + t, count);
    }
    ghost var before := sc.buf[..];
    sc.CopyIn(b - 18, trailer);
    assert sc.buf[..] == before[..b - 18] + t;
    assert r + 1 <= b - 18 ==> before[..b - 18] == pend + [PadByte(ub, n)] + ZeroBytes(b - r - 19);
    assert r + 1 > b - 18 ==> before[..b - 18] == ZeroBytes(b - 18);
    sc.st := Chain(f(h, sc.buf[..], count), c);
  }

  /** Init, any update calls, close. */
  method Hash<H(!new)>(b: nat, f: Compress<H>, iv: H, pieces: seq<seq<byte>>, ub: byte, n: nat, size: nat) returns (h: H)
    requires 18 < b < 1024 && n < 8
    ensures Hashed(b, f, iv, Concat(pieces), ub, n, size, h)
  {
    hide Hashed, Feed, Step;
    var sc := new Stream(Step(b, f), b, Chain(iv, Counter(0, 0, 0, 0)));
    UpdateAll(sc, pieces);
    Close(sc, b, f, ub, n, size, iv, Concat(pieces));
    h := sc.st.h;
  }
}
