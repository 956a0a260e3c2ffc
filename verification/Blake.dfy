/** BLAKE (src/blake.c): the bit counter is rolled back before the padding is fed, so that the ordinary update
    loop brings it to the value the BLAKE submission (section 2.1) prescribes. Both word sizes are one model:
    `w` is 4 for BLAKE-224/256 and 8 for BLAKE-384/512. */
module Blake {
  import opened Arithmetic
  import opened HashStream
  import opened Padding

  predicate WordSize(w: nat) { w == 4 || w == 8 }

  function Word(w: nat): nat
    requires WordSize(w)
  {
    if w == 4 then 0x1_0000_0000 else 0x1_0000_0000_0000_0000
  }

  /** The chaining value and the two counter words. */
  datatype Chain<H> = Chain(h: H, t0: nat, t1: nat)

  /** The compression function: chaining value, block, counter words. */
  type Compress<!H> = (H, seq<byte>, nat, nat) -> H

  /** T0 += block bits, carrying into T1. */
  function Incr<H>(w: nat, c: Chain<H>): Chain<H>
    requires WordSize(w)
  {
    var t0 := (c.t0 + 128 * w) % Word(w);
    Chain(c.h, t0, if t0 < 128 * w then (c.t1 + 1) % Word(w) else c.t1)
  }

  /** What the update loop does with a full buffer. */
  function Step<H>(w: nat, f: Compress<H>): (Chain<H>, seq<byte>) -> Chain<H>
    requires WordSize(w)
  {
    (c: Chain<H>, b: seq<byte>) => var d := Incr(w, c); d.(h := f(d.h, b, d.t0, d.t1))
  }

  // ---- The specification

  /** Message bits up to and including block `i`; zero for a block that holds none. */
  function Counter(w: nat, bits: nat, i: nat): nat {
    if bits <= 128 * w * i then 0 else if bits < 128 * w * (i + 1) then bits else 128 * w * (i + 1)
  }

  /** The chaining value after `k` blocks of the padded message `p`, of which `bits` bits are message. */
  ghost function Spec<H>(w: nat, f: Compress<H>, iv: H, p: seq<byte>, bits: nat, k: nat): H
    requires WordSize(w) && k * (16 * w) <= |p|
  {
    if k == 0 then iv
    else
      BlockBounds(16 * w, k - 1);
      var c := Counter(w, bits, k - 1);
      f(Spec(w, f, iv, p, bits, k - 1), BlockAt(p, 16 * w, k - 1), c % Word(w), c / Word(w) % Word(w))
  }

  /** The zeros between the padding's first one and the marker bit. */
  function Gap(w: nat, bits: nat): nat
    requires WordSize(w)
  {
    (128 * w - (bits + 2 + 16 * w) % (128 * w)) % (128 * w)
  }

  /** Section 2.1.3: a one, zeros, the marker bit, and the length in two words. */
  ghost function PaddedBits(w: nat, m: seq<bool>, marker: bool): seq<bool>
    requires WordSize(w)
  {
    m + [true] + Falses(Gap(w, |m|)) + [marker] + Bits(BigEndian(|m|, 2 * w))
  }

  ghost function MessageBits(msg: seq<byte>, ub: byte, n: nat): (r: seq<bool>)
    requires n < 8
    ensures |r| == 8 * |msg| + n
  {
    Bits(msg) + ByteBits(ub)[..n]
  }

  // ---- The counter over whole message blocks

  lemma {:induction false} ThroughSpec<H>(w: nat, f: Compress<H>, iv: H, msg: seq<byte>, bits: nat, k: nat)
    requires WordSize(w) && k * (16 * w) <= |msg| && 8 * |msg| <= bits
    ensures var c := Through(Step(w, f), 16 * w, Chain(iv, 0, 0), msg, k);
            && c.h == Spec(w, f, iv, msg, bits, k)
            && c.t0 == 128 * w * k % Word(w) && c.t1 == 128 * w * k / Word(w) % Word(w)
  {
    if k > 0 {
      BlockBounds(16 * w, k - 1);
      ThroughSpec(w, f, iv, msg, bits, k - 1);
      IncrAdds(w, Through(Step(w, f), 16 * w, Chain(iv, 0, 0), msg, k - 1), k - 1);
      assert Counter(w, bits, k - 1) == 128 * w * k by { CounterFull(w, bits, k - 1); }
    }
  }

  lemma CounterFull(w: nat, bits: nat, i: nat)
    requires WordSize(w) && 8 * ((i + 1) * (16 * w)) <= bits
    ensures Counter(w, bits, i) == 128 * w * (i + 1)
  {
    assert 8 * ((i + 1) * (16 * w)) == 128 * w * (i + 1);
    assert 128 * w * (i + 1) == 128 * w * i + 128 * w;
  }

  /** The counter words hold 128 * w * k. */
  lemma IncrAdds<H>(w: nat, c: Chain<H>, k: nat)
    requires WordSize(w) && c.t0 == 128 * w * k % Word(w) && c.t1 == 128 * w * k / Word(w) % Word(w)
    ensures var d := Incr(w, c);
            d.h == c.h && d.t0 == 128 * w * (k + 1) % Word(w) && d.t1 == 128 * w * (k + 1) / Word(w) % Word(w)
  {
    if w == 4 {
      CarryStep(512 * k, 512, 0x1_0000_0000);
    } else {
      CarryStep(1024 * k, 1024, 0x1_0000_0000_0000_0000);
    }
  }

  /** Adding less than a word carries one into the high word exactly when the low word wraps. */
  lemma CarryStep(x: nat, d: nat, m: nat)
    requires 0 < d < m
    ensures (x + d) % m == (x % m + d) % m
    ensures (x + d) / m == x / m + (if x % m + d >= m then 1 else 0)
    ensures (x % m + d) % m < d <==> x % m + d >= m
    ensures (x / m % m + 1) % m == (x / m + 1) % m
  {
    Recompose(x, m);
    CarryParts(x, d, m, x / m, x % m);
    ModAddOne(x / m, m);
  }

  lemma CarryParts(x: nat, d: nat, m: nat, q: nat, r: nat)
    requires 0 < d < m && r < m && x == q * m + r
    ensures (x + d) % m == (r + d) % m && (x + d) / m == q + (if r + d >= m then 1 else 0)
    ensures (r + d) % m < d <==> r + d >= m
  {
    if r + d >= m {
      Difference(q, -1, m);
      DivUnique(x + d, m, q + 1, r + d - m);
      DivUnique(r + d, m, 1, r + d - m);
    } else {
      DivUnique(x + d, m, q, r + d);
      DivUnique(r + d, m, 0, r + d);
    }
  }

  lemma ModAddOne(q: nat, m: nat)
    requires m > 1
    ensures (q % m + 1) % m == (q + 1) % m
  {
    var a, b := q / m, q % m;
    Recompose(q, m);
    if b + 1 == m {
      Difference(a, -1, m);
      DivUnique(q + 1, m, a + 1, 0);
      DivUnique(b + 1, m, 1, 0);
    } else {
      DivUnique(q + 1, m, a, b + 1);
      DivUnique(b + 1, m, 0, b + 1);
    }
  }

  // ---- The rolled-back counter

  /** How blake32_close and blake64_close set T0 and T1 before feeding the first padded block. */
  function RollBack<H>(w: nat, c: Chain<H>, ptr: nat, n: nat): Chain<H>
    requires WordSize(w) && ptr < 16 * w && n < 8
  {
    var bitLen := 8 * ptr + n;
    if ptr == 0 && n == 0 then Chain(c.h, Word(w) - 128 * w, Word(w) - 1)
    else if c.t0 == 0 then Chain(c.h, Word(w) - 128 * w + bitLen, (c.t1 + Word(w) - 1) % Word(w))
    else Chain(c.h, (c.t0 + Word(w) - (128 * w - bitLen)) % Word(w), c.t1)
  }

  ghost predicate HasCount<H>(w: nat, c: Chain<H>, x: nat)
    requires WordSize(w)
  {
    c.t0 == x % Word(w) && c.t1 == x / Word(w) % Word(w)
  }

  lemma ModMultiple(d: nat, k: nat, p: nat)
    requires d > 0 && p > 0
    ensures d * p > 0 && d * k % (d * p) == d * (k % p)
  {
    var q, r := k / p, k % p;
    assert d * k == q * (d * p) + d * r by { assert k == q * p + r; assert d * (q * p) == q * (d * p); }
    assert d * r < d * p;
    DivUnique(d * k, d * p, q, d * r);
  }

  /** A whole number of blocks leaves room below the next carry. */
  lemma WholeBlocks(w: nat, k: nat)
    requires WordSize(w)
    ensures var t0 := 128 * w * k % Word(w); t0 + 128 * w <= Word(w) && (t0 == 0 || t0 >= 128 * w)
  {
    if w == 4 { ModMultiple(512, k, 0x80_0000); } else { ModMultiple(1024, k, 0x40_0000_0000_0000); }
  }

  lemma SmallAdd(x: nat, d: nat, m: nat)
    requires m > 0 && x % m + d < m
    ensures (x + d) % m == x % m + d && (x + d) / m == x / m
  {
    DivUnique(x + d, m, x / m, x % m + d);
  }

  lemma RollBackIncr<H>(w: nat, c: Chain<H>, ptr: nat, n: nat)
    requires WordSize(w) && ptr < 16 * w && n < 8 && c.t1 < Word(w)
    requires c.t0 + 128 * w <= Word(w) && (c.t0 == 0 || c.t0 >= 128 * w)
    ensures var d := Incr(w, RollBack(w, c, ptr, n));
            if 8 * ptr + n == 0 then d.t0 == 0 && d.t1 == 0 else d.t0 == c.t0 + (8 * ptr + n) && d.t1 == c.t1
  {
    var bitLen := 8 * ptr + n;
    var d := 128 * w;
    if bitLen > 0 && c.t0 > 0 {
      WrapOnce(c.t0 - (d - bitLen), Word(w));
      NoWrap(c.t0 + bitLen, Word(w));
    } else if bitLen > 0 {
      WrapOnce(bitLen, Word(w));
      PreviousNext(c.t1, Word(w));
    } else {
      WrapOnce(0, Word(w));
    }
  }

  lemma WrapOnce(x: nat, m: nat)
    requires x < m
    ensures (x + m) % m == x
  {
    DivUnique(x + m, m, 1, x);
  }

  lemma NoWrap(x: nat, m: nat)
    requires x < m
    ensures x % m == x
  {
    DivUnique(x, m, 0, x);
  }

  lemma PreviousNext(x: nat, m: nat)
    requires x < m
    ensures ((x + m - 1) % m + 1) % m == x
  {
    if x == 0 {
      NoWrap(m - 1, m);
      WrapOnce(0, m);
    } else {
      WrapOnce(x - 1, m);
      NoWrap(x, m);
    }
  }

  /** One ordinary increment takes the rolled-back counter to the message length, or to zero if the block
      holds no message bit. */
  lemma RollBackLands<H>(w: nat, c: Chain<H>, k: nat, ptr: nat, n: nat)
    requires WordSize(w) && ptr < 16 * w && n < 8 && HasCount(w, c, 128 * w * k)
    ensures HasCount(w, Incr(w, RollBack(w, c, ptr, n)), Counter(w, 128 * w * k + 8 * ptr + n, k))
  {
    hide Incr, RollBack;
    var x, bitLen := 128 * w * k, 8 * ptr + n;
    WholeBlocks(w, k);
    RollBackIncr(w, c, ptr, n);
    SmallAdd(x, bitLen, Word(w));
    CounterLast(w, k, bitLen);
  }

  lemma CounterLast(w: nat, k: nat, bitLen: nat)
    requires bitLen < 128 * w
    ensures Counter(w, 128 * w * k + bitLen, k) == if bitLen == 0 then 0 else 128 * w * k + bitLen
  {
    assert 128 * w * (k + 1) == 128 * w * k + 128 * w;
  }

  // ---- The padded message

  /** One padding block suffices up to 8 * (14w) - 2 bits in the last block. */
  predicate OneBlock(w: nat, bitLen: nat) { bitLen <= 112 * w - 2 }

  function Marker(marker: bool): byte { if marker then 1 else 0 }

  /** What stands after the message's whole bytes when one block suffices: up to the length field. */
  function ShortFill(w: nat, r: nat, pad: byte, marker: bool): seq<byte>
    requires r < 14 * w
  {
    if r == 14 * w - 1 then [pad | Marker(marker)] else [pad] + ZeroBytes(14 * w - 2 - r) + [Marker(marker)]
  }

  function LongFill(w: nat, r: nat, pad: byte, marker: bool): seq<byte>
    requires WordSize(w) && r < 16 * w
  {
    [pad] + ZeroBytes(16 * w - 1 - r) + ZeroBytes(14 * w - 1) + [Marker(marker)]
  }

  lemma MarkerBits(marker: bool)
    ensures ByteBits(Marker(marker)) == Falses(7) + [marker]
  {
    forall i | 0 <= i < 8 ensures Bit(Marker(marker), i) == (i == 7 && marker) {}
  }

  lemma SharedBit(ub: byte, n: nat, marker: bool, i: nat)
    requires n < 7 && i < 8
    ensures Bit(PadByte(ub, n) | Marker(marker), i) == if i < n then Bit(ub, i) else i == n || (i == 7 && marker)
  {
    var b := PadByte(ub, n);
    PadByteBits(ub, n, i);
    hide PadByte, Bit;
    if marker { LastBit(b, i); } else { assert b | 0 == b; }
  }

  /** The pad byte and the marker share a byte when at most six message bits are in it. */
  lemma SharedBits(ub: byte, n: nat, marker: bool)
    requires n < 7
    ensures ByteBits(PadByte(ub, n) | Marker(marker)) == ByteBits(ub)[..n] + [true] + Falses(6 - n) + [marker]
  {
    hide PadByte, Bit, Marker;
    var b := PadByte(ub, n) | Marker(marker);
    var want := ByteBits(ub)[..n] + [true] + Falses(6 - n) + [marker];
    forall i | 0 <= i < 8 ensures ByteBits(b)[i] == want[i] { SharedBit(ub, n, marker, i); }
  }

  /** The gap is the only one below a block that fills up a whole number of blocks. */
  lemma GapUnique(w: nat, bits: nat, gap: nat, k: nat)
    requires WordSize(w) && gap < 128 * w && bits + 2 + gap + 16 * w == 128 * w * k
    ensures gap == Gap(w, bits)
  {
    var d := 128 * w;
    var x := bits + 2 + 16 * w;
    assert x == d * k - gap;
    if gap == 0 {
      DivUnique(x, d, k, 0);
    } else {
      Difference(k, 1, d);
      assert x == (k - 1) * d + (d - gap);
      DivUnique(x, d, k - 1, d - gap);
    }
  }

  /** The bits of the fill: the rest of the message, a one, zeros and the marker. */
  ghost predicate FillsWith(fill: seq<byte>, ub: byte, n: nat, gap: nat, marker: bool)
    requires n < 8
  {
    Bits(fill) == ByteBits(ub)[..n] + [true] + Falses(gap) + [marker]
  }

  lemma CloseMarker(fill: seq<byte>, ub: byte, n: nat, gap: nat, marker: bool)
    requires n < 8 && OpensWith(fill, ub, n, gap)
    ensures FillsWith(fill + [Marker(marker)], ub, n, gap + 7, marker)
  {
    hide Bits, ByteBits, Marker;
    BitsConcat(fill, [Marker(marker)]);
    OneByteBits(Marker(marker));
    MarkerBits(marker);
    FalsesAdd(gap, 7);
    var x := ByteBits(ub)[..n] + [true];
    hide Falses;
    assert x + Falses(gap) + (Falses(7) + [marker]) == x + (Falses(gap) + Falses(7)) + [marker];
  }

  lemma ShortFillBits(w: nat, r: nat, ub: byte, n: nat, marker: bool)
    requires WordSize(w) && n < 8 && r < 16 * w && OneBlock(w, 8 * r + n)
    ensures r < 14 * w
    ensures FillsWith(ShortFill(w, r, PadByte(ub, n), marker), ub, n, 112 * w - 2 - 8 * r - n, marker)
  {
    hide PadByte, Marker, ByteBits, OpensWith, Bits, Falses, ZeroBytes;
    if r == 14 * w - 1 {
      SharedBits(ub, n, marker);
      OneByteBits(PadByte(ub, n) | Marker(marker));
    } else {
      hide FillsWith;
      OpenPad(ub, n);
      OpenZeros([PadByte(ub, n)], ub, n, 7 - n, 14 * w - 2 - r);
      CloseMarker([PadByte(ub, n)] + ZeroBytes(14 * w - 2 - r), ub, n, 112 * w - 9 - 8 * r - n, marker);
    }
  }

  lemma LongFillBits(w: nat, r: nat, ub: byte, n: nat, marker: bool)
    requires WordSize(w) && n < 8 && r < 16 * w
    ensures FillsWith(LongFill(w, r, PadByte(ub, n), marker), ub, n, 240 * w - 2 - 8 * r - n, marker)
  {
    hide PadByte, Marker, OpensWith, FillsWith, ZeroBytes;
    OpenPad(ub, n);
    OpenZeros([PadByte(ub, n)], ub, n, 7 - n, 16 * w - 1 - r);
    OpenZeros([PadByte(ub, n)] + ZeroBytes(16 * w - 1 - r), ub, n, 128 * w - 1 - 8 * r - n, 14 * w - 1);
    CloseMarker([PadByte(ub, n)] + ZeroBytes(16 * w - 1 - r) + ZeroBytes(14 * w - 1), ub, n, 240 * w - 9 - 8 * r - n, marker);
  }

  /** Message, fill and length together are the padded message of the specification. */
  lemma PaddedFromFill(w: nat, msg: seq<byte>, ub: byte, n: nat, marker: bool, fill: seq<byte>, gap: nat, k: nat)
    requires WordSize(w) && n < 8 && FillsWith(fill, ub, n, gap, marker)
    requires gap < 128 * w && 8 * |msg| + n + 2 + gap + 16 * w == 128 * w * k
    ensures Bits(msg + fill + BigEndian(8 * |msg| + n, 2 * w)) == PaddedBits(w, MessageBits(msg, ub, n), marker)
    ensures |msg + fill + BigEndian(8 * |msg| + n, 2 * w)| == k * (16 * w)
  {
    hide ByteBits, Bits, BigEndian, Gap, Falses, Word;
    var len := BigEndian(8 * |msg| + n, 2 * w);
    BitsConcat(msg + fill, len);
    BitsConcat(msg, fill);
    GapUnique(w, 8 * |msg| + n, gap, k);
    FillJoins(Bits(msg), ByteBits(ub)[..n], Falses(gap), marker);
    PaddedFilled(w, msg, ub, n, marker, fill, gap, k);
  }

  lemma PaddedFilled(w: nat, msg: seq<byte>, ub: byte, n: nat, marker: bool, fill: seq<byte>, gap: nat, k: nat)
    requires WordSize(w) && n < 8 && FillsWith(fill, ub, n, gap, marker)
    requires gap < 128 * w && 8 * |msg| + n + 2 + gap + 16 * w == 128 * w * k
    ensures |msg + fill + BigEndian(8 * |msg| + n, 2 * w)| == k * (16 * w)
  {
    hide ByteBits, Bits, BigEndian, Falses, Word, FillsWith;
    FillSize(fill, ub, n, gap, marker);
    EightTimes(|msg + fill + BigEndian(8 * |msg| + n, 2 * w)|, w, k);
  }

  lemma FillJoins(x: seq<bool>, y: seq<bool>, z: seq<bool>, marker: bool)
    ensures x + (y + [true] + z + [marker]) == x + y + [true] + z + [marker]
  {
  }

  lemma EightTimes(size: nat, w: nat, k: nat)
    requires 8 * size == 128 * w * k
    ensures size == k * (16 * w)
  {
    assert 128 * w * k == 8 * (k * (16 * w));
  }

  lemma FillSize(fill: seq<byte>, ub: byte, n: nat, gap: nat, marker: bool)
    requires n < 8 && FillsWith(fill, ub, n, gap, marker)
    ensures 8 * |fill| == n + 2 + gap
  {
    assert |Bits(fill)| == n + 1 + gap + 1;
  }

  /** The bytes after the message: fill and length field, with the number of blocks in all. */
  ghost function Tail(w: nat, msg: seq<byte>, ub: byte, n: nat, marker: bool): seq<byte>
    requires WordSize(w) && n < 8
  {
    var r := |msg| % (16 * w);
    var len := BigEndian(8 * |msg| + n, 2 * w);
    if OneBlock(w, 8 * r + n) then ShortFill(w, r, PadByte(ub, n), marker) + len
    else LongFill(w, r, PadByte(ub, n), marker) + len
  }

  /** The whole padded message. */
  ghost function Padded(w: nat, msg: seq<byte>, ub: byte, n: nat, marker: bool): seq<byte>
    requires WordSize(w) && n < 8
  {
    msg + Tail(w, msg, ub, n, marker)
  }

  function BlockCount(w: nat, size: nat, n: nat): nat
    requires WordSize(w)
  {
    size / (16 * w) + if OneBlock(w, 8 * (size % (16 * w)) + n) then 1 else 2
  }

  /** The bytes fed on closing complete the padding of section 2.1.3. */
  lemma PaddedIsSpec(w: nat, msg: seq<byte>, ub: byte, n: nat, marker: bool)
    requires WordSize(w) && n < 8
    ensures Bits(Padded(w, msg, ub, n, marker)) == PaddedBits(w, MessageBits(msg, ub, n), marker)
    ensures |Padded(w, msg, ub, n, marker)| == BlockCount(w, |msg|, n) * (16 * w)
  {
    hide ShortFill, LongFill, PaddedBits, Bits, MessageBits, BigEndian, PadByte;
    var k, r := |msg| / (16 * w), |msg| % (16 * w);
    WholeAndRest(w, |msg|);
    if OneBlock(w, 8 * r + n) {
      PaddedShort(w, msg, ub, n, marker, k, r);
    } else {
      PaddedLong(w, msg, ub, n, marker, k, r);
    }
  }

  lemma PaddedShort(w: nat, msg: seq<byte>, ub: byte, n: nat, marker: bool, k: nat, r: nat)
    requires WordSize(w) && n < 8 && r < 14 * w && OneBlock(w, 8 * r + n) && 8 * |msg| == 128 * w * k + 8 * r
    ensures var p := msg + (ShortFill(w, r, PadByte(ub, n), marker) + BigEndian(8 * |msg| + n, 2 * w));
            Bits(p) == PaddedBits(w, MessageBits(msg, ub, n), marker) && |p| == (k + 1) * (16 * w)
  {
    hide Bits, PaddedBits, FillsWith, BigEndian, PadByte, ShortFill, MessageBits;
    ShortFillBits(w, r, ub, n, marker);
    assert 128 * w * (k + 1) == 128 * w * k + 128 * w;
    var fill, len := ShortFill(w, r, PadByte(ub, n), marker), BigEndian(8 * |msg| + n, 2 * w);
    PaddedFromFill(w, msg, ub, n, marker, fill, 112 * w - 2 - 8 * r - n, k + 1);
    assert msg + fill + len == msg + (fill + len);
  }

  lemma PaddedLong(w: nat, msg: seq<byte>, ub: byte, n: nat, marker: bool, k: nat, r: nat)
    requires WordSize(w) && n < 8 && r < 16 * w && !OneBlock(w, 8 * r + n) && 8 * |msg| == 128 * w * k + 8 * r
    ensures var p := msg + (LongFill(w, r, PadByte(ub, n), marker) + BigEndian(8 * |msg| + n, 2 * w));
            Bits(p) == PaddedBits(w, MessageBits(msg, ub, n), marker) && |p| == (k + 2) * (16 * w)
  {
    hide Bits, PaddedBits, FillsWith, BigEndian, PadByte, LongFill, MessageBits;
    LongFillBits(w, r, ub, n, marker);
    assert 128 * w * (k + 2) == 128 * w * k + 256 * w;
    var fill, len := LongFill(w, r, PadByte(ub, n), marker), BigEndian(8 * |msg| + n, 2 * w);
    PaddedFromFill(w, msg, ub, n, marker, fill, 240 * w - 2 - 8 * r - n, k + 2);
    assert msg + fill + len == msg + (fill + len);
  }

  // ---- Closing

  /** The context `sc` has absorbed `msg` since it was initialised with `iv`. */
  ghost predicate Absorbed<H(!new)>(w: nat, f: Compress<H>, iv: H, c: Ctx<Chain<H>>, msg: seq<byte>)
    requires WordSize(w)
  {
    c == Feed(Step(w, f), 16 * w, Ctx(Chain(iv, 0, 0), []), msg)
  }

  lemma FeedOne<S>(g: (S, seq<byte>) -> S, n: nat, c: Ctx<S>, data: seq<byte>)
    requires n > 0 && |c.pend| < n && |c.pend| + |data| == n
    ensures Feed(g, n, c, data) == Ctx(g(c.st, c.pend + data), [])
  {
    assert data[..n - |c.pend|] == data && data[n - |c.pend|..] == [];
    assert Feed(g, n, Ctx(g(c.st, c.pend + data), []), []) == Ctx(g(c.st, c.pend + data), [] + []);
  }

  lemma {:induction false} SpecPrefix<H>(w: nat, f: Compress<H>, iv: H, a: seq<byte>, b: seq<byte>, bits: nat, k: nat)
    requires WordSize(w) && k * (16 * w) <= |a|
    ensures Spec(w, f, iv, a + b, bits, k) == Spec(w, f, iv, a, bits, k)
  {
    if k > 0 {
      BlockBounds(16 * w, k - 1);
      SpecPrefix(w, f, iv, a, b, bits, k - 1);
      assert BlockAt(a + b, 16 * w, k - 1) == BlockAt(a, 16 * w, k - 1);
    }
  }

  lemma WholeAndRest(w: nat, size: nat)
    requires w > 0
    ensures var k, r := size / (16 * w), size % (16 * w);
            size == k * (16 * w) + r && 8 * size == 128 * w * k + 8 * r && r < 16 * w
  {
    var k := size / (16 * w);
    assert 8 * (k * (16 * w)) == 128 * w * k;
  }

  /** What an absorbed context holds: the specified chaining value and count, and the incomplete block. */
  lemma AbsorbedMeans<H(!new)>(w: nat, f: Compress<H>, iv: H, c: Ctx<Chain<H>>, msg: seq<byte>, rest: seq<byte>, bits: nat)
    requires WordSize(w) && Absorbed(w, f, iv, c, msg) && 8 * |msg| <= bits
    ensures var k, r := |msg| / (16 * w), |msg| % (16 * w);
            && k * (16 * w) <= |msg| && |c.pend| == r < 16 * w && 8 * |msg| == 128 * w * k + 8 * r
            && c.pend == msg[k * (16 * w)..] && HasCount(w, c.st, 128 * w * k)
            && c.st.h == Spec(w, f, iv, msg + rest, bits, k)
  {
    hide Incr;
    WholeAndRest(w, |msg|);
    var k := |msg| / (16 * w);
    FeedIsThrough(Step(w, f), 16 * w, Chain(iv, 0, 0), msg, k);
    ThroughSpec(w, f, iv, msg, bits, k);
    SpecPrefix(w, f, iv, msg, rest, bits, k);
  }

  /** The first padded block. */
  lemma FirstBlock<H(!new)>(w: nat, f: Compress<H>, iv: H, c: Chain<H>, ptr: nat, n: nat, p: seq<byte>, bits: nat,
                            k: nat, block: seq<byte>)
    requires WordSize(w) && ptr < 16 * w && n < 8 && HasCount(w, c, 128 * w * k) && bits == 128 * w * k + 8 * ptr + n
    requires k * (16 * w) + 16 * w <= |p| && block == p[k * (16 * w)..k * (16 * w) + 16 * w]
    requires c.h == Spec(w, f, iv, p, bits, k)
    ensures (k + 1) * (16 * w) <= |p|
    ensures Step(w, f)(RollBack(w, c, ptr, n), block).h == Spec(w, f, iv, p, bits, k + 1)
  {
    hide Incr, RollBack, Counter;
    BlockBounds(16 * w, k);
    RollBackLands(w, c, k, ptr, n);
    assert BlockAt(p, 16 * w, k) == block;
    RollBackKeeps(w, c, ptr, n);
  }

  lemma RollBackKeeps<H>(w: nat, c: Chain<H>, ptr: nat, n: nat)
    requires WordSize(w) && ptr < 16 * w && n < 8
    ensures Incr(w, RollBack(w, c, ptr, n)).h == c.h
  {
  }

  /** A second padded block holds no message bit, and its counter is zero. */
  lemma SecondBlock<H(!new)>(w: nat, f: Compress<H>, iv: H, c: Chain<H>, p: seq<byte>, bits: nat, k: nat, block: seq<byte>)
    requires WordSize(w) && bits <= 128 * w * k && c.t0 == Word(w) - 128 * w && c.t1 == Word(w) - 1
    requires k * (16 * w) + 16 * w <= |p| && block == p[k * (16 * w)..k * (16 * w) + 16 * w]
    requires c.h == Spec(w, f, iv, p, bits, k)
    ensures (k + 1) * (16 * w) <= |p|
    ensures Step(w, f)(c, block).h == Spec(w, f, iv, p, bits, k + 1)
  {
    BlockBounds(16 * w, k);
    assert BlockAt(p, 16 * w, k) == block;
    assert Incr(w, c) == Chain(c.h, 0, 0);
    assert Counter(w, bits, k) == 0;
  }

  lemma WordPow(w: nat)
    requires WordSize(w)
    ensures Pow256(w) == Word(w)
  {
    assert Pow256(4) == 0x1_0000_0000 && Pow256(8) == 0x1_0000_0000_0000_0000;
  }

  lemma TwoWords(x: nat, w: nat)
    ensures Pow256(w) > 0
    ensures BigEndian(x / Pow256(w) % Pow256(w), w) + BigEndian(x % Pow256(w), w) == BigEndian(x, 2 * w)
  {
    hide BigEndian, Pow256;
    BigEndianMod(x, w);
    var hi, lo := x / Pow256(w), x % Pow256(w);
    assert x == hi * Pow256(w) + lo;
    BigEndianMod(hi, w);
    BigEndianSplit(hi, lo, w, w);
  }

  /** The length field is the number of message bits, in two words. */
  lemma LengthField<H>(w: nat, c: Chain<H>, k: nat, bitLen: nat)
    requires WordSize(w) && HasCount(w, c, 128 * w * k) && bitLen < 128 * w
    ensures BigEndian(c.t1, w) + BigEndian(c.t0 + bitLen, w) == BigEndian(128 * w * k + bitLen, 2 * w)
  {
    hide BigEndian;
    var x := 128 * w * k + bitLen;
    WholeBlocks(w, k);
    SmallAdd(128 * w * k, bitLen, Word(w));
    WordPow(w);
    TwoWords(x, w);
  }

  /** Feeding the rest of a padded block to the rolled-back context. */
  lemma FeedFirst<H(!new)>(w: nat, f: Compress<H>, iv: H, c: Ctx<Chain<H>>, n: nat, p: seq<byte>, bits: nat,
                           k: nat, x: seq<byte>)
    requires WordSize(w) && n < 8 && |c.pend| < 16 * w && |c.pend| + |x| == 16 * w && HasCount(w, c.st, 128 * w * k)
    requires bits == 128 * w * k + 8 * |c.pend| + n
    requires k * (16 * w) + 16 * w <= |p| && c.pend + x == p[k * (16 * w)..k * (16 * w) + 16 * w]
    requires c.st.h == Spec(w, f, iv, p, bits, k)
    ensures (k + 1) * (16 * w) <= |p|
    ensures var d := Feed(Step(w, f), 16 * w, c.(st := RollBack(w, c.st, |c.pend|, n)), x);
            d.pend == [] && d.st.h == Spec(w, f, iv, p, bits, k + 1)
  {
    hide RollBack, Spec, Step, HasCount;
    FeedOne(Step(w, f), 16 * w, c.(st := RollBack(w, c.st, |c.pend|, n)), x);
    FirstBlock(w, f, iv, c.st, |c.pend|, n, p, bits, k, c.pend + x);
  }

  lemma FeedSecond<H(!new)>(w: nat, f: Compress<H>, iv: H, c: Chain<H>, p: seq<byte>, bits: nat, k: nat, y: seq<byte>)
    requires WordSize(w) && |y| == 16 * w && bits <= 128 * w * k
    requires k * (16 * w) + 16 * w <= |p| && y == p[k * (16 * w)..k * (16 * w) + 16 * w]
    requires c.h == Spec(w, f, iv, p, bits, k)
    ensures (k + 1) * (16 * w) <= |p|
    ensures Feed(Step(w, f), 16 * w, Ctx(AllOnes(w, c), []), y).st.h == Spec(w, f, iv, p, bits, k + 1)
  {
    hide Spec, Step;
    FeedOne(Step(w, f), 16 * w, Ctx(AllOnes(w, c), []), y);
    assert [] + y == y;
    SecondBlock(w, f, iv, AllOnes(w, c), p, bits, k, y);
  }

  lemma TailSize(w: nat, msg: seq<byte>, ub: byte, n: nat, marker: bool)
    requires WordSize(w) && n < 8
    ensures var r := |msg| % (16 * w);
            |Tail(w, msg, ub, n, marker)| == (if OneBlock(w, 8 * r + n) then 16 * w else 32 * w) - r
  {
  }

  lemma ShortClose<H(!new)>(w: nat, f: Compress<H>, iv: H, c: Ctx<Chain<H>>, msg: seq<byte>, ub: byte, n: nat, marker: bool)
    requires WordSize(w) && n < 8 && Absorbed(w, f, iv, c, msg) && OneBlock(w, 8 * (|msg| % (16 * w)) + n)
    ensures |c.pend| == |msg| % (16 * w)
    ensures var p := Padded(w, msg, ub, n, marker);
            var j := |msg| / (16 * w) + 1;
            && j * (16 * w) <= |p|
            && Feed(Step(w, f), 16 * w, c.(st := RollBack(w, c.st, |c.pend|, n)), Tail(w, msg, ub, n, marker)).st.h
               == Spec(w, f, iv, p, 8 * |msg| + n, j)
  {
    hide Absorbed, RollBack, Tail, Spec, Step, HasCount, OneBlock;
    var k := |msg| / (16 * w);
    var bits, tail := 8 * |msg| + n, Tail(w, msg, ub, n, marker);
    AbsorbedMeans(w, f, iv, c, msg, tail, bits);
    TailSize(w, msg, ub, n, marker);
    PaddedEnds(w, msg, tail, c.pend, k);
    FeedFirst(w, f, iv, c, n, msg + tail, bits, k, tail);
  }

  /** After the whole blocks of the message come its incomplete block and the tail. */
  lemma PaddedEnds(w: nat, msg: seq<byte>, tail: seq<byte>, pend: seq<byte>, k: nat)
    requires k * (16 * w) <= |msg| && pend == msg[k * (16 * w)..]
    ensures (msg + tail)[k * (16 * w)..] == pend + tail
    ensures |msg + tail| == k * (16 * w) + |pend + tail|
  {
  }

  lemma LongFillSize(w: nat, r: nat, pad: byte, marker: bool)
    requires WordSize(w) && r < 16 * w
    ensures |LongFill(w, r, pad, marker)| == 30 * w - r
  {
  }

  /** The context between the two blocks of a long closing. */
  ghost function Between<H>(w: nat, f: Compress<H>, c: Ctx<Chain<H>>, n: nat, tail: seq<byte>): Ctx<Chain<H>>
    requires WordSize(w) && |c.pend| < 16 * w && n < 8 && |tail| >= 16 * w - |c.pend|
  {
    Feed(Step(w, f), 16 * w, c.(st := RollBack(w, c.st, |c.pend|, n)), tail[..16 * w - |c.pend|])
  }

  function AllOnes<H>(w: nat, c: Chain<H>): Chain<H>
    requires WordSize(w)
  {
    c.(t0 := Word(w) - 128 * w, t1 := Word(w) - 1)
  }

  lemma LongClose<H(!new)>(w: nat, f: Compress<H>, iv: H, c: Ctx<Chain<H>>, msg: seq<byte>, ub: byte, n: nat, marker: bool)
    requires WordSize(w) && n < 8 && Absorbed(w, f, iv, c, msg) && !OneBlock(w, 8 * (|msg| % (16 * w)) + n)
    ensures |c.pend| == |msg| % (16 * w)
    ensures var p := Padded(w, msg, ub, n, marker);
            var tail := Tail(w, msg, ub, n, marker);
            var j := |msg| / (16 * w) + 2;
            && j * (16 * w) <= |p| && |tail| == 32 * w - |c.pend|
            && Between(w, f, c, n, tail).pend == []
            && Feed(Step(w, f), 16 * w, Ctx(AllOnes(w, Between(w, f, c, n, tail).st), []), tail[16 * w - |c.pend|..]).st.h
               == Spec(w, f, iv, p, 8 * |msg| + n, j)
  {
    hide Absorbed, RollBack, Tail, Spec, Step, HasCount, OneBlock, AllOnes;
    var k := |msg| / (16 * w);
    var bits, tail := 8 * |msg| + n, Tail(w, msg, ub, n, marker);
    AbsorbedMeans(w, f, iv, c, msg, tail, bits);
    TailSize(w, msg, ub, n, marker);
    PaddedEnds(w, msg, tail, c.pend, k);
    BlockBounds(16 * w, k);
    LongParts(w, msg + tail, c.pend, tail, k);
    FeedFirst(w, f, iv, c, n, msg + tail, bits, k, tail[..16 * w - |c.pend|]);
    LongBits(w, bits, k, |c.pend|, n);
    FeedSecond(w, f, iv, Between(w, f, c, n, tail).st, msg + tail, bits, k + 1, tail[16 * w - |c.pend|..]);
  }

  lemma LongBits(w: nat, bits: nat, k: nat, r: nat, n: nat)
    requires bits == 128 * w * k + 8 * r + n && r < 16 * w && n < 8
    ensures bits <= 128 * w * (k + 1)
  {
    assert 128 * w * (k + 1) == 128 * w * k + 128 * w;
  }

  lemma LongParts(w: nat, p: seq<byte>, pend: seq<byte>, tail: seq<byte>, k: nat)
    requires k * (16 * w) + 32 * w == |p| && (k + 1) * (16 * w) == k * (16 * w) + 16 * w
    requires p[k * (16 * w)..] == pend + tail && |pend| <= 16 * w
    ensures p[k * (16 * w)..k * (16 * w) + 16 * w] == pend + tail[..16 * w - |pend|]
    ensures p[(k + 1) * (16 * w)..(k + 1) * (16 * w) + 16 * w] == tail[16 * w - |pend|..]
  {
    var o := k * (16 * w);
    assert p[o..o + 16 * w] == p[o..][..16 * w];
    assert p[o + 16 * w..o + 32 * w] == p[o..][16 * w..];
  }

  /** `h` is the specification's chaining value for `msg` followed by the first `n` bits of `ub`. */
  ghost predicate Closed<H>(w: nat, f: Compress<H>, iv: H, msg: seq<byte>, ub: byte, n: nat, marker: bool, h: H)
    requires WordSize(w) && n < 8
  {
    var p := Padded(w, msg, ub, n, marker);
    var k := BlockCount(w, |msg|, n);
    && |p| == k * (16 * w)
    && Bits(p) == PaddedBits(w, MessageBits(msg, ub, n), marker)
    && h == Spec(w, f, iv, p, 8 * |msg| + n, k)
  }

  lemma ShortClosed<H(!new)>(w: nat, f: Compress<H>, iv: H, c: Ctx<Chain<H>>, msg: seq<byte>, ub: byte, n: nat,
                             marker: bool, fill: seq<byte>)
    requires WordSize(w) && n < 8 && Absorbed(w, f, iv, c, msg) && OneBlock(w, 8 * |c.pend| + n) && |c.pend| < 14 * w
    requires fill == ShortFill(w, |c.pend|, PadByte(ub, n), marker)
                     + (BigEndian(c.st.t1, w) + BigEndian(c.st.t0 + 8 * |c.pend| + n, w))
    ensures Closed(w, f, iv, msg, ub, n, marker,
                   Feed(Step(w, f), 16 * w, c.(st := RollBack(w, c.st, |c.pend|, n)), fill).st.h)
  {
    hide Absorbed, RollBack, Spec, PaddedBits, Step, BigEndian, Bits, MessageBits, PadByte, ShortFill, Feed, HasCount;
    PaddedIsSpec(w, msg, ub, n, marker);
    AbsorbedMeans(w, f, iv, c, msg, [], 8 * |msg|);
    LengthField(w, c.st, |msg| / (16 * w), 8 * |c.pend| + n);
    ShortClose(w, f, iv, c, msg, ub, n, marker);
    assert fill == Tail(w, msg, ub, n, marker);
  }

  lemma LongClosed<H(!new)>(w: nat, f: Compress<H>, iv: H, c: Ctx<Chain<H>>, msg: seq<byte>, ub: byte, n: nat,
                            marker: bool, fill: seq<byte>)
    requires WordSize(w) && n < 8 && Absorbed(w, f, iv, c, msg) && !OneBlock(w, 8 * |c.pend| + n) && |c.pend| < 16 * w
    requires fill == LongFill(w, |c.pend|, PadByte(ub, n), marker)
                     + (BigEndian(c.st.t1, w) + BigEndian(c.st.t0 + 8 * |c.pend| + n, w))
    ensures Between(w, f, c, n, fill).pend == []
    ensures Closed(w, f, iv, msg, ub, n, marker,
                   Feed(Step(w, f), 16 * w, Ctx(AllOnes(w, Between(w, f, c, n, fill).st), []), fill[16 * w - |c.pend|..]).st.h)
  {
    hide Absorbed, RollBack, Spec, PaddedBits, Step, BigEndian, Bits, MessageBits, PadByte, LongFill, Feed, HasCount,
      Between, AllOnes;
    PaddedIsSpec(w, msg, ub, n, marker);
    AbsorbedMeans(w, f, iv, c, msg, [], 8 * |msg|);
    LengthField(w, c.st, |msg| / (16 * w), 8 * |c.pend| + n);
    LongClose(w, f, iv, c, msg, ub, n, marker);
    assert fill == Tail(w, msg, ub, n, marker);
  }

  /** blake32_close and blake64_close up to the output: whatever was absorbed and however it was cut, the final
      chaining value is that of the specification on the padded message. */
  method Close<H(!new)>(sc: Stream<Chain<H>>, w: nat, f: Compress<H>, marker: bool, ub: byte, n: nat,
                        ghost iv: H, ghost msg: seq<byte>)
    requires WordSize(w) && n < 8 && sc.Valid() && sc.buf.Length == 16 * w && sc.step == Step(w, f)
    requires Absorbed(w, f, iv, sc.View(), msg)
    modifies sc, sc.buf
    ensures Closed(w, f, iv, msg, ub, n, marker, sc.st.h)
  {
    hide Absorbed, RollBack, Spec, Step, BigEndian, PadByte, Closed, Feed, AllOnes, ShortFill, LongFill;
    ghost var c := sc.View();
    var ptr := sc.ptr;
    var tl, th := sc.st.t0 + 8 * ptr + n, sc.st.t1;
    sc.st := RollBack(w, sc.st, ptr, n);
    if 8 * ptr + n <= 112 * w - 2 {
      var fill := ShortFill(w, ptr, PadByte(ub, n), marker) + (BigEndian(th, w) + BigEndian(tl, w));
      ShortClosed(w, f, iv, c, msg, ub, n, marker, fill);
      sc.Update(fill);
    } else {
      var fill := LongFill(w, ptr, PadByte(ub, n), marker) + (BigEndian(th, w) + BigEndian(tl, w));
      LongFillSize(w, ptr, PadByte(ub, n), marker);
      LongClosed(w, f, iv, c, msg, ub, n, marker, fill);
      sc.Update(fill[..16 * w - ptr]);
      sc.st := AllOnes(w, sc.st);
      sc.Update(fill[16 * w - ptr..]);
    }
  }

  /** A whole hash: init, one update call for each piece, close. */
  method Hash<H(!new)>(w: nat, f: Compress<H>, marker: bool, iv: H, pieces: seq<seq<byte>>, ub: byte, n: nat)
    returns (h: H)
    requires WordSize(w) && n < 8
    ensures Closed(w, f, iv, Concat(pieces), ub, n, marker, h)
  {
    hide Closed, Step, Feed;
    var sc := new Stream(Step(w, f), 16 * w, Chain(iv, 0, 0));
    UpdateAll(sc, pieces);
    Close(sc, w, f, marker, ub, n, iv, Concat(pieces));
    h := sc.st.h;
  }
}
