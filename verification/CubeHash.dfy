/** CubeHash (src/cubehash.c): two rounds with renamed registers in place of word swaps, and the hash around them. */
module CubeHash {
  import opened Arithmetic
  import opened HashStream
  import opened Padding

  type Word = bv32

  function Add(a: Word, b: Word): Word { a + b }
  function Xor(a: Word, b: Word): Word { a ^ b }
  function Rol7(a: Word): Word { a.RotateLeft(7) }
  function Rol11(a: Word): Word { a.RotateLeft(11) }

  /** Sixteen words; the letter is the low four bits of the index. */
  datatype Half = Half(x0: Word, x1: Word, x2: Word, x3: Word, x4: Word, x5: Word, x6: Word, x7: Word,
                       x8: Word, x9: Word, xa: Word, xb: Word, xc: Word, xd: Word, xe: Word, xf: Word)

  /** The words x_00000 to x_01111 and x_10000 to x_11111. */
  datatype State = State(lo: Half, hi: Half)

  // ---- The round of the specification (2.B.1)

  function Adds(a: Half, b: Half): Half {
    Half(Add(a.x0, b.x0), Add(a.x1, b.x1), Add(a.x2, b.x2), Add(a.x3, b.x3),
         Add(a.x4, b.x4), Add(a.x5, b.x5), Add(a.x6, b.x6), Add(a.x7, b.x7),
         Add(a.x8, b.x8), Add(a.x9, b.x9), Add(a.xa, b.xa), Add(a.xb, b.xb),
         Add(a.xc, b.xc), Add(a.xd, b.xd), Add(a.xe, b.xe), Add(a.xf, b.xf))
  }

  function Xors(a: Half, b: Half): Half {
    Half(Xor(a.x0, b.x0), Xor(a.x1, b.x1), Xor(a.x2, b.x2), Xor(a.x3, b.x3),
         Xor(a.x4, b.x4), Xor(a.x5, b.x5), Xor(a.x6, b.x6), Xor(a.x7, b.x7),
         Xor(a.x8, b.x8), Xor(a.x9, b.x9), Xor(a.xa, b.xa), Xor(a.xb, b.xb),
         Xor(a.xc, b.xc), Xor(a.xd, b.xd), Xor(a.xe, b.xe), Xor(a.xf, b.xf))
  }

  function Rols7(a: Half): Half {
    Half(Rol7(a.x0), Rol7(a.x1), Rol7(a.x2), Rol7(a.x3),
         Rol7(a.x4), Rol7(a.x5), Rol7(a.x6), Rol7(a.x7),
         Rol7(a.x8), Rol7(a.x9), Rol7(a.xa), Rol7(a.xb),
         Rol7(a.xc), Rol7(a.xd), Rol7(a.xe), Rol7(a.xf))
  }

  function Rols11(a: Half): Half {
    Half(Rol11(a.x0), Rol11(a.x1), Rol11(a.x2), Rol11(a.x3),
         Rol11(a.x4), Rol11(a.x5), Rol11(a.x6), Rol11(a.x7),
         Rol11(a.x8), Rol11(a.x9), Rol11(a.xa), Rol11(a.xb),
         Rol11(a.xc), Rol11(a.xd), Rol11(a.xe), Rol11(a.xf))
  }

  /** Swaps the words whose indices differ in the bit 8. */
  function Swap8(a: Half): Half {
    Half(a.x8, a.x9, a.xa, a.xb,
         a.xc, a.xd, a.xe, a.xf,
         a.x0, a.x1, a.x2, a.x3,
         a.x4, a.x5, a.x6, a.x7)
  }

  /** Swaps the words whose indices differ in the bit 4. */
  function Swap4(a: Half): Half {
    Half(a.x4, a.x5, a.x6, a.x7,
         a.x0, a.x1, a.x2, a.x3,
         a.xc, a.xd, a.xe, a.xf,
         a.x8, a.x9, a.xa, a.xb)
  }

  /** Swaps the words whose indices differ in the bit 2. */
  function Swap2(a: Half): Half {
    Half(a.x2, a.x3, a.x0, a.x1,
         a.x6, a.x7, a.x4, a.x5,
         a.xa, a.xb, a.x8, a.x9,
         a.xe, a.xf, a.xc, a.xd)
  }

  /** Swaps the words whose indices differ in the bit 1. */
  function Swap1(a: Half): Half {
    Half(a.x1, a.x0, a.x3, a.x2,
         a.x5, a.x4, a.x7, a.x6,
         a.x9, a.x8, a.xb, a.xa,
         a.xd, a.xc, a.xf, a.xe)
  }

  /** Ten steps: add, rotate by 7, swap, exclusive or, swap; and again with 11. */
  function Round(s: State): State {
    var hi := Adds(s.lo, s.hi);
    var lo := Xors(Swap8(Rols7(s.lo)), hi);
    var hi' := Adds(lo, Swap2(hi));
    var lo' := Xors(Swap4(Rols11(lo)), hi');
    State(lo', Swap1(hi'))
  }

  function Rounds(s: State, n: nat): State { if n == 0 then s else Round(Rounds(s, n - 1)) }

  // ---- The macros

  /** Which register holds which word after a ROUND_EVEN. */
  function Renamed(s: State): State { State(Swap8(Swap4(s.lo)), Swap2(Swap1(s.hi))) }

  lemma RenamedTwice(s: State)
    ensures Renamed(Renamed(s)) == s
  {
  }

  /** ROUND_EVEN is a round that leaves the words in other registers. */
  method RoundEven(s: State) returns (r: State)
    ensures r == Renamed(Round(s))
  {
    hide Add, Rol7, Rol11, Xor;
    var x0, x1, x2, x3, x4, x5, x6, x7 :=
      s.lo.x0, s.lo.x1, s.lo.x2, s.lo.x3, s.lo.x4, s.lo.x5, s.lo.x6, s.lo.x7;
    var x8, x9, xa, xb, xc, xd, xe, xf :=
      s.lo.x8, s.lo.x9, s.lo.xa, s.lo.xb, s.lo.xc, s.lo.xd, s.lo.xe, s.lo.xf;
    var xg, xh, xi, xj, xk, xl, xm, xn :=
      s.hi.x0, s.hi.x1, s.hi.x2, s.hi.x3, s.hi.x4, s.hi.x5, s.hi.x6, s.hi.x7;
    var xo, xp, xq, xr, xs, xt, xu, xv :=
      s.hi.x8, s.hi.x9, s.hi.xa, s.hi.xb, s.hi.xc, s.hi.xd, s.hi.xe, s.hi.xf;
    xg := Add(x0, xg); x0 := Rol7(x0); xh := Add(x1, xh); x1 := Rol7(x1);
    xi := Add(x2, xi); x2 := Rol7(x2); xj := Add(x3, xj); x3 := Rol7(x3);
    xk := Add(x4, xk); x4 := Rol7(x4); xl := Add(x5, xl); x5 := Rol7(x5);
    xm := Add(x6, xm); x6 := Rol7(x6); xn := Add(x7, xn); x7 := Rol7(x7);
    xo := Add(x8, xo); x8 := Rol7(x8); xp := Add(x9, xp); x9 := Rol7(x9);
    xq := Add(xa, xq); xa := Rol7(xa); xr := Add(xb, xr); xb := Rol7(xb);
    xs := Add(xc, xs); xc := Rol7(xc); xt := Add(xd, xt); xd := Rol7(xd);
    xu := Add(xe, xu); xe := Rol7(xe); xv := Add(xf, xv); xf := Rol7(xf);
    x8 := Xor(x8, xg); x9 := Xor(x9, xh); xa := Xor(xa, xi); xb := Xor(xb, xj);
    xc := Xor(xc, xk); xd := Xor(xd, xl); xe := Xor(xe, xm); xf := Xor(xf, xn);
    x0 := Xor(x0, xo); x1 := Xor(x1, xp); x2 := Xor(x2, xq); x3 := Xor(x3, xr);
    x4 := Xor(x4, xs); x5 := Xor(x5, xt); x6 := Xor(x6, xu); x7 := Xor(x7, xv);
    xi := Add(x8, xi); x8 := Rol11(x8); xj := Add(x9, xj); x9 := Rol11(x9);
    xg := Add(xa, xg); xa := Rol11(xa); xh := Add(xb, xh); xb := Rol11(xb);
    xm := Add(xc, xm); xc := Rol11(xc); xn := Add(xd, xn); xd := Rol11(xd);
    xk := Add(xe, xk); xe := Rol11(xe); xl := Add(xf, xl); xf := Rol11(xf);
    xq := Add(x0, xq); x0 := Rol11(x0); xr := Add(x1, xr); x1 := Rol11(x1);
    xo := Add(x2, xo); x2 := Rol11(x2); xp := Add(x3, xp); x3 := Rol11(x3);
    xu := Add(x4, xu); x4 := Rol11(x4); xv := Add(x5, xv); x5 := Rol11(x5);
    xs := Add(x6, xs); x6 := Rol11(x6); xt := Add(x7, xt); x7 := Rol11(x7);
    xc := Xor(xc, xi); xd := Xor(xd, xj); xe := Xor(xe, xg); xf := Xor(xf, xh);
    x8 := Xor(x8, xm); x9 := Xor(x9, xn); xa := Xor(xa, xk); xb := Xor(xb, xl);
    x4 := Xor(x4, xq); x5 := Xor(x5, xr); x6 := Xor(x6, xo); x7 := Xor(x7, xp);
    x0 := Xor(x0, xu); x1 := Xor(x1, xv); x2 := Xor(x2, xs); x3 := Xor(x3, xt);
    r := State(Half(x0, x1, x2, x3, x4, x5, x6, x7, x8, x9, xa, xb, xc, xd, xe, xf),
               Half(xg, xh, xi, xj, xk, xl, xm, xn, xo, xp, xq, xr, xs, xt, xu, xv));
  }

  /** ROUND_ODD is a round on words that stand in those registers, and puts them back. */
  method RoundOdd(s: State) returns (r: State)
    ensures r == Round(Renamed(s))
  {
    hide Add, Rol7, Rol11, Xor;
    var x0, x1, x2, x3, x4, x5, x6, x7 :=
      s.lo.x0, s.lo.x1, s.lo.x2, s.lo.x3, s.lo.x4, s.lo.x5, s.lo.x6, s.lo.x7;
    var x8, x9, xa, xb, xc, xd, xe, xf :=
      s.lo.x8, s.lo.x9, s.lo.xa, s.lo.xb, s.lo.xc, s.lo.xd, s.lo.xe, s.lo.xf;
    var xg, xh, xi, xj, xk, xl, xm, xn :=
      s.hi.x0, s.hi.x1, s.hi.x2, s.hi.x3, s.hi.x4, s.hi.x5, s.hi.x6, s.hi.x7;
    var xo, xp, xq, xr, xs, xt, xu, xv :=
      s.hi.x8, s.hi.x9, s.hi.xa, s.hi.xb, s.hi.xc, s.hi.xd, s.hi.xe, s.hi.xf;
    xj := Add(xc, xj); xc := Rol7(xc); xi := Add(xd, xi); xd := Rol7(xd);
    xh := Add(xe, xh); xe := Rol7(xe); xg := Add(xf, xg); xf := Rol7(xf);
    xn := Add(x8, xn); x8 := Rol7(x8); xm := Add(x9, xm); x9 := Rol7(x9);
    xl := Add(xa, xl); xa := Rol7(xa); xk := Add(xb, xk); xb := Rol7(xb);
    xr := Add(x4, xr); x4 := Rol7(x4); xq := Add(x5, xq); x5 := Rol7(x5);
    xp := Add(x6, xp); x6 := Rol7(x6); xo := Add(x7, xo); x7 := Rol7(x7);
    xv := Add(x0, xv); x0 := Rol7(x0); xu := Add(x1, xu); x1 := Rol7(x1);
    xt := Add(x2, xt); x2 := Rol7(x2); xs := Add(x3, xs); x3 := Rol7(x3);
    x4 := Xor(x4, xj); x5 := Xor(x5, xi); x6 := Xor(x6, xh); x7 := Xor(x7, xg);
    x0 := Xor(x0, xn); x1 := Xor(x1, xm); x2 := Xor(x2, xl); x3 := Xor(x3, xk);
    xc := Xor(xc, xr); xd := Xor(xd, xq); xe := Xor(xe, xp); xf := Xor(xf, xo);
    x8 := Xor(x8, xv); x9 := Xor(x9, xu); xa := Xor(xa, xt); xb := Xor(xb, xs);
    xh := Add(x4, xh); x4 := Rol11(x4); xg := Add(x5, xg); x5 := Rol11(x5);
    xj := Add(x6, xj); x6 := Rol11(x6); xi := Add(x7, xi); x7 := Rol11(x7);
    xl := Add(x0, xl); x0 := Rol11(x0); xk := Add(x1, xk); x1 := Rol11(x1);
    xn := Add(x2, xn); x2 := Rol11(x2); xm := Add(x3, xm); x3 := Rol11(x3);
    xp := Add(xc, xp); xc := Rol11(xc); xo := Add(xd, xo); xd := Rol11(xd);
    xr := Add(xe, xr); xe := Rol11(xe); xq := Add(xf, xq); xf := Rol11(xf);
    xt := Add(x8, xt); x8 := Rol11(x8); xs := Add(x9, xs); x9 := Rol11(x9);
    xv := Add(xa, xv); xa := Rol11(xa); xu := Add(xb, xu); xb := Rol11(xb);
    x0 := Xor(x0, xh); x1 := Xor(x1, xg); x2 := Xor(x2, xj); x3 := Xor(x3, xi);
    x4 := Xor(x4, xl); x5 := Xor(x5, xk); x6 := Xor(x6, xn); x7 := Xor(x7, xm);
    x8 := Xor(x8, xp); x9 := Xor(x9, xo); xa := Xor(xa, xr); xb := Xor(xb, xq);
    xc := Xor(xc, xt); xd := Xor(xd, xs); xe := Xor(xe, xv); xf := Xor(xf, xu);
    r := State(Half(x0, x1, x2, x3, x4, x5, x6, x7, x8, x9, xa, xb, xc, xd, xe, xf),
               Half(xg, xh, xi, xj, xk, xl, xm, xn, xo, xp, xq, xr, xs, xt, xu, xv));
  }

  /** SIXTEEN_ROUNDS, however far unrolled. */
  method SixteenRounds(s: State, unroll: nat) returns (r: State)
    requires unroll in [2, 4, 8, 16]
    ensures r == Rounds(s, 16)
  {
    hide Round, Renamed;
    r := s;
    for j := 0 to 16 / unroll
      invariant r == Rounds(s, unroll * j)
    {
      for k := 0 to unroll / 2
        invariant r == Rounds(s, unroll * j + 2 * k)
      {
        var n := unroll * j + 2 * k;
        RenamedTwice(Round(r));
        r := RoundEven(r);
        r := RoundOdd(r);
        assert r == Round(Round(Rounds(s, n))) == Rounds(s, n + 2);
      }
    }
  }

  // ---- The hash

  /** A word of a block, little-endian. */
  function Word32(b: seq<byte>, o: nat): Word {
    if o + 4 <= |b| then
      (b[o] as Word) | ((b[o + 1] as Word) << 8) | ((b[o + 2] as Word) << 16) | ((b[o + 3] as Word) << 24)
    else 0
  }

  /** INPUT_BLOCK: the block goes into the first 32 bytes of the state. */
  function Input(s: State, b: seq<byte>): State {
    var h := s.lo;
    s.(lo := h.(x0 := Xor(h.x0, Word32(b, 0)), x1 := Xor(h.x1, Word32(b, 4)), x2 := Xor(h.x2, Word32(b, 8)),
                x3 := Xor(h.x3, Word32(b, 12)), x4 := Xor(h.x4, Word32(b, 16)), x5 := Xor(h.x5, Word32(b, 20)),
                x6 := Xor(h.x6, Word32(b, 24)), x7 := Xor(h.x7, Word32(b, 28))))
  }

  function Step(s: State, b: seq<byte>): State { Rounds(Input(s, b), 16) }

  /** One is added, without carry, into the last word. */
  function FlipLast(s: State): State { s.(hi := s.hi.(xf := Xor(s.hi.xf, 1))) }

  /** The message, a one, and zeros up to a whole number of 32-byte blocks. */
  ghost function PaddedBits(m: seq<bool>): seq<bool> {
    m + [true] + Falses(255 - |m| % 256)
  }

  function Padded(msg: seq<byte>, ub: byte, n: nat): seq<byte>
    requires n < 8
  {
    msg + [PadByte(ub, n)] + ZeroBytes(31 - |msg| % 32)
  }

  /** The final state for a message: its padded blocks go through, the last word is flipped, and ten times sixteen
      rounds follow. */
  ghost predicate Hashed(iv: State, msg: seq<byte>, ub: byte, n: nat, final: State)
    requires n < 8
  {
    var p := Padded(msg, ub, n);
    var k := |msg| / 32 + 1;
    && |p| == 32 * k
    && Bits(p) == PaddedBits(Bits(msg) + ByteBits(ub)[..n])
    && final == Rounds(FlipLast(Through(Step, 32, iv, p, k)), 160)
  }

  lemma PaddedIsSpec(msg: seq<byte>, ub: byte, n: nat)
    requires n < 8
    ensures |Padded(msg, ub, n)| == 32 * (|msg| / 32 + 1)
    ensures Bits(Padded(msg, ub, n)) == PaddedBits(Bits(msg) + ByteBits(ub)[..n])
  {
    hide Bits, ByteBits, PadByte, ZeroBytes, OpensWith;
    var pad, r := [PadByte(ub, n)], |msg| % 32;
    OpenPad(ub, n);
    OpenZeros(pad, ub, n, 7 - n, 31 - r);
    PaddedOpen(msg, pad + ZeroBytes(31 - r), ub, n);
    assert msg + pad + ZeroBytes(31 - r) == msg + (pad + ZeroBytes(31 - r));
  }

  lemma PaddedOpen(msg: seq<byte>, fill: seq<byte>, ub: byte, n: nat)
    requires n < 8 && OpensWith(fill, ub, n, 255 - 8 * (|msg| % 32) - n)
    ensures Bits(msg + fill) == PaddedBits(Bits(msg) + ByteBits(ub)[..n])
  {
    hide Bits, ByteBits, Falses;
    BitsConcat(msg, fill);
    var m := Bits(msg) + ByteBits(ub)[..n];
    BitsLeft(|msg|, n);
    var zeros := Falses(255 - |m| % 256);
    assert Bits(msg) + (ByteBits(ub)[..n] + [true] + zeros) == m + [true] + zeros;
  }

  lemma BitsLeft(size: nat, n: nat)
    requires n < 8
    ensures (8 * size + n) % 256 == 8 * (size % 32) + n
  {
    var k, r := size / 32, size % 32;
    assert size == 32 * k + r;
    DivUnique(8 * size + n, 256, k, 8 * r + n);
  }

  lemma {:induction false} RoundsAdd(s: State, a: nat, b: nat)
    ensures Rounds(Rounds(s, a), b) == Rounds(s, a + b)
  {
    hide Round;
    if b > 0 { RoundsAdd(s, a, b - 1); }
  }

  /** cubehash_init, any update calls, cubehash_close. */
  method Hash(iv: State, pieces: seq<seq<byte>>, ub: byte, n: nat, unroll: nat) returns (final: State)
    requires n < 8 && unroll in [2, 4, 8, 16]
    ensures Hashed(iv, Concat(pieces), ub, n, final)
  {
    hide Feed, Rounds, Round, Input, Step, PadByte, Padded, PaddedBits, Bits, ByteBits, Through, FlipLast;
    var sc := new Stream(Step, 32, iv);
    UpdateAll(sc, pieces);
    ghost var msg := Concat(pieces);
    var last := sc.buf[..sc.ptr] + [PadByte(ub, n)] + ZeroBytes(31 - sc.ptr);
    LastBlock(iv, msg, sc.View(), ub, n, last);
    PaddedIsSpec(msg, ub, n);
    StepIs(sc.st, last);
    final := Finish(Input(sc.st, last), unroll);
  }

  lemma StepIs(s: State, b: seq<byte>)
    ensures Step(s, b) == Rounds(Input(s, b), 16)
  {
  }

  /** The loop of cubehash_close: eleven times sixteen rounds, the last word flipped after the first sixteen. */
  method Finish(start: State, unroll: nat) returns (final: State)
    requires unroll in [2, 4, 8, 16]
    ensures final == Rounds(FlipLast(Rounds(start, 16)), 160)
  {
    hide Rounds, FlipLast;
    final := start;
    for i := 0 to 11
      invariant final == if i == 0 then start else Rounds(FlipLast(Rounds(start, 16)), 16 * (i - 1))
    {
      final := SixteenRounds(final, unroll);
      if i == 0 {
        final := FlipLast(final);
        RoundsNone(final);
      } else {
        RoundsAdd(FlipLast(Rounds(start, 16)), 16 * (i - 1), 16);
      }
    }
  }

  lemma RoundsNone(s: State)
    ensures Rounds(s, 0) == s
  {
  }

  lemma PaddedIs(msg: seq<byte>, ub: byte, n: nat, fill: seq<byte>)
    requires n < 8 && fill == [PadByte(ub, n)] + ZeroBytes(31 - |msg| % 32)
    ensures Padded(msg, ub, n) == msg + fill
  {
    hide PadByte, ZeroBytes;
  }

  /** What follows the whole blocks, filled up, is one more block. */
  lemma LastCut(msg: seq<byte>, fill: seq<byte>, k: nat, r: nat)
    requires |msg| == 32 * k + r && r + |fill| == 32 && r < 32
    ensures |msg + fill| == (k + 1) * 32 && BlockAt(msg + fill, 32, k) == msg[k * 32..] + fill
  {
    BlockBounds(32, k);
    var p := msg + fill;
    assert p[..|msg|] == msg && p[|msg|..] == fill;
    assert p[32 * k..] == msg[32 * k..] + fill;
    assert p[32 * k..|p|] == p[32 * k..];
  }

  /** The bytes waiting, the pad byte and zeros are the last block of the padded message. */
  lemma LastBlock(iv: State, msg: seq<byte>, c: Ctx<State>, ub: byte, n: nat, last: seq<byte>)
    requires n < 8 && c == Feed(Step, 32, Ctx(iv, []), msg)
    requires last == c.pend + [PadByte(ub, n)] + ZeroBytes(31 - |c.pend|)
    ensures var k := |msg| / 32 + 1;
            && k * 32 <= |Padded(msg, ub, n)|
            && Through(Step, 32, iv, Padded(msg, ub, n), k) == Step(c.st, last)
  {
    hide Step, PadByte, Feed, ZeroBytes;
    var k, r := |msg| / 32, |msg| % 32;
    var fill := [PadByte(ub, n)] + ZeroBytes(31 - r);
    FeedIsThrough(Step, 32, iv, msg, k);
    LastCut(msg, fill, k, r);
    PaddedIs(msg, ub, n, fill);
    hide Padded, BlockAt;
    ThroughPrefix(Step, 32, iv, msg, fill, k);
    assert c.pend + [PadByte(ub, n)] + ZeroBytes(31 - r) == c.pend + fill;
  }
}
