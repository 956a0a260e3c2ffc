/** Padding shared by the sph hash engines. */
module Padding {
  import opened Arithmetic
  import opened HashStream

  /** 0x80 >> i */
  function Mask(i: nat): byte
    requires i < 8
  {
    match i
    case 0 => 0x80
    case 1 => 0x40
    case 2 => 0x20
    case 3 => 0x10
    case 4 => 0x08
    case 5 => 0x04
    case 6 => 0x02
    case _ => 0x01
  }

  /** Bit `i` of a byte, most significant first. */
  predicate Bit(b: byte, i: nat)
    requires i < 8
  {
    b & Mask(i) != 0
  }

  /** The byte that holds the last `n` message bits and the padding bit. */
  function PadByte(ub: byte, n: nat): byte
    requires n < 8
  {
    (ub & (0 - Mask(n))) | Mask(n)
  }

  /** Its first `n` bits are those of `ub`; then comes a one, then zeros. */
  lemma PadByteBits(ub: byte, n: nat, i: nat)
    requires n < 8 && i < 8
    ensures Bit(PadByte(ub, n), i) == if i < n then Bit(ub, i) else i == n
  {
  }

  lemma LastBit(b: byte, i: nat)
    requires i < 8
    ensures Bit(b | 1, i) == (i == 7 || Bit(b, i))
  {
  }

  function ByteBits(b: byte): (r: seq<bool>)
    ensures |r| == 8 && forall i :: 0 <= i < 8 ==> r[i] == Bit(b, i)
  {
    seq(8, i requires 0 <= i < 8 => Bit(b, i))
  }

  /** The bits of a byte string. */
  ghost function Bits(a: seq<byte>): (r: seq<bool>)
    ensures |r| == 8 * |a|
  {
    if a == [] then [] else Bits(a[..|a| - 1]) + ByteBits(a[|a| - 1])
  }

  lemma {:induction false} BitsConcat(a: seq<byte>, b: seq<byte>)
    ensures Bits(a + b) == Bits(a) + Bits(b)
  {
    if b == [] {
      assert a + b == a;
    } else {
      var n := |b| - 1;
      assert (a + b)[..|a + b| - 1] == a + b[..n];
      BitsConcat(a, b[..n]);
    }
  }

  function ZeroBytes(n: nat): (r: seq<byte>)
    ensures |r| == n && forall i :: 0 <= i < n ==> r[i] == 0
  {
    seq(n, _ => 0)
  }

  function Falses(n: nat): seq<bool> { seq(n, _ => false) }

  lemma {:induction false} ZeroBits(n: nat)
    ensures Bits(ZeroBytes(n)) == Falses(8 * n)
  {
    if n > 0 {
      assert ZeroBytes(n)[..n - 1] == ZeroBytes(n - 1);
      ZeroBits(n - 1);
      forall i | 0 <= i < 8 ensures !Bit(0, i) {}
    }
  }

  /** The big-endian encoding of `x` modulo 256^k. */
  function BigEndian(x: nat, k: nat): (r: seq<byte>)
    ensures |r| == k
  {
    if k == 0 then [] else BigEndian(x / 256, k - 1) + [(x % 256) as byte]
  }

  function Pow256(k: nat): nat { if k == 0 then 1 else 256 * Pow256(k - 1) }

  lemma PowEight()
    ensures Pow256(8) == 0x1_0000_0000_0000_0000
  {
    assert Pow256(4) == 0x1_0000_0000;
    assert Pow256(8) == 256 * (256 * (256 * (256 * Pow256(4))));
  }

  lemma ModSplit(x: nat, p: nat)
    requires p > 0
    ensures x % (256 * p) / 256 == x / 256 % p && x % (256 * p) % 256 == x % 256
  {
    var q, r := x / 256 / p, x / 256 % p;
    assert x / 256 == q * p + r;
    assert x == q * (256 * p) + (256 * r + x % 256);
    DivUnique(x, 256 * p, q, 256 * r + x % 256);
  }

  lemma {:induction false} BigEndianMod(x: nat, k: nat)
    ensures Pow256(k) > 0 && BigEndian(x % Pow256(k), k) == BigEndian(x, k)
  {
    if k > 0 {
      BigEndianMod(x / 256, k - 1);
      ModSplit(x, Pow256(k - 1));
    }
  }

  /** Two words side by side encode as one number. */
  lemma {:induction false} BigEndianSplit(hi: nat, lo: nat, j: nat, k: nat)
    requires lo < Pow256(k)
    ensures BigEndian(hi * Pow256(k) + lo, j + k) == BigEndian(hi, j) + BigEndian(lo, k)
    decreases k
  {
    if k == 0 {
      assert BigEndian(hi, j) + [] == BigEndian(hi, j);
    } else {
      var p := Pow256(k - 1);
      var x := hi * Pow256(k) + lo;
      assert x == 256 * (hi * p + lo / 256) + lo % 256;
      assert x / 256 == hi * p + lo / 256 && x % 256 == lo % 256;
      BigEndianSplit(hi, lo / 256, j, k - 1);
      assert BigEndian(hi, j) + (BigEndian(lo / 256, k - 1) + [(lo % 256) as byte])
             == BigEndian(hi, j) + BigEndian(lo / 256, k - 1) + [(lo % 256) as byte];
    }
  }

  lemma PadBits(ub: byte, n: nat)
    requires n < 8
    ensures ByteBits(PadByte(ub, n)) == ByteBits(ub)[..n] + [true] + Falses(7 - n)
  {
    forall i | 0 <= i < 8 ensures ByteBits(PadByte(ub, n))[i] == (ByteBits(ub)[..n] + [true] + Falses(7 - n))[i] {
      PadByteBits(ub, n, i);
    }
  }

  lemma OneByteBits(b: byte)
    ensures Bits([b]) == ByteBits(b)
  {
    assert Bits([b]) == Bits([b][..0]) + ByteBits(b);
    assert [b][..0] == [];
  }

  lemma FalsesAdd(a: nat, b: nat)
    ensures Falses(a) + Falses(b) == Falses(a + b)
  {
  }

  /** The bits of the start of a fill: the rest of the message, a one and zeros. */
  ghost predicate OpensWith(fill: seq<byte>, ub: byte, n: nat, gap: nat)
    requires n < 8
  {
    Bits(fill) == ByteBits(ub)[..n] + [true] + Falses(gap)
  }

  lemma OpenPad(ub: byte, n: nat)
    requires n < 8
    ensures OpensWith([PadByte(ub, n)], ub, n, 7 - n)
  {
    hide PadByte, ByteBits;
    OneByteBits(PadByte(ub, n));
    PadBits(ub, n);
  }

  lemma OpenZeros(fill: seq<byte>, ub: byte, n: nat, gap: nat, m: nat)
    requires n < 8 && OpensWith(fill, ub, n, gap)
    ensures OpensWith(fill + ZeroBytes(m), ub, n, gap + 8 * m)
  {
    hide Bits, ByteBits, ZeroBytes;
    BitsConcat(fill, ZeroBytes(m));
    ZeroBits(m);
    FalsesAdd(gap, 8 * m);
    var x := ByteBits(ub)[..n] + [true];
    hide Falses;
    assert x + Falses(gap) + Falses(8 * m) == x + (Falses(gap) + Falses(8 * m));
  }

  // ---- A pad byte, zeros and a trailer

  /** `size` bytes are `k` whole blocks of `b` bytes and `r` bytes left over. */
  ghost predicate Splits(size: nat, b: nat, k: nat, r: nat) { size == k * b + r && r < b }

  lemma Split(size: nat, b: nat) returns (k: nat, r: nat)
    requires b > 0
    ensures r < b && Splits(size, b, k, r)
  {
    k, r := size / b, size % b;
  }

  /** How many blocks of `b` bytes the padding ends in, when `r` message bytes stand in the last. */
  function TailBlocks(b: nat, r: nat, trailer: nat): nat { if r + 1 + trailer <= b then 1 else 2 }

  /** What follows the message's whole bytes. */
  function PadTail(b: nat, r: nat, pad: byte, trailer: seq<byte>): seq<byte>
    requires r < b && |trailer| < b
  {
    [pad] + ZeroBytes((if r + 1 + |trailer| <= b then b else 2 * b) - r - 1 - |trailer|) + trailer
  }

  /** `p` is the bits `m`, a one, fewer zeros than a block has bits, and the trailer; whole blocks in all. */
  ghost predicate Pads(p: seq<byte>, b: nat, k: nat, m: seq<bool>, trailer: seq<byte>) {
    && |p| == k * b
    && exists gap: nat :: gap < 8 * b && Bits(p) == m + [true] + Falses(gap) + Bits(trailer)
  }

  lemma PadsOut(b: nat, msg: seq<byte>, k: nat, r: nat, ub: byte, n: nat, trailer: seq<byte>)
    requires |trailer| < b && n < 8 && Splits(|msg|, b, k, r)
    ensures Pads(msg + PadTail(b, r, PadByte(ub, n), trailer), b, k + TailBlocks(b, r, |trailer|),
                 Bits(msg) + ByteBits(ub)[..n], trailer)
  {
    var tail := PadTail(b, r, PadByte(ub, n), trailer);
    var p := msg + tail;
    assert |p| == (k + TailBlocks(b, r, |trailer|)) * b by { MoreBlocks(b, k, TailBlocks(b, r, |trailer|)); }
    var z := (if r + 1 + |trailer| <= b then b else 2 * b) - r - 1 - |trailer|;
    PadTailBits(msg, ub, n, z, trailer);
    assert p == msg + ([PadByte(ub, n)] + ZeroBytes(z) + trailer);
  }

  lemma MoreBlocks(b: nat, k: nat, t: nat)
    ensures (k + t) * b == k * b + t * b
  {
  }

  lemma PadTailBits(msg: seq<byte>, ub: byte, n: nat, z: nat, trailer: seq<byte>)
    requires n < 8
    ensures Bits(msg + ([PadByte(ub, n)] + ZeroBytes(z) + trailer))
            == Bits(msg) + ByteBits(ub)[..n] + [true] + Falses(7 - n + 8 * z) + Bits(trailer)
  {
    hide Bits, ByteBits, PadByte, OpensWith, ZeroBytes;
    var pad := [PadByte(ub, n)];
    OpenPad(ub, n);
    OpenZeros(pad, ub, n, 7 - n, z);
    PadsConcat(msg, pad + ZeroBytes(z), ub, n, 7 - n + 8 * z, trailer);
  }

  lemma PadsConcat(msg: seq<byte>, fill: seq<byte>, ub: byte, n: nat, gap: nat, trailer: seq<byte>)
    requires n < 8 && OpensWith(fill, ub, n, gap)
    ensures Bits(msg + (fill + trailer)) == Bits(msg) + ByteBits(ub)[..n] + [true] + Falses(gap) + Bits(trailer)
  {
    hide Bits, ByteBits, Falses;
    BitsConcat(msg, fill + trailer);
    BitsConcat(fill, trailer);
    var x, y, z, t := Bits(msg), ByteBits(ub)[..n], Falses(gap), Bits(trailer);
    assert x + (y + [true] + z + t) == x + y + [true] + z + t;
  }

  /** The little-endian encoding of `x` modulo 256^k. */
  function LittleEndian(x: nat, k: nat): (r: seq<byte>)
    ensures |r| == k
  {
    if k == 0 then [] else [(x % 256) as byte] + LittleEndian(x / 256, k - 1)
  }

  lemma {:induction false} LittleEndianMod(x: nat, k: nat)
    ensures Pow256(k) > 0 && LittleEndian(x % Pow256(k), k) == LittleEndian(x, k)
  {
    if k > 0 {
      LittleEndianMod(x / 256, k - 1);
      ModSplit(x, Pow256(k - 1));
    }
  }

  /** The last block, when the padding fits into the one that the message leaves open. */
  lemma OneBlockTail(b: nat, msg: seq<byte>, k: nat, r: nat, pad: byte, trailer: seq<byte>)
    requires |trailer| < b && Splits(|msg|, b, k, r) && TailBlocks(b, r, |trailer|) == 1
    ensures var p := msg + PadTail(b, r, pad, trailer);
            && k * b <= |msg| && (k + 1) * b == |p| && 0 <= k * b <= (k + 1) * b
            && BlockAt(p, b, k) == msg[k * b..] + [pad] + ZeroBytes(b - r - 1 - |trailer|) + trailer
  {
    BlockBounds(b, k);
  }

  /** The last two blocks, when it does not. */
  lemma TwoBlockTail(b: nat, msg: seq<byte>, k: nat, r: nat, pad: byte, trailer: seq<byte>)
    requires |trailer| < b && Splits(|msg|, b, k, r) && TailBlocks(b, r, |trailer|) == 2
    ensures var p := msg + PadTail(b, r, pad, trailer);
            && k * b <= |msg| && (k + 2) * b == |p| && 0 <= k * b <= (k + 1) * b <= (k + 2) * b && (k + 1) * b <= |p|
            && BlockAt(p, b, k) == msg[k * b..] + [pad] + ZeroBytes(b - r - 1)
            && BlockAt(p, b, k + 1) == ZeroBytes(b - |trailer|) + trailer
  {
    BlockBounds(b, k);
    BlockBounds(b, k + 1);
    var p := msg + PadTail(b, r, pad, trailer);
    assert |p| == k * b + 2 * b;
    assert p[k * b..k * b + b] == msg[k * b..] + [pad] + ZeroBytes(b - r - 1);
    assert p[k * b + b..] == ZeroBytes(b - |trailer|) + trailer;
  }

  /** Two fields side by side encode as one number. */
  lemma {:induction false} LittleEndianSplit(lo: nat, hi: nat, j: nat, k: nat)
    requires lo < Pow256(j)
    ensures LittleEndian(lo + hi * Pow256(j), j + k) == LittleEndian(lo, j) + LittleEndian(hi, k)
  {
    if j == 0 {
      assert [] + LittleEndian(hi, k) == LittleEndian(hi, k);
    } else {
      var q := Pow256(j - 1);
      var x := lo + hi * Pow256(j);
      assert x == 256 * (lo / 256 + hi * q) + lo % 256;
      assert x / 256 == lo / 256 + hi * q && x % 256 == lo % 256;
      LittleEndianSplit(lo / 256, hi, j - 1, k);
      assert [(lo % 256) as byte] + (LittleEndian(lo / 256, j - 1) + LittleEndian(hi, k))
             == [(lo % 256) as byte] + LittleEndian(lo / 256, j - 1) + LittleEndian(hi, k);
    }
  }
}
