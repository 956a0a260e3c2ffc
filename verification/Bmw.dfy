/** BMW (src/bmw.c): the update loop lets two arrays take turns as the chaining value, and closing compresses one or
    two padded blocks and then the result itself. Both sizes are one model: blocks of `b` bytes, 64 for the small
    variants and 128 for the big. */
module Bmw {
  import opened HashStream
  import opened Padding

  const WORD := 0x1_0000_0000_0000_0000

  /** The compression function, the constant of the last compression, and the encoding of a state as a block. */
  datatype Engine<!T> = Engine(f: (seq<T>, seq<byte>) -> seq<T>, final: seq<T>, encode: seq<T> -> seq<byte>)

  /** States have sixteen words. */
  ghost predicate Sixteen<T(!new)>(e: Engine<T>, b: nat) {
    && (forall s, block :: |e.f(s, block)| == 16) && |e.final| == 16 && forall s :: |s| == 16 ==> |e.encode(s)| == b
  }

  /** The message, a one, zeros, and the number of message bits in 64 bits are whole blocks, and `s` is the chaining
      value after all of them. */
  ghost predicate ChainedAt<T>(b: nat, e: Engine<T>, iv: seq<T>, msg: seq<byte>, k: nat, r: nat, ub: byte, n: nat, s: seq<T>)
    requires 8 < b && r < b && n < 8
  {
    var j := k + TailBlocks(b, r, 8);
    var t := LittleEndian(8 * |msg| + n, 8);
    var p := msg + PadTail(b, r, PadByte(ub, n), t);
    && Pads(p, b, j, Bits(msg) + ByteBits(ub)[..n], t)
    && s == Through(e.f, b, iv, p, j)
  }

  ghost predicate Chained<T>(b: nat, e: Engine<T>, iv: seq<T>, msg: seq<byte>, ub: byte, n: nat, s: seq<T>)
    requires 8 < b && n < 8
  {
    exists k, r :: Splits(|msg|, b, k, r) && ChainedAt(b, e, iv, msg, k, r, ub, n, s)
  }

  /** The encoded chaining value is compressed once more, with the constant. */
  ghost predicate Hashed<T(!new)>(b: nat, e: Engine<T>, iv: seq<T>, msg: seq<byte>, ub: byte, n: nat, h: seq<T>)
    requires 8 < b && n < 8
  {
    exists s :: Chained(b, e, iv, msg, ub, n, s) && h == e.f(e.final, e.encode(s))
  }

  lemma Absorbed<T>(b: nat, e: Engine<T>, iv: seq<T>, msg: seq<byte>, k: nat, r: nat, t: seq<byte>)
    requires 8 < b && Splits(|msg|, b, k, r)
    ensures var c := Feed(e.f, b, Ctx(iv, []), msg);
            k * b <= |msg| && c.pend == msg[k * b..] && |c.pend| == r && c.st == Through(e.f, b, iv, msg + t, k)
  {
    FeedIsThrough(e.f, b, iv, msg, k);
    ThroughPrefix(e.f, b, iv, msg, t, k);
  }

  lemma ThroughStep<S>(g: (S, seq<byte>) -> S, b: nat, s: S, p: seq<byte>, k: nat)
    requires (k + 1) * b <= |p| && 0 <= k * b <= (k + 1) * b
    ensures Through(g, b, s, p, k + 1) == g(Through(g, b, s, p, k), BlockAt(p, b, k))
  {
  }

  lemma OneBlockClose<T>(b: nat, e: Engine<T>, iv: seq<T>, msg: seq<byte>, k: nat, r: nat, ub: byte, n: nat, h: seq<T>,
                         block: seq<byte>)
    requires 8 < b && n < 8 && r < b && Splits(|msg|, b, k, r) && TailBlocks(b, r, 8) == 1
    requires var t := LittleEndian(8 * |msg| + n, 8);
             && k * b <= |msg| && block == msg[k * b..] + [PadByte(ub, n)] + ZeroBytes(b - r - 9) + t
             && h == Through(e.f, b, iv, msg + PadTail(b, r, PadByte(ub, n), t), k)
    ensures ChainedAt(b, e, iv, msg, k, r, ub, n, e.f(h, block))
  {
    hide PadTail, PadByte, LittleEndian, Bits, ByteBits, Pads;
    var t := LittleEndian(8 * |msg| + n, 8);
    PadsOut(b, msg, k, r, ub, n, t);
    OneBlockTail(b, msg, k, r, PadByte(ub, n), t);
    ThroughStep(e.f, b, iv, msg + PadTail(b, r, PadByte(ub, n), t), k);
    hide Through;
  }

  lemma TwoBlockClose<T>(b: nat, e: Engine<T>, iv: seq<T>, msg: seq<byte>, k: nat, r: nat, ub: byte, n: nat, h: seq<T>,
                         first: seq<byte>, second: seq<byte>)
    requires 8 < b && n < 8 && r < b && Splits(|msg|, b, k, r) && TailBlocks(b, r, 8) == 2
    requires var t := LittleEndian(8 * |msg| + n, 8);
             && k * b <= |msg| && first == msg[k * b..] + [PadByte(ub, n)] + ZeroBytes(b - r - 1) && second == ZeroBytes(b - 8) + t
             && h == Through(e.f, b, iv, msg + PadTail(b, r, PadByte(ub, n), t), k)
    ensures ChainedAt(b, e, iv, msg, k, r, ub, n, e.f(e.f(h, first), second))
  {
    hide PadTail, PadByte, LittleEndian, Bits, ByteBits, Pads;
    var t := LittleEndian(8 * |msg| + n, 8);
    var p := msg + PadTail(b, r, PadByte(ub, n), t);
    PadsOut(b, msg, k, r, ub, n, t);
    TwoBlockTail(b, msg, k, r, PadByte(ub, n), t);
    ThroughStep(e.f, b, iv, p, k);
    ThroughStep(e.f, b, iv, p, k + 1);
    hide Through;
  }

  /** The bit count kept modulo 2^64 is written as eight bytes of the true count. */
  lemma LengthField(count: nat, size: nat, n: nat)
    requires count == 8 * size % WORD
    ensures LittleEndian((count + n) % WORD, 8) == LittleEndian(8 * size + n, 8)
  {
    ModAdd(8 * size, n, WORD);
    PowEight();
    hide LittleEndian, Pow256;
    LittleEndianMod(8 * size + n, 8);
  }

  /** sph_bmw_small_context and sph_bmw_big_context */
  class Context<T(!new, 0)> {
    const e: Engine<T>
    const buf: array<byte>
    const H: array<T>
    var ptr: nat
    var bitCount: nat

    ghost predicate Valid()
      reads this, H
    {
      8 < buf.Length && ptr < buf.Length && H.Length == 16 && Sixteen(e, buf.Length) && (H as object) != buf
    }

    ghost function View(): Ctx<seq<T>>
      reads this, buf, H
      requires Valid()
    {
      Ctx(H[..], buf[..ptr])
    }

    constructor (engine: Engine<T>, b: nat, iv: seq<T>)
      requires 8 < b && Sixteen(engine, b) && |iv| == 16
      ensures Valid() && View() == Ctx(iv, []) && e == engine && buf.Length == b && bitCount == 0 && fresh(buf) && fresh(H)
    {
      e, buf, ptr, bitCount := engine, new byte[b], 0, 0;
      H := new T[16](i requires 0 <= i < 16 => iv[i]);
      new;
      assert H[..] == iv;
    }

    /** compress_small and compress_big: from one array into the other. */
    method Compress(h: array<T>, dh: array<T>)
      requires Valid() && h.Length == 16 && dh.Length == 16 && h != dh
      modifies dh
      ensures dh[..] == e.f(old(h[..]), old(buf[..]))
    {
      var r := e.f(h[..], buf[..]);
      CopyWords(dh, r);
    }

    /** memcpy of a whole state */
    method CopyWords(to: array<T>, from: seq<T>)
      requires to.Length == |from|
      modifies to
      ensures to[..] == from
    {
      forall i | 0 <= i < |from| { to[i] := from[i]; }
    }

    method CopyIn(p: nat, data: seq<byte>)
      requires p + |data| <= buf.Length
      modifies buf
      ensures buf[..] == old(buf[..p]) + data + old(buf[p + |data|..])
    {
      forall i | 0 <= i < |data| { buf[p + i] := data[i]; }
    }

    /** bmw32 and bmw64: whichever array holds the latest chaining value, it is the context's own in the end. */
    method Update(data: seq<byte>)
      requires Valid()
      modifies this, buf, H
      ensures Valid() && View() == Feed(e.f, buf.Length, old(View()), data)
      ensures bitCount == (old(bitCount) + 8 * |data|) % WORD
    {
      hide Feed, Sixteen;
      bitCount := (bitCount + 8 * |data|) % WORD;
      var p: nat := ptr;
      var htmp := new T[16];
      var h1, h2 := H, htmp;
      var off: nat := 0;
      ghost var want := Feed(e.f, buf.Length, View(), data);
      ghost var pend, rest, s := buf[..p], data, H[..];
      while off < |data|
        invariant off <= |data| && p < buf.Length && (off < |data| ==> p == 0 || off == 0)
        invariant h1.Length == 16 && h2.Length == 16 && h1 != h2 && fresh(htmp) && (htmp as object) != buf
        invariant (h1 == H && h2 == htmp) || (h1 == htmp && h2 == H)
        invariant Valid() && pend == buf[..p] && rest == data[off..] && s == h1[..]
        invariant Feed(e.f, buf.Length, Ctx(s, pend), rest) == want
        modifies H, htmp, buf
      {
        var clen := if buf.Length - p > |data| - off then |data| - off else buf.Length - p;
        FeedChunk(e.f, buf.Length, Ctx(s, pend), rest, clen);
        assert data[off..off + clen] == rest[..clen];
        CopyIn(p, data[off..off + clen]);
        p := p + clen;
        off := off + clen;
        pend, rest := pend + rest[..clen], rest[clen..];
        assert buf[..p] == pend;
        if p == buf.Length {
          assert buf[..] == pend;
          Compress(h1, h2);
          h1, h2 := h2, h1;
          s := h1[..];
          p := 0;
          pend := [];
        }
      }
      FeedNothing(e.f, buf.Length, Ctx(s, pend));
      ptr := p;
      if h1 != H {
        CopyWords(H, h1[..]);
      }
    }

    /** The padded blocks of bmw32_close and bmw64_close: the last chaining value in a new array. */
    method LastBlocks(ub: byte, n: nat, ghost iv: seq<T>, ghost msg: seq<byte>) returns (h2: array<T>)
      requires Valid() && n < 8 && View() == Feed(e.f, buf.Length, Ctx(iv, []), msg) && bitCount == 8 * |msg| % WORD
      modifies buf
      ensures fresh(h2) && h2.Length == 16 && (h2 as object) != buf && Valid()
      ensures Chained(buf.Length, e, iv, msg, ub, n, h2[..])
    {
      hide ChainedAt, Feed, LittleEndian, PadByte, Splits, PadTail, Through, Sixteen, ZeroBytes;
      var b := buf.Length;
      ghost var k, r := Split(|msg|, b);
      ghost var t := LittleEndian(8 * |msg| + n, 8);
      Absorbed(b, e, iv, msg, k, r, PadTail(b, r, PadByte(ub, n), t));
      LengthField(bitCount, |msg|, n);
      var field := LittleEndian((bitCount + n) % WORD, 8);
      ghost var pend, s := msg[k * b..], H[..];
      h2 := new T[16];
      CopyIn(ptr, [PadByte(ub, n)]);
      var p := ptr + 1;
      assert buf[..p] == pend + [PadByte(ub, n)];
      hide Chained, BlockAt;
      if p > b - 8 {
        CopyIn(p, ZeroBytes(b - p));
        assert buf[..] == pend + [PadByte(ub, n)] + ZeroBytes(b - r - 1);
        TwoBlockClose(b, e, iv, msg, k, r, ub, n, s, buf[..], ZeroBytes(b - 8) + t);
        var h1 := new T[16];
        Compress(H, h1);
        WriteLength(0, field);
        assert buf[..] == ZeroBytes(b - 8) + t;
        Compress(h1, h2);
        assert ChainedAt(b, e, iv, msg, k, r, ub, n, h2[..]);
      } else {
        OneBlockClose(b, e, iv, msg, k, r, ub, n, s, pend + [PadByte(ub, n)] + ZeroBytes(b - r - 9) + t);
        WriteLength(p, field);
        Compress(H, h2);
        assert ChainedAt(b, e, iv, msg, k, r, ub, n, h2[..]);
      }
    }

    /** ZeroBytes up to the length field, and the length field. */
    method WriteLength(p: nat, field: seq<byte>)
      requires Valid() && p <= buf.Length - 8 && |field| == 8
      modifies buf
      ensures buf[..] == old(buf[..p]) + ZeroBytes(buf.Length - 8 - p) + field
    {
      CopyIn(p, ZeroBytes(buf.Length - 8 - p));
      assert buf[..buf.Length - 8] == old(buf[..p]) + ZeroBytes(buf.Length - 8 - p);
      CopyIn(buf.Length - 8, field);
    }

    /** bmw32_close and bmw64_close up to the output: the last state. */
    method Close(ub: byte, n: nat, ghost iv: seq<T>, ghost msg: seq<byte>) returns (h: seq<T>)
      requires Valid() && n < 8 && View() == Feed(e.f, buf.Length, Ctx(iv, []), msg) && bitCount == 8 * |msg| % WORD
      modifies buf
      ensures Hashed(buf.Length, e, iv, msg, ub, n, h)
    {
      hide Chained, Feed;
      var h2 := LastBlocks(ub, n, iv, msg);
      ghost var s := h2[..];
      CopyIn(0, e.encode(h2[..]));
      assert buf[..] == e.encode(s);
      var h1 := new T[16];
      CopyWords(h1, e.final);
      Compress(h1, h2);
      h := h2[..];
    }
  }

  /** Init, any update calls, close. */
  method Hash<T(!new, 0)>(b: nat, e: Engine<T>, iv: seq<T>, pieces: seq<seq<byte>>, ub: byte, n: nat) returns (h: seq<T>)
    requires 8 < b && n < 8 && Sixteen(e, b) && |iv| == 16
    ensures Hashed(b, e, iv, Concat(pieces), ub, n, h)
  {
    hide Hashed, Feed, Sixteen;
    var sc := new Context(e, b, iv);
    FeedNothing(e.f, b, Ctx(iv, []));
    assert pieces[..0] == [];
    for i := 0 to |pieces|
      invariant sc.Valid() && sc.e == e && sc.buf.Length == b && fresh(sc) && fresh(sc.buf) && fresh(sc.H)
      invariant sc.View() == Feed(e.f, b, Ctx(iv, []), Concat(pieces[..i])) && sc.bitCount == 8 * |Concat(pieces[..i])| % WORD
    {
      assert pieces[..i + 1][..i] == pieces[..i];
      FeedSplit(e.f, b, Ctx(iv, []), Concat(pieces[..i]), pieces[i]);
      ModAdd(8 * |Concat(pieces[..i])|, 8 * |pieces[i]|, WORD);
      sc.Update(pieces[i]);
    }
    assert pieces[..|pieces|] == pieces;
    h := sc.Close(ub, n, iv, Concat(pieces));
  }
}
