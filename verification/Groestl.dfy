/** Groestl (src/groestl.c): the block count is kept modulo 2^64 and written into the last padded block. Both sizes
    are one model: blocks of `b` bytes, 64 for the small variants and 128 for the big. */
module Groestl {
  import opened HashStream
  import opened Padding

  const WORD := 0x1_0000_0000_0000_0000

  /** The chaining value and the number of blocks so far. */
  datatype Chain<H> = Chain(h: H, count: nat)

  type Compress<!H> = (H, seq<byte>) -> H

  /** What the update loop does with a full buffer. */
  function Step<H>(f: Compress<H>): (Chain<H>, seq<byte>) -> Chain<H> {
    (c: Chain<H>, b: seq<byte>) => Chain(f(c.h, b), (c.count + 1) % WORD)
  }

  /** Section 3.6, for a message of `k` whole blocks and `r` bytes: the padded message ends in its length in blocks,
      and `h` is the chaining value after all of them. */
  ghost predicate HashedAt<H>(b: nat, f: Compress<H>, iv: H, msg: seq<byte>, k: nat, r: nat, ub: byte, n: nat, h: H)
    requires 8 < b && r < b && n < 8
  {
    var j := k + TailBlocks(b, r, 8);
    var p := msg + PadTail(b, r, PadByte(ub, n), BigEndian(j, 8));
    && Pads(p, b, j, Bits(msg) + ByteBits(ub)[..n], BigEndian(j, 8))
    && h == Through(f, b, iv, p, j)
  }

  ghost predicate Hashed<H>(b: nat, f: Compress<H>, iv: H, msg: seq<byte>, ub: byte, n: nat, h: H)
    requires 8 < b && n < 8
  {
    exists k, r :: Splits(|msg|, b, k, r) && HashedAt(b, f, iv, msg, k, r, ub, n, h)
  }

  lemma {:induction false} ThroughChain<H>(b: nat, f: Compress<H>, iv: H, data: seq<byte>, k: nat)
    requires k * b <= |data|
    ensures Through(Step(f), b, Chain(iv, 0), data, k) == Chain(Through(f, b, iv, data, k), k % WORD)
  {
    if k > 0 {
      BlockBounds(b, k - 1);
      ThroughChain(b, f, iv, data, k - 1);
      ModAdd(k - 1, 1, WORD);
    }
  }

  /** The count written is that of all blocks, modulo 2^64, which is what eight bytes hold. */
  lemma CountField(count: nat, k: nat, d: nat)
    requires count == k % WORD
    ensures BigEndian((count + d) % WORD, 8) == BigEndian(k + d, 8)
  {
    ModAdd(k, d, WORD);
    PowEight();
    hide BigEndian, Pow256;
    BigEndianMod(k + d, 8);
  }

  /** Feeding the tail to what the message left gives the chaining value of the whole padded message. */
  lemma Finished<H(!new)>(b: nat, f: Compress<H>, iv: H, msg: seq<byte>, k: nat, r: nat, ub: byte, n: nat,
                          c: Ctx<Chain<H>>, tail: seq<byte>)
    requires 8 < b && n < 8 && r < b && Splits(|msg|, b, k, r) && c == Feed(Step(f), b, Ctx(Chain(iv, 0), []), msg)
    requires tail == PadTail(b, r, PadByte(ub, n), BigEndian(k + TailBlocks(b, r, 8), 8))
    ensures HashedAt(b, f, iv, msg, k, r, ub, n, Feed(Step(f), b, c, tail).st.h)
  {
    hide PadTail, PadByte, Feed, BigEndian, Bits, ByteBits, Through, Step, TailBlocks;
    var j := k + TailBlocks(b, r, 8);
    var p := msg + tail;
    PadsOut(b, msg, k, r, ub, n, BigEndian(j, 8));
    FeedSplit(Step(f), b, Ctx(Chain(iv, 0), []), msg, tail);
    FeedIsThrough(Step(f), b, Chain(iv, 0), p, j);
    ThroughChain(b, f, iv, p, j);
  }

  lemma Counted<H(!new)>(b: nat, f: Compress<H>, iv: H, msg: seq<byte>, k: nat, r: nat)
    requires 8 < b && Splits(|msg|, b, k, r)
    ensures var c := Feed(Step(f), b, Ctx(Chain(iv, 0), []), msg);
            |c.pend| == r && c.st.count == k % WORD
  {
    FeedIsThrough(Step(f), b, Chain(iv, 0), msg, k);
    ThroughChain(b, f, iv, msg, k);
  }

  /** groestl_small_close and groestl_big_close up to the output transformation. */
  method Close<H(!new)>(sc: Stream<Chain<H>>, b: nat, f: Compress<H>, ub: byte, n: nat, ghost iv: H, ghost msg: seq<byte>)
    requires 8 < b && n < 8 && sc.Valid() && sc.buf.Length == b && sc.step == Step(f)
    requires sc.View() == Feed(Step(f), b, Ctx(Chain(iv, 0), []), msg)
    modifies sc, sc.buf
    ensures Hashed(b, f, iv, msg, ub, n, sc.st.h)
  {
    hide HashedAt, Feed, Step, BigEndian, PadByte, Splits;
    ghost var k, r := Split(|msg|, b);
    Counted(b, f, iv, msg, k, r);
    ghost var c := sc.View();
    var ptr := sc.ptr;
    var extra := if ptr < b - 8 then 1 else 2;
    var padLen := (if extra == 1 then b else 2 * b) - ptr;
    var count := (sc.st.count + extra) % WORD;
    CountField(sc.st.count, k, extra);
    var pad := [PadByte(ub, n)] + ZeroBytes(padLen - 9) + BigEndian(count, 8);
    Finished(b, f, iv, msg, k, r, ub, n, c, pad);
    sc.Update(pad);
  }

  /** Init, any update calls, close. */
  method Hash<H(!new)>(b: nat, f: Compress<H>, iv: H, pieces: seq<seq<byte>>, ub: byte, n: nat) returns (h: H)
    requires 8 < b && n < 8
    ensures Hashed(b, f, iv, Concat(pieces), ub, n, h)
  {
    hide Hashed, Feed, Step;
    var sc := new Stream(Step(f), b, Chain(iv, 0));
    UpdateAll(sc, pieces);
    Close(sc, b, f, ub, n, iv, Concat(pieces));
    h := sc.st.h;
  }
}
