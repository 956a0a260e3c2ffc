/** Streaming a message through a block function: what the update loops of the sph hash engines share. */
module HashStream {
  import opened Arithmetic

  type byte = bv8

  /** A context: the engine's state and the bytes waiting for their block to fill. */
  datatype Ctx<S> = Ctx(st: S, pend: seq<byte>)

  /** The state after feeding `data`: every time `n` bytes are together they go through `g`. */
  ghost function Feed<S>(g: (S, seq<byte>) -> S, n: nat, c: Ctx<S>, data: seq<byte>): (r: Ctx<S>)
    requires n > 0 && |c.pend| < n
    ensures |r.pend| < n
    decreases |data|
  {
    if |c.pend| + |data| < n then Ctx(c.st, c.pend + data)
    else
      var k := n - |c.pend|;
      Feed(g, n, Ctx(g(c.st, c.pend + data[..k]), []), data[k..])
  }

  lemma ModAdd(x: nat, d: nat, m: nat)
    requires m > 0
    ensures (x % m + d) % m == (x + d) % m
  {
    var y := x % m + d;
    Recompose(x, m);
    Recompose(y, m);
    Difference(x / m, -(y / m), m);
    DivUnique(x + d, m, x / m + y / m, y % m);
  }

  /** How a message is cut into update calls makes no difference. */
  lemma {:induction false} FeedSplit<S>(g: (S, seq<byte>) -> S, n: nat, c: Ctx<S>, a: seq<byte>, b: seq<byte>)
    requires n > 0 && |c.pend| < n
    ensures Feed(g, n, Feed(g, n, c, a), b) == Feed(g, n, c, a + b)
    decreases |a| + |b|
  {
    if |c.pend| + |a| >= n {
      var k := n - |c.pend|;
      assert (a + b)[..k] == a[..k] && (a + b)[k..] == a[k..] + b;
      FeedSplit(g, n, Ctx(g(c.st, c.pend + a[..k]), []), a[k..], b);
    } else if |c.pend| + |a| + |b| < n {
      assert c.pend + a + b == c.pend + (a + b);
    } else {
      var k := n - |c.pend|;
      var j := k - |a|;
      assert c.pend + a + b[..j] == c.pend + (a + b)[..k];
      assert (a + b)[k..] == b[j..];
    }
  }

  /** One turn of an update loop: as much as still fits into the block. */
  lemma FeedChunk<S>(g: (S, seq<byte>) -> S, n: nat, c: Ctx<S>, data: seq<byte>, k: nat)
    requires n > 0 && |c.pend| < n && k == if n - |c.pend| > |data| then |data| else n - |c.pend|
    ensures |c.pend| + k == n ==> Feed(g, n, c, data) == Feed(g, n, Ctx(g(c.st, c.pend + data[..k]), []), data[k..])
    ensures |c.pend| + k < n ==> data[k..] == [] && Feed(g, n, c, data) == Feed(g, n, Ctx(c.st, c.pend + data[..k]), data[k..])
  {
    if |c.pend| + k < n {
      assert data[..k] == data;
      FeedNothing(g, n, Ctx(c.st, c.pend + data));
    }
  }

  lemma FeedNothing<S>(g: (S, seq<byte>) -> S, n: nat, c: Ctx<S>)
    requires n > 0 && |c.pend| < n
    ensures Feed(g, n, c, []) == c
  {
    assert c.pend + [] == c.pend;
  }

  /** Block `i` of `data`. */
  ghost function BlockAt(data: seq<byte>, n: nat, i: nat): seq<byte>
    requires (i + 1) * n <= |data| && 0 <= i * n <= (i + 1) * n
  {
    data[i * n..(i + 1) * n]
  }

  /** `g` applied to the first `k` blocks of `data` in turn. */
  ghost function Through<S>(g: (S, seq<byte>) -> S, n: nat, s: S, data: seq<byte>, k: nat): S
    requires k * n <= |data|
  {
    if k == 0 then s
    else
      BlockBounds(n, k - 1);
      g(Through(g, n, s, data, k - 1), BlockAt(data, n, k - 1))
  }

  lemma BlockBounds(n: nat, i: nat)
    ensures 0 <= i * n && (i + 1) * n == i * n + n
  {
  }

  lemma {:induction false} ThroughPrefix<S>(g: (S, seq<byte>) -> S, n: nat, s: S, a: seq<byte>, b: seq<byte>, k: nat)
    requires k * n <= |a|
    ensures Through(g, n, s, a + b, k) == Through(g, n, s, a, k)
  {
    if k > 0 {
      BlockBounds(n, k - 1);
      ThroughPrefix(g, n, s, a, b, k - 1);
      assert BlockAt(a + b, n, k - 1) == BlockAt(a, n, k - 1);
    }
  }

  lemma FeedOneMore<S>(g: (S, seq<byte>) -> S, n: nat, s: S, b: seq<byte>)
    requires 0 < n <= |b| < 2 * n
    ensures Feed(g, n, Ctx(s, []), b) == Ctx(g(s, b[..n]), b[n..])
  {
    assert [] + b[..n] == b[..n] && [] + b[n..] == b[n..];
    assert Feed(g, n, Ctx(g(s, b[..n]), []), b[n..]) == Ctx(g(s, b[..n]), b[n..]);
  }

  /** Feeding an empty context: the whole blocks go through, the rest waits. */
  lemma {:induction false} FeedIsThrough<S>(g: (S, seq<byte>) -> S, n: nat, s: S, data: seq<byte>, k: nat)
    requires n > 0 && k * n <= |data| < k * n + n
    ensures Feed(g, n, Ctx(s, []), data) == Ctx(Through(g, n, s, data, k), data[k * n..])
    decreases k
  {
    if k == 0 {
      assert [] + data == data[0..];
    } else {
      BlockBounds(n, k - 1);
      var m, j := (k - 1) * n, k - 1;
      var a, b := data[..m], data[m..];
      FeedIsThrough(g, n, s, a, j);
      ThroughPrefix(g, n, s, a, b, j);
      assert a + b == data && a[m..] == [];
      LastTurn(g, n, s, data, k, m);
      hide Feed, Through;
    }
  }

  lemma LastTurn<S>(g: (S, seq<byte>) -> S, n: nat, s: S, data: seq<byte>, k: nat, m: nat)
    requires n > 0 && k > 0 && m == (k - 1) * n && k * n == m + n && m + n <= |data| < m + 2 * n
    requires Feed(g, n, Ctx(s, []), data[..m]) == Ctx(Through(g, n, s, data, k - 1), [])
    ensures Feed(g, n, Ctx(s, []), data) == Ctx(Through(g, n, s, data, k), data[m + n..])
  {
    var a, b := data[..m], data[m..];
    assert b[..n] == BlockAt(data, n, k - 1) && b[n..] == data[m + n..];
    hide Feed, BlockAt;
    assert a + b == data;
    FeedSplit(g, n, Ctx(s, []), a, b);
    FeedOneMore(g, n, Through(g, n, s, data, k - 1), b);
  }

  function Concat(pieces: seq<seq<byte>>): seq<byte> {
    if pieces == [] then [] else Concat(pieces[..|pieces| - 1]) + pieces[|pieces| - 1]
  }

  /** An engine context as the C code keeps it: a buffer, the fill count and the state. */
  class Stream<S> {
    const step: (S, seq<byte>) -> S
    const buf: array<byte>
    var ptr: nat
    var st: S

    ghost predicate Valid()
      reads this
    {
      ptr < buf.Length
    }

    ghost function View(): Ctx<S>
      reads this, buf
      requires Valid()
    {
      Ctx(st, buf[..ptr])
    }

    constructor (g: (S, seq<byte>) -> S, size: nat, s: S)
      requires size > 0
      ensures Valid() && View() == Ctx(s, []) && step == g && buf.Length == size && fresh(buf)
    {
      step, buf, ptr, st := g, new byte[size], 0, s;
    }

    /** The update loop: fill the buffer, and compress whenever it is full. */
    method Update(data: seq<byte>)
      requires Valid()
      modifies this, buf
      ensures Valid() && View() == Feed(step, buf.Length, old(View()), data)
    {
      var p: nat := ptr;
      if |data| < buf.Length - p {
        CopyIn(p, data);
        ptr := p + |data|;
        assert buf[..ptr] == old(buf[..ptr]) + data;
        return;
      }
      hide Feed;
      var off: nat := 0;
      ghost var want := Feed(step, buf.Length, View(), data);
      ghost var pend, rest := buf[..p], data;
      while off < |data|
        invariant off <= |data| && p < buf.Length && (off < |data| ==> p == 0 || off == 0)
        invariant pend == buf[..p] && rest == data[off..]
        invariant Feed(step, buf.Length, Ctx(st, pend), rest) == want
      {
        var clen := if buf.Length - p > |data| - off then |data| - off else buf.Length - p;
        FeedChunk(step, buf.Length, Ctx(st, pend), rest, clen);
        assert data[off..off + clen] == rest[..clen];
        CopyIn(p, data[off..off + clen]);
        p := p + clen;
        off := off + clen;
        pend, rest := pend + rest[..clen], rest[clen..];
        assert buf[..p] == pend;
        if p == buf.Length {
          assert buf[..] == pend;
          st := step(st, buf[..]);
          p := 0;
          pend := [];
        }
      }
      FeedNothing(step, buf.Length, Ctx(st, pend));
      ptr := p;
    }

    /** memcpy into the buffer at offset `p`. */
    method CopyIn(p: nat, data: seq<byte>)
      requires p + |data| <= buf.Length
      modifies buf
      ensures buf[..] == old(buf[..p]) + data + old(buf[p + |data|..])
    {
      forall i | 0 <= i < |data| { buf[p + i] := data[i]; }
    }
  }

  /** One update call after another. */
  method UpdateAll<S(!new)>(sc: Stream<S>, pieces: seq<seq<byte>>)
    requires sc.Valid()
    modifies sc, sc.buf
    ensures sc.Valid() && sc.View() == Feed(sc.step, sc.buf.Length, old(sc.View()), Concat(pieces))
  {
    ghost var c := sc.View();
    FeedNothing(sc.step, sc.buf.Length, c);
    assert pieces[..0] == [];
    for i := 0 to |pieces|
      invariant sc.Valid() && sc.View() == Feed(sc.step, sc.buf.Length, c, Concat(pieces[..i]))
    {
      assert pieces[..i + 1][..i] == pieces[..i];
      FeedSplit(sc.step, sc.buf.Length, c, Concat(pieces[..i]), pieces[i]);
      sc.Update(pieces[i]);
    }
    assert pieces[..|pieces|] == pieces;
  }
}
