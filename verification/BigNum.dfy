/** CBigNum's byte encodings (src/bignum.h). The number itself is an integer; OpenSSL's MPI format, which every
    conversion goes through, is written out: a four-byte length, then the magnitude, most significant byte first,
    with the sign in the top bit and a further byte in front when the magnitude needs that bit itself. */
module BigNum {
  import opened Arithmetic
  import opened Positional
  import opened Octets
  import opened Options

  const SIZE_LIMIT := 0x1_0000_0000

  /** BN_mpi2bn takes the size of the body and its four length bytes as an int. */
  const BODY_LIMIT := 0x8000_0000 - 4

  // ---- The MPI format

  function Abs(n: int): nat { if n < 0 then -n else n }

  /** The sign goes into the top bit of the magnitude, or into a byte of its own. */
  function Signed(m: seq<Byte>, neg: bool): seq<Byte>
    requires m != []
  {
    if m[0] >= 0x80 then [if neg then 0x80 else 0] + m
    else if neg then [m[0] + 0x80] + m[1..]
    else m
  }

  function Magnitude(n: nat): (m: seq<Byte>)
    ensures m == Digits(256, n)
  {
    Digits(256, n)
  }

  /** What follows the length in BN_bn2mpi. */
  function Body(n: int): seq<Byte> {
    if n == 0 then [] else Signed(Magnitude(Abs(n)), n < 0)
  }

  function Unsigned(b: seq<Byte>): seq<Byte> {
    if b != [] && b[0] >= 0x80 then [b[0] - 0x80] + b[1..] else b
  }

  function WithSign(x: int, neg: bool): int { if neg then -x else x }

  /** What BN_mpi2bn reads. */
  function Value(b: seq<Byte>): int {
    WithSign(Val(256, Unsigned(b)), b != [] && b[0] >= 0x80)
  }

  /** No byte could be left out. */
  predicate Canonical(b: seq<Byte>) {
    b == [] || b[0] % 0x80 != 0 || (|b| >= 2 && b[1] >= 0x80)
  }

  lemma ValueSigned(m: seq<Byte>, neg: bool)
    requires m != []
    ensures Value(Signed(m, neg)) == WithSign(Val(256, m), neg)
  {
    if m[0] >= 0x80 {
      var s := Signed(m, neg);
      assert Unsigned(s) == Zeros(1) + m;
      PadLeft(256, 1, m);
    } else if neg {
      assert Unsigned(Signed(m, neg)) == m;
    }
  }

  /** Writing a number and reading it back. */
  lemma ValueBody(n: int)
    ensures Value(Body(n)) == n
  {
    if n != 0 {
      ValueSigned(Magnitude(Abs(n)), n < 0);
      ValDigits(256, Abs(n));
    }
  }

  lemma BodyCanonical(n: int)
    ensures Canonical(Body(n))
    ensures n > 0 ==> Body(n)[0] < 0x80
  {
    if n != 0 { DigitsHead(256, Abs(n)); }
  }

  /** What a body stands for: its number, most significant byte first, or with the top bit set the negative of the number
      without that bit. */
  lemma ValueFormula(b: seq<Byte>)
    ensures Value(b) ==
            if b != [] && b[0] >= 0x80 then 0x80 * Pow(256, |b| - 1) - Val(256, b) else Val(256, b)
  {
    hide *;
    ValueParts(b);
    if b != [] && b[0] >= 0x80 {
      HeadAndRest(b);
      WithoutTop(b[0], b[1..]);
    }
  }

  lemma ValueParts(b: seq<Byte>)
    ensures b == [] || b[0] < 0x80 ==> Value(b) == Val(256, b)
    ensures b != [] && b[0] >= 0x80 ==> Value(b) + Val(256, [b[0] - 0x80] + b[1..]) == 0
  {
    hide Val;
  }

  lemma HeadAndRest(b: seq<Byte>)
    requires b != []
    ensures b == [b[0]] + b[1..] && |b[1..]| == |b| - 1
  {
  }

  lemma WithoutTop(x: Byte, rest: seq<Byte>)
    requires x >= 0x80
    ensures Val(256, [x] + rest) - Val(256, [x - 0x80] + rest) == 0x80 * Pow(256, |rest|)
  {
    hide Val, Pow;
    ValConcat(256, [x], rest);
    ValConcat(256, [x - 0x80], rest);
    ValOne(256, x);
    ValOne(256, x - 0x80);
    TopBitOff(x, Pow(256, |rest|), Val(256, [x] + rest), Val(256, [x - 0x80] + rest), Val(256, rest));
  }

  lemma TopBitOff(x: int, p: int, v: int, w: int, rest: int)
    requires v == x * p + rest && w == (x - 0x80) * p + rest
    ensures v - w == 0x80 * p
  {
    Difference(x, 0x80, p);
  }

  /** A canonical body splits into sign and magnitude in one way only. */
  lemma CanonicalSigned(b: seq<Byte>)
    requires b != [] && Canonical(b)
    ensures var m := if b[0] % 0x80 == 0 then b[1..] else Unsigned(b);
            m != [] && m[0] != 0 && b == Signed(m, b[0] >= 0x80)
  {
  }

  lemma BodySigned(m: seq<Byte>, neg: bool)
    requires m != [] && m[0] != 0
    ensures Val(256, m) > 0
    ensures Body(WithSign(Val(256, m), neg)) == Signed(m, neg)
  {
    DigitsVal(256, m);
    assert Digits(256, Val(256, m)) != [];
  }

  /** Reading a body and writing it back gives the same bytes exactly if the body is canonical. */
  lemma BodyValue(b: seq<Byte>)
    ensures Body(Value(b)) == b <==> Canonical(b)
  {
    BodyCanonical(Value(b));
    if b != [] && Canonical(b) {
      CanonicalSigned(b);
      var m := if b[0] % 0x80 == 0 then b[1..] else Unsigned(b);
      ValueSigned(m, b[0] >= 0x80);
      BodySigned(m, b[0] >= 0x80);
    }
  }

  // ---- The four length bytes

  function Header(n: nat): (h: seq<Byte>)
    ensures |h| == 4
  {
    [n / 0x100_0000 % 256, n / 0x1_0000 % 256, n / 0x100 % 256, n % 256]
  }

  /** BN_bn2mpi */
  function ToMpi(n: int): (s: seq<Byte>)
    ensures |s| == 4 + |Body(n)|
  {
    Header(|Body(n)|) + Body(n)
  }

  /** A size converted to a 32-bit int. */
  function AsInt(n: nat): int {
    var r := n % SIZE_LIMIT;
    if r < 0x8000_0000 then r else r - SIZE_LIMIT
  }

  /** BN_mpi2bn: the length must be four less than the size, which arrives as an int. */
  function FromMpi(s: seq<Byte>): Option<int> {
    var n := AsInt(|s|);
    if n < 4 then None
    else
      var len := Val(256, s[..4]);
      if len + 4 != n then None else Some(Value(s[4..4 + len]))
  }

  /** How many bytes of a body are read; negative when it is refused. */
  function Taken(n: nat): (k: int)
    ensures k <= n
  {
    AsInt(n + 4) - 4
  }

  /** A body is read as a whole exactly below the limit; above it, it is refused or only its front is read. */
  lemma TakenWhole(n: nat)
    ensures Taken(n) == n <==> n < BODY_LIMIT
    ensures Taken(n) >= 0 ==> Taken(n) == n % SIZE_LIMIT
  {
  }

  lemma HeaderValue(n: nat)
    ensures Val(256, Header(n)) == n % SIZE_LIMIT
  {
    FourBytes(n / 0x100_0000 % 256, n / 0x1_0000 % 256, n / 0x100 % 256, n % 256);
    var q := n / 256;
    var r := q / 256;
    Shifts(n);
    LastByte(n, 0x100_0000);
    LastByte(q, 0x1_0000);
    LastByte(r, 0x100);
    hide Val, Header;
    assert Header(n) == [n / 0x100_0000 % 256, n / 0x1_0000 % 256, n / 0x100 % 256, n % 256] by { HeaderIs(n); }
  }

  lemma HeaderIs(n: nat)
    ensures Header(n) == [n / 0x100_0000 % 256, n / 0x1_0000 % 256, n / 0x100 % 256, n % 256]
  {
  }

  lemma Shifts(n: nat)
    ensures n / 0x1_0000 == n / 256 / 256 && n / 0x100_0000 == n / 256 / 256 / 256
  {
  }

  lemma LastByte(n: nat, m: nat)
    requires m > 0
    ensures n % (m * 256) == n / 256 % m * 256 + n % 256
  {
    var q := n / 256;
    Recompose(n, 256);
    Recompose(q, m);
    Spread(q / m, m, q % m, 256);
    Scale(q % m, m, 256, n % 256);
    DivUnique(n, m * 256, q / m, q % m * 256 + n % 256);
  }

  lemma FourBytes(a: Byte, b: Byte, c: Byte, d: Byte)
    ensures Val(256, [a, b, c, d]) == ((a * 256 + b) * 256 + c) * 256 + d
  {
    ValOne(256, a);
    ValSnoc(256, [a], b);
    ValSnoc(256, [a, b], c);
    ValSnoc(256, [a, b, c], d);
    assert [a] + [b] == [a, b] && [a, b] + [c] == [a, b, c] && [a, b, c] + [d] == [a, b, c, d];
  }

  /** What is read of a body behind its own length. */
  lemma FromHeader(body: seq<Byte>)
    ensures var k := Taken(|body|);
            FromMpi(Header(|body|) + body) == if k >= 0 then Some(Value(body[..k])) else None
  {
    hide Val, Header, Value, AsInt, Taken;
    HeaderValue(|body|);
    TakenWhole(|body|);
    TakenIs(|body|);
    var s := Header(|body|) + body;
    assert s[..4] == Header(|body|);
    if Taken(|body|) >= 0 {
      assert s[4..4 + Taken(|body|)] == body[..Taken(|body|)];
    }
  }

  lemma TakenIs(n: nat)
    ensures Taken(n) == AsInt(n + 4) - 4 <= n
  {
  }

  /** A body below the limit is read back. */
  lemma FromShort(body: seq<Byte>)
    requires |body| < BODY_LIMIT
    ensures FromMpi(Header(|body|) + body) == Some(Value(body))
  {
    FromHeader(body);
    TakenWhole(|body|);
    assert body[..|body|] == body;
  }

  function Reverse<T>(s: seq<T>): (r: seq<T>)
    ensures |r| == |s| && forall i :: 0 <= i < |s| ==> r[i] == s[|s| - 1 - i]
  {
    seq(|s|, i requires 0 <= i < |s| => s[|s| - 1 - i])
  }

  // ---- Compact form

  /** The bytes SetCompact hands to BN_mpi2bn after the length. */
  function CompactBody(c: nat): seq<Byte>
    requires c < SIZE_LIMIT
  {
    var size := c / 0x100_0000;
    var head: seq<Byte> := [c / 0x1_0000 % 256, c / 0x100 % 256, c % 256];
    if size <= 3 then head[..size] else head + Zeros(size - 3)
  }

  function Decoded(c: nat): int
    requires c < SIZE_LIMIT
  {
    Value(CompactBody(c))
  }

  /** The compact format: a size in bytes, a sign bit, and 23 bits of the number's front. */
  lemma DecodedFormula(c: nat)
    requires c < SIZE_LIMIT
    ensures var size, negative, front := c / 0x100_0000, c / 0x80_0000 % 2 == 1, c % 0x80_0000;
            Pow(256, if size < 3 then 3 - size else size - 3) > 0
            && var n := if size < 3 then front / Pow(256, 3 - size) else front * Pow(256, size - 3);
               Decoded(c) == if negative then -n else n
  {
    var size := c / 0x100_0000;
    var x, y, z := c / 0x1_0000 % 256, c / 0x100 % 256, c % 256;
    CompactDigits(c);
    PowPositive(256, if size < 3 then 3 - size else size - 3);
    hide Value, Pow;
    if size < 3 {
      FrontCut(size, x, y, z);
    } else {
      FrontFilled(size - 3, x, y, z);
      assert size == 3 ==> [x, y, z][..3] == [x, y, z] && [x, y, z] + Zeros(0) == [x, y, z];
    }
  }

  lemma ValTwo(x: nat, y: nat)
    ensures Val(256, [x, y]) == x * 256 + y
  {
    assert [x, y][..1] == [x];
    ValOne(256, x);
  }

  lemma ValThree(x: nat, y: nat, z: nat)
    ensures Val(256, [x, y, z]) == x * 0x1_0000 + y * 0x100 + z
  {
    assert [x, y, z][..2] == [x, y];
    ValTwo(x, y);
  }

  /** The number of a front of three bytes, cut to a smaller size. */
  lemma FrontCut(size: nat, x: Byte, y: Byte, z: Byte)
    requires size < 3
    ensures var front := x % 0x80 * 0x1_0000 + y * 0x100 + z;
            Pow(256, 3 - size) > 0 && Value([x, y, z][..size]) == WithSign(front / Pow(256, 3 - size), x >= 0x80)
  {
    var a, front := x % 0x80, x % 0x80 * 0x1_0000 + y * 0x100 + z;
    assert Pow(256, 1) == 256 && Pow(256, 2) == 0x1_0000 && Pow(256, 3) == 0x100_0000;
    assert Val(256, []) == 0;
    hide Val, Pow;
    if size == 0 {
      assert [x, y, z][..0] == [];
      DivUnique(front, 0x100_0000, 0, front);
    } else if size == 1 {
      assert [x, y, z][..1] == [x];
      assert Unsigned([x]) == [a];
      ValOne(256, a);
      DivUnique(front, 0x1_0000, a, y * 0x100 + z);
    } else {
      assert [x, y, z][..2] == [x, y];
      assert Unsigned([x, y]) == [a, y];
      ValTwo(a, y);
      DivUnique(front, 256, a * 256 + y, z);
    }
  }

  /** And with zeros behind it. */
  lemma FrontFilled(k: nat, x: Byte, y: Byte, z: Byte)
    ensures var front := x % 0x80 * 0x1_0000 + y * 0x100 + z;
            Value([x, y, z] + Zeros(k)) == WithSign(front * Pow(256, k), x >= 0x80)
  {
    hide Val, Pow;
    var a := x % 0x80;
    var rest := [a, y, z];
    assert Unsigned([x, y, z] + Zeros(k)) == rest + Zeros(k);
    ValThree(a, y, z);
    ValConcat(256, rest, Zeros(k));
    ValZeros(256, k);
  }

  lemma CompactDigits(c: nat)
    ensures var x, y, z := c / 0x1_0000 % 256, c / 0x100 % 256, c % 256;
            c % 0x80_0000 == x % 0x80 * 0x1_0000 + y * 0x100 + z && (c / 0x80_0000 % 2 == 1 <==> x >= 0x80)
  {
    var q, z := c / 0x100, c % 256;
    var h, y := q / 256, q % 256;
    DivUnique(c, 0x1_0000, h, y * 256 + z);
    UpperDigits(h, y * 256 + z);
  }

  lemma UpperDigits(h: nat, l: nat)
    requires l < 0x1_0000
    ensures var c := h * 0x1_0000 + l;
            c % 0x80_0000 == h % 0x80 * 0x1_0000 + l && h % 256 % 0x80 == h % 0x80
            && (c / 0x80_0000 % 2 == 1 <==> h % 256 >= 0x80)
  {
    var c, q, r := h * 0x1_0000 + l, h / 0x80, h % 0x80;
    assert c == q * 0x80_0000 + (r * 0x1_0000 + l);
    DivUnique(c, 0x80_0000, q, r * 0x1_0000 + l);
    assert h == q * 0x80 + r && q == q / 2 * 2 + q % 2;
    DivUnique(h, 256, q / 2, q % 2 * 0x80 + r);
  }

  function At(b: seq<Byte>, i: nat): Byte { if i < |b| then b[i] else 0 }

  /** GetCompact: the shifted size loses all but its low eight bits. */
  function Encoded(n: int): (c: nat)
    ensures c < SIZE_LIMIT
  {
    var b := Body(n);
    |b| % 256 * 0x100_0000 + At(b, 0) * 0x1_0000 + At(b, 1) * 0x100 + At(b, 2)
  }

  /** A body cut down to its first three bytes. */
  function Rounded(b: seq<Byte>): (r: seq<Byte>)
    ensures |r| == |b|
  {
    if |b| <= 3 then b else b[..3] + Zeros(|b| - 3)
  }

  lemma CompactParts(n: int)
    ensures var b, c := Body(n), Encoded(n);
            && c / 0x100_0000 == |b| % 256
            && c / 0x1_0000 % 256 == At(b, 0) && c / 0x100 % 256 == At(b, 1) && c % 256 == At(b, 2)
  {
    var b, c := Body(n), Encoded(n);
    var x, y, z := At(b, 0), At(b, 1), At(b, 2);
    var s := |b| % 256;
    assert c == 256 * (256 * (256 * s + x) + y) + z;
    assert c / 256 == 256 * (256 * s + x) + y && c / 256 / 256 == 256 * s + x;
    assert c / 0x1_0000 == 256 * s + x && c / 0x100_0000 == s;
  }

  lemma EncodedBody(n: int)
    requires |Body(n)| <= 255
    ensures CompactBody(Encoded(n)) == Rounded(Body(n))
  {
    hide Body, Encoded;
    CompactParts(n);
  }

  lemma RoundedCanonical(b: seq<Byte>)
    ensures Canonical(Rounded(b)) == Canonical(b)
  {
  }

  /** Re-encoding a decoded compact value gives the same compact value. */
  lemma CompactIdempotent(n: int)
    requires |Body(n)| <= 255
    ensures Encoded(Decoded(Encoded(n))) == Encoded(n)
  {
    EncodedBody(n);
    BodyCanonical(n);
    RoundedCanonical(Body(n));
    BodyValue(Rounded(Body(n)));
  }

  lemma EncodedFrom(m: int, c: nat)
    requires c < SIZE_LIMIT && Body(m) == CompactBody(c)
    ensures Encoded(m) == c <==> (c / 0x100_0000 < 3 ==> c % 256 == 0) && (c / 0x100_0000 < 2 ==> c / 0x100 % 256 == 0)
                                 && (c / 0x100_0000 < 1 ==> c / 0x1_0000 % 256 == 0)
  {
    CompactSize(c);
    FourParts(c);
    hide Body;
  }

  lemma FourParts(c: nat)
    requires c < SIZE_LIMIT
    ensures c == c / 0x100_0000 * 0x100_0000 + c / 0x1_0000 % 256 * 0x1_0000 + c / 0x100 % 256 * 0x100 + c % 256
  {
    var a := c / 256;
    var b := a / 256;
    assert c / 0x1_0000 == b && c / 0x100_0000 == b / 256;
  }

  /** A compact value is what its number encodes to exactly if its body is canonical and no byte beyond its size
      is set. */
  lemma CompactFixed(c: nat)
    requires c < SIZE_LIMIT
    ensures Encoded(Decoded(c)) == c <==>
            && Canonical(CompactBody(c))
            && (c / 0x100_0000 < 3 ==> c % 256 == 0) && (c / 0x100_0000 < 2 ==> c / 0x100 % 256 == 0)
            && (c / 0x100_0000 < 1 ==> c / 0x1_0000 % 256 == 0)
  {
    var b, n := CompactBody(c), Decoded(c);
    BodyValue(b);
    if Canonical(b) {
      EncodedFrom(n, c);
    } else if Encoded(n) == c {
      CompactParts(n);
      BodyCanonical(n);
      SmallerBody(b);
      SameStart(n, c);
    }
  }

  /** Reading a body and writing it back never lengthens it. */
  lemma SmallerBody(b: seq<Byte>)
    ensures |Body(Value(b))| <= |b|
  {
    var m := Unsigned(b);
    var n := Val(256, m);
    DigitsOfVal(256, m);
    var d: seq<Byte> := Magnitude(n);
    var neg := b != [] && b[0] >= 0x80;
    hide Val, Digits, LeadingZeros, Body;
    assert Value(b) == WithSign(n, neg);
    if n > 0 {
      assert m == Zeros(|m| - |d|) + d;
      SignedDigits(n, neg);
      SignedSize(m, d, neg);
    } else {
      EmptyBody();
    }
  }

  lemma EmptyBody()
    ensures Body(0) == [] && WithSign(0, false) == 0 && WithSign(0, true) == 0
  {
  }

  /** A sign byte is added only where a leading zero was taken off. */
  lemma SignedSize(m: seq<Byte>, d: seq<Byte>, neg: bool)
    requires d != [] && |d| <= |m| && m == Zeros(|m| - |d|) + d && m[0] < 0x80
    ensures |Signed(d, neg)| <= |m|
  {
  }

  lemma SameStart(n: int, c: nat)
    requires c < SIZE_LIMIT && Encoded(n) == c && |Body(n)| <= 255
    ensures |Body(n)| == |CompactBody(c)| && CompactBody(c) == Rounded(Body(n))
  {
    hide Body, Encoded, CompactBody;
    EncodedBody(n);
  }

  /** What a compact value stands for when the number fits: the body cut to three bytes. */
  lemma CompactRounds(n: int)
    requires |Body(n)| <= 255
    ensures Decoded(Encoded(n)) == Value(Rounded(Body(n)))
    ensures |Body(n)| <= 3 ==> Decoded(Encoded(n)) == n
  {
    EncodedBody(n);
    ValueBody(n);
  }

  /** A positive number is at least 2^15 times the weight of the first byte that is dropped. */
  lemma LeastValue(n: int)
    requires n > 0 && |Body(n)| >= 3
    ensures n >= 0x8000 * Pow(256, |Body(n)| - 3) > 0
  {
    var b := Body(n);
    BodyCanonical(n);
    ValueBody(n);
    var p := Pow(256, |b| - 3);
    PowPositive(256, |b| - 3);
    LeastCanonical(b);
    assert Pow(256, |b| - 2) == p * 256;
  }

  /** The least value of a canonical body of a positive number. */
  lemma LeastCanonical(b: seq<Byte>)
    requires |b| >= 2 && Canonical(b) && b[0] < 0x80
    ensures Val(256, b) >= 0x80 * Pow(256, |b| - 2)
  {
    ValHead(256, b);
    ValHead(256, b[1..]);
    AtLeast(b[0], b[1], Pow(256, |b| - 2), Val(256, b[1..][1..]));
  }

  lemma AtLeast(x: nat, y: nat, q: nat, rest: nat)
    requires x >= 1 || y >= 0x80
    ensures x * (q * 256) + (y * q + rest) >= 0x80 * q
  {
    if x >= 1 { assert x * (q * 256) >= q * 256; } else { assert y * q >= 0x80 * q; }
  }

  lemma AtMost(x: nat, q: nat, rest: nat)
    requires x < 0x80 && rest < q
    ensures x * q + rest < 0x80 * q
  {
    assert x * q <= 0x7F * q;
  }

  /** The loss of the compact form on a non-negative number: nothing up to three bytes, otherwise less than the
      weight of the third byte and less than one part in 2^15. */
  lemma CompactLoss(n: nat)
    requires |Body(n)| <= 255
    ensures var m, size := Decoded(Encoded(n)), |Body(n)|;
            && 0 <= m <= n && (size <= 3 ==> m == n)
            && (size > 3 ==> n - m < Pow(256, size - 3) && 0x8000 * (n - m) < n)
  {
    CompactRounds(n);
    var b := Body(n);
    if |b| > 3 {
      BodyCanonical(n);
      ValueBody(n);
      assert b == b[..3] + b[3..];
      TailZeroed(256, b[..3], b[3..]);
      LeastValue(n);
    }
  }

  lemma ValueBound(b: seq<Byte>)
    ensures Value(b) < Pow(256, |b|)
  {
    ValBound(256, b);
    PowPositive(256, |b|);
  }

  lemma CompactSize(c: nat)
    requires c < SIZE_LIMIT
    ensures |CompactBody(c)| == c / 0x100_0000 < 256
  {
  }

  lemma LowByte(s: nat)
    ensures s >= 256 ==> s % 256 <= s - 256
  {
  }

  /** Beyond 255 bytes the size wraps around and nothing of the bound is left. */
  lemma CompactWraps(n: nat)
    requires |Body(n)| >= 256
    ensures n - Decoded(Encoded(n)) >= Pow(256, |Body(n)| - 3)
  {
    var s := |Body(n)|;
    CompactParts(n);
    var c := Encoded(n);
    hide Encoded;
    CompactSize(c);
    ValueBound(CompactBody(c));
    LeastValue(n);
    hide Body, CompactBody, Value, Pow;
    LowByte(s);
    PowMonotone(256, |CompactBody(c)|, s - 3);
  }

  /** The bound on the loss holds exactly for the numbers of at most 255 bytes. */
  lemma CompactExact(n: nat)
    requires |Body(n)| > 3
    ensures n - Decoded(Encoded(n)) < Pow(256, |Body(n)| - 3) <==> |Body(n)| <= 255
  {
    if |Body(n)| <= 255 { CompactLoss(n); } else { CompactWraps(n); }
  }

  lemma FirstThree(b: seq<Byte>)
    requires |b| >= 3
    ensures Val(256, b) == Top(b) * Pow(256, |b| - 3) + Val(256, b[3..])
    ensures Val(256, b[3..]) < Pow(256, |b| - 3)
  {
    assert b == b[..3] + b[3..];
    ValConcat(256, b[..3], b[3..]);
    ValBound(256, b[3..]);
    assert b[..3][..2] == b[..2] && b[..2][..1] == [b[0]];
    ValOne(256, b[0]);
  }

  lemma ShortValue(b: seq<Byte>)
    requires |b| < 3
    ensures Val(256, b) * Pow(256, 3 - |b|) == Top(b)
    ensures Pow(256, 3 - |b|) > 0
  {
    assert Pow(256, 1) == 256 && Pow(256, 2) == 0x1_0000 && Pow(256, 3) == 0x100_0000;
    if |b| == 1 { ValOne(256, b[0]); assert b == [b[0]]; }
    if |b| == 2 { assert b[..1] == [b[0]]; ValOne(256, b[0]); }
  }

  lemma Quotient(x: nat, y: nat, p: nat, u: nat, v: nat)
    requires x * p + u <= y * p + v && u < p && v < p
    ensures x <= y
  {
    if x > y { Times(x - y, p); }
  }

  /** More bytes for a larger number. */
  lemma BodyLonger(m: nat, n: nat)
    requires m <= n
    ensures |Body(m)| <= |Body(n)|
  {
    if |Body(m)| > |Body(n)| {
      ValueBody(n);
      BodyCanonical(n);
      ValueBody(m);
      BodyCanonical(m);
      LongerIsLarger(Body(n), Body(m));
    }
  }

  lemma LongerIsLarger(a: seq<Byte>, b: seq<Byte>)
    requires |a| < |b| && Canonical(a) && Canonical(b) && b[0] < 0x80 && (a == [] || a[0] < 0x80)
    ensures Val(256, a) < Val(256, b)
  {
    if |b| == 1 {
      ValOne(256, b[0]);
      assert b == [b[0]];
    } else {
      LeastCanonical(b);
      PowPositive(256, |b| - 2);
      if a != [] {
        MostCanonical(a);
        PowMonotone(256, |a| - 1, |b| - 2);
      }
    }
  }

  lemma MostCanonical(a: seq<Byte>)
    requires a != [] && a[0] < 0x80
    ensures Val(256, a) < 0x80 * Pow(256, |a| - 1)
  {
    ValHead(256, a);
    ValBound(256, a[1..]);
    AtMost(a[0], Pow(256, |a| - 1), Val(256, a[1..]));
  }

  /** The compact form keeps the order of non-negative numbers. */
  lemma CompactMonotone(m: nat, n: nat)
    requires m <= n && |Body(n)| <= 255
    ensures Encoded(m) <= Encoded(n)
  {
    BodyLonger(m, n);
    EncodedParts(m);
    EncodedParts(n);
    NaturalBody(m);
    NaturalBody(n);
    var a, b := Body(m), Body(n);
    hide Body, Val, Encoded, Top;
    if |a| == |b| {
      SameSizeOrder(a, b);
    }
  }

  lemma NaturalBody(n: nat)
    ensures Val(256, Body(n)) == n
  {
    ValueBody(n);
    BodyCanonical(n);
  }

  /** The first three bytes as a number. */
  function Top(b: seq<Byte>): nat { At(b, 0) * 0x1_0000 + At(b, 1) * 0x100 + At(b, 2) }

  lemma EncodedParts(n: int)
    requires |Body(n)| <= 255
    ensures Encoded(n) == |Body(n)| * 0x100_0000 + Top(Body(n)) && Top(Body(n)) < 0x100_0000
  {
    hide Body;
  }

  lemma SameSizeOrder(a: seq<Byte>, b: seq<Byte>)
    requires |a| == |b| && Val(256, a) <= Val(256, b)
    ensures Top(a) <= Top(b)
  {
    if |a| >= 3 {
      FirstThree(a);
      FirstThree(b);
      Quotient(Top(a), Top(b), Pow(256, |a| - 3), Val(256, a[3..]), Val(256, b[3..]));
    } else {
      ShortValue(a);
      ShortValue(b);
      var p := Pow(256, 3 - |a|);
      assert Val(256, a) * p <= Val(256, b) * p;
    }
  }

  // ---- The conversion loops

  /** The signed body of a magnitude that may be zero. */
  function SignedBody(m: seq<Byte>, neg: bool): seq<Byte> {
    if m == [] then [] else Signed(m, neg)
  }

  /** Shifting a number and what divides it by the same amount. */
  lemma ShiftBoth(low: nat, p: nat, q: nat)
    requires p > 0 && q > 0
    ensures p * q > 0 && low * q / (p * q) == low / p && low * q % (p * q) == low % p * q
  {
    var d, r := low / p, low % p;
    Recompose(low, p);
    Scale(r, p, q, 0);
    Spread(d, p, r, q);
    DivUnique(low * q, p * q, d, r * q);
  }

  lemma Spread(d: nat, p: nat, r: nat, q: nat)
    ensures (d * p + r) * q == d * (p * q) + r * q
  {
  }

  lemma Below(low: nat, p: nat)
    requires p > 0 && low < 256 * p
    ensures low / p < 256
  {
    Recompose(low, p);
    if low / p >= 256 { Times(low / p - 255, p); }
  }

  lemma Regroup3(x: nat, q: nat)
    ensures x * q * 256 == x * (q * 256)
  {
  }

  /** Taking the top byte off a left-aligned number: `p` is the weight of that byte, and `q` the shift. */
  lemma TopByte(low: nat, p: nat, q: nat)
    requires p > 0 && q > 0 && low < 256 * p
    ensures p * q > 0
    ensures low * q / (p * q) == low / p < 256
    ensures low * q * 256 % (p * q * 256) == low % p * (q * 256)
  {
    Below(low, p);
    ShiftBoth(low, p, q);
    ShiftBoth(low, p, q * 256);
    Regroup3(low, q);
    Regroup3(p, q);
  }

  /** The number without its last `k` bytes. */
  function High(n: nat, k: nat): nat {
    PowPositive(256, k);
    n / Pow(256, k)
  }

  /** The last `k` bytes of a number. */
  function Low(n: nat, k: nat): nat {
    PowPositive(256, k);
    n % Pow(256, k)
  }

  /** What is left of a `k`-byte number after shifting out its first `i` bytes. */
  function Window(n: nat, k: nat, i: nat): nat
    requires i <= k
  {
    Low(n, k - i) * Pow(256, i)
  }

  lemma SplitByte(n: nat, p: nat, q: nat, r: nat, a: nat, b: nat)
    requires b < p && n == q * (p * 256) + r && r == a * p + b
    ensures n / p == q * 256 + a && n % p == b
  {
    Regroup(q, p, a, b);
    DivUnique(n, p, q * 256 + a, b);
  }

  /** Splitting off one more byte. */
  lemma NextByte(n: nat, p: nat)
    requires p > 0
    ensures n / p == n / (p * 256) * 256 + n % (p * 256) / p
    ensures n % p == n % (p * 256) % p
  {
    var q, r := n / (p * 256), n % (p * 256);
    Recompose(n, p * 256);
    Recompose(r, p);
    SplitByte(n, p, q, r, r / p, r % p);
  }

  lemma Regroup(q: nat, p: nat, a: nat, b: nat)
    ensures q * (p * 256) + (a * p + b) == (q * 256 + a) * p + b
  {
  }

  lemma SignedSnoc(m: seq<Byte>, neg: bool, c: Byte)
    requires m != []
    ensures Signed(m + [c], neg) == Signed(m, neg) + [c]
  {
  }

  /** What one more byte does to the body. */
  lemma GrowBody(hi: nat, c: Byte, neg: bool)
    ensures var p, q := SignedBody(Digits(256, hi), neg), SignedBody(Digits(256, hi * 256 + c), neg);
            if hi > 0 then q == p + [c]
            else if c == 0 then p == [] && q == []
            else p == [] && q == (if c >= 0x80 then [if neg then 0x80 else 0, c] else if neg then [c + 0x80] else [c])
    ensures hi * 256 + c == 0 <==> hi == 0 && c == 0
  {
    DigitsSnoc(256, hi, c);
    if hi > 0 {
      SignedSnoc(Digits(256, hi), neg, c);
    } else {
      assert Digits(256, hi) + [c] == [c];
    }
  }

  /** The loop of setint64, setuint64 and setuint256 over a number of `k` bytes: leading zeros are skipped, and the
      sign goes into the first byte or in front of it. */
  method BodyBytes(n: nat, neg: bool, k: nat) returns (p: seq<Byte>)
    requires k > 0 && n < Pow(256, k)
    ensures p == SignedBody(Digits(256, n), neg)
  {
    var x := n;
    var lead := true;
    p := [];
    AtStart(n, k);
    hide Digits, Pow, Signed, High, Low, SignedBody, Window;
    for i := 0 to k
      invariant x == Window(n, k, i)
      invariant p == SignedBody(Digits(256, High(n, k - i)), neg)
      invariant lead <==> High(n, k - i) == 0
    {
      Shift(n, k, i);
      var c: Byte := High(x, k - 1);
      x := Low(x * 256, k);
      GrowBody(High(n, k - i), c, neg);
      if lead {
        if c == 0 { continue; }
        if c >= 0x80 {
          p := p + [if neg then 0x80 else 0];
        } else if neg {
          c := c + 0x80;
        }
        lead := false;
      }
      p := p + [c];
    }
    AtEnd(n);
  }

  lemma AtStart(n: nat, k: nat)
    requires n < Pow(256, k)
    ensures Window(n, k, 0) == n && High(n, k) == 0
    ensures SignedBody(Digits(256, 0), false) == [] && SignedBody(Digits(256, 0), true) == []
  {
    DivUnique(n, Pow(256, k), 0, n);
  }

  lemma AtEnd(n: nat)
    ensures High(n, 0) == n
  {
  }

  lemma Shift(n: nat, k: nat, i: nat)
    requires i < k
    ensures var x := Window(n, k, i);
            && High(x, k - 1) < 256
            && High(n, k - i - 1) == High(n, k - i) * 256 + High(x, k - 1)
            && Low(x * 256, k) == Window(n, k, i + 1)
  {
    var p, q := Pow(256, k - i - 1), Pow(256, i);
    PowPositive(256, k - i - 1);
    PowPositive(256, i);
    PowAdd(256, k - i - 1, i);
    NextByte(n, p);
    TopByte(n % (p * 256), p, q);
  }

  lemma SignedDigits(n: nat, neg: bool)
    requires neg ==> n > 0
    ensures Body(WithSign(n, neg)) == SignedBody(Digits(256, n), neg)
  {
    hide Signed;
    assert Abs(WithSign(n, neg)) == n;
    hide Digits;
  }

  lemma {:induction false} DigitsLength(n: nat, k: nat)
    requires n < Pow(256, k)
    ensures |Digits(256, n)| <= k
    decreases k
  {
    if k > 0 && n > 0 {
      assert n / 256 < Pow(256, k - 1);
      DigitsLength(n / 256, k - 1);
    }
  }

  class Bignum {
    var bn: int

    constructor ()
      ensures bn == 0
    {
      bn := 0;
    }

    /** What every setter ends with: the length, the body, and BN_mpi2bn. A refused body leaves the number alone. */
    method SetMpi(body: seq<Byte>)
      modifies this
      ensures bn == if Taken(|body|) >= 0 then Value(body[..Taken(|body|)]) else old(bn)
      ensures |body| < BODY_LIMIT ==> bn == Value(body)
    {
      FromHeader(body);
      TakenWhole(|body|);
      assert body[..|body|] == body;
      match FromMpi(Header(|body|) + body)
      case Some(v) => bn := v;
      case None =>
    }

    /** setint64 */
    method SetInt64(sn: int)
      requires -0x8000_0000_0000_0000 <= sn < 0x8000_0000_0000_0000
      modifies this
      ensures bn == sn
    {
      assert Pow(256, 8) == 0x1_0000_0000_0000_0000 by { Pow8(); }
      hide Pow;
      var n: nat := if sn < 0 then -(sn + 1) + 1 else sn;
      var p := BodyBytes(n, sn < 0, 8);
      SignedDigits(n, sn < 0);
      DigitsLength(n, 8);
      ValueBody(sn);
      SetMpi(p);
    }

    /** setuint64 with k = 8, setuint256 with k = 32. */
    method SetUnsigned(n: nat, k: nat)
      requires 0 < k <= 32 && n < Pow(256, k)
      modifies this
      ensures bn == n
    {
      var p := BodyBytes(n, false, k);
      SignedDigits(n, false);
      DigitsLength(n, k);
      ValueBody(n);
      SetMpi(p);
    }

    /** getuint64 with k = 8, getuint256 with k = 32: the magnitude's last `k` bytes. */
    method GetUnsigned(k: nat) returns (n: nat)
      ensures n == Low(Abs(bn), k)
    {
      var vch := ToMpi(bn);
      assert vch[4..] == Body(bn);
      if |vch| > 4 {
        vch := vch[4 := vch[4] % 0x80];
      }
      Unmasked(bn, vch[4..]);
      hide *;
      n := LastBytes(vch, k);
    }

    /** setvch: little-endian bytes, the sign in the top bit of the last. */
    method SetVch(vch: seq<Byte>)
      modifies this
      ensures bn == if Taken(|vch|) >= 0 then Value(Reverse(vch)[..Taken(|vch|)]) else old(bn)
      ensures |vch| < BODY_LIMIT ==> bn == Value(Reverse(vch))
    {
      SetMpi(Reverse(vch));
    }

    /** getvch */
    method GetVch() returns (vch: seq<Byte>)
      ensures vch == Reverse(Body(bn))
    {
      var mpi := ToMpi(bn);
      if |mpi| <= 4 {
        return [];
      }
      assert mpi[4..] == Body(bn);
      vch := Reverse(mpi[4..]);
    }

    /** SetCompact */
    method SetCompact(c: nat)
      requires c < SIZE_LIMIT
      modifies this
      ensures bn == Decoded(c)
    {
      var size := c / 0x100_0000;
      var vch: seq<Byte> := seq(4 + size, _ => 0);
      vch := vch[3 := size];
      if size >= 1 { vch := vch[4 := c / 0x1_0000 % 256]; }
      if size >= 2 { vch := vch[5 := c / 0x100 % 256]; }
      if size >= 3 { vch := vch[6 := c % 256]; }
      CompactSize(c);
      HeaderSmall(size);
      assert vch[4..] == CompactBody(c);
      hide CompactBody, Header;
      assert vch == Header(size) + CompactBody(c);
      FromShort(CompactBody(c));
      bn := FromMpi(vch).value;
    }

    /** GetCompact */
    method GetCompact() returns (c: nat)
      ensures c == Encoded(bn)
    {
      var vch := ToMpi(bn);
      var size := |vch| - 4;
      assert vch[4..] == Body(bn);
      c := size % 256 * 0x100_0000;
      if size >= 1 { c := c + (vch[4] as int) * 0x1_0000; }
      if size >= 2 { c := c + (vch[5] as int) * 0x100; }
      if size >= 3 { c := c + vch[6]; }
    }
  }

  /** The loop of getuint64: bytes from the end, no further than the length field. */
  method LastBytes(vch: seq<Byte>, k: nat) returns (n: nat)
    requires |vch| >= 4
    ensures n == Low(Val(256, vch[4..]), k)
  {
    hide Val, Pow, Low;
    ghost var m := vch[4..];
    ValEmpty(m[|m|..]);
    n := 0;
    var i, j := 0, |vch| - 1;
    while i < k && j >= 4
      invariant 0 <= i <= k && j == |vch| - 1 - i && i <= |m|
      invariant n == Val(256, m[|m| - i..])
    {
      ghost var rest := m[|m| - i - 1..];
      ValHead(256, rest);
      assert rest[0] == vch[j] && rest[1..] == m[|m| - i..];
      n := n + vch[j] * Pow(256, i);
      i, j := i + 1, j - 1;
    }
    LowBytes(m, i, k);
  }

  lemma ValEmpty(b: seq<Byte>)
    requires b == []
    ensures Val(256, b) == 0
  {
  }

  lemma HeaderSmall(n: nat)
    requires n < 256
    ensures Header(n) == [0, 0, 0, n]
  {
  }

  lemma Pow8()
    ensures Pow(256, 8) == 0x1_0000_0000_0000_0000
  {
    assert Pow(256, 4) == 0x1_0000_0000;
    PowAdd(256, 4, 4);
  }

  /** With the sign bit cleared, the body is the magnitude. */
  lemma Unmasked(n: int, m: seq<Byte>)
    requires m == if Body(n) == [] then [] else Body(n)[0 := Body(n)[0] % 0x80]
    ensures Val(256, m) == Abs(n)
  {
    ValueBody(n);
    var b := Body(n);
    assert m == Unsigned(b);
    if n > 0 { BodyCanonical(n); }
  }

  lemma LowBytes(m: seq<Byte>, i: nat, k: nat)
    requires i <= |m| && i <= k && (i == k || i == |m|)
    ensures Val(256, m[|m| - i..]) == Low(Val(256, m), k)
  {
    PowPositive(256, k);
    var a, b := m[..|m| - i], m[|m| - i..];
    assert m == a + b;
    ValBound(256, b);
    ValConcat(256, a, b);
    if i == k {
      DivUnique(Val(256, m), Pow(256, k), Val(256, a), Val(256, b));
    } else {
      PowMonotone(256, i, k);
      assert a == [] && b == m;
      DivUnique(Val(256, b), Pow(256, k), 0, Val(256, b));
    }
  }
}
