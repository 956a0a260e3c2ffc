/** relay_inv (src/dions.cpp): the extended Euclidean algorithm on 32-bit integers. */
module RelayInverse {
  import opened Arithmetic

  newtype int32 = x: int | -0x8000_0000 <= x < 0x8000_0000

  function Abs(x: int): nat { if x < 0 then -x else x }

  function Gcd(x: nat, y: nat): nat
    decreases y
  {
    if y == 0 then x else Gcd(y, x % y)
  }

  ghost predicate Divides(d: nat, x: int) { exists k: int :: x == k * d }

  ghost predicate Congruent(a: int, b: int, y: int) { exists k: int :: a == b + k * y }

  lemma Witness(a: int, b: int, y: int, k: int)
    requires a == b + k * y
    ensures Congruent(a, b, y)
  {
  }

  /** The remainder of C's division, which truncates toward zero. */
  function Remainder(a: int32, y: int32): (r: int32)
    requires y > 0 && a >= -y
    ensures -y < r < y && (a >= 0 ==> r >= 0) && (a <= 0 ==> r <= 0)
  {
    if a >= 0 then a % y else -((-a) % y)
  }

  // ---- The greatest common divisor

  lemma {:induction false} GcdDivides(x: nat, y: nat)
    ensures Divides(Gcd(x, y), x) && Divides(Gcd(x, y), y)
    decreases y
  {
    var g := Gcd(x, y);
    if y == 0 {
      assert x == 1 * g && 0 == 0 * g;
    } else {
      GcdDivides(y, x % y);
      var i :| y == i * g;
      var j :| x % y == j * g;
      Recompose(x, y);
      Factor(x / y, i, j, g);
      assert x == (x / y * i + j) * g;
    }
  }

  lemma Factor(q: int, i: int, j: int, g: int)
    ensures q * (i * g) + j * g == (q * i + j) * g
  {
  }

  lemma {:induction false} GcdGreatest(x: nat, y: nat, d: nat)
    requires Divides(d, x) && Divides(d, y) && x + y > 0
    ensures d <= Gcd(x, y)
    decreases y
  {
    if y == 0 {
      var k :| x == k * d;
      Positive(k, d);
    } else {
      var i :| x == i * d;
      var j :| y == j * d;
      Recompose(x, y);
      Factor(-(x / y), j, i, d);
      assert x % y == (i - x / y * j) * d;
      GcdGreatest(y, x % y, d);
    }
  }

  lemma Positive(k: int, d: nat)
    requires k * d > 0
    ensures d <= k * d
  {
    assert k > 0;
  }

  // ---- One step

  /** What the loop keeps of a remainder and its coefficient: |a| * u + |c| * v == y with a and c of opposite signs
      bounds every coefficient by y. */
  ghost predicate Balanced(a: int, c: int, u: int, v: int, y: int) {
    && Abs(a) * u + Abs(c) * v == y
    && ((a <= 0 && c >= 0) || (a >= 0 && c <= 0))
  }

  lemma Grow(a: int, c: int, q: nat)
    requires (a <= 0 && c >= 0) || (a >= 0 && c <= 0)
    ensures Abs(a - q * c) == Abs(a) + q * Abs(c) && Abs(q * c) == q * Abs(c)
    ensures (c <= 0 && a - q * c >= 0) || (c >= 0 && a - q * c <= 0)
  {
    if c >= 0 { assert q * c >= 0; } else { assert q * c <= 0; assert q * c == -(q * -c); }
  }

  lemma StepBalanced(a: int, c: int, u: nat, v: nat, y: nat)
    requires u > 0 && Balanced(a, c, u, v, y)
    ensures var q := v / u;
            Balanced(c, a - q * c, v - q * u, u, y) && 0 <= v - q * u < u
    ensures Abs(a - v / u * c) <= y && Abs(v / u * c) <= y && 0 <= v / u * u <= v
  {
    Quotient(v, u);
    BalancedBy(a, c, u, v, y, v / u);
  }

  lemma Quotient(v: nat, u: nat)
    requires u > 0
    ensures v / u >= 0 && 0 <= v - v / u * u < u && 0 <= v / u * u <= v
  {
    assert v == v / u * u + v % u;
  }

  lemma BalancedBy(a: int, c: int, u: nat, v: nat, y: nat, q: nat)
    requires u > 0 && Balanced(a, c, u, v, y) && 0 <= v - q * u < u
    ensures Balanced(c, a - q * c, v - q * u, u, y) && Abs(a - q * c) <= y && Abs(q * c) <= y
  {
    Grow(a, c, q);
    var m, n := Abs(a), Abs(c);
    Expand(m, n, q, u, v);
    hide Abs;
    SumBound(n, v - q * u, m + q * n, u, y);
    NatTimes(q, n);
  }

  lemma NatTimes(q: nat, n: nat)
    ensures q * n >= 0
  {
  }

  lemma SumBound(n: nat, w: nat, z: nat, u: nat, y: nat)
    requires u > 0 && n * w + z * u == y
    ensures z <= y
  {
    AtLeastSelf(z, u);
    NatTimes(n, w);
  }

  lemma AtLeastSelf(x: nat, u: nat)
    requires u > 0
    ensures x <= x * u
  {
  }

  lemma Expand(m: int, n: int, q: int, u: int, v: int)
    ensures n * (v - q * u) + (m + q * n) * u == m * u + n * v
  {
  }

  lemma StepCongruent(a: int, c: int, u: int, v: int, x: int, y: int, q: int)
    requires Congruent(c * x, u, y) && Congruent(a * x, v, y)
    ensures Congruent((a - q * c) * x, v - q * u, y)
  {
    var i: int :| c * x == u + i * y;
    var j: int :| a * x == v + j * y;
    assert (a - q * c) * x == a * x - q * (c * x);
    assert q * (u + i * y) == q * u + q * i * y;
    assert (j - q * i) * y == j * y - q * i * y;
    Witness((a - q * c) * x, v - q * u, y, j - q * i);
  }

  lemma GcdStep(u: nat, v: nat)
    requires u > 0
    ensures Gcd(v, u) == Gcd(u, v - v / u * u) && v - v / u * u >= 0
  {
    assert v % u == v - v / u * u;
  }

  lemma Reduced(a: int32, x: int, g: int, y: int32)
    requires y > 0 && a >= -y && Congruent(a as int * x, g, y as int)
    ensures var m := Remainder(a, y);
            var r := if m < 0 then y + m else m;
            Congruent(r as int * x, g, y as int)
  {
    var m := Remainder(a, y) as int;
    var b, p := a as int, y as int;
    var k: int :| b * x == g + k * p;
    var t := Truncated(b, p);
    assert m == b + t * p by { hide Congruent; }
    hide Congruent;
    Lift(b, t, p, x, k, g);
    LiftOne(m, p, x, k + t * x, g);
    Witness(m * x, g, p, k + t * x);
    Witness((p + m) * x, g, p, k + t * x + x);
  }

  /** The multiple of `p` that truncated division takes off. */
  lemma Truncated(b: int, p: nat) returns (t: int)
    requires p > 0
    ensures b + t * p == if b >= 0 then b % p else -((-b) % p)
  {
    if b >= 0 {
      t := -(b / p);
      assert b == b / p * p + b % p;
    } else {
      t := (-b) / p;
      assert -b == (-b) / p * p + (-b) % p;
    }
  }

  lemma LiftOne(m: int, p: int, x: int, j: int, g: int)
    requires m * x == g + j * p
    ensures (p + m) * x == g + (j + x) * p
  {
    assert (p + m) * x == p * x + m * x;
    assert (j + x) * p == j * p + x * p;
  }

  lemma Lift(b: int, t: int, p: int, x: int, k: int, g: int)
    requires b * x == g + k * p
    ensures (b + t * p) * x == g + (k + t * x) * p
  {
    assert (b + t * p) * x == b * x + t * p * x;
    assert (k + t * x) * p == k * p + t * x * p;
  }

  // ---- The loop

  /** The loop's invariant: coefficients balanced, each remainder its coefficient times `x` modulo `y`, and the
      greatest common divisor unchanged. */
  ghost predicate Euclid(a: int, c: int, u: nat, v: nat, x: nat, y: nat) {
    && u > 0 && v > 0 && y > 0 && Balanced(a, c, u, v, y) && u <= x && (v <= y || v <= x)
    && Congruent(c * x, u, y) && Congruent(a * x, v, y) && Gcd(v, u) == Gcd(y, x)
  }

  lemma Start(x: nat, y: nat)
    requires x > 0 && y > 0
    ensures Euclid(0, 1, x, y, x, y)
  {
    Witness(1 * x, x, y, 0);
    Witness(0 * x, y, y, -1);
  }

  lemma Next(a: int, c: int, u: nat, v: nat, x: nat, y: nat)
    requires Euclid(a, c, u, v, x, y)
    ensures var q := v / u;
            && 0 <= v - q * u < u && Abs(c) <= y && Abs(q * c) <= y && Abs(a - q * c) <= y && 0 <= q * u <= v
            && (v - q * u > 0 ==> Euclid(c, a - q * c, v - q * u, u, x, y))
            && (v - q * u == 0 ==> Congruent(c * x, Gcd(x, y), y))
    ensures 0 <= v / u <= v
  {
    hide Gcd, Congruent, Balanced;
    StepBalanced(a, c, u, v, y);
    StepCongruent(a, c, u, v, x, y, v / u);
    GcdStep(u, v);
    CoefficientBound(a, c, u, v, y);
    GcdZero(u);
    GcdSwap(x, y);
  }

  lemma CoefficientBound(a: int, c: int, u: nat, v: nat, y: nat)
    requires u > 0 && v > 0 && Balanced(a, c, u, v, y)
    ensures Abs(c) <= y && v / u <= v
  {
    AtLeastSelf(Abs(c), v);
    assert v / u <= v / u * u by { AtLeastSelf(v / u, u); }
    assert v == v / u * u + v % u;
  }

  /** On positive 32-bit arguments the loop ends, no intermediate value overflows, and the result times `x` is the
      greatest common divisor modulo `y`. */
  method RelayInv(x: int32, y: int32) returns (r: int32)
    requires x > 0 && y > 0
    ensures 0 <= r < y
    ensures Congruent(r as int * x as int, Gcd(x as int, y as int), y as int)
  {
    var u, v, c, a := x, y, 1, 0;
    Start(x as int, y as int);
    hide Gcd, Congruent, Euclid, Abs;
    while true
      invariant u > 0 && v > 0 && Euclid(a as int, c as int, u as int, v as int, x as int, y as int)
      decreases u
    {
      Next(a as int, c as int, u as int, v as int, x as int, y as int);
      Bounds(a as int, c as int, v as int / u as int, y as int);
      var q := v / u;
      var t := c;
      c := a - q * c;
      a := t;
      t := u;
      u := v - q * u;
      v := t;
      if u == 0 {
        break;
      }
    }
    Reduced(a, x as int, Gcd(x as int, y as int), y);
    r := Remainder(a, y);
    if r < 0 {
      r := y + r;
    }
  }

  lemma Bounds(a: int, c: int, q: int, y: nat)
    requires Abs(c) <= y && Abs(q * c) <= y && Abs(a - q * c) <= y
    ensures 0 - y <= c <= y && 0 - y <= q * c <= y && 0 - y <= a - q * c <= y
  {
  }

  lemma GcdZero(v: nat)
    ensures Gcd(v, 0) == v
  {
  }

  lemma GcdSwap(x: nat, y: nat)
    requires x > 0 && y > 0
    ensures Gcd(x, y) == Gcd(y, x)
  {
    GcdDivides(x, y);
    GcdDivides(y, x);
    GcdGreatest(x, y, Gcd(y, x));
    GcdGreatest(y, x, Gcd(x, y));
  }

  /** With coprime arguments the result is the inverse. */
  lemma InverseModulo(r: int, x: nat, y: nat)
    requires y > 0 && Gcd(x, y) == 1 && Congruent(r * x, Gcd(x, y), y)
    ensures (r * x) % y == 1 % y
  {
    var k: int :| r * x == 1 + k * y;
    ModShift(1, k, y);
  }

  lemma ModShift(b: int, k: int, y: nat)
    requires y > 0
    ensures (b + k * y) % y == b % y
  {
    Recompose(b, y);
    Difference(b / y, -k, y);
    DivUnique(b + k * y, y, b / y + k, b % y);
  }
}
