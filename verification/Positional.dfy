/** Numbers written in a base, most significant digit first. */
module Positional {
  import opened Arithmetic

  function Val(base: nat, ds: seq<nat>): nat {
    if ds == [] then 0 else Val(base, ds[..|ds| - 1]) * base + ds[|ds| - 1]
  }

  /** The digits of `n`, without leading zeros. */
  function Digits(base: nat, n: nat): (ds: seq<nat>)
    requires base >= 2
    ensures forall i :: 0 <= i < |ds| ==> ds[i] < base
    ensures ds == [] <==> n == 0
  {
    if n == 0 then [] else Digits(base, n / base) + [n % base]
  }

  ghost predicate InBase(base: nat, ds: seq<nat>) {
    forall i :: 0 <= i < |ds| ==> ds[i] < base
  }

  function Pow(base: nat, k: nat): nat { if k == 0 then 1 else Pow(base, k - 1) * base }

  lemma {:induction false} ValDigits(base: nat, n: nat)
    requires base >= 2
    ensures Val(base, Digits(base, n)) == n
  {
    if n > 0 {
      DivPositive(n, base);
      ValDigits(base, n / base);
      ValSnoc(base, Digits(base, n / base), n % base);
      Recompose(n, base);
    }
  }

  lemma ValSnoc(base: nat, ds: seq<nat>, d: nat)
    ensures Val(base, ds + [d]) == Val(base, ds) * base + d
  {
    assert (ds + [d])[..|ds|] == ds;
  }

  lemma DigitsSnoc(base: nat, q: nat, d: nat)
    requires base >= 2 && d < base
    ensures Digits(base, q * base + d) == if q == 0 && d == 0 then [] else Digits(base, q) + [d]
  {
    DivUnique(q * base + d, base, q, d);
    if q > 0 { Times(q, base); }
  }

  lemma {:induction false} DigitsVal(base: nat, ds: seq<nat>)
    requires base >= 2 && InBase(base, ds) && (ds == [] || ds[0] != 0)
    ensures Digits(base, Val(base, ds)) == ds
    decreases |ds|
  {
    if ds != [] {
      var init, last := ds[..|ds| - 1], ds[|ds| - 1];
      DigitsVal(base, init);
      DigitsSnoc(base, Val(base, init), last);
      hide Digits;
      assert ds == init + [last];
    }
  }

  lemma Distribute(x: nat, y: nat, p: nat, base: nat)
    ensures (x * p + y) * base == x * (p * base) + y * base
  {
  }

  /** Splitting a numeral. */
  lemma {:induction false} ValConcat(base: nat, a: seq<nat>, b: seq<nat>)
    ensures Val(base, a + b) == Val(base, a) * Pow(base, |b|) + Val(base, b)
  {
    if b == [] {
      assert a + b == a;
    } else {
      var n := |b| - 1;
      ValConcat(base, a, b[..n]);
      assert (a + b)[..|a + b| - 1] == a + b[..n];
      Distribute(Val(base, a), Val(base, b[..n]), Pow(base, n), base);
    }
  }

  function Zeros(k: nat): (r: seq<nat>)
    ensures |r| == k
  {
    seq(k, _ => 0)
  }

  lemma {:induction false} ValZeros(base: nat, k: nat)
    ensures Val(base, Zeros(k)) == 0
  {
    if k > 0 {
      assert Zeros(k)[..k - 1] == Zeros(k - 1);
      ValZeros(base, k - 1);
    }
  }

  lemma PadLeft(base: nat, k: nat, ds: seq<nat>)
    ensures Val(base, Zeros(k) + ds) == Val(base, ds)
  {
    ValConcat(base, Zeros(k), ds);
    ValZeros(base, k);
  }

  lemma {:induction false} PowPositive(base: nat, k: nat)
    requires base > 0
    ensures Pow(base, k) > 0
  {
    if k > 0 { PowPositive(base, k - 1); }
  }

  lemma Scale(x: nat, y: nat, base: nat, d: nat)
    requires x < y && d < base
    ensures x * base + d < y * base
  {
    assert (x + 1) * base <= y * base;
  }

  lemma {:induction false} ValBound(base: nat, ds: seq<nat>)
    requires base >= 2 && InBase(base, ds)
    ensures Val(base, ds) < Pow(base, |ds|)
  {
    if ds != [] {
      var init := ds[..|ds| - 1];
      ValBound(base, init);
      Scale(Val(base, init), Pow(base, |init|), base, ds[|ds| - 1]);
    }
  }

  lemma {:induction false} PowMonotone(base: nat, j: nat, k: nat)
    requires base > 0 && j <= k
    ensures Pow(base, j) <= Pow(base, k)
    decreases k - j
  {
    if j < k {
      PowPositive(base, k - 1);
      PowMonotone(base, j, k - 1);
      assert Pow(base, k - 1) <= Pow(base, k - 1) * base;
    }
  }

  lemma {:induction false} PowAdd(base: nat, j: nat, k: nat)
    ensures Pow(base, j + k) == Pow(base, j) * Pow(base, k)
  {
    if k > 0 {
      PowAdd(base, j, k - 1);
      assert Pow(base, j) * Pow(base, k - 1) * base == Pow(base, j) * (Pow(base, k - 1) * base);
    }
  }

  lemma ValOne(base: nat, d: nat)
    ensures Val(base, [d]) == d
  {
    assert [d][..0] == [];
  }

  /** The first digit against the rest. */
  lemma ValHead(base: nat, ds: seq<nat>)
    requires ds != []
    ensures Val(base, ds) == ds[0] * Pow(base, |ds| - 1) + Val(base, ds[1..])
  {
    assert ds == [ds[0]] + ds[1..];
    ValConcat(base, [ds[0]], ds[1..]);
    ValOne(base, ds[0]);
  }

  /** The number of leading zeros. */
  function LeadingZeros(ds: seq<nat>): (k: nat)
    ensures k <= |ds| && (forall i :: 0 <= i < k ==> ds[i] == 0) && (k < |ds| ==> ds[k] != 0)
  {
    if ds == [] || ds[0] != 0 then 0 else 1 + LeadingZeros(ds[1..])
  }

  /** The digits of a numeral's value are the numeral without its leading zeros. */
  lemma DigitsOfVal(base: nat, ds: seq<nat>)
    requires base >= 2 && InBase(base, ds)
    ensures ds == Zeros(LeadingZeros(ds)) + Digits(base, Val(base, ds))
  {
    var k := LeadingZeros(ds);
    assert ds == Zeros(k) + ds[k..];
    PadLeft(base, k, ds[k..]);
    DigitsVal(base, ds[k..]);
  }

  lemma {:induction false} ZerosCounted(k: nat, ds: seq<nat>)
    requires ds == [] || ds[0] != 0
    ensures LeadingZeros(Zeros(k) + ds) == k
  {
    if k > 0 {
      ZerosCounted(k - 1, ds);
      assert (Zeros(k) + ds)[1..] == Zeros(k - 1) + ds;
    } else {
      assert Zeros(0) + ds == ds;
    }
  }

  lemma DigitsOne(base: nat, n: nat)
    requires base >= 2 && n > 0 && n / base == 0 && n % base == n
    ensures Digits(base, n) == [n]
  {
  }

  lemma DigitsTwo(base: nat, n: nat)
    requires base >= 2 && n > 0 && n / base > 0
    ensures Digits(base, n)[0] == Digits(base, n / base)[0]
  {
  }

  lemma {:induction false} DigitsHead(base: nat, n: nat)
    requires base >= 2 && n > 0
    ensures Digits(base, n)[0] != 0
  {
    Recompose(n, base);
    if n < base {
      DivUnique(n, base, 0, n);
      DigitsOne(base, n);
    } else {
      DivPositive(n, base);
      DigitsHead(base, n / base);
      DigitsTwo(base, n);
    }
  }

  lemma DivPositive(n: nat, base: nat)
    requires n > 0 && base >= 2
    ensures 0 <= n / base < n && (n >= base ==> n / base > 0)
  {
  }

  /** Digit-wise truncation: zeroing the tail loses less than the tail's weight. */
  lemma TailZeroed(base: nat, a: seq<nat>, b: seq<nat>)
    requires base >= 2 && InBase(base, b)
    ensures Val(base, a + Zeros(|b|)) <= Val(base, a + b) < Val(base, a + Zeros(|b|)) + Pow(base, |b|)
  {
    ValConcat(base, a, b);
    ValConcat(base, a, Zeros(|b|));
    ValZeros(base, |b|);
    ValBound(base, b);
  }
}
