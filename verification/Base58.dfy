/** Base58 and its checksummed form (src/base58.h). A string is read through c_str(), up to its first NUL. */
module Base58 {
  import opened Octets
  import opened Options
  import opened Positional
  import opened BigNum

  /** Digits and letters without 0, I, O and l. */
  const ALPHABET := "123456789" + "ABCDEFGH" + "JKLMN" + "PQRSTUVWXYZ" + "abcdefghijk" + "mnopqrstuvwxyz"

  /** isspace in the C locale */
  predicate IsSpace(c: char) { c == ' ' || '\t' <= c <= '\r' }

  predicate AllSpace(s: string) { forall i :: 0 <= i < |s| ==> IsSpace(s[i]) }

  /** strchr on the alphabet: the first index of `c`, or 58. */
  function Find(c: char, from: nat): (i: nat)
    requires from <= 58
    ensures from <= i <= 58 && (i < 58 ==> ALPHABET[i] == c) && forall k :: from <= k < i ==> ALPHABET[k] != c
    decreases 58 - from
  {
    if from == 58 || ALPHABET[from] == c then from else Find(c, from + 1)
  }

  predicate InAlphabet(c: char) { Find(c, 0) < 58 }

  predicate Symbols(s: string) { forall i :: 0 <= i < |s| ==> InAlphabet(s[i]) }

  /** The alphabet is six runs of consecutive characters. */
  lemma Runs(i: nat)
    requires i < 58
    ensures ALPHABET[i] as int ==
            i + if i < 9 then 49 else if i < 17 then 56 else if i < 22 then 57
                else if i < 33 then 58 else if i < 44 then 64 else 65
  {
    if i < 9 { assert ALPHABET[i] == "123456789"[i]; }
    else if i < 17 { assert ALPHABET[i] == "ABCDEFGH"[i - 9]; }
    else if i < 22 { assert ALPHABET[i] == "JKLMN"[i - 17]; }
    else if i < 33 { assert ALPHABET[i] == "PQRSTUVWXYZ"[i - 22]; }
    else if i < 44 { assert ALPHABET[i] == "abcdefghijk"[i - 33]; }
    else { assert ALPHABET[i] == "mnopqrstuvwxyz"[i - 44]; }
  }

  /** Every symbol has one digit. */
  lemma FindSymbol(d: nat)
    requires d < 58
    ensures Find(ALPHABET[d], 0) == d
  {
    var i := Find(ALPHABET[d], 0);
    Runs(d);
    Runs(i);
  }

  lemma SymbolNotSpace(c: char)
    requires InAlphabet(c)
    ensures !IsSpace(c)
  {
    Runs(Find(c, 0));
  }

  function SymbolsOf(ds: seq<nat>): (s: string)
    requires InBase(58, ds)
    ensures |s| == |ds|
  {
    seq(|ds|, i requires 0 <= i < |ds| => ALPHABET[ds[i]])
  }

  function DigitsOf(s: string): (ds: seq<nat>)
    ensures |ds| == |s|
  {
    seq(|s|, i requires 0 <= i < |s| => Find(s[i], 0))
  }

  lemma SymbolDigits(ds: seq<nat>)
    requires InBase(58, ds)
    ensures Symbols(SymbolsOf(ds)) && DigitsOf(SymbolsOf(ds)) == ds
  {
    forall i | 0 <= i < |ds| ensures Find(SymbolsOf(ds)[i], 0) == ds[i] { FindSymbol(ds[i]); }
  }

  lemma DigitSymbols(s: string)
    requires Symbols(s)
    ensures InBase(58, DigitsOf(s)) && SymbolsOf(DigitsOf(s)) == s
  {
  }

  // ---- What the two loops compute

  function Encoded58(b: seq<Byte>): string
  {
    SymbolsOf(Zeros(LeadingZeros(b)) + Digits(58, Val(256, b)))
  }

  function TrimLeft(s: string): string {
    if s != [] && IsSpace(s[0]) then TrimLeft(s[1..]) else s
  }

  function TrimRight(s: string): string {
    if s != [] && IsSpace(s[|s| - 1]) then TrimRight(s[..|s| - 1]) else s
  }

  /** The length of the leading run of symbols. */
  function Run(s: string): (k: nat)
    ensures k <= |s| && Symbols(s[..k]) && (k < |s| ==> !InAlphabet(s[k]))
  {
    if s == [] || !InAlphabet(s[0]) then 0
    else
      var k := 1 + Run(s[1..]);
      assert forall i :: 1 <= i < k ==> s[i] == s[1..][..k - 1][i - 1];
      k
  }

  function Bytes(s: string): seq<Byte>
    requires Symbols(s)
  {
    DigitSymbols(s);
    var m: seq<Byte> := Magnitude(Val(58, DigitsOf(s)));
    var z: seq<Byte> := Zeros(LeadingZeros(DigitsOf(s)));
    z + m
  }

  /** Characters without a NUL: white space, symbols, white space. */
  function Chars58(s: string): Option<seq<Byte>> {
    var t := TrimLeft(s);
    if AllSpace(t[Run(t)..]) then Some(Bytes(t[..Run(t)])) else None
  }

  /** c_str(): what comes before the first NUL. */
  function CStr(s: string): string {
    if s == [] || s[0] == '\0' then [] else [s[0]] + CStr(s[1..])
  }

  function Decoded58(s: string): Option<seq<Byte>> { Chars58(CStr(s)) }

  // ---- The bijection

  lemma HeadIsDigit(base: nat, n: nat)
    requires base >= 2
    ensures Digits(base, n) == [] || Digits(base, n)[0] != 0
  {
    if n > 0 { DigitsHead(base, n); }
  }

  /** Encoding and then reading the symbols. */
  lemma BytesOfEncoded(b: seq<Byte>)
    ensures Symbols(Encoded58(b)) && Bytes(Encoded58(b)) == b
  {
    var n, k := Val(256, b), LeadingZeros(b);
    var ds := Zeros(k) + Digits(58, n);
    SymbolDigits(ds);
    ValDigits(58, n);
    PadLeft(58, k, Digits(58, n));
    HeadIsDigit(58, n);
    ZerosCounted(k, Digits(58, n));
    DigitsOfVal(256, b);
  }

  /** Reading symbols and encoding them again. */
  lemma EncodedOfBytes(s: string)
    requires Symbols(s)
    ensures Encoded58(Bytes(s)) == s
  {
    DigitSymbols(s);
    var ds := DigitsOf(s);
    var n, k := Val(58, ds), LeadingZeros(ds);
    ValDigits(256, n);
    PadLeft(256, k, Digits(256, n));
    HeadIsDigit(256, n);
    ZerosCounted(k, Digits(256, n));
    DigitsOfVal(58, ds);
  }

  /** The encoding of a byte string is the one string of symbols that stands for the same number, most significant first,
      and begins with as many ones as the bytes begin with zeros. */
  lemma EncodedExactly(b: seq<Byte>, s: string)
    ensures s == Encoded58(b) <==>
            Symbols(s) && Val(58, DigitsOf(s)) == Val(256, b) && LeadingZeros(DigitsOf(s)) == LeadingZeros(b)
  {
    var n, k := Val(256, b), LeadingZeros(b);
    var ds := Zeros(k) + Digits(58, n);
    SymbolDigits(ds);
    ValDigits(58, n);
    PadLeft(58, k, Digits(58, n));
    HeadIsDigit(58, n);
    ZerosCounted(k, Digits(58, n));
    if Symbols(s) && Val(58, DigitsOf(s)) == n && LeadingZeros(DigitsOf(s)) == k {
      DigitSymbols(s);
      DigitsOfVal(58, DigitsOf(s));
    }
  }

  lemma {:induction false} TrimLeftSplit(s: string)
    ensures |TrimLeft(s)| <= |s| && s == s[..|s| - |TrimLeft(s)|] + TrimLeft(s)
    ensures AllSpace(s[..|s| - |TrimLeft(s)|])
    ensures TrimLeft(s) == [] || !IsSpace(TrimLeft(s)[0])
    decreases |s|
  {
    if s != [] && IsSpace(s[0]) {
      TrimLeftSplit(s[1..]);
      var k := |s| - |TrimLeft(s)|;
      assert s[..k] == [s[0]] + s[1..][..k - 1];
    }
  }

  lemma {:induction false} TrimLeftSpace(w: string, s: string)
    requires AllSpace(w)
    ensures TrimLeft(w + s) == TrimLeft(s)
    decreases |w|
  {
    if w == [] {
      assert w + s == s;
    } else {
      assert (w + s)[1..] == w[1..] + s;
      TrimLeftSpace(w[1..], s);
    }
  }

  lemma {:induction false} TrimRightSpace(s: string, w: string)
    requires AllSpace(w) && (s == [] || !IsSpace(s[|s| - 1]))
    ensures TrimRight(s + w) == s
    decreases |w|
  {
    if w == [] {
      assert s + w == s;
    } else {
      assert (s + w)[..|s + w| - 1] == s + w[..|w| - 1];
      TrimRightSpace(s, w[..|w| - 1]);
    }
  }

  lemma {:induction false} TrimRightSplit(s: string)
    ensures |TrimRight(s)| <= |s| && s == TrimRight(s) + s[|TrimRight(s)|..] && AllSpace(s[|TrimRight(s)|..])
    decreases |s|
  {
    if s != [] && IsSpace(s[|s| - 1]) {
      var t := s[..|s| - 1];
      TrimRightSplit(t);
      assert s[|TrimRight(s)|..] == t[|TrimRight(t)|..] + [s[|s| - 1]];
    }
  }

  lemma RunUnique(s: string, k: nat)
    requires k <= |s| && Symbols(s[..k]) && (k < |s| ==> !InAlphabet(s[k]))
    ensures Run(s) == k
  {
    SameAtPrefix(s, k, Run(s));
    SameAtPrefix(s, Run(s), k);
  }

  lemma SameAtPrefix(s: string, i: nat, k: nat)
    requires k <= |s| && Symbols(s[..k])
    ensures i < k ==> InAlphabet(s[i])
  {
    if i < k { assert s[i] == s[..k][i]; }
  }

  /** A string up to its first NUL, without the white space around it. */
  function Trim(s: string): string { TrimRight(TrimLeft(CStr(s))) }

  lemma {:induction false} CStrConcat(a: string, b: string)
    ensures CStr(a + b) == if CStr(a) == a then a + CStr(b) else CStr(a)
    decreases |a|
  {
    if a == [] {
      assert a + b == b;
    } else {
      assert (a + b)[1..] == a[1..] + b;
      CStrConcat(a[1..], b);
      if a[0] != '\0' {
        assert a == [a[0]] + a[1..] && CStr(a)[1..] == CStr(a[1..]);
      }
    }
  }

  lemma {:induction false} CStrWhole(s: string)
    requires forall i :: 0 <= i < |s| ==> s[i] != '\0'
    ensures CStr(s) == s
    decreases |s|
  {
    if s != [] { CStrWhole(s[1..]); }
  }

  lemma NoNul(s: string)
    requires Symbols(s) || AllSpace(s)
    ensures CStr(s) == s
  {
    forall i | 0 <= i < |s| ensures s[i] != '\0' {
      if InAlphabet(s[i]) { Runs(Find(s[i], 0)); }
    }
    CStrWhole(s);
  }

  /** Nothing behind a NUL is read. */
  lemma NulEnds(s: string, t: string)
    ensures Decoded58(s + "\0" + t) == Decoded58(s)
  {
    assert s + "\0" + t == s + ("\0" + t);
    CStrConcat(s, "\0" + t);
    assert CStr("\0" + t) == [] && s + [] == s;
  }

  /** Symbols followed by white space. */
  lemma RunThenSpace(t: string)
    ensures AllSpace(t[Run(t)..]) ==> TrimRight(t) == t[..Run(t)]
    ensures Symbols(TrimRight(t)) ==> AllSpace(t[Run(t)..])
  {
    hide TrimRight, Run, InAlphabet, IsSpace;
    var k := Run(t);
    if AllSpace(t[k..]) {
      assert t == t[..k] + t[k..];
      LastSymbol(t[..k]);
      TrimRightSpace(t[..k], t[k..]);
    }
    if Symbols(TrimRight(t)) {
      var j := |TrimRight(t)|;
      TrimRightSplit(t);
      assert t[..j] == TrimRight(t);
      FirstSpace(t[j..]);
      assert j < |t| ==> t[j] == t[j..][0];
      RunUnique(t, j);
    }
  }

  lemma LastSymbol(s: string)
    requires Symbols(s)
    ensures s == [] || !IsSpace(s[|s| - 1])
  {
    if s != [] { SymbolNotSpace(s[|s| - 1]); }
  }

  lemma FirstSpace(s: string)
    requires AllSpace(s)
    ensures s == [] || !InAlphabet(s[0])
  {
    if s != [] && InAlphabet(s[0]) { SymbolNotSpace(s[0]); }
  }

  /** A string decodes to `b` exactly if, apart from white space around it, it is the encoding of `b`. */
  lemma DecodesTo(s: string, b: seq<Byte>)
    ensures Decoded58(s) == Some(b) <==> Trim(s) == Encoded58(b)
  {
    var t := TrimLeft(CStr(s));
    RunThenSpace(t);
    BytesOfEncoded(b);
    if Decoded58(s) == Some(b) {
      EncodedOfBytes(t[..Run(t)]);
    }
  }

  /** A string decodes at all exactly if nothing but symbols is left between the white space. */
  lemma Decodes(s: string)
    ensures Decoded58(s).Some? <==> Symbols(Trim(s))
  {
    RunThenSpace(TrimLeft(CStr(s)));
  }

  lemma TrimSymbols(s: string)
    requires Symbols(s)
    ensures Trim(s) == s
  {
    NoNul(s);
    if s != [] {
      SymbolNotSpace(s[0]);
      SymbolNotSpace(s[|s| - 1]);
    }
  }

  /** Every byte string comes back, leading zeros included. */
  lemma EncodeDecode(b: seq<Byte>)
    ensures Decoded58(Encoded58(b)) == Some(b)
  {
    BytesOfEncoded(b);
    TrimSymbols(Encoded58(b));
    DecodesTo(Encoded58(b), b);
  }

  /** Every string of symbols comes back. */
  lemma DecodeEncode(s: string)
    requires Symbols(s)
    ensures Decoded58(s).Some? && Encoded58(Decoded58(s).value) == s
  {
    TrimSymbols(s);
    Decodes(s);
    DecodesTo(s, Decoded58(s).value);
  }

  lemma AllSpaceSplit(a: string, b: string)
    ensures AllSpace(a + b) <==> AllSpace(a) && AllSpace(b)
  {
    forall i | 0 <= i < |a| ensures a[i] == (a + b)[i] {}
    forall i | 0 <= i < |b| ensures b[i] == (a + b)[|a| + i] {}
  }

  lemma TrimAllSpace(w: string)
    requires AllSpace(w)
    ensures TrimLeft(w) == []
  {
    TrimLeftSpace(w, []);
    assert w + [] == w;
  }

  lemma TrimLeftDone(s: string)
    ensures s == [] || !IsSpace(s[0]) ==> TrimLeft(s) == s
  {
  }

  lemma SpaceBefore(v: string, s: string)
    requires AllSpace(v)
    ensures Chars58(v + s) == Chars58(s)
  {
    TrimLeftSpace(v, s);
  }

  lemma RunWithSpace(t: string, w: string)
    requires AllSpace(w)
    ensures Run(t + w) == Run(t) && (t + w)[..Run(t)] == t[..Run(t)] && (t + w)[Run(t)..] == t[Run(t)..] + w
  {
    hide Run, InAlphabet, IsSpace;
    var k := Run(t);
    assert (t + w)[..k] == t[..k] && (t + w)[k..] == t[k..] + w;
    FirstSpace(w);
    RunUnique(t + w, k);
  }

  lemma SpaceAfter(s: string, w: string)
    requires AllSpace(w)
    ensures Chars58(s + w) == Chars58(s)
  {
    var t := TrimLeft(s);
    TrimLeftSplit(s);
    var lead := s[..|s| - |t|];
    assert s + w == lead + (t + w);
    SpaceBefore(lead, t + w);
    TrimLeftDone(t + w);
    hide TrimLeft, Run, IsSpace, Bytes;
    if t == [] {
      assert t + w == w;
      TrimAllSpace(w);
    } else {
      RunWithSpace(t, w);
      AllSpaceSplit(t[Run(t)..], w);
    }
  }

  /** White space around a string, decodable or not, makes no difference. */
  lemma SpaceAround(v: string, s: string, w: string)
    requires AllSpace(v) && AllSpace(w)
    ensures Decoded58(v + s + w) == Decoded58(s)
  {
    hide Chars58, CStr;
    assert v + s + w == v + (s + w);
    NoNul(v);
    NoNul(w);
    CStrConcat(v, s + w);
    CStrConcat(s, w);
    SpaceBefore(v, CStr(s + w));
    SpaceAfter(CStr(s), w);
  }

  // ---- The loops

  /** The division loop: the symbols of a number, last digit first. */
  method WriteDigits(n: nat) returns (str: string)
    ensures Symbols(str) && Digits(58, n) == Reverse(DigitsOf(str))
  {
    var bn := n;
    str := "";
    assert Digits(58, n) == Digits(58, n) + Reverse(DigitsOf(""));
    while bn > 0
      invariant Symbols(str)
      invariant Digits(58, n) == Digits(58, bn) + Reverse(DigitsOf(str))
    {
      var c := bn % 58;
      DivPositive(bn, 58);
      FindSymbol(c);
      PushDigit(str, c);
      assert Digits(58, bn) == Digits(58, bn / 58) + [c];
      ghost var rest := Reverse(DigitsOf(str));
      assert Digits(58, bn / 58) + [c] + rest == Digits(58, bn / 58) + ([c] + rest);
      str := str + [ALPHABET[c]];
      bn := bn / 58;
    }
  }

  lemma PushDigit(str: string, c: nat)
    requires c < 58
    ensures Reverse(DigitsOf(str + [ALPHABET[c]])) == [c] + Reverse(DigitsOf(str))
  {
    FindSymbol(c);
  }

  /** The number that setvch reads from the bytes and a zero byte as their sign: all of it below the limit on a body,
      none of it or only its front beyond. */
  function NumberRead(b: seq<Byte>): nat {
    var k := Taken(|b| + 1);
    if k <= 0 then 0 else Val(256, b[..k - 1])
  }

  lemma AllRead(b: seq<Byte>)
    requires |b| + 1 < BODY_LIMIT
    ensures NumberRead(b) == Val(256, b)
  {
    TakenWhole(|b| + 1);
    assert b[..|b|] == b;
  }

  lemma SignedValue(b: seq<Byte>)
    ensures Value(Zeros(1) + b) == Val(256, b)
  {
    PadLeft(256, 1, b);
    hide Val;
  }

  method ReadBytes(b: seq<Byte>) returns (bn: nat)
    ensures bn == NumberRead(b)
  {
    hide Val, Value, Taken;
    var number := new Bignum();
    var tmp := Reverse(b) + [0];
    assert Reverse(tmp) == Zeros(1) + b;
    number.SetVch(tmp);
    var k := Taken(|b| + 1);
    if k > 0 {
      assert (Zeros(1) + b)[..k] == Zeros(1) + b[..k - 1];
      SignedValue(b[..k - 1]);
    } else {
      EmptyValue();
    }
    bn := Abs(number.bn);
  }

  lemma EmptyValue()
    ensures Value([]) == 0
  {
  }

  /** EncodeBase58 */
  method EncodeBase58(b: seq<Byte>) returns (str: string)
    ensures str == SymbolsOf(Zeros(LeadingZeros(b)) + Digits(58, NumberRead(b)))
    ensures |b| + 1 < BODY_LIMIT ==> str == Encoded58(b)
  {
    if |b| + 1 < BODY_LIMIT { AllRead(b); }
    hide NumberRead, Val, Digits, Reverse, DigitsOf, SymbolsOf, LeadingZeros;
    var bn := ReadBytes(b);
    str := WriteDigits(bn);
    var p := 0;
    ghost var digits := str;
    while p < |b| && b[p] == 0
      invariant p <= |b| && forall i :: 0 <= i < p ==> b[i] == 0
      invariant str == digits + seq(p, _ => ALPHABET[0])
    {
      str := str + [ALPHABET[0]];
      p := p + 1;
    }
    LeadingUnique(b, p);
    str := Reverse(str);
    AssembleSymbols(digits, p, bn, str);
  }

  lemma AssembleSymbols(digits: string, p: nat, n: nat, str: string)
    requires Symbols(digits) && Digits(58, n) == Reverse(DigitsOf(digits))
    requires str == Reverse(digits + seq(p, _ => ALPHABET[0]))
    ensures str == SymbolsOf(Zeros(p) + Digits(58, n))
  {
    var ds := Zeros(p) + Digits(58, n);
    forall i | 0 <= i < |str| ensures str[i] == SymbolsOf(ds)[i] {
      if i >= p { assert ds[i] == Find(digits[|digits| - 1 - (i - p)], 0); }
    }
  }

  /** while (isspace(*p)) p++ */
  method SkipSpace(s: string, from: nat) returns (p: nat)
    requires from <= |s|
    ensures from <= p <= |s| && AllSpace(s[from..p]) && (p < |s| ==> !IsSpace(s[p]))
  {
    p := from;
    while p < |s| && IsSpace(s[p])
      invariant from <= p <= |s| && AllSpace(s[from..p])
    {
      assert s[from..p + 1] == s[from..p] + [s[p]];
      p := p + 1;
    }
  }

  /** The digit loop, up to the first character that is no symbol. */
  method ReadDigits(s: string, from: nat) returns (p: nat, bn: nat)
    requires from <= |s|
    ensures from <= p <= |s| && p == from + Run(s[from..])
    ensures bn == Val(58, DigitsOf(s[from..p]))
  {
    hide Val, Find;
    bn, p := 0, from;
    ValNothing(s[from..from]);
    while p < |s|
      invariant from <= p <= |s| && Symbols(s[from..p]) && bn == Val(58, DigitsOf(s[from..p]))
    {
      var p1 := Find(s[p], 0);
      if p1 == 58 {
        break;
      }
      ReadOne(s, from, p);
      bn := bn * 58 + p1;
      p := p + 1;
    }
    assert s[from..][..p - from] == s[from..p];
    RunUnique(s[from..], p - from);
  }

  lemma ValNothing(s: string)
    requires s == []
    ensures Val(58, DigitsOf(s)) == 0
  {
  }

  lemma ReadOne(s: string, from: nat, p: nat)
    requires from <= p < |s| && Symbols(s[from..p]) && InAlphabet(s[p])
    ensures Symbols(s[from..p + 1])
    ensures Val(58, DigitsOf(s[from..p + 1])) == Val(58, DigitsOf(s[from..p])) * 58 + Find(s[p], 0)
  {
    hide Find;
    assert s[from..p + 1] == s[from..p] + [s[p]];
    assert DigitsOf(s[from..p + 1]) == DigitsOf(s[from..p]) + [Find(s[p], 0)];
    ValSnoc(58, DigitsOf(s[from..p]), Find(s[p], 0));
  }

  lemma SkippedIsTrimmed(s: string, p: nat)
    requires p <= |s| && AllSpace(s[..p]) && (p < |s| ==> !IsSpace(s[p]))
    ensures TrimLeft(s) == s[p..]
  {
    assert s == s[..p] + s[p..];
    TrimLeftSpace(s[..p], s[p..]);
  }

  /** DecodeBase58; the byte vector is left empty when it fails. */
  method DecodeBase58(str: string) returns (ok: bool, ret: seq<Byte>)
    ensures ok <==> Decoded58(str).Some?
    ensures ret == if ok then Decoded58(str).value else []
  {
    var s := CStr(str);
    hide CStr, TrimLeft, Run, InAlphabet, IsSpace, DigitsOf, Val, LeadingZeros, Digits;
    ret := [];
    var psz := SkipSpace(s, 0);
    assert s[0..psz] == s[..psz];
    SkippedIsTrimmed(s, psz);
    var p, bn := ReadDigits(s, psz);
    var q := SkipSpace(s, p);
    ghost var t := s[psz..];
    assert t[Run(t)..] == s[p..];
    if q < |s| {
      assert s[p..][q - p] == s[q];
      return false, [];
    }
    assert s[p..q] == s[p..];
    var tmp := TrimSign(bn);
    var zeros := CountOnes(t, psz, s);
    OnesAreZeros(t, Run(t), zeros);
    assert t[..Run(t)] == s[psz..p];
    ok := true;
    ret := seq(zeros, _ => 0) + Reverse(tmp);
    assert seq(zeros, _ => 0) == Zeros(zeros);
  }

  /** getvch with the sign byte trimmed off. */
  method TrimSign(bn: nat) returns (tmp: seq<Byte>)
    ensures Reverse(tmp) == Magnitude(bn)
  {
    var number := new Bignum();
    number.bn := bn;
    tmp := number.GetVch();
    TrimmedVch(bn);
    if |tmp| >= 2 && tmp[|tmp| - 1] == 0 && tmp[|tmp| - 2] >= 0x80 {
      tmp := tmp[..|tmp| - 1];
    }
  }

  /** The sign-byte trim: what is left, reversed, is exactly the magnitude. */
  lemma TrimmedVch(n: nat)
    ensures var v := Reverse(Body(n));
            var trim := |v| >= 2 && v[|v| - 1] == 0 && v[|v| - 2] >= 0x80;
            Reverse(if trim then v[..|v| - 1] else v) == Magnitude(n)
  {
    if n > 0 {
      DigitsHead(256, n);
      var m := Magnitude(n);
      assert Body(n) == Signed(m, false);
      hide Digits, Body, Magnitude;
      TrimmedReverse(m);
    }
  }

  lemma TrimmedReverse(m: seq<Byte>)
    requires m != [] && m[0] != 0
    ensures var v := Reverse(Signed(m, false));
            var trim := |v| >= 2 && v[|v| - 1] == 0 && v[|v| - 2] >= 0x80;
            Reverse(if trim then v[..|v| - 1] else v) == m
  {
    if m[0] >= 0x80 {
      assert Signed(m, false) == [0] + m;
    }
  }

  /** The loop over leading '1' characters. */
  method CountOnes(ghost t: string, psz: nat, s: string) returns (zeros: nat)
    requires psz <= |s| && t == s[psz..]
    ensures zeros <= |t| && (forall i :: 0 <= i < zeros ==> t[i] == ALPHABET[0]) && (zeros < |t| ==> t[zeros] != ALPHABET[0])
  {
    zeros := 0;
    var p := psz;
    while p < |s| && s[p] == ALPHABET[0]
      invariant p == psz + zeros && zeros <= |t| && forall i :: 0 <= i < zeros ==> t[i] == ALPHABET[0]
    {
      p, zeros := p + 1, zeros + 1;
    }
  }

  lemma OnesAreZeros(t: string, k: nat, zeros: nat)
    requires k == Run(t) && zeros <= |t|
    requires (forall i :: 0 <= i < zeros ==> t[i] == ALPHABET[0]) && (zeros < |t| ==> t[zeros] != ALPHABET[0])
    ensures LeadingZeros(DigitsOf(t[..k])) == zeros
  {
    hide DigitsOf, LeadingZeros, Find, Run;
    FindSymbol(0);
    RunAtLeast(t, zeros);
    FrontZeros(t, k, zeros);
  }

  lemma FrontZeros(t: string, k: nat, zeros: nat)
    requires zeros <= k <= |t| && Symbols(t[..k])
    requires (forall i :: 0 <= i < zeros ==> t[i] == ALPHABET[0]) && (zeros < k ==> t[zeros] != ALPHABET[0])
    ensures LeadingZeros(DigitsOf(t[..k])) == zeros
  {
    hide DigitsOf, LeadingZeros, Symbols;
    ZeroDigits(t[..k], zeros);
  }

  lemma RunAtLeast(t: string, n: nat)
    requires n <= |t| && forall i :: 0 <= i < n ==> InAlphabet(t[i])
    ensures n <= Run(t)
  {
  }

  lemma ZeroDigits(s: string, zeros: nat)
    requires Symbols(s) && zeros <= |s|
    requires (forall i :: 0 <= i < zeros ==> s[i] == ALPHABET[0]) && (zeros < |s| ==> s[zeros] != ALPHABET[0])
    ensures LeadingZeros(DigitsOf(s)) == zeros
  {
    FindSymbol(0);
    LeadingUnique(DigitsOf(s), zeros);
  }

  lemma LeadingUnique(ds: seq<nat>, k: nat)
    requires k <= |ds| && (forall i :: 0 <= i < k ==> ds[i] == 0) && (k < |ds| ==> ds[k] != 0)
    ensures LeadingZeros(ds) == k
  {
  }

  // ---- Checksums

  /** The first four bytes of a hash in memory. */
  function FirstFour(x: nat): seq<Byte> { [x % 256, x / 256 % 256, x / 0x1_0000 % 256, x / 0x100_0000 % 256] }

  type Hash = seq<Byte> -> nat

  function WithCheck(h: Hash, v: seq<Byte>): seq<Byte> { v + FirstFour(h(v)) }

  function EncodedCheck(h: Hash, v: seq<Byte>): string { Encoded58(WithCheck(h, v)) }

  function DecodedCheck(h: Hash, s: string): Option<seq<Byte>> {
    match Decoded58(s)
    case None => None
    case Some(v) =>
      if |v| < 4 || FirstFour(h(v[..|v| - 4])) != v[|v| - 4..] then None else Some(v[..|v| - 4])
  }

  /** A string passes with `v` exactly if, apart from white space around it, it is the checked encoding of `v`. */
  lemma ChecksTo(h: Hash, s: string, v: seq<Byte>)
    ensures DecodedCheck(h, s) == Some(v) <==> Trim(s) == EncodedCheck(h, v)
  {
    var c := WithCheck(h, v);
    DecodesTo(s, c);
    assert c[..|c| - 4] == v && c[|c| - 4..] == FirstFour(h(v));
    if DecodedCheck(h, s) == Some(v) {
      assert Decoded58(s).value == c;
    }
  }

  method EncodeBase58Check(h: Hash, v: seq<Byte>) returns (str: string)
    ensures |v| + 5 < BODY_LIMIT ==> str == EncodedCheck(h, v)
  {
    str := EncodeBase58(v + FirstFour(h(v)));
  }

  method DecodeBase58Check(h: Hash, s: string) returns (ok: bool, ret: seq<Byte>)
    ensures ok <==> DecodedCheck(h, s).Some?
    ensures ret == if ok then DecodedCheck(h, s).value else []
  {
    ok, ret := DecodeBase58(s);
    if !ok { return; }
    if |ret| < 4 { return false, []; }
    if FirstFour(h(ret[..|ret| - 4])) != ret[|ret| - 4..] { return false, []; }
    ret := ret[..|ret| - 4];
  }

  /** What SetString makes of a string: version and data; none when nothing is left after the checksum. */
  function Parsed(h: Hash, s: string): Option<(Byte, seq<Byte>)> {
    match DecodedCheck(h, s)
    case None => None
    case Some(v) => if v == [] then None else Some((v[0], v[1..]))
  }

  /** SetString reads version and data exactly from the string that ToString writes for them, white space aside. */
  lemma ParsesTo(h: Hash, s: string, version: Byte, data: seq<Byte>)
    ensures Parsed(h, s) == Some((version, data)) <==> Trim(s) == EncodedCheck(h, [version] + data)
  {
    ChecksTo(h, s, [version] + data);
    if Parsed(h, s) == Some((version, data)) {
      assert DecodedCheck(h, s).value == [version] + data;
    }
  }

  /** CBase58Data */
  class Base58Data {
    const hash: Hash
    var version: Byte
    var data: seq<Byte>

    constructor (h: Hash)
      ensures hash == h && version == 0 && data == []
    {
      hash, version, data := h, 0, [];
    }

    method SetString(s: string) returns (ok: bool)
      modifies this
      ensures ok <==> Parsed(hash, s).Some?
      ensures (version, data) == if ok then Parsed(hash, s).value else (0, [])
    {
      var good, tmp := DecodeBase58Check(hash, s);
      if tmp == [] {
        version, data := 0, [];
        return false;
      }
      version, data := tmp[0], tmp[1..];
      ok := true;
    }

    method ToString() returns (s: string)
      ensures |data| + 6 < BODY_LIMIT ==> s == EncodedCheck(hash, [version] + data)
    {
      s := EncodeBase58Check(hash, [version] + data);
    }

    /** SetString after ToString, with white space around the string, restores version and data. */
    method RoundTrip(v: string, w: string, other: Base58Data) returns (ok: bool)
      requires AllSpace(v) && AllSpace(w) && |data| + 6 < BODY_LIMIT && other.hash == hash
      modifies other
      ensures ok && (other.version, other.data) == old((version, data))
    {
      var s := ToString();
      SpaceAround(v, s, w);
      BytesOfEncoded(WithCheck(hash, [version] + data));
      TrimSymbols(s);
      ParsesTo(hash, s, version, data);
      ok := other.SetString(v + s + w);
    }
  }
}
