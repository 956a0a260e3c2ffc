/** LockedPageManagerBase (src/allocators.h): lock counts per memory page. */
module PageLocks {
  import opened Arithmetic

  function Exp2(n: nat): (r: nat)
    ensures r > 0
  {
    if n == 0 then 1 else 2 * Exp2(n - 1)
  }

  /** Bitwise and, on `n` bits. */
  function And(a: nat, b: nat, n: nat): nat {
    if n == 0 then 0 else 2 * And(a / 2, b / 2, n - 1) + if a % 2 == 1 && b % 2 == 1 then 1 else 0
  }

  lemma {:induction false} AndSelf(a: nat, n: nat)
    requires a < Exp2(n)
    ensures And(a, a, n) == a
  {
    if n > 0 { AndSelf(a / 2, n - 1); }
  }

  /** The constructor's test: of the positive numbers it passes only powers of two. */
  lemma {:induction false} PowerOfTwo(p: nat, n: nat) returns (k: nat)
    requires 0 < p < Exp2(n) && And(p, p - 1, n) == 0
    ensures k < n && p == Exp2(k)
  {
    if p % 2 == 1 {
      assert (p - 1) / 2 == p / 2;
      AndSelf(p / 2, n - 1);
      k := 0;
    } else {
      assert (p - 1) / 2 == p / 2 - 1;
      k := PowerOfTwo(p / 2, n - 1);
      k := k + 1;
    }
  }

  lemma {:induction false} AllOnes(x: nat, n: nat)
    requires x < Exp2(n)
    ensures And(x, Exp2(n) - 1, n) == x
  {
    if n > 0 {
      assert (Exp2(n) - 1) / 2 == Exp2(n - 1) - 1;
      AllOnes(x / 2, n - 1);
    }
  }

  lemma HalfMod(x: nat, p: nat)
    requires p > 0
    ensures x % (2 * p) == 2 * (x / 2 % p) + x % 2
  {
    var q, r := x / 2 / p, x / 2 % p;
    assert x / 2 == q * p + r;
    assert x == q * (2 * p) + (2 * r + x % 2) by { assert q * (2 * p) == 2 * (q * p); }
    DivUnique(x, 2 * p, q, 2 * r + x % 2);
  }

  /** Masking with the complement of size - 1 rounds down to a page. */
  lemma {:induction false} MaskRounds(x: nat, k: nat, n: nat)
    requires x < Exp2(n) && k <= n
    ensures Exp2(k) <= Exp2(n)
    ensures And(x, Exp2(n) - Exp2(k), n) == x - x % Exp2(k)
  {
    if k == 0 {
      AllOnes(x, n);
    } else {
      MaskRounds(x / 2, k - 1, n - 1);
      HalfMod(x, Exp2(k - 1));
      assert (Exp2(n) - Exp2(k)) / 2 == Exp2(n - 1) - Exp2(k - 1);
    }
  }

  // ---- Ranges and pages

  datatype Page = Page(base: nat)

  datatype Range = Range(base: nat, size: nat)

  /** The range and the page have a byte in common. */
  predicate Touches(r: Range, p: Page, size: nat)
    requires size > 0
  {
    r.size > 0 && p.base % size == 0 && p.base < r.base + r.size && r.base < p.base + size
  }

  /** How many of the ranges touch the page. */
  function Count(live: seq<Range>, p: Page, size: nat): nat
    requires size > 0
  {
    if live == [] then 0 else Count(live[..|live| - 1], p, size) + if Touches(live[|live| - 1], p, size) then 1 else 0
  }

  lemma {:induction false} CountWithout(live: seq<Range>, i: nat, p: Page, size: nat)
    requires i < |live| && size > 0
    ensures Count(live, p, size) == Count(live[..i] + live[i + 1..], p, size) + if Touches(live[i], p, size) then 1 else 0
  {
    var rest := live[..i] + live[i + 1..];
    if i == |live| - 1 {
      assert rest == live[..i];
    } else {
      var n := |live| - 1;
      assert rest[..n - 1] == live[..n][..i] + live[..n][i + 1..];
      assert rest[n - 1] == live[n];
      CountWithout(live[..n], i, p, size);
    }
  }

  /** A page between the first and the last of a range is one the range touches, and there are no others. */
  lemma TouchedPages(r: Range, p: Page, size: nat)
    requires size > 0 && r.size > 0 && p.base % size == 0
    ensures var last := r.base + r.size - 1;
            Touches(r, p, size) <==> r.base - r.base % size <= p.base <= last - last % size
  {
    var last := r.base + r.size - 1;
    Aligned(r.base, p.base, size);
    Aligned(last, p.base, size);
  }

  lemma Aligned(x: nat, b: nat, size: nat)
    requires size > 0 && b % size == 0
    ensures x - x % size <= b <==> x < b + size
    ensures b <= x <==> b <= x - x % size
  {
    Whole(x, size);
    Whole(b, size);
    AlignedAt(x / size, b / size, x % size, size);
  }

  lemma Whole(x: nat, size: nat)
    requires size > 0
    ensures x == x / size * size + x % size && x % size < size
  {
  }

  lemma AlignedAt(i: nat, j: nat, m: nat, size: nat)
    requires size > 0 && m < size
    ensures i * size <= j * size <==> i * size + m < j * size + size
    ensures j * size <= i * size + m <==> j * size <= i * size
  {
    Order(i, j, size);
    Order(j, i, size);
  }

  lemma RoundedDown(x: nat, size: nat)
    requires size > 0
    ensures x - x % size >= 0 && (x - x % size) % size == 0
  {
    Whole(x, size);
    DivUnique(x / size * size, size, x / size, 0);
  }

  lemma Order(i: nat, j: nat, size: nat)
    requires size > 0
    ensures i <= j <==> i * size <= j * size
    ensures i < j <==> i * size + size <= j * size
  {
    var d := j - i;
    assert d * size == j * size - i * size;
    Times(d, size);
  }

  // ---- Where the walk ends

  /** The page counter after `n` steps, in a word of `word` values. */
  function PageAfter(start: nat, n: nat, size: nat, word: nat): nat
    requires word > 0
  {
    if n == 0 then start else (PageAfter(start, n - 1, size, word) + size) % word
  }

  lemma {:induction false} PageAfterIs(a: nat, n: nat, m: nat, size: nat)
    requires size > 0 && a < m
    ensures m * size > 0 && PageAfter(a * size, n, size, m * size) == (a + n) % m * size
  {
    Times(m, size);
    if n == 0 {
      DivUnique(a, m, 0, a);
    } else {
      PageAfterIs(a, n - 1, m, size);
      NextWraps(a + n - 1, m, size);
    }
  }

  lemma NextWraps(x: nat, m: nat, size: nat)
    requires size > 0 && m > 0
    ensures m * size > 0 && (x % m * size + size) % (m * size) == (x + 1) % m * size
  {
    Times(m, size);
    Recompose(x, m);
    NextScaled(x % m, m, size);
    var q, r := x / m, x % m;
    if r + 1 < m {
      DivUnique(x + 1, m, q, r + 1);
    } else {
      Difference(q, -1, m);
      DivUnique(x + 1, m, q + 1, 0);
    }
  }

  lemma NextScaled(r: nat, m: nat, size: nat)
    requires size > 0 && r < m && m * size > 0
    ensures (r * size + size) % (m * size) == if r + 1 < m then (r + 1) * size else 0
  {
    Difference(r, -1, size);
    if r + 1 < m {
      Order(r + 1, m, size);
      DivUnique((r + 1) * size, m * size, 0, (r + 1) * size);
    } else {
      DivUnique(m * size, m * size, 1, 0);
    }
  }

  /** The walk from page `a` passes its last page `e` exactly if that is not the top one of the `m` pages: from the top
      page the counter wraps around to zero and the walk never ends. */
  lemma WalkEndsExactly(a: nat, e: nat, m: nat, size: nat)
    requires size > 0 && a < m && e < m
    ensures m * size > 0
    ensures (exists n: nat :: PageAfter(a * size, n, size, m * size) > e * size) <==> e < m - 1
  {
    Times(m, size);
    if e < m - 1 {
      PageAfterIs(a, m - 1 - a, m, size);
      DivUnique(m - 1, m, 0, m - 1);
      Order(e, m - 1, size);
      assert PageAfter(a * size, m - 1 - a, size, m * size) > e * size;
    } else {
      forall n: nat ensures PageAfter(a * size, n, size, m * size) <= e * size {
        PageAfterIs(a, n, m, size);
        Recompose(a + n, m);
        Order((a + n) % m, e, size);
      }
    }
  }

  /** A range of the address space. */
  predicate InSpace(r: Range) { r.base < Exp2(64) && r.base + r.size <= Exp2(64) }

  /** An empty range, or one that ends below the top page. */
  predicate Fits(r: Range, size: nat) { InSpace(r) && (r.size > 0 ==> r.base + r.size <= Exp2(64) - size) }

  /** Walking up from the page `start`, the code never gets past the page `end`. */
  ghost predicate WalksForever(start: nat, end: nat, size: nat, word: nat)
    requires word > 0
  {
    forall n: nat :: PageAfter(start, n, size, word) <= end
  }

  function FirstPage(r: Range, size: nat): nat
    requires size > 0
  {
    Recompose(r.base, size);
    r.base - r.base % size
  }

  function LastPage(r: Range, size: nat): nat
    requires size > 0 && r.size > 0
  {
    Recompose(r.base + r.size - 1, size);
    (r.base + r.size - 1) - (r.base + r.size - 1) % size
  }

  lemma {:induction false} ExpSum(k: nat, n: nat)
    ensures Exp2(k + n) == Exp2(k) * Exp2(n)
  {
    if k > 0 {
      ExpSum(k - 1, n);
      assert Exp2(k) == 2 * Exp2(k - 1) && Exp2(k + n) == 2 * Exp2(k - 1 + n);
      Twice(Exp2(k - 1), Exp2(n));
    }
  }

  lemma Twice(a: nat, b: nat)
    ensures 2 * (a * b) == (2 * a) * b
  {
  }

  /** A range that does not fit is walked forever. */
  lemma TooHigh(r: Range, size: nat)
    requires 0 < size < Exp2(64) && And(size, size - 1, 64) == 0 && InSpace(r) && !Fits(r, size)
    ensures r.size > 0 && WalksForever(FirstPage(r, size), LastPage(r, size), size, Exp2(64))
  {
    hide And, Exp2, WalksForever, FirstPage, LastPage;
    var k := PowerOfTwo(size, 64);
    ExpSum(k, 64 - k);
    var m := Exp2(64 - k);
    Commutes(size, m);
    TopPage(r, m, size);
  }

  lemma Commutes(a: nat, b: nat)
    ensures a * b == b * a
  {
  }

  lemma TopPage(r: Range, m: nat, size: nat)
    requires size > 0 && r.size > 0 && (m - 1) * size < r.base + r.size <= m * size
    ensures m * size > 0 && WalksForever(FirstPage(r, size), LastPage(r, size), size, m * size)
  {
    var last, a := r.base + r.size - 1, r.base / size;
    Difference(m, 1, size);
    DivUnique(last, size, m - 1, last - (m - 1) * size);
    Recompose(r.base, size);
    Below(a, r.base % size, m, size);
    WalkEndsExactly(a, m - 1, m, size);
    assert FirstPage(r, size) == a * size && LastPage(r, size) == (m - 1) * size;
    forall n: nat ensures PageAfter(a * size, n, size, m * size) <= (m - 1) * size {
    }
  }

  lemma Below(a: nat, b: nat, m: nat, size: nat)
    requires size > 0 && a * size + b < m * size
    ensures a < m
  {
    Order(m, a, size);
  }

  // ---- The manager

  class LockedPageManager {
    const pageSize: nat
    const pageMask: nat
    var histogram: map<Page, nat>
    /** The pages the operating system holds locked. */
    var locked: set<Page>
    /** The ranges locked and not yet unlocked. */
    ghost var live: seq<Range>

    /** Every page's count is the number of live ranges touching it, and the locked pages are exactly those. */
    ghost predicate Valid()
      reads this
    {
      && 0 < pageSize < Exp2(64) && And(pageSize, pageSize - 1, 64) == 0 && pageMask == Exp2(64) - pageSize
      && Counts(histogram, live, pageSize) && locked == histogram.Keys
      && forall i :: 0 <= i < |live| ==> Fits(live[i], pageSize)
    }

    constructor (size: nat)
      requires 0 < size < Exp2(64) && And(size, size - 1, 64) == 0
      ensures Valid() && live == [] && pageSize == size
    {
      hide And, Exp2;
      pageSize, pageMask := size, Exp2(64) - size;
      histogram, locked, live := map[], {}, [];
    }

    /** The page an address lies on. */
    method PageOf(addr: nat) returns (page: nat)
      requires Valid() && addr < Exp2(64)
      ensures page == addr - addr % pageSize && page % pageSize == 0
    {
      hide And, Exp2;
      ghost var k := PowerOfTwo(pageSize, 64);
      MaskRounds(addr, k, 64);
      page := And(addr, pageMask, 64);
      RoundedDown(addr, pageSize);
    }

    /** LockRange; `ended` tells whether the code's loop ever does, and nothing is said of the counts when it does not. */
    method LockRange(r: Range) returns (ended: bool)
      requires Valid() && InSpace(r)
      modifies this
      ensures ended <==> Fits(r, pageSize)
      ensures ended ==> Valid() && live == old(live) + [r]
      ensures !ended ==> r.size > 0 && WalksForever(FirstPage(r, pageSize), LastPage(r, pageSize), pageSize, Exp2(64))
    {
      hide And, Exp2, Count, Touches, Counts, WalksForever, FirstPage, LastPage;
      ghost var before := live;
      ended := true;
      if r.size == 0 {
        Pushed(before, r, pageSize);
        EmptyRange(histogram, before, before + [r], r, pageSize);
        live := live + [r];
        return;
      }
      if !Fits(r, pageSize) {
        TooHigh(r, pageSize);
        return false;
      }
      var page := PageOf(r.base);
      var endPage := PageOf(r.base + r.size - 1);
      ghost var start := page;
      Spanned(histogram, before, r, pageSize, start);
      while page <= endPage
        invariant page % pageSize == 0 && start <= page <= endPage + pageSize
        invariant Partly(histogram, before, r, pageSize, page) && locked == histogram.Keys
        invariant live == before && old(Valid())
        decreases endPage + pageSize - page
      {
        TouchedPages(r, Page(page), pageSize);
        ghost var h := histogram;
        if Page(page) !in histogram {
          locked := locked + {Page(page)};
          histogram := histogram[Page(page) := 1];
        } else {
          histogram := histogram[Page(page) := histogram[Page(page)] + 1];
        }
        StepUp(h, histogram, before, r, pageSize, page);
        NextAligned(page, pageSize);
        page := page + pageSize;
      }
      live := live + [r];
      AllUp(histogram, before, r, pageSize, page, endPage);
    }

    /** UnlockRange of a live range: every page it touches is in the histogram. */
    method UnlockRange(r: Range)
      requires Valid() && r in live
      modifies this
      ensures Valid() && multiset(live) == old(multiset(live)) - multiset{r}
    {
      hide And, Exp2, Count, Touches, Counts, Partly', HistogramAt;
      ghost var i :| 0 <= i < |live| && live[i] == r;
      ghost var rest := live[..i] + live[i + 1..];
      assert live == live[..i] + [r] + live[i + 1..];
      ghost var before := live;
      OneMore(before, i, pageSize);
      if r.size == 0 {
        EmptyRange(histogram, rest, before, r, pageSize);
        live := rest;
        return;
      }
      var page := PageOf(r.base);
      var endPage := PageOf(r.base + r.size - 1);
      ghost var start := page;
      Unspanned(histogram, before, rest, r, pageSize, start);
      while page <= endPage
        invariant page % pageSize == 0 && start <= page <= endPage + pageSize
        invariant Partly'(histogram, rest, r, pageSize, page) && locked == histogram.Keys
        invariant live == before && old(Valid())
        decreases endPage + pageSize - page
      {
        TouchedPages(r, Page(page), pageSize);
        ghost var h := histogram;
        StillCounted(h, rest, r, pageSize, page);
        histogram := histogram[Page(page) := histogram[Page(page)] - 1];
        if histogram[Page(page)] == 0 {
          locked := locked - {Page(page)};
          histogram := histogram - {Page(page)};
        }
        StepDown(h, histogram, rest, r, pageSize, page);
        NextAligned(page, pageSize);
        page := page + pageSize;
      }
      live := rest;
      AllDown(histogram, rest, r, pageSize, page, endPage);
    }

    /** GetLockedPageCount */
    method GetLockedPageCount() returns (n: nat)
      requires Valid()
      ensures n == |locked|
    {
      n := |histogram|;
    }
  }

  function HistogramAt(h: map<Page, nat>, p: Page): nat { if p in h then h[p] else 0 }

  /** The histogram holds exactly the positive counts. */
  ghost predicate Counts(h: map<Page, nat>, live: seq<Range>, size: nat)
    requires size > 0
  {
    forall p :: HistogramAt(h, p) == Count(live, p, size) && (p in h ==> h[p] > 0)
  }

  /** `r` is counted on top of `live` for the pages below `page`. */
  ghost predicate Partly(h: map<Page, nat>, live: seq<Range>, r: Range, size: nat, page: nat)
    requires size > 0
  {
    forall p :: (p in h ==> h[p] > 0)
      && HistogramAt(h, p) == Count(live, p, size) + if Touches(r, p, size) && p.base < page then 1 else 0
  }

  /** `r` is still counted on top of `live` for the pages from `page` on. */
  ghost predicate Partly'(h: map<Page, nat>, live: seq<Range>, r: Range, size: nat, page: nat)
    requires size > 0
  {
    forall p :: (p in h ==> h[p] > 0)
      && HistogramAt(h, p) == Count(live, p, size) + if Touches(r, p, size) && p.base >= page then 1 else 0
  }

  lemma CountPush(live: seq<Range>, r: Range, p: Page, size: nat)
    requires size > 0
    ensures Count(live + [r], p, size) == Count(live, p, size) + if Touches(r, p, size) then 1 else 0
  {
    assert (live + [r])[..|live|] == live;
  }

  /** `more` is `live` with `r` counted once more. */
  ghost predicate Counted(live: seq<Range>, more: seq<Range>, r: Range, size: nat)
    requires size > 0
  {
    forall p :: Count(more, p, size) == Count(live, p, size) + if Touches(r, p, size) then 1 else 0
  }

  lemma OneMore(live: seq<Range>, i: nat, size: nat)
    requires i < |live| && size > 0
    ensures Counted(live[..i] + live[i + 1..], live, live[i], size)
  {
    forall p
      ensures Count(live, p, size)
              == Count(live[..i] + live[i + 1..], p, size) + if Touches(live[i], p, size) then 1 else 0
    {
      CountWithout(live, i, p, size);
    }
  }

  lemma Pushed(live: seq<Range>, r: Range, size: nat)
    requires size > 0
    ensures Counted(live, live + [r], r, size)
  {
    forall p ensures Count(live + [r], p, size) == Count(live, p, size) + if Touches(r, p, size) then 1 else 0 {
      CountPush(live, r, p, size);
    }
  }

  /** An empty range touches no page. */
  lemma EmptyRange(h: map<Page, nat>, live: seq<Range>, more: seq<Range>, r: Range, size: nat)
    requires size > 0 && r.size == 0 && Counted(live, more, r, size)
    ensures Counts(h, live, size) <==> Counts(h, more, size)
  {
  }

  lemma NextAligned(page: nat, size: nat)
    requires size > 0 && page % size == 0
    ensures (page + size) % size == 0
  {
    Whole(page, size);
    DivUnique(page + size, size, page / size + 1, 0);
  }

  lemma Spanned(h: map<Page, nat>, live: seq<Range>, r: Range, size: nat, start: nat)
    requires size > 0 && Counts(h, live, size) && r.size > 0 && start == r.base - r.base % size
    ensures Partly(h, live, r, size, start)
  {
    forall p ensures !(Touches(r, p, size) && p.base < start) {
      if p.base % size == 0 { TouchedPages(r, p, size); }
    }
  }

  lemma Unspanned(h: map<Page, nat>, live: seq<Range>, rest: seq<Range>, r: Range, size: nat, start: nat)
    requires size > 0 && Counts(h, live, size) && r.size > 0 && start == r.base - r.base % size
    requires Counted(rest, live, r, size)
    ensures Partly'(h, rest, r, size, start)
  {
    forall p ensures Touches(r, p, size) ==> p.base >= start {
      if p.base % size == 0 { TouchedPages(r, p, size); }
    }
  }

  /** No page starts strictly between one page and the next. */
  lemma NextPage(page: nat, b: nat, size: nat)
    requires size > 0 && page % size == 0 && b % size == 0
    ensures b < page + size <==> b <= page
  {
    Aligned(b, page, size);
  }

  lemma StepUp(h: map<Page, nat>, h': map<Page, nat>, live: seq<Range>, r: Range, size: nat, page: nat)
    requires size > 0 && Partly(h, live, r, size, page) && Touches(r, Page(page), size) && page % size == 0
    requires h' == h[Page(page) := HistogramAt(h, Page(page)) + 1]
    ensures Partly(h', live, r, size, page + size)
  {
    hide Count;
    forall p ensures (p in h' ==> h'[p] > 0)
      && HistogramAt(h', p) == Count(live, p, size) + if Touches(r, p, size) && p.base < page + size then 1 else 0
    {
      if p.base % size == 0 { NextPage(page, p.base, size); }
    }
  }

  lemma StillCounted(h: map<Page, nat>, live: seq<Range>, r: Range, size: nat, page: nat)
    requires size > 0 && Partly'(h, live, r, size, page) && Touches(r, Page(page), size)
    ensures Page(page) in h && h[Page(page)] >= 1
  {
    hide Count, Touches;
  }

  lemma StepDown(h: map<Page, nat>, h': map<Page, nat>, live: seq<Range>, r: Range, size: nat, page: nat)
    requires size > 0 && Partly'(h, live, r, size, page) && Touches(r, Page(page), size) && page % size == 0
    requires Page(page) in h && h[Page(page)] >= 1
    requires h' == if h[Page(page)] == 1 then h - {Page(page)} else h[Page(page) := (h[Page(page)] - 1) as nat]
    ensures Partly'(h', live, r, size, page + size)
  {
    hide Count;
    forall p ensures (p in h' ==> h'[p] > 0)
      && HistogramAt(h', p) == Count(live, p, size) + if Touches(r, p, size) && p.base >= page + size then 1 else 0
    {
      if p.base % size == 0 { NextPage(page, p.base, size); }
    }
  }

  lemma AllUp(h: map<Page, nat>, live: seq<Range>, r: Range, size: nat, page: nat, end: nat)
    requires size > 0 && r.size > 0 && page > end && end == r.base + r.size - 1 - (r.base + r.size - 1) % size
    requires Partly(h, live, r, size, page)
    ensures Counts(h, live + [r], size)
  {
    forall p ensures HistogramAt(h, p) == Count(live + [r], p, size) && (p in h ==> h[p] > 0) {
      CountPush(live, r, p, size);
      if p.base % size == 0 { TouchedPages(r, p, size); }
    }
  }

  lemma AllDown(h: map<Page, nat>, live: seq<Range>, r: Range, size: nat, page: nat, end: nat)
    requires size > 0 && r.size > 0 && page > end && end == r.base + r.size - 1 - (r.base + r.size - 1) % size
    requires Partly'(h, live, r, size, page)
    ensures Counts(h, live, size)
  {
    forall p ensures !(Touches(r, p, size) && p.base >= page) {
      if p.base % size == 0 { TouchedPages(r, p, size); }
    }
  }
}
