/** Where SelectTried leaves the oldest of the entries it inspects, and which place it returns. */
module AddrSelect {
  import opened OrderedSet
  import opened AddrState
  import opened AddrOps
  import opened AddrTried

  /** Four at most. */
  function Inspected(n: nat): nat { if n < 4 then n else 4 }

  /** Among the first `i` entries of `q`, the one at `k` succeeded longest ago, and is the first that did. */
  ghost predicate OldestBelow(m: map<Id, Info>, q: seq<Id>, i: nat, k: nat)
    requires AllIn(q, m) && i <= |q|
  {
    && k < i && (forall j :: 0 <= j < i ==> m[q[k]].lastSuccess <= m[q[j]].lastSuccess)
    && forall j :: 0 <= j < k ==> m[q[k]].lastSuccess < m[q[j]].lastSuccess
  }

  /** The offset drawn at step `k` over a bucket of `n`. */
  function Draw(rnd: Draws, n: nat, k: nat): nat
    requires k < n
  {
    RandInt(rnd(k + 1), n - k)
  }

  lemma DrawIs(rnd: Draws, n: nat, k: nat)
    requires k < n
    ensures Draw(rnd, n, k) == RandInt(rnd(k + 1), n - k)
  {
  }

  /** One step: the entry drawn becomes the oldest if it is older than the oldest so far. */
  lemma SwapOldest(m: map<Id, Info>, q: seq<Id>, i: nat, p: nat, oldest: Id, k0: nat)
    requires AllIn(q, m) && i <= p < |q| && NONE !in m
    requires if i == 0 then oldest == NONE else OldestBelow(m, q, i, k0) && q[k0] == oldest
    ensures var q' := q[p := q[i]][i := q[p]];
            var better := oldest == NONE || m[q[p]].lastSuccess < m[oldest].lastSuccess;
            var k := if better then i else k0;
            AllIn(q', m) && OldestBelow(m, q', i + 1, k) && q'[i] == q[p] && (!better ==> k0 < i && q'[k0] == q[k0])
  {
    var q' := q[p := q[i]][i := q[p]];
    assert forall j :: 0 <= j < i ==> q'[j] == q[j];
  }

  lemma {:induction false} SelectFromPlace(m: map<Id, Info>, q: seq<Id>, i: nat, oldest: Id, pos: int, rnd: Draws, k0: nat)
    returns (k: nat)
    requires AllIn(q, m) && i <= Inspected(|q|) && (oldest == NONE || oldest in m) && q != [] && NONE !in m
    requires if i == 0 then oldest == NONE
             else OldestBelow(m, q, i, k0) && q[k0] == oldest && pos == k0 + Draw(rnd, |q|, k0) < |q|
    ensures var (r, p) := SelectFrom(m, q, i, oldest, pos, rnd);
            AllIn(r, m) && |r| == |q| && OldestBelow(m, r, Inspected(|q|), k) && p == k + Draw(rnd, |q|, k) < |r|
    decreases |q| - i
  {
    hide SelectFrom, RandInt, Draw, OldestBelow, AllIn;
    if i == Inspected(|q|) {
      SelectDone(m, q, i, oldest, pos, rnd);
      k := k0;
    } else {
      var p: nat := RandInt(rnd(i + 1), |q| - i) + i;
      SelectStep(m, q, i, oldest, pos, rnd, p);
      DrawIs(rnd, |q|, i);
      var t, q' := q[p], q[p := q[i]][i := q[p]];
      var better := oldest == NONE || m[t].lastSuccess < m[oldest].lastSuccess;
      SwapOldest(m, q, i, p, oldest, k0);
      k := SelectFromPlace(m, q', i + 1, if better then t else oldest, if better then p else pos, rnd, if better then i else k0);
    }
  }

  /** The inspected entries stand in front. The entry at the place returned is the first oldest of them exactly if the
      draw at the step that met it was zero, so that nothing was swapped there. */
  lemma SelectTriedPlace(m: map<Id, Info>, q: seq<Id>, rnd: Draws) returns (k: nat)
    requires AllIn(q, m) && q != [] && NoDup(q) && NONE !in m
    ensures var (r, pos) := SelectTried(m, q, rnd);
            && AllIn(r, m) && |r| == |q| && OldestBelow(m, r, Inspected(|q|), k) && k <= pos < |r|
            && (r[pos] == r[k] <==> RandInt(rnd(k + 1), |q| - k) == 0)
  {
    k := SelectFromPlace(m, q, 0, NONE, -1, rnd, 0);
    SelectTriedChoice(m, q, rnd);
    PermNoDup(SelectTried(m, q, rnd).0, q);
  }

  function Aged(time: int): Info {
    Info(Address(Service(NetAddr(0), 0), 0, 0, 0), NetAddr(0), time, 0, 0, true, 0)
  }

  /** Two entries, the draw on the second, which is the older: it is swapped to the front, and the place returned is
      the other's. */
  lemma NotTheOldest()
    ensures var m, q := map[Id(1) := Aged(5), Id(2) := Aged(3)], [Id(1), Id(2)];
            SelectTried(m, q, _ => 1) == ([Id(2), Id(1)], 1)
  {
    var m, q := map[Id(1) := Aged(5), Id(2) := Aged(3)], [Id(1), Id(2)];
    var rnd: Draws := _ => 1;
    SelectStep(m, q, 0, NONE, -1, rnd, 1);
    var r := [Id(2), Id(1)];
    assert q[1 := q[0]][0 := q[1]] == r;
    SelectStep(m, r, 1, Id(2), 1, rnd, 1);
    assert r[1 := r[1]][1 := r[1]] == r;
    SelectDone(m, r, 2, Id(2), 1, rnd);
  }
}
