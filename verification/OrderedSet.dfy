/** Ascending iteration over a finite set of integer identifiers, as std::set and std::map give it. */
module OrderedSet {

  /** An integer identifier. */
  datatype Id = Id(n: int)

  lemma Pick<T>(s: set<T>) returns (x: T)
    requires s != {}
    ensures x in s
  {
    x :| x in s;
  }

  lemma {:induction false} MinExists(s: set<Id>)
    requires s != {}
    ensures exists m :: m in s && forall x :: x in s ==> m.n <= x.n
  {
    var y := Pick(s);
    if t :| t in s && t.n < y.n {
      var r := s - {y};
      assert t in r;
      MinExists(r);
      var k :| k in r && forall x :: x in r ==> k.n <= x.n;
      forall x | x in s ensures k.n <= x.n { assert x == y || x in r; }
      assert k in s;
    } else {
      assert y in s;
    }
  }

  function Min(s: set<Id>): (m: Id)
    requires s != {}
    ensures m in s && forall x :: x in s ==> m.n <= x.n
  {
    MinExists(s);
    var m :| m in s && forall x :: x in s ==> m.n <= x.n;
    m
  }

  ghost predicate Ascending(q: seq<Id>) { forall i, j :: 0 <= i < j < |q| ==> q[i].n < q[j].n }

  lemma ConsAscending(m: Id, q: seq<Id>)
    requires Ascending(q) && forall k :: 0 <= k < |q| ==> m.n < q[k].n
    ensures Ascending([m] + q)
  {
  }

  function Sorted(s: set<Id>): (q: seq<Id>)
    ensures |q| == |s|
    ensures forall x :: x in q <==> x in s
    ensures forall k :: 0 <= k < |q| ==> q[k] in s
    ensures Ascending(q)
  {
    if s == {} then []
    else
      var m := Min(s);
      var r := Sorted(s - {m});
      ConsAscending(m, r);
      [m] + r
  }

  lemma ByIndex<T>(q: seq<T>, s: set<T>)
    requires forall x :: x in q ==> x in s
    ensures forall k :: 0 <= k < |q| ==> q[k] in s
  {
  }

  /** The ascending enumeration of a set is unique. */
  lemma {:induction false} SortedUnique(s: set<Id>, q: seq<Id>)
    requires Ascending(q) && forall x :: x in q <==> x in s
    ensures q == Sorted(s)
    decreases q
  {
    if s == {} {
      ByIndex(q, s);
    } else {
      var m := Min(s);
      assert m in q;
      assert q[0] in q;
      assert q == [m] + q[1..];
      forall x ensures x in q[1..] <==> x in s - {m} {
        assert x in q <==> x == m || x in q[1..];
      }
      SortedUnique(s - {m}, q[1..]);
    }
  }

  lemma {:induction false} SubsetSize<T>(a: set<T>, b: set<T>)
    requires a <= b
    ensures |a| <= |b|
  {
    if a != {} {
      var x := Pick(a);
      SubsetSize(a - {x}, b - {x});
    }
  }
}
