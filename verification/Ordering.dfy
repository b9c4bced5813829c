/** Sorting and the order the program sorts strings by. `Sort` stands for
    slices.SortFunc, of which only this contract is used. */
module Ordering {

  ghost predicate TotalPreorder<T(!new)>(leq: (T, T) -> bool)
  {
    && (forall x, y :: leq(x, y) || leq(y, x))
    && (forall x, y, z :: leq(x, y) && leq(y, z) ==> leq(x, z))
  }

  ghost predicate SortedBy<T(!new)>(leq: (T, T) -> bool, s: seq<T>)
  {
    forall i, j :: 0 <= i < j < |s| ==> leq(s[i], s[j])
  }

  function Insert<T>(leq: (T, T) -> bool, x: T, s: seq<T>): (r: seq<T>)
    ensures multiset(r) == multiset(s) + multiset{x}
  {
    if s == [] then [x]
    else if leq(x, s[0]) then [x] + s
    else
      assert s == [s[0]] + s[1..];
      [s[0]] + Insert(leq, x, s[1..])
  }

  lemma SortedFrom<T(!new)>(leq: (T, T) -> bool, x: T, s: seq<T>)
    requires SortedBy(leq, s) && forall y :: y in s ==> leq(x, y)
    ensures SortedBy(leq, [x] + s)
  {
  }

  lemma {:induction false} InsertSorted<T(!new)>(leq: (T, T) -> bool, x: T, s: seq<T>)
    requires TotalPreorder(leq) && SortedBy(leq, s)
    ensures SortedBy(leq, Insert(leq, x, s))
  {
    if s == [] {
    } else if leq(x, s[0]) {
      assert forall y :: y in s ==> leq(s[0], y) || y == s[0];
      SortedFrom(leq, x, s);
    } else {
      var rest := Insert(leq, x, s[1..]);
      InsertSorted(leq, x, s[1..]);
      forall y | y in rest
        ensures leq(s[0], y)
      {
        assert y in multiset(s[1..]) + multiset{x};
      }
      SortedFrom(leq, s[0], rest);
    }
  }

  method Sort<T(!new)>(leq: (T, T) -> bool, s: seq<T>) returns (r: seq<T>)
    requires TotalPreorder(leq)
    ensures SortedBy(leq, r)
    ensures multiset(r) == multiset(s)
  {
    r := [];
    for n := 0 to |s|
      invariant SortedBy(leq, r)
      invariant multiset(r) == multiset(s[..n])
    {
      assert s[..n + 1] == s[..n] + [s[n]];
      InsertSorted(leq, s[n], r);
      r := Insert(leq, s[n], r);
    }
    assert s[..|s|] == s;
  }

  lemma SameElements<T>(a: seq<T>, b: seq<T>)
    requires multiset(a) == multiset(b)
    ensures |a| == |b| && forall x :: x in a <==> x in b
  {
    assert |multiset(a)| == |a| && |multiset(b)| == |b|;
    assert forall x :: x in a <==> x in multiset(a);
    assert forall x :: x in b <==> x in multiset(b);
  }

  lemma SameHead<T(!new)>(leq: (T, T) -> bool, a: seq<T>, b: seq<T>)
    requires SortedBy(leq, a) && SortedBy(leq, b) && a != [] && b != []
    requires a[0] in b && b[0] in a
    requires leq(a[0], b[0]) && leq(b[0], a[0]) ==> a[0] == b[0]
    ensures a[0] == b[0]
  {
    var i :| 0 <= i < |b| && b[i] == a[0];
    var j :| 0 <= j < |a| && a[j] == b[0];
  }

  ghost predicate Antisymmetric<T(!new)>(leq: (T, T) -> bool, s: seq<T>)
  {
    forall x, y :: x in s && y in s && leq(x, y) && leq(y, x) ==> x == y
  }

  lemma TailOf<T(!new)>(leq: (T, T) -> bool, a: seq<T>)
    requires a != [] && SortedBy(leq, a) && Antisymmetric(leq, a)
    ensures SortedBy(leq, a[1..]) && Antisymmetric(leq, a[1..])
    ensures multiset(a[1..]) == multiset(a) - multiset{a[0]}
  {
    assert a == [a[0]] + a[1..];
    assert forall x :: x in a[1..] ==> x in a;
  }

  /** Where the order is antisymmetric, a multiset has one sorted arrangement. */
  lemma {:induction false} SortedIsUnique<T(!new)>(leq: (T, T) -> bool, a: seq<T>, b: seq<T>)
    requires SortedBy(leq, a) && SortedBy(leq, b) && multiset(a) == multiset(b)
    requires Antisymmetric(leq, a) && Antisymmetric(leq, b)
    ensures a == b
    decreases |a|
  {
    SameElements(a, b);
    if a != [] {
      SameHead(leq, a, b);
      TailOf(leq, a);
      TailOf(leq, b);
      SortedIsUnique(leq, a[1..], b[1..]);
      assert a == [a[0]] + a[1..] && b == [b[0]] + b[1..];
    }
  }

  /** The lexicographic order on strings. */
  predicate LexLeq(a: string, b: string)
  {
    if a == "" then true
    else if b == "" then false
    else a[0] < b[0] || (a[0] == b[0] && LexLeq(a[1..], b[1..]))
  }

  lemma LexTotal(a: string, b: string)
    ensures LexLeq(a, b) || LexLeq(b, a)
    ensures LexLeq(a, b) && LexLeq(b, a) ==> a == b
  {
    if a != "" && b != "" && a[0] == b[0] {
      LexTotal(a[1..], b[1..]);
      assert a == [a[0]] + a[1..] && b == [b[0]] + b[1..];
    }
  }

  lemma LexTransitive(a: string, b: string, c: string)
    requires LexLeq(a, b) && LexLeq(b, c)
    ensures LexLeq(a, c)
  {
    if a != "" && b != "" && c != "" && a[0] == b[0] == c[0] {
      LexTransitive(a[1..], b[1..], c[1..]);
    }
  }

  /** The order is alphabetical: a prefix first, and else the smaller first difference. */
  lemma {:induction false} LexIsAlphabetical(p: string, x: char, y: char, s: string, t: string)
    requires x < y
    ensures LexLeq(p + [x] + s, p + [y] + t) && !LexLeq(p + [y] + t, p + [x] + s)
    ensures LexLeq(p, p + [x] + s) && !LexLeq(p + [x] + s, p)
  {
    if p != "" {
      LexIsAlphabetical(p[1..], x, y, s, t);
      assert (p + [x] + s)[1..] == p[1..] + [x] + s && (p + [y] + t)[1..] == p[1..] + [y] + t;
    }
  }

  lemma LexIsTotalOrder()
    ensures TotalPreorder(LexLeq)
    ensures forall a, b :: LexLeq(a, b) && LexLeq(b, a) ==> a == b
  {
    forall a, b
      ensures LexLeq(a, b) || LexLeq(b, a)
      ensures LexLeq(a, b) && LexLeq(b, a) ==> a == b
    {
      LexTotal(a, b);
    }
    forall a, b, c | LexLeq(a, b) && LexLeq(b, c)
      ensures LexLeq(a, c)
    {
      LexTransitive(a, b, c);
    }
  }

  ghost predicate Distinct<T>(s: seq<T>)
  {
    forall i, j :: 0 <= i < j < |s| ==> s[i] != s[j]
  }

  lemma {:induction false} DistinctCounts<T>(s: seq<T>)
    requires Distinct(s)
    ensures forall x :: multiset(s)[x] == if x in s then 1 else 0
  {
    if s != [] {
      var front := s[..|s| - 1];
      DistinctCounts(front);
      assert s == front + [s[|s| - 1]];
    }
  }

  lemma {:induction false} CountsOneIsDistinct<T>(s: seq<T>)
    requires forall x :: multiset(s)[x] <= 1
    ensures Distinct(s)
  {
    forall i, j | 0 <= i < j < |s|
      ensures s[i] != s[j]
    {
      assert s == s[..j] + [s[j]] + s[j + 1..];
      assert s[..j][i] == s[i];
      assert multiset(s)[s[j]] == multiset(s[..j])[s[j]] + 1 + multiset(s[j + 1..])[s[j]];
    }
  }

  /** Sorted arrangements of the same set of distinct elements coincide. */
  lemma SortedSetIsUnique<T(!new)>(leq: (T, T) -> bool, a: seq<T>, b: seq<T>)
    requires SortedBy(leq, a) && SortedBy(leq, b) && Distinct(a) && Distinct(b)
    requires forall x :: x in a <==> x in b
    requires Antisymmetric(leq, a)
    ensures a == b
  {
    DistinctCounts(a);
    DistinctCounts(b);
    assert multiset(a) == multiset(b);
    SortedIsUnique(leq, a, b);
  }

  lemma SortKeepsDistinct<T>(a: seq<T>, b: seq<T>)
    requires multiset(a) == multiset(b) && Distinct(a)
    ensures Distinct(b) && forall x :: x in a <==> x in b
  {
    DistinctCounts(a);
    SameElements(a, b);
    CountsOneIsDistinct(b);
  }

  /** A set of strings in the order the program lists one. */
  ghost function Arrange(s: set<string>): (r: seq<string>)
    ensures multiset(r) == multiset(s)
  {
    if s == {} then []
    else
      var x :| x in s;
      Insert(LexLeq, x, Arrange(s - {x}))
  }

  lemma {:induction false} ArrangeIsSorted(s: set<string>)
    ensures SortedBy(LexLeq, Arrange(s))
    decreases |s|
  {
    if s != {} {
      var x :| x in s && Arrange(s) == Insert(LexLeq, x, Arrange(s - {x}));
      ArrangeIsSorted(s - {x});
      LexIsTotalOrder();
      InsertSorted(LexLeq, x, Arrange(s - {x}));
    }
  }

  /** A sorted list without repeats is the arrangement of its elements. */
  lemma ArrangeIsUnique(r: seq<string>, s: set<string>)
    requires SortedBy(LexLeq, r) && Distinct(r) && forall x :: x in r <==> x in s
    ensures r == Arrange(s)
  {
    LexIsTotalOrder();
    DistinctCounts(r);
    ArrangeIsSorted(s);
    assert multiset(r) == multiset(s);
    SortedIsUnique(LexLeq, r, Arrange(s));
  }

  /** A list with the elements of a set, once each. */
  lemma BagOfSet<T>(r: seq<T>, s: set<T>)
    requires multiset(r) == multiset(s)
    ensures (forall x :: x in r <==> x in s) && Distinct(r) && |r| == |s|
  {
    assert |multiset(r)| == |r| && |multiset(s)| == |s|;
    forall x
      ensures x in r <==> x in s
    {
      assert x in r <==> x in multiset(r);
      assert x in s <==> x in multiset(s);
    }
    CountsOneIsDistinct(r);
  }

  lemma ArrangeMembers(s: set<string>)
    ensures (forall x :: x in Arrange(s) <==> x in s) && Distinct(Arrange(s)) && |Arrange(s)| == |s|
  {
    BagOfSet(Arrange(s), s);
  }
}
