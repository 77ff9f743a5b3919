/** The string order and the stable sort that Python's `sorted` supplies. */
module Ordering {

  /** Code-point lexicographic order. */
  predicate StrLeq(a: string, b: string) {
    a == [] || (b != [] && (a[0] < b[0] || (a[0] == b[0] && StrLeq(a[1..], b[1..]))))
  }

  /** Strings are compared at the first place where they differ; a prefix comes first. */
  lemma {:induction false} StrLeqExactly(a: string, b: string) returns (k: nat)
    ensures k <= |a| && k <= |b| && a[..k] == b[..k] && (k < |a| && k < |b| ==> a[k] != b[k])
    ensures StrLeq(a, b) <==> k == |a| || (k < |b| && a[k] < b[k])
  {
    k := 0;
    if a != [] && b != [] && a[0] == b[0] {
      k := StrLeqExactly(a[1..], b[1..]);
      assert a[..k + 1] == [a[0]] + a[1..][..k] && b[..k + 1] == [b[0]] + b[1..][..k];
      k := k + 1;
    }
  }

  lemma {:induction false} StrLeqTotal(a: string, b: string)
    ensures StrLeq(a, b) || StrLeq(b, a)
  {
    if a != [] && b != [] {
      StrLeqTotal(a[1..], b[1..]);
    }
  }

  lemma {:induction false} StrLeqAntisymmetric(a: string, b: string)
    requires StrLeq(a, b) && StrLeq(b, a)
    ensures a == b
  {
    if a != [] && b != [] {
      StrLeqAntisymmetric(a[1..], b[1..]);
      assert a == [a[0]] + a[1..] && b == [b[0]] + b[1..];
    }
  }

  lemma {:induction false} StrLeqTransitive(a: string, b: string, c: string)
    requires StrLeq(a, b) && StrLeq(b, c)
    ensures StrLeq(a, c)
  {
    if a != [] && a[0] == b[0] == c[0] {
      StrLeqTransitive(a[1..], b[1..], c[1..]);
    }
  }

  ghost predicate TotalPreorder<T(!new)>(leq: (T, T) -> bool) {
    && (forall x, y :: leq(x, y) || leq(y, x))
    && (forall x, y, z :: leq(x, y) && leq(y, z) ==> leq(x, z))
  }

  ghost predicate TotalOrder<T(!new)>(leq: (T, T) -> bool) {
    && TotalPreorder(leq)
    && (forall x, y :: leq(x, y) && leq(y, x) ==> x == y)
  }

  lemma StrLeqIsTotalOrder()
    ensures TotalOrder(StrLeq)
  {
    forall x, y ensures StrLeq(x, y) || StrLeq(y, x) {
      StrLeqTotal(x, y);
    }
    forall x, y, z | StrLeq(x, y) && StrLeq(y, z) ensures StrLeq(x, z) {
      StrLeqTransitive(x, y, z);
    }
    forall x, y | StrLeq(x, y) && StrLeq(y, x) ensures x == y {
      StrLeqAntisymmetric(x, y);
    }
  }

  ghost predicate NoDuplicates<T>(s: seq<T>) {
    forall i, j :: 0 <= i < j < |s| ==> s[i] != s[j]
  }

  function Elements<T>(s: seq<T>): set<T> {
    set x | x in s
  }

  ghost predicate SortedBy<T>(s: seq<T>, leq: (T, T) -> bool) {
    forall i, j :: 0 <= i < j < |s| ==> leq(s[i], s[j])
  }

  // ---- A stable sort -------------------------------------------------

  function Insert<T>(x: T, s: seq<T>, leq: (T, T) -> bool): seq<T> {
    if s == [] || leq(x, s[0]) then [x] + s else [s[0]] + Insert(x, s[1..], leq)
  }

  /** Where an element goes: behind everything that it is not in front of. */
  lemma {:induction false} InsertSplit<T>(x: T, s: seq<T>, leq: (T, T) -> bool) returns (k: nat)
    ensures k <= |s| && Insert(x, s, leq) == s[..k] + [x] + s[k..]
    ensures forall i | 0 <= i < k :: !leq(x, s[i])
    ensures k < |s| ==> leq(x, s[k])
  {
    k := 0;
    if s != [] && !leq(x, s[0]) {
      var m := InsertSplit(x, s[1..], leq);
      k := m + 1;
      assert s[..k] == [s[0]] + s[1..][..m] && s[k..] == s[1..][m..];
    }
  }

  lemma InsertMultiset<T>(x: T, s: seq<T>, leq: (T, T) -> bool)
    ensures multiset(Insert(x, s, leq)) == multiset{x} + multiset(s)
  {
    var k := InsertSplit(x, s, leq);
    assert s == s[..k] + s[k..];
  }

  /** Equal keys keep their original order, because an element goes in front of its equals. */
  function Sort<T(!new)>(s: seq<T>, leq: (T, T) -> bool): (r: seq<T>)
    ensures multiset(r) == multiset(s)
    ensures |r| == |s|
    ensures forall x :: x in r <==> x in s
  {
    if s == [] then [] else
      assert s == [s[0]] + s[1..];
      var r := Insert(s[0], Sort(s[1..], leq), leq);
      InsertMultiset(s[0], Sort(s[1..], leq), leq);
      MultisetFacts(r, s);
      r
  }

  lemma MultisetFacts<T>(r: seq<T>, s: seq<T>)
    requires multiset(r) == multiset(s)
    ensures |r| == |s|
    ensures forall x :: x in r <==> x in s
  {
    assert |multiset(r)| == |r| && |multiset(s)| == |s|;
    assert forall x :: x in r <==> x in multiset(r);
    assert forall x :: x in s <==> x in multiset(s);
  }

  lemma {:induction false} InsertSorted<T(!new)>(x: T, s: seq<T>, leq: (T, T) -> bool)
    requires TotalPreorder(leq) && SortedBy(s, leq)
    ensures SortedBy(Insert(x, s, leq), leq)
  {
    if s != [] && !leq(x, s[0]) {
      InsertSorted(x, s[1..], leq);
      InsertMultiset(x, s[1..], leq);
      var r := Insert(x, s[1..], leq);
      forall y | y in r ensures leq(s[0], y) {
        assert y in multiset(r);
        assert y == x || y in s[1..];
      }
    }
  }

  lemma {:induction false} SortSorted<T(!new)>(s: seq<T>, leq: (T, T) -> bool)
    requires TotalPreorder(leq)
    ensures SortedBy(Sort(s, leq), leq)
  {
    if s != [] {
      SortSorted(s[1..], leq);
      InsertSorted(s[0], Sort(s[1..], leq), leq);
    }
  }

  /** Under a total order, sorting forgets the order of the input. */
  lemma {:induction false} SortedUnique<T(!new)>(a: seq<T>, b: seq<T>, leq: (T, T) -> bool)
    requires TotalOrder(leq) && SortedBy(a, leq) && SortedBy(b, leq)
    requires multiset(a) == multiset(b)
    ensures a == b
  {
    MultisetFacts(a, b);
    if a != [] {
      LeastIsFirst(a, b, leq);
      TailsAgree(a, b);
      SortedTail(a, leq);
      SortedTail(b, leq);
      hide TotalOrder, SortedBy;
      SortedUnique(a[1..], b[1..], leq);
      assert a == [a[0]] + a[1..] && b == [b[0]] + b[1..];
    }
  }

  lemma LeastIsFirst<T(!new)>(a: seq<T>, b: seq<T>, leq: (T, T) -> bool)
    requires TotalOrder(leq) && SortedBy(a, leq) && SortedBy(b, leq)
    requires a != [] && b != [] && a[0] in b && b[0] in a
    ensures a[0] == b[0]
  {
    var i :| 0 <= i < |b| && b[i] == a[0];
    var j :| 0 <= j < |a| && a[j] == b[0];
    assert leq(b[0], b[i]) && leq(a[0], a[j]);
  }

  lemma TailsAgree<T>(a: seq<T>, b: seq<T>)
    requires a != [] && b != [] && a[0] == b[0] && multiset(a) == multiset(b)
    ensures multiset(a[1..]) == multiset(b[1..])
  {
    assert a == [a[0]] + a[1..] && b == [b[0]] + b[1..];
    assert multiset(a[1..]) == multiset(a) - multiset{a[0]};
    assert multiset(b[1..]) == multiset(b) - multiset{b[0]};
  }

  lemma SortedTail<T>(s: seq<T>, leq: (T, T) -> bool)
    requires s != [] && SortedBy(s, leq)
    ensures SortedBy(s[1..], leq)
  {
  }

  lemma {:induction false} SameElementsSameMultiset<T>(a: seq<T>, b: seq<T>)
    requires NoDuplicates(a) && NoDuplicates(b)
    requires forall x :: x in a <==> x in b
    ensures multiset(a) == multiset(b)
  {
    forall x ensures multiset(a)[x] == multiset(b)[x] {
      CountDistinct(a, x);
      CountDistinct(b, x);
    }
  }

  lemma {:induction false} CountDistinct<T>(a: seq<T>, x: T)
    requires NoDuplicates(a)
    ensures multiset(a)[x] == if x in a then 1 else 0
  {
    if a != [] {
      assert a == [a[0]] + a[1..];
      CountDistinct(a[1..], x);
    }
  }

  lemma {:induction false} DistinctOfMultiset<T>(a: seq<T>, b: seq<T>)
    requires NoDuplicates(a) && multiset(a) == multiset(b)
    ensures NoDuplicates(b)
  {
    forall i, j | 0 <= i < j < |b| ensures b[i] != b[j] {
      CountDistinct(a, b[i]);
      if b[i] == b[j] {
        RepeatedCount(b, i, j);
      }
    }
  }

  lemma RepeatedCount<T>(b: seq<T>, i: nat, j: nat)
    requires i < j < |b| && b[i] == b[j]
    ensures multiset(b)[b[i]] >= 2
  {
    assert b == b[..i] + [b[i]] + b[i + 1..j] + [b[j]] + b[j + 1..];
  }

  /** A sequence without repetition is no longer than a set that holds it. */
  lemma {:induction false} DistinctLength<T>(a: seq<T>, s: set<T>)
    requires NoDuplicates(a) && forall x :: x in a ==> x in s
    ensures |a| <= |s|
  {
    if a != [] {
      forall x | x in a[1..] ensures x in s - {a[0]} {}
      DistinctLength(a[1..], s - {a[0]});
    }
  }

  // ---- Sorting a set -------------------------------------------------

  ghost function Enumerate<T(!new)>(s: set<T>): (r: seq<T>)
    ensures NoDuplicates(r) && forall x :: x in r <==> x in s
  {
    if s == {} then [] else
      var x :| x in s;
      [x] + Enumerate(s - {x})
  }

  ghost function SortedSet<T(!new)>(s: set<T>, leq: (T, T) -> bool): (r: seq<T>)
    ensures forall x :: x in r <==> x in s
  {
    Sort(Enumerate(s), leq)
  }

  lemma SortedSetProperties<T(!new)>(s: set<T>, leq: (T, T) -> bool)
    requires TotalOrder(leq)
    ensures NoDuplicates(SortedSet(s, leq)) && SortedBy(SortedSet(s, leq), leq)
  {
    SortSorted(Enumerate(s), leq);
    DistinctOfMultiset(Enumerate(s), SortedSet(s, leq));
  }

  /** Whatever order the elements come in, sorting them gives the sorted set. */
  lemma SortIsSortedSet<T(!new)>(a: seq<T>, s: set<T>, leq: (T, T) -> bool)
    requires TotalOrder(leq) && NoDuplicates(a)
    requires forall x :: x in a <==> x in s
    ensures Sort(a, leq) == SortedSet(s, leq)
  {
    SameElementsSameMultiset(a, Enumerate(s));
    SortSorted(a, leq);
    SortSorted(Enumerate(s), leq);
    SortedUnique(Sort(a, leq), SortedSet(s, leq), leq);
  }

  /** `sorted` on a set. */
  method SortElements<T(==, !new)>(s: set<T>, leq: (T, T) -> bool) returns (r: seq<T>)
    requires TotalOrder(leq)
    ensures r == SortedSet(s, leq)
  {
    var items: seq<T> := [];
    var rest := s;
    while rest != {}
      invariant rest <= s && NoDuplicates(items)
      invariant forall x :: x in items <==> x in s && x !in rest
      decreases rest
    {
      var x :| x in rest;
      rest := rest - {x};
      items := items + [x];
    }
    SortIsSortedSet(items, s, leq);
    r := Sort(items, leq);
  }

  method SortStrings(s: set<string>) returns (r: seq<string>)
    ensures r == SortedSet(s, StrLeq)
  {
    StrLeqIsTotalOrder();
    r := SortElements(s, StrLeq);
  }
}
