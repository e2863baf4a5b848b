/** Stable sorting: what Python's sorted() and list.sort() promise. */
module Sorting {
  import opened Sequences

  ghost predicate TotalPreorder<T(!new)>(leq: (T, T) -> bool) {
    && (forall x, y :: leq(x, y) || leq(y, x))
    && forall x, y, z :: leq(x, y) && leq(y, z) ==> leq(x, z)
  }

  predicate SortedBy<T>(s: seq<T>, leq: (T, T) -> bool) {
    forall i, j :: 0 <= i < j < |s| ==> leq(s[i], s[j])
  }

  function Insert<T>(x: T, s: seq<T>, leq: (T, T) -> bool): seq<T> {
    if s == [] || leq(x, s[0]) then [x] + s else [s[0]] + Insert(x, s[1..], leq)
  }

  /** Sorted, with equal elements in their original order. */
  function StableSort<T>(s: seq<T>, leq: (T, T) -> bool): seq<T> {
    if s == [] then [] else Insert(s[0], StableSort(s[1..], leq), leq)
  }

  function Filter<T>(s: seq<T>, p: T -> bool): seq<T> {
    if s == [] then [] else (if p(s[0]) then [s[0]] else []) + Filter(s[1..], p)
  }

  lemma {:induction false} FilterAppend<T>(a: seq<T>, b: seq<T>, p: T -> bool)
    ensures Filter(a + b, p) == Filter(a, p) + Filter(b, p)
  {
    if a == [] {
      Units(b);
      Units(Filter(b, p));
    } else {
      assert (a + b)[1..] == a[1..] + b;
      FilterAppend(a[1..], b, p);
      Assoc(if p(a[0]) then [a[0]] else [], Filter(a[1..], p), Filter(b, p));
    }
  }

  lemma {:induction false} FilterMembers<T>(s: seq<T>, p: T -> bool)
    ensures forall x :: x in Filter(s, p) <==> x in s && p(x)
    ensures |Filter(s, p)| <= |s|
  {
    if s == [] {
    } else {
      FilterMembers(s[1..], p);
      assert s == [s[0]] + s[1..];
    }
  }

  lemma {:induction false} FilterCount<T>(s: seq<T>, p: T -> bool, x: T)
    ensures multiset(Filter(s, p))[x] == if p(x) then multiset(s)[x] else 0
  {
    if s == [] {
    } else {
      FilterCount(s[1..], p, x);
      assert s == [s[0]] + s[1..];
    }
  }

  lemma {:induction false} FilterAll<T>(s: seq<T>, p: T -> bool)
    requires forall x :: x in s ==> p(x)
    ensures Filter(s, p) == s
  {
    if s == [] {
    } else {
      FilterAll(s[1..], p);
      assert s == [s[0]] + s[1..];
    }
  }

  lemma {:induction false} FilterNone<T>(s: seq<T>, p: T -> bool)
    requires forall x :: x in s ==> !p(x)
    ensures Filter(s, p) == []
  {
    if s == [] {
    } else {
      FilterNone(s[1..], p);
      assert s[0] in s;
    }
  }

  lemma {:induction false} FilterAgree<T>(s: seq<T>, p: T -> bool, q: T -> bool)
    requires forall x :: x in s ==> p(x) == q(x)
    ensures Filter(s, p) == Filter(s, q)
  {
    if s == [] {
    } else {
      assert s[0] in s;
      FilterAgree(s[1..], p, q);
    }
  }

  /** Filtering by p after q is filtering by p when p implies q on the elements. */
  lemma {:induction false} FilterFilter<T>(s: seq<T>, p: T -> bool, q: T -> bool)
    requires forall x :: x in s && p(x) ==> q(x)
    ensures Filter(Filter(s, q), p) == Filter(s, p)
  {
    if s == [] {
    } else {
      FilterFilter(s[1..], p, q);
      assert s[0] in s;
      var here := if q(s[0]) then [s[0]] else [];
      FilterAppend(here, Filter(s[1..], q), p);
      assert q(s[0]) ==> [s[0]][1..] == [];
      Units(if p(s[0]) then [s[0]] else []);
    }
  }

  // ---------- the sort ----------

  lemma {:induction false} InsertPermutes<T>(x: T, s: seq<T>, leq: (T, T) -> bool)
    ensures multiset(Insert(x, s, leq)) == multiset{x} + multiset(s)
  {
    if s == [] || leq(x, s[0]) {
    } else {
      InsertPermutes(x, s[1..], leq);
      assert s == [s[0]] + s[1..];
    }
  }

  lemma {:induction false} SortPermutes<T>(s: seq<T>, leq: (T, T) -> bool)
    ensures multiset(StableSort(s, leq)) == multiset(s)
  {
    if s == [] {
    } else {
      SortPermutes(s[1..], leq);
      InsertPermutes(s[0], StableSort(s[1..], leq), leq);
      assert s == [s[0]] + s[1..];
    }
  }

  lemma SortMembers<T>(s: seq<T>, leq: (T, T) -> bool)
    ensures |StableSort(s, leq)| == |s|
    ensures forall x :: x in StableSort(s, leq) <==> x in s
  {
    SortPermutes(s, leq);
    var t := StableSort(s, leq);
    assert |multiset(t)| == |t| && |multiset(s)| == |s|;
    forall x ensures x in t <==> x in s {
      assert x in t <==> x in multiset(t);
      assert x in s <==> x in multiset(s);
    }
  }

  lemma SortedCons<T>(x: T, s: seq<T>, leq: (T, T) -> bool)
    requires SortedBy(s, leq) && forall y :: y in s ==> leq(x, y)
    ensures SortedBy([x] + s, leq)
  {
  }

  lemma SortedTail<T>(s: seq<T>, leq: (T, T) -> bool)
    requires SortedBy(s, leq) && s != []
    ensures SortedBy(s[1..], leq) && forall y :: y in s[1..] ==> leq(s[0], y)
  {
  }

  lemma {:induction false} InsertSorts<T(!new)>(x: T, s: seq<T>, leq: (T, T) -> bool)
    requires TotalPreorder(leq) && SortedBy(s, leq)
    ensures SortedBy(Insert(x, s, leq), leq)
  {
    if s == [] {
    } else if leq(x, s[0]) {
      SortedTail(s, leq);
      forall y | y in s ensures leq(x, y) {
        assert y == s[0] || y in s[1..];
      }
      SortedCons(x, s, leq);
    } else {
      SortedTail(s, leq);
      InsertSorts(x, s[1..], leq);
      InsertPermutes(x, s[1..], leq);
      forall y | y in Insert(x, s[1..], leq) ensures leq(s[0], y) {
        assert y in multiset(Insert(x, s[1..], leq));
        assert y == x || y in s[1..];
      }
      SortedCons(s[0], Insert(x, s[1..], leq), leq);
    }
  }

  lemma {:induction false} SortSorts<T(!new)>(s: seq<T>, leq: (T, T) -> bool)
    requires TotalPreorder(leq)
    ensures SortedBy(StableSort(s, leq), leq)
  {
    if s == [] {
    } else {
      SortSorts(s[1..], leq);
      InsertSorts(s[0], StableSort(s[1..], leq), leq);
    }
  }

  lemma FilterCons<T>(x: T, s: seq<T>, p: T -> bool)
    ensures Filter([x] + s, p) == (if p(x) then [x] else []) + Filter(s, p)
  {
    assert ([x] + s)[1..] == s;
  }

  lemma {:induction false} InsertFilter<T>(x: T, s: seq<T>, leq: (T, T) -> bool, p: T -> bool)
    requires forall y :: y in s && p(x) && p(y) ==> leq(x, y)
    ensures Filter(Insert(x, s, leq), p) == (if p(x) then [x] else []) + Filter(s, p)
  {
    FilterCons(x, s, p);
    if s == [] || leq(x, s[0]) {
    } else {
      assert s[0] in s;
      InsertFilter(x, s[1..], leq, p);
      FilterCons(s[0], Insert(x, s[1..], leq), p);
      if p(s[0]) {
        Units(Filter(s[1..], p));
        Units(Filter(s, p));
      } else {
        Units((if p(x) then [x] else []) + Filter(s[1..], p));
        Units(Filter(s[1..], p));
      }
    }
  }

  /** Elements that compare equal keep their order: a property that only holds among equals selects
      the same subsequence before and after. */
  lemma {:induction false} SortFilter<T>(s: seq<T>, leq: (T, T) -> bool, p: T -> bool)
    requires forall x, y :: x in s && y in s && p(x) && p(y) ==> leq(x, y)
    ensures Filter(StableSort(s, leq), p) == Filter(s, p)
  {
    if s == [] {
    } else {
      SortFilter(s[1..], leq, p);
      SortPermutes(s[1..], leq);
      var t := StableSort(s[1..], leq);
      forall y | y in t && p(s[0]) && p(y) ensures leq(s[0], y) {
        assert y in multiset(t) && y in s[1..];
        assert s[0] in s && y in s;
      }
      InsertFilter(s[0], t, leq, p);
    }
  }

  // ---------- uniqueness ----------

  predicate Same<T>(x: T, y: T, leq: (T, T) -> bool) {
    leq(x, y) && leq(y, x)
  }

  /** The elements of s that compare equal to x, in order. */
  function Class<T>(s: seq<T>, x: T, leq: (T, T) -> bool): seq<T> {
    Filter(s, y => Same(x, y, leq))
  }

  /** out is sorted and keeps every class of equal elements of base in order. */
  ghost predicate StablySorts<T(!new)>(base: seq<T>, out: seq<T>, leq: (T, T) -> bool) {
    SortedBy(out, leq) && forall x :: Class(out, x, leq) == Class(base, x, leq)
  }

  lemma SortStablySorts<T(!new)>(s: seq<T>, leq: (T, T) -> bool)
    requires TotalPreorder(leq)
    ensures StablySorts(s, StableSort(s, leq), leq)
  {
    SortSorts(s, leq);
    forall x ensures Class(StableSort(s, leq), x, leq) == Class(s, x, leq) {
      SortFilter(s, leq, y => Same(x, y, leq));
    }
  }

  lemma ClassHead<T(!new)>(s: seq<T>, x: T, leq: (T, T) -> bool)
    requires s != []
    ensures Class(s, x, leq) == (if Same(x, s[0], leq) then [s[0]] else []) + Class(s[1..], x, leq)
  {
  }

  /** The first of one sorted list is among the other's, and not before its first. */
  lemma HeadsCompare<T(!new)>(a: seq<T>, b: seq<T>, leq: (T, T) -> bool)
    requires TotalPreorder(leq) && SortedBy(b, leq) && a != []
    requires Class(a, a[0], leq) == Class(b, a[0], leq)
    ensures b != [] && leq(b[0], a[0])
  {
    ClassHead(a, a[0], leq);
    FilterMembers(b, y => Same(a[0], y, leq));
    assert a[0] in Class(a, a[0], leq);
    var i :| 0 <= i < |b| && b[i] == a[0];
  }

  /** There is only one stable sort. */
  lemma {:induction false} StableSortUnique<T(!new)>(a: seq<T>, b: seq<T>, leq: (T, T) -> bool)
    requires TotalPreorder(leq) && SortedBy(a, leq) && SortedBy(b, leq)
    requires forall x :: Class(a, x, leq) == Class(b, x, leq)
    ensures a == b
  {
    if a != [] {
      HeadsCompare(a, b, leq);
      HeadsCompare(b, a, leq);
      ClassHead(a, a[0], leq);
      ClassHead(b, a[0], leq);
      assert Class(a, a[0], leq)[0] == a[0];
      assert Class(b, a[0], leq)[0] == b[0];
      SortedTail(a, leq);
      SortedTail(b, leq);
      forall x ensures Class(a[1..], x, leq) == Class(b[1..], x, leq) {
        ClassHead(a, x, leq);
        ClassHead(b, x, leq);
        DropCommon(if Same(x, a[0], leq) then [a[0]] else [], Class(a[1..], x, leq), Class(b[1..], x, leq));
      }
      StableSortUnique(a[1..], b[1..], leq);
      assert a == [a[0]] + a[1..] && b == [b[0]] + b[1..];
    } else if b != [] {
      HeadsCompare(b, a, leq);
    }
  }

  /** Sorting leaves a list as it is exactly when it is sorted. */
  lemma SortedIsFixed<T(!new)>(s: seq<T>, leq: (T, T) -> bool)
    requires TotalPreorder(leq)
    ensures StableSort(s, leq) == s <==> SortedBy(s, leq)
  {
    SortStablySorts(s, leq);
    if SortedBy(s, leq) {
      StableSortUnique(StableSort(s, leq), s, leq);
    }
  }

  lemma DropCommon<T>(h: seq<T>, a: seq<T>, b: seq<T>)
    requires h + a == h + b
    ensures a == b
  {
    assert a == (h + a)[|h|..] && b == (h + b)[|h|..];
  }

  // ---------- sorts in steps ----------

  function Not<T>(p: T -> bool): T -> bool {
    x => !p(x)
  }

  function And<T>(p: T -> bool, q: T -> bool): T -> bool {
    x => p(x) && q(x)
  }

  function Or<T>(p: T -> bool, q: T -> bool): T -> bool {
    x => p(x) || q(x)
  }

  /** By the first order, ties by the second. */
  function Lex<T>(first: (T, T) -> bool, second: (T, T) -> bool): (T, T) -> bool {
    (x, y) => first(x, y) && (first(y, x) ==> second(x, y))
  }

  /** Elements that are equal in the first order stand in the second order. */
  predicate TiesOrdered<T>(s: seq<T>, first: (T, T) -> bool, second: (T, T) -> bool) {
    forall i, j :: 0 <= i < j < |s| && Same(s[i], s[j], first) ==> second(s[i], s[j])
  }

  lemma {:induction false} InsertLex<T(!new)>(x: T, s: seq<T>, first: (T, T) -> bool, second: (T, T) -> bool)
    requires TotalPreorder(first) && SortedBy(s, Lex(first, second))
    requires forall y :: y in s && Same(x, y, first) ==> second(x, y)
    ensures SortedBy(Insert(x, s, first), Lex(first, second))
  {
    var leq := Lex(first, second);
    if s == [] {
    } else if first(x, s[0]) {
      SortedTail(s, leq);
      forall y | y in s ensures leq(x, y) {
        assert y == s[0] || y in s[1..];
        assert y in s[1..] ==> leq(s[0], y);
      }
      SortedCons(x, s, leq);
    } else {
      SortedTail(s, leq);
      InsertLex(x, s[1..], first, second);
      InsertPermutes(x, s[1..], first);
      forall y | y in Insert(x, s[1..], first) ensures leq(s[0], y) {
        assert y in multiset(Insert(x, s[1..], first));
        assert y == x || y in s[1..];
      }
      SortedCons(s[0], Insert(x, s[1..], first), leq);
    }
  }

  /** Sorting again by a more important order keeps the earlier order among ties. */
  lemma {:induction false} SortLex<T(!new)>(s: seq<T>, first: (T, T) -> bool, second: (T, T) -> bool)
    requires TotalPreorder(first) && TiesOrdered(s, first, second)
    ensures SortedBy(StableSort(s, first), Lex(first, second))
  {
    if s == [] {
    } else {
      assert TiesOrdered(s[1..], first, second);
      SortLex(s[1..], first, second);
      SortMembers(s[1..], first);
      forall y | y in StableSort(s[1..], first) && Same(s[0], y, first) ensures second(s[0], y) {
        var j :| 0 <= j < |s[1..]| && s[1..][j] == y;
        assert s[j + 1] == y;
      }
      InsertLex(s[0], StableSort(s[1..], first), first, second);
    }
  }

  lemma {:induction false} FilterSorted<T(!new)>(s: seq<T>, leq: (T, T) -> bool, p: T -> bool)
    requires SortedBy(s, leq)
    ensures SortedBy(Filter(s, p), leq)
  {
    if s == [] {
    } else {
      SortedTail(s, leq);
      FilterSorted(s[1..], leq, p);
      FilterMembers(s[1..], p);
      if p(s[0]) {
        SortedCons(s[0], Filter(s[1..], p), leq);
      }
    }
  }

  lemma SortedAppend<T>(a: seq<T>, b: seq<T>, leq: (T, T) -> bool)
    requires SortedBy(a, leq) && SortedBy(b, leq)
    requires forall x, y :: x in a && y in b ==> leq(x, y)
    ensures SortedBy(a + b, leq)
  {
  }

  /** p does not tell apart elements that compare equal. */
  ghost predicate Respects<T(!new)>(p: T -> bool, leq: (T, T) -> bool) {
    forall x, y :: Same(x, y, leq) ==> p(x) == p(y)
  }

  /** part holds, of every class of equal elements of base that satisfies q, all of it in its order,
      and nothing else. */
  ghost predicate Keeps<T(!new)>(part: seq<T>, base: seq<T>, q: T -> bool, leq: (T, T) -> bool) {
    forall x :: Class(part, x, leq) == if q(x) then Class(base, x, leq) else []
  }

  lemma KeepsMembers<T(!new)>(part: seq<T>, base: seq<T>, q: T -> bool, leq: (T, T) -> bool)
    requires TotalPreorder(leq) && Keeps(part, base, q, leq)
    ensures forall x :: x in part ==> q(x)
  {
    forall x | x in part ensures q(x) {
      FilterMembers(part, y => Same(x, y, leq));
      assert x in Class(part, x, leq);
    }
  }

  lemma KeepsFilter<T(!new)>(part: seq<T>, base: seq<T>, q: T -> bool, p: T -> bool, leq: (T, T) -> bool)
    requires Keeps(part, base, q, leq) && Respects(p, leq)
    ensures Keeps(Filter(part, p), base, And(q, p), leq)
  {
    forall x ensures Class(Filter(part, p), x, leq) == if And(q, p)(x) then Class(base, x, leq) else [] {
      if p(x) {
        FilterFilter(part, y => Same(x, y, leq), p);
      } else {
        FilterMembers(part, p);
        FilterNone(Filter(part, p), y => Same(x, y, leq));
      }
    }
  }

  lemma KeepsSort<T(!new)>(part: seq<T>, base: seq<T>, q: T -> bool, first: (T, T) -> bool, leq: (T, T) -> bool)
    requires TotalPreorder(leq) && Keeps(part, base, q, leq)
    requires forall x, y :: Same(x, y, leq) ==> first(x, y)
    ensures Keeps(StableSort(part, first), base, q, leq)
  {
    forall x ensures Class(StableSort(part, first), x, leq) == Class(part, x, leq) {
      forall y, z | Same(x, y, leq) && Same(x, z, leq) ensures first(y, z) {
        assert Same(y, z, leq);
      }
      SortFilter(part, first, y => Same(x, y, leq));
    }
  }

  lemma KeepsAppend<T(!new)>(a: seq<T>, b: seq<T>, base: seq<T>, p: T -> bool, q: T -> bool, leq: (T, T) -> bool)
    requires Keeps(a, base, p, leq) && Keeps(b, base, q, leq)
    requires forall x :: !(p(x) && q(x))
    ensures Keeps(a + b, base, Or(p, q), leq)
  {
    forall x ensures Class(a + b, x, leq) == if Or(p, q)(x) then Class(base, x, leq) else [] {
      FilterAppend(a, b, y => Same(x, y, leq));
      Units(Class(a, x, leq));
      Units(Class(b, x, leq));
    }
  }

  /** A sorted list that keeps all of base is its stable sort. */
  lemma KeepsAllIsSort<T(!new)>(out: seq<T>, base: seq<T>, q: T -> bool, leq: (T, T) -> bool)
    requires TotalPreorder(leq) && SortedBy(out, leq) && Keeps(out, base, q, leq)
    requires forall x :: q(x)
    ensures out == StableSort(base, leq)
  {
    SortStablySorts(base, leq);
    StableSortUnique(out, StableSort(base, leq), leq);
  }
}
