/** Percentiles of measurements (percentile in src/localgateway/usage.py), over exact reals. */
module Usage {
  import opened Wrappers
  import opened Sorting

  function AtMost(a: real, b: real): bool {
    a <= b
  }

  /** Python's round(x, 2): to the nearest hundredth, halves to the even neighbour. */
  function Round2(x: real): real {
    var f := (x * 100.0).Floor;
    var d := x * 100.0 - f as real;
    (if d < 0.5 || (d == 0.5 && f % 2 == 0) then f else f + 1) as real / 100.0
  }

  lemma Round2Monotone(x: real, y: real)
    requires x <= y
    ensures Round2(x) <= Round2(y)
  {
    var a, b := (x * 100.0).Floor, (y * 100.0).Floor;
    assert a <= b;
  }

  function Product(w: real, t: real): real {
    w * t
  }

  /** The point a share t of the way from a to b. */
  function Blend(a: real, b: real, t: real): real {
    a + Product(b - a, t)
  }

  /** The interpolated value at rank k of a sorted list. */
  function AtRank(s: seq<real>, k: real): real
    requires s != [] && 0.0 <= k <= (|s| - 1) as real
  {
    var f := k.Floor;
    var c := if f + 1 < |s| - 1 then f + 1 else |s| - 1;
    if f == c then s[f] else Blend(s[f], s[c], k - f as real)
  }

  /** The rank of percentile p among n values. */
  function Rank(n: nat, p: real): (k: real)
    requires n > 0 && 0.0 <= p <= 1.0
    ensures 0.0 <= k <= (n - 1) as real
  {
    ProductGrows((n - 1) as real, 0.0, p);
    ProductGrows((n - 1) as real, p, 1.0);
    Product((n - 1) as real, p)
  }

  function Percentile(values: seq<real>, p: real): Option<real>
    requires 0.0 <= p <= 1.0
  {
    if values == [] then None
    else
      SortMembers(values, AtMost);
      Some(OfSorted(StableSort(values, AtMost), p))
  }

  function OfSorted(s: seq<real>, p: real): real
    requires s != [] && 0.0 <= p <= 1.0
  {
    Round2(AtRank(s, Rank(|s|, p)))
  }

  lemma ProductGrows(w: real, t: real, u: real)
    requires w >= 0.0 && t <= u
    ensures Product(w, t) <= Product(w, u)
    ensures Product(w, 0.0) == 0.0 && Product(w, 1.0) == w
  {
  }

  lemma Between(a: real, b: real, t: real)
    requires a <= b && 0.0 <= t <= 1.0
    ensures a <= Blend(a, b, t) <= b
  {
    ProductGrows(b - a, 0.0, t);
    ProductGrows(b - a, t, 1.0);
  }

  lemma Along(a: real, b: real, t: real, u: real)
    requires a <= b && t <= u
    ensures Blend(a, b, t) <= Blend(a, b, u)
  {
    ProductGrows(b - a, t, u);
  }

  /** A value at a rank lies between its two neighbours in the list. */
  lemma AtRankBetween(s: seq<real>, k: real)
    requires SortedBy(s, AtMost) && s != [] && 0.0 <= k <= (|s| - 1) as real
    ensures s[k.Floor] <= AtRank(s, k)
    ensures k.Floor + 1 < |s| ==> AtRank(s, k) <= s[k.Floor + 1]
    ensures AtRank(s, k) <= s[|s| - 1]
  {
    var f := k.Floor;
    if f + 1 < |s| {
      assert AtMost(s[f], s[f + 1]);
      Between(s[f], s[f + 1], k - f as real);
      assert f + 1 < |s| - 1 ==> AtMost(s[f + 1], s[|s| - 1]);
    }
  }

  lemma AtRankMonotone(s: seq<real>, k: real, l: real)
    requires SortedBy(s, AtMost) && s != [] && 0.0 <= k <= l <= (|s| - 1) as real
    ensures AtRank(s, k) <= AtRank(s, l)
  {
    var f, g := k.Floor, l.Floor;
    AtRankBetween(s, k);
    AtRankBetween(s, l);
    if f == g {
      if f + 1 < |s| {
        assert AtMost(s[f], s[f + 1]);
        Along(s[f], s[f + 1], k - f as real, l - f as real);
      }
    } else {
      assert f + 1 <= g;
      assert f + 1 < g ==> AtMost(s[f + 1], s[g]);
    }
  }

  lemma AtMostIsOrder()
    ensures TotalPreorder(AtMost)
  {
  }

  lemma RankMonotone(n: nat, p: real, q: real)
    requires n > 0 && 0.0 <= p <= q <= 1.0
    ensures Rank(n, p) <= Rank(n, q)
    ensures Rank(n, 0.0) == 0.0 && Rank(n, 1.0) == (n - 1) as real
  {
    ProductGrows((n - 1) as real, p, q);
  }

  lemma OfSortedMonotone(s: seq<real>, p: real, q: real)
    requires SortedBy(s, AtMost) && s != [] && 0.0 <= p <= q <= 1.0
    ensures OfSorted(s, p) <= OfSorted(s, q)
    ensures OfSorted(s, 0.0) == Round2(s[0]) && OfSorted(s, 1.0) == Round2(s[|s| - 1])
  {
    RankMonotone(|s|, p, q);
    AtRankMonotone(s, Rank(|s|, p), Rank(|s|, q));
    Round2Monotone(AtRank(s, Rank(|s|, p)), AtRank(s, Rank(|s|, q)));
    AtRankEnds(s);
  }

  lemma AtRankEnds(s: seq<real>)
    requires s != []
    ensures AtRank(s, 0.0) == s[0] && AtRank(s, (|s| - 1) as real) == s[|s| - 1]
  {
    assert (0.0).Floor == 0 && ((|s| - 1) as real).Floor == |s| - 1;
    if |s| > 1 {
      assert AtRank(s, 0.0) == Blend(s[0], s[1], 0.0);
      ProductIsZero(s[1] - s[0]);
    }
  }

  lemma ProductIsZero(w: real)
    ensures Product(w, 0.0) == 0.0
  {
  }

  /** r is x to two places: a whole number of hundredths, none being nearer to x, and of two that are equally
      near the even one. */
  predicate Rounds(r: real, x: real) {
    var n := (r * 100.0).Floor;
    var off := x * 100.0 - n as real;
    r * 100.0 == n as real && (-0.5 < off < 0.5 || ((off == 0.5 || off == -0.5) && n % 2 == 0))
  }

  lemma Round2Rounds(x: real)
    ensures Rounds(Round2(x), x)
  {
    var f := (x * 100.0).Floor;
    var n := (Round2(x) * 100.0).Floor;
    assert n == f || n == f + 1;
  }

  /** Whichever way the values are put in order, the percentile is the value that lies the share t of the way
      between two neighbours, where p reaches the rank f + t of them, counted from 0; rounded. */
  lemma PercentileInterpolates(values: seq<real>, s: seq<real>, p: real, f: nat, t: real)
    requires multiset(s) == multiset(values) && (forall i, j :: 0 <= i < j < |s| ==> s[i] <= s[j])
    requires 0.0 <= p <= 1.0 && values != [] && f < |s| && 0.0 <= t < 1.0
    requires f as real + t == p * (|s| - 1) as real
    ensures Rounds(Percentile(values, p).value, if f + 1 < |s| then s[f] + t * (s[f + 1] - s[f]) else s[f])
  {
    SortIsSorted(values, s);
    assert Rank(|s|, p) == f as real + t;
    RankSplits(f, t);
    AtRankIsBlend(s, f, t);
    Round2Rounds(AtRank(s, Rank(|s|, p)));
  }

  lemma RankSplits(f: nat, t: real)
    requires 0.0 <= t < 1.0
    ensures (f as real + t).Floor == f
  {
  }

  lemma AtRankIsBlend(s: seq<real>, f: nat, t: real)
    requires f < |s| && 0.0 <= t < 1.0 && f as real + t <= (|s| - 1) as real
    ensures AtRank(s, f as real + t) == if f + 1 < |s| then s[f] + t * (s[f + 1] - s[f]) else s[f]
  {
    RankSplits(f, t);
  }

  lemma SortIsSorted(values: seq<real>, s: seq<real>)
    requires multiset(s) == multiset(values) && (forall i, j :: 0 <= i < j < |s| ==> s[i] <= s[j])
    ensures StableSort(values, AtMost) == s
  {
    AtMostIsOrder();
    SortSorts(values, AtMost);
    SortPermutes(values, AtMost);
    SortedListsEqual(StableSort(values, AtMost), s);
  }

  /** A higher percentile is never smaller. */
  lemma PercentileMonotone(values: seq<real>, p: real, q: real)
    requires values != [] && 0.0 <= p <= q <= 1.0
    ensures Percentile(values, p).value <= Percentile(values, q).value
  {
    AtMostIsOrder();
    SortSorts(values, AtMost);
    SortMembers(values, AtMost);
    OfSortedMonotone(StableSort(values, AtMost), p, q);
  }

  /** p99 >= p90 >= p50, always. */
  lemma ReportedPercentilesOrdered(values: seq<real>)
    requires values != []
    ensures Percentile(values, 0.50).value <= Percentile(values, 0.90).value <= Percentile(values, 0.99).value
  {
    PercentileMonotone(values, 0.50, 0.90);
    PercentileMonotone(values, 0.90, 0.99);
  }

  /** Every percentile lies between the rounded smallest and largest value, which are the
      percentiles 0 and 1. */
  lemma PercentileInRange(values: seq<real>, p: real, lo: real, hi: real)
    requires 0.0 <= p <= 1.0 && lo in values && hi in values
    requires forall v :: v in values ==> lo <= v <= hi
    ensures Round2(lo) <= Percentile(values, p).value <= Round2(hi)
    ensures Percentile(values, 0.0).value == Round2(lo) && Percentile(values, 1.0).value == Round2(hi)
  {
    var s := StableSort(values, AtMost);
    AtMostIsOrder();
    SortSorts(values, AtMost);
    SortMembers(values, AtMost);
    assert s[0] in s && s[|s| - 1] in s;
    assert s[0] == lo by {
      var i :| 0 <= i < |s| && s[i] == lo;
      assert i > 0 ==> AtMost(s[0], s[i]);
    }
    assert s[|s| - 1] == hi by {
      var i :| 0 <= i < |s| && s[i] == hi;
      assert i < |s| - 1 ==> AtMost(s[i], s[|s| - 1]);
    }
    OfSortedMonotone(s, 0.0, p);
    OfSortedMonotone(s, p, 1.0);
  }

  /** Rounding can leave the range: the percentiles of a single small measurement are 0. */
  lemma PercentileLeavesRange(p: real)
    requires 0.0 <= p <= 1.0
    ensures Percentile([0.001], p) == Some(0.0)
  {
    PercentileInRange([0.001], p, 0.001, 0.001);
    assert (0.001 * 100.0).Floor == 0;
  }

  /** Percentiles stay between the smallest and the largest value exactly when neither of these is
      rounded outwards. */
  lemma PercentilesInRangeExactly(values: seq<real>, lo: real, hi: real)
    requires lo in values && hi in values && forall v :: v in values ==> lo <= v <= hi
    ensures (forall p :: 0.0 <= p <= 1.0 ==> lo <= Percentile(values, p).value <= hi)
      <==> lo <= Round2(lo) && Round2(hi) <= hi
  {
    PercentileInRange(values, 0.0, lo, hi);
    forall p | 0.0 <= p <= 1.0 ensures Round2(lo) <= Percentile(values, p).value <= Round2(hi) {
      PercentileInRange(values, p, lo, hi);
    }
    if forall p :: 0.0 <= p <= 1.0 ==> lo <= Percentile(values, p).value <= hi {
      assert lo <= Percentile(values, 0.0).value && Percentile(values, 1.0).value <= hi;
    }
  }

  lemma SortedHeadIsLeast(a: seq<real>, v: real)
    requires SortedBy(a, AtMost) && v in a
    ensures a[0] <= v
  {
  }

  lemma SameMembers(a: seq<real>, b: seq<real>)
    requires multiset(a) == multiset(b)
    ensures |a| == |b| && forall v :: v in a <==> v in b
  {
    assert |a| == |multiset(a)| && |b| == |multiset(b)|;
    forall v ensures v in a <==> v in b {
      assert v in a <==> v in multiset(a);
      assert v in b <==> v in multiset(b);
    }
  }

  lemma SameTails(a: seq<real>, b: seq<real>)
    requires multiset(a) == multiset(b) && a != [] && b != [] && a[0] == b[0]
    ensures multiset(a[1..]) == multiset(b[1..])
  {
    assert a == [a[0]] + a[1..] && b == [b[0]] + b[1..];
    assert multiset(a[1..]) == multiset(a) - multiset{a[0]};
    assert multiset(b[1..]) == multiset(b) - multiset{b[0]};
  }

  /** Two sorted lists of the same values are the same list. */
  lemma {:induction false} SortedListsEqual(a: seq<real>, b: seq<real>)
    requires SortedBy(a, AtMost) && SortedBy(b, AtMost) && multiset(a) == multiset(b)
    ensures a == b
  {
    SameMembers(a, b);
    if a == [] {
    } else {
      SortedHeadIsLeast(a, b[0]);
      SortedHeadIsLeast(b, a[0]);
      SameTails(a, b);
      SortedTail(a, AtMost);
      SortedTail(b, AtMost);
      SortedListsEqual(a[1..], b[1..]);
      assert a == [a[0]] + a[1..] && b == [b[0]] + b[1..];
    }
  }

  lemma SortIgnoresOrder(values: seq<real>, shuffled: seq<real>)
    requires multiset(values) == multiset(shuffled)
    ensures StableSort(values, AtMost) == StableSort(shuffled, AtMost)
  {
    AtMostIsOrder();
    SortSorts(values, AtMost);
    SortSorts(shuffled, AtMost);
    SortPermutes(values, AtMost);
    SortPermutes(shuffled, AtMost);
    SortedListsEqual(StableSort(values, AtMost), StableSort(shuffled, AtMost));
  }

  /** The order in which measurements were taken does not matter. */
  lemma PercentileIgnoresOrder(values: seq<real>, shuffled: seq<real>, p: real)
    requires multiset(values) == multiset(shuffled) && 0.0 <= p <= 1.0
    ensures Percentile(values, p) == Percentile(shuffled, p)
  {
    SameMembers(values, shuffled);
    SortIgnoresOrder(values, shuffled);
  }
}
