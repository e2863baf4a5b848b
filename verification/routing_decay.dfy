/** With what probability the draw of the tiers' order puts each tier first, for every decay
    (src/localgateway/router.py:588-610). */
module RoutingDecay {
  import opened Wrappers
  import opened Sequences
  import opened Routing
  import opened RoutingLaws
  import opened RoutingDraws

  // ---------- draws by weights of any sign ----------

  /** No running total up to that of the first i weights exceeds pick. */
  predicate NoneExceeds(ws: seq<real>, pick: real, i: nat)
    requires i <= |ws|
  {
    forall j :: 0 <= j <= i ==> Sum(ws[..j]) <= pick
  }

  lemma NoneExceedsFirst(ws: seq<real>, pick: real, i: nat)
    requires 0 < i <= |ws| && pick >= 0.0
    ensures NoneExceeds(ws, pick, i) <==> ws[0] <= pick && NoneExceeds(ws[1..], pick - ws[0], i - 1)
  {
    forall j | 0 < j <= i ensures Sum(ws[..j]) == ws[0] + Sum(ws[1..][..j - 1]) {
      TailOfPrefix(ws, j);
    }
    assert Sum(ws[1..][..0]) == 0.0;
    if ws[0] <= pick && NoneExceeds(ws[1..], pick - ws[0], i - 1) {
      forall j | 0 <= j <= i ensures Sum(ws[..j]) <= pick {
        if j > 0 {
          assert Sum(ws[1..][..j - 1]) <= pick - ws[0];
        }
      }
    }
    if NoneExceeds(ws, pick, i) {
      assert Sum(ws[..1]) <= pick;
      forall j | 0 <= j <= i - 1 ensures Sum(ws[1..][..j]) <= pick - ws[0] {
        assert Sum(ws[..j + 1]) <= pick;
      }
    }
  }

  /** The draw falls on i exactly when the running total after i is the first to exceed pick. */
  lemma {:induction false} DrawnFirst(ws: seq<real>, pick: real, i: nat)
    requires pick >= 0.0 && i < |ws|
    ensures Drawn(ws, pick) == i <==> NoneExceeds(ws, pick, i) && pick < Sum(ws[..i + 1])
  {
    TailOfPrefix(ws, i + 1);
    assert ws[..0] == [];
    if i == 0 {
      assert ws[..1][1..] == [];
    } else {
      NoneExceedsFirst(ws, pick, i);
      if pick >= ws[0] {
        DrawnFirst(ws[1..], pick - ws[0], i - 1);
      }
    }
  }

  // ---------- cumulated probabilities ----------

  function Total(x: real, n: nat): real {
    Sum(Powers(x, 0, n))
  }

  function Quotient(a: real, t: real): real
    requires t != 0.0
  {
    a / t
  }

  /** The cumulated probability of the first j of n tiers. */
  function Reach(x: real, j: nat, n: nat): real
    requires Total(x, n) != 0.0
  {
    Quotient(Total(x, j), Total(x, n))
  }

  lemma QuotientAdds(a: real, b: real, t: real)
    requires t != 0.0
    ensures Quotient(a + b, t) == Quotient(a, t) + Quotient(b, t)
    ensures Quotient(0.0, t) == 0.0 && Quotient(t, t) == 1.0
  {
    QuotientTimes(a, t);
    QuotientTimes(b, t);
    QuotientTimes(a + b, t);
    PartSum(Quotient(a, t), Quotient(b, t), t);
    SameQuotient(Quotient(a + b, t), Quotient(a, t) + Quotient(b, t), t);
  }

  lemma PartSum(p: real, q: real, t: real)
    ensures Part(p + q, t) == Part(p, t) + Part(q, t)
  {
  }

  lemma QuotientTimes(a: real, t: real)
    requires t != 0.0
    ensures Part(Quotient(a, t), t) == a
  {
  }

  lemma SameQuotient(p: real, q: real, t: real)
    requires t != 0.0 && Part(p, t) == Part(q, t)
    ensures p == q
  {
    assert (p - q) * t == 0.0;
  }

  lemma QuotientOrders(a: real, b: real, t: real)
    requires t != 0.0 && (if t > 0.0 then a <= b else a >= b)
    ensures Quotient(a, t) <= Quotient(b, t)
  {
  }

  lemma {:induction false} SumDivided(ws: seq<real>, t: real, j: nat)
    requires t != 0.0 && j <= |ws|
    ensures Sum(Divided(ws, t)[..j]) == Quotient(Sum(ws[..j]), t)
  {
    QuotientAdds(0.0, 0.0, t);
    if j == 0 {
    } else {
      TailOfPrefix(ws, j);
      TailOfPrefix(Divided(ws, t), j);
      SumDivided(ws[1..], t, j - 1);
      QuotientAdds(ws[0], Sum(ws[1..][..j - 1]), t);
    }
  }

  lemma ReachIsSum(x: real, n: nat, j: nat)
    requires Total(x, n) != 0.0 && j <= n
    ensures Sum(Divided(Powers(x, 0, n), Total(x, n))[..j]) == Reach(x, j, n)
  {
    SumDivided(Powers(x, 0, n), Total(x, n), j);
    PowersPrefix(x, j, n);
  }

  /** Tier i comes first exactly when its cumulated probability is the first to exceed u. */
  lemma SampledFirst(keys: seq<int>, x: real, u: real, i: nat)
    requires Once(keys) && i < |keys| && 0.0 <= u < 1.0 && Total(x, |keys|) != 0.0
    ensures Sampled(keys, x, u)[0] == keys[i]
      <==> (forall j :: 0 <= j <= i ==> Reach(x, j, |keys|) <= u) && u < Reach(x, i + 1, |keys|)
  {
    var n := |keys|;
    var ps := Divided(Powers(x, 0, n), Total(x, n));
    forall j | 0 <= j <= n ensures Sum(ps[..j]) == Reach(x, j, n) {
      ReachIsSum(x, n, j);
    }
    QuotientAdds(0.0, 0.0, Total(x, n));
    assert ps[..n] == ps;
    DrawnFalls(ps, u);
    DrawnFirst(ps, u, i);
    OnceIndex(keys, i, Drawn(ps, u));
  }

  // ---------- the totals of powers ----------

  lemma TotalSnoc(x: real, i: nat)
    ensures Total(x, i + 1) == Total(x, i) + Pow(x, i)
  {
    PowersPrefix(x, i, i + 1);
    PowerAt(x, 0, i + 1, i);
    SnocSplit(Powers(x, 0, i + 1));
    SumSnoc(Powers(x, 0, i), Pow(x, i));
  }

  lemma {:induction false} Horner(x: real, i: nat)
    ensures Total(x, i + 1) == 1.0 + Part(x, Total(x, i))
  {
    TotalSnoc(x, i);
    if i == 0 {
      assert Part(x, 0.0) == 0.0;
    } else {
      Horner(x, i - 1);
      TotalSnoc(x, i - 1);
      PartAdds(x, Total(x, i - 1), Pow(x, i - 1));
    }
  }

  lemma PartAdds(x: real, a: real, b: real)
    ensures Part(x, a + b) == Part(x, a) + Part(x, b)
    ensures Part(x, a - b) == Part(x, a) - Part(x, b)
  {
  }

  lemma {:induction false} TotalGrows(x: real, i: nat, j: nat)
    requires x >= 0.0 && i <= j
    ensures Total(x, i) <= Total(x, j) && (j > 0 ==> Total(x, j) >= 1.0)
    decreases j
  {
    if i == j {
      if j > 0 {
        TotalGrows(x, j - 1, j - 1);
        TotalSnoc(x, j - 1);
        PowNonNegative(x, j - 1);
      }
    } else {
      TotalGrows(x, i, j - 1);
      TotalSnoc(x, j - 1);
      PowNonNegative(x, j - 1);
    }
  }

  lemma SmallPart(x: real, s: real)
    requires -1.0 <= x < 0.0 && 0.0 <= s <= 1.0
    ensures -1.0 <= Part(x, s) <= 0.0
  {
    NonNegativePart(x + 1.0, s);
    NonNegativePart(-x, s);
  }

  lemma NonNegativePart(a: real, s: real)
    requires a >= 0.0 && s >= 0.0
    ensures a * s >= 0.0
  {
  }

  /** A decay of -1 or more and below 0 keeps every total between 0 and 1. */
  lemma {:induction false} TotalStaysSmall(x: real, n: nat)
    requires -1.0 <= x < 0.0
    ensures 0.0 <= Total(x, n) <= 1.0
  {
    if n == 0 {
    } else {
      TotalStaysSmall(x, n - 1);
      Horner(x, n - 1);
      SmallPart(x, Total(x, n - 1));
    }
  }

  lemma LargePart(x: real, s: real)
    requires x < -1.0
    ensures s >= 1.0 ==> Part(x, s) < -1.0
    ensures s <= 0.0 ==> Part(x, s) >= 0.0
    ensures s > 0.0 ==> Part(x, s) < 0.0
    ensures s < 0.0 ==> Part(x, s) > 0.0
  {
  }

  /** Two neighbouring totals for a decay below -1, and what comes next. */
  lemma NextTotals(x: real, even: real, odd: real)
    requires x < -1.0 && even <= 0.0 && odd == 1.0 + Part(x, even)
    ensures odd >= 1.0 && 1.0 + Part(x, odd) < 0.0
  {
    LargePart(x, even);
    LargePart(x, odd);
  }

  lemma {:induction false} TotalsByPairs(x: real, k: nat)
    requires x < -1.0
    ensures Total(x, 2 * k) <= 0.0 && Total(x, 2 * k + 1) >= 1.0
    ensures Total(x, 2 * k + 2) < Total(x, 2 * k) && Total(x, 2 * k + 3) > Total(x, 2 * k + 1)
  {
    var n := 2 * k;
    Horner(x, n);
    Horner(x, n + 1);
    Horner(x, n + 2);
    if k == 0 {
      assert Part(x, 0.0) == 0.0;
    } else {
      TotalsByPairs(x, k - 1);
      Horner(x, n - 1);
      PartAdds(x, Total(x, n + 1), Total(x, n - 1));
      LargePart(x, Total(x, n + 1) - Total(x, n - 1));
    }
    NextTotals(x, Total(x, n), Total(x, n + 1));
    PartAdds(x, Total(x, n + 2), Total(x, n));
    LargePart(x, Total(x, n + 2) - Total(x, n));
  }

  /** A decay below -1 makes totals alternate in sign and grow in size. */
  lemma TotalsAlternate(x: real, n: nat)
    requires x < -1.0
    ensures if n % 2 == 0 then Total(x, n) <= 0.0 else Total(x, n) >= 1.0
    ensures if n % 2 == 0 then Total(x, n + 2) < Total(x, n) else Total(x, n + 2) > Total(x, n)
  {
    var k := n / 2;
    TotalsByPairs(x, k);
    assert n == 2 * k || n == 2 * k + 1;
  }

  // ---------- the probabilities ----------

  lemma ReachSteps(x: real, i: nat, n: nat)
    requires Total(x, n) != 0.0
    ensures Reach(x, i + 1, n) - Reach(x, i, n) == Quotient(Pow(x, i), Total(x, n))
  {
    TotalSnoc(x, i);
    QuotientAdds(Total(x, i), Pow(x, i), Total(x, n));
  }

  lemma OrdinaryShare(keys: seq<int>, x: real, u: real, i: nat)
    requires Once(keys) && i < |keys| && 0.0 <= u < 1.0 && x >= 0.0
    ensures Total(x, |keys|) != 0.0
    ensures Sampled(keys, x, u)[0] == keys[i] <==> Reach(x, i, |keys|) <= u < Reach(x, i + 1, |keys|)
  {
    var n := |keys|;
    TotalGrows(x, n, n);
    SampledFirst(keys, x, u, i);
    forall j | 0 <= j <= i ensures Reach(x, j, n) <= Reach(x, i, n) {
      TotalGrows(x, j, i);
      QuotientOrders(Total(x, j), Total(x, i), Total(x, n));
    }
  }

  lemma FirstAlways(keys: seq<int>, x: real, u: real, i: nat)
    requires Once(keys) && i < |keys| && 0.0 <= u < 1.0 && -1.0 <= x < 0.0 && Total(x, |keys|) != 0.0
    ensures Sampled(keys, x, u)[0] == keys[i] <==> i == 0
  {
    var n := |keys|;
    TotalStaysSmall(x, n);
    SampledFirst(keys, x, u, i);
    QuotientAdds(0.0, 0.0, Total(x, n));
    Horner(x, 0);
    assert Part(x, 0.0) == 0.0 && Total(x, 0) == 0.0;
    QuotientOrders(Total(x, n), Total(x, 1), Total(x, n));
    assert Reach(x, 1, n) >= 1.0 && Reach(x, 0, n) == 0.0;
  }

  lemma AlternateReach(x: real, j: nat, n: nat)
    requires x < -1.0 && n > 0
    ensures Total(x, n) != 0.0
    ensures j % 2 != n % 2 ==> Reach(x, j, n) <= 0.0
    ensures j >= 2 && j % 2 == n % 2 ==> Reach(x, j - 2, n) <= Reach(x, j, n)
  {
    TotalsAlternate(x, n);
    TotalsAlternate(x, j);
    if n % 2 == 0 {
      TotalsAlternate(x, n - 2);
    }
    QuotientAdds(0.0, 0.0, Total(x, n));
    if j % 2 != n % 2 {
      QuotientOrders(Total(x, j), 0.0, Total(x, n));
    } else if j >= 2 {
      TotalsAlternate(x, j - 2);
      QuotientOrders(Total(x, j - 2), Total(x, j), Total(x, n));
    }
  }

  lemma {:induction false} ReachUpTo(x: real, j: nat, i: nat, n: nat)
    requires x < -1.0 && n > 0 && Total(x, n) != 0.0 && j <= i && j % 2 == n % 2 == i % 2
    ensures Reach(x, j, n) <= Reach(x, i, n)
    decreases i
  {
    if j == i {
    } else {
      AlternateReach(x, i, n);
      ReachUpTo(x, j, i - 2, n);
    }
  }

  lemma LowerReach(x: real, j: nat, i: nat, n: nat, u: real)
    requires x < -1.0 && n > 0 && Total(x, n) != 0.0 && 0.0 <= u && j <= i && i % 2 == (n - 1) % 2
    requires i > 0 ==> Reach(x, i - 1, n) <= u
    ensures Reach(x, j, n) <= u
  {
    AlternateReach(x, j, n);
    if j % 2 == n % 2 {
      assert i > 0 || j == 0;
      if i > 0 {
        ReachUpTo(x, j, i - 1, n);
      } else {
        QuotientAdds(0.0, 0.0, Total(x, n));
      }
    }
  }

  lemma ReachParity(x: real, i: nat, n: nat)
    requires x < -1.0 && n > 0 && Total(x, n) != 0.0 && Reach(x, i + 1, n) > 0.0
    ensures i % 2 == (n - 1) % 2
  {
    AlternateReach(x, i + 1, n);
    SameParity(i + 1, n);
  }

  lemma SameParity(k: nat, n: nat)
    requires k > 0 && n > 0 && k % 2 == n % 2
    ensures (k - 1) % 2 == (n - 1) % 2
  {
  }

  /** Nothing up to i exceeds u, i being of the right parity, exactly when the total before it does not. */
  lemma NoneBefore(x: real, i: nat, n: nat, u: real)
    requires x < -1.0 && n > 0 && Total(x, n) != 0.0 && 0.0 <= u && i % 2 == (n - 1) % 2
    ensures (forall j :: 0 <= j <= i ==> Reach(x, j, n) <= u) <==> (i > 0 ==> Reach(x, i - 1, n) <= u)
  {
    if i > 0 ==> Reach(x, i - 1, n) <= u {
      forall j | 0 <= j <= i ensures Reach(x, j, n) <= u {
        LowerReach(x, j, i, n, u);
      }
    }
  }

  lemma EveryOtherShare(keys: seq<int>, x: real, u: real, i: nat)
    requires Once(keys) && i < |keys| && 0.0 <= u < 1.0 && x < -1.0
    ensures Total(x, |keys|) != 0.0
    ensures Sampled(keys, x, u)[0] == keys[i]
      <==> && i % 2 == (|keys| - 1) % 2 && u < Reach(x, i + 1, |keys|)
           && (i > 0 ==> Reach(x, i - 1, |keys|) <= u)
  {
    var n := |keys|;
    AlternateReach(x, 0, n);
    SampledFirst(keys, x, u, i);
    if u < Reach(x, i + 1, n) {
      ReachParity(x, i, n);
      NoneBefore(x, i, n, u);
    }
  }

  /** The draws that put tier i first lie from Lower to below Upper. */
  function Lower(x: real, i: nat, n: nat): real
    requires Total(x, n) != 0.0
  {
    if x >= 0.0 then Reach(x, i, n)
    else if x >= -1.0 || i % 2 != (n - 1) % 2 || i == 0 then 0.0
    else Reach(x, i - 1, n)
  }

  function Upper(x: real, i: nat, n: nat): real
    requires Total(x, n) != 0.0
  {
    if x >= 0.0 then Reach(x, i + 1, n)
    else if x >= -1.0 then (if i == 0 then 1.0 else 0.0)
    else if i % 2 == (n - 1) % 2 then Reach(x, i + 1, n)
    else 0.0
  }

  /** With what probability tier i comes first. */
  function Chance(x: real, i: nat, n: nat): real
    requires Total(x, n) != 0.0
  {
    Upper(x, i, n) - Lower(x, i, n)
  }

  /** With what probability tier i comes first, by the sign and size of the decay, wherever drawing does not
      divide by zero: its share of the geometric total; for a decay from -1 up to 0 the highest tier
      always; and for one below -1 only every other tier, counted from the lowest, with the share that
      it and its neighbour make up. */
  lemma SampledShare(keys: seq<int>, x: real, u: real, i: nat)
    requires Once(keys) && i < |keys| && 0.0 <= u < 1.0 && Total(x, |keys|) != 0.0
    ensures var n, first := |keys|, Sampled(keys, x, u)[0] == keys[i];
      && (first <==> Lower(x, i, n) <= u < Upper(x, i, n))
      && (x >= 0.0 ==> (first <==> Reach(x, i, n) <= u < Reach(x, i + 1, n)))
      && (-1.0 <= x < 0.0 ==> (first <==> i == 0))
      && (x < -1.0 ==>
            (first <==> i % 2 == (n - 1) % 2 && u < Reach(x, i + 1, n) && (i > 0 ==> Reach(x, i - 1, n) <= u)))
      && Reach(x, i + 1, n) - Reach(x, i, n) == Quotient(Pow(x, i), Total(x, n))
  {
    ReachSteps(x, i, |keys|);
    if x >= 0.0 {
      OrdinaryShare(keys, x, u, i);
    } else if x >= -1.0 {
      FirstAlways(keys, x, u, i);
    } else {
      EveryOtherShare(keys, x, u, i);
    }
  }

  lemma ReachEnds(x: real, n: nat)
    requires Total(x, n) != 0.0
    ensures Reach(x, 0, n) == 0.0 && Reach(x, n, n) == 1.0
  {
    QuotientAdds(0.0, 0.0, Total(x, n));
  }

  lemma ReachGrows(x: real, i: nat, j: nat, n: nat)
    requires x >= 0.0 && i <= j && n > 0 && Total(x, n) != 0.0
    ensures Reach(x, i, n) <= Reach(x, j, n)
  {
    TotalGrows(x, n, n);
    TotalGrows(x, i, j);
    QuotientOrders(Total(x, i), Total(x, j), Total(x, n));
  }

  /** These draws are a stretch of those from 0 to below 1, so its length is a probability. */
  lemma ChanceIsLength(x: real, i: nat, n: nat)
    requires i < n && Total(x, n) != 0.0
    ensures 0.0 <= Lower(x, i, n) <= Upper(x, i, n) <= 1.0
  {
    ReachEnds(x, n);
    if x >= 0.0 {
      ReachGrows(x, 0, i, n);
      ReachGrows(x, i, i + 1, n);
      ReachGrows(x, i + 1, n, n);
    } else if x < -1.0 && i % 2 == (n - 1) % 2 {
      EveryOtherIsLength(x, i, n);
    }
  }

  lemma EveryOtherIsLength(x: real, i: nat, n: nat)
    requires x < -1.0 && i < n && i % 2 == (n - 1) % 2 && Total(x, n) != 0.0
    ensures 0.0 <= Lower(x, i, n) <= Upper(x, i, n) <= 1.0
  {
    ReachEnds(x, n);
    ReachUpTo(x, i + 1, n, n);
    if i > 0 {
      ReachUpTo(x, i - 1, i + 1, n);
      ReachNotNegative(x, i - 1, n);
    } else {
      ReachNotNegative(x, i + 1, n);
    }
  }

  lemma ReachNotNegative(x: real, j: nat, n: nat)
    requires x < -1.0 && n > 0 && j % 2 == n % 2 && Total(x, n) != 0.0
    ensures Reach(x, j, n) >= 0.0
  {
    TotalsAlternate(x, n);
    TotalsAlternate(x, j);
    ReachEnds(x, n);
    QuotientOrders(0.0, Total(x, j), Total(x, n));
  }

  // ---------- when the probability decays ----------

  lemma {:induction false} PowPositive(x: real, i: nat)
    requires x > 0.0
    ensures Pow(x, i) > 0.0
  {
    if i == 0 {
    } else {
      PowPositive(x, i - 1);
      PositivePart(x, Pow(x, i - 1));
    }
  }

  lemma PositivePart(a: real, b: real)
    requires a > 0.0 && b > 0.0
    ensures Part(a, b) > 0.0
    ensures Part(a, b) <= b <==> a <= 1.0
  {
    if a <= 1.0 {
      NonNegativePart(1.0 - a, b);
    } else {
      assert (a - 1.0) * b > 0.0;
    }
  }

  /** Between powers there is a fall exactly up to a decay of 1. */
  lemma PowersFall(x: real, i: nat)
    requires x > 0.0
    ensures Pow(x, i + 1) <= Pow(x, i) <==> x <= 1.0
  {
    PowPositive(x, i);
    PositivePart(x, Pow(x, i));
  }

  lemma OrdinaryFalls(x: real, i: nat, n: nat)
    requires x >= 0.0 && n > 0 && Total(x, n) != 0.0
    ensures Chance(x, i, n) == Quotient(Pow(x, i), Total(x, n))
    ensures Chance(x, i + 1, n) <= Chance(x, i, n) <==> x <= 1.0
  {
    var t := Total(x, n);
    ReachSteps(x, i, n);
    ReachSteps(x, i + 1, n);
    TotalGrows(x, n, n);
    PowNonNegative(x, i);
    if x > 0.0 {
      PowersFall(x, i);
    } else {
      assert Part(0.0, Pow(x, i)) == 0.0;
    }
    if x <= 1.0 {
      QuotientOrders(Pow(x, i + 1), Pow(x, i), t);
    } else {
      QuotientStrict(Pow(x, i), Pow(x, i + 1), t);
    }
  }

  lemma QuotientStrict(a: real, b: real, t: real)
    requires t > 0.0 && a < b
    ensures Quotient(a, t) < Quotient(b, t)
  {
    QuotientOrders(a, b, t);
    QuotientTimes(a, t);
    QuotientTimes(b, t);
  }

  /** Below -1 the lowest tier is likelier to come first than its neighbour, which never does. */
  lemma LastRises(x: real, n: nat)
    requires x < -1.0 && n > 1 && Total(x, n) != 0.0
    ensures Chance(x, n - 2, n) == 0.0 && Chance(x, n - 1, n) > 0.0
  {
    ReachEnds(x, n);
    TotalsAlternate(x, n);
    TotalsAlternate(x, n - 2);
    if Total(x, n) > 0.0 {
      QuotientStrict(Total(x, n - 2), Total(x, n), Total(x, n));
    } else {
      Negated(Total(x, n - 2), Total(x, n));
      Negated(Total(x, n), Total(x, n));
      QuotientStrict(-Total(x, n - 2), -Total(x, n), -Total(x, n));
    }
  }

  lemma Negated(a: real, t: real)
    requires t != 0.0
    ensures Quotient(-a, -t) == Quotient(a, t)
  {
    QuotientTimes(-a, -t);
    QuotientTimes(a, t);
    assert Part(Quotient(a, t), -t) == -Part(Quotient(a, t), t);
    SameQuotient(Quotient(-a, -t), Quotient(a, t), -t);
  }

  /** The probability of coming first decays from tier to tier, as it is meant to, if and only if the decay
      lies between -1 and 1. */
  lemma DecaysExactly(x: real, n: nat)
    requires n > 1 && Total(x, n) != 0.0
    ensures (forall i :: 0 <= i < n - 1 ==> Chance(x, i + 1, n) <= Chance(x, i, n)) <==> -1.0 <= x <= 1.0
  {
    if x >= 0.0 {
      forall i | 0 <= i < n - 1 ensures Chance(x, i + 1, n) <= Chance(x, i, n) <==> x <= 1.0 {
        OrdinaryFalls(x, i, n);
      }
      assert Chance(x, 0 + 1, n) <= Chance(x, 0, n) <==> x <= 1.0;
    } else if x < -1.0 {
      LastRises(x, n);
      assert Chance(x, (n - 2) + 1, n) > Chance(x, n - 2, n);
    }
  }

  /** Of two tiers the lower one always comes first when the decay is below -1. */
  lemma LowestOfTwoAlways(keys: seq<int>, x: real, u: real)
    requires Once(keys) && |keys| == 2 && 0.0 <= u < 1.0 && x < -1.0
    ensures Sampled(keys, x, u)[0] == keys[1]
  {
    EveryOtherShare(keys, x, u, 1);
    QuotientAdds(0.0, 0.0, Total(x, 2));
    assert Reach(x, 0, 2) == 0.0 && Reach(x, 2, 2) == 1.0;
  }
}
