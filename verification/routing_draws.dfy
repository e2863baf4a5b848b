/** Who leads, and how often: draws and rotations of src/localgateway/router.py:525-610. */
module RoutingDraws {
  import opened Wrappers
  import opened Sequences
  import opened Sorting
  import opened Routing
  import opened RoutingLaws

  predicate NonNegative(ws: seq<real>) {
    forall i :: 0 <= i < |ws| ==> ws[i] >= 0.0
  }

  // ---------- weighted draws ----------

  lemma {:induction false} SumNonNegative(ws: seq<real>)
    requires NonNegative(ws)
    ensures Sum(ws) >= 0.0
  {
    if ws == [] {
    } else {
      SumNonNegative(ws[1..]);
    }
  }

  /** The draw falls on i exactly when pick lies between the running totals before and after i. */
  lemma {:induction false} DrawnExactly(ws: seq<real>, pick: real, i: nat)
    requires NonNegative(ws) && 0.0 <= pick && i < |ws|
    ensures Drawn(ws, pick) == i <==> Sum(ws[..i]) <= pick < Sum(ws[..i + 1])
  {
    TailOfPrefix(ws, i + 1);
    assert ws[..i + 1][1..] == ws[1..][..i];
    if i == 0 {
      assert ws[..1][1..] == [];
    } else {
      TailOfPrefix(ws, i);
      if pick < ws[0] {
        assert NonNegative(ws[1..][..i - 1]);
        SumNonNegative(ws[1..][..i - 1]);
      } else {
        DrawnExactly(ws[1..], pick - ws[0], i - 1);
      }
    }
  }

  lemma {:induction false} DrawnFalls(ws: seq<real>, pick: real)
    requires 0.0 <= pick < Sum(ws)
    ensures Drawn(ws, pick) < |ws|
  {
    if ws == [] || pick < ws[0] {
    } else {
      DrawnFalls(ws[1..], pick - ws[0]);
    }
  }

  /** pick lies between the running totals before and after i. */
  predicate Within(ws: seq<real>, pick: real, i: nat)
    requires i < |ws|
  {
    Sum(ws[..i]) <= pick < Sum(ws[..i + 1])
  }

  lemma PartOfTotal(u: real, total: real)
    requires 0.0 <= u < 1.0 && total > 0.0
    ensures 0.0 <= Part(u, total) < total
  {
  }

  lemma ChosenExactly(ws: seq<real>, pick: real, i: nat)
    requires NonNegative(ws) && 0.0 <= pick < Sum(ws) && i < |ws|
    ensures Chosen(ws, pick) == i <==> Within(ws, pick, i)
    ensures Sum(ws[..i + 1]) - Sum(ws[..i]) == ws[i]
  {
    DrawnFalls(ws, pick);
    DrawnExactly(ws, pick, i);
    SumSnoc(ws[..i], ws[i]);
    PrefixSnoc(ws, i);
  }

  /** Over a uniform u, item i leads with probability its weight over the total. */
  lemma LeadsExactly(ws: seq<real>, u: real, i: nat)
    requires NonNegative(ws) && 0.0 <= u < 1.0 && Sum(ws) > 0.0 && i < |ws|
    ensures Leads(ws, u) == i <==> Within(ws, Part(u, Sum(ws)), i)
    ensures Sum(ws[..i + 1]) - Sum(ws[..i]) == ws[i]
  {
    PartOfTotal(u, Sum(ws));
    ChosenExactly(ws, Part(u, Sum(ws)), i);
  }

  lemma {:induction false} SumSnoc(ws: seq<real>, w: real)
    ensures Sum(ws + [w]) == Sum(ws) + w
  {
    if ws == [] {
      assert ws + [w] == [w];
      assert [w][1..] == [];
    } else {
      assert (ws + [w])[1..] == ws[1..] + [w];
      SumSnoc(ws[1..], w);
    }
  }

  // ---------- static weights ----------

  lemma {:induction false} StaticWeightAt(bs: seq<Backend>, i: nat)
    requires i < |bs|
    ensures StaticWeights(bs)[i] == if bs[i].weight < 0.0 then 0.0 else bs[i].weight
  {
    if i == 0 {
    } else {
      StaticWeightAt(bs[1..], i - 1);
    }
  }

  lemma StaticWeightsNonNegative(bs: seq<Backend>)
    ensures NonNegative(StaticWeights(bs))
  {
  }

  /** A draw by configured weights: an exact share each, and a backend of weight 0 or less never leads
      while another weighs more. */
  lemma StaticShare(bs: seq<Backend>, rotation: nat, u: real, i: nat)
    requires |bs| > 1 && i < |bs| && 0.0 <= u < 1.0 && Sum(StaticWeights(bs)) > 0.0
    ensures var ws := StaticWeights(bs);
      && (StaticLeader(bs, rotation, u) == i <==> Within(ws, Part(u, Sum(ws)), i))
      && Sum(ws[..i + 1]) - Sum(ws[..i]) == (if bs[i].weight < 0.0 then 0.0 else bs[i].weight)
    ensures bs[i].weight <= 0.0 ==> StaticLeader(bs, rotation, u) != i
  {
    StaticWeightsNonNegative(bs);
    StaticWeightAt(bs, i);
    LeadsExactly(StaticWeights(bs), u, i);
  }

  // ---------- weights by measured speed ----------

  lemma {:induction false} TpsWeightAt(bs: seq<Backend>, tps: map<Key, real>, avg: real, i: nat)
    requires i < |bs|
    ensures TpsWeights(bs, tps, avg)[i] == if bs[i].K() in tps then tps[bs[i].K()] else avg
  {
    if i == 0 {
    } else {
      TpsWeightAt(bs[1..], tps, avg, i - 1);
    }
  }

  lemma OneMoreShare(k: int, avg: real)
    ensures Part((k + 1) as real, avg) == avg + Part(k as real, avg)
  {
  }

  /** The total is what the measured backends weigh and the average once for each other one. */
  lemma {:induction false} TpsTotal(bs: seq<Backend>, tps: map<Key, real>, avg: real)
    ensures |Measured(bs, tps)| <= |bs|
    ensures Sum(TpsWeights(bs, tps, avg))
         == Sum(Measured(bs, tps)) + Part((|bs| - |Measured(bs, tps)|) as real, avg)
  {
    if bs == [] {
    } else {
      var rest := bs[1..];
      TpsTotal(rest, tps, avg);
      OneMoreShare(|rest| - |Measured(rest, tps)|, avg);
      if bs[0].K() in tps {
        assert ([tps[bs[0].K()]] + Measured(rest, tps))[1..] == Measured(rest, tps);
      } else {
        Units(Measured(rest, tps));
      }
    }
  }

  lemma SharesAddUp(total: real, sum: real, avg: real, m: nat, n: nat)
    requires 0 < m <= n && avg == sum / m as real && total == sum + Part((n - m) as real, avg)
    ensures total == Part(n as real, avg)
  {
  }

  lemma {:induction false} MeasuredNonNegative(bs: seq<Backend>, tps: map<Key, real>)
    requires forall k :: k in tps ==> tps[k] >= 0.0
    ensures NonNegative(Measured(bs, tps))
  {
    if bs == [] {
    } else {
      MeasuredNonNegative(bs[1..], tps);
    }
  }

  /** A draw by measured speed: each backend's share is its speed over the total, and exactly one in n
      for a backend without measurements. */
  lemma TpsShare(bs: seq<Backend>, tps: map<Key, real>, rotation: nat, u: real, i: nat)
    requires |bs| > 1 && i < |bs| && 0.0 <= u < 1.0 && Measured(bs, tps) != []
    requires forall k :: k in tps ==> tps[k] >= 0.0
    requires Sum(TpsWeights(bs, tps, Average(Measured(bs, tps)))) > 0.0
    ensures var ws := TpsWeights(bs, tps, Average(Measured(bs, tps)));
      && (TpsLeader(bs, tps, rotation, u) == i <==> Within(ws, Part(u, Sum(ws)), i))
      && (bs[i].K() in tps ==> Sum(ws[..i + 1]) - Sum(ws[..i]) == tps[bs[i].K()])
      && (bs[i].K() !in tps ==> Part(|bs| as real, Sum(ws[..i + 1]) - Sum(ws[..i])) == Sum(ws))
  {
    var measured := Measured(bs, tps);
    var avg := Average(measured);
    var ws := TpsWeights(bs, tps, avg);
    MeasuredNonNegative(bs, tps);
    SumNonNegative(measured);
    assert avg >= 0.0;
    forall j | 0 <= j < |ws| ensures ws[j] >= 0.0 {
      TpsWeightAt(bs, tps, avg, j);
    }
    LeadsExactly(ws, u, i);
    TpsWeightAt(bs, tps, avg, i);
    TpsTotal(bs, tps, avg);
    SharesAddUp(Sum(ws), Sum(measured), avg, |measured|, |bs|);
  }

  // ---------- sampled tiers ----------

  lemma {:induction false} PowerAt(x: real, i: nat, n: nat, j: nat)
    requires i + j < n
    ensures Powers(x, i, n)[j] == Pow(x, i + j)
    decreases j
  {
    if j == 0 {
    } else {
      PowerAt(x, i + 1, n, j - 1);
    }
  }

  lemma PowersPrefix(x: real, m: nat, n: nat)
    requires m <= n
    ensures Powers(x, 0, n)[..m] == Powers(x, 0, m)
  {
    forall j | 0 <= j < m ensures Powers(x, 0, n)[j] == Powers(x, 0, m)[j] {
      PowerAt(x, 0, n, j);
      PowerAt(x, 0, m, j);
    }
  }

  lemma {:induction false} PowNonNegative(x: real, n: nat)
    requires x >= 0.0
    ensures Pow(x, n) >= 0.0
  {
    if n == 0 {
    } else {
      PowNonNegative(x, n - 1);
    }
  }

  lemma GeometricStep(s: real, p: real, x: real)
    requires Part(s, 1.0 - x) == 1.0 - p
    ensures Part(s + p, 1.0 - x) == 1.0 - Part(x, p)
  {
  }

  lemma {:induction false} GeometricTotal(x: real, n: nat)
    ensures Part(Sum(Powers(x, 0, n)), 1.0 - x) == 1.0 - Pow(x, n)
  {
    if n == 0 {
    } else {
      GeometricTotal(x, n - 1);
      PowersPrefix(x, n - 1, n);
      PowerAt(x, 0, n, n - 1);
      SnocSplit(Powers(x, 0, n));
      SumSnoc(Powers(x, 0, n - 1), Pow(x, n - 1));
      GeometricStep(Sum(Powers(x, 0, n - 1)), Pow(x, n - 1), x);
    }
  }

  lemma {:induction false} PowerOfSmall(x: real, n: nat)
    requires 0.0 <= x < 1.0 && n > 0
    ensures 0.0 <= Pow(x, n) < 1.0
  {
    if n == 1 {
      assert Pow(x, 0) == 1.0;
    } else {
      PowerOfSmall(x, n - 1);
      SmallTimes(x, Pow(x, n - 1));
    }
  }

  lemma SmallTimes(x: real, y: real)
    requires 0.0 <= x < 1.0 && 0.0 <= y < 1.0
    ensures 0.0 <= Part(x, y) < 1.0
  {
    assert x * y <= x * 1.0;
  }

  lemma {:induction false} PowerOfLarge(x: real, n: nat)
    requires x > 1.0 && n > 0
    ensures Pow(x, n) > 1.0
  {
    if n == 1 {
      assert Pow(x, 0) == 1.0;
    } else {
      PowerOfLarge(x, n - 1);
      LargeTimes(x, Pow(x, n - 1));
    }
  }

  lemma LargeTimes(x: real, y: real)
    requires x > 1.0 && y > 1.0
    ensures Part(x, y) > 1.0
  {
    assert x * y >= x * 1.0;
  }

  lemma {:induction false} PowerOfNegative(x: real, n: nat)
    ensures Pow(-x, n) == if n % 2 == 0 then Pow(x, n) else -Pow(x, n)
  {
    if n == 0 {
    } else {
      var p := Pow(x, n - 1);
      PowerOfNegative(x, n - 1);
      NegativeTimes(x, p);
    }
  }

  lemma NegativeTimes(x: real, y: real)
    ensures Part(-x, y) == -Part(x, y) && Part(-x, -y) == Part(x, y)
  {
  }

  lemma {:induction false} PowerOfOne(n: nat)
    ensures Pow(1.0, n) == 1.0
  {
    if n == 0 {
    } else {
      PowerOfOne(n - 1);
    }
  }

  /** The only other real root of one is minus one, for an even power. */
  lemma PowerIsOne(x: real, n: nat)
    requires n > 0 && x != 1.0
    ensures Pow(x, n) == 1.0 <==> x == -1.0 && n % 2 == 0
  {
    var y := if x < 0.0 then -x else x;
    assert -(-x) == x;
    PowerOfNegative(y, n);
    if y < 1.0 {
      PowerOfSmall(y, n);
    } else if y > 1.0 {
      PowerOfLarge(y, n);
    } else {
      PowerOfOne(n);
    }
  }

  lemma {:induction false} PowersOfOne(i: nat, n: nat)
    requires i <= n
    ensures Sum(Powers(1.0, i, n)) == (n - i) as real
    decreases n - i
  {
    if i == n {
    } else {
      PowersOfOne(i + 1, n);
      PowerOfOne(i);
    }
  }

  lemma ZeroFactor(s: real, d: real)
    requires d != 0.0
    ensures Part(s, d) == 0.0 <==> s == 0.0
  {
    if Part(s, d) == 0.0 {
      assert s == s * d / d;
    }
  }

  /** Drawing the order of the tiers divides by zero exactly for a decay of -1 and an even number of
      tiers: any other configured decay, negative or not, gives an order. */
  lemma SamplingFailsExactly(c: Call, eligible: seq<Backend>)
    ensures SamplingFails(c, eligible)
      <==> Samples(c, eligible) && c.Decay() == -1.0 && |TierKeys(eligible)| % 2 == 0
  {
    var x, n := c.Decay(), |TierKeys(eligible)|;
    if Samples(c, eligible) {
      if x == 1.0 {
        PowersOfOne(0, n);
      } else {
        GeometricTotal(x, n);
        ZeroFactor(Sum(Powers(x, 0, n)), 1.0 - x);
        PowerIsOne(x, n);
      }
    }
  }

  lemma CountedTwice(keys: seq<int>, i: nat, j: nat)
    requires i < j < |keys| && keys[i] == keys[j]
    ensures multiset(keys)[keys[i]] >= 2
  {
    assert keys == keys[..j] + [keys[j]] + keys[j + 1..];
    assert keys[i] in keys[..j];
    assert keys[i] in multiset(keys[..j]);
  }

  lemma OnceIndex(keys: seq<int>, i: nat, j: nat)
    requires Once(keys) && i < |keys| && j < |keys|
    ensures keys[i] == keys[j] <==> i == j
  {
    if i < j && keys[i] == keys[j] {
      CountedTwice(keys, i, j);
    } else if j < i && keys[i] == keys[j] {
      CountedTwice(keys, j, i);
    }
  }

  // ---------- round robin ----------

  lemma AtLeastOnce(d: int, m: int)
    requires d >= 1 && m > 0
    ensures d * m >= m
  {
  }

  lemma RemainderUnique(x: int, q: int, m: int, r: int)
    requires x == q * m + r && 0 <= r < m
    ensures x % m == r
  {
    var d := x / m - q;
    assert d * m == r - x % m;
    if d >= 1 {
      AtLeastOnce(d, m);
    } else if d <= -1 {
      AtLeastOnce(-d, m);
    }
  }

  /** How many selections after the n-th item i of m leads. */
  function Turn(n: nat, i: nat, m: nat): (turn: nat)
    requires m > 0
    ensures turn < m
  {
    (i - n) % m
  }

  lemma TurnComes(n: nat, i: nat, m: nat)
    requires i < m
    ensures (n + Turn(n, i, m)) % m == i
  {
    RemainderUnique(n + (i - n) % m, -((i - n) / m), m, i);
  }

  lemma TurnIsUnique(n: nat, j: nat, m: nat)
    requires j < m
    ensures 0 <= (n + j) % m && Turn(n, (n + j) % m, m) == j
  {
    RemainderUnique((n + j) % m - n, -((n + j) / m), m, j);
  }

  /** The routable backends of a tier. */
  function Candidates(c: Call, eligible: seq<Backend>, k: int): seq<Backend> {
    Filter(Group(c, eligible)(k), Routable(c))
  }

  /** Without sorting or weights, among as many consecutive selections as a tier has routable backends
      each of them leads its tier exactly once, the others following in turn. */
  lemma EachLeadsOnce(c: Call, eligible: seq<Backend>, draw: int -> real, k: int, n: nat, i: nat, j: nat)
    requires c.prefs.sort.None? && (c.Tps() == map[] || !c.server.explore)
    requires i < |Candidates(c, eligible, k)| && j < |Candidates(c, eligible, k)|
    requires EvenWeights(Candidates(c, eligible, k))
    ensures var bs := Candidates(c, eligible, k);
      && (Leader(c, bs, n + j, draw(k)) == i <==> j == Turn(n, i, |bs|))
      && (j == Turn(n, i, |bs|) ==> Available(c, eligible, n + j, draw)(k) == bs[i..] + bs[..i])
  {
    TurnComes(n, i, |Candidates(c, eligible, k)|);
    TurnIsUnique(n, j, |Candidates(c, eligible, k)|);
  }

  /** In failover mode each routable backend of the highest tier is the first one tried once in every
      such cycle of requests. */
  lemma EachIsTriedFirst(c: Call, eligible: seq<Backend>, draw: int -> real, u: real, n: nat, i: nat,
                         bs: seq<Backend>, r: nat)
    requires eligible != [] && c.prefs.order == [] && c.prefs.sort.None? && !c.Affinity() && !c.server.explore
    requires TierKeys(eligible) != [] && bs == Candidates(c, eligible, TierKeys(eligible)[0])
    requires i < |bs| && EvenWeights(bs) && r == n + Turn(n, i, |bs|)
    ensures [bs[i]] <= Emission(c, eligible, r, draw, u)
  {
    EachLeadsOnce(c, eligible, draw, TierKeys(eligible)[0], n, i, Turn(n, i, |bs|));
    HighestTierFirst(c, eligible, r, draw, u, bs[i..] + bs[..i]);
  }

  lemma HighestTierFirst(c: Call, eligible: seq<Backend>, r: nat, draw: int -> real, u: real, lead: seq<Backend>)
    requires eligible != [] && c.prefs.order == [] && c.prefs.sort.None? && !c.Affinity() && !c.server.explore
    requires TierKeys(eligible) != [] && lead != [] && Available(c, eligible, r, draw)(TierKeys(eligible)[0]) == lead
    ensures [lead[0]] <= Emission(c, eligible, r, draw, u)
  {
  }
}
