/** Who leads a tier and which tier leads, in terms of a call's fields alone
    (src/localgateway/router.py:203-212, 317-331, 368-389). */
module RoutingLead {
  import opened Wrappers
  import opened Sequences
  import opened Sorting
  import opened Routing
  import opened RoutingLaws
  import opened RoutingDraws
  import opened RoutingDecay

  /** The lead is drawn by measured speed. */
  predicate BySpeed(c: Call) {
    c.server.explore && c.server.statsRouting && c.view.tps != map[]
  }

  /** The tier's routable backends in turn, beginning with the i-th. */
  ghost predicate LeadsTier(c: Call, eligible: seq<Backend>, n: nat, draw: int -> real, k: int, i: nat) {
    var bs := Candidates(c, eligible, k);
    i < |bs| && Available(c, eligible, n, draw)(k) == bs[i..] + bs[..i]
  }

  /** Where all weigh 1, or the weights above 0 amount to nothing, the counter of the model decides. */
  lemma CounterLeads(c: Call, eligible: seq<Backend>, n: nat, draw: int -> real, k: int)
    requires c.prefs.sort.None? && !BySpeed(c) && Candidates(c, eligible, k) != []
    requires var bs := Candidates(c, eligible, k);
      (forall b :: b in bs ==> b.weight == 1.0) || (forall b :: b in bs ==> b.weight <= 0.0)
    ensures LeadsTier(c, eligible, n, draw, k, n % |Candidates(c, eligible, k)|)
  {
    var bs := Candidates(c, eligible, k);
    if exists b :: b in bs && b.weight != 1.0 {
      forall i | 0 <= i < |bs| ensures StaticWeights(bs)[i] == 0.0 {
        StaticWeightAt(bs, i);
        assert bs[i] in bs;
      }
      SumOfZeros(StaticWeights(bs));
    }
    assert |bs| == 1 ==> n % |bs| == 0;
  }

  lemma {:induction false} SumOfZeros(ws: seq<real>)
    requires forall i :: 0 <= i < |ws| ==> ws[i] == 0.0
    ensures Sum(ws) == 0.0
  {
    if ws == [] {
    } else {
      SumOfZeros(ws[1..]);
    }
  }

  /** ws are the weights of bs, negative ones counting as 0. */
  predicate Weigh(bs: seq<Backend>, ws: seq<real>) {
    |ws| == |bs| && forall i :: 0 <= i < |bs| ==> ws[i] == if bs[i].weight > 0.0 then bs[i].weight else 0.0
  }

  /** The draw u lies in the i-th part of the total. */
  predicate FallsOn(ws: seq<real>, u: real, i: nat) {
    i < |ws| && Sum(ws[..i]) <= u * Sum(ws) < Sum(ws[..i + 1])
  }

  lemma WeightIsDrawn(bs: seq<Backend>, n: nat, u: real, ws: seq<real>, i: nat)
    requires Weigh(bs, ws) && Sum(ws) > 0.0 && FallsOn(ws, u, i) && 0.0 <= u < 1.0
    ensures StaticLeader(bs, n, u) == i
  {
    forall j | 0 <= j < |ws| ensures ws[j] == StaticWeights(bs)[j] {
      StaticWeightAt(bs, j);
    }
    assert ws == StaticWeights(bs);
    if |bs| > 1 {
      StaticShare(bs, n, u, i);
    }
  }

  /** Where weights differ from 1 and amount to something, a draw falls on the i-th exactly when that share of
      the total lies between the weights before it and those up to it. */
  lemma WeightLeads(c: Call, eligible: seq<Backend>, n: nat, draw: int -> real, k: int, ws: seq<real>, i: nat)
    requires c.prefs.sort.None? && !BySpeed(c) && 0.0 <= draw(k) < 1.0
    requires Weigh(Candidates(c, eligible, k), ws) && Sum(ws) > 0.0
    requires exists b :: b in Candidates(c, eligible, k) && b.weight != 1.0
    requires FallsOn(ws, draw(k), i)
    ensures LeadsTier(c, eligible, n, draw, k, i)
  {
    WeightIsDrawn(Candidates(c, eligible, k), n, draw(k), ws, i);
    assert !EvenWeights(Candidates(c, eligible, k));
  }

  /** ws are the measured speeds of bs, and for a backend without measurement the average of all. */
  predicate Speeds(c: Call, bs: seq<Backend>, avg: real, ws: seq<real>) {
    && |ws| == |bs| && |bs| as real * avg == Sum(ws)
    && forall i :: 0 <= i < |bs| ==>
         ws[i] == (var k := Key(bs[i].provider, bs[i].model); if k in c.view.tps then c.view.tps[k] else avg)
  }

  lemma MeanOfAll(total: real, sum: real, avg: real, m: nat, n: nat)
    requires 0 < m <= n && total == sum + Part((n - m) as real, avg) && Part(n as real, avg) == total
    ensures avg == sum / m as real
  {
    PartLess(m, n, avg);
    assert Part(m as real, avg) == sum;
    Divides(m as real, avg);
  }

  lemma PartLess(m: nat, n: nat, avg: real)
    requires m <= n
    ensures Part((n - m) as real, avg) == Part(n as real, avg) - Part(m as real, avg)
  {
    PartSum((n - m) as real, m as real, avg);
  }

  lemma Divides(x: real, y: real)
    requires x != 0.0
    ensures Part(x, y) / x == y
  {
  }

  lemma SpeedsAreWeights(c: Call, bs: seq<Backend>, avg: real, ws: seq<real>)
    requires Speeds(c, bs, avg, ws) && Measured(bs, c.view.tps) != []
    ensures ws == TpsWeights(bs, c.view.tps, Average(Measured(bs, c.view.tps)))
  {
    var tps := c.view.tps;
    forall j | 0 <= j < |ws| ensures ws[j] == TpsWeights(bs, tps, avg)[j] {
      TpsWeightAt(bs, tps, avg, j);
    }
    assert ws == TpsWeights(bs, tps, avg);
    TpsTotal(bs, tps, avg);
    MeanOfAll(Sum(ws), Sum(Measured(bs, tps)), avg, |Measured(bs, tps)|, |bs|);
  }

  lemma {:induction false} SomeMeasured(bs: seq<Backend>, tps: map<Key, real>)
    ensures Measured(bs, tps) != [] <==> exists b :: b in bs && Key(b.provider, b.model) in tps
  {
    if bs == [] {
    } else {
      SomeMeasured(bs[1..], tps);
      assert bs == [bs[0]] + bs[1..];
    }
  }

  lemma MeanIsPositive(n: nat, avg: real)
    requires n as real * avg > 0.0
    ensures avg > 0.0
  {
  }

  lemma SpeedsNonNegative(c: Call, bs: seq<Backend>, avg: real, ws: seq<real>)
    requires Speeds(c, bs, avg, ws) && Sum(ws) > 0.0
    requires forall key :: key in c.view.tps ==> c.view.tps[key] >= 0.0
    ensures NonNegative(ws)
  {
    MeanIsPositive(|bs|, avg);
  }

  lemma LeadsFallsOn(ws: seq<real>, u: real, i: nat)
    requires NonNegative(ws) && Sum(ws) > 0.0 && FallsOn(ws, u, i) && 0.0 <= u < 1.0
    ensures Leads(ws, u) == i
  {
    LeadsExactly(ws, u, i);
  }

  lemma SpeedIsDrawn(c: Call, bs: seq<Backend>, n: nat, u: real, avg: real, ws: seq<real>, i: nat)
    requires Speeds(c, bs, avg, ws) && Sum(ws) > 0.0 && FallsOn(ws, u, i) && 0.0 <= u < 1.0
    requires forall key :: key in c.view.tps ==> c.view.tps[key] >= 0.0
    requires exists b :: b in bs && Key(b.provider, b.model) in c.view.tps
    ensures TpsLeader(bs, c.view.tps, n, u) == i
  {
    SomeMeasured(bs, c.view.tps);
    SpeedsAreWeights(c, bs, avg, ws);
    SpeedsNonNegative(c, bs, avg, ws);
    LeadsFallsOn(ws, u, i);
  }

  /** The same by measured speed, in explore mode. */
  lemma SpeedLeads(c: Call, eligible: seq<Backend>, n: nat, draw: int -> real, k: int, avg: real, ws: seq<real>,
                   i: nat)
    requires c.prefs.sort.None? && BySpeed(c) && 0.0 <= draw(k) < 1.0
    requires forall key :: key in c.view.tps ==> c.view.tps[key] >= 0.0
    requires exists b :: b in Candidates(c, eligible, k) && Key(b.provider, b.model) in c.view.tps
    requires Speeds(c, Candidates(c, eligible, k), avg, ws) && Sum(ws) > 0.0
    requires FallsOn(ws, draw(k), i)
    ensures LeadsTier(c, eligible, n, draw, k, i)
  {
    SpeedIsDrawn(c, Candidates(c, eligible, k), n, draw(k), avg, ws, i);
  }

  /** A tier without any measurement is led by the counter in that mode. */
  lemma UnmeasuredLeads(c: Call, eligible: seq<Backend>, n: nat, draw: int -> real, k: int)
    requires c.prefs.sort.None? && BySpeed(c) && Candidates(c, eligible, k) != []
    requires forall b :: b in Candidates(c, eligible, k) ==> Key(b.provider, b.model) !in c.view.tps
    ensures LeadsTier(c, eligible, n, draw, k, n % |Candidates(c, eligible, k)|)
  {
    var bs := Candidates(c, eligible, k);
    SomeMeasured(bs, c.view.tps);
    assert |bs| == 1 ==> n % |bs| == 0;
  }

  /** The decay that is used: 0, as any value Python takes for false, stands for 0.4. */
  function UsedDecay(c: Call): real {
    if c.server.decay == 0.0 then 0.4 else c.server.decay
  }

  /** In explore mode, without order and affinity, the first backend tried is of the i-th tier with the
      probability that the decay gives it, if every tier has a routable one. */
  lemma TierLeads(c: Call, eligible: seq<Backend>, n: nat, draw: int -> real, u: real, i: nat)
    requires c.server.explore && c.prefs.order == [] && !(c.server.affinity && c.cacheKey != "")
    requires i < |TierKeys(eligible)| && |TierKeys(eligible)| > 1 && 0.0 <= u < 1.0
    requires forall k :: k in TierKeys(eligible) ==> Candidates(c, eligible, k) != []
    requires Total(UsedDecay(c), |TierKeys(eligible)|) != 0.0
    ensures var keys, out := TierKeys(eligible), Emission(c, eligible, n, draw, u);
      && out != []
      && (out[0].priority == keys[i] <==> Lower(UsedDecay(c), i, |keys|) <= u < Upper(UsedDecay(c), i, |keys|))
  {
    var keys, order := TierKeys(eligible), TierSequence(c, eligible, u);
    TierKeysFacts(eligible);
    SampledShare(keys, UsedDecay(c), u, i);
    TierSequencePermutes(c, eligible, u);
    assert order[0] in order;
    FirstOfTier(c, eligible, n, draw, order[0]);
    EmissionStarts(c, eligible, n, draw, u);
  }

  lemma FirstOfTier(c: Call, eligible: seq<Backend>, n: nat, draw: int -> real, k: int)
    requires Candidates(c, eligible, k) != []
    ensures var first := Available(c, eligible, n, draw)(k); first != [] && first[0].priority == k
  {
    var first := Available(c, eligible, n, draw)(k);
    ArrangedPermutes(c, Candidates(c, eligible, k), n, draw(k));
    assert Candidates(c, eligible, k)[0] in multiset(first);
    TiersAreHomed(c, eligible, n, draw);
    assert first[0] in first;
  }

  /** Without order and affinity a selection starts with the first tier of its sequence. */
  lemma EmissionStarts(c: Call, eligible: seq<Backend>, n: nat, draw: int -> real, u: real)
    requires c.prefs.order == [] && !c.Affinity() && TierSequence(c, eligible, u) != [] && eligible != []
    ensures Available(c, eligible, n, draw)(TierSequence(c, eligible, u)[0]) <= Emission(c, eligible, n, draw, u)
  {
    NoneIsPreferred(c, eligible);
    SortedOfNone(c);
    Units(Gather(TierSequence(c, eligible, u), Available(c, eligible, n, draw)));
  }

  lemma SortedOfNone(c: Call)
    ensures Sorted(c, []) == []
  {
  }
}
