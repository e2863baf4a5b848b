/** Which backends a selection yields and which of two comes first (src/localgateway/router.py:84-149,
    210-263, 423-508), in terms of a call's fields alone. */
module RoutingOrder {
  import opened Wrappers
  import opened Sequences
  import opened Sorting
  import opened Routing
  import opened RoutingLaws
  import opened RoutingAffinity
  import opened Router

  // ---------- what a call yields ----------

  /** The first provider of that id is switched on. */
  predicate SwitchedOn(providers: seq<Provider>, id: string) {
    exists i :: 0 <= i < |providers| && providers[i].id == id && providers[i].enabled
      && forall j :: 0 <= j < i ==> providers[j].id != id
  }

  /** The call lets this backend of the model take part. */
  predicate MayServe(c: Call, m: Model, b: Backend) {
    && b.enabled
    && b.provider !in c.prefs.ignore
    && SwitchedOn(c.providers, b.provider)
    && (c.maxTokens.Some? && b.maxOutputTokens.Some? ==> c.maxTokens.value <= b.maxOutputTokens.value)
    && (c.maxTokens.Some? && m.maxOutputTokens.Some? ==> c.maxTokens.value <= m.maxOutputTokens.value)
    && (c.inputTokens.Some? && b.contextLength.Some? ==>
          c.inputTokens.value + (if c.maxTokens.Some? then c.maxTokens.value else 0) <= b.contextLength.value)
    && (m.slot.Some? && m.slot.value != [] ==> Key(b.provider, b.model) in m.slot.value)
  }

  lemma {:induction false} SwitchedOnIsFound(providers: seq<Provider>, id: string)
    ensures ProviderOn(providers, id) <==> SwitchedOn(providers, id)
  {
    if providers == [] {
    } else {
      var rest := providers[1..];
      SwitchedOnIsFound(rest, id);
      if providers[0].id != id {
        if SwitchedOn(rest, id) {
          var i :| 0 <= i < |rest| && rest[i].id == id && rest[i].enabled
            && forall j :: 0 <= j < i ==> rest[j].id != id;
          assert providers[i + 1] == rest[i];
          forall j | 0 <= j < i + 1 ensures providers[j].id != id {
            assert j > 0 ==> rest[j - 1] == providers[j];
          }
        }
        if SwitchedOn(providers, id) {
          var i :| 0 <= i < |providers| && providers[i].id == id && providers[i].enabled
            && forall j :: 0 <= j < i ==> providers[j].id != id;
          assert rest[i - 1] == providers[i];
          forall j | 0 <= j < i - 1 ensures rest[j].id != id {
            assert rest[j] == providers[j + 1];
          }
        }
      }
    }
  }

  lemma FitsExactly(c: Call, m: Model, b: Backend)
    ensures Fits(c, m)(b) <==> MayServe(c, m, b)
  {
    SwitchedOnIsFound(c.providers, b.provider);
  }

  /** The model that a call names: the first of that id, or else the first with that alias. */
  predicate IsNamed(models: seq<Model>, id: string, i: nat)
    requires i < |models|
  {
    if models[i].id == id then (forall j :: 0 <= j < i ==> models[j].id != id)
    else
      && id in models[i].aliases
      && (forall j :: 0 <= j < |models| ==> models[j].id != id)
      && (forall j :: 0 <= j < i ==> id !in models[j].aliases)
  }

  lemma {:induction false} ByIdIsFirst(models: seq<Model>, id: string)
    ensures ById(models, id).None? <==> forall j :: 0 <= j < |models| ==> models[j].id != id
    ensures ById(models, id).Some? ==>
      exists i :: 0 <= i < |models| && models[i] == ById(models, id).value && models[i].id == id
        && forall j :: 0 <= j < i ==> models[j].id != id
  {
    if models != [] && models[0].id != id {
      var rest := models[1..];
      ByIdIsFirst(rest, id);
      forall j | 0 < j < |models| ensures models[j] == rest[j - 1] {
      }
      if ById(rest, id).Some? {
        var i :| 0 <= i < |rest| && rest[i] == ById(rest, id).value && rest[i].id == id
          && forall j :: 0 <= j < i ==> rest[j].id != id;
        assert models[i + 1] == rest[i];
      } else {
        forall j | 0 <= j < |models| ensures models[j].id != id {
        }
      }
    }
  }

  lemma {:induction false} ByAliasIsFirst(models: seq<Model>, id: string)
    ensures ByAlias(models, id).None? <==> forall j :: 0 <= j < |models| ==> id !in models[j].aliases
    ensures ByAlias(models, id).Some? ==>
      exists i :: 0 <= i < |models| && models[i] == ByAlias(models, id).value && id in models[i].aliases
        && forall j :: 0 <= j < i ==> id !in models[j].aliases
  {
    if models != [] && id !in models[0].aliases {
      var rest := models[1..];
      ByAliasIsFirst(rest, id);
      forall j | 0 < j < |models| ensures models[j] == rest[j - 1] {
      }
      if ByAlias(rest, id).Some? {
        var i :| 0 <= i < |rest| && rest[i] == ByAlias(rest, id).value && id in rest[i].aliases
          && forall j :: 0 <= j < i ==> id !in rest[j].aliases;
        assert models[i + 1] == rest[i];
      } else {
        forall j | 0 <= j < |models| ensures id !in models[j].aliases {
        }
      }
    }
  }

  /** A model's own id wins over any alias, and an earlier model over a later one. */
  lemma NamedExactly(models: seq<Model>, id: string)
    ensures ModelById(models, id).None?
      <==> forall j :: 0 <= j < |models| ==> models[j].id != id && id !in models[j].aliases
    ensures ModelById(models, id).Some? ==>
      exists i :: 0 <= i < |models| && models[i] == ModelById(models, id).value && IsNamed(models, id, i)
  {
    ByIdIsFirst(models, id);
    ByAliasIsFirst(models, id);
  }

  /** Fallbacks are refused, and to some effect: affinity is off and a named provider may serve. */
  predicate Refusing(c: Call, m: Model) {
    && !c.prefs.allowFallbacks && !(c.server.affinity && c.cacheKey != "")
    && exists d :: d in m.backends && MayServe(c, m, d) && d.provider in c.prefs.order
  }

  lemma RefusingExactly(c: Call, m: Model)
    ensures OnlyListed(c, Eligible(c, m)) <==> Refusing(c, m)
  {
    OnlyListedExactly(c, Eligible(c, m));
    FilterMembers(m.backends, Fits(c, m));
    forall d ensures d in Eligible(c, m) <==> d in m.backends && MayServe(c, m, d) {
      FitsExactly(c, m, d);
    }
  }

  /** A backend is yielded if and only if it is one of the named model's, may serve, and is not shut out
      because only named providers are wanted. */
  lemma YieldedExactly(c: Call, rotation: nat, draw: int -> real, u: real, b: Backend)
    ensures var m := ModelById(c.models, c.modelId);
      b in Selection(c, rotation, draw, u)
      <==> m.Some? && m.value.enabled && b in m.value.backends && MayServe(c, m.value, b)
           && (Refusing(c, m.value) ==> b.provider in c.prefs.order)
  {
    var m := ModelById(c.models, c.modelId);
    if m.Some? && m.value.enabled {
      var eligible, out := Eligible(c, m.value), Selection(c, rotation, draw, u);
      EmissionCount(c, eligible, rotation, draw, u, b);
      FilterMembers(m.value.backends, Fits(c, m.value));
      FitsExactly(c, m.value, b);
      RefusingExactly(c, m.value);
      assert b in out <==> b in multiset(out);
      assert b in eligible <==> b in multiset(eligible);
      if Served(c, eligible, b) > 0 && b in eligible {
        SomeTimes(Served(c, eligible, b), multiset(eligible)[b]);
      }
      NoneOf(Served(c, eligible, b));
      OneMore(0, multiset(eligible)[b]);
    }
  }

  // ---------- which backends one sort compares ----------

  /** Both are routable or both are not; and both belong to one tier, or both to named providers that are
      sorted among each other: the routable ones always, the others when only named ones are tried. */
  predicate Compared(c: Call, x: Backend, y: Backend) {
    && (Key(x.provider, x.model) in c.view.routable <==> Key(y.provider, y.model) in c.view.routable)
    && if x.provider in c.prefs.order
       then y.provider in c.prefs.order && (Key(x.provider, x.model) in c.view.routable || !c.prefs.allowFallbacks)
       else y.provider !in c.prefs.order && x.priority == y.priority
  }

  function AsCompared(c: Call, leq: (Backend, Backend) -> bool): (Backend, Backend) -> bool {
    (x: Backend, y: Backend) => Compared(c, x, y) ==> leq(x, y)
  }

  lemma SortedIsCompared(c: Call, bs: seq<Backend>)
    requires c.prefs.sort.Some?
    ensures SortedBy(Sorted(c, bs), AsCompared(c, BySort(c, c.prefs.sort.value)))
    ensures forall b :: b in Sorted(c, bs) <==> b in bs
  {
    BySortIsOrder(c, c.prefs.sort.value);
    SortSorts(bs, BySort(c, c.prefs.sort.value));
    SortMembers(bs, BySort(c, c.prefs.sort.value));
  }

  /** Every list holds unnamed backends of its own tier, in the order that is asked for. */
  ghost predicate Tidy(c: Call, f: int -> seq<Backend>, leq: (Backend, Backend) -> bool) {
    forall k :: SortedBy(f(k), leq) && forall b :: b in f(k) ==> b.priority == k && b.provider !in c.prefs.order
  }

  lemma {:induction false} TidyGather(c: Call, keys: seq<int>, f: int -> seq<Backend>, leq: (Backend, Backend) -> bool)
    requires Once(keys) && Tidy(c, f, AsCompared(c, leq))
    ensures SortedBy(Gather(keys, f), AsCompared(c, leq))
    ensures forall b :: b in Gather(keys, f) ==>
              b.provider !in c.prefs.order && b.priority in keys && b in f(b.priority)
  {
    if keys == [] {
    } else {
      var first: int, rest := keys[0], keys[1..];
      assert keys == [first] + rest;
      assert multiset(keys) == multiset{first} + multiset(rest);
      assert multiset(keys)[first] <= 1;
      assert first !in rest;
      forall k ensures multiset(rest)[k] <= 1 {
        assert multiset(rest)[k] <= multiset(keys)[k];
      }
      TidyGather(c, rest, f, leq);
      forall x, y | x in f(first) && y in Gather(rest, f) ensures AsCompared(c, leq)(x, y) {
        assert x.priority == first != y.priority;
        assert !Compared(c, x, y);
      }
      SortedAppend(f(first), Gather(rest, f), AsCompared(c, leq));
    }
  }

  lemma AvailableIsTidy(c: Call, eligible: seq<Backend>, rotation: nat, draw: int -> real)
    requires c.prefs.sort.Some? && !c.Affinity()
    ensures Tidy(c, Available(c, eligible, rotation, draw), AsCompared(c, BySort(c, c.prefs.sort.value)))
  {
    var f := Available(c, eligible, rotation, draw);
    forall k ensures SortedBy(f(k), AsCompared(c, BySort(c, c.prefs.sort.value))) {
      SortedIsCompared(c, Filter(Group(c, eligible)(k), Routable(c)));
    }
    forall k, b | b in f(k) ensures b.priority == k && b.provider !in c.prefs.order {
      AvailableCount(c, eligible, rotation, draw, k, b);
      assert b in multiset(f(k));
    }
  }

  lemma LimitedIsTidy(c: Call, eligible: seq<Backend>)
    requires c.prefs.sort.Some? && !c.Affinity()
    ensures Tidy(c, Limited(c, eligible), AsCompared(c, BySort(c, c.prefs.sort.value)))
  {
    var f := Limited(c, eligible);
    forall k ensures SortedBy(f(k), AsCompared(c, BySort(c, c.prefs.sort.value))) {
      SortedIsCompared(c, Filter(Group(c, eligible)(k), Not(Routable(c))));
    }
    forall k, b | b in f(k) ensures b.priority == k && b.provider !in c.prefs.order {
      LimitedCount(c, eligible, k, b);
      assert b in multiset(f(k));
    }
  }

  /** The named backends that are, or are not, routable. */
  lemma NamedPart(c: Call, eligible: seq<Backend>, p: Backend -> bool)
    requires c.prefs.sort.Some?
    ensures var part := Filter(Preferred(c, eligible), p);
      && SortedBy(Sorted(c, part), AsCompared(c, BySort(c, c.prefs.sort.value)))
      && (forall b :: b in Sorted(c, part) <==> b in part)
      && forall b :: b in part ==> b.provider in c.prefs.order && p(b)
  {
    var part := Filter(Preferred(c, eligible), p);
    SortedIsCompared(c, part);
    FilterMembers(Preferred(c, eligible), p);
    forall b | b in part ensures b.provider in c.prefs.order {
      PreferredAreNamed(c, eligible, b);
    }
  }

  /** Named backends are not compared with unnamed ones. */
  lemma NamedThenTiers(c: Call, named: seq<Backend>, tiers: seq<Backend>, leq: (Backend, Backend) -> bool)
    requires SortedBy(named, AsCompared(c, leq)) && SortedBy(tiers, AsCompared(c, leq))
    requires forall b :: b in named ==> b.provider in c.prefs.order
    requires forall b :: b in tiers ==> b.provider !in c.prefs.order
    ensures SortedBy(named + tiers, AsCompared(c, leq))
  {
    forall x, y | x in named && y in tiers ensures AsCompared(c, leq)(x, y) {
      assert !Compared(c, x, y);
    }
    SortedAppend(named, tiers, AsCompared(c, leq));
  }

  lemma FrontIsCompared(c: Call, eligible: seq<Backend>, rotation: nat, draw: int -> real, u: real)
    requires c.prefs.sort.Some? && !c.Affinity()
    ensures SortedBy(Front(c, eligible, rotation, draw, u), AsCompared(c, BySort(c, c.prefs.sort.value)))
  {
    var leq := BySort(c, c.prefs.sort.value);
    var f := Available(c, eligible, rotation, draw);
    NamedPart(c, eligible, Routable(c));
    if !OnlyListed(c, eligible) {
      AvailableIsTidy(c, eligible, rotation, draw);
      TierKeysFacts(eligible);
      TierSequencePermutes(c, eligible, u);
      TidyGather(c, TierSequence(c, eligible, u), f, leq);
      NamedThenTiers(c, Sorted(c, Filter(Preferred(c, eligible), Routable(c))),
                     Gather(TierSequence(c, eligible, u), f), leq);
    }
  }

  /** Not compared with one another, the deferred named backends may stand in any order. */
  lemma UncomparedIsSorted(c: Call, bs: seq<Backend>, leq: (Backend, Backend) -> bool)
    requires c.prefs.allowFallbacks
    requires forall b :: b in bs ==> b.provider in c.prefs.order && !Routable(c)(b)
    ensures SortedBy(bs, AsCompared(c, leq))
  {
    forall i, j | 0 <= i < j < |bs| ensures AsCompared(c, leq)(bs[i], bs[j]) {
      assert bs[i] in bs;
      assert !Routable(c)(bs[i]) && !Compared(c, bs[i], bs[j]);
    }
  }

  lemma BackIsCompared(c: Call, eligible: seq<Backend>)
    requires c.prefs.sort.Some? && !c.Affinity()
    ensures SortedBy(Back(c, eligible), AsCompared(c, BySort(c, c.prefs.sort.value)))
  {
    var leq := BySort(c, c.prefs.sort.value);
    var part := Filter(Preferred(c, eligible), Not(Routable(c)));
    NamedPart(c, eligible, Not(Routable(c)));
    if !OnlyListed(c, eligible) {
      LimitedIsTidy(c, eligible);
      TierKeysFacts(eligible);
      TidyGather(c, TierKeys(eligible), Limited(c, eligible), leq);
      if Preferred(c, eligible) == [] {
        assert part == [];
      } else {
        UncomparedIsSorted(c, part, leq);
      }
      NamedThenTiers(c, part, Gather(TierKeys(eligible), Limited(c, eligible)), leq);
    }
  }

  lemma FrontIsRoutable(c: Call, eligible: seq<Backend>, rotation: nat, draw: int -> real, u: real)
    ensures forall b :: b in Front(c, eligible, rotation, draw, u) ==> Routable(c)(b)
    ensures forall b :: b in Back(c, eligible) ==> !Routable(c)(b)
  {
    var front, back := Front(c, eligible, rotation, draw, u), Back(c, eligible);
    forall b | b in front ensures Routable(c)(b) {
      FrontCount(c, eligible, rotation, draw, u, b);
      assert b in multiset(front);
    }
    forall b | b in back ensures !Routable(c)(b) {
      BackCount(c, eligible, b);
      assert b in multiset(back);
    }
  }

  lemma RoutableThenOthers(c: Call, front: seq<Backend>, back: seq<Backend>, leq: (Backend, Backend) -> bool)
    requires SortedBy(front, AsCompared(c, leq)) && SortedBy(back, AsCompared(c, leq))
    requires (forall b :: b in front ==> Routable(c)(b)) && forall b :: b in back ==> !Routable(c)(b)
    ensures SortedBy(front + back, AsCompared(c, leq))
  {
    forall x, y | x in front && y in back ensures AsCompared(c, leq)(x, y) {
      assert Routable(c)(x) && !Routable(c)(y) && !Compared(c, x, y);
    }
    SortedAppend(front, back, AsCompared(c, leq));
  }

  lemma SelectionIsCompared(c: Call, rotation: nat, draw: int -> real, u: real)
    requires c.prefs.sort.Some? && !c.Affinity()
    ensures SortedBy(Selection(c, rotation, draw, u), AsCompared(c, BySort(c, c.prefs.sort.value)))
  {
    var m := ModelById(c.models, c.modelId);
    if m.Some? && m.value.enabled {
      var eligible := Eligible(c, m.value);
      FrontIsCompared(c, eligible, rotation, draw, u);
      BackIsCompared(c, eligible);
      FrontIsRoutable(c, eligible, rotation, draw, u);
      RoutableThenOthers(c, Front(c, eligible, rotation, draw, u), Back(c, eligible), BySort(c, c.prefs.sort.value));
    }
  }

  // ---------- the five sorts ----------

  /** Two places of a selection that one sort compares, the first before the second. */
  predicate Ranked(c: Call, sort: Sort, out: seq<Backend>, i: nat, j: nat) {
    && c.prefs.sort == Some(sort) && !(c.server.affinity && c.cacheKey != "")
    && i < j < |out| && Compared(c, out[i], out[j])
  }

  lemma RankedAreSorted(c: Call, sort: Sort, rotation: nat, draw: int -> real, u: real, i: nat, j: nat)
    requires Ranked(c, sort, Selection(c, rotation, draw, u), i, j)
    ensures var out := Selection(c, rotation, draw, u);
      RankAtMost(SortRank(c, sort, Key(out[i].provider, out[i].model)),
                 SortRank(c, sort, Key(out[j].provider, out[j].model)))
  {
    var out := Selection(c, rotation, draw, u);
    SelectionIsCompared(c, rotation, draw, u);
    assert AsCompared(c, BySort(c, sort))(out[i], out[j]);
  }

  predicate Priced(c: Call, b: Backend) {
    var k := Key(b.provider, b.model);
    k in c.pricing && (c.pricing[k].input != 0.0 || c.pricing[k].output != 0.0)
  }

  function Cost(c: Call, b: Backend): real
    requires Priced(c, b)
  {
    c.pricing[Key(b.provider, b.model)].input + c.pricing[Key(b.provider, b.model)].output
  }

  /** By price: the cheaper first, the unpriced last. */
  lemma CheapestFirst(c: Call, rotation: nat, draw: int -> real, u: real, i: nat, j: nat)
    requires Ranked(c, Price, Selection(c, rotation, draw, u), i, j)
    ensures var x, y := Selection(c, rotation, draw, u)[i], Selection(c, rotation, draw, u)[j];
      Priced(c, y) ==> Priced(c, x) && Cost(c, x) <= Cost(c, y)
  {
    RankedAreSorted(c, Price, rotation, draw, u, i, j);
  }

  /** x stands before y by the smaller number; those without a number come last. */
  predicate LowerFirst(m: map<Key, real>, x: Backend, y: Backend) {
    var kx, ky := Key(x.provider, x.model), Key(y.provider, y.model);
    ky in m ==> kx in m && m[kx] <= m[ky]
  }

  predicate HigherFirst(m: map<Key, real>, x: Backend, y: Backend) {
    var kx, ky := Key(x.provider, x.model), Key(y.provider, y.model);
    ky in m ==> kx in m && m[kx] >= m[ky]
  }

  /** By latency: the shorter first, the unmeasured last. */
  lemma ShortestLatencyFirst(c: Call, rotation: nat, draw: int -> real, u: real, i: nat, j: nat)
    requires Ranked(c, Latency, Selection(c, rotation, draw, u), i, j)
    ensures LowerFirst(c.view.latency, Selection(c, rotation, draw, u)[i], Selection(c, rotation, draw, u)[j])
  {
    RankedAreSorted(c, Latency, rotation, draw, u, i, j);
  }

  /** A latency that is unknown or 0 counts as 999999 milliseconds. */
  function Delay(c: Call, b: Backend): real {
    var k := Key(b.provider, b.model);
    if k in c.view.latency && c.view.latency[k] != 0.0 then c.view.latency[k] else 999999.0
  }

  /** By throughput: the faster first and the unmeasured last; without any measurement, or without statistics
      routing, the higher success rate, the unknown last, and among equal rates the shorter latency. */
  lemma FastestFirst(c: Call, rotation: nat, draw: int -> real, u: real, i: nat, j: nat)
    requires Ranked(c, Throughput, Selection(c, rotation, draw, u), i, j)
    ensures var x, y := Selection(c, rotation, draw, u)[i], Selection(c, rotation, draw, u)[j];
      if c.server.statsRouting && c.view.tps != map[] then HigherFirst(c.view.tps, x, y)
      else
        && HigherFirst(c.view.successRate, x, y)
        && (HigherFirst(c.view.successRate, y, x) ==> Delay(c, x) <= Delay(c, y))
  {
    RankedAreSorted(c, Throughput, rotation, draw, u, i, j);
  }

  /** Speed per price, a price below 1e-12 counting as that. */
  function PerPrice(c: Call, b: Backend): real
    requires Priced(c, b) && Key(b.provider, b.model) in c.view.tps
  {
    c.view.tps[Key(b.provider, b.model)] / if Cost(c, b) < 0.000000000001 then 0.000000000001 else Cost(c, b)
  }

  predicate Valued(c: Call, b: Backend) {
    c.server.statsRouting && Priced(c, b) && Key(b.provider, b.model) in c.view.tps
  }

  /** By value: more speed for the price first, those without a speed or a price last. */
  lemma BestValueFirst(c: Call, rotation: nat, draw: int -> real, u: real, i: nat, j: nat)
    requires Ranked(c, Value, Selection(c, rotation, draw, u), i, j)
    ensures var x, y := Selection(c, rotation, draw, u)[i], Selection(c, rotation, draw, u)[j];
      Valued(c, y) ==> Valued(c, x) && PerPrice(c, x) >= PerPrice(c, y)
  {
    RankedAreSorted(c, Value, rotation, draw, u, i, j);
  }

  /** The last hit rate of a warm backend, 0 of a cold one. */
  function HitRate(c: Call, b: Backend): real {
    var k := Key(b.provider, b.model);
    if k in c.view.warm && k in c.view.hitRate then c.view.hitRate[k] else 0.0
  }

  /** By cache: those with hits first, the higher hit rate first, and among equal rates the shorter latency. */
  lemma WarmestFirst(c: Call, rotation: nat, draw: int -> real, u: real, i: nat, j: nat)
    requires Ranked(c, Cache, Selection(c, rotation, draw, u), i, j)
    ensures var x, y := Selection(c, rotation, draw, u)[i], Selection(c, rotation, draw, u)[j];
      && (HitRate(c, y) != 0.0 ==> HitRate(c, x) != 0.0 && HitRate(c, x) >= HitRate(c, y))
      && (HitRate(c, x) == HitRate(c, y) ==> Delay(c, x) <= Delay(c, y))
  {
    RankedAreSorted(c, Cache, rotation, draw, u, i, j);
  }

  // ---------- cache affinity ----------

  /** With cache affinity the routable backends of a selection keep to its rules, and come first. */
  lemma AffinityFirst(c: Call, rotation: nat, draw: int -> real, u: real, i: nat, j: nat)
    requires c.server.affinity && c.cacheKey != "" && i < j < |Selection(c, rotation, draw, u)|
    ensures var x, y := Selection(c, rotation, draw, u)[i], Selection(c, rotation, draw, u)[j];
      Key(y.provider, y.model) in c.view.routable ==>
        Key(x.provider, x.model) in c.view.routable && MayPrecede(c, x, y)
  {
    var eligible, out := Eligible(c, ModelById(c.models, c.modelId).value), Selection(c, rotation, draw, u);
    var front := Front(c, eligible, rotation, draw, u);
    FrontIsRoutable(c, eligible, rotation, draw, u);
    if j < |front| {
      AffinityKeepsRules(c, AffinityBase(c, eligible, rotation, draw), i, j);
      assert front[i] in front;
    } else {
      assert out[j] in Back(c, eligible);
    }
  }

  /** A higher tier first, among backends of unnamed providers. */
  function UnnamedByTier(c: Call): (Backend, Backend) -> bool {
    (x: Backend, y: Backend) =>
      x.provider !in c.prefs.order && y.provider !in c.prefs.order ==> x.priority <= y.priority
  }

  lemma BaseByTier(c: Call, eligible: seq<Backend>, rotation: nat, draw: int -> real)
    ensures SortedBy(AffinityBase(c, eligible, rotation, draw), UnnamedByTier(c))
  {
    var named := Filter(Preferred(c, eligible), Routable(c));
    var f := Unlisted(c, Available(c, eligible, rotation, draw));
    FilterMembers(Preferred(c, eligible), Routable(c));
    forall b | b in named ensures b.provider in c.prefs.order {
      PreferredAreNamed(c, eligible, b);
    }
    TierKeysFacts(eligible);
    TiersAreHomed(c, eligible, rotation, draw);
    forall k, b | b in f(k) ensures b.priority == k {
      FilterMembers(Available(c, eligible, rotation, draw)(k), Not(Listed(c)));
    }
    GatherInOrder(TierKeys(eligible), f);
    NamedThenUnnamed(c, named, Gather(TierKeys(eligible), f));
  }

  lemma NamedThenUnnamed(c: Call, named: seq<Backend>, tiers: seq<Backend>)
    requires forall b :: b in named ==> b.provider in c.prefs.order
    requires SortedBy(tiers, ByTier())
    ensures SortedBy(named + tiers, UnnamedByTier(c))
  {
    forall i, j | 0 <= i < j < |tiers| ensures UnnamedByTier(c)(tiers[i], tiers[j]) {
      assert ByTier()(tiers[i], tiers[j]);
    }
    forall i, j | 0 <= i < j < |named| ensures UnnamedByTier(c)(named[i], named[j]) {
      assert named[i] in named;
    }
    SortedAppend(named, tiers, UnnamedByTier(c));
  }

  /** Both of unnamed providers, equally warm and equally loaded. */
  predicate Tied(c: Call, x: Backend, y: Backend) {
    && x.provider !in c.prefs.order && y.provider !in c.prefs.order
    && IsWarm(c, x) == IsWarm(c, y) && Load(c, x) == Load(c, y)
  }

  lemma SortKeepsTiers(c: Call, base: seq<Backend>, i: nat, j: nat)
    requires SortedBy(base, UnnamedByTier(c)) && i < j < |StableSort(base, ByAffinity(c))|
    ensures var x, y := StableSort(base, ByAffinity(c))[i], StableSort(base, ByAffinity(c))[j];
      Tied(c, x, y) ==> x.priority <= y.priority
  {
    var x, y := StableSort(base, ByAffinity(c))[i], StableSort(base, ByAffinity(c))[j];
    Orders(c);
    SortLex(base, ByAffinity(c), UnnamedByTier(c));
    assert Lex(ByAffinity(c), UnnamedByTier(c))(x, y);
    assert Tied(c, x, y) ==> AffinityOf(c, x) == AffinityOf(c, y);
  }

  /** Of two routable backends that are tied the one of the higher tier comes first. */
  lemma AffinityTiesByTier(c: Call, rotation: nat, draw: int -> real, u: real, i: nat, j: nat)
    requires c.server.affinity && c.cacheKey != "" && i < j < |Selection(c, rotation, draw, u)|
    ensures var x, y := Selection(c, rotation, draw, u)[i], Selection(c, rotation, draw, u)[j];
      (Key(y.provider, y.model) in c.view.routable && Tied(c, x, y)) ==> x.priority <= y.priority
  {
    var eligible, out := Eligible(c, ModelById(c.models, c.modelId).value), Selection(c, rotation, draw, u);
    FrontIsRoutable(c, eligible, rotation, draw, u);
    BaseByTier(c, eligible, rotation, draw);
    if j < |Front(c, eligible, rotation, draw, u)| {
      SortKeepsTiers(c, AffinityBase(c, eligible, rotation, draw), i, j);
    } else {
      assert out[j] in Back(c, eligible);
    }
  }
}
