/** Backend selection as src/localgateway/router.py computes it: loops over dictionaries and lists, and
    one rotation counter per model. */
module Router {
  import opened Wrappers
  import opened Sequences
  import opened Sorting
  import opened Routing
  import opened RoutingLaws
  import opened RoutingDraws
  import opened RoutingAffinity

  function Get<K, V>(m: map<K, seq<V>>, k: K): seq<V> {
    if k in m then m[k] else []
  }

  lemma FilterStep<T>(before: seq<T>, x: T, rest: seq<T>, p: T -> bool)
    ensures before + Filter([x] + rest, p) == (before + (if p(x) then [x] else [])) + Filter(rest, p)
  {
  }

  // ---------- grouping ----------

  /** src/localgateway/router.py:233-263: the tiers, and their keys in order of insertion. */
  method GroupByPriority(c: Call, m: Model) returns (keys: seq<int>, tiers: map<int, seq<Backend>>)
    ensures keys == Priorities([], Eligible(c, m))
    ensures forall k :: k in keys <==> k in tiers
    ensures forall k :: Get(tiers, k) == Tier(Eligible(c, m))(k)
  {
    keys, tiers := [], map[];
    var eligible := Eligible(c, m);
    for i := 0 to |m.backends|
      invariant Priorities(keys, Filter(m.backends[i..], Fits(c, m))) == Priorities([], eligible)
      invariant forall k :: k in keys <==> k in tiers
      invariant forall k :: Get(tiers, k) + Filter(Filter(m.backends[i..], Fits(c, m)), AtTier(k)) == Tier(eligible)(k)
    {
      var b := m.backends[i];
      ghost var rest := Filter(m.backends[i + 1..], Fits(c, m));
      assert m.backends[i..][1..] == m.backends[i + 1..];
      if Fits(c, m)(b) {
        assert Filter(m.backends[i..], Fits(c, m)) == [b] + rest;
        assert ([b] + rest)[1..] == rest;
        ghost var was := tiers;
        if b.priority !in keys {
          keys := keys + [b.priority];
        }
        tiers := tiers[b.priority := Get(tiers, b.priority) + [b]];
        forall k ensures Get(tiers, k) + Filter(rest, AtTier(k)) == Tier(eligible)(k) {
          FilterStep(Get(was, k), b, rest, AtTier(k));
          Units(Get(was, k));
        }
      } else {
        Units(rest);
      }
    }
    forall k ensures Get(tiers, k) == Tier(eligible)(k) {
      Units(Get(tiers, k));
    }
  }

  lemma IndexStep(index: map<string, seq<Backend>>, b: Backend, rest: seq<Backend>, id: string)
    ensures Get(index[b.provider := Get(index, b.provider) + [b]], id) + Filter(rest, OfProvider(id))
         == Get(index, id) + Filter([b] + rest, OfProvider(id))
  {
    FilterStep(Get(index, id), b, rest, OfProvider(id));
    Units(Get(index, id));
  }

  /** One tier of the loop that collects backends by provider. */
  method IndexTier(index: map<string, seq<Backend>>, tier: seq<Backend>) returns (next: map<string, seq<Backend>>)
    ensures forall id :: Get(next, id) == Get(index, id) + Filter(tier, OfProvider(id))
  {
    next := index;
    for i := 0 to |tier|
      invariant forall id :: Get(next, id) + Filter(tier[i..], OfProvider(id))
                          == Get(index, id) + Filter(tier, OfProvider(id))
    {
      var b := tier[i];
      ghost var was, rest := next, tier[i + 1..];
      next := next[b.provider := Get(next, b.provider) + [b]];
      assert tier[i..] == [b] + rest;
      forall id ensures Get(next, id) + Filter(rest, OfProvider(id)) == Get(index, id) + Filter(tier, OfProvider(id)) {
        IndexStep(was, b, rest, id);
      }
    }
    forall id ensures Get(next, id) == Get(index, id) + Filter(tier, OfProvider(id)) {
      Units(Get(next, id));
    }
  }

  /** src/localgateway/router.py:270-278. */
  method CollectPreferred(c: Call, ghost eligible: seq<Backend>, keys: seq<int>, tiers: map<int, seq<Backend>>)
    returns (preferred: seq<Backend>)
    requires keys == TierKeys(eligible) && forall k :: Get(tiers, k) == Tier(eligible)(k)
    ensures preferred == Preferred(c, eligible)
  {
    var index: map<string, seq<Backend>> := map[];
    ghost var tiered := TierOrdered(eligible);
    for i := 0 to |keys|
      invariant forall id :: Get(index, id) + Filter(Gather(keys[i..], Tier(eligible)), OfProvider(id))
                          == Filter(tiered, OfProvider(id))
    {
      ghost var was, rest := index, Gather(keys[i + 1..], Tier(eligible));
      assert keys[i..][1..] == keys[i + 1..];
      index := IndexTier(index, Get(tiers, keys[i]));
      forall id ensures Get(index, id) + Filter(rest, OfProvider(id)) == Filter(tiered, OfProvider(id)) {
        FilterAppend(Tier(eligible)(keys[i]), rest, OfProvider(id));
        Assoc(Get(was, id), Filter(Tier(eligible)(keys[i]), OfProvider(id)), Filter(rest, OfProvider(id)));
      }
    }
    forall id ensures Get(index, id) == Filter(tiered, OfProvider(id)) {
      Units(Get(index, id));
    }
    preferred := [];
    for i := 0 to |c.prefs.order|
      invariant preferred + ByOrder(tiered, c.prefs.order[i..]) == Preferred(c, eligible)
    {
      var id := c.prefs.order[i];
      assert c.prefs.order[i..][1..] == c.prefs.order[i + 1..];
      Assoc(preferred, Get(index, id), ByOrder(tiered, c.prefs.order[i + 1..]));
      preferred := preferred + Get(index, id);
    }
    Units(preferred);
  }

  // ---------- draws ----------

  /** The loop of every weighted draw: stop at the first running total above pick. */
  method FirstAbove(ws: seq<real>, pick: real) returns (start: nat)
    ensures start == Chosen(ws, pick)
  {
    start := 0;
    var total := 0.0;
    for i := 0 to |ws|
      invariant Drawn(ws, pick) == i + Drawn(ws[i..], pick - total)
    {
      assert ws[i..][1..] == ws[i + 1..];
      total := total + ws[i];
      if pick < total {
        return i;
      }
    }
  }

  /** src/localgateway/router.py:525-557. */
  method WeightedRotation(items: seq<Backend>, tps: map<Key, real>, rotation: nat, u: real) returns (out: seq<Backend>)
    requires items != []
    ensures out == Rotate(items, TpsLeader(items, tps, rotation, u))
  {
    if |items| == 1 {
      return items;
    }
    var measured := Measured(items, tps);
    if measured == [] {
      return Rotate(items, rotation % |items|);
    }
    var weights := TpsWeights(items, tps, Average(measured));
    var start := FirstAbove(weights, Part(u, Sum(weights)));
    out := Rotate(items, start);
  }

  /** src/localgateway/router.py:560-585. */
  method StaticWeightRotation(items: seq<Backend>, rotation: nat, u: real) returns (out: seq<Backend>)
    requires items != []
    ensures out == Rotate(items, StaticLeader(items, rotation, u))
  {
    if |items| == 1 {
      return items;
    }
    var weights := StaticWeights(items);
    if Sum(weights) <= 0.0 {
      return Rotate(items, rotation % |items|);
    }
    var start := FirstAbove(weights, Part(u, Sum(weights)));
    out := Rotate(items, start);
  }

  /** src/localgateway/router.py:588-610; None if dividing by the total raises. */
  method SampleTierOrder(keys: seq<int>, decay: real, r: real) returns (order: Option<seq<int>>)
    requires keys != []
    ensures order.None? <==> Sum(Powers(decay, 0, |keys|)) == 0.0
    ensures order.Some? ==> order.value == Sampled(keys, decay, r)
  {
    var weights := Powers(decay, 0, |keys|);
    var total := Sum(weights);
    if total == 0.0 {
      return None;
    }
    var start := FirstAbove(Divided(weights, total), r);
    return Some([keys[start]] + Filter(keys, OtherThan(keys[start])));
  }

  // ---------- one tier ----------

  /** src/localgateway/router.py:310-329: sort, or draw or rotate a leader. */
  method ArrangeTier(c: Call, group: seq<Backend>, rotation: nat, u: real)
    returns (available: seq<Backend>, limited: seq<Backend>)
    ensures available == Arranged(c, Filter(group, Routable(c)), rotation, u)
    ensures limited == Sorted(c, Filter(group, Not(Routable(c))))
  {
    available, limited := Split(group, Routable(c));
    if c.prefs.sort.Some? {
      available := StableSort(available, BySort(c, c.prefs.sort.value));
      limited := StableSort(limited, BySort(c, c.prefs.sort.value));
    } else if available != [] {
      if c.Tps() != map[] && c.server.explore {
        available := WeightedRotation(available, c.Tps(), rotation, u);
      } else if EvenWeights(available) {
        available := Rotate(available, rotation % |available|);
      } else {
        available := StaticWeightRotation(available, rotation, u);
      }
    }
  }

  function KeysOf(bs: seq<Backend>): set<Key> {
    set b | b in bs :: b.K()
  }

  /** Not among the keys of the ordered providers' backends. */
  function Outside(keys: set<Key>): Backend -> bool {
    (b: Backend) => keys == {} || b.K() !in keys
  }

  /** Skipping by backend key skips exactly the ordered providers. */
  lemma OutsideIsUnlisted(c: Call, eligible: seq<Backend>, b: Backend)
    requires b in eligible
    ensures Outside(KeysOf(Preferred(c, eligible)))(b) == Not(Listed(c))(b)
  {
    var preferred := Preferred(c, eligible);
    PreferredCount(c, eligible, b);
    assert b in multiset(eligible);
    assert b in preferred <==> b in multiset(preferred);
    if b.provider in c.prefs.order {
      SomeTimes(multiset(c.prefs.order)[b.provider], multiset(eligible)[b]);
      assert b.K() in KeysOf(preferred);
    } else if b.K() in KeysOf(preferred) {
      var p :| p in preferred && p.K() == b.K();
      PreferredAreNamed(c, eligible, p);
    }
  }

  lemma PreferredAreNamed(c: Call, eligible: seq<Backend>, p: Backend)
    requires p in Preferred(c, eligible)
    ensures p.provider in c.prefs.order
  {
    PreferredCount(c, eligible, p);
    assert p in multiset(Preferred(c, eligible));
    OneMore(0, multiset(eligible)[p]);
  }

  lemma SkipsUnlisted(c: Call, eligible: seq<Backend>, bs: seq<Backend>)
    requires forall b :: b in bs ==> b in eligible
    ensures Filter(bs, Outside(KeysOf(Preferred(c, eligible)))) == Filter(bs, Not(Listed(c)))
  {
    forall b | b in bs ensures Outside(KeysOf(Preferred(c, eligible)))(b) == Not(Listed(c))(b) {
      OutsideIsUnlisted(c, eligible, b);
    }
    FilterAgree(bs, Outside(KeysOf(Preferred(c, eligible))), Not(Listed(c)));
  }

  ghost predicate Lists(keys: seq<int>, lists: map<int, seq<Backend>>, f: int -> seq<Backend>) {
    forall k :: k in keys ==> Get(lists, k) == f(k)
  }

  lemma ListsStep(keys: seq<int>, i: nat, lists: map<int, seq<Backend>>, f: int -> seq<Backend>)
    requires i < |keys| && Lists(keys[..i], lists, f)
    ensures Lists(keys[..i + 1], lists[keys[i] := f(keys[i])], f)
  {
  }

  /** The backends of a tier that are not served as ordered ones. */
  method TierGroup(c: Call, ghost eligible: seq<Backend>, tier: seq<Backend>, preferredKeys: set<Key>, ghost k: int)
    returns (group: seq<Backend>)
    requires tier == Tier(eligible)(k) && preferredKeys == KeysOf(Preferred(c, eligible))
    ensures group == Group(c, eligible)(k)
  {
    group := tier;
    FilterMembers(eligible, AtTier(k));
    SkipsUnlisted(c, eligible, tier);
    if preferredKeys != {} && !c.Affinity() {
      var rest, skipped := Split(group, Outside(preferredKeys));
      group := rest;
    } else {
      FilterAll(tier, Outside({}));
    }
  }

  /** src/localgateway/router.py:299-331. */
  method ArrangeTiers(c: Call, ghost eligible: seq<Backend>, keys: seq<int>, tiers: map<int, seq<Backend>>,
                      preferredKeys: set<Key>, rotation: nat, draw: int -> real)
    returns (available: map<int, seq<Backend>>, limited: map<int, seq<Backend>>)
    requires forall k :: Get(tiers, k) == Tier(eligible)(k)
    requires preferredKeys == KeysOf(Preferred(c, eligible))
    ensures Lists(keys, available, Available(c, eligible, rotation, draw))
    ensures Lists(keys, limited, Limited(c, eligible))
  {
    available, limited := map[], map[];
    ghost var f, g := Available(c, eligible, rotation, draw), Limited(c, eligible);
    for i := 0 to |keys|
      invariant Lists(keys[..i], available, f) && Lists(keys[..i], limited, g)
    {
      var k := keys[i];
      var group := TierGroup(c, eligible, Get(tiers, k), preferredKeys, k);
      var a, l := ArrangeTier(c, group, rotation, draw(k));
      ListsStep(keys, i, available, f);
      ListsStep(keys, i, limited, g);
      available, limited := available[k := a], limited[k := l];
    }
    assert keys[..|keys|] == keys;
  }

  // ---------- emission ----------

  method AppendTiers(before: seq<Backend>, keys: seq<int>, lists: map<int, seq<Backend>>, ghost f: int -> seq<Backend>)
    returns (out: seq<Backend>)
    requires Lists(keys, lists, f)
    ensures out == before + Gather(keys, f)
  {
    out := before;
    for i := 0 to |keys|
      invariant out + Gather(keys[i..], f) == before + Gather(keys, f)
    {
      assert keys[i..][1..] == keys[i + 1..];
      Assoc(out, f(keys[i]), Gather(keys[i + 1..], f));
      out := out + Get(lists, keys[i]);
    }
    Units(out);
  }

  /** Each tier without the backends of ordered providers. */
  method SkipPreferred(c: Call, ghost eligible: seq<Backend>, keys: seq<int>, lists: map<int, seq<Backend>>,
                       preferredKeys: set<Key>, ghost f: int -> seq<Backend>)
    returns (rest: map<int, seq<Backend>>)
    requires Lists(keys, lists, f) && preferredKeys == KeysOf(Preferred(c, eligible))
    requires forall k, b :: b in f(k) ==> b in eligible
    ensures Lists(keys, rest, Unlisted(c, f))
  {
    rest := map[];
    for i := 0 to |keys|
      invariant Lists(keys[..i], rest, Unlisted(c, f))
    {
      var unlisted, skipped := Split(Get(lists, keys[i]), Outside(preferredKeys));
      SkipsUnlisted(c, eligible, f(keys[i]));
      ListsStep(keys, i, rest, Unlisted(c, f));
      rest := rest[keys[i] := unlisted];
    }
    assert keys[..|keys|] == keys;
  }

  lemma AvailableAreEligible(c: Call, eligible: seq<Backend>, rotation: nat, draw: int -> real, k: int, b: Backend)
    ensures b in Available(c, eligible, rotation, draw)(k) ==> b in eligible
    ensures b in Limited(c, eligible)(k) ==> b in eligible
  {
    AvailableCount(c, eligible, rotation, draw, k, b);
    LimitedCount(c, eligible, k, b);
    var available, limited := Available(c, eligible, rotation, draw)(k), Limited(c, eligible)(k);
    assert b in available ==> b in multiset(available);
    assert b in limited ==> b in multiset(limited);
    assert b in multiset(eligible) ==> b in eligible;
  }

  /** src/localgateway/router.py:423-522. */
  method EmitCacheAffinity(c: Call, ghost eligible: seq<Backend>, preferred: seq<Backend>, keys: seq<int>,
                           available: map<int, seq<Backend>>, limited: map<int, seq<Backend>>,
                           ghost rotation: nat, ghost draw: int -> real)
    returns (out: seq<Backend>)
    requires eligible != [] && c.Affinity()
    requires preferred == Preferred(c, eligible) && keys == TierKeys(eligible)
    requires Lists(keys, available, Available(c, eligible, rotation, draw))
    requires Lists(keys, limited, Limited(c, eligible))
    ensures out == StableSort(AffinityBase(c, eligible, rotation, draw), ByAffinity(c)) + Back(c, eligible)
  {
    ghost var f, g := Available(c, eligible, rotation, draw), Limited(c, eligible);
    forall k, b ensures (b in f(k) ==> b in eligible) && (b in g(k) ==> b in eligible) {
      AvailableAreEligible(c, eligible, rotation, draw, k, b);
    }
    var flat, deferred := Split(preferred, Routable(c));
    var unlisted := SkipPreferred(c, eligible, keys, available, KeysOf(preferred), f);
    flat := AppendTiers(flat, keys, unlisted, Unlisted(c, f));
    out := OrderByAffinity(c, flat);
    unlisted := SkipPreferred(c, eligible, keys, limited, KeysOf(preferred), g);
    deferred := AppendTiers(deferred, keys, unlisted, Unlisted(c, g));
    out := out + deferred;
  }

  /** src/localgateway/router.py:355-389, without affinity. The deferred ordered backends are sorted and
      then collected again unsorted. */
  method EmitTiers(c: Call, ghost eligible: seq<Backend>, preferred: seq<Backend>, keys: seq<int>,
                   available: map<int, seq<Backend>>, limited: map<int, seq<Backend>>,
                   ghost rotation: nat, ghost draw: int -> real, u: real)
    returns (out: seq<Backend>, raised: bool)
    requires eligible != [] && !c.Affinity() && !OnlyListed(c, eligible)
    requires preferred == Preferred(c, eligible) && keys == TierKeys(eligible) && keys != []
    requires Lists(keys, available, Available(c, eligible, rotation, draw))
    requires Lists(keys, limited, Limited(c, eligible))
    ensures raised <==> SamplingFails(c, eligible)
    ensures !raised ==> out == Emission(c, eligible, rotation, draw, u)
    ensures raised ==> out == []
  {
    ghost var f, g := Available(c, eligible, rotation, draw), Limited(c, eligible);
    var first, leftover := Split(preferred, Routable(c));
    first := Sorted(c, first);
    var order := keys;
    if c.server.explore && |keys| > 1 && c.prefs.order == [] {
      var sampled := SampleTierOrder(keys, c.Decay(), u);
      if sampled.None? {
        return [], true;
      }
      order := sampled.value;
    }
    TierSequencePermutes(c, eligible, u);
    out := AppendTiers(first, order, available, f);
    leftover := AppendTiers(leftover, keys, limited, g);
    return out + leftover, false;
  }

  // ---------- the selection ----------

  /** src/localgateway/router.py:280-293: only the ordered providers, routable ones first. */
  method EmitPreferred(c: Call, ghost eligible: seq<Backend>, preferred: seq<Backend>,
                       ghost rotation: nat, ghost draw: int -> real, ghost u: real)
    returns (out: seq<Backend>)
    requires eligible != [] && OnlyListed(c, eligible) && preferred == Preferred(c, eligible)
    ensures out == Emission(c, eligible, rotation, draw, u)
  {
    var available, limited := Split(preferred, Routable(c));
    if c.prefs.sort.Some? {
      available := StableSort(available, BySort(c, c.prefs.sort.value));
      limited := StableSort(limited, BySort(c, c.prefs.sort.value));
    }
    out := available + limited;
  }

  /** src/localgateway/router.py:295-389: everything that follows drawing the rotation. */
  method EmitAll(c: Call, ghost eligible: seq<Backend>, preferred: seq<Backend>, keys: seq<int>,
                 tiers: map<int, seq<Backend>>, rotation: nat, draw: int -> real, u: real)
    returns (out: seq<Backend>, raised: bool)
    requires eligible != [] && !OnlyListed(c, eligible)
    requires preferred == Preferred(c, eligible) && keys == TierKeys(eligible) && keys != []
    requires forall k :: Get(tiers, k) == Tier(eligible)(k)
    ensures raised <==> SamplingFails(c, eligible)
    ensures !raised ==> out == Emission(c, eligible, rotation, draw, u)
    ensures raised ==> out == []
  {
    var available, limited := ArrangeTiers(c, eligible, keys, tiers, KeysOf(preferred), rotation, draw);
    if c.Affinity() {
      out := EmitCacheAffinity(c, eligible, preferred, keys, available, limited, rotation, draw);
      raised := false;
    } else {
      out, raised := EmitTiers(c, eligible, preferred, keys, available, limited, rotation, draw, u);
    }
  }

  lemma TiersExist(eligible: seq<Backend>)
    ensures Priorities([], eligible) == [] <==> eligible == []
    ensures TierKeys(eligible) == [] <==> eligible == []
  {
    TierKeysFacts(eligible);
    PrioritiesOnce([], eligible);
    if eligible != [] {
      assert HasTier(eligible, eligible[0].priority) by { assert eligible[0] in eligible; }
      assert eligible[0].priority in TierKeys(eligible);
      assert eligible[0].priority in Priorities([], eligible);
    }
  }

  /** The call raises instead of yielding anything: it comes to draw the order of the tiers, and cannot. */
  predicate Raises(c: Call) {
    var m := ModelById(c.models, c.modelId);
    && m.Some? && m.value.enabled
    && !OnlyListed(c, Eligible(c, m.value)) && SamplingFails(c, Eligible(c, m.value))
  }

  /** What a call yields when the model's rotation counter stands at rotation. */
  function Selection(c: Call, rotation: nat, draw: int -> real, u: real): seq<Backend> {
    var m := ModelById(c.models, c.modelId);
    if m.None? || !m.value.enabled then [] else Emission(c, Eligible(c, m.value), rotation, draw, u)
  }

  /** The model whose counter the call advances: none when nothing is eligible or only the ordered
      providers are tried. */
  function Turning(c: Call): Option<string> {
    var m := ModelById(c.models, c.modelId);
    if m.None? || !m.value.enabled || Eligible(c, m.value) == [] || OnlyListed(c, Eligible(c, m.value)) then None
    else Some(m.value.id)
  }

  function Counter(rotations: map<string, nat>, modelId: string): nat {
    if modelId in rotations then rotations[modelId] else 0
  }

  function Advanced(rotations: map<string, nat>, modelId: string): map<string, nat> {
    rotations[modelId := Counter(rotations, modelId) + 1]
  }

  class BackendRouter {
    var rotations: map<string, nat>

    constructor ()
      ensures rotations == map[]
    {
      rotations := map[];
    }

    /** src/localgateway/router.py:64-68. */
    method NextRotation(modelId: string) returns (n: nat)
      modifies this
      ensures n == Counter(old(rotations), modelId) && rotations == Advanced(old(rotations), modelId)
    {
      n := Counter(rotations, modelId);
      rotations := rotations[modelId := n + 1];
    }

    /** src/localgateway/router.py:155-389. draw gives each tier its random number, u the one for the
        order of the tiers. */
    method SelectBackends(c: Call, draw: int -> real, u: real) returns (out: seq<Backend>, raised: bool)
      modifies this
      ensures raised <==> Raises(c)
      ensures out == if raised then [] else Selection(c, Counter(old(rotations), Turning(c).GetOr("")), draw, u)
      ensures Turning(c).None? ==> rotations == old(rotations)
      ensures Turning(c).Some? ==> rotations == Advanced(old(rotations), Turning(c).value)
    {
      raised := false;
      var m := ModelById(c.models, c.modelId);
      if m.None? || !m.value.enabled {
        return [], false;
      }
      ghost var eligible := Eligible(c, m.value);
      var inserted, tiers := GroupByPriority(c, m.value);
      TiersExist(eligible);
      if inserted == [] {
        return [], false;
      }
      var keys := StableSort(inserted, AtMostInt());
      var preferred := CollectPreferred(c, eligible, keys, tiers);
      if preferred != [] && !c.prefs.allowFallbacks && !c.Affinity() {
        out := EmitPreferred(c, eligible, preferred, Counter(rotations, ""), draw, u);
        return out, false;
      }
      assert Turning(c) == Some(m.value.id);
      var rotation := NextRotation(m.value.id);
      out, raised := EmitAll(c, eligible, preferred, keys, tiers, rotation, draw, u);
    }
  }
}
