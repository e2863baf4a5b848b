/** Every selection tries each eligible backend, the routable ones first. */
module RoutingLaws {
  import opened Wrappers
  import opened Sequences
  import opened Sorting
  import opened Routing

  ghost predicate Once(keys: seq<int>) {
    forall k :: multiset(keys)[k] <= 1
  }

  predicate HasTier(eligible: seq<Backend>, k: int) {
    exists b :: b in eligible && b.priority == k
  }

  // ---------- tiers partition the eligible backends ----------

  lemma {:induction false} PrioritiesOnce(seen: seq<int>, bs: seq<Backend>)
    requires Once(seen)
    ensures Once(Priorities(seen, bs))
    ensures forall k :: k in Priorities(seen, bs) <==> k in seen || HasTier(bs, k)
    decreases |bs|
  {
    if bs == [] {
    } else {
      var p := bs[0].priority;
      var next := if p in seen then seen else seen + [p];
      assert Once(next) by {
        forall k ensures multiset(next)[k] <= 1 {
          assert k in multiset(seen) <==> k in seen;
        }
      }
      PrioritiesOnce(next, bs[1..]);
      forall k ensures k in Priorities(seen, bs) <==> k in seen || HasTier(bs, k) {
        assert HasTier(bs, p) by { assert bs[0] in bs; }
        assert HasTier(bs[1..], k) ==> HasTier(bs, k);
        assert HasTier(bs, k) ==> k == p || HasTier(bs[1..], k);
      }
    }
  }

  lemma TierKeysFacts(eligible: seq<Backend>)
    ensures Once(TierKeys(eligible)) && SortedBy(TierKeys(eligible), AtMostInt())
    ensures forall k :: k in TierKeys(eligible) <==> HasTier(eligible, k)
  {
    var ps := Priorities([], eligible);
    PrioritiesOnce([], eligible);
    SortPermutes(ps, AtMostInt());
    SortMembers(ps, AtMostInt());
    SortSorts(ps, AtMostInt());
  }

  /** A backend that only its own tier yields is yielded as often as that tier yields it. */
  lemma {:induction false} GatherCount(keys: seq<int>, f: int -> seq<Backend>, x: Backend, home: int, n: nat)
    requires Once(keys)
    requires forall k :: k in keys ==> multiset(f(k))[x] == if k == home then n else 0
    ensures multiset(Gather(keys, f))[x] == if home in keys then n else 0
  {
    if keys == [] {
    } else {
      var first: int, rest := keys[0], keys[1..];
      assert keys == [first] + rest;
      assert multiset(keys) == multiset{first} + multiset(rest);
      assert multiset(keys)[first] <= 1;
      assert first in rest <==> first in multiset(rest);
      forall k ensures multiset(rest)[k] <= 1 {
        assert multiset(rest)[k] <= multiset(keys)[k];
      }
      GatherCount(rest, f, x, home, n);
    }
  }

  lemma HomeInKeys(eligible: seq<Backend>, x: Backend)
    ensures x in eligible ==> x.priority in TierKeys(eligible)
  {
    TierKeysFacts(eligible);
    assert x in eligible ==> HasTier(eligible, x.priority);
  }

  lemma TierOrderedCount(eligible: seq<Backend>, x: Backend)
    ensures multiset(TierOrdered(eligible))[x] == multiset(eligible)[x]
  {
    var keys := TierKeys(eligible);
    TierKeysFacts(eligible);
    forall k ensures multiset(Tier(eligible)(k))[x] == if k == x.priority then multiset(eligible)[x] else 0 {
      FilterCount(eligible, AtTier(k), x);
    }
    GatherCount(keys, Tier(eligible), x, x.priority, multiset(eligible)[x]);
    HomeInKeys(eligible, x);
    assert x in eligible <==> x in multiset(eligible);
  }

  function Times(t: nat, n: nat): nat {
    t * n
  }

  lemma OneMore(t: nat, n: nat)
    ensures Times(1 + t, n) == n + Times(t, n)
    ensures Times(0, n) == 0
  {
  }

  lemma {:induction false} ByOrderCount(tiered: seq<Backend>, order: seq<string>, x: Backend)
    ensures multiset(ByOrder(tiered, order))[x] == Times(multiset(order)[x.provider], multiset(tiered)[x])
  {
    if order == [] {
    } else {
      var id, rest := order[0], order[1..];
      var t := multiset(rest)[x.provider];
      assert order == [id] + rest;
      ByOrderCount(tiered, rest, x);
      FilterCount(tiered, OfProvider(id), x);
      assert multiset(order)[x.provider] == (if id == x.provider then 1 + t else t);
      OneMore(t, multiset(tiered)[x]);
    }
  }

  lemma PreferredCount(c: Call, eligible: seq<Backend>, x: Backend)
    ensures multiset(Preferred(c, eligible))[x] == Times(multiset(c.prefs.order)[x.provider], multiset(eligible)[x])
  {
    ByOrderCount(TierOrdered(eligible), c.prefs.order, x);
    TierOrderedCount(eligible, x);
  }

  // ---------- sorting and rotating only reorder ----------

  lemma SortedPermutes(c: Call, bs: seq<Backend>)
    ensures multiset(Sorted(c, bs)) == multiset(bs)
  {
    if c.prefs.sort.Some? {
      SortPermutes(bs, BySort(c, c.prefs.sort.value));
    }
  }

  lemma RotatePermutes<T>(s: seq<T>, r: nat)
    requires r <= |s|
    ensures multiset(Rotate(s, r)) == multiset(s)
  {
    assert s == s[..r] + s[r..];
  }

  lemma ArrangedPermutes(c: Call, bs: seq<Backend>, rotation: nat, u: real)
    ensures multiset(Arranged(c, bs, rotation, u)) == multiset(bs)
  {
    if c.prefs.sort.Some? {
      SortedPermutes(c, bs);
    } else if bs != [] {
      RotatePermutes(bs, Leader(c, bs, rotation, u));
    }
  }

  /** How often a tier's group holds x. */
  function InGroup(c: Call, eligible: seq<Backend>, x: Backend): nat {
    if c.Affinity() || x.provider !in c.prefs.order then multiset(eligible)[x] else 0
  }

  lemma GroupCount(c: Call, eligible: seq<Backend>, k: int, x: Backend)
    ensures multiset(Group(c, eligible)(k))[x] == if k == x.priority then InGroup(c, eligible, x) else 0
  {
    FilterCount(eligible, AtTier(k), x);
    FilterCount(Tier(eligible)(k), Not(Listed(c)), x);
  }

  lemma AvailableCount(c: Call, eligible: seq<Backend>, rotation: nat, draw: int -> real, k: int, x: Backend)
    ensures multiset(Available(c, eligible, rotation, draw)(k))[x]
         == if k == x.priority && Routable(c)(x) then InGroup(c, eligible, x) else 0
  {
    var group := Group(c, eligible)(k);
    GroupCount(c, eligible, k, x);
    FilterCount(group, Routable(c), x);
    ArrangedPermutes(c, Filter(group, Routable(c)), rotation, draw(k));
  }

  lemma LimitedCount(c: Call, eligible: seq<Backend>, k: int, x: Backend)
    ensures multiset(Limited(c, eligible)(k))[x]
         == if k == x.priority && !Routable(c)(x) then InGroup(c, eligible, x) else 0
  {
    var group := Group(c, eligible)(k);
    GroupCount(c, eligible, k, x);
    FilterCount(group, Not(Routable(c)), x);
    SortedPermutes(c, Filter(group, Not(Routable(c))));
  }

  lemma SampledPermutes(keys: seq<int>, decay: real, u: real)
    requires Once(keys) && keys != []
    ensures multiset(Sampled(keys, decay, u)) == multiset(keys)
  {
    var first := keys[Chosen(Shares(Powers(decay, 0, |keys|)), u)];
    var rest := Filter(keys, OtherThan(first));
    assert first in multiset(keys);
    forall k ensures multiset([first] + rest)[k] == multiset(keys)[k] {
      FilterCount(keys, OtherThan(first), k);
    }
  }

  lemma TierSequencePermutes(c: Call, eligible: seq<Backend>, u: real)
    ensures multiset(TierSequence(c, eligible, u)) == multiset(TierKeys(eligible))
    ensures Once(TierSequence(c, eligible, u))
    ensures forall k :: k in TierSequence(c, eligible, u) <==> k in TierKeys(eligible)
  {
    var keys := TierKeys(eligible);
    TierKeysFacts(eligible);
    if Samples(c, eligible) {
      SampledPermutes(keys, c.Decay(), u);
    }
    forall k ensures k in TierSequence(c, eligible, u) <==> k in keys {
      assert k in TierSequence(c, eligible, u) <==> k in multiset(TierSequence(c, eligible, u));
      assert k in keys <==> k in multiset(keys);
    }
  }

  // ---------- what is emitted, and how often ----------

  /** How often a selection yields each copy of x: as often as the order names its provider; an
      unnamed provider's backend once, unless only ordered providers are tried. */
  function Served(c: Call, eligible: seq<Backend>, x: Backend): nat {
    if x.provider in c.prefs.order then multiset(c.prefs.order)[x.provider]
    else if OnlyListed(c, eligible) then 0 else 1
  }

  function If(p: bool, n: nat): nat {
    if p then n else 0
  }

  lemma PreferredPartCount(c: Call, eligible: seq<Backend>, p: Backend -> bool, x: Backend)
    ensures multiset(Filter(Preferred(c, eligible), p))[x]
         == If(p(x), Times(multiset(c.prefs.order)[x.provider], multiset(eligible)[x]))
  {
    FilterCount(Preferred(c, eligible), p, x);
    PreferredCount(c, eligible, x);
  }

  lemma UnlistedGatherCount(c: Call, eligible: seq<Backend>, f: int -> seq<Backend>, p: bool, x: Backend)
    requires forall k :: multiset(f(k))[x] == if k == x.priority && p then multiset(eligible)[x] else 0
    ensures multiset(Gather(TierKeys(eligible), Unlisted(c, f)))[x]
         == If(p && x.provider !in c.prefs.order, multiset(eligible)[x])
  {
    var n := If(p && x.provider !in c.prefs.order, multiset(eligible)[x]);
    forall k ensures multiset(Unlisted(c, f)(k))[x] == if k == x.priority then n else 0 {
      FilterCount(f(k), Not(Listed(c)), x);
    }
    TierKeysFacts(eligible);
    GatherCount(TierKeys(eligible), Unlisted(c, f), x, x.priority, n);
    HomeInKeys(eligible, x);
    assert x in eligible <==> x in multiset(eligible);
  }

  lemma TiersCount(c: Call, eligible: seq<Backend>, keys: seq<int>, f: int -> seq<Backend>, p: bool, x: Backend)
    requires Once(keys) && forall k :: k in keys <==> k in TierKeys(eligible)
    requires !c.Affinity()
    requires forall k :: multiset(f(k))[x] == if k == x.priority && p then InGroup(c, eligible, x) else 0
    ensures multiset(Gather(keys, f))[x] == If(p && x.provider !in c.prefs.order, multiset(eligible)[x])
  {
    GatherCount(keys, f, x, x.priority, If(p, InGroup(c, eligible, x)));
    HomeInKeys(eligible, x);
    assert x in eligible <==> x in multiset(eligible);
  }

  lemma UnnamedProduct(t: nat, n: nat, named: bool)
    requires named <==> t > 0
    ensures Times(t, n) + If(!named, n) == Times(if named then t else 1, n)
    ensures !named ==> Times(t, n) == 0
  {
  }

  lemma AffinityTiersCount(c: Call, eligible: seq<Backend>, rotation: nat, draw: int -> real, x: Backend)
    requires c.Affinity()
    ensures multiset(Gather(TierKeys(eligible), Unlisted(c, Available(c, eligible, rotation, draw))))[x]
         == If(Routable(c)(x) && x.provider !in c.prefs.order, multiset(eligible)[x])
    ensures multiset(Gather(TierKeys(eligible), Unlisted(c, Limited(c, eligible))))[x]
         == If(!Routable(c)(x) && x.provider !in c.prefs.order, multiset(eligible)[x])
  {
    var f, g := Available(c, eligible, rotation, draw), Limited(c, eligible);
    forall k ensures multiset(f(k))[x] == if k == x.priority && Routable(c)(x) then multiset(eligible)[x] else 0 {
      AvailableCount(c, eligible, rotation, draw, k, x);
    }
    forall k ensures multiset(g(k))[x] == if k == x.priority && !Routable(c)(x) then multiset(eligible)[x] else 0 {
      LimitedCount(c, eligible, k, x);
    }
    UnlistedGatherCount(c, eligible, f, Routable(c)(x), x);
    UnlistedGatherCount(c, eligible, g, !Routable(c)(x), x);
  }

  lemma PlainTiersCount(c: Call, eligible: seq<Backend>, rotation: nat, draw: int -> real, u: real, x: Backend)
    requires !c.Affinity()
    ensures multiset(Gather(TierSequence(c, eligible, u), Available(c, eligible, rotation, draw)))[x]
         == If(Routable(c)(x) && x.provider !in c.prefs.order, multiset(eligible)[x])
    ensures multiset(Gather(TierKeys(eligible), Limited(c, eligible)))[x]
         == If(!Routable(c)(x) && x.provider !in c.prefs.order, multiset(eligible)[x])
  {
    var f, g := Available(c, eligible, rotation, draw), Limited(c, eligible);
    forall k ensures multiset(f(k))[x]
      == if k == x.priority && Routable(c)(x) then InGroup(c, eligible, x) else 0
    {
      AvailableCount(c, eligible, rotation, draw, k, x);
    }
    forall k ensures multiset(g(k))[x] == if k == x.priority && !Routable(c)(x) then InGroup(c, eligible, x) else 0 {
      LimitedCount(c, eligible, k, x);
    }
    TierSequencePermutes(c, eligible, u);
    TierKeysFacts(eligible);
    TiersCount(c, eligible, TierSequence(c, eligible, u), f, Routable(c)(x), x);
    TiersCount(c, eligible, TierKeys(eligible), g, !Routable(c)(x), x);
  }

  lemma FrontCount(c: Call, eligible: seq<Backend>, rotation: nat, draw: int -> real, u: real, x: Backend)
    ensures multiset(Front(c, eligible, rotation, draw, u))[x]
         == If(Routable(c)(x), Times(Served(c, eligible, x), multiset(eligible)[x]))
  {
    PreferredPartCount(c, eligible, Routable(c), x);
    SortedPermutes(c, Filter(Preferred(c, eligible), Routable(c)));
    UnnamedProduct(multiset(c.prefs.order)[x.provider], multiset(eligible)[x], x.provider in c.prefs.order);
    if c.Affinity() {
      AffinityTiersCount(c, eligible, rotation, draw, x);
      SortPermutes(AffinityBase(c, eligible, rotation, draw), ByAffinity(c));
    } else {
      PlainTiersCount(c, eligible, rotation, draw, u, x);
    }
  }

  lemma BackCount(c: Call, eligible: seq<Backend>, x: Backend)
    ensures multiset(Back(c, eligible))[x] == If(!Routable(c)(x), Times(Served(c, eligible, x), multiset(eligible)[x]))
  {
    PreferredPartCount(c, eligible, Not(Routable(c)), x);
    SortedPermutes(c, Filter(Preferred(c, eligible), Not(Routable(c))));
    UnnamedProduct(multiset(c.prefs.order)[x.provider], multiset(eligible)[x], x.provider in c.prefs.order);
    if c.Affinity() {
      AffinityTiersCount(c, eligible, 0, k => 0.0, x);
    } else {
      PlainTiersCount(c, eligible, 0, k => 0.0, 0.0, x);
    }
  }

  /** Each eligible backend is yielded exactly as often as Served says, and nothing else is. */
  lemma EmissionCount(c: Call, eligible: seq<Backend>, rotation: nat, draw: int -> real, u: real, x: Backend)
    ensures multiset(Emission(c, eligible, rotation, draw, u))[x]
         == Times(Served(c, eligible, x), multiset(eligible)[x])
  {
    if eligible != [] {
      FrontCount(c, eligible, rotation, draw, u, x);
      BackCount(c, eligible, x);
    }
  }

  /** The order names no eligible provider twice and, when only ordered providers are tried, names all. */
  predicate NamedOnce(c: Call, eligible: seq<Backend>) {
    forall b :: b in eligible ==>
      if b.provider in c.prefs.order then multiset(c.prefs.order)[b.provider] == 1 else !OnlyListed(c, eligible)
  }

  lemma SingleProduct(s: nat, n: nat)
    requires n > 0
    ensures Times(s, n) == n <==> s == 1
  {
  }

  lemma EmittedAsOften(c: Call, eligible: seq<Backend>, rotation: nat, draw: int -> real, u: real, x: Backend)
    ensures multiset(Emission(c, eligible, rotation, draw, u))[x] == multiset(eligible)[x]
      <==> x in eligible ==> Served(c, eligible, x) == 1
  {
    EmissionCount(c, eligible, rotation, draw, u, x);
    assert x in eligible <==> x in multiset(eligible);
    if x in eligible {
      SingleProduct(Served(c, eligible, x), multiset(eligible)[x]);
    } else {
      assert multiset(eligible)[x] == 0;
    }
  }

  /** A selection is a reordering of the eligible backends exactly when the order names them once. */
  lemma EmissionPermutesExactly(c: Call, eligible: seq<Backend>, rotation: nat, draw: int -> real, u: real)
    ensures multiset(Emission(c, eligible, rotation, draw, u)) == multiset(eligible) <==> NamedOnce(c, eligible)
  {
    if NamedOnce(c, eligible) {
      forall x ensures multiset(Emission(c, eligible, rotation, draw, u))[x] == multiset(eligible)[x] {
        EmittedAsOften(c, eligible, rotation, draw, u, x);
      }
    }
    if multiset(Emission(c, eligible, rotation, draw, u)) == multiset(eligible) {
      forall b | b in eligible
        ensures if b.provider in c.prefs.order then multiset(c.prefs.order)[b.provider] == 1
                else !OnlyListed(c, eligible)
      {
        EmittedAsOften(c, eligible, rotation, draw, u, b);
      }
    }
  }

  /** Refusing fallbacks takes effect exactly when affinity is off and a named provider is eligible;
      otherwise every eligible backend is tried all the same. */
  lemma OnlyListedExactly(c: Call, eligible: seq<Backend>)
    ensures OnlyListed(c, eligible)
      <==> !c.prefs.allowFallbacks && !c.Affinity() && exists b :: b in eligible && Listed(c)(b)
  {
    var preferred := Preferred(c, eligible);
    if preferred != [] {
      var b := preferred[0];
      assert b in multiset(preferred);
      PreferredCount(c, eligible, b);
      OneMore(0, multiset(eligible)[b]);
      assert b in eligible <==> b in multiset(eligible);
      NoneOf(multiset(c.prefs.order)[b.provider]);
      assert Listed(c)(b);
    } else {
      forall b | b in eligible ensures !Listed(c)(b) {
        PreferredCount(c, eligible, b);
        assert b in multiset(eligible);
        if Listed(c)(b) {
          SomeTimes(multiset(c.prefs.order)[b.provider], multiset(eligible)[b]);
        }
      }
    }
  }

  lemma NoneOf(t: nat)
    ensures Times(t, 0) == 0
  {
  }

  lemma SomeTimes(t: nat, n: nat)
    requires t > 0 && n > 0
    ensures Times(t, n) > 0
  {
  }

  /** Nothing that is limited or broken comes before something that is not. */
  lemma RoutableFirst(c: Call, eligible: seq<Backend>, rotation: nat, draw: int -> real, u: real, i: nat, j: nat)
    requires i < j < |Emission(c, eligible, rotation, draw, u)|
    ensures var x, y := Emission(c, eligible, rotation, draw, u)[i], Emission(c, eligible, rotation, draw, u)[j];
      Key(y.provider, y.model) in c.view.routable ==> Key(x.provider, x.model) in c.view.routable
  {
    var front, back := Front(c, eligible, rotation, draw, u), Back(c, eligible);
    var x, y := (front + back)[i], (front + back)[j];
    FrontCount(c, eligible, rotation, draw, u, x);
    BackCount(c, eligible, y);
    assert j >= |front| ==> y in multiset(back);
    assert i < |front| ==> x in multiset(front);
  }

  // ---------- tiers stay in order ----------

  function ByTier(): (Backend, Backend) -> bool {
    (x: Backend, y: Backend) => x.priority <= y.priority
  }

  ghost predicate Homed(f: int -> seq<Backend>) {
    forall k, b :: b in f(k) ==> b.priority == k
  }

  lemma {:induction false} GatherMembers(keys: seq<int>, f: int -> seq<Backend>)
    requires Homed(f)
    ensures forall b :: b in Gather(keys, f) ==> b.priority in keys
  {
    if keys == [] {
    } else {
      var first: int, rest := keys[0], keys[1..];
      GatherMembers(rest, f);
      assert keys == [first] + rest;
      forall b | b in Gather(keys, f) ensures b.priority in keys {
        assert b in f(first) || b in Gather(rest, f);
      }
    }
  }

  lemma {:induction false} GatherInOrder(keys: seq<int>, f: int -> seq<Backend>)
    requires Homed(f) && SortedBy(keys, AtMostInt())
    ensures SortedBy(Gather(keys, f), ByTier())
  {
    if keys == [] {
    } else {
      SortedTail(keys, AtMostInt());
      GatherInOrder(keys[1..], f);
      GatherMembers(keys[1..], f);
      SortedAppend(f(keys[0]), Gather(keys[1..], f), ByTier());
    }
  }

  lemma TiersAreHomed(c: Call, eligible: seq<Backend>, rotation: nat, draw: int -> real)
    ensures Homed(Available(c, eligible, rotation, draw)) && Homed(Limited(c, eligible))
  {
    var f, g := Available(c, eligible, rotation, draw), Limited(c, eligible);
    forall k, b | b in f(k) ensures b.priority == k {
      AvailableCount(c, eligible, rotation, draw, k, b);
      assert b in multiset(f(k));
    }
    forall k, b | b in g(k) ensures b.priority == k {
      LimitedCount(c, eligible, k, b);
      assert b in multiset(g(k));
    }
  }

  lemma NoneIsPreferred(c: Call, eligible: seq<Backend>)
    requires c.prefs.order == []
    ensures Preferred(c, eligible) == []
  {
  }

  /** Without an order, affinity or exploring, a higher tier is always used up before the next: first
      over the routable backends and then, again tier by tier, over the others. */
  lemma TiersInOrder(c: Call, eligible: seq<Backend>, rotation: nat, draw: int -> real, u: real)
    requires c.prefs.order == [] && !c.Affinity() && !c.server.explore
    ensures SortedBy(Front(c, eligible, rotation, draw, u), ByTier())
    ensures SortedBy(Back(c, eligible), ByTier())
  {
    NoneIsPreferred(c, eligible);
    TierKeysFacts(eligible);
    TiersAreHomed(c, eligible, rotation, draw);
    GatherInOrder(TierKeys(eligible), Available(c, eligible, rotation, draw));
    GatherInOrder(TierKeys(eligible), Limited(c, eligible));
    SortedPermutes(c, []);
    Units(Gather(TierKeys(eligible), Available(c, eligible, rotation, draw)));
    Units(Gather(TierKeys(eligible), Limited(c, eligible)));
    assert Sorted(c, []) == [];
  }

  // ---------- deferred ordered backends ----------

  /** The ordered backends that are limited or broken, in the order in which they are emitted. */
  function Deferred(c: Call, eligible: seq<Backend>): seq<Backend> {
    Filter(Preferred(c, eligible), Not(Routable(c)))
  }

  /** What the deferred part would be if the sort made of it were used. */
  function BackSorted(c: Call, eligible: seq<Backend>): seq<Backend> {
    Sorted(c, Deferred(c, eligible)) + Gather(TierKeys(eligible), Limited(c, eligible))
  }

  lemma BySortIsOrder(c: Call, sort: Sort)
    ensures TotalPreorder(BySort(c, sort))
  {
  }

  lemma DropTail<T>(a: seq<T>, b: seq<T>, t: seq<T>)
    requires |a| == |b|
    ensures a + t == b + t <==> a == b
  {
    if a + t == b + t {
      assert a == (a + t)[..|a|] && b == (b + t)[..|b|];
    }
  }

  /** The sort of the deferred ordered backends is dropped. This shows exactly when the caller's order of
      providers does not happen to be that of the sort. */
  lemma DeferredSortedExactly(c: Call, eligible: seq<Backend>)
    requires c.prefs.sort.Some? && !OnlyListed(c, eligible) && !c.Affinity()
    ensures Back(c, eligible) == BackSorted(c, eligible)
      <==> SortedBy(Deferred(c, eligible), BySort(c, c.prefs.sort.value))
  {
    var deferred, leq := Deferred(c, eligible), BySort(c, c.prefs.sort.value);
    BySortIsOrder(c, c.prefs.sort.value);
    SortedIsFixed(deferred, leq);
    SortMembers(deferred, leq);
    DropTail(deferred, StableSort(deferred, leq), Gather(TierKeys(eligible), Limited(c, eligible)));
  }

  lemma FilterTwo(x: Backend, y: Backend, p: Backend -> bool)
    ensures Filter([x, y], p) == (if p(x) then [x] else []) + (if p(y) then [y] else [])
  {
    assert [x, y] == [x] + ([y] + []);
    FilterCons(x, [y] + [], p);
    FilterCons(y, [], p);
    Units(if p(y) then [y] else []);
  }

  lemma OneKey(k: int)
    ensures StableSort([k], AtMostInt()) == [k]
  {
    SortPermutes([k], AtMostInt());
    var s := StableSort([k], AtMostInt());
    assert |s| == |multiset(s)| && multiset(s) == multiset{k};
    assert s[0] in multiset(s);
  }

  lemma TwoOfOneTier(x: Backend, y: Backend)
    requires x.priority == y.priority
    ensures TierOrdered([x, y]) == [x, y]
  {
    var e, k := [x, y], x.priority;
    assert e[1..] == [y] && e[1..][1..] == [];
    assert Priorities([], e) == [k] by {
      assert Priorities([k], [y]) == [k];
      Units([k]);
    }
    OneKey(k);
    FilterTwo(x, y, AtTier(k));
    assert [k][1..] == [];
    assert Gather([k], Tier(e)) == Tier(e)(k) + [];
  }

  lemma TwoByOrder(x: Backend, y: Backend)
    requires x.provider != y.provider
    ensures ByOrder([x, y], [x.provider, y.provider]) == [x, y]
  {
    var order, one: seq<string> := [x.provider, y.provider], [y.provider];
    assert order[1..] == one && one[1..] == [];
    FilterTwo(x, y, OfProvider(x.provider));
    FilterTwo(x, y, OfProvider(y.provider));
    assert ByOrder([x, y], one) == [y] + [];
  }

  /** Two backends of different providers, both deferred, the slower one named first: they are emitted
      slower first although the caller asked for the lowest latency. */
  lemma DeferredUnsorted(c: Call, x: Backend, y: Backend)
    requires c.prefs.sort == Some(Latency) && c.prefs.order == [x.provider, y.provider] && c.prefs.allowFallbacks
    requires !c.Affinity() && x.provider != y.provider && x.priority == y.priority
    requires x.K() !in c.view.routable && y.K() !in c.view.routable
    requires x.K() in c.view.latency && y.K() in c.view.latency && c.view.latency[x.K()] > c.view.latency[y.K()]
    ensures [x, y] <= Back(c, [x, y]) && Back(c, [x, y]) != BackSorted(c, [x, y])
  {
    TwoOfOneTier(x, y);
    TwoByOrder(x, y);
    FilterTwo(x, y, Not(Routable(c)));
    assert Deferred(c, [x, y]) == [x, y];
    DeferredSortedExactly(c, [x, y]);
    assert !BySort(c, Latency)(x, y);
    assert !SortedBy([x, y], BySort(c, Latency)) by {
      assert [x, y][0] == x && [x, y][1] == y;
    }
  }
}
