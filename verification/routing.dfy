/** What one backend selection reads, and the order it must produce (src/localgateway/router.py).
    A selection sees one snapshot of availability, in-flight counts, warmth and statistics, and its
    random draws are parameters. */
module Routing {
  import opened Wrappers
  import opened Sequences
  import opened Sorting

  datatype Key = Key(provider: string, model: string)

  datatype Provider = Provider(id: string, enabled: bool)

  datatype Backend = Backend(provider: string, model: string, priority: int, enabled: bool,
                             contextLength: Option<int>, maxOutputTokens: Option<int>, weight: real) {
    function K(): Key {
      Key(provider, model)
    }
  }

  /** slot is the whitelist of the active time slot; empty lets every backend through. */
  datatype Model = Model(id: string, aliases: seq<string>, enabled: bool, backends: seq<Backend>,
                         maxOutputTokens: Option<int>, slot: Option<seq<Key>>)

  datatype Server = Server(affinity: bool, maxInflight: Option<int>, statsRouting: bool, explore: bool, decay: real)

  datatype Sort = Latency | Throughput | Price | Cache | Value

  /** An absent order, or ignore list, is an empty one. */
  datatype Prefs = Prefs(order: seq<string>, ignore: seq<string>, allowFallbacks: bool, sort: Option<Sort>)

  datatype Pricing = Pricing(input: real, output: real)

  datatype View = View(routable: set<Key>, inflight: map<Key, nat>, warm: set<Key>, hitRate: map<Key, real>,
                       latency: map<Key, real>, successRate: map<Key, real>, tps: map<Key, real>)

  datatype Call = Call(models: seq<Model>, modelId: string, providers: seq<Provider>, pricing: map<Key, Pricing>,
                       server: Server, prefs: Prefs, maxTokens: Option<int>, inputTokens: Option<int>,
                       cacheKey: string, view: View) {
    predicate Affinity() {
      server.affinity && cacheKey != ""
    }

    /** Measured speeds, when this call uses them. */
    function Tps(): map<Key, real> {
      if server.statsRouting && (prefs.sort == Some(Throughput) || prefs.sort == Some(Value) || server.explore)
      then view.tps else map[]
    }

    function Decay(): real {
      if server.decay == 0.0 then 0.4 else server.decay
    }
  }

  // ---------- lookup ----------

  function ById(models: seq<Model>, id: string): Option<Model> {
    if models == [] then None else if models[0].id == id then Some(models[0]) else ById(models[1..], id)
  }

  function ByAlias(models: seq<Model>, id: string): Option<Model> {
    if models == [] then None else if id in models[0].aliases then Some(models[0]) else ByAlias(models[1..], id)
  }

  /** A model's own id wins over another model's alias. */
  function ModelById(models: seq<Model>, id: string): Option<Model> {
    if ById(models, id).Some? then ById(models, id) else ByAlias(models, id)
  }

  /** The first provider of that id decides. */
  predicate ProviderOn(providers: seq<Provider>, id: string) {
    providers != [] && if providers[0].id == id then providers[0].enabled else ProviderOn(providers[1..], id)
  }

  // ---------- which backends take part ----------

  function Smaller(a: Option<int>, b: Option<int>): Option<int> {
    if a.None? then b else if b.None? || a.value < b.value then a else b
  }

  predicate OutputFits(c: Call, m: Model, b: Backend) {
    c.maxTokens.Some? ==>
      var cap := Smaller(m.maxOutputTokens, b.maxOutputTokens);
      cap.Some? ==> c.maxTokens.value <= cap.value
  }

  predicate ContextFits(c: Call, b: Backend) {
    c.inputTokens.Some? && b.contextLength.Some? ==>
      c.inputTokens.value + c.maxTokens.GetOr(0) <= b.contextLength.value
  }

  predicate SlotAllows(m: Model, b: Backend) {
    m.slot.Some? && m.slot.value != [] ==> b.K() in m.slot.value
  }

  function Fits(c: Call, m: Model): Backend -> bool {
    (b: Backend) =>
      && b.enabled
      && b.provider !in c.prefs.ignore
      && ProviderOn(c.providers, b.provider)
      && OutputFits(c, m, b)
      && ContextFits(c, b)
      && SlotAllows(m, b)
  }

  function Eligible(c: Call, m: Model): seq<Backend> {
    Filter(m.backends, Fits(c, m))
  }

  function Routable(c: Call): Backend -> bool {
    (b: Backend) => b.K() in c.view.routable
  }

  function Listed(c: Call): Backend -> bool {
    (b: Backend) => b.provider in c.prefs.order
  }

  // ---------- tiers ----------

  function AtMostInt(): (int, int) -> bool {
    (x, y) => x <= y
  }

  function AtTier(k: int): Backend -> bool {
    (b: Backend) => b.priority == k
  }

  /** The priorities seen, in order of first appearance after those already seen. */
  function Priorities(seen: seq<int>, bs: seq<Backend>): seq<int>
    decreases |bs|
  {
    if bs == [] then seen
    else Priorities(if bs[0].priority in seen then seen else seen + [bs[0].priority], bs[1..])
  }

  function TierKeys(eligible: seq<Backend>): seq<int> {
    StableSort(Priorities([], eligible), AtMostInt())
  }

  function Tier(eligible: seq<Backend>): int -> seq<Backend> {
    k => Filter(eligible, AtTier(k))
  }

  function Gather(keys: seq<int>, f: int -> seq<Backend>): seq<Backend> {
    if keys == [] then [] else f(keys[0]) + Gather(keys[1..], f)
  }

  function TierOrdered(eligible: seq<Backend>): seq<Backend> {
    Gather(TierKeys(eligible), Tier(eligible))
  }

  function OfProvider(id: string): Backend -> bool {
    (b: Backend) => b.provider == id
  }

  /** All backends of each ordered provider, provider after provider. */
  function ByOrder(tiered: seq<Backend>, order: seq<string>): seq<Backend> {
    if order == [] then [] else Filter(tiered, OfProvider(order[0])) + ByOrder(tiered, order[1..])
  }

  function Preferred(c: Call, eligible: seq<Backend>): seq<Backend> {
    ByOrder(TierOrdered(eligible), c.prefs.order)
  }

  /** Only the ordered providers are tried. */
  predicate OnlyListed(c: Call, eligible: seq<Backend>) {
    !c.prefs.allowFallbacks && !c.Affinity() && Preferred(c, eligible) != []
  }

  // ---------- sorting by statistics ----------

  datatype Rank = Rank(first: real, second: real, third: real)

  predicate RankAtMost(x: Rank, y: Rank) {
    x.first < y.first
    || (x.first == y.first && (x.second < y.second || (x.second == y.second && x.third <= y.third)))
  }

  function Missing(m: map<Key, real>, k: Key): real {
    if k in m then 0.0 else 1.0
  }

  function At(m: map<Key, real>, k: Key): real {
    if k in m then m[k] else 0.0
  }

  /** An unknown latency and a latency of 0 both count as very slow. */
  function LatencyOrSlow(c: Call, k: Key): real {
    if At(c.view.latency, k) == 0.0 then 999999.0 else c.view.latency[k]
  }

  function BlendedPrice(c: Call, k: Key): Option<real> {
    if k !in c.pricing || (c.pricing[k].input == 0.0 && c.pricing[k].output == 0.0) then None
    else Some(c.pricing[k].input + c.pricing[k].output)
  }

  function WarmRate(c: Call, k: Key): real {
    if k in c.view.warm then At(c.view.hitRate, k) else 0.0
  }

  function AtLeastTiny(price: real): real {
    if price < 0.000000000001 then 0.000000000001 else price
  }

  function SortRank(c: Call, sort: Sort, k: Key): Rank {
    match sort
    case Latency => Rank(Missing(c.view.latency, k), At(c.view.latency, k), 0.0)
    case Throughput =>
      if c.Tps() != map[] then Rank(Missing(c.Tps(), k), -At(c.Tps(), k), 0.0)
      else Rank(Missing(c.view.successRate, k), -At(c.view.successRate, k), LatencyOrSlow(c, k))
    case Price =>
      var price := BlendedPrice(c, k);
      if price.None? then Rank(1.0, 0.0, 0.0) else Rank(0.0, price.value, 0.0)
    case Value =>
      var price := BlendedPrice(c, k);
      if k !in c.Tps() || price.None? then Rank(1.0, 0.0, 0.0)
      else Rank(0.0, -(c.Tps()[k] / AtLeastTiny(price.value)), 0.0)
    case Cache =>
      Rank(if WarmRate(c, k) != 0.0 then 0.0 else 1.0, -WarmRate(c, k), LatencyOrSlow(c, k))
  }

  function BySort(c: Call, sort: Sort): (Backend, Backend) -> bool {
    (x: Backend, y: Backend) => RankAtMost(SortRank(c, sort, x.K()), SortRank(c, sort, y.K()))
  }

  function Sorted(c: Call, bs: seq<Backend>): seq<Backend> {
    if c.prefs.sort.Some? then StableSort(bs, BySort(c, c.prefs.sort.value)) else bs
  }

  // ---------- who leads ----------

  function Sum(ws: seq<real>): real {
    if ws == [] then 0.0 else ws[0] + Sum(ws[1..])
  }

  /** The first weight at which the running total exceeds pick; none of them is the length. */
  function Drawn(ws: seq<real>, pick: real): (i: nat)
    ensures i <= |ws|
  {
    if ws == [] || pick < ws[0] then 0 else 1 + Drawn(ws[1..], pick - ws[0])
  }

  /** A draw u picks at u times the total weight; index 0 when no running total exceeds that. */
  function Leads(ws: seq<real>, u: real): (i: nat)
    ensures ws != [] ==> i < |ws|
  {
    Chosen(ws, Part(u, Sum(ws)))
  }

  function Part(u: real, total: real): real {
    u * total
  }

  function Chosen(ws: seq<real>, pick: real): (i: nat)
    ensures ws != [] ==> i < |ws|
  {
    if Drawn(ws, pick) == |ws| then 0 else Drawn(ws, pick)
  }

  function Measured(bs: seq<Backend>, tps: map<Key, real>): seq<real> {
    if bs == [] then []
    else (if bs[0].K() in tps then [tps[bs[0].K()]] else []) + Measured(bs[1..], tps)
  }

  /** An unmeasured backend weighs what the measured ones weigh on average. */
  function TpsWeights(bs: seq<Backend>, tps: map<Key, real>, avg: real): (ws: seq<real>)
    ensures |ws| == |bs|
  {
    if bs == [] then []
    else [if bs[0].K() in tps then tps[bs[0].K()] else avg] + TpsWeights(bs[1..], tps, avg)
  }

  function Average(ws: seq<real>): real
    requires ws != []
  {
    Sum(ws) / |ws| as real
  }

  function StaticWeights(bs: seq<Backend>): (ws: seq<real>)
    ensures |ws| == |bs|
  {
    if bs == [] then []
    else [if bs[0].weight < 0.0 then 0.0 else bs[0].weight] + StaticWeights(bs[1..])
  }

  predicate EvenWeights(bs: seq<Backend>) {
    forall b :: b in bs ==> b.weight == 1.0
  }

  function TpsLeader(bs: seq<Backend>, tps: map<Key, real>, rotation: nat, u: real): (i: nat)
    requires bs != []
    ensures i < |bs|
  {
    if |bs| == 1 then 0
    else if Measured(bs, tps) == [] then rotation % |bs|
    else Leads(TpsWeights(bs, tps, Average(Measured(bs, tps))), u)
  }

  function StaticLeader(bs: seq<Backend>, rotation: nat, u: real): (i: nat)
    requires bs != []
    ensures i < |bs|
  {
    if |bs| == 1 then 0
    else if Sum(StaticWeights(bs)) <= 0.0 then rotation % |bs|
    else Leads(StaticWeights(bs), u)
  }

  /** The place of the first candidate among the routable backends of a tier. */
  function Leader(c: Call, bs: seq<Backend>, rotation: nat, u: real): (i: nat)
    requires bs != []
    ensures i < |bs|
  {
    if c.Tps() != map[] && c.server.explore then TpsLeader(bs, c.Tps(), rotation, u)
    else if EvenWeights(bs) then rotation % |bs|
    else StaticLeader(bs, rotation, u)
  }

  function Rotate<T>(s: seq<T>, r: nat): seq<T>
    requires r <= |s|
  {
    s[r..] + s[..r]
  }

  /** Sorting, when asked for, replaces rotation. */
  function Arranged(c: Call, bs: seq<Backend>, rotation: nat, u: real): seq<Backend> {
    if c.prefs.sort.Some? then Sorted(c, bs)
    else if bs == [] then []
    else Rotate(bs, Leader(c, bs, rotation, u))
  }

  // ---------- which tier comes first ----------

  function Pow(x: real, n: nat): real {
    if n == 0 then 1.0 else Part(x, Pow(x, n - 1))
  }

  /** The powers i to n - 1. */
  function Powers(x: real, i: nat, n: nat): (ws: seq<real>)
    requires i <= n
    ensures |ws| == n - i
    decreases n - i
  {
    if i == n then [] else [Pow(x, i)] + Powers(x, i + 1, n)
  }

  function OtherThan(k: int): int -> bool {
    x => x != k
  }

  function Divided(ws: seq<real>, total: real): (ps: seq<real>)
    requires total != 0.0
    ensures |ps| == |ws|
  {
    if ws == [] then [] else [ws[0] / total] + Divided(ws[1..], total)
  }

  /** Weights as shares of their total. A total of 0 makes the division raise; the shares are then not used. */
  function Shares(ws: seq<real>): (ps: seq<real>)
    ensures |ps| == |ws|
  {
    if Sum(ws) == 0.0 then ws else Divided(ws, Sum(ws))
  }

  /** The drawn tier moves to the front. */
  function Sampled(keys: seq<int>, decay: real, u: real): seq<int>
    requires keys != []
  {
    var first := keys[Chosen(Shares(Powers(decay, 0, |keys|)), u)];
    [first] + Filter(keys, OtherThan(first))
  }

  /** The order of the tiers is drawn. */
  predicate Samples(c: Call, eligible: seq<Backend>) {
    c.server.explore && |TierKeys(eligible)| > 1 && c.prefs.order == [] && !c.Affinity()
  }

  /** Drawing the order of the tiers divides by zero. */
  predicate SamplingFails(c: Call, eligible: seq<Backend>) {
    Samples(c, eligible) && Sum(Powers(c.Decay(), 0, |TierKeys(eligible)|)) == 0.0
  }

  function TierSequence(c: Call, eligible: seq<Backend>, u: real): seq<int> {
    var keys := TierKeys(eligible);
    if Samples(c, eligible) then Sampled(keys, c.Decay(), u) else keys
  }

  // ---------- cache affinity ----------

  function InFlight(c: Call, b: Backend): nat {
    if b.K() in c.view.inflight then c.view.inflight[b.K()] else 0
  }

  predicate UnderCap(c: Call, b: Backend) {
    c.server.maxInflight.Some? ==> InFlight(c, b) < c.server.maxInflight.value
  }

  /** Warm and idle, warm and busy, cold and idle, and the rest: cold and busy, or spilled. */
  function Band(c: Call, b: Backend): nat {
    if b.K() in c.view.warm then (if InFlight(c, b) == 0 then 0 else if UnderCap(c, b) then 1 else 3)
    else if InFlight(c, b) == 0 then 2 else 3
  }

  function LastAt(order: seq<string>, id: string): (i: nat)
    requires id in order
    ensures i < |order| && order[i] == id && forall j :: i < j < |order| ==> order[j] != id
  {
    if order[|order| - 1] == id then |order| - 1 else LastAt(order[..|order| - 1], id)
  }

  /** A provider listed twice ranks by its last place, an unlisted one after all others. */
  function OrderRank(order: seq<string>, id: string): nat {
    if id in order then LastAt(order, id) else |order|
  }

  /** Band, then the caller's order, then spilled before cold, then fewest requests in flight. */
  datatype Affinity = Affinity(band: int, rank: int, cold: int, inflight: int)

  predicate AffinityAtMost(x: Affinity, y: Affinity) {
    x.band < y.band || (x.band == y.band && (x.rank < y.rank || (x.rank == y.rank
      && (x.cold < y.cold || (x.cold == y.cold && x.inflight <= y.inflight)))))
  }

  function AffinityOf(c: Call, b: Backend): Affinity {
    Affinity(Band(c, b), OrderRank(c.prefs.order, b.provider), if b.K() in c.view.warm then 0 else 1, InFlight(c, b))
  }

  function ByAffinity(c: Call): (Backend, Backend) -> bool {
    (x: Backend, y: Backend) => AffinityAtMost(AffinityOf(c, x), AffinityOf(c, y))
  }

  // ---------- the whole order ----------

  /** A tier's backends; without affinity the ordered providers are served elsewhere. */
  function Group(c: Call, eligible: seq<Backend>): int -> seq<Backend> {
    k => if c.Affinity() then Tier(eligible)(k) else Filter(Tier(eligible)(k), Not(Listed(c)))
  }

  function Available(c: Call, eligible: seq<Backend>, rotation: nat, draw: int -> real): int -> seq<Backend> {
    k => Arranged(c, Filter(Group(c, eligible)(k), Routable(c)), rotation, draw(k))
  }

  function Limited(c: Call, eligible: seq<Backend>): int -> seq<Backend> {
    k => Sorted(c, Filter(Group(c, eligible)(k), Not(Routable(c))))
  }

  function Unlisted(c: Call, f: int -> seq<Backend>): int -> seq<Backend> {
    k => Filter(f(k), Not(Listed(c)))
  }

  /** What cache affinity sorts: ordered providers, then the tiers. */
  function AffinityBase(c: Call, eligible: seq<Backend>, rotation: nat, draw: int -> real): seq<Backend> {
    Filter(Preferred(c, eligible), Routable(c))
      + Gather(TierKeys(eligible), Unlisted(c, Available(c, eligible, rotation, draw)))
  }

  /** The routable backends, in the order they are tried. */
  function Front(c: Call, eligible: seq<Backend>, rotation: nat, draw: int -> real, u: real): seq<Backend> {
    var preferred := Filter(Preferred(c, eligible), Routable(c));
    if OnlyListed(c, eligible) then Sorted(c, preferred)
    else if c.Affinity() then StableSort(AffinityBase(c, eligible, rotation, draw), ByAffinity(c))
    else Sorted(c, preferred) + Gather(TierSequence(c, eligible, u), Available(c, eligible, rotation, draw))
  }

  /** The backends that are limited or whose circuit is open. Deferred ordered providers are not sorted. */
  function Back(c: Call, eligible: seq<Backend>): seq<Backend> {
    var preferred := Filter(Preferred(c, eligible), Not(Routable(c)));
    if OnlyListed(c, eligible) then Sorted(c, preferred)
    else if c.Affinity() then preferred + Gather(TierKeys(eligible), Unlisted(c, Limited(c, eligible)))
    else preferred + Gather(TierKeys(eligible), Limited(c, eligible))
  }

  function Emission(c: Call, eligible: seq<Backend>, rotation: nat, draw: int -> real, u: real): seq<Backend> {
    if eligible == [] then []
    else Front(c, eligible, rotation, draw, u) + Back(c, eligible)
  }
}
