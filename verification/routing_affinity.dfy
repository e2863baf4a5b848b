/** The cache-affinity bands, computed by successive partitions and sorts
    (src/localgateway/router.py:423-508), are one stable sort. */
module RoutingAffinity {
  import opened Wrappers
  import opened Sequences
  import opened Sorting
  import opened Routing

  function All(): Backend -> bool {
    (b: Backend) => true
  }

  function Warm(c: Call): Backend -> bool {
    (b: Backend) => b.K() in c.view.warm
  }

  function Idle(c: Call): Backend -> bool {
    (b: Backend) => InFlight(c, b) == 0
  }

  function Under(c: Call): Backend -> bool {
    (b: Backend) => UnderCap(c, b)
  }

  function ByInFlight(c: Call): (Backend, Backend) -> bool {
    (x: Backend, y: Backend) => InFlight(c, x) <= InFlight(c, y)
  }

  function ByRank(order: seq<string>): (Backend, Backend) -> bool {
    (x: Backend, y: Backend) => OrderRank(order, x.provider) <= OrderRank(order, y.provider)
  }

  /** Backends of the providers the caller named come first, in that order. */
  function Tiebreak(items: seq<Backend>, order: seq<string>): seq<Backend> {
    if order == [] then items else StableSort(items, ByRank(order))
  }

  lemma {:induction false} SortAllEqual(s: seq<Backend>, leq: (Backend, Backend) -> bool)
    requires forall x, y :: leq(x, y)
    ensures StableSort(s, leq) == s
  {
    if s == [] {
    } else {
      SortAllEqual(s[1..], leq);
      HeadTail(s);
    }
  }

  lemma TiebreakIsSort(items: seq<Backend>, order: seq<string>)
    ensures Tiebreak(items, order) == StableSort(items, ByRank(order))
  {
    if order == [] {
      forall x: Backend, y: Backend ensures ByRank(order)(x, y) {
        assert OrderRank(order, x.provider) == 0 == OrderRank(order, y.provider);
      }
      SortAllEqual(items, ByRank(order));
    }
  }

  lemma Orders(c: Call)
    ensures TotalPreorder(ByAffinity(c)) && TotalPreorder(ByRank(c.prefs.order)) && TotalPreorder(ByInFlight(c))
  {
  }

  lemma KeyRespected(c: Call)
    ensures Respects(Warm(c), ByAffinity(c)) && Respects(Idle(c), ByAffinity(c)) && Respects(Under(c), ByAffinity(c))
    ensures Respects(Not(Warm(c)), ByAffinity(c)) && Respects(Not(Idle(c)), ByAffinity(c))
    ensures Respects(Not(Under(c)), ByAffinity(c))
    ensures forall x, y :: Same(x, y, ByAffinity(c)) ==> ByRank(c.prefs.order)(x, y) && ByInFlight(c)(x, y)
  {
  }

  // ---------- each band keeps its part of the base ----------

  function Cell(c: Call, warm: bool, idle: bool): Backend -> bool {
    And(And(All(), if warm then Warm(c) else Not(Warm(c))), if idle then Idle(c) else Not(Idle(c)))
  }

  lemma CellKeeps(c: Call, flat: seq<Backend>, warm: bool, idle: bool)
    ensures var w := if warm then Warm(c) else Not(Warm(c));
      var i := if idle then Idle(c) else Not(Idle(c));
      Keeps(Filter(Filter(flat, w), i), flat, Cell(c, warm, idle), ByAffinity(c))
  {
    var w := if warm then Warm(c) else Not(Warm(c));
    var i := if idle then Idle(c) else Not(Idle(c));
    KeyRespected(c);
    KeepsFilter(flat, flat, All(), w, ByAffinity(c));
    KeepsFilter(Filter(flat, w), flat, And(All(), w), i, ByAffinity(c));
  }

  /** The idle backends of one temperature, by the caller's order. */
  function Resting(c: Call, flat: seq<Backend>, warm: bool): seq<Backend> {
    Tiebreak(Filter(Filter(flat, if warm then Warm(c) else Not(Warm(c))), Idle(c)), c.prefs.order)
  }

  predicate InBand(c: Call, part: seq<Backend>, band: nat) {
    forall x :: x in part ==> Band(c, x) == band
  }

  /** A part of the base, picked by q, in order and all in one band. */
  ghost predicate BandOf(c: Call, flat: seq<Backend>, part: seq<Backend>, q: Backend -> bool, band: nat) {
    Keeps(part, flat, q, ByAffinity(c)) && SortedBy(part, ByAffinity(c)) && InBand(c, part, band)
  }

  lemma IdleBand(c: Call, flat: seq<Backend>, warm: bool)
    ensures BandOf(c, flat, Resting(c, flat, warm), Cell(c, warm, true), if warm then 0 else 2)
  {
    var cell := Filter(Filter(flat, if warm then Warm(c) else Not(Warm(c))), Idle(c));
    var part := Tiebreak(cell, c.prefs.order);
    Orders(c);
    KeyRespected(c);
    CellKeeps(c, flat, warm, true);
    TiebreakIsSort(cell, c.prefs.order);
    KeepsSort(cell, flat, Cell(c, warm, true), ByRank(c.prefs.order), ByAffinity(c));
    KeepsMembers(part, flat, Cell(c, warm, true), ByAffinity(c));
    SortSorts(cell, ByRank(c.prefs.order));
    forall i, j | 0 <= i < j < |part| ensures ByAffinity(c)(part[i], part[j]) {
      assert ByRank(c.prefs.order)(part[i], part[j]);
      assert part[i] in part && part[j] in part;
    }
  }

  /** The busy backends of one temperature, by the caller's order and then by load. */
  function Busy(c: Call, flat: seq<Backend>, warm: bool): seq<Backend> {
    Tiebreak(StableSort(Filter(Filter(flat, if warm then Warm(c) else Not(Warm(c))), Not(Idle(c))), ByInFlight(c)),
             c.prefs.order)
  }

  lemma BusyBand(c: Call, flat: seq<Backend>, warm: bool)
    ensures var part := Busy(c, flat, warm);
      && Keeps(part, flat, Cell(c, warm, false), ByAffinity(c))
      && SortedBy(part, Lex(ByRank(c.prefs.order), ByInFlight(c)))
      && forall x :: x in part ==> Cell(c, warm, false)(x)
  {
    var cell := Filter(Filter(flat, if warm then Warm(c) else Not(Warm(c))), Not(Idle(c)));
    var byLoad := StableSort(cell, ByInFlight(c));
    Orders(c);
    KeyRespected(c);
    CellKeeps(c, flat, warm, false);
    KeepsSort(cell, flat, Cell(c, warm, false), ByInFlight(c), ByAffinity(c));
    SortSorts(cell, ByInFlight(c));
    TiebreakIsSort(byLoad, c.prefs.order);
    KeepsSort(byLoad, flat, Cell(c, warm, false), ByRank(c.prefs.order), ByAffinity(c));
    SortLex(byLoad, ByRank(c.prefs.order), ByInFlight(c));
    KeepsMembers(Busy(c, flat, warm), flat, Cell(c, warm, false), ByAffinity(c));
  }

  /** Within one band and temperature, order and load decide. */
  lemma SortedInBand(c: Call, part: seq<Backend>, band: nat, warm: bool)
    requires SortedBy(part, Lex(ByRank(c.prefs.order), ByInFlight(c)))
    requires forall x :: x in part ==> Band(c, x) == band && Warm(c)(x) == warm
    ensures SortedBy(part, ByAffinity(c))
  {
  }

  /** The last band when spilled backends come before the cold ones and the caller's order is applied
      once more. */
  lemma SpillBand(c: Call, spill: seq<Backend>, cold: seq<Backend>)
    requires SortedBy(spill, ByAffinity(c)) && SortedBy(cold, ByAffinity(c))
    requires forall x :: x in spill ==> Band(c, x) == 3 && Warm(c)(x)
    requires forall x :: x in cold ==> Band(c, x) == 3 && !Warm(c)(x)
    ensures SortedBy(Tiebreak(spill + cold, c.prefs.order), ByAffinity(c))
  {
    var all := spill + cold;
    var rank := ByRank(c.prefs.order);
    Orders(c);
    assert TiesOrdered(all, rank, ByAffinity(c));
    SortLex(all, rank, ByAffinity(c));
    SortMembers(all, rank);
    TiebreakIsSort(all, c.prefs.order);
    var out := StableSort(all, rank);
    forall i, j | 0 <= i < j < |out| ensures ByAffinity(c)(out[i], out[j]) {
      assert Lex(rank, ByAffinity(c))(out[i], out[j]);
      assert out[i] in all && out[j] in all;
    }
  }

  // ---------- the bands together ----------

  /** The four bands in sequence. */
  function Bands(warmIdle: seq<Backend>, warmBusy: seq<Backend>, coldIdle: seq<Backend>, coldBusy: seq<Backend>)
    : seq<Backend>
  {
    ((warmIdle + warmBusy) + coldIdle) + coldBusy
  }

  lemma BandsSorted(c: Call, a: seq<Backend>, b: seq<Backend>, d: seq<Backend>, e: seq<Backend>)
    requires SortedBy(a, ByAffinity(c)) && SortedBy(b, ByAffinity(c))
    requires SortedBy(d, ByAffinity(c)) && SortedBy(e, ByAffinity(c))
    requires InBand(c, a, 0) && InBand(c, b, 1) && InBand(c, d, 2) && InBand(c, e, 3)
    ensures SortedBy(Bands(a, b, d, e), ByAffinity(c))
  {
  }

  predicate Partition(p: bool, q: bool, r: bool, s: bool) {
    (p || q || r || s) && !(p && q) && !(p && r) && !(p && s) && !(q && r) && !(q && s) && !(r && s)
  }

  /** Four parts in rising bands that together pick everything are the sort. */
  lemma FourParts(c: Call, flat: seq<Backend>, a: seq<Backend>, b: seq<Backend>, d: seq<Backend>, e: seq<Backend>,
                  p: Backend -> bool, q: Backend -> bool, r: Backend -> bool, s: Backend -> bool)
    requires BandOf(c, flat, a, p, 0) && BandOf(c, flat, b, q, 1)
    requires BandOf(c, flat, d, r, 2) && BandOf(c, flat, e, s, 3)
    requires forall x :: Partition(p(x), q(x), r(x), s(x))
    ensures Bands(a, b, d, e) == StableSort(flat, ByAffinity(c))
  {
    var leq := ByAffinity(c);
    Orders(c);
    BandsSorted(c, a, b, d, e);
    KeepsAppend(a, b, flat, p, q, leq);
    KeepsAppend(a + b, d, flat, Or(p, q), r, leq);
    KeepsAppend((a + b) + d, e, flat, Or(Or(p, q), r), s, leq);
    KeepsAllIsSort(Bands(a, b, d, e), flat, Or(Or(Or(p, q), r), s), leq);
  }

  lemma CellsPartition(c: Call)
    ensures forall x :: Partition(Cell(c, true, true)(x), Cell(c, true, false)(x), Cell(c, false, true)(x),
                                  Cell(c, false, false)(x))
    ensures forall x :: Partition(Cell(c, true, true)(x), And(Cell(c, true, false), Under(c))(x),
                                  Cell(c, false, true)(x), LastCell(c)(x))
  {
  }

  /** The busy backends of one temperature are one band, given that the warm ones are under the cap. */
  lemma BusyIsBand(c: Call, flat: seq<Backend>, warm: bool)
    requires warm ==> forall x :: x in Busy(c, flat, true) ==> UnderCap(c, x)
    ensures BandOf(c, flat, Busy(c, flat, warm), Cell(c, warm, false), if warm then 1 else 3)
  {
    BusyBand(c, flat, warm);
    SortedInBand(c, Busy(c, flat, warm), if warm then 1 else 3, warm);
  }

  /** When no warm and busy backend is over the cap, the bands as they stand are the sort. */
  lemma BandsWithoutSpill(c: Call, flat: seq<Backend>)
    requires forall x :: x in Busy(c, flat, true) ==> UnderCap(c, x)
    ensures Bands(Resting(c, flat, true), Busy(c, flat, true), Resting(c, flat, false), Busy(c, flat, false))
         == StableSort(flat, ByAffinity(c))
  {
    IdleBand(c, flat, true);
    IdleBand(c, flat, false);
    BusyIsBand(c, flat, true);
    BusyIsBand(c, flat, false);
    CellsPartition(c);
    FourParts(c, flat, Resting(c, flat, true), Busy(c, flat, true), Resting(c, flat, false), Busy(c, flat, false),
              Cell(c, true, true), Cell(c, true, false), Cell(c, false, true), Cell(c, false, false));
  }

  /** The warm and busy backends under the cap, or those over it. */
  lemma SpillKeeps(c: Call, flat: seq<Backend>, over: bool)
    ensures var p := if over then Not(Under(c)) else Under(c);
      && BandOf(c, flat, Filter(Busy(c, flat, true), p), And(Cell(c, true, false), p), if over then 3 else 1)
      && forall x :: x in Filter(Busy(c, flat, true), p) ==> Warm(c)(x)
  {
    var busy := Busy(c, flat, true);
    var p := if over then Not(Under(c)) else Under(c);
    Orders(c);
    KeyRespected(c);
    BusyBand(c, flat, true);
    KeepsFilter(busy, flat, Cell(c, true, false), p, ByAffinity(c));
    KeepsMembers(Filter(busy, p), flat, And(Cell(c, true, false), p), ByAffinity(c));
    FilterSorted(busy, Lex(ByRank(c.prefs.order), ByInFlight(c)), p);
    SortedInBand(c, Filter(busy, p), if over then 3 else 1, true);
  }

  /** The spilled and the cold busy backends, ties broken once more. */
  function Last(c: Call, flat: seq<Backend>): seq<Backend> {
    Tiebreak(Filter(Busy(c, flat, true), Not(Under(c))) + Busy(c, flat, false), c.prefs.order)
  }

  function LastCell(c: Call): Backend -> bool {
    Or(And(Cell(c, true, false), Not(Under(c))), Cell(c, false, false))
  }

  lemma LastBand(c: Call, flat: seq<Backend>)
    ensures BandOf(c, flat, Last(c, flat), LastCell(c), 3)
  {
    var spill, cold := Filter(Busy(c, flat, true), Not(Under(c))), Busy(c, flat, false);
    Orders(c);
    KeyRespected(c);
    SpillKeeps(c, flat, true);
    BusyBand(c, flat, false);
    SortedInBand(c, cold, 3, false);
    SpillBand(c, spill, cold);
    KeepsAppend(spill, cold, flat, And(Cell(c, true, false), Not(Under(c))), Cell(c, false, false), ByAffinity(c));
    TiebreakIsSort(spill + cold, c.prefs.order);
    KeepsSort(spill + cold, flat, LastCell(c), ByRank(c.prefs.order), ByAffinity(c));
    KeepsMembers(Last(c, flat), flat, LastCell(c), ByAffinity(c));
  }

  /** Moving the warm backends over the cap in front of the cold busy ones gives the sort too. */
  lemma BandsWithSpill(c: Call, flat: seq<Backend>)
    ensures Bands(Resting(c, flat, true), Filter(Busy(c, flat, true), Under(c)), Resting(c, flat, false), Last(c, flat))
         == StableSort(flat, ByAffinity(c))
  {
    IdleBand(c, flat, true);
    IdleBand(c, flat, false);
    SpillKeeps(c, flat, false);
    LastBand(c, flat);
    CellsPartition(c);
    FourParts(c, flat, Resting(c, flat, true), Filter(Busy(c, flat, true), Under(c)),
              Resting(c, flat, false), Last(c, flat),
              Cell(c, true, true), And(Cell(c, true, false), Under(c)), Cell(c, false, true), LastCell(c));
  }

  // ---------- what the sort means ----------

  predicate IsWarm(c: Call, b: Backend) {
    Key(b.provider, b.model) in c.view.warm
  }

  /** The requests in flight, 0 for a backend never seen. */
  function Load(c: Call, b: Backend): nat {
    var k := Key(b.provider, b.model);
    if k in c.view.inflight then c.view.inflight[k] else 0
  }

  /** Busy, and as busy as the cap or more. */
  predicate OverCap(c: Call, b: Backend) {
    Load(c, b) > 0 && c.server.maxInflight.Some? && Load(c, b) >= c.server.maxInflight.value
  }

  /** Neither a named provider's backend after an unnamed one's, nor one named, for the last time, later. */
  predicate AsNamed(order: seq<string>, x: Backend, y: Backend) {
    y.provider in order ==> x.provider in order && LastAt(order, x.provider) <= LastAt(order, y.provider)
  }

  predicate SamePlace(order: seq<string>, x: Backend, y: Backend) {
    x.provider == y.provider || (x.provider !in order && y.provider !in order)
  }

  /** Among backends that neither warmth nor load puts apart the caller's order decides, then warmth, and then
      the lower load. */
  predicate MayPrecedeInBand(c: Call, x: Backend, y: Backend) {
    && AsNamed(c.prefs.order, x, y)
    && (SamePlace(c.prefs.order, x, y) ==>
          (IsWarm(c, y) ==> IsWarm(c, x)) && (IsWarm(c, x) == IsWarm(c, y) ==> Load(c, x) <= Load(c, y)))
  }

  /** Whether x may come before y: warm and idle ones come before all others; warm and busy ones below the cap
      before the cold and the over-full; cold and idle ones before the cold and busy and the over-full. */
  predicate MayPrecede(c: Call, x: Backend, y: Backend) {
    if IsWarm(c, y) && Load(c, y) == 0 then
      IsWarm(c, x) && Load(c, x) == 0 && MayPrecedeInBand(c, x, y)
    else if IsWarm(c, y) && !OverCap(c, y) then
      IsWarm(c, x) && !OverCap(c, x) && (Load(c, x) > 0 ==> MayPrecedeInBand(c, x, y))
    else if !IsWarm(c, y) && Load(c, y) == 0 then
      if IsWarm(c, x) then !OverCap(c, x) else Load(c, x) == 0 && MayPrecedeInBand(c, x, y)
    else
      (if IsWarm(c, x) then OverCap(c, x) else Load(c, x) > 0) ==> MayPrecedeInBand(c, x, y)
  }

  lemma AffinityMeans(c: Call, x: Backend, y: Backend)
    requires ByAffinity(c)(x, y)
    ensures MayPrecede(c, x, y)
  {
  }

  /** Whatever is ordered by affinity keeps to these rules. */
  lemma AffinityKeepsRules(c: Call, flat: seq<Backend>, i: nat, j: nat)
    requires i < j < |StableSort(flat, ByAffinity(c))|
    ensures MayPrecede(c, StableSort(flat, ByAffinity(c))[i], StableSort(flat, ByAffinity(c))[j])
  {
    Orders(c);
    SortSorts(flat, ByAffinity(c));
    AffinityMeans(c, StableSort(flat, ByAffinity(c))[i], StableSort(flat, ByAffinity(c))[j]);
  }

  // ---------- the algorithm ----------

  /** src/localgateway/router.py:472-477: idle ones in their order, busy ones least busy first. */
  method SplitIdleBusy(c: Call, items: seq<Backend>) returns (idle: seq<Backend>, busy: seq<Backend>)
    ensures idle == Filter(items, Idle(c))
    ensures busy == StableSort(Filter(items, Not(Idle(c))), ByInFlight(c))
  {
    idle, busy := Split(items, Idle(c));
    busy := StableSort(busy, ByInFlight(c));
  }

  /** The loop behind every partition of this module. */
  method Split(items: seq<Backend>, p: Backend -> bool) returns (yes: seq<Backend>, no: seq<Backend>)
    ensures yes == Filter(items, p) && no == Filter(items, Not(p))
  {
    yes, no := [], [];
    for i := 0 to |items|
      invariant yes + Filter(items[i..], p) == Filter(items, p)
      invariant no + Filter(items[i..], Not(p)) == Filter(items, Not(p))
    {
      Assoc(yes, [items[i]], Filter(items[i + 1..], p));
      Assoc(no, [items[i]], Filter(items[i + 1..], Not(p)));
      assert items[i..][1..] == items[i + 1..];
      Units(Filter(items[i + 1..], p));
      Units(Filter(items[i + 1..], Not(p)));
      if p(items[i]) {
        yes := yes + [items[i]];
      } else {
        no := no + [items[i]];
      }
    }
    Units(yes);
    Units(no);
  }

  /** src/localgateway/router.py:463-508: partition by warmth and load, break ties by the caller's order,
      spill what exceeds the cap. */
  method OrderByAffinity(c: Call, flat: seq<Backend>) returns (out: seq<Backend>)
    ensures out == StableSort(flat, ByAffinity(c))
    ensures forall i, j :: 0 <= i < j < |out| ==> MayPrecede(c, out[i], out[j])
  {
    var warm, cold := Split(flat, Warm(c));
    var warmIdle, warmBusy := SplitIdleBusy(c, warm);
    var coldIdle, coldBusy := SplitIdleBusy(c, cold);
    warmIdle := Tiebreak(warmIdle, c.prefs.order);
    warmBusy := Tiebreak(warmBusy, c.prefs.order);
    coldIdle := Tiebreak(coldIdle, c.prefs.order);
    coldBusy := Tiebreak(coldBusy, c.prefs.order);
    assert warmIdle == Resting(c, flat, true) && coldIdle == Resting(c, flat, false);
    assert warmBusy == Busy(c, flat, true) && coldBusy == Busy(c, flat, false);
    if c.server.maxInflight.Some? && warmBusy != [] {
      var keep, spill := Split(warmBusy, Under(c));
      BandsWithSpill(c, flat);
      warmBusy := keep;
      coldBusy := Tiebreak(spill + coldBusy, c.prefs.order);
    } else {
      BandsWithoutSpill(c, flat);
    }
    out := Bands(warmIdle, warmBusy, coldIdle, coldBusy);
    forall i, j | 0 <= i < j < |out| ensures MayPrecede(c, out[i], out[j]) {
      AffinityKeepsRules(c, flat, i, j);
    }
  }
}
