/** In-flight counts and the cache-warmth registry (src/localgateway/stats.py). A backend key names
    provider and model; times are wall-clock seconds. */
module Stats {
  import opened Wrappers
  import opened Sequences
  import opened Sorting

  const WARMTH_MAX_KEYS := 2000
  const WARMTH_MAX_ENTRIES := 20000

  // ---------- in-flight counts ----------

  function Count(m: map<string, nat>, key: string): nat {
    if key in m then m[key] else 0
  }

  function AfterStart(m: map<string, nat>, key: string): map<string, nat> {
    m[key := Count(m, key) + 1]
  }

  /** The count never goes below zero. */
  function AfterEnd(m: map<string, nat>, key: string): map<string, nat> {
    m[key := if Count(m, key) > 0 then Count(m, key) - 1 else 0]
  }

  class InFlight {
    var counts: map<string, nat>

    constructor ()
      ensures counts == map[]
    {
      counts := map[];
    }

    method StartRequest(key: string)
      modifies this
      ensures counts == AfterStart(old(counts), key)
    {
      var n := Count(counts, key);
      counts := counts[key := n + 1];
    }

    method EndRequest(key: string)
      modifies this
      ensures counts == AfterEnd(old(counts), key)
    {
      var n := Count(counts, key);
      counts := counts[key := n];
      if n > 0 {
        counts := counts[key := n - 1];
      }
      assert counts == old(counts)[key := if n > 0 then n - 1 else 0];
    }
  }

  /** Attempts start and end in any interleaving; each attempt has its own number. */
  datatype Step = Start(attempt: nat, key: string) | End(attempt: nat)

  datatype Board = Board(open: map<nat, string>, counts: map<string, nat>)

  predicate Enabled(b: Board, step: Step) {
    match step
    case Start(a, _) => a !in b.open
    case End(a) => a in b.open
  }

  function Next(b: Board, step: Step): Board
    requires Enabled(b, step)
  {
    match step
    case Start(a, key) => Board(b.open[a := key], AfterStart(b.counts, key))
    case End(a) => Board(b.open - {a}, AfterEnd(b.counts, b.open[a]))
  }

  ghost predicate Reaches(b: Board, steps: seq<Step>, end: Board)
    decreases |steps|
  {
    if steps == [] then b == end
    else Enabled(b, steps[0]) && Reaches(Next(b, steps[0]), steps[1..], end)
  }

  function OpenOn(open: map<nat, string>, key: string): set<nat> {
    set a | a in open && open[a] == key
  }

  ghost predicate Exact(b: Board) {
    forall key :: Count(b.counts, key) == |OpenOn(b.open, key)|
  }

  lemma OpenAfterStart(open: map<nat, string>, a: nat, k: string, key: string)
    requires a !in open
    ensures |OpenOn(open[a := k], key)| == |OpenOn(open, key)| + if key == k then 1 else 0
  {
    assert OpenOn(open[a := k], key) == OpenOn(open, key) + if key == k then {a} else {};
  }

  lemma OpenAfterEnd(open: map<nat, string>, a: nat, key: string)
    requires a in open
    ensures |OpenOn(open - {a}, key)| == |OpenOn(open, key)| - if key == open[a] then 1 else 0
  {
    assert open[a] == key ==> a in OpenOn(open, key);
    assert OpenOn(open - {a}, key) == OpenOn(open, key) - if key == open[a] then {a} else {};
  }

  lemma StepKeepsExact(b: Board, step: Step)
    requires Exact(b) && Enabled(b, step)
    ensures Exact(Next(b, step))
    ensures step.End? ==> Count(b.counts, b.open[step.attempt]) > 0
  {
    var c := Next(b, step);
    if step.End? {
      assert step.attempt in OpenOn(b.open, b.open[step.attempt]);
    }
    forall key ensures Count(c.counts, key) == |OpenOn(c.open, key)| {
      match step {
        case Start(a, k) => OpenAfterStart(b.open, a, k, key);
        case End(a) => OpenAfterEnd(b.open, a, key);
      }
    }
  }

  lemma {:induction false} RunKeepsExact(b: Board, steps: seq<Step>, end: Board)
    requires Exact(b) && Reaches(b, steps, end)
    ensures Exact(end)
    decreases |steps|
  {
    if steps == [] {
    } else {
      StepKeepsExact(b, steps[0]);
      RunKeepsExact(Next(b, steps[0]), steps[1..], end);
    }
  }

  /** Under any interleaving a backend's count is the number of its attempts between start and end;
      no attempt ever ends on a count of zero, so the clamp never fires. */
  lemma InFlightIsExact(steps: seq<Step>, end: Board, key: string, last: Step)
    requires Reaches(Board(map[], map[]), steps, end) && Enabled(end, last)
    ensures Count(end.counts, key) == |OpenOn(end.open, key)|
    ensures last.End? ==> Count(end.counts, end.open[last.attempt]) > 0
  {
    forall k ensures |OpenOn(map[], k)| == 0 {
      assert OpenOn(map[], k) == {};
    }
    RunKeepsExact(Board(map[], map[]), steps, end);
    StepKeepsExact(end, last);
  }

  // ---------- warmth ----------

  datatype Entry = Entry(lastSeen: real, hits: nat, writes: nat, misses: nat, rate: real)

  type Bucket = map<string, Entry>

  type Registry = map<string, Bucket>

  const NEW_ENTRY := Entry(0.0, 0, 0, 0, 0.0)

  function BucketOf(w: Registry, cacheKey: string): Bucket {
    if cacheKey in w then w[cacheKey] else map[]
  }

  function HitRate(hits: nat, misses: nat): real {
    if hits + misses == 0 then 0.0 else hits as real / (hits + misses) as real
  }

  /** An entry after one more response. */
  function Observed(e: Entry, cached: int, written: int, input: int, now: real): Entry {
    var f := if cached > 0 then e.(hits := e.hits + 1)
             else if written > 0 then e.(writes := e.writes + 1)
             else if input > 0 then e.(misses := e.misses + 1) else e;
    f.(lastSeen := now, rate := HitRate(f.hits, f.misses))
  }

  function With(w: Registry, cacheKey: string, backend: string, e: Entry): Registry {
    w[cacheKey := BucketOf(w, cacheKey)[backend := e]]
  }

  function EntryOf(w: Registry, cacheKey: string, backend: string): Entry {
    if backend in BucketOf(w, cacheKey) then BucketOf(w, cacheKey)[backend] else NEW_ENTRY
  }

  /** A response seen on a backend: its entry, new or not, is updated. */
  function Recorded(w: Registry, cacheKey: string, backend: string, cached: int, written: int, input: int,
                    now: real): Registry {
    With(w, cacheKey, backend, Observed(EntryOf(w, cacheKey, backend), cached, written, input, now))
  }

  /** All entries of the registry, by their two keys. */
  function Entries(w: Registry): set<(string, string)> {
    set c, b | c in w && b in w[c] :: (c, b)
  }

  predicate OverFull(w: Registry) {
    |w| > WARMTH_MAX_KEYS || |Entries(w)| > WARMTH_MAX_ENTRIES
  }

  /** No entry of bucket a was seen after every entry of bucket b. */
  ghost predicate NotNewer(a: Bucket, b: Bucket) {
    forall x :: x in a ==> exists y :: y in b && a[x].lastSeen <= b[y].lastSeen
  }

  ghost predicate Oldest(w: Registry, cacheKey: string) {
    cacheKey in w && forall c :: c in w ==> NotNewer(w[cacheKey], w[c])
  }

  /** After a recording: at most one bucket, the least recently seen, has been evicted. */
  ghost predicate Settles(added: Registry, w2: Registry) {
    if OverFull(added) then exists c :: Oldest(added, c) && w2 == added - {c} else w2 == added
  }

  ghost predicate RateExact(e: Entry) {
    && 0.0 <= e.rate <= 1.0
    && e.rate == if e.hits == 0 && e.misses == 0 then 0.0 else e.hits as real / (e.hits + e.misses) as real
  }

  ghost predicate NoneEmpty(w: Registry) {
    forall c :: c in w ==> w[c] != map[]
  }

  ghost predicate RatesExact(w: Registry) {
    forall c, b :: c in w && b in w[c] ==> RateExact(w[c][b])
  }

  ghost predicate Inv(w: Registry) {
    NoneEmpty(w) && RatesExact(w) && !OverFull(w)
  }

  /** The bucket without its expired entries. */
  function Live(bucket: Bucket, ttl: real, now: real): Bucket {
    map b | b in bucket && now - bucket[b].lastSeen <= ttl :: bucket[b]
  }

  function Swept(w: Registry, cacheKey: string, ttl: real, now: real): Registry {
    if cacheKey !in w then w
    else if Live(w[cacheKey], ttl, now) == map[] then w - {cacheKey}
    else w[cacheKey := Live(w[cacheKey], ttl, now)]
  }

  class Warmth {
    var warmth: Registry

    constructor ()
      ensures warmth == map[]
    {
      warmth := map[];
    }

    method NewestSeen(bucket: Bucket) returns (t: real, at: string)
      requires bucket != map[]
      ensures at in bucket && bucket[at].lastSeen == t
      ensures forall b :: b in bucket ==> bucket[b].lastSeen <= t
    {
      var todo := bucket.Keys;
      assert todo == {} ==> bucket == map[];
      at :| at in todo;
      t := bucket[at].lastSeen;
      while todo != {}
        invariant todo <= bucket.Keys && at in bucket && bucket[at].lastSeen == t
        invariant forall b :: b in bucket && b !in todo ==> bucket[b].lastSeen <= t
        decreases |todo|
      {
        var b :| b in todo;
        todo := todo - {b};
        if bucket[b].lastSeen > t {
          t, at := bucket[b].lastSeen, b;
        }
      }
    }

    method OldestBucket(w: Registry) returns (cacheKey: string)
      requires w != map[] && NoneEmpty(w)
      ensures Oldest(w, cacheKey)
    {
      var todo := w.Keys;
      assert todo == {} ==> w == map[];
      cacheKey :| cacheKey in todo;
      var least, witness' := NewestSeen(w[cacheKey]);
      while todo != {}
        invariant todo <= w.Keys && cacheKey in w
        invariant forall b :: b in w[cacheKey] ==> w[cacheKey][b].lastSeen <= least
        invariant forall c :: c in w && c !in todo ==> exists y :: y in w[c] && least <= w[c][y].lastSeen
        decreases |todo|
      {
        var c :| c in todo;
        todo := todo - {c};
        var t, at := NewestSeen(w[c]);
        if t < least {
          cacheKey, least := c, t;
        }
        assert at in w[c] && least <= w[c][at].lastSeen;
      }
    }

    method RecordCacheActivity(backend: string, cacheKey: Option<string>, cached: Option<int>, written: Option<int>,
                               input: Option<int>, supported: Option<bool>, now: real)
      requires Inv(warmth)
      modifies this
      ensures Inv(warmth)
      ensures cacheKey.None? || cacheKey == Some("") ==> warmth == old(warmth)
      ensures supported == Some(false) ==> warmth == old(warmth)
      ensures supported.None? && cached.GetOr(0) == 0 && written.GetOr(0) == 0 ==> warmth == old(warmth)
      ensures cacheKey.Some? && cacheKey.value != ""
              && (supported == Some(true) || (supported.None? && (cached.GetOr(0) != 0 || written.GetOr(0) != 0))) ==>
                Settles(Recorded(old(warmth), cacheKey.value, backend, cached.GetOr(0), written.GetOr(0),
                                 input.GetOr(0), now), warmth)
    {
      if cacheKey.None? || cacheKey.value == "" {
        return;
      }
      var supports := supported.GetOr(cached.GetOr(0) != 0 || written.GetOr(0) != 0);
      if !supports {
        return;
      }
      Record(backend, cacheKey.value, cached.GetOr(0), written.GetOr(0), input.GetOr(0), now);
    }

    method Observe(entry: Entry, cached: int, written: int, input: int, now: real) returns (e: Entry)
      ensures e == Observed(entry, cached, written, input, now)
    {
      e := entry.(lastSeen := now);
      if cached > 0 {
        e := e.(hits := e.hits + 1);
      } else if written > 0 {
        e := e.(writes := e.writes + 1);
      } else if input > 0 {
        e := e.(misses := e.misses + 1);
      }
      var total := e.hits + e.misses;
      e := e.(rate := if total != 0 then e.hits as real / total as real else 0.0);
    }

    method Record(backend: string, cacheKey: string, cached: int, written: int, input: int, now: real)
      requires Inv(warmth)
      modifies this
      ensures Inv(warmth)
      ensures Settles(Recorded(old(warmth), cacheKey, backend, cached, written, input, now), warmth)
    {
      ghost var w := warmth;
      var bucket := if cacheKey in warmth then warmth[cacheKey] else map[];
      var e := if backend in bucket then bucket[backend] else NEW_ENTRY;
      e := Observe(e, cached, written, input, now);
      warmth := warmth[cacheKey := bucket[backend := e]];
      warmth := Settle(warmth, w, cacheKey, backend, e);
      RecordKeepsInv(w, cacheKey, backend, cached, written, input, now, warmth);
    }

    /** Evicts the least recently seen bucket when the registry is over either bound. */
    method Settle(added: Registry, ghost w: Registry, ghost cacheKey: string, ghost backend: string, ghost e: Entry)
      returns (w2: Registry)
      requires NoneEmpty(w) && added == With(w, cacheKey, backend, e)
      ensures Settles(added, w2)
    {
      WithNoneEmpty(w, cacheKey, backend, e);
      w2 := added;
      if |added| > WARMTH_MAX_KEYS || |Entries(added)| > WARMTH_MAX_ENTRIES {
        var oldest := OldestBucket(added);
        w2 := added - {oldest};
      }
    }

    /** The warm backends among the candidates, by hit rate and then by recency; sweeps the expired
        entries of the key on the way. */
    method WarmBackendsFor(cacheKey: string, candidates: set<string>, ttl: real, now: real) returns (warm: seq<string>)
      requires Inv(warmth)
      modifies this
      ensures Inv(warmth)
      ensures cacheKey == "" || candidates == {} ==> warm == [] && warmth == old(warmth)
      ensures cacheKey != "" && candidates != {} ==>
                warmth == Swept(old(warmth), cacheKey, ttl, now)
                && Lists(warm, Live(BucketOf(old(warmth), cacheKey), ttl, now).Keys * candidates)
                && SortedBy(warm, Warmer(BucketOf(old(warmth), cacheKey)))
      ensures HottestFirst(BucketOf(old(warmth), cacheKey), warm)
    {
      if cacheKey == "" || candidates == {} {
        return [];
      }
      if cacheKey !in warmth {
        assert Live(map[], ttl, now) == map[];
        return [];
      }
      SweepKeepsInv(warmth, cacheKey, ttl, now);
      var bucket := warmth[cacheKey];
      var live := map b | b in bucket && now - bucket[b].lastSeen <= ttl :: bucket[b];
      assert live == Live(bucket, ttl, now);
      if live == map[] {
        warmth := warmth - {cacheKey};
        return [];
      }
      warmth := warmth[cacheKey := live];
      var found := set b | b in live && b in candidates;
      assert found == live.Keys * candidates;
      warm := Ranked(found, bucket);
    }
  }

  method Ranked(keys: set<string>, bucket: Bucket) returns (list: seq<string>)
    requires keys <= bucket.Keys
    ensures Lists(list, keys) && SortedBy(list, Warmer(bucket)) && HottestFirst(bucket, list)
  {
    list := ListOf(keys);
    SortMembers(list, Warmer(bucket));
    SortSorts(list, Warmer(bucket));
    list := StableSort(list, Warmer(bucket));
    WarmerIsHotter(bucket, list);
  }

  lemma WarmerIsHotter(bucket: Bucket, list: seq<string>)
    requires SortedBy(list, Warmer(bucket)) && forall k :: k in list ==> k in bucket
    ensures HottestFirst(bucket, list)
  {
    forall i | 0 <= i < |list| ensures list[i] in bucket {
      assert list[i] in list;
    }
    forall i, j | 0 <= i < j < |list|
      ensures bucket[list[i]].rate >= bucket[list[j]].rate
      ensures bucket[list[i]].rate == bucket[list[j]].rate ==> bucket[list[i]].lastSeen >= bucket[list[j]].lastSeen
    {
      assert Warmer(bucket)(list[i], list[j]);
    }
  }

  function HeatOf(bucket: Bucket, backend: string): Entry {
    if backend in bucket then bucket[backend] else NEW_ENTRY
  }

  /** A higher hit rate first, then the more recently seen. */
  function Warmer(bucket: Bucket): (string, string) -> bool {
    (x: string, y: string) =>
      HeatOf(bucket, x).rate > HeatOf(bucket, y).rate
      || (HeatOf(bucket, x).rate == HeatOf(bucket, y).rate && HeatOf(bucket, x).lastSeen >= HeatOf(bucket, y).lastSeen)
  }

  /** All have an entry; the higher hit rate comes first, and of equal ones the more recently seen. */
  predicate HottestFirst(bucket: Bucket, warm: seq<string>) {
    && (forall i :: 0 <= i < |warm| ==> warm[i] in bucket)
    && forall i, j :: 0 <= i < j < |warm| ==>
         && bucket[warm[i]].rate >= bucket[warm[j]].rate
         && (bucket[warm[i]].rate == bucket[warm[j]].rate ==> bucket[warm[i]].lastSeen >= bucket[warm[j]].lastSeen)
  }

  /** The elements of a set, each once, in some order. */
  ghost predicate Lists(list: seq<string>, keys: set<string>) {
    |list| == |keys| && forall k :: k in list <==> k in keys
  }

  method ListOf(keys: set<string>) returns (list: seq<string>)
    ensures Lists(list, keys)
  {
    list := [];
    var rest := keys;
    while rest != {}
      invariant rest <= keys && |list| + |rest| == |keys|
      invariant forall k :: k in list <==> k in keys && k !in rest
      decreases |rest|
    {
      var k :| k in rest;
      rest := rest - {k};
      list := list + [k];
    }
  }

  lemma HitRateInUnit(hits: nat, misses: nat)
    ensures 0.0 <= HitRate(hits, misses) <= 1.0
  {
  }

  lemma ObservedRate(e: Entry, cached: int, written: int, input: int, now: real)
    ensures RateExact(Observed(e, cached, written, input, now))
  {
    var f := Observed(e, cached, written, input, now);
    HitRateInUnit(f.hits, f.misses);
  }

  lemma WithNoneEmpty(w: Registry, cacheKey: string, backend: string, e: Entry)
    requires NoneEmpty(w)
    ensures NoneEmpty(With(w, cacheKey, backend, e)) && With(w, cacheKey, backend, e) != map[]
  {
    assert backend in BucketOf(w, cacheKey)[backend := e];
    assert cacheKey in With(w, cacheKey, backend, e);
  }

  lemma EntriesOfWith(w: Registry, cacheKey: string, backend: string, e: Entry)
    ensures Entries(With(w, cacheKey, backend, e)) == Entries(w) + {(cacheKey, backend)}
  {
  }

  lemma WithGrowsByOne(w: Registry, cacheKey: string, backend: string, e: Entry)
    ensures |With(w, cacheKey, backend, e)| <= |w| + 1
    ensures |Entries(With(w, cacheKey, backend, e))| <= |Entries(w)| + 1
  {
    EntriesOfWith(w, cacheKey, backend, e);
    var w2 := With(w, cacheKey, backend, e);
    assert w2.Keys == w.Keys + {cacheKey};
    assert |w2| == |w2.Keys| && |w| == |w.Keys|;
  }

  lemma RemovalShrinks(w: Registry, c: string)
    requires c in w && w[c] != map[]
    ensures |w - {c}| == |w| - 1 && |Entries(w - {c})| < |Entries(w)|
  {
    var v := w - {c};
    assert v.Keys == w.Keys - {c};
    assert |v| == |v.Keys| && |w| == |w.Keys|;
    assert w[c].Keys != {};
    var b :| b in w[c];
    assert (c, b) in Entries(w) && (c, b) !in Entries(v);
    assert Entries(v) <= Entries(w) - {(c, b)};
    SubsetSize(Entries(v), Entries(w) - {(c, b)});
  }

  lemma WithRates(w: Registry, cacheKey: string, backend: string, e: Entry)
    requires RatesExact(w) && RateExact(e)
    ensures RatesExact(With(w, cacheKey, backend, e))
  {
  }

  lemma AddedFacts(w: Registry, cacheKey: string, backend: string, e: Entry)
    requires Inv(w) && RateExact(e)
    ensures var added := With(w, cacheKey, backend, e);
            NoneEmpty(added) && RatesExact(added)
            && |added| <= WARMTH_MAX_KEYS + 1 && |Entries(added)| <= WARMTH_MAX_ENTRIES + 1
  {
    WithNoneEmpty(w, cacheKey, backend, e);
    WithRates(w, cacheKey, backend, e);
    WithGrowsByOne(w, cacheKey, backend, e);
  }

  lemma EvictOne(added: Registry, c: string)
    requires NoneEmpty(added) && RatesExact(added) && c in added
    requires |added| <= WARMTH_MAX_KEYS + 1 && |Entries(added)| <= WARMTH_MAX_ENTRIES + 1
    ensures Inv(added - {c})
  {
    RemovalShrinks(added, c);
    RemovalKeeps(added, c);
  }

  /** One recording adds at most one bucket and one entry, and no bucket is empty, so evicting a
      single bucket is enough to stay within both bounds. */
  lemma RecordKeepsInv(w: Registry, cacheKey: string, backend: string, cached: int, written: int, input: int,
                       now: real, w2: Registry)
    requires Inv(w) && Settles(Recorded(w, cacheKey, backend, cached, written, input, now), w2)
    ensures Inv(w2)
  {
    var e := Observed(EntryOf(w, cacheKey, backend), cached, written, input, now);
    ObservedRate(EntryOf(w, cacheKey, backend), cached, written, input, now);
    AddedFacts(w, cacheKey, backend, e);
    SettledKeepsInv(With(w, cacheKey, backend, e), w2);
  }

  lemma SettledKeepsInv(added: Registry, w2: Registry)
    requires NoneEmpty(added) && RatesExact(added) && Settles(added, w2)
    requires |added| <= WARMTH_MAX_KEYS + 1 && |Entries(added)| <= WARMTH_MAX_ENTRIES + 1
    ensures Inv(w2)
  {
    if OverFull(added) {
      var c :| Oldest(added, c) && w2 == added - {c};
      EvictOne(added, c);
    }
  }

  lemma RemovalKeeps(w: Registry, c: string)
    requires NoneEmpty(w) && RatesExact(w)
    ensures NoneEmpty(w - {c}) && RatesExact(w - {c})
  {
  }

  lemma SweepKeepsInv(w: Registry, cacheKey: string, ttl: real, now: real)
    requires Inv(w)
    ensures Inv(Swept(w, cacheKey, ttl, now))
  {
    SweepShrinks(w, cacheKey, ttl, now);
    SweepKeepsEntries(w, cacheKey, ttl, now);
  }

  lemma SweepKeepsEntries(w: Registry, cacheKey: string, ttl: real, now: real)
    requires NoneEmpty(w) && RatesExact(w)
    ensures NoneEmpty(Swept(w, cacheKey, ttl, now)) && RatesExact(Swept(w, cacheKey, ttl, now))
  {
    RemovalKeeps(w, cacheKey);
  }

  lemma SweepShrinks(w: Registry, cacheKey: string, ttl: real, now: real)
    ensures |Swept(w, cacheKey, ttl, now)| <= |w|
    ensures |Entries(Swept(w, cacheKey, ttl, now))| <= |Entries(w)|
  {
    var w2 := Swept(w, cacheKey, ttl, now);
    forall c, b | (c, b) in Entries(w2) ensures (c, b) in Entries(w) {
    }
    SubsetSize(Entries(w2), Entries(w));
    SubsetSize(w2.Keys, w.Keys);
    assert |w2| == |w2.Keys| && |w| == |w.Keys|;
  }

  /** One change of the registry by any operation. */
  ghost predicate Changes(w: Registry, w2: Registry) {
    || w2 == map[]
    || (exists cacheKey, ttl, now :: w2 == Swept(w, cacheKey, ttl, now))
    || (exists c, b, cached, written, input, now :: Settles(Recorded(w, c, b, cached, written, input, now), w2))
  }

  /** Over every run of recordings, lookups and clears, from an empty registry: no bucket is empty, at
      most 2000 keys and 20000 entries remain, and every hit rate is hits/(hits+misses), within [0,1]. */
  lemma {:induction false} RegistryInvariant(states: seq<Registry>)
    requires states != [] && states[0] == map[]
    requires forall i :: 0 <= i < |states| - 1 ==> Changes(states[i], states[i + 1])
    ensures Inv(states[|states| - 1])
    ensures |states[|states| - 1]| <= 2000 && |Entries(states[|states| - 1])| <= 20000
  {
    var n := |states|;
    if n == 1 {
      assert Entries(map[]) == {};
    } else {
      RegistryInvariant(states[..n - 1]);
      var w, w2 := states[n - 2], states[n - 1];
      assert Changes(states[n - 2], states[n - 2 + 1]);
      assert Entries(map[]) == {};
      if cacheKey, ttl, now :| w2 == Swept(w, cacheKey, ttl, now) {
        SweepKeepsInv(w, cacheKey, ttl, now);
      } else if c, b, cached, written, input, now :| Settles(Recorded(w, c, b, cached, written, input, now), w2) {
        RecordKeepsInv(w, c, b, cached, written, input, now, w2);
      }
    }
  }
}
