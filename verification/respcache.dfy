/** The exact response cache: a bounded memory tier in front of a table that is written later
    (src/localgateway/respcache.py). */
module RespCache {
  import opened Wrappers
  import opened Sequences
  import opened Sse

  const MEM_CAPACITY := 256

  datatype Entry = Entry(body: Bytes, stream: bool, hits: nat, created: real, ttl: real, lastAccess: real)

  datatype Write =
    | Insert(key: string, row: Entry)
    | Delete(key: string)
    | Touch(key: string, at: real)
    | EvictTo(max: int)

  datatype Hit = Hit(body: Bytes, stream: bool, hits: nat)

  /** recency lists the keys of memory, least recently used first. queued: writes go through the
      background writer, which applies pending in order; otherwise they happen at once. writes counts
      the attempts to write. */
  datatype State = State(mem: map<string, Entry>, recency: seq<string>, table: map<string, Entry>,
                         pending: seq<Write>, queued: bool, writes: nat)

  /** The order in which the eviction statement lists the rows of a table, and which writes fail; a failed
      write is swallowed. */
  datatype Disk = Disk(listed: map<string, Entry> -> seq<string>, fails: nat -> bool)

  /** Every row is listed once, by its last access; rows with the same one come in any order. */
  ghost predicate ListsByAccess(disk: Disk) {
    forall table :: Lists(table, disk.listed(table))
  }

  ghost predicate Lists(table: map<string, Entry>, keys: seq<string>) {
    && NoDuplicates(keys) && (forall k :: k in keys <==> k in table)
    && forall i, j :: 0 <= i < j < |keys| ==> table[keys[i]].lastAccess <= table[keys[j]].lastAccess
  }

  predicate NoDuplicates(keys: seq<string>) {
    forall i, j :: 0 <= i < j < |keys| ==> keys[i] != keys[j]
  }

  function Front(keys: seq<string>, n: int): seq<string> {
    if n <= 0 then [] else if n < |keys| then keys[..n] else keys
  }

  /** The rows an eviction takes: as many as are too many, from the front of the list. */
  function Evicted(disk: Disk, table: map<string, Entry>, max: int): set<string> {
    Members(Front(disk.listed(table), |table| - max))
  }

  function Members(keys: seq<string>): set<string> {
    set k | k in keys
  }

  function EffectiveTtl(stored: real, asked: real): real {
    if stored == 0.0 then asked else if asked < stored then asked else stored
  }

  predicate Expired(e: Entry, ttl: real, now: real) {
    EffectiveTtl(e.ttl, ttl) > 0.0 && now - e.created > EffectiveTtl(e.ttl, ttl)
  }

  function Without(keys: seq<string>, key: string): (r: seq<string>)
    ensures forall k :: k in r <==> k in keys && k != key
    ensures |r| <= |keys|
  {
    if keys == [] then []
    else if keys[0] == key then Without(keys[1..], key)
    else [keys[0]] + Without(keys[1..], key)
  }

  function Trimmed(s: State): State
    decreases |s.recency|
  {
    if |s.mem| > MEM_CAPACITY && s.recency != []
    then Trimmed(s.(mem := s.mem - {s.recency[0]}, recency := s.recency[1..])) else s
  }

  function MemPut(s: State, key: string, e: Entry): State {
    Trimmed(s.(mem := s.mem[key := e], recency := Without(s.recency, key) + [key]))
  }

  function Written(table: map<string, Entry>, w: Write, disk: Disk): map<string, Entry> {
    match w
    case Insert(key, row) => table[key := row]
    case Delete(key) => table - {key}
    case Touch(key, at) =>
      if key in table then table[key := table[key].(hits := table[key].hits + 1, lastAccess := at)] else table
    case EvictTo(max) => table - Evicted(disk, table, max)
  }

  /** The table after an attempt to write. */
  function Attempted(s: State, w: Write, disk: Disk): State {
    s.(table := if disk.fails(s.writes) then s.table else Written(s.table, w, disk), writes := s.writes + 1)
  }

  function Enqueued(s: State, w: Write, disk: Disk): State {
    if s.queued then s.(pending := s.pending + [w]) else Attempted(s, w, disk)
  }

  function LookedUp(s: State, key: string, ttl: real, now: real): Option<Hit> {
    if key in s.mem then
      if Expired(s.mem[key], ttl, now) then None
      else Some(Hit(s.mem[key].body, s.mem[key].stream, s.mem[key].hits + 1))
    else if key in s.table && !Expired(s.table[key], ttl, now) then
      Some(Hit(s.table[key].body, s.table[key].stream, s.table[key].hits + 1))
    else None
  }

  function AfterLookup(s: State, key: string, ttl: real, now: real, disk: Disk): State {
    if key in s.mem then
      if Expired(s.mem[key], ttl, now) then
        Enqueued(s.(mem := s.mem - {key}, recency := Without(s.recency, key)), Delete(key), disk)
      else Enqueued(s.(recency := Without(s.recency, key) + [key]), Touch(key, now), disk)
    else if key !in s.table then s
    else if Expired(s.table[key], ttl, now) then Enqueued(s, Delete(key), disk)
    else Enqueued(MemPut(s, key, s.table[key].(lastAccess := now)), Touch(key, now), disk)
  }

  function Fresh(body: Bytes, stream: bool, ttl: real, now: real): Entry {
    Entry(body, stream, 0, now, ttl, now)
  }

  function AfterStore(s: State, key: string, e: Entry, max: int, disk: Disk): State {
    var t := Enqueued(MemPut(s, key, e), Insert(key, e), disk);
    if max > 0 then Enqueued(t, EvictTo(max), disk) else t
  }

  /** Clearing the table can fail; memory is emptied all the same. */
  function AfterClear(s: State, disk: Disk): State {
    s.(mem := map[], recency := [], table := if disk.fails(s.writes) then s.table else map[], writes := s.writes + 1)
  }

  /** The background writer gets round to the oldest pending write. */
  function AfterApply(s: State, disk: Disk): State {
    if s.pending == [] then s else Attempted(s.(pending := s.pending[1..]), s.pending[0], disk)
  }

  function Empty(queued: bool): State {
    State(map[], [], map[], [], queued, 0)
  }

  class ResponseCache {
    const disk: Disk
    const queued: bool
    var writes: nat
    var mem: map<string, Entry>
    var recency: seq<string>
    var table: map<string, Entry>
    var pending: seq<Write>

    ghost function St(): State
      reads this
    {
      State(mem, recency, table, pending, queued, writes)
    }

    constructor (disk: Disk, queued: bool)
      requires ListsByAccess(disk)
      ensures this.disk == disk && St() == Empty(queued)
    {
      this.disk, this.queued, writes := disk, queued, 0;
      mem, recency, table, pending := map[], [], map[], [];
    }

    method PutInMemory(key: string, e: Entry)
      modifies this`mem, this`recency
      ensures St() == MemPut(old(St()), key, e)
    {
      mem := mem[key := e];
      recency := Without(recency, key) + [key];
      while |mem| > MEM_CAPACITY && recency != []
        invariant Trimmed(St()) == MemPut(old(St()), key, e)
        decreases |recency|
      {
        mem := mem - {recency[0]};
        recency := recency[1..];
      }
    }

    method Enqueue(w: Write)
      modifies this`table, this`pending, this`writes
      ensures St() == Enqueued(old(St()), w, disk)
    {
      if queued {
        pending := pending + [w];
      } else {
        WriteSync(w);
      }
    }

    /** src/localgateway/respcache.py:157-166: an error of the database is swallowed. */
    method WriteSync(w: Write)
      modifies this`table, this`writes
      ensures St() == Attempted(old(St()), w, disk)
    {
      if !disk.fails(writes) {
        table := Written(table, w, disk);
      }
      writes := writes + 1;
    }

    method Lookup(key: string, ttl: real, now: real) returns (hit: Option<Hit>)
      modifies this
      ensures hit == LookedUp(old(St()), key, ttl, now)
      ensures St() == AfterLookup(old(St()), key, ttl, now, disk)
    {
      if key in mem {
        hit := LookupMemory(key, ttl, now);
      } else if key in table {
        hit := LookupTable(key, ttl, now);
      } else {
        hit := None;
      }
    }

    /** src/localgateway/respcache.py:184-195. */
    method LookupMemory(key: string, ttl: real, now: real) returns (hit: Option<Hit>)
      requires key in mem
      modifies this
      ensures hit == LookedUp(old(St()), key, ttl, now)
      ensures St() == AfterLookup(old(St()), key, ttl, now, disk)
    {
      var e := mem[key];
      var effective := if e.ttl != 0.0 then (if ttl < e.ttl then ttl else e.ttl) else ttl;
      if effective > 0.0 && now - e.created > effective {
        mem := mem - {key};
        recency := Without(recency, key);
        Enqueue(Delete(key));
        return None;
      }
      recency := Without(recency, key) + [key];
      Enqueue(Touch(key, now));
      return Some(Hit(e.body, e.stream, e.hits + 1));
    }

    /** src/localgateway/respcache.py:196-216. */
    method LookupTable(key: string, ttl: real, now: real) returns (hit: Option<Hit>)
      requires key !in mem && key in table
      modifies this
      ensures hit == LookedUp(old(St()), key, ttl, now)
      ensures St() == AfterLookup(old(St()), key, ttl, now, disk)
    {
      var row := table[key];
      var effective := if row.ttl != 0.0 then (if ttl < row.ttl then ttl else row.ttl) else ttl;
      if effective > 0.0 && now - row.created > effective {
        Enqueue(Delete(key));
        return None;
      }
      PutInMemory(key, row.(lastAccess := now));
      Enqueue(Touch(key, now));
      return Some(Hit(row.body, row.stream, row.hits + 1));
    }

    method Store(key: string, body: Bytes, stream: bool, ttl: real, max: int, now: real)
      modifies this
      ensures St() == AfterStore(old(St()), key, Fresh(body, stream, ttl, now), max, disk)
    {
      var e := Entry(body, stream, 0, now, ttl, now);
      PutInMemory(key, e);
      Enqueue(Insert(key, e));
      if max > 0 {
        Enqueue(EvictTo(max));
      }
    }

    method Clear() returns (n: nat)
      modifies this
      ensures St() == AfterClear(old(St()), disk) && n == if disk.fails(old(writes)) then 0 else |old(table)|
    {
      mem, recency, n := map[], [], 0;
      if !disk.fails(writes) {
        n := |table|;
        table := map[];
      }
      writes := writes + 1;
    }

    method ApplyPending()
      modifies this`table, this`pending, this`writes
      ensures St() == AfterApply(old(St()), disk)
    {
      if pending != [] {
        var w := pending[0];
        pending := pending[1..];
        WriteSync(w);
      }
    }
  }

  // ---------- runs ----------

  datatype Op =
    | LookupOp(key: string, ttl: real)
    | StoreOp(key: string, body: Bytes, stream: bool, ttl: real, max: int)
    | ClearOp
    | ApplyOp

  datatype Timed = Timed(op: Op, at: real)

  function AfterOp(s: State, t: Timed, disk: Disk): State {
    match t.op
    case LookupOp(key, ttl) => AfterLookup(s, key, ttl, t.at, disk)
    case StoreOp(key, body, stream, ttl, max) => AfterStore(s, key, Fresh(body, stream, ttl, t.at), max, disk)
    case ClearOp => AfterClear(s, disk)
    case ApplyOp => AfterApply(s, disk)
  }

  function AfterRun(queued: bool, run: seq<Timed>, disk: Disk): State {
    if run == [] then Empty(queued)
    else AfterOp(AfterRun(queued, run[..|run| - 1], disk), run[|run| - 1], disk)
  }

  /** The entry carries what one store call of the run put in, at the time of that call. */
  ghost predicate FromStore(run: seq<Timed>, key: string, e: Entry) {
    exists i :: 0 <= i < |run| && run[i].op.StoreOp? && run[i].op.key == key && run[i].op.body == e.body
                && run[i].op.stream == e.stream && run[i].op.ttl == e.ttl && run[i].at == e.created
  }

  ghost predicate AllFromStore(run: seq<Timed>, m: map<string, Entry>) {
    forall k :: k in m ==> FromStore(run, k, m[k])
  }

  ghost predicate PendingFromStore(run: seq<Timed>, pending: seq<Write>) {
    forall i :: 0 <= i < |pending| && pending[i].Insert? ==> FromStore(run, pending[i].key, pending[i].row)
  }

  ghost predicate Sound(run: seq<Timed>, s: State) {
    AllFromStore(run, s.mem) && AllFromStore(run, s.table) && PendingFromStore(run, s.pending)
  }

  /** Trimming only drops entries. */
  lemma {:induction false} TrimmedEntries(s: State)
    ensures var t := Trimmed(s);
            t == s.(mem := t.mem, recency := t.recency)
            && forall k :: k in t.mem ==> k in s.mem && t.mem[k] == s.mem[k]
    decreases |s.recency|
  {
    if |s.mem| <= MEM_CAPACITY || s.recency == [] {
    } else {
      TrimmedEntries(s.(mem := s.mem - {s.recency[0]}, recency := s.recency[1..]));
    }
  }

  lemma MemPutEntries(s: State, key: string, e: Entry)
    ensures var t := MemPut(s, key, e);
            t == s.(mem := t.mem, recency := t.recency)
            && forall k :: k in t.mem ==> if k == key then t.mem[k] == e else k in s.mem && t.mem[k] == s.mem[k]
  {
    TrimmedEntries(s.(mem := s.mem[key := e], recency := Without(s.recency, key) + [key]));
  }

  lemma FromStoreMonotone(run: seq<Timed>, t: Timed, key: string, e: Entry)
    requires FromStore(run, key, e)
    ensures FromStore(run + [t], key, e)
    ensures forall h: nat, at: real :: FromStore(run + [t], key, e.(hits := h, lastAccess := at))
  {
    var i :| 0 <= i < |run| && run[i].op.StoreOp? && run[i].op.key == key && run[i].op.body == e.body
             && run[i].op.stream == e.stream && run[i].op.ttl == e.ttl && run[i].at == e.created;
    assert (run + [t])[i] == run[i];
  }

  lemma SoundLater(run: seq<Timed>, t: Timed, s: State)
    requires Sound(run, s)
    ensures Sound(run + [t], s)
  {
    forall k | k in s.mem ensures FromStore(run + [t], k, s.mem[k]) {
      FromStoreMonotone(run, t, k, s.mem[k]);
    }
    forall k | k in s.table ensures FromStore(run + [t], k, s.table[k]) {
      FromStoreMonotone(run, t, k, s.table[k]);
    }
    forall i | 0 <= i < |s.pending| && s.pending[i].Insert?
      ensures FromStore(run + [t], s.pending[i].key, s.pending[i].row)
    {
      FromStoreMonotone(run, t, s.pending[i].key, s.pending[i].row);
    }
  }

  lemma FromStoreTouched(run: seq<Timed>, key: string, e: Entry, hits: nat, at: real)
    requires FromStore(run, key, e)
    ensures FromStore(run, key, e.(hits := hits, lastAccess := at))
  {
  }

  lemma WrittenSound(run: seq<Timed>, table: map<string, Entry>, w: Write, disk: Disk)
    requires AllFromStore(run, table) && (w.Insert? ==> FromStore(run, w.key, w.row))
    ensures AllFromStore(run, Written(table, w, disk))
  {
  }

  lemma EnqueuedSound(run: seq<Timed>, s: State, w: Write, disk: Disk)
    requires Sound(run, s) && (w.Insert? ==> FromStore(run, w.key, w.row))
    ensures Sound(run, Enqueued(s, w, disk))
  {
  }

  lemma MemPutSound(run: seq<Timed>, s: State, key: string, e: Entry)
    requires Sound(run, s) && FromStore(run, key, e)
    ensures Sound(run, MemPut(s, key, e))
  {
    MemPutEntries(s, key, e);
  }

  lemma LookupSound(run: seq<Timed>, s: State, key: string, ttl: real, now: real, disk: Disk)
    requires Sound(run, s)
    ensures Sound(run, AfterLookup(s, key, ttl, now, disk))
  {
    if key in s.mem {
      if Expired(s.mem[key], ttl, now) {
        EnqueuedSound(run, s.(mem := s.mem - {key}, recency := Without(s.recency, key)), Delete(key), disk);
      } else {
        EnqueuedSound(run, s.(recency := Without(s.recency, key) + [key]), Touch(key, now), disk);
      }
    } else if key in s.table {
      if Expired(s.table[key], ttl, now) {
        EnqueuedSound(run, s, Delete(key), disk);
      } else {
        FromStoreTouched(run, key, s.table[key], s.table[key].hits, now);
        MemPutSound(run, s, key, s.table[key].(lastAccess := now));
        EnqueuedSound(run, MemPut(s, key, s.table[key].(lastAccess := now)), Touch(key, now), disk);
      }
    }
  }

  lemma StoreSound(run: seq<Timed>, s: State, key: string, e: Entry, max: int, disk: Disk)
    requires Sound(run, s) && FromStore(run, key, e)
    ensures Sound(run, AfterStore(s, key, e, max, disk))
  {
    MemPutSound(run, s, key, e);
    var t := MemPut(s, key, e);
    EnqueuedSound(run, t, Insert(key, e), disk);
    EnqueuedSound(run, Enqueued(t, Insert(key, e), disk), EvictTo(max), disk);
  }

  lemma ApplySound(run: seq<Timed>, s: State, disk: Disk)
    requires Sound(run, s)
    ensures Sound(run, AfterApply(s, disk))
  {
    if s.pending != [] {
      WrittenSound(run, s.table, s.pending[0], disk);
    }
  }

  lemma OpSound(run: seq<Timed>, s: State, t: Timed, disk: Disk)
    requires Sound(run, s) && run != [] && run[|run| - 1] == t
    ensures Sound(run, AfterOp(s, t, disk))
  {
    match t.op {
      case LookupOp(key, ttl) =>
        LookupSound(run, s, key, ttl, t.at, disk);
      case StoreOp(key, body, stream, ttl, max) =>
        StoreSound(run, s, key, Fresh(body, stream, ttl, t.at), max, disk);
      case ClearOp =>
      case ApplyOp =>
        ApplySound(run, s, disk);
    }
  }

  lemma {:induction false} RunSound(queued: bool, run: seq<Timed>, disk: Disk)
    ensures Sound(run, AfterRun(queued, run, disk))
  {
    if run == [] {
    } else {
      var before, t := run[..|run| - 1], run[|run| - 1];
      RunSound(queued, before, disk);
      SoundLater(before, t, AfterRun(queued, before, disk));
      SnocSplit(run);
      OpSound(run, AfterRun(queued, before, disk), t, disk);
    }
  }

  /** An entry stored with one time to live and looked up with another has not outlived the smaller of the two.
      A stored 0 does not count, and a smaller one of 0 or less is no bound. */
  predicate StillFresh(stored: real, asked: real, age: real) {
    asked > 0.0 && stored >= 0.0 ==> age <= asked && (stored > 0.0 ==> age <= stored)
  }

  /** A lookup finds exactly what is in memory, or else in the table, and still fresh. */
  lemma FoundExactly(s: State, key: string, ttl: real, now: real)
    ensures LookedUp(s, key, ttl, now).Some?
      <==> if key in s.mem then StillFresh(s.mem[key].ttl, ttl, now - s.mem[key].created)
           else key in s.table && StillFresh(s.table[key].ttl, ttl, now - s.table[key].created)
  {
  }

  /** Absolute TTL: after any run of stores, lookups, clears, evictions and late writes, a hit returns
      the body of one store call for that key, and that call is no older than the effective TTL, if
      positive, however often the entry was hit. */
  lemma HitIsFreshStore(queued: bool, run: seq<Timed>, disk: Disk, key: string, ttl: real, now: real)
    requires LookedUp(AfterRun(queued, run, disk), key, ttl, now).Some?
    ensures var hit := LookedUp(AfterRun(queued, run, disk), key, ttl, now).value;
            exists i :: 0 <= i < |run| && run[i].op.StoreOp? && run[i].op.key == key
              && run[i].op.body == hit.body && run[i].op.stream == hit.stream
              && StillFresh(run[i].op.ttl, ttl, now - run[i].at)
  {
    var s := AfterRun(queued, run, disk);
    RunSound(queued, run, disk);
    var e := if key in s.mem then s.mem[key] else s.table[key];
    assert FromStore(run, key, e);
    var i :| 0 <= i < |run| && run[i].op.StoreOp? && run[i].op.key == key && run[i].op.body == e.body
             && run[i].op.stream == e.stream && run[i].op.ttl == e.ttl && run[i].at == e.created;
  }

  // ---------- the bound on memory ----------

  /** Memory is within its capacity and its recency list names exactly its keys. */
  ghost predicate Bounded(s: State) {
    |s.mem| <= MEM_CAPACITY && Named(s)
  }

  ghost predicate Named(s: State) {
    NoDuplicates(s.recency) && forall k :: k in s.recency <==> k in s.mem
  }

  lemma ConsDistinct(x: string, keys: seq<string>)
    requires NoDuplicates(keys) && x !in keys
    ensures NoDuplicates([x] + keys) && NoDuplicates(keys + [x])
  {
  }

  lemma {:induction false} WithoutKeepsDistinct(keys: seq<string>, key: string)
    requires NoDuplicates(keys)
    ensures NoDuplicates(Without(keys, key)) && NoDuplicates(Without(keys, key) + [key])
  {
    if keys != [] {
      WithoutKeepsDistinct(keys[1..], key);
      assert keys[0] !in keys[1..];
      ConsDistinct(keys[0], Without(keys[1..], key));
    }
    ConsDistinct(key, Without(keys, key));
  }

  /** Dropping the least recently used key keeps the list exact. */
  lemma DropOldest(s: State)
    requires Named(s) && s.recency != []
    ensures Named(s.(mem := s.mem - {s.recency[0]}, recency := s.recency[1..]))
    ensures |s.mem - {s.recency[0]}| == |s.mem| - 1
  {
  }

  lemma {:induction false} TrimmedBounded(s: State)
    requires Named(s)
    ensures Bounded(Trimmed(s))
    decreases |s.recency|
  {
    if |s.mem| <= MEM_CAPACITY {
    } else {
      assert s.recency == [] ==> s.mem.Keys == {};
      DropOldest(s);
      TrimmedBounded(s.(mem := s.mem - {s.recency[0]}, recency := s.recency[1..]));
    }
  }

  lemma MemPutBounded(s: State, key: string, e: Entry)
    requires Named(s)
    ensures Bounded(MemPut(s, key, e))
  {
    WithoutKeepsDistinct(s.recency, key);
    TrimmedBounded(s.(mem := s.mem[key := e], recency := Without(s.recency, key) + [key]));
  }

  lemma RemovedBounded(s: State, key: string)
    requires Bounded(s)
    ensures Bounded(s.(mem := s.mem - {key}, recency := Without(s.recency, key)))
    ensures key in s.mem ==> Bounded(s.(recency := Without(s.recency, key) + [key]))
  {
    WithoutKeepsDistinct(s.recency, key);
    var mem := s.mem - {key};
    assert mem.Keys <= s.mem.Keys;
    SubsetSize(mem.Keys, s.mem.Keys);
    assert |mem| == |mem.Keys| && |s.mem| == |s.mem.Keys|;
  }

  lemma EnqueuedBounded(s: State, w: Write, disk: Disk)
    requires Bounded(s)
    ensures Bounded(Enqueued(s, w, disk))
  {
  }

  lemma LookupBounded(s: State, key: string, ttl: real, now: real, disk: Disk)
    requires Bounded(s)
    ensures Bounded(AfterLookup(s, key, ttl, now, disk))
  {
    if key in s.mem {
      RemovedBounded(s, key);
      if Expired(s.mem[key], ttl, now) {
        EnqueuedBounded(s.(mem := s.mem - {key}, recency := Without(s.recency, key)), Delete(key), disk);
      } else {
        EnqueuedBounded(s.(recency := Without(s.recency, key) + [key]), Touch(key, now), disk);
      }
    } else if key in s.table {
      if Expired(s.table[key], ttl, now) {
        EnqueuedBounded(s, Delete(key), disk);
      } else {
        var e := s.table[key].(lastAccess := now);
        MemPutBounded(s, key, e);
        EnqueuedBounded(MemPut(s, key, e), Touch(key, now), disk);
      }
    }
  }

  lemma StoreBounded(s: State, key: string, e: Entry, max: int, disk: Disk)
    requires Bounded(s)
    ensures Bounded(AfterStore(s, key, e, max, disk))
  {
    MemPutBounded(s, key, e);
    EnqueuedBounded(MemPut(s, key, e), Insert(key, e), disk);
    EnqueuedBounded(Enqueued(MemPut(s, key, e), Insert(key, e), disk), EvictTo(max), disk);
  }

  lemma OpBounded(s: State, t: Timed, disk: Disk)
    requires Bounded(s)
    ensures Bounded(AfterOp(s, t, disk))
  {
    match t.op {
      case LookupOp(key, ttl) =>
        LookupBounded(s, key, ttl, t.at, disk);
      case StoreOp(key, body, stream, ttl, max) =>
        StoreBounded(s, key, Fresh(body, stream, ttl, t.at), max, disk);
      case ClearOp =>
      case ApplyOp =>
    }
  }

  /** Memory never exceeds its capacity, in any run. */
  lemma {:induction false} MemoryBounded(queued: bool, run: seq<Timed>, disk: Disk)
    ensures Bounded(AfterRun(queued, run, disk))
    ensures |AfterRun(queued, run, disk).mem| <= 256
  {
    if run == [] {
    } else {
      MemoryBounded(queued, run[..|run| - 1], disk);
      OpBounded(AfterRun(queued, run[..|run| - 1], disk), run[|run| - 1], disk);
    }
  }

  lemma TrimmedOnce(s: State)
    requires Named(s) && |s.mem| <= 257
    ensures Trimmed(s).mem == if |s.mem| == 257 then s.mem - {s.recency[0]} else s.mem
  {
    if |s.mem| == 257 {
      assert s.recency == [] ==> s.mem.Keys == {};
      DropOldest(s);
      var t := s.(mem := s.mem - {s.recency[0]}, recency := s.recency[1..]);
      assert Trimmed(t) == t;
    }
  }

  /** Memory takes 256 keys; one more makes room by dropping the least recently used, and only that. */
  lemma OneIsDropped(s: State, key: string, e: Entry)
    requires Bounded(s)
    ensures MemPut(s, key, e).mem
         == if key in s.mem || |s.mem| < 256 then s.mem[key := e] else s.mem[key := e] - {s.recency[0]}
  {
    var put := s.(mem := s.mem[key := e], recency := Without(s.recency, key) + [key]);
    WithoutKeepsDistinct(s.recency, key);
    assert put.mem.Keys == s.mem.Keys + {key};
    assert |put.mem| == |put.mem.Keys| && |s.mem| == |s.mem.Keys|;
    TrimmedOnce(put);
    if key !in s.mem {
      WithoutAbsent(s.recency, key);
      assert s.recency == [] ==> s.mem.Keys == {};
    }
  }

  // ---------- immediate writes ----------

  /** The entry answers with the body of a store. */
  predicate Says(e: Entry, body: Bytes, stream: bool) {
    e.body == body && e.stream == stream
  }

  /** The last store call for each key since the last clear. */
  function LastStored(run: seq<Timed>): map<string, Timed> {
    if run == [] then map[]
    else
      var before, t := LastStored(run[..|run| - 1]), run[|run| - 1];
      if t.op.StoreOp? then before[t.op.key := t] else if t.op.ClearOp? then map[] else before
  }

  predicate Leaves(op: Op, key: string) {
    !op.ClearOp? && (op.StoreOp? ==> op.key != key)
  }

  /** A run without a clear and without a store of the key. */
  predicate Continues(run: seq<Timed>, key: string) {
    forall i :: 0 <= i < |run| ==> Leaves(run[i].op, key)
  }

  function RunFrom(s: State, run: seq<Timed>, disk: Disk): State
    decreases |run|
  {
    if run == [] then s else RunFrom(AfterOp(s, run[0], disk), run[1..], disk)
  }

  predicate Immediate(s: State) {
    !s.queued && s.pending == []
  }

  /** Whatever is kept for the key answers with this body. */
  predicate Kept(s: State, key: string, body: Bytes, stream: bool) {
    && (key in s.mem ==> Says(s.mem[key], body, stream))
    && (key in s.table ==> Says(s.table[key], body, stream))
  }

  lemma WrittenKept(s: State, w: Write, disk: Disk, key: string, body: Bytes, stream: bool)
    requires Kept(s, key, body, stream) && Immediate(s)
    requires w.Insert? && w.key == key ==> Says(w.row, body, stream)
    ensures Kept(Enqueued(s, w, disk), key, body, stream) && Immediate(Enqueued(s, w, disk))
  {
  }

  lemma LookupKept(s: State, k: string, ttl: real, now: real, disk: Disk, key: string, body: Bytes, stream: bool)
    requires Kept(s, key, body, stream) && Immediate(s)
    ensures Kept(AfterLookup(s, k, ttl, now, disk), key, body, stream) && Immediate(AfterLookup(s, k, ttl, now, disk))
  {
    if k in s.mem {
      if Expired(s.mem[k], ttl, now) {
        WrittenKept(s.(mem := s.mem - {k}, recency := Without(s.recency, k)), Delete(k), disk, key, body, stream);
      } else {
        WrittenKept(s.(recency := Without(s.recency, k) + [k]), Touch(k, now), disk, key, body, stream);
      }
    } else if k in s.table {
      if Expired(s.table[k], ttl, now) {
        WrittenKept(s, Delete(k), disk, key, body, stream);
      } else {
        MemPutEntries(s, k, s.table[k].(lastAccess := now));
        WrittenKept(MemPut(s, k, s.table[k].(lastAccess := now)), Touch(k, now), disk, key, body, stream);
      }
    }
  }

  lemma StoreKept(s: State, k: string, e: Entry, max: int, disk: Disk, key: string, body: Bytes, stream: bool)
    requires Kept(s, key, body, stream) && Immediate(s) && (k == key ==> Says(e, body, stream))
    ensures Kept(AfterStore(s, k, e, max, disk), key, body, stream) && Immediate(AfterStore(s, k, e, max, disk))
  {
    MemPutEntries(s, k, e);
    WrittenKept(MemPut(s, k, e), Insert(k, e), disk, key, body, stream);
    WrittenKept(Enqueued(MemPut(s, k, e), Insert(k, e), disk), EvictTo(max), disk, key, body, stream);
  }

  lemma StepKept(s: State, t: Timed, disk: Disk, key: string, body: Bytes, stream: bool)
    requires Kept(s, key, body, stream) && Immediate(s) && Leaves(t.op, key)
    ensures Kept(AfterOp(s, t, disk), key, body, stream) && Immediate(AfterOp(s, t, disk))
  {
    match t.op {
      case LookupOp(k, ttl) =>
        LookupKept(s, k, ttl, t.at, disk, key, body, stream);
      case StoreOp(k, b, st, ttl, max) =>
        StoreKept(s, k, Fresh(b, st, ttl, t.at), max, disk, key, body, stream);
      case ApplyOp =>
    }
  }

  lemma {:induction false} RunKept(s: State, run: seq<Timed>, disk: Disk, key: string, body: Bytes, stream: bool)
    requires Kept(s, key, body, stream) && Immediate(s) && Continues(run, key)
    ensures Kept(RunFrom(s, run, disk), key, body, stream)
    decreases |run|
  {
    if run == [] {
    } else {
      StepKept(s, run[0], disk, key, body, stream);
      RunKept(AfterOp(s, run[0], disk), run[1..], disk, key, body, stream);
    }
  }

  // ---------- pushing a key out of memory ----------

  /** Names of other keys. */
  function Other(key: string, i: nat): string {
    seq(|key| + 1 + i, _ => 'x')
  }

  function Others(key: string, n: nat): (names: seq<string>)
    ensures |names| == n && forall i :: 0 <= i < n ==> names[i] == Other(key, i)
  {
    seq(n, i requires 0 <= i < n => Other(key, i))
  }

  lemma OthersDiffer(key: string, n: nat)
    ensures Other(key, n) !in Others(key, n) && key !in Others(key, n) && Other(key, n) != key
    ensures Others(key, n + 1) == Others(key, n) + [Other(key, n)]
  {
    forall i | 0 <= i < n ensures Others(key, n)[i] != Other(key, n) && Others(key, n)[i] != key {
      assert |Other(key, i)| == |key| + 1 + i;
    }
    assert |Other(key, n)| == |key| + 1 + n;
  }

  lemma {:induction false} WithoutAppend(a: seq<string>, b: seq<string>, key: string)
    requires key !in b
    ensures Without(a + b, key) == Without(a, key) + b
  {
    if a == [] {
      WithoutAbsent(b, key);
      Units(b);
    } else {
      FirstOfSum(a, b);
      WithoutAppend(a[1..], b, key);
      Assoc([a[0]], Without(a[1..], key), b);
    }
  }

  lemma {:induction false} WithoutAbsent(keys: seq<string>, key: string)
    requires key !in keys
    ensures Without(keys, key) == keys
  {
    if keys == [] {
    } else {
      WithoutAbsent(keys[1..], key);
      HeadTail(keys);
    }
  }

  lemma {:induction false} DistinctSize(keys: seq<string>, members: set<string>)
    requires NoDuplicates(keys) && forall k :: k in keys <==> k in members
    ensures |keys| == |members|
  {
    if keys == [] {
      assert members == {};
    } else {
      assert keys[0] !in keys[1..];
      DistinctSize(keys[1..], members - {keys[0]});
    }
  }

  /** The list ends with these keys. */
  predicate EndsWith(keys: seq<string>, last: seq<string>) {
    |last| <= |keys| && keys[|keys| - |last|..] == last
  }

  lemma DropKeepsEnd(keys: seq<string>, last: seq<string>)
    requires EndsWith(keys, last) && |last| < |keys|
    ensures EndsWith(keys[1..], last)
  {
    assert keys[1..][|keys| - 1 - |last|..] == keys[|keys| - |last|..];
  }

  lemma {:induction false} TrimmedEnds(s: State, last: seq<string>)
    requires Named(s) && EndsWith(s.recency, last) && |last| <= MEM_CAPACITY
    ensures EndsWith(Trimmed(s).recency, last)
    decreases |s.recency|
  {
    if |s.mem| <= MEM_CAPACITY || s.recency == [] {
    } else {
      NamedSize(s);
      DropOldest(s);
      DropKeepsEnd(s.recency, last);
      TrimmedEnds(s.(mem := s.mem - {s.recency[0]}, recency := s.recency[1..]), last);
    }
  }

  lemma NamedSize(s: State)
    requires Named(s)
    ensures |s.recency| == |s.mem|
  {
    DistinctSize(s.recency, s.mem.Keys);
  }

  lemma PutEnds(s: State, key: string, n: nat, e: Entry)
    requires Named(s) && EndsWith(s.recency, Others(key, n)) && n < MEM_CAPACITY
    ensures EndsWith(MemPut(s, Other(key, n), e).recency, Others(key, n + 1))
  {
    var name, last := Other(key, n), Others(key, n);
    var front := s.recency[..|s.recency| - n];
    OthersDiffer(key, n);
    assert s.recency == front + last;
    WithoutAppend(front, last, name);
    WithoutKeepsDistinct(s.recency, name);
    var put := s.(mem := s.mem[name := e], recency := Without(s.recency, name) + [name]);
    Assoc(Without(front, name), last, [name]);
    assert EndsWith(put.recency, Others(key, n + 1));
    TrimmedEnds(put, Others(key, n + 1));
  }

  /** n other keys were used last, and the table holds this row for the key. */
  ghost predicate Crowded(s: State, key: string, n: nat, row: Entry) {
    Bounded(s) && Immediate(s) && EndsWith(s.recency, Others(key, n)) && key in s.table && s.table[key] == row
  }

  function OtherStore(key: string, n: nat, at: real): Timed {
    Timed(StoreOp(Other(key, n), [], false, 0.0, 0), at)
  }

  lemma CrowdMore(s: State, key: string, n: nat, row: Entry, at: real, disk: Disk)
    requires Crowded(s, key, n, row) && n < MEM_CAPACITY
    ensures Crowded(AfterOp(s, OtherStore(key, n, at), disk), key, n + 1, row)
  {
    var name, e := Other(key, n), Fresh([], false, 0.0, at);
    OthersDiffer(key, n);
    PutEnds(s, key, n, e);
    MemPutEntries(s, name, e);
    StoreBounded(s, name, e, 0, disk);
  }

  /** Stores of other keys from the n-th to the last that memory can hold. */
  function Crowd(key: string, n: nat, at: real): seq<Timed>
    requires n <= MEM_CAPACITY
  {
    seq(MEM_CAPACITY - n, i requires 0 <= i < MEM_CAPACITY - n => OtherStore(key, n + i, at))
  }

  lemma CrowdFirst(key: string, n: nat, at: real)
    requires n < MEM_CAPACITY
    ensures Crowd(key, n, at) != [] && Crowd(key, n, at)[0] == OtherStore(key, n, at)
    ensures Crowd(key, n, at)[1..] == Crowd(key, n + 1, at)
  {
  }

  lemma CrowdContinues(key: string, at: real)
    ensures Continues(Crowd(key, 0, at), key)
  {
    var run := Crowd(key, 0, at);
    forall i | 0 <= i < |run| ensures Leaves(run[i].op, key) {
      OthersDiffer(key, i);
    }
  }

  lemma {:induction false} CrowdedOut(s: State, key: string, n: nat, row: Entry, at: real, disk: Disk)
    requires Crowded(s, key, n, row) && n <= MEM_CAPACITY
    ensures Crowded(RunFrom(s, Crowd(key, n, at), disk), key, MEM_CAPACITY, row)
    decreases MEM_CAPACITY - n
  {
    if n == MEM_CAPACITY {
    } else {
      CrowdMore(s, key, n, row, at, disk);
      CrowdFirst(key, n, at);
      CrowdedOut(AfterOp(s, OtherStore(key, n, at), disk), key, n + 1, row, at, disk);
    }
  }

  lemma CrowdedIsTable(s: State, key: string, row: Entry, now: real)
    requires Crowded(s, key, MEM_CAPACITY, row)
    ensures LookedUp(s, key, 0.0, now) == Some(Hit(row.body, row.stream, row.hits + 1))
  {
    NamedSize(s);
    assert s.recency == Others(key, MEM_CAPACITY);
    OthersDiffer(key, MEM_CAPACITY);
  }

  lemma CrowdStarts(s: State, key: string)
    requires Bounded(s) && Immediate(s) && key in s.table
    ensures Crowded(s, key, 0, s.table[key])
  {
    assert s.recency[|s.recency|..] == [] == Others(key, 0);
  }

  lemma CrowdEnds(s: State, key: string, at: real, disk: Disk)
    requires Bounded(s) && Immediate(s) && key in s.table
    ensures Crowded(RunFrom(s, Crowd(key, 0, at), disk), key, MEM_CAPACITY, s.table[key])
  {
    CrowdStarts(s, key);
    CrowdedOut(s, key, 0, s.table[key], at, disk);
  }

  /** Whatever the memory holds, stores of as many other keys as it has room for bring the row of the table
      back. */
  lemma TableComesBack(s: State, key: string, at: real, now: real, disk: Disk)
    requires Bounded(s) && Immediate(s) && key in s.table
    ensures LookedUp(RunFrom(s, Crowd(key, 0, at), disk), key, 0.0, now)
         == Some(Hit(s.table[key].body, s.table[key].stream, s.table[key].hits + 1))
  {
    CrowdEnds(s, key, at, disk);
    CrowdedIsTable(RunFrom(s, Crowd(key, 0, at), disk), key, s.table[key], now);
  }

  // ---------- when a store takes ----------

  /** Every hit of the key after this run says so. */
  ghost predicate HitsSay(s: State, key: string, body: Bytes, stream: bool) {
    forall ttl, now :: LookedUp(s, key, ttl, now).Some? ==>
      LookedUp(s, key, ttl, now).value.body == body && LookedUp(s, key, ttl, now).value.stream == stream
  }

  /** The insert is written, or nothing else is left in the table for the key: there was no row, or one
      with the same answer, or the eviction that follows takes it. */
  predicate Takes(s: State, key: string, e: Entry, max: int, disk: Disk) {
    || !disk.fails(s.writes) || key !in s.table || Says(s.table[key], e.body, e.stream)
    || (max > 0 && !disk.fails(s.writes + 1) && key in Evicted(disk, s.table, max))
  }

  /** What a write made at once does. */
  lemma WriteAtOnce(s: State, w: Write, disk: Disk)
    requires Immediate(s)
    ensures var t := Enqueued(s, w, disk);
            && Immediate(t) && t.mem == s.mem && t.writes == s.writes + 1
            && t.table == if disk.fails(s.writes) then s.table else Written(s.table, w, disk)
  {
  }

  function Evictable(disk: Disk, writes: nat, table: map<string, Entry>, max: int): set<string> {
    if max > 0 && !disk.fails(writes) then Evicted(disk, table, max) else {}
  }

  lemma StoredMemory(s: State, key: string, e: Entry, max: int, disk: Disk)
    requires Immediate(s)
    ensures Immediate(AfterStore(s, key, e, max, disk))
    ensures key in AfterStore(s, key, e, max, disk).mem ==> AfterStore(s, key, e, max, disk).mem[key] == e
  {
    MemPutEntries(s, key, e);
  }

  lemma EvictedAtOnce(s: State, max: int, disk: Disk)
    requires Immediate(s)
    ensures (if max > 0 then Enqueued(s, EvictTo(max), disk) else s).table
         == s.table - Evictable(disk, s.writes, s.table, max)
  {
    assert s.table - {} == s.table;
  }

  function Inserted(s: State, key: string, e: Entry, disk: Disk): map<string, Entry> {
    if disk.fails(s.writes) then s.table else s.table[key := e]
  }

  lemma InsertedTable(s: State, key: string, e: Entry, disk: Disk)
    requires Immediate(s)
    ensures var t := Enqueued(MemPut(s, key, e), Insert(key, e), disk);
            Immediate(t) && t.table == Inserted(s, key, e, disk) && t.writes == s.writes + 1
  {
    MemPutEntries(s, key, e);
    WriteAtOnce(MemPut(s, key, e), Insert(key, e), disk);
  }

  lemma StoredTable(s: State, key: string, e: Entry, max: int, disk: Disk)
    requires Immediate(s)
    ensures var inserted := Inserted(s, key, e, disk);
            AfterStore(s, key, e, max, disk).table == inserted - Evictable(disk, s.writes + 1, inserted, max)
  {
    InsertedTable(s, key, e, disk);
    EvictedAtOnce(Enqueued(MemPut(s, key, e), Insert(key, e), disk), max, disk);
  }

  lemma TakesIsTable(s: State, key: string, e: Entry, max: int, disk: Disk)
    requires Immediate(s)
    ensures var t := AfterStore(s, key, e, max, disk);
            && Immediate(t) && (key in t.mem ==> t.mem[key] == e)
            && (Takes(s, key, e, max, disk) <==> (key in t.table ==> Says(t.table[key], e.body, e.stream)))
  {
    StoredMemory(s, key, e, max, disk);
    StoredTable(s, key, e, max, disk);
    LeftAfterEviction(s, key, e, max, disk);
  }

  lemma LeftAfterEviction(s: State, key: string, e: Entry, max: int, disk: Disk)
    ensures var inserted := Inserted(s, key, e, disk);
            var left := inserted - Evictable(disk, s.writes + 1, inserted, max);
            Takes(s, key, e, max, disk) <==> (key in left ==> Says(left[key], e.body, e.stream))
  {
  }

  /** With immediate writes: after a store every hit of the key, in every continuation that neither stores
      it nor clears the cache, returns what was stored, if and only if the store takes. */
  lemma LaterHitsExactly(s: State, key: string, e: Entry, max: int, disk: Disk)
    requires Bounded(s) && Immediate(s)
    ensures (forall run :: Continues(run, key) ==>
               HitsSay(RunFrom(AfterStore(s, key, e, max, disk), run, disk), key, e.body, e.stream))
      <==> Takes(s, key, e, max, disk)
  {
    var t := AfterStore(s, key, e, max, disk);
    TakesIsTable(s, key, e, max, disk);
    StoreBounded(s, key, e, max, disk);
    if Takes(s, key, e, max, disk) {
      forall run | Continues(run, key) ensures HitsSay(RunFrom(t, run, disk), key, e.body, e.stream) {
        RunKept(t, run, disk, key, e.body, e.stream);
      }
    } else {
      CrowdContinues(key, e.created);
      TableComesBack(t, key, e.created, e.created, disk);
      var run := Crowd(key, 0, e.created);
      assert Continues(run, key) && !HitsSay(RunFrom(t, run, disk), key, e.body, e.stream);
    }
  }

  // ---------- whole runs ----------

  /** Every store of the run takes, and every clear is written or has nothing to delete. */
  predicate Lasting(run: seq<Timed>, disk: Disk) {
    run == []
    || (var before := run[..|run| - 1];
        Lasting(before, disk) && LastingStep(AfterRun(false, before, disk), run[|run| - 1], disk))
  }

  predicate LastingStep(s: State, t: Timed, disk: Disk) {
    match t.op
    case StoreOp(key, body, stream, ttl, max) => Takes(s, key, Fresh(body, stream, ttl, t.at), max, disk)
    case ClearOp => !disk.fails(s.writes) || s.table == map[]
    case _ => true
  }

  /** Nothing is kept for the key. */
  predicate Unknown(s: State, key: string) {
    key !in s.mem && key !in s.table
  }

  /** What is kept for the key answers as the store recorded for it; nothing is kept without one. */
  predicate KeptAs(s: State, key: string, last: map<string, Timed>) {
    if key in last && last[key].op.StoreOp? then Kept(s, key, last[key].op.body, last[key].op.stream)
    else Unknown(s, key)
  }

  lemma StaysImmediate(s: State, t: Timed, disk: Disk)
    requires Immediate(s)
    ensures Immediate(AfterOp(s, t, disk))
  {
    match t.op {
      case LookupOp(k, ttl) =>
        if k !in s.mem && k in s.table && !Expired(s.table[k], ttl, t.at) {
          MemPutEntries(s, k, s.table[k].(lastAccess := t.at));
        }
      case StoreOp(k, b, st, ttl, max) =>
        MemPutEntries(s, k, Fresh(b, st, ttl, t.at));
      case ClearOp =>
      case ApplyOp =>
    }
  }

  lemma {:induction false} RunIsImmediate(run: seq<Timed>, disk: Disk)
    ensures Immediate(AfterRun(false, run, disk))
  {
    if run == [] {
    } else {
      RunIsImmediate(run[..|run| - 1], disk);
      StaysImmediate(AfterRun(false, run[..|run| - 1], disk), run[|run| - 1], disk);
    }
  }

  lemma WrittenUnknown(s: State, w: Write, disk: Disk, key: string)
    requires Immediate(s) && Unknown(s, key) && (w.Insert? ==> w.key != key)
    ensures Unknown(Enqueued(s, w, disk), key) && Immediate(Enqueued(s, w, disk))
  {
  }

  lemma LookupUnknown(s: State, k: string, ttl: real, now: real, disk: Disk, key: string)
    requires Immediate(s) && Unknown(s, key)
    ensures Unknown(AfterLookup(s, k, ttl, now, disk), key)
  {
    if k in s.mem {
      if Expired(s.mem[k], ttl, now) {
        WrittenUnknown(s.(mem := s.mem - {k}, recency := Without(s.recency, k)), Delete(k), disk, key);
      } else {
        WrittenUnknown(s.(recency := Without(s.recency, k) + [k]), Touch(k, now), disk, key);
      }
    } else if k in s.table {
      if Expired(s.table[k], ttl, now) {
        WrittenUnknown(s, Delete(k), disk, key);
      } else {
        MemPutEntries(s, k, s.table[k].(lastAccess := now));
        WrittenUnknown(MemPut(s, k, s.table[k].(lastAccess := now)), Touch(k, now), disk, key);
      }
    }
  }

  lemma StoreUnknown(s: State, k: string, e: Entry, max: int, disk: Disk, key: string)
    requires Immediate(s) && Unknown(s, key) && k != key
    ensures Unknown(AfterStore(s, k, e, max, disk), key)
  {
    MemPutEntries(s, k, e);
    WrittenUnknown(MemPut(s, k, e), Insert(k, e), disk, key);
    WrittenUnknown(Enqueued(MemPut(s, k, e), Insert(k, e), disk), EvictTo(max), disk, key);
  }

  lemma StaysUnknown(s: State, t: Timed, disk: Disk, key: string)
    requires Immediate(s) && Leaves(t.op, key) && Unknown(s, key)
    ensures Unknown(AfterOp(s, t, disk), key)
  {
    match t.op {
      case LookupOp(k, ttl) =>
        LookupUnknown(s, k, ttl, t.at, disk, key);
      case StoreOp(k, b, st, ttl, max) =>
        StoreUnknown(s, k, Fresh(b, st, ttl, t.at), max, disk, key);
      case ApplyOp =>
    }
  }

  lemma LastStep(s: State, t: Timed, disk: Disk, key: string, last: map<string, Timed>)
    requires Immediate(s) && KeptAs(s, key, last) && LastingStep(s, t, disk)
    ensures KeptAs(AfterOp(s, t, disk), key,
                   if t.op.StoreOp? then last[t.op.key := t] else if t.op.ClearOp? then map[] else last)
  {
    if Leaves(t.op, key) {
      if key in last && last[key].op.StoreOp? {
        StepKept(s, t, disk, key, last[key].op.body, last[key].op.stream);
      } else {
        StaysUnknown(s, t, disk, key);
      }
    } else if t.op.StoreOp? {
      TakesIsTable(s, key, Fresh(t.op.body, t.op.stream, t.op.ttl, t.at), t.op.max, disk);
    }
  }

  lemma {:induction false} LastingKeeps(run: seq<Timed>, disk: Disk, key: string)
    requires Lasting(run, disk)
    ensures KeptAs(AfterRun(false, run, disk), key, LastStored(run))
  {
    if run == [] {
    } else {
      var before, t := run[..|run| - 1], run[|run| - 1];
      LastingKeeps(before, disk, key);
      RunIsImmediate(before, disk);
      LastStep(AfterRun(false, before, disk), t, disk, key, LastStored(before));
    }
  }

  /** Every hit of the key is the last store of it. */
  ghost predicate HitsLast(s: State, key: string, last: map<string, Timed>) {
    forall ttl, now :: LookedUp(s, key, ttl, now).Some? ==>
      && key in last && last[key].op.StoreOp?
      && LookedUp(s, key, ttl, now).value.body == last[key].op.body
      && LookedUp(s, key, ttl, now).value.stream == last[key].op.stream
  }

  /** With immediate writes a hit returns the body stored last for its key since the last clear, if every
      store of the run takes and every clear does. */
  lemma ImmediateHitIsLastStore(run: seq<Timed>, disk: Disk, key: string)
    requires Lasting(run, disk)
    ensures HitsLast(AfterRun(false, run, disk), key, LastStored(run))
  {
    LastingKeeps(run, disk, key);
  }

  /** Hits stay those of the last store at any time of the run, whatever continues it without storing the
      key or clearing. */
  ghost predicate AlwaysLast(run: seq<Timed>, disk: Disk) {
    forall k: nat, more, key | k <= |run| && Continues(more, key) ::
      HitsLast(RunFrom(AfterRun(false, run[..k], disk), more, disk), key, LastStored(run[..k]))
  }

  lemma {:induction false} RunStaysUnknown(s: State, run: seq<Timed>, disk: Disk, key: string)
    requires Immediate(s) && Continues(run, key) && Unknown(s, key)
    ensures Unknown(RunFrom(s, run, disk), key)
    decreases |run|
  {
    if run == [] {
    } else {
      StaysUnknown(s, run[0], disk, key);
      StaysImmediate(s, run[0], disk);
      RunStaysUnknown(AfterOp(s, run[0], disk), run[1..], disk, key);
    }
  }

  lemma {:induction false} LastingPrefix(run: seq<Timed>, k: nat, disk: Disk)
    requires k <= |run|
    ensures Lasting(run, disk) ==> Lasting(run[..k], disk)
  {
    if k == |run| {
      assert run[..k] == run;
    } else {
      var before := run[..|run| - 1];
      LastingPrefix(before, k, disk);
      assert before[..k] == run[..k];
    }
  }

  lemma KeptAsContinues(s: State, more: seq<Timed>, disk: Disk, key: string, last: map<string, Timed>)
    requires Immediate(s) && KeptAs(s, key, last) && Continues(more, key)
    ensures HitsLast(RunFrom(s, more, disk), key, last)
  {
    if key in last && last[key].op.StoreOp? {
      RunKept(s, more, disk, key, last[key].op.body, last[key].op.stream);
    } else {
      RunStaysUnknown(s, more, disk, key);
    }
  }

  lemma LastingIsEnough(run: seq<Timed>, disk: Disk)
    requires Lasting(run, disk)
    ensures AlwaysLast(run, disk)
  {
    forall k: nat, more, key | k <= |run| && Continues(more, key)
      ensures HitsLast(RunFrom(AfterRun(false, run[..k], disk), more, disk), key, LastStored(run[..k]))
    {
      LastingPrefix(run, k, disk);
      LastingKeeps(run[..k], disk, key);
      RunIsImmediate(run[..k], disk);
      KeptAsContinues(AfterRun(false, run[..k], disk), more, disk, key, LastStored(run[..k]));
    }
  }

  /** A store or clear that does not take shows in some continuation. */
  lemma FailureShows(before: seq<Timed>, t: Timed, disk: Disk)
    requires !LastingStep(AfterRun(false, before, disk), t, disk)
    ensures exists more, key :: Continues(more, key)
              && !HitsLast(RunFrom(AfterRun(false, before + [t], disk), more, disk), key, LastStored(before + [t]))
  {
    var s := AfterRun(false, before, disk);
    RunIsImmediate(before, disk);
    MemoryBounded(false, before, disk);
    OpBounded(s, t, disk);
    assert (before + [t])[..|before|] == before;
    var u, last := AfterRun(false, before + [t], disk), LastStored(before + [t]);
    assert u == AfterOp(s, t, disk);
    var key :| if t.op.StoreOp? then key == t.op.key else key in s.table;
    if t.op.StoreOp? {
      TakesIsTable(s, key, Fresh(t.op.body, t.op.stream, t.op.ttl, t.at), t.op.max, disk);
    }
    CrowdContinues(key, t.at);
    TableComesBack(u, key, t.at, t.at, disk);
    var more := Crowd(key, 0, t.at);
    assert Continues(more, key) && !HitsLast(RunFrom(u, more, disk), key, last);
  }

  /** Hits stay those of the last store, through the run and whatever continues any part of it, if and only
      if every store and every clear of the run takes. */
  lemma {:induction false} LastStoreExactly(run: seq<Timed>, disk: Disk)
    ensures AlwaysLast(run, disk) <==> Lasting(run, disk)
  {
    if Lasting(run, disk) {
      LastingIsEnough(run, disk);
    } else {
      var before, t := run[..|run| - 1], run[|run| - 1];
      LastStoreExactly(before, disk);
      SnocSplit(run);
      if Lasting(before, disk) {
        FailureShows(before, t, disk);
        assert run[..|run|] == run == before + [t];
      } else if AlwaysLast(run, disk) {
        forall k: nat, more, key | k <= |before| && Continues(more, key)
          ensures HitsLast(RunFrom(AfterRun(false, before[..k], disk), more, disk), key, LastStored(before[..k]))
        {
          assert before[..k] == run[..k];
        }
      }
    }
  }

  /** Two stores of one key, the second of which does not reach the table. */
  lemma FailedInsertShowsOlderBody(key: string, disk: Disk)
    requires forall i :: disk.fails(i) <==> i == 1
    ensures var run := [Timed(StoreOp(key, [7], false, 0.0, 0), 0.0), Timed(StoreOp(key, [8], false, 0.0, 0), 1.0)];
            && LookedUp(RunFrom(AfterRun(false, run, disk), Crowd(key, 0, 2.0), disk), key, 0.0, 3.0)
               == Some(Hit([7], false, 1))
            && key in LastStored(run) && LastStored(run)[key].op.StoreOp? && LastStored(run)[key].op.body == [8]
  {
    var t0, t1 := Timed(StoreOp(key, [7], false, 0.0, 0), 0.0), Timed(StoreOp(key, [8], false, 0.0, 0), 1.0);
    var run := [t0, t1];
    assert run[..1] == [t0] && [t0][..0] == [];
    var s0: State := AfterRun(false, [], disk);
    var s1: State := AfterRun(false, [t0], disk);
    var first, second := Fresh([7], false, 0.0, 0.0), Fresh([8], false, 0.0, 1.0);
    MemPutEntries(s0, key, first);
    MemPutEntries(s1, key, second);
    assert s1.table == map[key := first] && s1.writes == 1;
    var s2: State := AfterRun(false, run, disk);
    assert s2.table == s1.table;
    RunIsImmediate(run, disk);
    MemoryBounded(false, run, disk);
    TableComesBack(s2, key, 2.0, 3.0, disk);
  }

  // ---------- eviction from the table ----------

  lemma FrontDistinct(keys: seq<string>, n: int)
    requires NoDuplicates(keys)
    ensures NoDuplicates(Front(keys, n)) && forall k :: k in Front(keys, n) ==> k in keys
  {
  }

  lemma EvictedSize(table: map<string, Entry>, max: int, disk: Disk)
    requires ListsByAccess(disk) && max >= 0
    ensures Evicted(disk, table, max) <= table.Keys
    ensures |table - Evicted(disk, table, max)| == if |table| > max then max else |table|
  {
    var keys, n := disk.listed(table), |table| - max;
    assert Lists(table, keys);
    FrontDistinct(keys, n);
    DistinctSize(keys, table.Keys);
    var front, taken := Front(keys, n), Evicted(disk, table, max);
    DistinctSize(front, taken);
    var left := table - taken;
    assert left.Keys == table.Keys - taken && |left| == |left.Keys|;
  }

  lemma FrontIsOlder(table: map<string, Entry>, keys: seq<string>, n: int, k: string, l: string)
    requires Lists(table, keys) && k in Front(keys, n) && l in table && l !in Front(keys, n)
    ensures k in table && table[k].lastAccess <= table[l].lastAccess
  {
    var front := Front(keys, n);
    var i :| 0 <= i < |front| && front[i] == k;
    var j :| 0 <= j < |keys| && keys[j] == l;
    assert keys[i] == k;
    assert forall m :: 0 <= m < |front| ==> front[m] == keys[m];
  }

  /** The eviction after a store leaves no more rows than it may, and none it leaves was accessed before
      one it takes. */
  lemma EvictionKeepsRecent(table: map<string, Entry>, max: int, disk: Disk)
    requires ListsByAccess(disk) && max >= 0
    ensures var left := Written(table, EvictTo(max), disk);
            && |left| == (if |table| > max then max else |table|)
            && left.Keys <= table.Keys && (forall k :: k in left ==> left[k] == table[k])
            && forall k, l :: k in table && k !in left && l in left ==> table[k].lastAccess <= table[l].lastAccess
  {
    EvictedSize(table, max, disk);
    var left := Written(table, EvictTo(max), disk);
    var keys, n := disk.listed(table), |table| - max;
    assert Lists(table, keys);
    forall k, l | k in table && k !in left && l in left ensures table[k].lastAccess <= table[l].lastAccess {
      FrontIsOlder(table, keys, n, k, l);
    }
  }

  /** With late writes a hit need not be the last store either: an insert still pending when the cache is
      cleared comes back. */
  lemma ClearedEntryComesBack(disk: Disk)
    requires forall i :: !disk.fails(i)
    ensures var run := [Timed(StoreOp("k", [7], false, 60.0, 0), 0.0), Timed(ClearOp, 1.0), Timed(ApplyOp, 2.0)];
            LookedUp(AfterRun(true, run, disk), "k", 60.0, 3.0) == Some(Hit([7], false, 1))
            && "k" !in LastStored(run)
  {
    var t0, t1, t2 := Timed(StoreOp("k", [7], false, 60.0, 0), 0.0), Timed(Op.ClearOp, 1.0), Timed(Op.ApplyOp, 2.0);
    var e := Fresh([7], false, 60.0, 0.0);
    assert [t0, t1, t2][..2] == [t0, t1] && [t0, t1][..1] == [t0] && [t0][..0] == [];
    var s0: State := AfterRun(true, [], disk);
    var s1 := AfterRun(true, [t0], disk);
    assert s1.pending == [Insert("k", e)];
    var s2 := AfterRun(true, [t0, t1], disk);
    assert s2.pending == [Insert("k", e)] && s2.mem == map[] && s2.table == map[];
    var s3 := AfterRun(true, [t0, t1, t2], disk);
    assert s3.mem == map[] && s3.table == map["k" := e];
    assert LastStored([t0, t1]) == map[];
  }

  function Applied(s: State, n: nat, disk: Disk): State
    decreases n
  {
    if n == 0 then s else Applied(AfterApply(s, disk), n - 1, disk)
  }

  predicate Inserts(pending: seq<Write>, key: string) {
    exists i :: 0 <= i < |pending| && pending[i].Insert? && pending[i].key == key
  }

  lemma {:induction false} OnlyInsertsAdd(s: State, n: nat, disk: Disk, key: string)
    requires key !in s.table && !Inserts(s.pending, key)
    ensures key !in Applied(s, n, disk).table
    decreases n
  {
    if n == 0 {
    } else {
      var t := AfterApply(s, disk);
      if s.pending != [] {
        assert !(s.pending[0].Insert? && s.pending[0].key == key);
        assert forall i :: 0 <= i < |t.pending| ==> t.pending[i] == s.pending[i + 1];
      }
      OnlyInsertsAdd(t, n - 1, disk, key);
    }
  }

  lemma {:induction false} InsertArrives(s: State, i: nat, disk: Disk, key: string)
    requires i < |s.pending| && s.pending[i].Insert? && s.pending[i].key == key
    requires forall n :: !disk.fails(n)
    ensures key in Applied(s, i + 1, disk).table
    decreases i
  {
    if i > 0 {
      InsertArrives(AfterApply(s, disk), i - 1, disk, key);
    } else {
      assert Applied(AfterApply(s, disk), 0, disk) == AfterApply(s, disk);
    }
  }

  /** A cleared key stays away from the table, however much of the queue is applied and whatever fails,
      exactly when no insert of it was pending at the clear. */
  lemma ClearHoldsExactly(s: State, key: string)
    ensures (forall disk: Disk, n: nat :: !disk.fails(s.writes) ==> key !in Applied(AfterClear(s, disk), n, disk).table)
      <==> !Inserts(s.pending, key)
  {
    if Inserts(s.pending, key) {
      var i :| 0 <= i < |s.pending| && s.pending[i].Insert? && s.pending[i].key == key;
      var sound := Disk(table => [], n => false);
      InsertArrives(AfterClear(s, sound), i, sound, key);
      assert !sound.fails(s.writes) && key in Applied(AfterClear(s, sound), i + 1, sound).table;
    } else {
      forall disk: Disk, n: nat | !disk.fails(s.writes) ensures key !in Applied(AfterClear(s, disk), n, disk).table {
        OnlyInsertsAdd(AfterClear(s, disk), n, disk, key);
      }
    }
  }
}
