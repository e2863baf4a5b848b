/** Cooldowns and snoozes of backends (src/localgateway/ratelimit.py). A key is a provider id and
    a model; times are seconds of the monotonic clock unless called wall. */
module RateLimit {
  import opened Wrappers
  import opened Sequences

  type Key = (string, string)

  datatype State = State(cooldowns: map<Key, real>, permanent: set<Key>)

  const EMPTY := State(map[], {})

  /** What is written to disk: wall-clock expiry times. */
  datatype Saved = Saved(permanent: set<Key>, timed: map<Key, real>)

  function AtLeastATenth(s: real): real {
    if s < 0.1 then 0.1 else s
  }

  function Available(s: State, k: Key, now: real): bool {
    k !in s.permanent && (k in s.cooldowns ==> now >= s.cooldowns[k])
  }

  function AfterCooldown(s: State, k: Key, retryAfter: Option<real>, now: real): State {
    s.(cooldowns := s.cooldowns[k := now + AtLeastATenth(retryAfter.GetOr(5.0))])
  }

  function AfterSnooze(s: State, k: Key, seconds: real, now: real): State {
    State(s.cooldowns[k := now + AtLeastATenth(seconds)], s.permanent - {k})
  }

  function AfterSnoozePermanent(s: State, k: Key): State {
    State(s.cooldowns - {k}, s.permanent + {k})
  }

  function AfterUnsnooze(s: State, k: Key): State {
    State(s.cooldowns - {k}, s.permanent - {k})
  }

  /** Asking whether a key is available drops its cooldown once it has expired. */
  function AfterQuery(s: State, k: Key, now: real): State {
    if k !in s.permanent && k in s.cooldowns && now >= s.cooldowns[k]
    then s.(cooldowns := s.cooldowns - {k}) else s
  }

  function SavedAt(s: State, now: real, wall: real): Saved {
    Saved(s.permanent,
          map k | k in s.cooldowns && k !in s.permanent && s.cooldowns[k] - now > 0.0
            :: wall + (s.cooldowns[k] - now))
  }

  /** The running cooldowns among some of the saved keys. */
  function Reloaded(timed: map<Key, real>, keys: set<Key>, now: real, wall: real): map<Key, real> {
    map k | k in timed && k in keys && timed[k] - wall > 0.0 :: now + (timed[k] - wall)
  }

  function LoadedInto(s: State, data: Saved, now: real, wall: real): State {
    State(s.cooldowns + Reloaded(data.timed, data.timed.Keys, now, wall), data.permanent)
  }

  /** Cooldowns after those of oldId among the given keys have moved to newId; a moved one wins. */
  function MovedCooldowns(c: map<Key, real>, keys: set<Key>, oldId: string, newId: string): map<Key, real> {
    (map k | k in c && (k.0 != oldId || k !in keys) :: c[k])
    + map m | m in c && m.0 == oldId && m in keys :: (newId, m.1) := c[m]
  }

  function MovedSnoozes(p: set<Key>, keys: set<Key>, oldId: string, newId: string): set<Key> {
    (set k | k in p && (k.0 != oldId || k !in keys)) + set m | m in p && m.0 == oldId && m in keys :: (newId, m.1)
  }

  function AfterRename(s: State, oldId: string, newId: string): State {
    State(MovedCooldowns(s.cooldowns, s.cooldowns.Keys, oldId, newId),
          MovedSnoozes(s.permanent, s.permanent, oldId, newId))
  }

  lemma ReloadedStep(base: map<Key, real>, timed: map<Key, real>, keys: set<Key>, k: Key, now: real, wall: real)
    requires k in timed && k !in keys
    ensures base + Reloaded(timed, keys + {k}, now, wall) ==
            if timed[k] - wall > 0.0 then (base + Reloaded(timed, keys, now, wall))[k := now + (timed[k] - wall)]
            else base + Reloaded(timed, keys, now, wall)
  {
  }

  lemma MovedCooldownsLookup(c: map<Key, real>, keys: set<Key>, oldId: string, newId: string, k: Key)
    ensures var r, o := MovedCooldowns(c, keys, oldId, newId), (oldId, k.1);
            if k.0 == newId && o in c && o in keys then k in r && r[k] == c[o]
            else if k in c && (k.0 != oldId || k !in keys) then k in r && r[k] == c[k]
            else k !in r
  {
  }

  lemma MovedCooldownsStep(c: map<Key, real>, keys: set<Key>, oldId: string, newId: string, k: Key)
    requires k in c && k !in keys
    ensures MovedCooldowns(c, keys + {k}, oldId, newId)
         == if k.0 == oldId then (MovedCooldowns(c, keys, oldId, newId) - {k})[(newId, k.1) := c[k]]
            else MovedCooldowns(c, keys, oldId, newId)
  {
    var a := MovedCooldowns(c, keys + {k}, oldId, newId);
    var before := MovedCooldowns(c, keys, oldId, newId);
    var b := if k.0 == oldId then (before - {k})[(newId, k.1) := c[k]] else before;
    forall j ensures (j in a <==> j in b) && (j in a ==> a[j] == b[j]) {
      MovedCooldownsLookup(c, keys, oldId, newId, j);
      MovedCooldownsLookup(c, keys + {k}, oldId, newId, j);
    }
  }

  lemma MovedSnoozesLookup(p: set<Key>, keys: set<Key>, oldId: string, newId: string, k: Key)
    ensures k in MovedSnoozes(p, keys, oldId, newId) <==>
            (k.0 == newId && (oldId, k.1) in p && (oldId, k.1) in keys) || (k in p && (k.0 != oldId || k !in keys))
  {
  }

  lemma MovedSnoozesStep(p: set<Key>, keys: set<Key>, oldId: string, newId: string, k: Key)
    requires k in p && k !in keys
    ensures MovedSnoozes(p, keys + {k}, oldId, newId)
         == if k.0 == oldId then MovedSnoozes(p, keys, oldId, newId) - {k} + {(newId, k.1)}
            else MovedSnoozes(p, keys, oldId, newId)
  {
  }

  lemma ReloadedNone(base: map<Key, real>, timed: map<Key, real>, now: real, wall: real)
    ensures base + Reloaded(timed, {}, now, wall) == base
  {
  }

  lemma MovedNone(c: map<Key, real>, p: set<Key>, oldId: string, newId: string)
    ensures MovedCooldowns(c, {}, oldId, newId) == c && MovedSnoozes(p, {}, oldId, newId) == p
  {
  }

  class RateLimitState {
    var cooldowns: map<Key, real>
    var permanent: set<Key>

    ghost function St(): State
      reads this
    {
      State(cooldowns, permanent)
    }

    constructor ()
      ensures St() == EMPTY
    {
      cooldowns := map[];
      permanent := {};
    }

    method SetCooldown(k: Key, retryAfter: Option<real>, now: real)
      modifies this
      ensures St() == AfterCooldown(old(St()), k, retryAfter, now)
    {
      var wait := if retryAfter.None? then 5.0 else retryAfter.value;
      cooldowns := cooldowns[k := now + AtLeastATenth(wait)];
    }

    method Snooze(k: Key, seconds: real, now: real)
      modifies this
      ensures St() == AfterSnooze(old(St()), k, seconds, now)
    {
      cooldowns := cooldowns[k := now + AtLeastATenth(seconds)];
      permanent := permanent - {k};
    }

    method SnoozePermanent(k: Key)
      modifies this
      ensures St() == AfterSnoozePermanent(old(St()), k)
    {
      permanent := permanent + {k};
      cooldowns := cooldowns - {k};
    }

    method Unsnooze(k: Key)
      modifies this
      ensures St() == AfterUnsnooze(old(St()), k)
    {
      cooldowns := cooldowns - {k};
      permanent := permanent - {k};
    }

    method Clear() returns (count: nat)
      modifies this
      ensures St() == EMPTY && count == |old(permanent)| + |old(cooldowns)|
    {
      count := |permanent| + |cooldowns|;
      permanent := {};
      cooldowns := map[];
    }

    method IsAvailable(k: Key, now: real) returns (free: bool)
      modifies this
      ensures free == Available(old(St()), k, now)
      ensures St() == AfterQuery(old(St()), k, now)
    {
      if k in permanent {
        return false;
      }
      if k !in cooldowns {
        return true;
      }
      if now >= cooldowns[k] {
        cooldowns := cooldowns - {k};
        return true;
      }
      return false;
    }

    /** -1 for a permanent snooze, 0 when available, else the seconds that remain. */
    method Remaining(k: Key, now: real) returns (r: real)
      ensures r == -1.0 <==> k in permanent
      ensures r == 0.0 <==> Available(St(), k, now)
      ensures r > 0.0 ==> k in cooldowns && now + r == cooldowns[k]
      ensures r >= 0.0 || r == -1.0
    {
      if k in permanent {
        return -1.0;
      }
      if k !in cooldowns {
        return 0.0;
      }
      var left := cooldowns[k] - now;
      return if left < 0.0 then 0.0 else left;
    }

    method Save(now: real, wall: real) returns (data: Saved)
      ensures data == SavedAt(St(), now, wall)
    {
      var timed: map<Key, real> := map[];
      var todo := cooldowns.Keys;
      while todo != {}
        invariant todo <= cooldowns.Keys
        invariant timed == map k | k in cooldowns && k !in todo && k !in permanent && cooldowns[k] - now > 0.0
                             :: wall + (cooldowns[k] - now)
        decreases |todo|
      {
        var k :| k in todo;
        todo := todo - {k};
        if k in permanent {
          continue;
        }
        var remaining := cooldowns[k] - now;
        if remaining > 0.0 {
          timed := timed[k := wall + remaining];
        }
      }
      data := Saved(permanent, timed);
    }

    method Load(data: Saved, now: real, wall: real)
      modifies this
      ensures St() == LoadedInto(old(St()), data, now, wall)
    {
      permanent := data.permanent;
      cooldowns := MergeTimed(cooldowns, data.timed, now, wall);
    }

    /** Moves every key of a provider to its new id. */
    method RenameProvider(oldId: string, newId: string)
      modifies this
      ensures St() == AfterRename(old(St()), oldId, newId)
    {
      var newPerm := MoveSnoozes(permanent, oldId, newId);
      var newCool := MoveCooldowns(cooldowns, oldId, newId);
      permanent := newPerm;
      cooldowns := newCool;
    }
  }

  /** The loop of loading: saved keys that still run are set one by one. */
  method MergeTimed(base: map<Key, real>, timed: map<Key, real>, now: real, wall: real) returns (r: map<Key, real>)
    ensures r == base + Reloaded(timed, timed.Keys, now, wall)
  {
    r := base;
    var todo := timed.Keys;
    ghost var seen: set<Key> := {};
    ReloadedNone(base, timed, now, wall);
    while todo != {}
      invariant seen + todo == timed.Keys && seen !! todo
      invariant r == base + Reloaded(timed, seen, now, wall)
      decreases |todo|
    {
      var k :| k in todo;
      ReloadedStep(base, timed, seen, k, now, wall);
      VisitOne(timed.Keys, seen, todo, k);
      todo := todo - {k};
      seen := seen + {k};
      var remaining := timed[k] - wall;
      if remaining > 0.0 {
        r := r[k := now + remaining];
      }
    }
    assert seen == timed.Keys;
  }

  /** The two loops of renaming, one over the permanent snoozes and one over the cooldowns. */
  method MoveSnoozes(p: set<Key>, oldId: string, newId: string) returns (r: set<Key>)
    ensures r == MovedSnoozes(p, p, oldId, newId)
  {
    r := p;
    var todo := p;
    ghost var seen: set<Key> := {};
    MovedNone(map[], p, oldId, newId);
    while todo != {}
      invariant seen + todo == p && seen !! todo
      invariant r == MovedSnoozes(p, seen, oldId, newId)
      decreases |todo|
    {
      var k :| k in todo;
      MovedSnoozesStep(p, seen, oldId, newId, k);
      VisitOne(p, seen, todo, k);
      todo := todo - {k};
      seen := seen + {k};
      if k.0 == oldId {
        r := r - {k} + {(newId, k.1)};
      }
    }
    assert seen == p;
  }

  method MoveCooldowns(c: map<Key, real>, oldId: string, newId: string) returns (r: map<Key, real>)
    ensures r == MovedCooldowns(c, c.Keys, oldId, newId)
  {
    r := c;
    var todo := c.Keys;
    ghost var seen: set<Key> := {};
    MovedNone(c, {}, oldId, newId);
    while todo != {}
      invariant seen + todo == c.Keys && seen !! todo
      invariant r == MovedCooldowns(c, seen, oldId, newId)
      decreases |todo|
    {
      var k :| k in todo;
      MovedCooldownsStep(c, seen, oldId, newId, k);
      VisitOne(c.Keys, seen, todo, k);
      todo, seen := todo - {k}, seen + {k};
      if k.0 == oldId {
        r := (r - {k})[(newId, k.1) := c[k]];
      }
    }
    assert seen == c.Keys;
  }

  // ---------- what can be observed ----------

  /** The key has the same running cooldown in both, or none. */
  predicate AlikeAt(a: State, b: State, k: Key, shift: real, now: real) {
    && ((k in a.cooldowns && a.cooldowns[k] > now) <==> (k in b.cooldowns && b.cooldowns[k] > now + shift))
    && (k in a.cooldowns && a.cooldowns[k] > now ==> b.cooldowns[k] == a.cooldowns[k] + shift)
  }

  /** Two states that no query can tell apart from now on, b reading a clock that is ahead by shift:
      the same permanent snoozes, and the same cooldowns among those still running. */
  ghost predicate Alike(a: State, b: State, shift: real, now: real) {
    && a.permanent == b.permanent
    && forall k :: k !in a.permanent ==> AlikeAt(a, b, k, shift, now)
  }

  datatype Op =
    | SetCooldown(k: Key, retryAfter: Option<real>)
    | Snooze(k: Key, seconds: real)
    | SnoozePermanent(k: Key)
    | Unsnooze(k: Key)
    | Clear
    | Query(k: Key)

  function AfterOp(s: State, op: Op, now: real): State {
    match op
    case SetCooldown(k, retryAfter) => AfterCooldown(s, k, retryAfter, now)
    case Snooze(k, seconds) => AfterSnooze(s, k, seconds, now)
    case SnoozePermanent(k) => AfterSnoozePermanent(s, k)
    case Unsnooze(k) => AfterUnsnooze(s, k)
    case Clear => EMPTY
    case Query(k) => AfterQuery(s, k, now)
  }

  /** The same operation in a state that never drops a cooldown when asked about it. */
  function AfterOpKeeping(s: State, op: Op, now: real): State {
    if op.Query? then s else AfterOp(s, op, now)
  }

  datatype Timed = Timed(op: Op, at: real)

  predicate InOrder(run: seq<Timed>, start: real) {
    (forall i :: 0 <= i < |run| ==> start <= run[i].at)
    && forall i, j :: 0 <= i <= j < |run| ==> run[i].at <= run[j].at
  }

  /** The answers the queries of a run get, on a clock that is ahead by shift. */
  function Answers(s: State, run: seq<Timed>, shift: real): seq<bool>
    decreases |run|
  {
    if run == [] then []
    else
      var t := run[0].at + shift;
      (if run[0].op.Query? then [Available(s, run[0].op.k, t)] else [])
      + Answers(AfterOp(s, run[0].op, t), run[1..], shift)
  }

  function AnswersKeeping(s: State, run: seq<Timed>): seq<bool>
    decreases |run|
  {
    if run == [] then []
    else
      (if run[0].op.Query? then [Available(s, run[0].op.k, run[0].at)] else [])
      + AnswersKeeping(AfterOpKeeping(s, run[0].op, run[0].at), run[1..])
  }

  lemma AlikeLater(a: State, b: State, shift: real, now: real, later: real)
    requires Alike(a, b, shift, now) && now <= later
    ensures Alike(a, b, shift, later)
    ensures forall k :: Available(a, k, later) == Available(b, k, later + shift)
  {
  }

  lemma AlikeAfterOp(a: State, b: State, op: Op, shift: real, now: real)
    requires Alike(a, b, shift, now)
    ensures Alike(AfterOp(a, op, now), AfterOp(b, op, now + shift), shift, now)
    ensures shift == 0.0 ==> Alike(AfterOp(a, op, now), AfterOpKeeping(b, op, now), shift, now)
  {
  }

  lemma {:induction false} AlikeAnswers(a: State, b: State, run: seq<Timed>, shift: real, now: real)
    requires Alike(a, b, shift, now) && InOrder(run, now)
    ensures Answers(a, run, 0.0) == Answers(b, run, shift)
    decreases |run|
  {
    if run == [] {
    } else {
      var t := run[0].at;
      AlikeLater(a, b, shift, now, t);
      AlikeAfterOp(a, b, run[0].op, shift, t);
      AlikeAnswers(AfterOp(a, run[0].op, t), AfterOp(b, run[0].op, t + shift), run[1..], shift, t);
    }
  }

  lemma {:induction false} AlikeKeeping(a: State, b: State, run: seq<Timed>, now: real)
    requires Alike(a, b, 0.0, now) && InOrder(run, now)
    ensures Answers(a, run, 0.0) == AnswersKeeping(b, run)
    decreases |run|
  {
    if run == [] {
    } else {
      var t := run[0].at;
      AlikeLater(a, b, 0.0, now, t);
      AlikeAfterOp(a, b, run[0].op, 0.0, t);
      AlikeKeeping(AfterOp(a, run[0].op, t), AfterOpKeeping(b, run[0].op, t), run[1..], t);
    }
  }

  /** Dropping expired cooldowns on the way is never observable: over any run of snoozes, cooldowns,
      removals and queries, every answer is that of a state that keeps them all. */
  lemma LazyDropInvisible(s: State, run: seq<Timed>, now: real)
    requires InOrder(run, now)
    ensures Answers(s, run, 0.0) == AnswersKeeping(s, run)
  {
    AlikeKeeping(s, s, run, now);
  }

  /** Saving, and loading into a fresh process any time later, is not observable either: with clocks
      that advance together, every later run gets the answers the old process would have given. */
  lemma SaveLoadInvisible(s: State, now: real, wall: real, now2: real, wall2: real, run: seq<Timed>)
    requires wall <= wall2
    requires InOrder(run, now + (wall2 - wall))
    ensures var back := LoadedInto(EMPTY, SavedAt(s, now, wall), now2, wall2);
            var shift := now2 - (now + (wall2 - wall));
            Answers(s, run, 0.0) == Answers(back, run, shift)
  {
    var back := LoadedInto(EMPTY, SavedAt(s, now, wall), now2, wall2);
    var then' := now + (wall2 - wall);
    AlikeAnswers(s, back, run, now2 - then', then');
  }

  // ---------- how long a backend stays away ----------

  function AfterRun(s: State, run: seq<Timed>): State
    decreases |run|
  {
    if run == [] then s else AfterRun(AfterOp(s, run[0].op, run[0].at), run[1..])
  }

  /** Changes what holds for this key, or for all. */
  predicate Touches(op: Op, k: Key) {
    op.Clear? || (!op.Query? && op.k == k)
  }

  /** Operations on other keys, and questions about any, leave an answer as it is. */
  lemma {:induction false} OthersLeaveAnswer(s: State, run: seq<Timed>, k: Key, now: real)
    requires forall i :: 0 <= i < |run| ==> !Touches(run[i].op, k) && run[i].at <= now
    ensures Available(AfterRun(s, run), k, now) == Available(s, k, now)
    decreases |run|
  {
    if run == [] {
    } else {
      assert !Touches(run[0].op, k) && run[0].at <= now;
      OthersLeaveAnswer(AfterOp(s, run[0].op, run[0].at), run[1..], k, now);
    }
  }

  /** The last operation on a key, or the last clearing, decides whether the key is free, whatever else happens
      meanwhile: a cooldown lasts as long as the provider asked, or five seconds, a snooze as long as it says,
      both a tenth of a second at least, and a cooldown ends no permanent snooze. */
  lemma LastOperationDecides(s: State, first: Timed, later: seq<Timed>, k: Key, now: real)
    requires Touches(first.op, k) && first.at <= now
    requires forall i :: 0 <= i < |later| ==> !Touches(later[i].op, k) && later[i].at <= now
    ensures var free, past := Available(AfterRun(s, [first] + later), k, now), now - first.at;
      match first.op
      case SetCooldown(_, asked) =>
        free <==> k !in s.permanent && past >= 0.1 && past >= if asked.Some? then asked.value else 5.0
      case Snooze(_, seconds) => free <==> past >= 0.1 && past >= seconds
      case SnoozePermanent(_) => !free
      case Unsnooze(_) => free
      case Clear => free
      case Query(_) => true
  {
    assert ([first] + later)[1..] == later;
    OthersLeaveAnswer(AfterOp(s, first.op, first.at), later, k, now);
  }

  // ---------- renaming a provider ----------

  /** A cooldown of the old id that is over but not dropped stands to replace a running one of the new. */
  predicate Masks(s: State, oldId: string, newId: string, model: string, now: real) {
    var old', new' := (oldId, model), (newId, model);
    && old' !in s.permanent && new' !in s.permanent
    && old' in s.cooldowns && s.cooldowns[old'] <= now
    && new' in s.cooldowns && s.cooldowns[new'] > now
  }

  lemma RenamedAt(a: State, b: State, oldId: string, newId: string, k: Key, shift: real, now: real)
    requires Alike(a, b, shift, now) && oldId != newId
    requires k !in AfterRename(a, oldId, newId).permanent
    ensures AlikeAt(AfterRename(a, oldId, newId), AfterRename(b, oldId, newId), k, shift, now)
      <==> (k.0 == newId ==> Masks(a, oldId, newId, k.1, now) == Masks(b, oldId, newId, k.1, now + shift))
  {
    MovedSnoozesLookup(a.permanent, a.permanent, oldId, newId, k);
    MovedCooldownsLookup(a.cooldowns, a.cooldowns.Keys, oldId, newId, k);
    MovedCooldownsLookup(b.cooldowns, b.cooldowns.Keys, oldId, newId, k);
  }

  /** Renaming keeps indistinguishable states so exactly when the same cooldowns are about to be masked in
      both; onto an id without running cooldowns there are none. */
  lemma AlikeAfterRename(a: State, b: State, oldId: string, newId: string, shift: real, now: real)
    requires Alike(a, b, shift, now) && oldId != newId
    ensures Alike(AfterRename(a, oldId, newId), AfterRename(b, oldId, newId), shift, now)
      <==> forall model :: Masks(a, oldId, newId, model, now) == Masks(b, oldId, newId, model, now + shift)
  {
    var a', b' := AfterRename(a, oldId, newId), AfterRename(b, oldId, newId);
    forall k | k !in a'.permanent
      ensures AlikeAt(a', b', k, shift, now)
        <==> (k.0 == newId ==> Masks(a, oldId, newId, k.1, now) == Masks(b, oldId, newId, k.1, now + shift))
    {
      RenamedAt(a, b, oldId, newId, k, shift, now);
    }
    forall model | (newId, model) in a'.permanent
      ensures !Masks(a, oldId, newId, model, now) && !Masks(b, oldId, newId, model, now + shift)
    {
      MovedSnoozesLookup(a.permanent, a.permanent, oldId, newId, (newId, model));
    }
    if Alike(a', b', shift, now) {
      forall model ensures Masks(a, oldId, newId, model, now) == Masks(b, oldId, newId, model, now + shift) {
        var k := (newId, model);
        assert k !in a'.permanent ==> AlikeAt(a', b', k, shift, now);
      }
    }
    if forall model :: Masks(a, oldId, newId, model, now) == Masks(b, oldId, newId, model, now + shift) {
      forall k | k !in a'.permanent ensures AlikeAt(a', b', k, shift, now) {
        assert Masks(a, oldId, newId, k.1, now) == Masks(b, oldId, newId, k.1, now + shift);
      }
    }
  }

  /** What a rename makes of a model's availability, whatever ids are in use and even onto itself: the
      new key is free exactly when neither key was permanent and the cooldown that wins, the old id's if
      it had one, is over. Where the new key was unknown that is the old key's availability, moved. */
  lemma RenameMovesAvailability(s: State, oldId: string, newId: string, model: string, now: real)
    ensures var old', new', r := (oldId, model), (newId, model), AfterRename(s, oldId, newId);
      && (Available(r, new', now) <==>
            && Available(s, old', now) && new' !in s.permanent
            && (old' in s.cooldowns || Available(s, new', now)))
      && (new' !in s.permanent && new' !in s.cooldowns ==> Available(r, new', now) == Available(s, old', now))
      && (oldId != newId ==> Available(r, old', now))
  {
    var old', new' := (oldId, model), (newId, model);
    MovedSnoozesLookup(s.permanent, s.permanent, oldId, newId, new');
    MovedSnoozesLookup(s.permanent, s.permanent, oldId, newId, old');
    MovedCooldownsLookup(s.cooldowns, s.cooldowns.Keys, oldId, newId, new');
    MovedCooldownsLookup(s.cooldowns, s.cooldowns.Keys, oldId, newId, old');
  }

  /** Exactly when it matters that an expired cooldown was dropped before a rename: it replaces one of
      the new id that is still running when asked. */
  lemma RenameShowsDropExactly(s: State, oldId: string, newId: string, model: string, now: real, later: real)
    requires oldId != newId && now <= later
    ensures var old', new' := (oldId, model), (newId, model);
      Available(AfterRename(s, oldId, newId), new', later)
      != Available(AfterRename(AfterQuery(s, old', now), oldId, newId), new', later)
      <==> && old' !in s.permanent && new' !in s.permanent
           && old' in s.cooldowns && s.cooldowns[old'] <= now
           && new' in s.cooldowns && later < s.cooldowns[new']
  {
    var k := (newId, model);
    var dropped := AfterQuery(s, (oldId, model), now);
    MovedSnoozesLookup(s.permanent, s.permanent, oldId, newId, k);
    MovedCooldownsLookup(s.cooldowns, s.cooldowns.Keys, oldId, newId, k);
    MovedCooldownsLookup(dropped.cooldowns, dropped.cooldowns.Keys, oldId, newId, k);
  }

  /** Onto an id already in use dropping is observable: a cooldown of the old id that has expired but was not
      dropped yet replaces a running one, and the two states get different answers. */
  lemma RenameOntoUsedIdShowsDrop()
    ensures var s := State(map[("a", "m") := 1.0, ("b", "m") := 9.0], {});
            var dropped := AfterQuery(s, ("a", "m"), 2.0);
            && Available(AfterRename(s, "a", "b"), ("b", "m"), 2.0)
            && !Available(AfterRename(dropped, "a", "b"), ("b", "m"), 2.0)
  {
    var s := State(map[("a", "m") := 1.0, ("b", "m") := 9.0], {});
    assert "a"[0] != "b"[0];
    RenameMovesAvailability(s, "a", "b", "m", 2.0);
    RenameShowsDropExactly(s, "a", "b", "m", 2.0, 2.0);
  }
}
