/** The inbound sliding-window limit (src/localgateway/clientquota.py). Times are monotonic
    seconds; the retry value is kept before rounding. */
module ClientQuota {
  import opened Wrappers
  import opened Sequences

  const WINDOW: real := 60.0

  /** The hits still inside the closed window that ends now. */
  function Pruned(hits: seq<real>, now: real): seq<real> {
    if hits != [] && now - hits[0] > WINDOW then Pruned(hits[1..], now) else hits
  }

  /** The decision for a call: None admits, a number is the time to wait. */
  function Decision(hits: seq<real>, rpm: nat, now: real): Option<real>
    requires rpm > 0
  {
    var live := Pruned(hits, now);
    if |live| >= rpm then Some(WINDOW - (now - live[0])) else None
  }

  function AfterCall(hits: seq<real>, rpm: nat, now: real): seq<real>
    requires rpm > 0
  {
    Pruned(hits, now) + if Decision(hits, rpm, now).None? then [now] else []
  }

  function HitsOf(all: map<string, seq<real>>, id: string): seq<real> {
    if id in all then all[id] else []
  }

  class Quotas {
    var hits: map<string, seq<real>>

    constructor ()
      ensures hits == map[]
    {
      hits := map[];
    }

    /** Registers a request for a key; returns how long to wait when the key is over its limit. */
    method CheckRpm(id: string, rpm: Option<int>, now: real) returns (retry: Option<real>)
      modifies this
      ensures rpm.None? || rpm.value <= 0 || id == "" ==> retry == None && hits == old(hits)
      ensures rpm.Some? && rpm.value > 0 && id != "" ==>
                retry == Decision(HitsOf(old(hits), id), rpm.value, now)
                && hits == old(hits)[id := AfterCall(HitsOf(old(hits), id), rpm.value, now)]
    {
      if rpm.None? || rpm.value <= 0 || id == "" {
        return None;
      }
      var dq := HitsOf(hits, id);
      while dq != [] && now - dq[0] > WINDOW
        invariant Pruned(dq, now) == Pruned(HitsOf(old(hits), id), now)
        decreases |dq|
      {
        dq := dq[1..];
      }
      hits := hits[id := dq];
      if |dq| >= rpm.value {
        assert dq + [] == dq;
        return Some(WINDOW - (now - dq[0]));
      }
      dq := dq + [now];
      hits := hits[id := dq];
      return None;
    }

    method CurrentRpm(id: string, now: real) returns (n: nat)
      modifies this
      ensures n == |Pruned(HitsOf(old(hits), id), now)|
      ensures id !in old(hits) ==> hits == old(hits)
      ensures id in old(hits) ==> hits == old(hits)[id := Pruned(old(hits)[id], now)]
    {
      if id !in hits || hits[id] == [] {
        assert id in hits ==> hits == hits[id := []];
        return 0;
      }
      var dq := hits[id];
      while dq != [] && now - dq[0] > WINDOW
        invariant Pruned(dq, now) == Pruned(old(hits)[id], now)
        decreases |dq|
      {
        dq := dq[1..];
      }
      hits := hits[id := dq];
      n := |dq|;
    }
  }

  // ---------- runs on one key ----------

  /** A call that asks to be admitted, or one that only reads the current rate. */
  datatype Op = Check(at: real) | Peek(at: real)

  predicate InOrder(ops: seq<Op>) {
    forall i, j :: 0 <= i <= j < |ops| ==> ops[i].at <= ops[j].at
  }

  function Kept(rpm: nat, ops: seq<Op>): seq<real>
    requires rpm > 0
  {
    if ops == [] then []
    else
      var before, op := Kept(rpm, ops[..|ops| - 1]), ops[|ops| - 1];
      if op.Check? then AfterCall(before, rpm, op.at) else Pruned(before, op.at)
  }

  /** The times of all admitted calls of a run. */
  function Admitted(rpm: nat, ops: seq<Op>): seq<real>
    requires rpm > 0
  {
    if ops == [] then []
    else
      var before, op := ops[..|ops| - 1], ops[|ops| - 1];
      Admitted(rpm, before)
      + if op.Check? && Decision(Kept(rpm, before), rpm, op.at).None? then [op.at] else []
  }

  function Count(times: seq<real>, lo: real, hi: real): nat {
    if times == [] then 0
    else (if lo <= times[0] <= hi then 1 else 0) + Count(times[1..], lo, hi)
  }

  predicate Sorted(times: seq<real>) {
    forall i, j :: 0 <= i <= j < |times| ==> times[i] <= times[j]
  }

  lemma {:induction false} PrunedDropsOld(hits: seq<real>, now: real)
    requires Sorted(hits)
    ensures var live := Pruned(hits, now);
            |live| <= |hits| && live == hits[|hits| - |live|..]
            && (forall j :: 0 <= j < |hits| - |live| ==> now - hits[j] > WINDOW)
            && forall j :: 0 <= j < |live| ==> now - live[j] <= WINDOW
  {
    if hits == [] || now - hits[0] <= WINDOW {
    } else {
      PrunedDropsOld(hits[1..], now);
      var live := Pruned(hits, now);
      assert hits[1..][|hits| - 1 - |live|..] == hits[|hits| - |live|..];
      forall j | 0 <= j < |hits| - |live| ensures now - hits[j] > WINDOW {
        if j > 0 {
          assert hits[j] == hits[1..][j - 1];
        }
      }
    }
  }

  /** Times with at least rpm - 1 others between them are more than a window apart. */
  predicate Spaced(times: seq<real>, rpm: nat) {
    forall i, j :: 0 <= i <= j < |times| && rpm <= j - i ==> times[j] - times[i] > WINDOW
  }

  /** What the deque is: the newest admissions, at most rpm of them, everything older being out of
      the window; and any rpm + 1 consecutive admissions span more than the window. */
  ghost predicate RunInv(rpm: nat, kept: seq<real>, admitted: seq<real>, last: real) {
    && Sorted(admitted) && |kept| <= |admitted| && kept == admitted[|admitted| - |kept|..]
    && |kept| <= rpm
    && (forall j :: 0 <= j < |admitted| ==> admitted[j] <= last)
    && (forall j :: 0 <= j < |admitted| - |kept| ==> last - admitted[j] > WINDOW)
    && Spaced(admitted, rpm)
  }

  lemma RunInvPrune(rpm: nat, kept: seq<real>, admitted: seq<real>, last: real, now: real)
    requires RunInv(rpm, kept, admitted, last) && last <= now
    ensures RunInv(rpm, Pruned(kept, now), admitted, now)
    ensures forall t :: t in Pruned(kept, now) ==> now - WINDOW <= t <= now
  {
    PrunedDropsOld(kept, now);
    var live := Pruned(kept, now);
    var off := |admitted| - |kept|;
    forall j | 0 <= j < |admitted| - |live| ensures now - admitted[j] > WINDOW {
      if j >= off {
        assert admitted[j] == kept[j - off];
      }
    }
  }

  lemma RunInvAdmit(rpm: nat, live: seq<real>, admitted: seq<real>, now: real)
    requires RunInv(rpm, live, admitted, now) && |live| < rpm
    ensures RunInv(rpm, live + [now], admitted + [now], now)
  {
  }

  lemma RunStep(rpm: nat, kept: seq<real>, admitted: seq<real>, op: Op)
    requires rpm > 0 && RunInv(rpm, kept, admitted, op.at)
    ensures RunInv(rpm, if op.Check? then AfterCall(kept, rpm, op.at) else Pruned(kept, op.at),
                   admitted + (if op.Check? && Decision(kept, rpm, op.at).None? then [op.at] else []), op.at)
  {
    RunInvPrune(rpm, kept, admitted, op.at, op.at);
    var live := Pruned(kept, op.at);
    assert live + [] == live && admitted + [] == admitted;
    if op.Check? && |live| < rpm {
      RunInvAdmit(rpm, live, admitted, op.at);
    }
  }

  lemma RunInvLater(rpm: nat, kept: seq<real>, admitted: seq<real>, last: real, later: real)
    requires RunInv(rpm, kept, admitted, last) && last <= later
    ensures RunInv(rpm, kept, admitted, later)
  {
  }

  lemma {:induction false} RunKeepsInv(rpm: nat, ops: seq<Op>, last: real)
    requires rpm > 0 && InOrder(ops)
    requires forall i :: 0 <= i < |ops| ==> ops[i].at <= last
    ensures RunInv(rpm, Kept(rpm, ops), Admitted(rpm, ops), last)
  {
    if ops == [] {
    } else {
      var before, op := ops[..|ops| - 1], ops[|ops| - 1];
      RunKeepsInv(rpm, before, op.at);
      var kept, admitted := Kept(rpm, before), Admitted(rpm, before);
      RunStep(rpm, kept, admitted, op);
      RunInvLater(rpm, Kept(rpm, ops), Admitted(rpm, ops), op.at, last);
    }
  }

  lemma {:induction false} CountSplit(times: seq<real>, k: nat, lo: real, hi: real)
    requires k <= |times|
    ensures Count(times, lo, hi) == Count(times[..k], lo, hi) + Count(times[k..], lo, hi)
  {
    if k > 0 {
      assert times[..k][1..] == times[1..][..k - 1] && times[1..][k - 1..] == times[k..];
      CountSplit(times[1..], k - 1, lo, hi);
    } else {
      assert times[0..] == times;
    }
  }

  lemma {:induction false} CountBounds(times: seq<real>, lo: real, hi: real)
    ensures Count(times, lo, hi) <= |times|
    ensures (forall t :: t in times ==> !(lo <= t <= hi)) ==> Count(times, lo, hi) == 0
    ensures (forall t :: t in times ==> lo <= t <= hi) ==> Count(times, lo, hi) == |times|
  {
    if times == [] {
    } else {
      CountBounds(times[1..], lo, hi);
      assert times[0] in times;
      assert forall t :: t in times[1..] ==> t in times;
    }
  }

  /** Sorted times that never come closer than the window rpm apart put at most rpm in any window. */
  lemma {:induction false} SpacedCount(times: seq<real>, rpm: nat, lo: real)
    requires Sorted(times)
    requires Spaced(times, rpm)
    ensures Count(times, lo, lo + WINDOW) <= rpm
  {
    if times == [] {
    } else if times[0] < lo {
      SpacedCount(times[1..], rpm, lo);
    } else {
      var k := if rpm <= |times| then rpm else |times|;
      CountSplit(times, k, lo, lo + WINDOW);
      CountBounds(times[..k], lo, lo + WINDOW);
      forall t | t in times[k..] ensures !(lo <= t <= lo + WINDOW) {
        var i :| 0 <= i < |times[k..]| && times[k..][i] == t;
        assert times[k + i] - times[0] > WINDOW;
      }
      CountBounds(times[k..], lo, lo + WINDOW);
    }
  }

  /** Safety: in any run every closed 60-second interval holds at most rpm admitted calls. */
  lemma WindowNeverOverfull(rpm: nat, ops: seq<Op>, lo: real)
    requires rpm > 0 && InOrder(ops)
    ensures Count(Admitted(rpm, ops), lo, lo + 60.0) <= rpm
  {
    RunKeepsInv(rpm, ops, if ops == [] then 0.0 else ops[|ops| - 1].at);
    SpacedCount(Admitted(rpm, ops), rpm, lo);
  }

  lemma BeforeCall(ops: seq<Op>, now: real)
    requires InOrder(ops + [Check(now)])
    ensures InOrder(ops) && forall i :: 0 <= i < |ops| ==> ops[i].at <= now
  {
    var all := ops + [Check(now)];
    assert all[|ops|].at == now;
    forall i, j | 0 <= i <= j < |ops| ensures ops[i].at <= ops[j].at <= now {
      assert all[i] == ops[i] && all[j] == ops[j];
    }
  }

  /** The hits kept are the admissions of the window. */
  lemma WindowIsKept(rpm: nat, live: seq<real>, admitted: seq<real>, now: real)
    requires RunInv(rpm, live, admitted, now) && forall t :: t in live ==> now - WINDOW <= t <= now
    ensures Count(admitted, now - WINDOW, now) == |live|
  {
    var off := |admitted| - |live|;
    CountSplit(admitted, off, now - WINDOW, now);
    CountBounds(admitted[..off], now - WINDOW, now);
    CountBounds(admitted[off..], now - WINDOW, now);
    forall t | t in admitted[..off] ensures !(now - WINDOW <= t <= now) {
      var i :| 0 <= i < off && admitted[i] == t;
    }
  }

  /** A call is refused exactly when the window that ends with it is already full. */
  lemma RefusedExactlyWhenFull(rpm: nat, ops: seq<Op>, now: real)
    requires rpm > 0 && InOrder(ops + [Check(now)])
    ensures Decision(Kept(rpm, ops), rpm, now).Some?
            <==> Count(Admitted(rpm, ops), now - 60.0, now) == rpm
  {
    BeforeCall(ops, now);
    RunKeepsInv(rpm, ops, now);
    RunInvPrune(rpm, Kept(rpm, ops), Admitted(rpm, ops), now, now);
    WindowIsKept(rpm, Pruned(Kept(rpm, ops), now), Admitted(rpm, ops), now);
  }

  /** A refused caller that waits strictly longer than it was told is admitted, if nobody was
      admitted meanwhile; at exactly that time it is still refused. */
  lemma RetryAfterIsExact(rpm: nat, ops: seq<Op>, now: real, later: real)
    requires rpm > 0 && InOrder(ops + [Check(now)]) && now <= later
    requires Decision(Kept(rpm, ops), rpm, now).Some?
    ensures var retry := Decision(Kept(rpm, ops), rpm, now).value;
            && 0.0 <= retry <= 60.0
            && (Decision(Kept(rpm, ops + [Check(now)]), rpm, later).None? <==> later > now + retry)
  {
    var all := ops + [Check(now)];
    assert all[..|all| - 1] == ops && all[|ops|].at == now;
    RunKeepsInv(rpm, all, now);
    var live := Kept(rpm, all);
    assert live == Pruned(Kept(rpm, ops), now) + [];
    assert live == Pruned(Kept(rpm, ops), now);
    var admitted := Admitted(rpm, all);
    assert Sorted(live) by {
      forall i, j | 0 <= i <= j < |live| ensures live[i] <= live[j] {
        assert live[i] == admitted[|admitted| - |live| + i] && live[j] == admitted[|admitted| - |live| + j];
      }
    }
    assert live[0] == admitted[|admitted| - |live|];
    PrunedOnce(Kept(rpm, ops), now);
    PrunedDropsOld(live, later);
  }

  lemma {:induction false} PrunedOnce(hits: seq<real>, now: real)
    ensures Pruned(hits, now) != [] ==> now - Pruned(hits, now)[0] <= WINDOW
  {
    if hits == [] || now - hits[0] <= WINDOW {
    } else {
      PrunedOnce(hits[1..], now);
    }
  }

  lemma {:induction false} PrunedTwice(hits: seq<real>, early: real, late: real)
    requires early <= late
    ensures Pruned(Pruned(hits, early), late) == Pruned(hits, late)
  {
    if hits == [] || early - hits[0] <= WINDOW {
    } else {
      PrunedTwice(hits[1..], early, late);
    }
  }

  function WithoutPeeks(ops: seq<Op>): seq<Op> {
    if ops == [] then []
    else WithoutPeeks(ops[..|ops| - 1]) + if ops[|ops| - 1].Check? then [ops[|ops| - 1]] else []
  }

  lemma PeekStep(a: seq<real>, b: seq<real>, rpm: nat, op: Op, now: real)
    requires rpm > 0 && op.at <= now && Pruned(a, op.at) == Pruned(b, op.at) && Pruned(a, now) == Pruned(b, now)
    ensures op.Check? ==> AfterCall(a, rpm, op.at) == AfterCall(b, rpm, op.at)
    ensures Decision(a, rpm, op.at) == Decision(b, rpm, op.at)
    ensures Pruned(Pruned(a, op.at), now) == Pruned(b, now)
  {
    PrunedTwice(a, op.at, now);
  }

  lemma CheckLast(rpm: nat, checks: seq<Op>, op: Op)
    requires rpm > 0 && op.Check?
    ensures Kept(rpm, checks + [op]) == AfterCall(Kept(rpm, checks), rpm, op.at)
    ensures Admitted(rpm, checks + [op])
         == Admitted(rpm, checks) + if Decision(Kept(rpm, checks), rpm, op.at).None? then [op.at] else []
  {
  }

  lemma InOrderBefore(ops: seq<Op>)
    requires InOrder(ops) && ops != []
    ensures InOrder(ops[..|ops| - 1]) && forall i :: 0 <= i < |ops| - 1 ==> ops[i].at <= ops[|ops| - 1].at
  {
  }

  /** Two deques that a call cannot tell apart now, nor after any later pruning. */
  predicate Indistinct(a: seq<real>, b: seq<real>, now: real) {
    Pruned(a, now) == Pruned(b, now)
  }

  /** One more operation keeps the deques with and without peeks indistinct. */
  lemma PeekLast(rpm: nat, a: seq<real>, b: seq<real>, op: Op, now: real)
    requires rpm > 0 && op.at <= now && Indistinct(a, b, op.at) && Indistinct(a, b, now)
    ensures op.Check? ==> Indistinct(AfterCall(a, rpm, op.at), AfterCall(b, rpm, op.at), now)
    ensures op.Peek? ==> Indistinct(Pruned(a, op.at), b, now)
    ensures Decision(a, rpm, op.at) == Decision(b, rpm, op.at)
  {
    PeekStep(a, b, rpm, op, now);
  }

  /** Reading the current rate prunes the deque but never changes which calls are admitted. */
  lemma {:induction false} PeeksAreInvisible(rpm: nat, ops: seq<Op>, now: real)
    requires rpm > 0 && InOrder(ops)
    requires forall i :: 0 <= i < |ops| ==> ops[i].at <= now
    ensures Admitted(rpm, ops) == Admitted(rpm, WithoutPeeks(ops))
    ensures Indistinct(Kept(rpm, ops), Kept(rpm, WithoutPeeks(ops)), now)
    ensures Decision(Kept(rpm, ops), rpm, now) == Decision(Kept(rpm, WithoutPeeks(ops)), rpm, now)
  {
    if ops == [] {
    } else {
      var before, op := ops[..|ops| - 1], ops[|ops| - 1];
      var checks := WithoutPeeks(before);
      InOrderBefore(ops);
      PeeksAreInvisible(rpm, before, op.at);
      PeeksAreInvisible(rpm, before, now);
      PeekLast(rpm, Kept(rpm, before), Kept(rpm, checks), op, now);
      if op.Check? {
        CheckLast(rpm, checks, op);
      } else {
        Units(checks);
        Units(Admitted(rpm, before));
      }
    }
  }
}
