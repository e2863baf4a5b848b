/** The in-flight counts under any number of concurrent requests: start_request and end_request of
    src/localgateway/stats.py as the handlers of src/localgateway/streaming.py call them. */
module InFlightRuns {
  import opened Wrappers
  import opened Sequences
  import opened Streaming
  import Laws = StreamingLaws
  import Request
  import Stats

  function KeyOf(b: Backend): string {
    b.provider + ":" + b.model
  }

  // ---------- one request ----------

  /** Every start is followed at once by the end of the same backend. */
  predicate Paired(flights: seq<Flight>) {
    flights == []
    || (|flights| >= 2 && flights[0].Start? && flights[1] == End(flights[0].backend) && Paired(flights[2..]))
  }

  lemma PairFirst(b: Backend, rest: seq<Flight>)
    requires Paired(rest)
    ensures Paired([Start(b), End(b)] + rest)
  {
    assert ([Start(b), End(b)] + rest)[2..] == rest;
  }

  lemma {:induction false} FlightsArePaired(attempts: seq<Attempt>)
    ensures Paired(Laws.FlightsOf(attempts))
  {
    if attempts == [] {
    } else {
      FlightsArePaired(attempts[1..]);
      PairFirst(attempts[0].backend, Laws.FlightsOf(attempts[1..]));
    }
  }

  lemma {:induction false} CallsArePaired(calls: seq<Request.Call>)
    ensures Paired(Request.FlightsOfCalls(calls))
  {
    if calls == [] {
    } else {
      CallsArePaired(calls[1..]);
      PairFirst(calls[0].backend, Request.FlightsOfCalls(calls[1..]));
    }
  }

  /** A streaming request pairs its marks, however it ends. */
  lemma StreamIsPaired(env: Env, routing: Routing)
    ensures Paired(Handled(env, routing).flights)
  {
    if routing.Backends? {
      Laws.AttemptsAccounted(env, routing.attempts);
      FlightsArePaired(routing.attempts[..Laws.Attempted(env.codec, routing.attempts)]);
    }
  }

  /** And so does one that is not streamed. */
  lemma RequestIsPaired(env: Env, plan: Request.Plan)
    ensures Paired(Request.Planned(env, plan).flights)
  {
    if plan.Through? {
      Request.CallsAccounted(env, plan.calls);
      CallsArePaired(plan.calls[..Request.Tried(plan.calls)]);
    }
  }

  // ---------- many requests ----------

  /** The requests named one after another each have a mark left to make. */
  predicate CanTake(left: seq<seq<Flight>>, order: seq<nat>)
    decreases |order|
  {
    order == []
    || (order[0] < |left| && left[order[0]] != [] && CanTake(left[order[0] := left[order[0]][1..]], order[1..]))
  }

  function LeftAfter(left: seq<seq<Flight>>, order: seq<nat>): (rest: seq<seq<Flight>>)
    requires CanTake(left, order)
    ensures |rest| == |left|
    decreases |order|
  {
    if order == [] then left else LeftAfter(left[order[0] := left[order[0]][1..]], order[1..])
  }

  /** The next mark of request r, its attempt having the number of the request. */
  function StepOf(r: nat, f: Flight): Stats.Step {
    if f.Start? then Stats.Start(r, KeyOf(f.backend)) else Stats.End(r)
  }

  /** The marks as they come when the requests take turns in this order. */
  function Interleaved(left: seq<seq<Flight>>, order: seq<nat>): seq<Stats.Step>
    requires CanTake(left, order)
    decreases |order|
  {
    if order == [] then []
    else [StepOf(order[0], left[order[0]][0])] + Interleaved(left[order[0] := left[order[0]][1..]], order[1..])
  }

  /** Request r has an attempt open exactly when its next mark is the end of it. */
  predicate Balanced(open: map<nat, string>, left: seq<seq<Flight>>) {
    && (forall r :: r in open ==> r < |left|)
    && forall r: nat :: r < |left| ==> Midway(open, r, left[r])
  }

  predicate Midway(open: map<nat, string>, r: nat, flights: seq<Flight>) {
    if r in open then
      flights != [] && flights[0].End? && KeyOf(flights[0].backend) == open[r] && Paired(flights[1..])
    else Paired(flights)
  }

  lemma TurnIsStep(b: Stats.Board, left: seq<seq<Flight>>, r: nat)
    requires Balanced(b.open, left) && r < |left| && left[r] != []
    ensures Stats.Enabled(b, StepOf(r, left[r][0]))
    ensures Balanced(Stats.Next(b, StepOf(r, left[r][0])).open, left[r := left[r][1..]])
  {
    var f, rest := left[r][0], left[r][1..];
    assert Midway(b.open, r, left[r]);
    if f.Start? {
      assert rest[0] == left[r][1] && rest[1..] == left[r][2..];
    }
    var open := Stats.Next(b, StepOf(r, f)).open;
    var after := left[r := rest];
    forall q: nat | q < |after| ensures Midway(open, q, after[q]) {
      if q != r {
        assert Midway(b.open, q, left[q]);
      }
    }
  }

  /** Any interleaving of paired requests is a run of the board. */
  lemma {:induction false} InterleavingIsRun(b: Stats.Board, left: seq<seq<Flight>>, order: seq<nat>)
    returns (end: Stats.Board)
    requires Balanced(b.open, left) && CanTake(left, order)
    ensures Stats.Reaches(b, Interleaved(left, order), end)
    ensures Balanced(end.open, LeftAfter(left, order))
    decreases |order|
  {
    if order == [] {
      end := b;
    } else {
      var r := order[0];
      var step, after := StepOf(r, left[r][0]), left[r := left[r][1..]];
      TurnIsStep(b, left, r);
      end := InterleavingIsRun(Stats.Next(b, step), after, order[1..]);
      assert ([step] + Interleaved(after, order[1..]))[1..] == Interleaved(after, order[1..]);
    }
  }

  /** The requests whose attempt on this backend has started and not ended. */
  function FlyingOn(left: seq<seq<Flight>>, key: string): set<nat> {
    set r: nat | r < |left| && left[r] != [] && left[r][0].End? && KeyOf(left[r][0].backend) == key
  }

  lemma OpenAreFlying(open: map<nat, string>, left: seq<seq<Flight>>, key: string)
    requires Balanced(open, left)
    ensures Stats.OpenOn(open, key) == FlyingOn(left, key)
  {
    forall r: nat ensures r in Stats.OpenOn(open, key) <==> r in FlyingOn(left, key) {
      if r < |left| {
        assert Midway(open, r, left[r]);
      }
    }
  }

  /** However any requests interleave, each count is the number of requests with an attempt under way on
      that backend; so all counts are back at zero once every request is done. */
  lemma CountsAreFlyingRequests(requests: seq<seq<Flight>>, order: seq<nat>) returns (end: Stats.Board)
    requires (forall r: nat :: r < |requests| ==> Paired(requests[r])) && CanTake(requests, order)
    ensures Stats.Reaches(Stats.Board(map[], map[]), Interleaved(requests, order), end)
    ensures forall key :: Stats.Count(end.counts, key) == |FlyingOn(LeftAfter(requests, order), key)|
    ensures (forall r: nat :: r < |requests| ==> LeftAfter(requests, order)[r] == []) ==>
              forall key :: Stats.Count(end.counts, key) == 0
  {
    var start, left := Stats.Board(map[], map[]), LeftAfter(requests, order);
    assert Balanced(start.open, requests);
    end := InterleavingIsRun(start, requests, order);
    forall key ensures Stats.Count(end.counts, key) == |FlyingOn(left, key)| {
      Stats.InFlightIsExact(Interleaved(requests, order), end, key, Stats.Start(|requests|, key));
      OpenAreFlying(end.open, left, key);
    }
    if forall r: nat :: r < |requests| ==> left[r] == [] {
      forall key ensures Stats.Count(end.counts, key) == 0 {
        assert FlyingOn(left, key) == {};
      }
    }
  }
}
