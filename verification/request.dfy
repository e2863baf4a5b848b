/** Chat requests that are not streamed (handle_request of src/localgateway/streaming.py). */
module Request {
  import opened Wrappers
  import opened Sequences
  import opened Sse
  import opened JsonValues
  import opened Reasoning
  import opened ReasoningStream
  import opened UsageShift
  import opened Provider
  import opened Streaming

  /** What call_provider returns; status 0 stands for a timeout or a broken connection. */
  datatype Reply = Good(body: Bytes) | Bad(status: int)

  /** A selected backend, whether it has no cached-input price, and its reply. */
  datatype Call = Call(backend: Backend, shifts: bool, reply: Reply)

  datatype Plan = FromCache(body: Bytes) | NoRoute(status: int) | Through(calls: seq<Call>)

  /** What a request leaves behind; status 0 and no body if it raised. */
  datatype Answer = Answer(status: int, body: Option<Bytes>, rows: seq<Row>, breaker: seq<Outcome>,
                           flights: seq<Flight>, stored: Option<Bytes>, raised: bool)

  predicate Retries(reply: Reply) {
    reply.Bad? && (reply.status == 0 || reply.status in RETRYABLE_STATUS)
  }

  // ---------- the body ----------

  /** A body with its reasoning fields filled; None if joining their parts or printing the object raises. */
  function NormalizedBody(c: Codec, body: Bytes): Option<Bytes> {
    if !Contains(body, REASONING) && !Contains(body, THINKING) then Some(body)
    else
      var json := c.loads(body);
      if json.None? || !json.value.JObj? then Some(body)
      else
        var g := NormalizedObject(json.value.fields);
        if g.None? then None
        else if g.value == json.value.fields then Some(body)
        else c.dumps(JObj(g.value))
  }

  /** A body with its usage numbers shifted; None if it is JSON but no object, or adding raises. */
  function ShiftedBody(c: Codec, body: Bytes): Option<Bytes> {
    var json := c.loads(body);
    if json.None? then Some(body)
    else if !json.value.JObj? then None
    else
      match ShiftedObject(c, json.value.fields)
      case Unchanged => Some(body)
      case Changed(o) => c.escaped(JObj(o))
      case Raises => None
  }

  function SentBody(c: Codec, shifts: bool, body: Bytes): Option<Bytes> {
    var normal := NormalizedBody(c, body);
    if normal.None? || !shifts then normal else ShiftedBody(c, normal.value)
  }

  method NormalizeBody(c: Codec, body: Bytes) returns (out: Option<Bytes>)
    ensures out == NormalizedBody(c, body)
  {
    if !Contains(body, REASONING) && !Contains(body, THINKING) {
      return Some(body);
    }
    var json := c.loads(body);
    if json.None? || !json.value.JObj? {
      return Some(body);
    }
    var g := NormalizeObject(json.value.fields);
    if g.None? {
      return None;
    }
    return if g.value.1 then c.dumps(JObj(g.value.0)) else Some(body);
  }

  method ShiftBody(c: Codec, body: Bytes) returns (out: Option<Bytes>)
    ensures out == ShiftedBody(c, body)
  {
    var json := c.loads(body);
    if json.None? {
      return Some(body);
    }
    if !json.value.JObj? {
      return None;
    }
    var shift := ShiftUsageObject(c, json.value.fields);
    match shift {
      case Unchanged => return Some(body);
      case Changed(o) => return c.escaped(JObj(o));
      case Raises => return None;
    }
  }

  // ---------- the handler ----------

  /** The answer of a good reply: raising on the way leaves no usage row. */
  function Finished(env: Env, call: Call, reply: Bytes): Answer {
    var b := call.backend;
    var body := SentBody(env.codec, call.shifts, reply);
    var flights := [Start(b), End(b)];
    if body.None? then Answer(0, None, [], [Outcome(b, true)], flights, None, true)
    else Answer(200, body, [Row(b, true)], [Outcome(b, true)], flights, if env.caching then body else None, false)
  }

  /** The first reply that is good or final answers the request. */
  function Answered(env: Env, calls: seq<Call>): Answer {
    if calls == [] then Answer(502, None, [], [], [], None, false)
    else
      var call, b := calls[0], calls[0].backend;
      match call.reply
      case Good(body) => Finished(env, call, body)
      case Bad(status) =>
        if !Retries(call.reply) then
          Answer(ErrorStatus(status), None, [Row(b, false)], BreakerNews(b, status), [Start(b), End(b)], None, false)
        else Ahead([Row(b, false)], BreakerNews(b, status), [Start(b), End(b)], Answered(env, calls[1..]))
  }

  function Planned(env: Env, plan: Plan): Answer {
    match plan
    case FromCache(body) => Answer(200, Some(body), [CacheRow], [], [], None, false)
    case NoRoute(status) => Answer(status, None, [], [], [], None, false)
    case Through(calls) => Answered(env, calls)
  }

  function Ahead(rows: seq<Row>, breaker: seq<Outcome>, flights: seq<Flight>, rest: Answer): Answer {
    rest.(rows := rows + rest.rows, breaker := breaker + rest.breaker, flights := flights + rest.flights)
  }

  lemma AheadOfNothing(r: Answer)
    ensures Ahead([], [], [], r) == r
  {
    Units(r.rows);
    Units(r.breaker);
    Units(r.flights);
  }

  lemma AheadTwice(rows: seq<Row>, breaker: seq<Outcome>, flights: seq<Flight>,
                   more: seq<Row>, news: seq<Outcome>, later: seq<Flight>, rest: Answer)
    ensures Ahead(rows, breaker, flights, Ahead(more, news, later, rest))
         == Ahead(rows + more, breaker + news, flights + later, rest)
  {
    Assoc(rows, more, rest.rows);
    Assoc(breaker, news, rest.breaker);
    Assoc(flights, later, rest.flights);
  }

  /** src/localgateway/streaming.py:419-619. */
  method HandleRequest(env: Env, plan: Plan) returns (r: Answer)
    ensures r == Planned(env, plan)
  {
    if plan.FromCache? {
      return Answer(200, Some(plan.body), [CacheRow], [], [], None, false);
    }
    if plan.NoRoute? {
      return Answer(plan.status, None, [], [], [], None, false);
    }
    var calls := plan.calls;
    var rows: seq<Row>, breaker: seq<Outcome>, flights: seq<Flight> := [], [], [];
    AheadOfNothing(Answered(env, calls));
    for i := 0 to |calls|
      invariant Answered(env, calls) == Ahead(rows, breaker, flights, Answered(env, calls[i..]))
    {
      var call, b := calls[i], calls[i].backend;
      assert calls[i..][0] == call && calls[i..][1..] == calls[i + 1..];
      flights := flights + [Start(b), End(b)];
      match call.reply {
        case Good(body) =>
          var last := FinishRequest(env, call, body);
          return Answer(last.status, last.body, rows + last.rows, breaker + last.breaker, flights,
                        last.stored, last.raised);
        case Bad(status) =>
          rows, breaker := rows + [Row(b, false)], breaker + BreakerNews(b, status);
          if !Retries(call.reply) {
            return Answer(ErrorStatus(status), None, rows, breaker, flights, None, false);
          }
          AheadTwice(rows[..|rows| - 1], breaker[..|breaker| - |BreakerNews(b, status)|], flights[..|flights| - 2],
                     [Row(b, false)], BreakerNews(b, status), [Start(b), End(b)], Answered(env, calls[i + 1..]));
      }
    }
    AheadOfNothing(Answered(env, []));
    Units(rows);
    Units(breaker);
    Units(flights);
    return Answer(502, None, rows, breaker, flights, None, false);
  }

  method FinishRequest(env: Env, call: Call, reply: Bytes) returns (r: Answer)
    ensures r == Finished(env, call, reply)
  {
    var b := call.backend;
    var breaker, flights := [Outcome(b, true)], [Start(b), End(b)];
    var body := NormalizeBody(env.codec, reply);
    if body.Some? && call.shifts {
      body := ShiftBody(env.codec, body.value);
    }
    if body.None? {
      return Answer(0, None, [], breaker, flights, None, true);
    }
    return Answer(200, body, [Row(b, true)], breaker, flights, if env.caching then body else None, false);
  }

  // ---------- when a body cannot be rewritten ----------

  function BodyObject(c: Codec, body: Bytes): Option<Object> {
    match c.loads(body)
    case Some(JObj(fields)) => Some(fields)
    case _ => None
  }

  /** Normalising a body that mentions reasoning raises exactly when joining does, or when it changes
      something in an object that holds half a surrogate pair anywhere. */
  lemma NormalizingRaisesExactly(c: Codec, body: Bytes)
    requires ValidCodec(c)
    ensures NormalizedBody(c, body).None?
      <==> && (Contains(body, REASONING) || Contains(body, THINKING)) && BodyObject(c, body).Some?
           && var o := BodyObject(c, body).value;
              NormalizedObject(o).None? || (NormalizedObject(o).value != o && !Printable(JObj(o)))
  {
    var o := BodyObject(c, body);
    if o.Some? && NormalizedObject(o.value).Some? {
      NormalizingKeepsPrintable(o.value);
    }
  }

  /** Shifting a body raises exactly when it is JSON and no object, or an object whose counts raise, or
      which cannot be printed after its tokens have moved. */
  lemma ShiftingRaisesExactly(c: Codec, body: Bytes)
    ensures ShiftedBody(c, body).None?
      <==> && c.loads(body).Some?
           && (BodyObject(c, body).None?
               || CountsRaise(c, BodyObject(c, body).value) || CannotPrintShifted(c, BodyObject(c, body).value))
  {
    if BodyObject(c, body).Some? {
      ShiftRaisesExactly(c, BodyObject(c, body).value);
    }
  }

  /** A normalised body is an object exactly when the body is, with the same usage numbers. */
  lemma NormalizedReads(c: Codec, body: Bytes)
    requires ValidCodec(c) && NormalizedBody(c, body).Some?
    ensures var normal := NormalizedBody(c, body).value;
            && (c.loads(normal).Some? <==> c.loads(body).Some?)
            && (BodyObject(c, normal).Some? <==> BodyObject(c, body).Some?)
            && (BodyObject(c, body).Some? ==>
                  Get(BodyObject(c, normal).value, "usage") == Get(BodyObject(c, body).value, "usage"))
  {
    var o := BodyObject(c, body);
    if o.Some? && NormalizedObject(o.value).Some? {
      NormalizedObjectKeeps(o.value, "usage");
    }
  }

  /** A good reply raises exactly when normalising it does, or, its usage numbers being shifted, when it is
      JSON and no object, or holds counts that raise, or cannot be printed after its tokens have moved. */
  lemma SendingRaisesExactly(c: Codec, shifts: bool, body: Bytes)
    requires ValidCodec(c)
    ensures SentBody(c, shifts, body).None?
      <==> || NormalizedBody(c, body).None?
           || (shifts && c.loads(body).Some?
               && (BodyObject(c, body).None? || CountsRaise(c, BodyObject(c, body).value)
                   || CannotPrintShifted(c, BodyObject(c, NormalizedBody(c, body).value).GetOr(map[]))))
  {
    if NormalizedBody(c, body).Some? {
      NormalizedReads(c, body);
      ShiftingRaisesExactly(c, NormalizedBody(c, body).value);
    }
  }

  /** A backend without a price for cached input that answers `[]` makes the request raise: no row is left
      and nobody else is asked. */
  lemma EmptyListRaises(env: Env, b: Backend, reply: Bytes, later: seq<Call>)
    requires env.codec.loads(reply) == Some(JList([]))
    ensures Answered(env, [Call(b, true, Good(reply))] + later)
         == Answer(0, None, [], [Outcome(b, true)], [Start(b), End(b)], None, true)
  {
  }

  // ---------- what it promises ----------

  function FlightsOfCalls(calls: seq<Call>): seq<Flight> {
    if calls == [] then [] else [Start(calls[0].backend), End(calls[0].backend)] + FlightsOfCalls(calls[1..])
  }

  /** How many calls are made. */
  function Tried(calls: seq<Call>): (n: nat)
    ensures n <= |calls|
  {
    if calls == [] then 0 else if Retries(calls[0].reply) then 1 + Tried(calls[1..]) else 1
  }

  lemma {:induction false} TriedAre(calls: seq<Call>)
    ensures var n := Tried(calls);
            && (forall k :: 0 <= k < n - 1 ==> Retries(calls[k].reply))
            && (n < |calls| ==> n > 0 && !Retries(calls[n - 1].reply))
  {
    if calls == [] {
    } else if Retries(calls[0].reply) {
      TriedAre(calls[1..]);
    }
  }

  lemma {:induction false} FlightsOfAnswer(env: Env, calls: seq<Call>)
    ensures Answered(env, calls).flights == FlightsOfCalls(calls[..Tried(calls)])
  {
    if calls == [] {
    } else {
      TailOfPrefix(calls, Tried(calls));
      assert calls[..1][1..] == [];
      Units([Start(calls[0].backend), End(calls[0].backend)]);
      if Retries(calls[0].reply) {
        FlightsOfAnswer(env, calls[1..]);
      }
    }
  }

  /** The last call made answers with a good reply. */
  predicate Succeeds(calls: seq<Call>) {
    Tried(calls) > 0 && calls[Tried(calls) - 1].reply.Good?
  }

  function LastBody(env: Env, calls: seq<Call>): Option<Bytes>
    requires Succeeds(calls)
  {
    var last := calls[Tried(calls) - 1];
    SentBody(env.codec, last.shifts, last.reply.body)
  }

  lemma {:induction false} LastCallDecides(env: Env, calls: seq<Call>)
    ensures var r := Answered(env, calls);
            && (r.raised <==> Succeeds(calls) && LastBody(env, calls).None?)
            && r.body == (if Succeeds(calls) then LastBody(env, calls) else None)
            && (r.body.Some? ==> r.status == 200)
            && r.stored == if env.caching then r.body else None
  {
    if calls == [] {
    } else if Retries(calls[0].reply) {
      LastCallDecides(env, calls[1..]);
    }
  }

  lemma {:induction false} RowsOfCalls(env: Env, calls: seq<Call>)
    ensures var r, n := Answered(env, calls), Tried(calls);
            && |r.rows| == (if r.raised then n - 1 else n)
            && forall k :: 0 <= k < |r.rows| ==> r.rows[k] == Row(calls[k].backend, calls[k].reply.Good?)
  {
    if calls == [] {
    } else if Retries(calls[0].reply) {
      RowsOfCalls(env, calls[1..]);
    }
  }

  /** The same accounting without streaming: one row per call in order, a success only as the last;
      every call but the last failed retryably; the answer, and what is stored, is the body of that
      success. Only a good reply whose body cannot be rewritten leaves no row, and then nothing is
      stored. */
  lemma CallsAccounted(env: Env, calls: seq<Call>)
    ensures var r, n := Answered(env, calls), Tried(calls);
            && r.flights == FlightsOfCalls(calls[..n])
            && |r.rows| == (if r.raised then n - 1 else n)
            && (forall k :: 0 <= k < |r.rows| ==> r.rows[k] == Row(calls[k].backend, calls[k].reply.Good?))
            && (forall k :: 0 <= k < n - 1 ==> Retries(calls[k].reply))
            && (n < |calls| ==> n > 0 && !Retries(calls[n - 1].reply))
            && (r.raised <==> Succeeds(calls) && LastBody(env, calls).None?)
            && r.body == (if Succeeds(calls) then LastBody(env, calls) else None)
            && (r.body.Some? ==> r.status == 200)
            && r.stored == if env.caching then r.body else None
  {
    TriedAre(calls);
    FlightsOfAnswer(env, calls);
    LastCallDecides(env, calls);
    RowsOfCalls(env, calls);
  }
}
