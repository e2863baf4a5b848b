/** Which failures pass a request on to the next backend and which end it, and what the circuit breaker hears
    of them (src/localgateway/provider.py:15-358, src/localgateway/streaming.py:457-619, 700-928). */
module Failover {
  import opened Wrappers
  import opened Sequences
  import opened Sse
  import opened SseBytes
  import opened JsonValues
  import opened Provider
  import opened Streaming
  import opened StreamingLaws
  import opened UsageLaws
  import opened Request

  predicate Retried(status: int) {
    status == 429 || status == 500 || status == 502 || status == 503 || status == 504
  }

  /** The connection fails before any byte has come. */
  predicate FailsSilently(up: Upstream) {
    up.Reads? && !up.ending.Eof? && forall i :: 0 <= i < |up.chunks| ==> up.chunks[i] == []
  }

  predicate PassesOn(up: Upstream) {
    if up.BadStatus? then Retried(up.status) else FailsSilently(up)
  }

  lemma {:induction false} NonEmptyIsEmpty(chunks: seq<Bytes>)
    ensures NonEmpty(chunks) == [] <==> forall i :: 0 <= i < |chunks| ==> chunks[i] == []
  {
    if chunks == [] {
    } else {
      NonEmptyIsEmpty(chunks[1..]);
      forall i | 0 < i < |chunks| ensures chunks[i] == chunks[1..][i - 1] {
      }
    }
  }

  /** The next backend is asked exactly after one of five statuses, and after a connection that fails before
      its first byte. */
  lemma FallsBackExactly(c: Codec, up: Upstream)
    ensures FallsBack(c, up) <==> PassesOn(up)
  {
    if up.Reads? {
      NonEmptyIsEmpty(up.chunks);
      EventGrammar(c, up);
      MidStreamExactly(c, up);
    }
  }

  // ---------- events that cannot be observed ----------

  predicate NothingAt(o: Object, key: string) {
    Str(key) in o ==> Falsy(o[Str(key)])
  }

  /** A number other than 0, or true, neither of which has a length. */
  predicate NumberAt(o: Object, key: string) {
    Str(key) in o && !Falsy(o[Str(key)]) && (o[Str(key)].JBool? || o[Str(key)].JInt? || o[Str(key)].JFloat?)
  }

  /** The first of the three fields that holds something holds a number. */
  predicate NumberFirst(delta: Object) {
    || NumberAt(delta, "content")
    || (NothingAt(delta, "content") && NumberAt(delta, "reasoning_content"))
    || (NothingAt(delta, "content") && NothingAt(delta, "reasoning_content") && NumberAt(delta, "reasoning"))
  }

  /** The delta of the first choice begins with a number. */
  predicate NumericContent(o: Object) {
    && Str("choices") in o && o[Str("choices")].JList? && o[Str("choices")].items != []
    && o[Str("choices")].items[0].JObj? && ObjectAt(o[Str("choices")].items[0].fields, "delta")
    && NumberFirst(o[Str("choices")].items[0].fields[Str("delta")].fields)
  }

  lemma FirstOfThree(o: Object)
    ensures var j := FirstTruthy(o, CONTENT_KEYS); Truthy(j) && NoLength(j).Some? <==> NumberFirst(o)
  {
    var two, one: seq<string> := ["reasoning_content", "reasoning"], ["reasoning"];
    assert CONTENT_KEYS[1..] == two && two[1..] == one;
    assert FirstTruthy(o, one) == Get(o, "reasoning");
    assert FirstTruthy(o, two) == var j := Get(o, "reasoning_content"); if Truthy(j) then j else Get(o, "reasoning");
    TruthyExactly(Get(o, "content"));
    TruthyExactly(Get(o, "reasoning_content"));
    TruthyExactly(Get(o, "reasoning"));
  }

  /** Observing an event raises exactly when its delta begins with a number. */
  lemma ObjectsExactly(c: Codec, ev: Event)
    ensures Objection(c, ev).Some?
      <==> !ev.done && c.loads(ev.data).Some? && c.loads(ev.data).value.JObj?
           && NumericContent(c.loads(ev.data).value.fields)
  {
    if !ev.done && c.loads(ev.data).Some? && c.loads(ev.data).value.JObj? {
      var delta := FirstDelta(c.loads(ev.data).value.fields);
      if delta.Some? {
        FirstOfThree(delta.value);
      }
    }
  }

  // ---------- streams ----------

  /** What the circuit breaker hears of a status: a failure for none at all, and from 500 on. */
  function News(b: Backend, status: int): seq<Outcome> {
    if status == 0 || status >= 500 then [Outcome(b, false)] else []
  }

  lemma Consed(a: Attempt, later: seq<Attempt>)
    ensures ([a] + later)[0] == a && ([a] + later)[1..] == later
  {
  }

  /** One of the five statuses, or a connection that fails before its first byte: the answer is left to the
      backends after it. */
  lemma RetriedPassesOn(env: Env, b: Backend, shifts: bool, up: Upstream, later: seq<Attempt>)
    requires PassesOn(up)
    ensures var r, rest := Served(env, [Attempt(b, shifts, up)] + later), Served(env, later);
      r == Result(rest.out, [Row(b, false)] + rest.rows,
                  News(b, if up.BadStatus? then up.status else 0) + rest.breaker,
                  [Start(b), End(b)] + rest.flights, rest.stored, rest.raised)
  {
    var a := Attempt(b, shifts, up);
    FallsBackExactly(env.codec, up);
    Consed(a, later);
    ServedFirst(env, [a] + later);
    SilentStatus(env.codec, up);
  }

  lemma SilentStatus(c: Codec, up: Upstream)
    requires PassesOn(up)
    ensures FailureStatus(c, up) == if up.BadStatus? then up.status else 0
  {
    if up.Reads? {
      FallsBackExactly(c, up);
      EventGrammar(c, up);
    }
  }

  lemma FirstDecides(env: Env, a: Attempt, later: seq<Attempt>)
    requires !PassesOn(a.upstream)
    ensures Served(env, [a] + later) == Alone(env, a)
  {
    FallsBackExactly(env.codec, a.upstream);
    Consed(a, later);
    ServedFirst(env, [a] + later);
  }

  /** Any other error status ends the request with that very status, and nobody else is asked. */
  lemma OtherStatusEnds(env: Env, b: Backend, shifts: bool, status: int, body: string, later: seq<Attempt>)
    requires !Retried(status)
    ensures Served(env, [Attempt(b, shifts, BadStatus(status, body))] + later)
         == Result([ErrorMeta(if status == 0 then 502 else status)], [Row(b, false)], News(b, status),
                   [Start(b), End(b)], None, false)
  {
    FirstDecides(env, Attempt(b, shifts, BadStatus(status, body)), later);
  }

  lemma OpenedAlone(env: Env, a: Attempt)
    requires a.upstream.Reads? && !PassesOn(a.upstream)
    ensures var r := Alone(env, a);
      && r.flights == [Start(a.backend), End(a.backend)]
      && (!r.raised ==> var well := Terminal(env.codec, a.upstream).Done?;
                        r.rows == [Row(a.backend, well)] && r.breaker == [Outcome(a.backend, well)])
  {
    FallsBackExactly(env.codec, a.upstream);
    ReadsStatus(env.codec, a.upstream);
  }

  lemma ReadsStatus(c: Codec, up: Upstream)
    requires up.Reads?
    ensures var end := Terminal(c, up); end.Failed? ==> end.status == 0 && end.retryable
  {
  }

  /** A stream that has begun, or that ends well, is the last one asked; unless rewriting it raised, the row
      and the circuit breaker say whether it ended well. */
  lemma OpenedStreamDecides(env: Env, b: Backend, shifts: bool, up: Upstream, later: seq<Attempt>)
    requires up.Reads? && !PassesOn(up)
    ensures var r := Served(env, [Attempt(b, shifts, up)] + later);
      && r.flights == [Start(b), End(b)]
      && (!r.raised ==> var well := Terminal(env.codec, up).Done?;
                        r.rows == [Row(b, well)] && r.breaker == [Outcome(b, well)])
  {
    FirstDecides(env, Attempt(b, shifts, up), later);
    OpenedAlone(env, Attempt(b, shifts, up));
  }

  /** The first i upstreams pass the request on, and the next one does not. */
  predicate DecidedAt(attempts: seq<Attempt>, i: nat)
    requires i < |attempts|
  {
    !PassesOn(attempts[i].upstream) && forall k :: 0 <= k < i ==> PassesOn(attempts[k].upstream)
  }

  lemma DecidedLater(attempts: seq<Attempt>, i: nat)
    requires 0 < i < |attempts| && PassesOn(attempts[0].upstream)
    ensures DecidedAt(attempts, i) <==> DecidedAt(attempts[1..], i - 1)
  {
    if DecidedAt(attempts[1..], i - 1) {
      forall k | 0 <= k < i ensures PassesOn(attempts[k].upstream) {
        assert k > 0 ==> attempts[k] == attempts[1..][k - 1];
      }
    }
  }

  /** The backend that decides a streaming request is the first whose upstream does not pass it on. */
  lemma {:induction false} DecidedExactly(c: Codec, attempts: seq<Attempt>, i: nat)
    requires i < |attempts|
    ensures Decider(c, attempts) == Some(i) <==> DecidedAt(attempts, i)
  {
    FallsBackExactly(c, attempts[0].upstream);
    if i > 0 && PassesOn(attempts[0].upstream) {
      DecidedExactly(c, attempts[1..], i - 1);
      DecidedLater(attempts, i);
    }
  }

  /** The end mark that closes a relayed stream is one data line and a blank one, and a reader takes it for the
      end. */
  lemma EndMarkIsRead(mark: Bytes)
    requires mark == [91, 68, 79, 78, 69, 93]
    ensures DONE_EVENT == [100, 97, 116, 97, 58, 32] + mark + [10, 10]
    ensures IsDone(mark)
  {
    assert DONE_EVENT == DATA_FIELD + [SPACE] + mark + BLANK;
    assert DATA_FIELD + [SPACE] == [100, 97, 116, 97, 58, 32];
    assert mark[0..6] == mark;
    MarkIsDone(mark, 0);
  }

  // ---------- requests that are not streamed ----------

  /** The same for a request that is not streamed: five statuses, and none at all, pass it on. */
  lemma RetriedCallPassesOn(env: Env, b: Backend, shifts: bool, status: int, later: seq<Call>)
    requires status == 0 || Retried(status)
    ensures var r, rest := Answered(env, [Call(b, shifts, Bad(status))] + later), Answered(env, later);
      r == Answer(rest.status, rest.body, [Row(b, false)] + rest.rows, News(b, status) + rest.breaker,
                  [Start(b), End(b)] + rest.flights, rest.stored, rest.raised)
  {
    var calls := [Call(b, shifts, Bad(status))] + later;
    assert calls[0] == Call(b, shifts, Bad(status)) && calls[1..] == later;
  }

  lemma OtherCallEnds(env: Env, b: Backend, shifts: bool, status: int, later: seq<Call>)
    requires status != 0 && !Retried(status)
    ensures Answered(env, [Call(b, shifts, Bad(status))] + later)
         == Answer(status, None, [Row(b, false)], News(b, status), [Start(b), End(b)], None, false)
  {
    var calls := [Call(b, shifts, Bad(status))] + later;
    assert calls[0] == Call(b, shifts, Bad(status)) && calls[1..] == later;
  }

  /** The last call made is the first that is good or answers with another status. */
  lemma TriedExactly(calls: seq<Call>, i: nat)
    requires i < |calls|
    ensures Tried(calls) > i
      <==> forall k :: 0 <= k < i ==>
             calls[k].reply.Bad? && (calls[k].reply.status == 0 || Retried(calls[k].reply.status))
  {
    TriedAre(calls);
    forall k | 0 <= k < |calls|
      ensures Retries(calls[k].reply)
        <==> calls[k].reply.Bad? && (calls[k].reply.status == 0 || Retried(calls[k].reply.status))
    {
    }
  }
}
