/** The two chat request handlers (handle_request_stream and handle_request of
    src/localgateway/streaming.py): failover over the selected backends. */
module Streaming {
  import opened Wrappers
  import opened Sequences
  import opened Sse
  import opened JsonValues
  import opened Reasoning
  import opened ReasoningStream
  import opened UsageShift
  import opened Provider

  datatype Backend = Backend(provider: string, model: string, reason: string)

  /** A selected backend, whether it has no cached-input price, and what its upstream will do. */
  datatype Attempt = Attempt(backend: Backend, shifts: bool, upstream: Upstream)

  /** What the handler is given from elsewhere: the JSON codec, the wire form of an error, and whether
      this request may be cached. */
  datatype Env = Env(codec: Codec, errorEvent: string -> Bytes, caching: bool)

  datatype Routing = CacheHit(body: Bytes) | Unroutable(status: int) | Backends(attempts: seq<Attempt>)

  /** What the handler yields: a dict with headers, a dict with an error, or bytes. */
  datatype Item = CacheHeaders | Headers(backend: Backend) | ErrorMeta(status: int) | Body(data: Bytes)

  datatype Row = CacheRow | Row(backend: Backend, success: bool)
  datatype Outcome = Outcome(backend: Backend, success: bool)
  datatype Flight = Start(backend: Backend) | End(backend: Backend)

  /** All that a request leaves behind. raised: rewriting a chunk raised and the request broke off. */
  datatype Result = Result(out: seq<Item>, rows: seq<Row>, breaker: seq<Outcome>, flights: seq<Flight>,
                           stored: Option<Bytes>, raised: bool)

  const DONE_EVENT: Bytes := DATA_PREFIX + DONE_MARK + BLANK

  // ---------- one attempt ----------

  /** The relay of one backend: its transform parser, the pieces sent, and whether it raised. */
  datatype Pipe = Pipe(buf: Bytes, sent: seq<Bytes>, raised: bool)

  /** What a transformed chunk is sent as; None if shifting its usage numbers raises. */
  function Piece(c: Codec, shifts: bool, out: Bytes): Option<seq<Bytes>> {
    if out == [] then Some([])
    else if !shifts then Some([out])
    else if ShiftedChunk(c, out).None? then None
    else Some([ShiftedChunk(c, out).value])
  }

  function PipeStep(env: Env, shifts: bool, p: Pipe, d: Bytes): Pipe {
    var out := RewrittenAll(env.codec, FedEvents(p.buf, d));
    if out.None? || Piece(env.codec, shifts, out.value).None? then p.(raised := true)
    else Pipe(FedBuffer(p.buf, d), p.sent + Piece(env.codec, shifts, out.value).value, false)
  }

  function PipedFrom(env: Env, shifts: bool, p: Pipe, datas: seq<Bytes>): Pipe
    decreases |datas|
  {
    if datas == [] || p.raised then p else PipedFrom(env, shifts, PipeStep(env, shifts, p, datas[0]), datas[1..])
  }

  const NEW_PIPE := Pipe([], [], false)

  function Piped(env: Env, shifts: bool, datas: seq<Bytes>): Pipe {
    PipedFrom(env, shifts, NEW_PIPE, datas)
  }

  /** The bytes that close a complete stream; None if flushing raises. */
  function Closing(env: Env, buf: Bytes, sentDone: bool): Option<seq<Bytes>> {
    var tail := FlushedTransform(env.codec, buf);
    if tail.None? then None
    else Some((if tail.value == [] then [] else [tail.value]) + (if sentDone then [] else [DONE_EVENT]))
  }

  function AsBodies(pieces: seq<Bytes>): seq<Item> {
    if pieces == [] then [] else [Body(pieces[0])] + AsBodies(pieces[1..])
  }

  function FailureStatus(c: Codec, up: Upstream): int {
    if Terminal(c, up).Failed? then Terminal(c, up).status else 0
  }

  /** Failed, and not called a mid-stream failure. */
  predicate FailsEarly(c: Codec, up: Upstream) {
    Terminal(c, up).Failed? && !Terminal(c, up).midStream
  }

  predicate FallsBack(c: Codec, up: Upstream) {
    FailsEarly(c, up) && Terminal(c, up).retryable
  }

  predicate FailsForGood(c: Codec, up: Upstream) {
    FailsEarly(c, up) && !Terminal(c, up).retryable
  }

  function ErrorStatus(status: int): int {
    if status != 0 then status else 502
  }

  function BreakerNews(b: Backend, status: int): seq<Outcome> {
    if status == 0 || status >= 500 then [Outcome(b, false)] else []
  }

  /** What a request leaves behind when its stream from b came to its end. */
  function Completed(env: Env, b: Backend, p: Pipe, sentDone: bool): Result {
    var closing := Closing(env, p.buf, sentDone);
    var flights := [Start(b), End(b)];
    if closing.None? then
      Result([Headers(b)] + AsBodies(p.sent), [Row(b, true)], [Outcome(b, true)], flights, None, true)
    else
      var all := p.sent + closing.value;
      Result([Headers(b)] + AsBodies(all), [Row(b, true)], [Outcome(b, true)], flights,
             if env.caching && all != [] then Some(Flatten(all)) else None, false)
  }

  /** What goes out for the chunks of b: the headers with the first of them. */
  function SentItems(b: Backend, committed: bool, sent: seq<Bytes>): seq<Item> {
    if committed then [Headers(b)] + AsBodies(sent) else []
  }

  /** What a request leaves behind when its first attempt serves it. */
  function ServedBy(env: Env, a: Attempt): Result {
    var datas, end := Datas(env.codec, a.upstream), Terminal(env.codec, a.upstream);
    var p := Piped(env, a.shifts, datas);
    var b := a.backend;
    var flights := [Start(b), End(b)];
    if p.raised then Result([Headers(b)] + AsBodies(p.sent), [], [], flights, None, true)
    else if end.Failed? then
      Result(SentItems(b, datas != [], p.sent) + AsBodies([env.errorEvent(end.error), DONE_EVENT]), [Row(b, false)],
             BreakerNews(b, end.status), flights, None, false)
    else Completed(env, b, p, end.sentDone)
  }

  // ---------- the whole request ----------

  /** The rest of a request after one attempt that failed before its first chunk. */
  function AfterFallback(c: Codec, a: Attempt, rest: Result): Result {
    var b := a.backend;
    rest.(rows := [Row(b, false)] + rest.rows,
          breaker := BreakerNews(b, FailureStatus(c, a.upstream)) + rest.breaker,
          flights := [Start(b), End(b)] + rest.flights)
  }

  /** What a failure that is not retried leaves behind. */
  function Refused(b: Backend, status: int): Result {
    Result([ErrorMeta(ErrorStatus(status))], [Row(b, false)], BreakerNews(b, status), [Start(b), End(b)], None, false)
  }

  /** What a request leaves behind when its first attempt decides it. */
  function Alone(env: Env, a: Attempt): Result {
    if FailsForGood(env.codec, a.upstream) then Refused(a.backend, FailureStatus(env.codec, a.upstream))
    else ServedBy(env, a)
  }

  /** Backends that fail retryably before their first chunk are passed over; the first other one
      decides, and nobody after it is asked. */
  function Served(env: Env, attempts: seq<Attempt>): Result {
    if attempts == [] then Result([ErrorMeta(502)], [], [], [], None, false)
    else
      var a := attempts[0];
      if FallsBack(env.codec, a.upstream) then AfterFallback(env.codec, a, Served(env, attempts[1..]))
      else Alone(env, a)
  }

  function Handled(env: Env, routing: Routing): Result {
    match routing
    case CacheHit(body) => Result([CacheHeaders, Body(body)], [CacheRow], [], [], None, false)
    case Unroutable(status) => Result([ErrorMeta(status)], [], [], [], None, false)
    case Backends(attempts) => Served(env, attempts)
  }

  function Joined(before: Result, last: Result): Result {
    Result(before.out + last.out, before.rows + last.rows, before.breaker + last.breaker,
           before.flights + last.flights, last.stored, last.raised)
  }

  /** What one attempt passed over leaves behind. */
  function Passed(c: Codec, a: Attempt): Result {
    Result([], [Row(a.backend, false)], BreakerNews(a.backend, FailureStatus(c, a.upstream)),
           [Start(a.backend), End(a.backend)], None, false)
  }

  lemma JoinedStep(c: Codec, before: Result, a: Attempt, rest: Result)
    ensures Joined(before, AfterFallback(c, a, rest)) == Joined(Joined(before, Passed(c, a)), rest)
  {
    Assoc(before.rows, [Row(a.backend, false)], rest.rows);
    Assoc(before.breaker, BreakerNews(a.backend, FailureStatus(c, a.upstream)), rest.breaker);
    Assoc(before.flights, [Start(a.backend), End(a.backend)], rest.flights);
  }

  lemma ServedFirst(env: Env, attempts: seq<Attempt>)
    requires attempts != []
    ensures FallsBack(env.codec, attempts[0].upstream) ==>
              Served(env, attempts) == AfterFallback(env.codec, attempts[0], Served(env, attempts[1..]))
    ensures !FallsBack(env.codec, attempts[0].upstream) ==> Served(env, attempts) == Alone(env, attempts[0])
  {
  }

  lemma {:induction false} AsBodiesAppend(a: seq<Bytes>, b: seq<Bytes>)
    ensures AsBodies(a + b) == AsBodies(a) + AsBodies(b)
  {
    if a == [] {
      Units(b);
      Units(AsBodies(b));
    } else {
      assert (a + b)[1..] == a[1..] + b;
      AsBodiesAppend(a[1..], b);
      Assoc([Body(a[0])], AsBodies(a[1..]), AsBodies(b));
    }
  }

  // ---------- the handler ----------

  /** Handles a streaming request. */
  method HandleRequestStream(env: Env, routing: Routing) returns (r: Result)
    ensures r == Handled(env, routing)
  {
    if routing.CacheHit? {
      return Result([CacheHeaders, Body(routing.body)], [CacheRow], [], [], None, false);
    }
    if routing.Unroutable? {
      return Result([ErrorMeta(routing.status)], [], [], [], None, false);
    }
    var attempts := routing.attempts;
    r := Result([], [], [], [], None, false);
    JoinedNothing(Served(env, attempts));
    var committed := false;
    var i := 0;
    while i < |attempts|
      invariant 0 <= i <= |attempts| && !committed
      invariant r.out == [] && r.stored.None? && !r.raised
      invariant Served(env, attempts) == Joined(r, Served(env, attempts[i..]))
    {
      var a := attempts[i];
      ServedFirst(env, attempts[i..]);
      assert attempts[i..][0] == a && attempts[i..][1..] == attempts[i + 1..];
      var turn, ended;
      turn, ended, committed := TryBackend(env, a);
      if ended {
        return Joined(r, turn);
      }
      JoinedStep(env.codec, r, a, Served(env, attempts[i + 1..]));
      r := Joined(r, turn);
      i := i + 1;
    }
    if committed {
      assert false;  // once headers are out the loop has returned: no error follows them here
    }
    Units(r.rows); Units(r.breaker); Units(r.flights);
    r := r.(out := [ErrorMeta(502)]);
  }

  lemma JoinedNothing(r: Result)
    ensures Joined(Result([], [], [], [], None, false), r) == r
  {
  }

  /** One turn of the loop over the backends, nothing having been sent yet. ended: the handler
      returns here; otherwise it goes on with the next backend. committed: the headers went out. */
  method TryBackend(env: Env, a: Attempt) returns (turn: Result, ended: bool, committed: bool)
    ensures committed ==> ended
    ensures !ended <==> FallsBack(env.codec, a.upstream)
    ensures !ended ==> turn == Passed(env.codec, a)
    ensures ended ==> turn == Alone(env, a)
  {
    var b := a.backend;
    var events := CallProviderStream(env.codec, a.upstream);
    var parser := new SseParser();
    ghost var datas := Datas(env.codec, a.upstream);
    EventGrammar(env.codec, a.upstream);
    PipedNothing(env, a.shifts);
    var out, collected, raised;
    out, collected, raised, committed := RelayChunks(env, a, events, parser, datas);
    var flights := [Start(b), End(b)];
    if raised {
      return Result(out, [], [], flights, None, true), true, true;
    }
    match events[|events| - 1] {
      case Done(sentDone) =>
        if !committed {
          committed := true;
          out := [Headers(b)];
        }
        turn := CloseStream(env, b, out, collected, parser, sentDone, Piped(env, a.shifts, datas));
        ended := true;

      case Failed(error, status, retryable, midStream) =>
        var rows, breaker := [Row(b, false)], BreakerNews(b, status);
        if !midStream {
          if !retryable {
            if !committed {
              return Result([ErrorMeta(ErrorStatus(status))], rows, breaker, flights, None, false), true, false;
            }
            assert false;  // a failure after the headers went out is a mid-stream one
          }
          return Result([], rows, breaker, flights, None, false), false, committed;
        }
        out := out + AsBodies([env.errorEvent(error), DONE_EVENT]);
        return Result(out, rows, breaker, flights, None, false), true, committed;
    }
  }

  lemma PipedNothing(env: Env, shifts: bool)
    ensures Piped(env, shifts, []) == NEW_PIPE
  {
  }

  lemma ServedAlone(env: Env, a: Attempt)
    requires !FallsBack(env.codec, a.upstream)
    ensures Served(env, [a]) == Alone(env, a)
  {
  }

  /** The chunks of one backend: the headers go out with the first of them. */
  method RelayChunks(env: Env, a: Attempt, events: seq<StreamEvent>, parser: SseParser, ghost datas: seq<Bytes>)
    returns (out: seq<Item>, collected: seq<Bytes>, raised: bool, committed: bool)
    requires parser.buf == [] && |events| == |datas| + 1 && !events[|datas|].Chunk?
    requires forall i :: 0 <= i < |datas| ==> events[i] == Chunk(datas[i])
    modifies parser
    ensures committed <==> datas != []
    ensures var p := Piped(env, a.shifts, datas);
            && raised == p.raised && (!raised ==> parser.buf == p.buf)
            && collected == KeptPieces(env, p.sent)
            && out == SentItems(a.backend, committed, p.sent)
  {
    committed := false;
    out, collected, raised := [], [], false;
    ghost var p, goal := NEW_PIPE, Piped(env, a.shifts, datas);
    var i := 0;
    UpToStart(env, a.shifts, datas);
    while events[i].Chunk? && !raised
      invariant 0 <= i <= |datas| && (committed <==> i > 0)
      invariant UpTo(env, a.shifts, p, datas, i, goal)
      invariant raised == p.raised && (!raised ==> parser.buf == p.buf)
      invariant Sent(env, a.backend, p, committed, out, collected)
      decreases |datas| - i
    {
      PipedStep(env, a.shifts, p, datas, i, goal);
      out, collected, raised, p := RelayAndKeep(env, a, events[i].data, parser, p, committed, out, collected);
      committed := true;
      i := i + 1;
    }
    UpToEnd(env, a.shifts, p, datas, i, goal);
  }

  /** What has gone to the client and to the store after p. */
  predicate Sent(env: Env, b: Backend, p: Pipe, committed: bool, out: seq<Item>, collected: seq<Bytes>) {
    out == SentItems(b, committed, p.sent) && collected == KeptPieces(env, p.sent) && (!committed ==> p == NEW_PIPE)
  }

  /** One chunk on its way to the client, after the headers if it is the first, and to the store if the
      request may be cached. */
  method RelayAndKeep(env: Env, a: Attempt, data: Bytes, parser: SseParser, ghost p: Pipe, committed: bool,
                      before: seq<Item>, kept: seq<Bytes>)
    returns (out: seq<Item>, collected: seq<Bytes>, raised: bool, ghost q: Pipe)
    requires parser.buf == p.buf && Sent(env, a.backend, p, committed, before, kept)
    modifies parser
    ensures q == PipeStep(env, a.shifts, p, data)
    ensures raised == q.raised && (!raised ==> parser.buf == q.buf)
    ensures Sent(env, a.backend, q, true, out, collected)
  {
    out := if committed then before else [Headers(a.backend)];
    SentNothing(a.backend);
    var piece: seq<Bytes>;
    piece, raised, q := RelayChunk(env, a.shifts, data, parser, p);
    SendMore(env, a.backend, p.sent, piece);
    out := out + AsBodies(piece);
    collected := kept + if env.caching then piece else [];
  }

  lemma SentNothing(b: Backend)
    ensures SentItems(b, true, NEW_PIPE.sent) == [Headers(b)]
  {
  }

  lemma UpToStart(env: Env, shifts: bool, datas: seq<Bytes>)
    ensures UpTo(env, shifts, NEW_PIPE, datas, 0, Piped(env, shifts, datas))
  {
  }

  /** Relaying all but the first i chunks from p on ends at goal. */
  predicate UpTo(env: Env, shifts: bool, p: Pipe, datas: seq<Bytes>, i: nat, goal: Pipe) {
    i <= |datas| && PipedFrom(env, shifts, p, datas[i..]) == goal
  }

  lemma UpToEnd(env: Env, shifts: bool, p: Pipe, datas: seq<Bytes>, i: nat, goal: Pipe)
    requires UpTo(env, shifts, p, datas, i, goal) && (i == |datas| || p.raised)
    ensures p == goal
  {
  }

  function KeptPieces(env: Env, sent: seq<Bytes>): seq<Bytes> {
    if env.caching then sent else []
  }

  lemma PipedStep(env: Env, shifts: bool, p: Pipe, datas: seq<Bytes>, i: nat, goal: Pipe)
    requires i < |datas| && !p.raised && UpTo(env, shifts, p, datas, i, goal)
    ensures UpTo(env, shifts, PipeStep(env, shifts, p, datas[i]), datas, i + 1, goal)
  {
  }

  lemma SendMore(env: Env, b: Backend, sent: seq<Bytes>, piece: seq<Bytes>)
    ensures SentItems(b, true, sent) + AsBodies(piece) == SentItems(b, true, sent + piece)
    ensures KeptPieces(env, sent) + (if env.caching then piece else []) == KeptPieces(env, sent + piece)
    ensures SentItems(b, true, []) == [Headers(b)]
  {
    AsBodiesAppend(sent, piece);
    Assoc([Headers(b)], AsBodies(sent), AsBodies(piece));
  }

  /** Transforms and sends one chunk. */
  method RelayChunk(env: Env, shifts: bool, data: Bytes, parser: SseParser, ghost p: Pipe)
    returns (piece: seq<Bytes>, raised: bool, ghost q: Pipe)
    requires parser.buf == p.buf
    modifies parser
    ensures q == PipeStep(env, shifts, p, data)
    ensures raised == q.raised && q.sent == p.sent + piece && (!raised ==> parser.buf == q.buf)
  {
    q := PipeStep(env, shifts, p, data);
    var out := TransformStreamChunk(env.codec, data, parser);
    piece, raised := [], out.None?;
    if out.Some? && out.value != [] {
      if shifts {
        out := ShiftStreamUsage(env.codec, out.value);
        raised := out.None?;
      }
      if out.Some? {
        piece := [out.value];
      }
    }
    Units(p.sent);
  }

  /** The end of a complete stream: flush the transform, send the end mark, store for replay. */
  method CloseStream(env: Env, b: Backend, out: seq<Item>, collected: seq<Bytes>, parser: SseParser, sentDone: bool,
                     ghost p: Pipe)
    returns (turn: Result)
    requires parser.buf == p.buf && out == [Headers(b)] + AsBodies(p.sent)
    requires collected == if env.caching then p.sent else []
    modifies parser
    ensures turn == Completed(env, b, p, sentDone)
  {
    var rows, breaker, flights := [Row(b, true)], [Outcome(b, true)], [Start(b), End(b)];
    var tail := FlushStreamChunk(env.codec, parser);
    if tail.None? {
      return Result(out, rows, breaker, flights, None, true);
    }
    var closing: seq<Bytes> := [];
    if tail.value != [] {
      closing := closing + [tail.value];
    }
    if !sentDone {
      closing := closing + [DONE_EVENT];
    }
    assert closing == Closing(env, p.buf, sentDone).value;
    AsBodiesAppend(p.sent, closing);
    Assoc([Headers(b)], AsBodies(p.sent), AsBodies(closing));
    var kept := collected + if env.caching then closing else [];
    turn := Result(out + AsBodies(closing), rows, breaker, flights,
                   if env.caching && kept != [] then Some(Flatten(kept)) else None, false);
  }
}
