/** What every streaming request promises, whatever its upstreams do. */
module StreamingLaws {
  import opened Wrappers
  import opened Sequences
  import opened Sse
  import opened SseLaws
  import opened SseRoundTrip
  import opened JsonValues
  import opened Reasoning
  import opened ReasoningStream
  import opened UsageShift
  import opened Provider
  import opened Streaming

  predicate AllBodies(items: seq<Item>) {
    forall i :: 0 <= i < |items| ==> items[i].Body?
  }

  lemma {:induction false} AsBodiesAreBodies(pieces: seq<Bytes>)
    ensures AllBodies(AsBodies(pieces))
  {
    if pieces == [] {
    } else {
      AsBodiesAreBodies(pieces[1..]);
    }
  }

  function DataOf(items: seq<Item>): Bytes
    requires AllBodies(items)
  {
    if items == [] then [] else items[0].data + DataOf(items[1..])
  }

  lemma {:induction false} DataOfBodies(pieces: seq<Bytes>)
    ensures AllBodies(AsBodies(pieces)) && DataOf(AsBodies(pieces)) == Flatten(pieces)
  {
    AsBodiesAreBodies(pieces);
    if pieces == [] {
    } else {
      DataOfBodies(pieces[1..]);
    }
  }

  /** The attempt that decides: the first that does not fail retryably before its first chunk. */
  function Decider(c: Codec, attempts: seq<Attempt>): (i: Option<nat>)
    ensures i.Some? ==> i.value < |attempts|
  {
    if attempts == [] then None
    else if !FallsBack(c, attempts[0].upstream) then Some(0)
    else
      var i := Decider(c, attempts[1..]);
      if i.None? then None else Some(i.value + 1)
  }

  function FlightsOf(attempts: seq<Attempt>): seq<Flight> {
    if attempts == [] then [] else [Start(attempts[0].backend), End(attempts[0].backend)] + FlightsOf(attempts[1..])
  }

  function FailedRows(attempts: seq<Attempt>): seq<Row> {
    if attempts == [] then [] else [Row(attempts[0].backend, false)] + FailedRows(attempts[1..])
  }

  lemma {:induction false} DeciderIsFirst(c: Codec, attempts: seq<Attempt>)
    ensures var d := Decider(c, attempts);
            var n := if d.None? then |attempts| else d.value;
            && (forall k :: 0 <= k < n ==> FallsBack(c, attempts[k].upstream))
            && (d.Some? ==> !FallsBack(c, attempts[d.value].upstream))
  {
    if attempts == [] {
    } else if FallsBack(c, attempts[0].upstream) {
      DeciderIsFirst(c, attempts[1..]);
    }
  }

  /** Everything a request leaves behind, in terms of the attempt that decides: those before it
      leave one failed row and one start and end each, those after it nothing. */
  lemma {:induction false} ServedByDecider(env: Env, attempts: seq<Attempt>, i: nat)
    requires Decider(env.codec, attempts) == Some(i)
    ensures var r, d := Served(env, attempts), Alone(env, attempts[i]);
            && r.out == d.out && r.stored == d.stored && r.raised == d.raised
            && r.rows == FailedRows(attempts[..i]) + d.rows
            && r.flights == FlightsOf(attempts[..i + 1])
  {
    var a := attempts[0];
    ServedFirst(env, attempts);
    TailOfPrefix(attempts, i + 1);
    if i == 0 {
      FlightsOfOne(env, a);
      Units(Alone(env, a).rows);
    } else {
      TailOfPrefix(attempts, i);
      ServedByDecider(env, attempts[1..], i - 1);
      Assoc([Row(a.backend, false)], FailedRows(attempts[1..][..i - 1]), Alone(env, attempts[i]).rows);
    }
  }

  lemma FlightsOfOne(env: Env, a: Attempt)
    requires !FallsBack(env.codec, a.upstream)
    ensures Alone(env, a).flights == FlightsOf([a]) == [Start(a.backend), End(a.backend)]
  {
    assert [a][1..] == [];
    Units([Start(a.backend), End(a.backend)]);
  }

  /** At most one row, of this backend, and one if nothing raised. */
  predicate OneRow(b: Backend, r: Result) {
    && |r.rows| <= 1 && (!r.raised ==> |r.rows| == 1)
    && (|r.rows| == 1 ==> r.rows[0].Row? && r.rows[0].backend == b)
  }

  lemma RowsOfOne(env: Env, a: Attempt)
    requires !FallsBack(env.codec, a.upstream)
    ensures OneRow(a.backend, Alone(env, a))
  {
  }

  /** When every backend fails retryably before its first chunk, the answer is a 502. */
  lemma {:induction false} NobodyServes(env: Env, attempts: seq<Attempt>)
    requires Decider(env.codec, attempts).None?
    ensures var r := Served(env, attempts);
            && r.out == [ErrorMeta(502)] && r.stored.None? && !r.raised
            && r.rows == FailedRows(attempts) && r.flights == FlightsOf(attempts)
  {
    if attempts == [] {
    } else {
      ServedFirst(env, attempts);
      NobodyServes(env, attempts[1..]);
    }
  }

  /** One dict, first, and then only bytes. */
  predicate MetaFirst(out: seq<Item>) {
    out != [] && !out[0].Body? && AllBodies(out[1..])
  }

  function FailureText(c: Codec, up: Upstream): string {
    if Terminal(c, up).Failed? then Terminal(c, up).error else ""
  }

  /** Headers of this backend and then only bytes. */
  predicate HeadersFirst(b: Backend, out: seq<Item>) {
    out != [] && out[0] == Headers(b) && AllBodies(out[1..])
  }

  /** What goes out when the deciding attempt alone serves the request. */
  predicate SingleOutput(env: Env, a: Attempt, out: seq<Item>) {
    if FailsForGood(env.codec, a.upstream) then
      out == [ErrorMeta(ErrorStatus(FailureStatus(env.codec, a.upstream)))]
    else if ObjectsAtOnce(env.codec, a.upstream) then
      out == [Body(env.errorEvent(FailureText(env.codec, a.upstream))), Body(DONE_EVENT)]
    else HeadersFirst(a.backend, out)
  }

  lemma HeadersThenBodies(b: Backend, pieces: seq<Bytes>, more: seq<Bytes>)
    ensures var out := ([Headers(b)] + AsBodies(pieces)) + AsBodies(more);
            out != [] && out[0] == Headers(b) && AllBodies(out[1..])
    ensures AllBodies(([Headers(b)] + AsBodies(pieces))[1..])
  {
    AsBodiesAreBodies(pieces);
    AsBodiesAreBodies(more);
    Assoc([Headers(b)], AsBodies(pieces), AsBodies(more));
  }

  lemma AtOnceIsEmpty(env: Env, a: Attempt)
    ensures var datas, end := Datas(env.codec, a.upstream), Terminal(env.codec, a.upstream);
            && (ObjectsAtOnce(env.codec, a.upstream) ==> datas == [] && end.Failed? && end.midStream)
            && (end.Failed? && end.midStream && !ObjectsAtOnce(env.codec, a.upstream) ==> datas != [])
            && (end.Failed? && !end.midStream ==> datas == [])
  {
    EventGrammar(env.codec, a.upstream);
    MidStreamExactly(env.codec, a.upstream);
  }

  lemma CompletedShape(env: Env, b: Backend, p: Pipe, sentDone: bool)
    ensures HeadersFirst(b, Completed(env, b, p, sentDone).out)
  {
    HeadersThenBodies(b, p.sent, []);
    var closing := Closing(env, p.buf, sentDone);
    if closing.Some? {
      HeadersThenBodies(b, p.sent + closing.value, []);
    }
  }

  lemma FailedShape(b: Backend, committed: bool, sent: seq<Bytes>, error: Bytes)
    ensures var out := SentItems(b, committed, sent) + AsBodies([error, DONE_EVENT]);
            if committed then HeadersFirst(b, out) else out == [Body(error), Body(DONE_EVENT)]
  {
    var tail, last: seq<Bytes> := [error, DONE_EVENT], [DONE_EVENT];
    HeadersThenBodies(b, sent, tail);
    assert tail[1..] == last && last[1..] == [];
    assert AsBodies(last) == [Body(DONE_EVENT)] + [];
  }

  /** The deciding attempt alone: an error for a final failure; two bodies and no headers when the first
      chunk cannot be observed; else headers and then bytes. */
  lemma DeciderShape(env: Env, a: Attempt)
    requires !FallsBack(env.codec, a.upstream)
    ensures SingleOutput(env, a, Alone(env, a).out)
  {
    AtOnceIsEmpty(env, a);
    var datas, end := Datas(env.codec, a.upstream), Terminal(env.codec, a.upstream);
    var p := Piped(env, a.shifts, datas);
    PipedNothing(env, a.shifts);
    HeadersThenBodies(a.backend, p.sent, []);
    if end.Failed? {
      FailedShape(a.backend, datas != [], p.sent, env.errorEvent(end.error));
    } else {
      CompletedShape(env, a.backend, p, end.sentDone);
    }
  }

  /** The request is decided by attempt i: it yields what that one alone yields, and nobody after it is
      attempted. */
  predicate DecidedBy(env: Env, attempts: seq<Attempt>, i: nat, r: Result)
    requires i < |attempts|
  {
    && r.out == Alone(env, attempts[i]).out && SingleOutput(env, attempts[i], r.out)
    && r.flights == FlightsOf(attempts[..i + 1])
  }

  lemma DeciderDecides(env: Env, attempts: seq<Attempt>, i: nat)
    requires Decider(env.codec, attempts) == Some(i)
    ensures DecidedBy(env, attempts, i, Served(env, attempts))
  {
    DeciderIsFirst(env.codec, attempts);
    ServedByDecider(env, attempts, i);
    DeciderShape(env, attempts[i]);
  }

  /** What a streaming request yields is what the deciding attempt alone yields, and nobody after it is
      attempted: one dict, naming the one backend whose bytes follow or an error. */
  lemma OneMetaThenOneBackend(env: Env, attempts: seq<Attempt>)
    ensures var r, d := Served(env, attempts), Decider(env.codec, attempts);
            if d.None? then r.out == [ErrorMeta(502)] && r.flights == FlightsOf(attempts)
            else DecidedBy(env, attempts, d.value, r)
  {
    match Decider(env.codec, attempts) {
      case None =>
        NobodyServes(env, attempts);
      case Some(i) =>
        DeciderDecides(env, attempts, i);
    }
  }

  /** The deciding attempt's first chunk completes an event that cannot be observed. */
  predicate ObjectsFirst(c: Codec, attempts: seq<Attempt>) {
    Decider(c, attempts).Some? && ObjectsAtOnce(c, attempts[Decider(c, attempts).value].upstream)
  }

  /** Exactly one dict is yielded, and it comes first, exactly when the deciding attempt does not object
      to its first chunk. */
  lemma MetaFirstExactly(env: Env, attempts: seq<Attempt>)
    ensures MetaFirst(Served(env, attempts).out) <==> !ObjectsFirst(env.codec, attempts)
    ensures Served(env, attempts).out != [] && AllBodies(Served(env, attempts).out[1..])
  {
    OneMetaThenOneBackend(env, attempts);
    if ObjectsFirst(env.codec, attempts) {
      AtOnceIsEmpty(env, attempts[Decider(env.codec, attempts).value]);
    }
  }

  /** The same whatever the routing: cache hits and requests without a backend are never affected. */
  lemma MetaComesFirst(env: Env, routing: Routing)
    ensures MetaFirst(Handled(env, routing).out)
      <==> !(routing.Backends? && ObjectsFirst(env.codec, routing.attempts))
  {
    if routing.Backends? {
      MetaFirstExactly(env, routing.attempts);
    }
  }

  /** A chat object whose first delta has the number 1 for its content. */
  const NUMERIC_CONTENT: Object :=
    map[Str("choices") := JList([JObj(map[Str("delta") := JObj(map[Str("content") := JInt(1)])])])]

  /** An upstream whose first event has a number for content fails in mid-stream before any chunk: the
      client gets bytes without headers, and no other backend is tried. */
  lemma NumericContentComesFirst(env: Env, b: Backend, shifts: bool, text: Bytes, more: seq<Bytes>, ending: Ending,
                                 later: seq<Attempt>)
    requires PlainLine(text) && !IsDone(text) && env.codec.loads(text) == Some(JObj(NUMERIC_CONTENT))
    ensures var up := Reads([DATA_PREFIX + text + BLANK] + more, ending);
            && Events(env.codec, up) == [Failed("object of type 'int' has no len()", 0, true, true)]
            && Served(env, [Attempt(b, shifts, up)] + later).out
               == [Body(env.errorEvent("object of type 'int' has no len()")), Body(DONE_EVENT)]
  {
    var c, up := env.codec, Reads([DATA_PREFIX + text + BLANK] + more, ending);
    NumericContentObjects(c, text);
    var datas := NonEmpty(up.chunks);
    assert datas == [DATA_PREFIX + text + BLANK] + NonEmpty(more);
    FirstObjectionAppend(c, FedEvents([], datas[0]), FedAllEvents(FedBuffer([], datas[0]), datas[1..]));
    MidStreamExactly(c, up);
    var attempts := [Attempt(b, shifts, up)] + later;
    AtOnceIsEmpty(env, attempts[0]);
    assert Decider(c, attempts) == Some(0);
    OneMetaThenOneBackend(env, attempts);
  }

  lemma AcceptedAsIs(chunk: Bytes)
    requires CR !in chunk
    ensures Accept([], chunk) == chunk + []
  {
    NormaliseIdentity(chunk);
    AcceptSettled([], chunk);
    Units(chunk);
  }

  lemma PrefixedHasNoCr(text: Bytes)
    requires PlainLine(text)
    ensures CR !in DATA_PREFIX + text + BLANK
  {
    assert CR !in DATA_PREFIX && CR !in BLANK;
  }

  /** One data line and a blank line are one event with the line as its payload. */
  lemma OneLineIsOneEvent(text: Bytes)
    requires PlainLine(text)
    ensures var es := FedEvents([], DATA_PREFIX + text + BLANK);
            |es| == 1 && es[0].data == text && es[0].done == IsDone(text)
  {
    PrintedLine(text);
    PrintedBlockParses(text);
    PrintedBlockIsWhole(text);
    PrefixedHasNoCr(text);
    AcceptedAsIs(DATA_PREFIX + text + BLANK);
    OneBlock(DATA_PREFIX + text);
  }

  lemma NumericDelta()
    ensures FirstDelta(NUMERIC_CONTENT) == Some(map[Str("content") := JInt(1)])
    ensures FirstTruthy(map[Str("content") := JInt(1)], CONTENT_KEYS) == JInt(1)
  {
  }

  lemma NumericContentObjects(c: Codec, text: Bytes)
    requires PlainLine(text) && !IsDone(text) && c.loads(text) == Some(JObj(NUMERIC_CONTENT))
    ensures FirstObjection(c, FedEvents([], DATA_PREFIX + text + BLANK)) == Some("object of type 'int' has no len()")
  {
    OneLineIsOneEvent(text);
    NumericDelta();
  }

  /** The marks are those of the first n attempts. So are the rows, one each and in order, and only the
      last of n can be a success; a request that raised can lack the last. */
  predicate Accounted(attempts: seq<Attempt>, r: Result, n: nat)
    requires n <= |attempts|
  {
    && r.flights == FlightsOf(attempts[..n])
    && |r.rows| <= n && (!r.raised ==> |r.rows| == n)
    && forall k :: 0 <= k < |r.rows| ==>
         r.rows[k].Row? && r.rows[k].backend == attempts[k].backend && (r.rows[k].success ==> k == n - 1)
  }

  /** How many backends are attempted. */
  function Attempted(c: Codec, attempts: seq<Attempt>): (n: nat)
    ensures n <= |attempts|
  {
    var d := Decider(c, attempts);
    if d.None? then |attempts| else d.value + 1
  }

  lemma DeciderIsAccounted(env: Env, attempts: seq<Attempt>)
    requires Decider(env.codec, attempts).Some?
    ensures Accounted(attempts, Served(env, attempts), Attempted(env.codec, attempts))
  {
    var i := Decider(env.codec, attempts).value;
    DeciderIsFirst(env.codec, attempts);
    ServedByDecider(env, attempts, i);
    RowsOfOne(env, attempts[i]);
    RowsThenLast(attempts, i, Served(env, attempts), Alone(env, attempts[i]));
  }

  lemma NobodyIsAccounted(env: Env, attempts: seq<Attempt>)
    requires Decider(env.codec, attempts).None?
    ensures Accounted(attempts, Served(env, attempts), Attempted(env.codec, attempts))
  {
    NobodyServes(env, attempts);
    FailedAreAccounted(attempts, Served(env, attempts));
  }

  /** Attempt accounting: the usage rows are those of the attempted backends, one each and in order; at
      most the last is a success; each attempt started is ended before the next starts. Only a request
      that raised has a row less. */
  lemma AttemptsAccounted(env: Env, attempts: seq<Attempt>)
    ensures Accounted(attempts, Served(env, attempts), Attempted(env.codec, attempts))
  {
    if Decider(env.codec, attempts).None? {
      NobodyIsAccounted(env, attempts);
    } else {
      DeciderIsAccounted(env, attempts);
    }
  }

  lemma FailedAreAccounted(attempts: seq<Attempt>, r: Result)
    requires r.rows == FailedRows(attempts) && r.flights == FlightsOf(attempts)
    ensures Accounted(attempts, r, |attempts|)
  {
    FailedRowsAre(attempts);
    assert attempts[..|attempts|] == attempts;
  }

  lemma RowsThenLast(attempts: seq<Attempt>, i: nat, r: Result, last: Result)
    requires i < |attempts| && OneRow(attempts[i].backend, last)
    requires r.rows == FailedRows(attempts[..i]) + last.rows && r.raised == last.raised
    requires r.flights == FlightsOf(attempts[..i + 1])
    ensures Accounted(attempts, r, i + 1)
  {
    FailedRowsAre(attempts[..i]);
  }

  lemma {:induction false} FailedRowsAre(attempts: seq<Attempt>)
    ensures |FailedRows(attempts)| == |attempts|
    ensures forall k :: 0 <= k < |attempts| ==> FailedRows(attempts)[k] == Row(attempts[k].backend, false)
  {
    if attempts == [] {
    } else {
      FailedRowsAre(attempts[1..]);
    }
  }

  /** Replay fidelity: a stored body is byte for byte what was yielded after the headers, and only a
      stream that came to its end without raising is stored, whatever failed before it. */
  lemma StoredIsWhatWasSent(env: Env, attempts: seq<Attempt>)
    ensures var r, d := Served(env, attempts), Decider(env.codec, attempts);
            && r.out != [] && AllBodies(r.out[1..])
            && (r.stored.Some? <==>
                  env.caching && !r.raised && d.Some? && Terminal(env.codec, attempts[d.value].upstream).Done?
                  && |r.out| > 1)
            && (r.stored.Some? ==> r.stored.value == DataOf(r.out[1..]) && r.rows != []
                                   && r.rows[|r.rows| - 1] == Row(attempts[d.value].backend, true))
  {
    MetaFirstExactly(env, attempts);
    match Decider(env.codec, attempts) {
      case None =>
        NobodyServes(env, attempts);
      case Some(i) =>
        DeciderIsFirst(env.codec, attempts);
        ServedByDecider(env, attempts, i);
        StoredAlone(env, attempts[i]);
    }
  }

  /** What is stored of a request that one backend served. */
  predicate StoredAsSent(env: Env, r: Result, done: bool, last: Row) {
    && r.out != [] && AllBodies(r.out[1..])
    && (r.stored.Some? <==> env.caching && !r.raised && done && |r.out| > 1)
    && (r.stored.Some? ==> r.stored.value == DataOf(r.out[1..]) && r.rows == [last])
  }

  lemma StoredCompleted(env: Env, b: Backend, p: Pipe, sentDone: bool)
    ensures StoredAsSent(env, Completed(env, b, p, sentDone), true, Row(b, true))
  {
    var closing := Closing(env, p.buf, sentDone);
    var all := p.sent + closing.GetOr([]);
    assert ([Headers(b)] + AsBodies(all))[1..] == AsBodies(all);
    assert ([Headers(b)] + AsBodies(p.sent))[1..] == AsBodies(p.sent);
    DataOfBodies(all);
    AsBodiesAreBodies(p.sent);
    assert all == [] <==> AsBodies(all) == [];
  }

  lemma StoredAlone(env: Env, a: Attempt)
    requires !FallsBack(env.codec, a.upstream)
    ensures StoredAsSent(env, Alone(env, a), Terminal(env.codec, a.upstream).Done?, Row(a.backend, true))
  {
    var end, p := Terminal(env.codec, a.upstream), Piped(env, a.shifts, Datas(env.codec, a.upstream));
    if end.Done? && !p.raised {
      StoredCompleted(env, a.backend, p, end.sentDone);
    } else {
      DeciderShape(env, a);
      NothingStored(env, a);
    }
  }

  lemma NothingStored(env: Env, a: Attempt)
    requires !FallsBack(env.codec, a.upstream)
    requires Terminal(env.codec, a.upstream).Failed?
             || Piped(env, a.shifts, Datas(env.codec, a.upstream)).raised
    ensures Alone(env, a).stored.None?
    ensures Terminal(env.codec, a.upstream).Done? ==> Alone(env, a).raised
  {
  }

  // ---------- the whole stream ----------

  lemma {:induction false} FlattenNonEmpty(chunks: seq<Bytes>)
    ensures Flatten(NonEmpty(chunks)) == Flatten(chunks)
  {
    if chunks == [] {
    } else {
      FlattenNonEmpty(chunks[1..]);
      if chunks[0] == [] {
        Units(NonEmpty(chunks[1..]));
        Units(Flatten(chunks[1..]));
      }
    }
  }

  /** What the relay sends for successive chunks, without piece boundaries; None if it raises. */
  function RelayedChunks(c: Codec, shifts: bool, buf: Bytes, datas: seq<Bytes>): Option<Bytes>
    decreases |datas|
  {
    if datas == [] then Some([])
    else
      var out := RewrittenAll(c, FedEvents(buf, datas[0]));
      var piece := if out.None? then None else Piece(c, shifts, out.value);
      var rest := RelayedChunks(c, shifts, FedBuffer(buf, datas[0]), datas[1..]);
      if piece.None? || rest.None? then None else Some(Flatten(piece.value) + rest.value)
  }

  lemma {:induction false} PipeSendsRelayed(env: Env, shifts: bool, p: Pipe, datas: seq<Bytes>)
    requires !p.raised
    ensures var q, whole := PipedFrom(env, shifts, p, datas), RelayedChunks(env.codec, shifts, p.buf, datas);
            && (whole.Some? <==> !q.raised)
            && (whole.Some? ==> Flatten(q.sent) == Flatten(p.sent) + whole.value && q.buf == FedAllBuffer(p.buf, datas))
    decreases |datas|
  {
    if datas == [] {
      Units(Flatten(p.sent));
    } else {
      var out := RewrittenAll(env.codec, FedEvents(p.buf, datas[0]));
      var next := PipeStep(env, shifts, p, datas[0]);
      if !next.raised {
        PipeSendsRelayed(env, shifts, next, datas[1..]);
        var piece := Piece(env.codec, shifts, out.value).value;
        var rest := RelayedChunks(env.codec, shifts, next.buf, datas[1..]);
        if rest.Some? {
          FlattenAppend(p.sent, piece);
          Assoc(Flatten(p.sent), Flatten(piece), rest.value);
        }
      }
    }
  }

  lemma FlattenOne(b: Bytes)
    ensures Flatten([b]) == b
  {
    assert [b][1..] == [];
    Units(b);
  }

  lemma {:induction false} UnshiftedIsTransform(c: Codec, buf: Bytes, datas: seq<Bytes>)
    ensures RelayedChunks(c, false, buf, datas) == TransformedChunks(c, buf, datas)
    decreases |datas|
  {
    if datas == [] {
    } else {
      UnshiftedIsTransform(c, FedBuffer(buf, datas[0]), datas[1..]);
      var out := RewrittenAll(c, FedEvents(buf, datas[0]));
      if out.Some? {
        FlattenOne(out.value);
      }
    }
  }

  // ---------- when a request breaks off ----------

  lemma {:induction false} SomeRewriteRaises(c: Codec, events: seq<Event>)
    ensures RewrittenAll(c, events).None? <==> exists i :: 0 <= i < |events| && Rewritten(c, events[i]).None?
  {
    if events == [] {
    } else {
      var rest := events[1..];
      SomeRewriteRaises(c, rest);
      assert forall i :: 0 <= i < |rest| ==> rest[i] == events[i + 1];
    }
  }

  /** A chat object with half an emoji for its reasoning, as a provider sends it that splits its text
      between the two halves. */
  const HALF_EMOJI: Object := map[Str("choices") := JList([JObj(HALF_CHOICE)])]
  const HALF_CHOICE: Object := map[Str("delta") := JObj(HALF_DELTA)]
  const HALF_DELTA: Object := map[Str("reasoning") := JStr([High(61)])]

  lemma HalfEmojiRaises(c: Codec, ev: Event)
    requires ValidCodec(c) && c.loads(ev.data) == Some(JObj(HALF_EMOJI))
    requires !ev.done && Contains(ev.data, REASONING)
    ensures Rewritten(c, ev).None? && Objection(c, ev).None?
  {
    HalfEmojiChanges();
    HalfEmojiCannotPrint();
    HalfEmojiHasLength();
    RewriteRaisesExactly(c, ev);
  }

  lemma HalfEmojiChanges()
    ensures NormalizedObject(HALF_EMOJI).Some? ==> NormalizedObject(HALF_EMOJI).value != HALF_EMOJI
  {
    FirstTextUnrolled(HALF_DELTA);
    ChangedDeltaShows(HALF_EMOJI, HALF_CHOICE, HALF_DELTA);
  }

  lemma HalfEmojiCannotPrint()
    ensures !Printable(JObj(HALF_EMOJI))
  {
    var half: Text := [High(61)];
    assert !half[0].Char? && !NoSurrogates(half);
    PrintableParts(HALF_DELTA, "reasoning", JNull);
    PrintableParts(HALF_CHOICE, "delta", JNull);
    ConsPrintable(JObj(HALF_CHOICE), []);
    Units([JObj(HALF_CHOICE)]);
    PrintableParts(HALF_EMOJI, "choices", JNull);
  }

  lemma HalfEmojiHasLength()
    ensures FirstDelta(HALF_EMOJI) == Some(HALF_DELTA) && NoLength(FirstTruthy(HALF_DELTA, CONTENT_KEYS)).None?
  {
  }

  lemma PipeRaises(env: Env, shifts: bool, datas: seq<Bytes>)
    requires datas != [] && PipeStep(env, shifts, NEW_PIPE, datas[0]).raised
    ensures Piped(env, shifts, datas) == NEW_PIPE.(raised := true)
  {
    var p := PipeStep(env, shifts, NEW_PIPE, datas[0]);
    assert PipedFrom(env, shifts, NEW_PIPE, datas) == PipedFrom(env, shifts, p, datas[1..]) == p;
  }

  lemma FirstIsHeard(c: Codec, up: Upstream, first: Bytes, more: seq<Bytes>)
    requires up.Reads? && NonEmpty(up.chunks) == [first] + more
    requires FirstObjection(c, FedEvents([], first)).None?
    ensures Datas(c, up) != [] && Datas(c, up)[0] == first && !FailsEarly(c, up)
  {
  }

  /** A first chunk that can be observed and not sent on breaks the request off. */
  lemma FirstChunkRaises(env: Env, a: Attempt, first: Bytes, more: seq<Bytes>)
    requires a.upstream.Reads? && NonEmpty(a.upstream.chunks) == [first] + more
    requires FirstObjection(env.codec, FedEvents([], first)).None?
    requires PipeStep(env, a.shifts, NEW_PIPE, first).raised
    ensures !FallsBack(env.codec, a.upstream)
    ensures Alone(env, a) == Result([Headers(a.backend)], [], [], [Start(a.backend), End(a.backend)], None, true)
  {
    FirstIsHeard(env.codec, a.upstream, first, more);
    PipeRaises(env, a.shifts, Datas(env.codec, a.upstream));
    Units([Headers(a.backend)]);
  }

  lemma HalfEmojiChunk(c: Codec, text: Bytes)
    requires ValidCodec(c) && PlainLine(text) && !IsDone(text) && Contains(text, REASONING)
    requires c.loads(text) == Some(JObj(HALF_EMOJI))
    ensures var events := FedEvents([], DATA_PREFIX + text + BLANK);
            FirstObjection(c, events).None? && RewrittenAll(c, events).None?
  {
    OneLineIsOneEvent(text);
    HalfEmojiRaises(c, FedEvents([], DATA_PREFIX + text + BLANK)[0]);
  }

  /** Half an emoji in a reasoning delta breaks the request off: headers, no bytes, and no usage row. */
  lemma HalfEmojiBreaksOff(env: Env, b: Backend, shifts: bool, text: Bytes, more: seq<Bytes>, ending: Ending,
                           later: seq<Attempt>)
    requires ValidCodec(env.codec) && PlainLine(text) && !IsDone(text) && Contains(text, REASONING)
    requires env.codec.loads(text) == Some(JObj(HALF_EMOJI))
    ensures var up := Reads([DATA_PREFIX + text + BLANK] + more, ending);
            Served(env, [Attempt(b, shifts, up)] + later)
            == Result([Headers(b)], [], [], [Start(b), End(b)], None, true)
  {
    var first := DATA_PREFIX + text + BLANK;
    var a := Attempt(b, shifts, Reads([first] + more, ending));
    HalfEmojiChunk(env.codec, text);
    assert NonEmpty(a.upstream.chunks) == [first] + NonEmpty(more);
    FirstChunkRaises(env, a, first, NonEmpty(more));
    ServedFirst(env, [a] + later);
  }

  // ---------- sound upstreams ----------

  /** The upstream sends whole events and ends, its network cuts no CRLF pair, and every event of it can
      be observed and rewritten. */
  predicate Sound(c: Codec, up: Upstream) {
    && up.Reads? && up.ending.Eof?
    && CleanCuts([], NonEmpty(up.chunks))
    && AllSpace(FedAllBuffer([], NonEmpty(up.chunks)))
    && FirstObjection(c, FedEvents([], Flatten(up.chunks))).None?
    && RewrittenAll(c, FedEvents([], Flatten(up.chunks))).Some?
  }

  lemma SoundIsHeard(c: Codec, up: Upstream)
    requires Sound(c, up)
    ensures var datas := NonEmpty(up.chunks);
            && Flatten(datas) == Flatten(up.chunks) && FedAllEvents([], datas) == FedEvents([], Flatten(up.chunks))
            && Datas(c, up) == datas && Terminal(c, up) == Done(SawDone(datas))
            && Flushed(FedAllBuffer([], datas)).None?
  {
    var datas := NonEmpty(up.chunks);
    FlattenNonEmpty(up.chunks);
    ChunkingIndependence([], datas);
    HeardAll(c, [], datas);
    Units(datas);
  }

  /** What the client receives of a sound upstream: what the relay sends, and an end mark if there was none. */
  lemma SoundIsRelayed(env: Env, a: Attempt)
    requires Sound(env.codec, a.upstream)
    requires RelayedChunks(env.codec, a.shifts, [], NonEmpty(a.upstream.chunks)).Some?
    ensures var r, datas := Served(env, [a]), NonEmpty(a.upstream.chunks);
            && !r.raised && MetaFirst(r.out)
            && DataOf(r.out[1..]) == RelayedChunks(env.codec, a.shifts, [], datas).value
                                     + if SawDone(datas) then [] else DONE_EVENT
  {
    var datas := NonEmpty(a.upstream.chunks);
    SoundIsHeard(env.codec, a.upstream);
    PipeSendsRelayed(env, a.shifts, NEW_PIPE, datas);
    var p, whole := Piped(env, a.shifts, datas), RelayedChunks(env.codec, a.shifts, [], datas).value;
    Units(whole);
    var closing: seq<Bytes> := if SawDone(datas) then [] else [DONE_EVENT];
    Units(closing);
    assert Closing(env, p.buf, SawDone(datas)) == Some(closing);
    ServedAlone(env, a);
    DataOfBodies(p.sent + closing);
    FlattenAppend(p.sent, closing);
    FlattenOne(DONE_EVENT);
    var out := [Headers(a.backend)] + AsBodies(p.sent + closing);
    assert out[1..] == AsBodies(p.sent + closing);
  }

  /** The client receives the whole stream: for a sound upstream whose usage numbers stay, and however
      the network cut it, the bytes after the headers are the rewrite of its events, followed by an end
      mark if the upstream sent none. */
  lemma PlainStreamRelayed(env: Env, a: Attempt)
    requires Sound(env.codec, a.upstream) && !a.shifts
    ensures var r, datas := Served(env, [a]), NonEmpty(a.upstream.chunks);
            && !r.raised && MetaFirst(r.out)
            && DataOf(r.out[1..]) == RewrittenAll(env.codec, FedEvents([], Flatten(a.upstream.chunks))).value
                                     + if SawDone(datas) then [] else DONE_EVENT
  {
    var datas := NonEmpty(a.upstream.chunks);
    SoundIsHeard(env.codec, a.upstream);
    UnshiftedIsTransform(env.codec, [], datas);
    TransformIgnoresChunking(env.codec, datas);
    SoundIsRelayed(env, a);
  }

  lemma NoBlankInLine(s: Bytes)
    requires LF !in s
    ensures FirstBlank(s).None?
  {
  }

  /** The buffer after a data line that was not ended. */
  lemma UnendedLineWaits(d: Bytes)
    requires PlainLine(d)
    ensures FedAllBuffer([], [DATA_PREFIX + d]) == DATA_PREFIX + d
  {
    var tail := DATA_PREFIX + d;
    var one: seq<Bytes> := [tail];
    NormaliseIdentity(tail);
    AcceptSettled([], tail);
    Units(tail);
    NoBlankInLine(tail);
    assert one[1..] == [];
  }

  lemma UnendedLineIsFlushed(d: Bytes)
    requires PlainLine(d)
    ensures TailChunk([DATA_PREFIX + d]) == [DATA_PREFIX + d + BLANK]
  {
    var tail := DATA_PREFIX + d;
    UnendedLineWaits(d);
    PrintedLine(d);
    PrintedBlockParses(d);
    assert tail[0] == 100 && tail[|tail| - 1] in tail;
    assert StripNewlines(tail) == tail;
  }

  lemma TwoPieces(l: Bytes, m: Bytes)
    requires CR !in l && CR !in m
    ensures NormaliseEach([l, m]) == l + m
  {
    NormaliseIdentity(l);
    NormaliseIdentity(m);
    var both: seq<Bytes> := [l, m];
    assert both[1..] == [m];
    assert NormaliseEach([m]) == m + [];
  }

  lemma OneLineParses(line: Bytes)
    requires PlainLine(line)
    ensures Payloads(EventsOf(Blocks(DATA_PREFIX + line + BLANK + []))) == [line]
  {
    PrintedLine(line);
    PrintedBlockParses(line);
    PrintedBlockIsWhole(line);
    OneBlock(DATA_PREFIX + line);
  }

  lemma Doubled(p: Bytes, d: Bytes, e: Bytes)
    ensures [] + ((p + d) + ((p + d) + e)) == p + (d + p + d) + e + []
  {
  }

  /** An upstream that ends inside an event is not relayed faithfully: the flushed event repeats bytes
      already handed on, and a reader of the two chunks gets a payload that holds the data twice. */
  lemma UnendedTailIsRepeated(d: Bytes)
    requires PlainLine(d)
    ensures TailChunk([DATA_PREFIX + d]) == [DATA_PREFIX + d + BLANK]
    ensures Payloads(FedAllEvents([], [DATA_PREFIX + d, DATA_PREFIX + d + BLANK])) == [d + DATA_PREFIX + d]
    ensures d + DATA_PREFIX + d != d
  {
    var tail := DATA_PREFIX + d;
    UnendedLineIsFlushed(d);
    OneLineParses(d + DATA_PREFIX + d);
    TwoPieces(tail, tail + BLANK);
    FedAllCutsTheWhole([], [tail, tail + BLANK]);
    Doubled(DATA_PREFIX, d, BLANK);
    assert |d + DATA_PREFIX + d| != |d|;
  }

  lemma FlushedIsPrinted(buf: Bytes)
    requires Flushed(buf).Some?
    ensures RenderEvent(Flushed(buf).value) != []
  {
  }

  /** The bytes handed on are the bytes received exactly when every event could be observed and nothing
      is left for the flush to deliver. */
  lemma TailRepeatedExactly(c: Codec, up: Upstream)
    requires up.Reads? && up.ending.Eof?
    ensures Flatten(Datas(c, up)) == Flatten(up.chunks)
      <==> && FirstObjection(c, FedAllEvents([], NonEmpty(up.chunks))).None?
           && (Flushed(FedAllBuffer([], NonEmpty(up.chunks))).None? || TailObjection(c, NonEmpty(up.chunks)).Some?)
  {
    var datas := NonEmpty(up.chunks);
    FlattenNonEmpty(up.chunks);
    HeardAll(c, [], datas);
    var n := Heard(c, [], datas);
    var ev := Flushed(FedAllBuffer([], datas));
    if n < |datas| {
      DroppedChunksShorten(up.chunks, n);
    } else if ev.Some? && TailObjection(c, datas).None? {
      FlattenAppend(datas, TailChunk(datas));
      FlushedIsPrinted(FedAllBuffer([], datas));
      FlattenOne(RenderEvent(ev.value));
      assert |Flatten(Datas(c, up))| > |Flatten(up.chunks)|;
    } else {
      Units(datas);
    }
  }

  lemma {:induction false} NonEmptyHasNone(chunks: seq<Bytes>)
    ensures forall d :: d in NonEmpty(chunks) ==> d != []
  {
    if chunks == [] {
    } else {
      NonEmptyHasNone(chunks[1..]);
    }
  }

  lemma DroppedChunksShorten(chunks: seq<Bytes>, n: nat)
    requires n < |NonEmpty(chunks)|
    ensures |Flatten(NonEmpty(chunks)[..n])| < |Flatten(NonEmpty(chunks))|
  {
    var datas := NonEmpty(chunks);
    NonEmptyHasNone(chunks);
    assert datas == datas[..n] + datas[n..];
    FlattenAppend(datas[..n], datas[n..]);
    assert datas[n] in datas;
  }
}
