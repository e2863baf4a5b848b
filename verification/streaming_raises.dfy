/** When a streaming request breaks off, and what it leaves then (src/localgateway/streaming.py:53-122
    and 884-902). */
module StreamingRaises {
  import opened Wrappers
  import opened Sequences
  import opened Sse
  import opened SseLaws
  import opened SseRoundTrip
  import opened JsonValues
  import opened Reasoning
  import opened ReasoningStream
  import opened UsageShift
  import opened Provider
  import opened Streaming
  import opened StreamingLaws
  import opened StreamingShift

  // ---------- one attempt ----------

  /** Rewriting one of the events handed on raises. */
  predicate EventRaises(c: Codec, up: Upstream) {
    var events := FedAllEvents([], Datas(c, up));
    exists i :: 0 <= i < |events| && Rewritten(c, events[i]).None?
  }

  predicate PieceRaises(c: Codec, o: Bytes) {
    Inspected(o) && AnyRaises(c, SplitLines(o))
  }

  predicate SomePieceRaises(c: Codec, outs: seq<Bytes>) {
    exists o :: o in outs && PieceRaises(c, o)
  }

  /** Relaying the chunks of an attempt raises: rewriting an event of them does, or, the usage numbers
      being shifted, a line of a piece that is looked at. */
  predicate RelayRaises(c: Codec, a: Attempt) {
    EventRaises(c, a.upstream) || (a.shifts && SomePieceRaises(c, Outputs(c, [], Datas(c, a.upstream))))
  }

  /** The end of a stream raises: rewriting what was held back does. */
  predicate EndRaises(c: Codec, up: Upstream) {
    Terminal(c, up).Done? && FlushedTransform(c, FedAllBuffer([], Datas(c, up))).None?
  }

  lemma PieceRaisesExactly(c: Codec, shifts: bool, out: Bytes)
    ensures Piece(c, shifts, out).None? <==> shifts && PieceRaises(c, out)
  {
    NothingInspected();
  }

  lemma {:induction false} RelayedExactly(c: Codec, shifts: bool, buf: Bytes, datas: seq<Bytes>)
    ensures RelayedChunks(c, shifts, buf, datas).None?
      <==> TransformedChunks(c, buf, datas).None? || (shifts && SomePieceRaises(c, Outputs(c, buf, datas)))
    decreases |datas|
  {
    if datas == [] {
    } else {
      var out, next := RewrittenAll(c, FedEvents(buf, datas[0])), FedBuffer(buf, datas[0]);
      RelayedExactly(c, shifts, next, datas[1..]);
      PieceRaisesExactly(c, shifts, out.GetOr([]));
      SomeOf(c, out.GetOr([]), Outputs(c, next, datas[1..]));
      NothingInspected();
    }
  }

  lemma SomeOf(c: Codec, o: Bytes, rest: seq<Bytes>)
    ensures SomePieceRaises(c, [o] + rest) <==> PieceRaises(c, o) || SomePieceRaises(c, rest)
  {
    assert o in [o] + rest;
  }

  lemma RelayRaisesExactly(env: Env, a: Attempt)
    ensures Piped(env, a.shifts, Datas(env.codec, a.upstream)).raised <==> RelayRaises(env.codec, a)
  {
    var c, datas := env.codec, Datas(env.codec, a.upstream);
    PipeSendsRelayed(env, a.shifts, NEW_PIPE, datas);
    RelayedExactly(c, a.shifts, [], datas);
    TransformIsMap(c, [], datas);
    SomeRewriteRaises(c, FedAllEvents([], datas));
  }

  lemma NothingRelayed(c: Codec, a: Attempt)
    requires FailsEarly(c, a.upstream)
    ensures Datas(c, a.upstream) == [] && !RelayRaises(c, a) && !EndRaises(c, a.upstream)
  {
    EventGrammar(c, a.upstream);
  }

  lemma PipeBuffer(env: Env, a: Attempt)
    requires !Piped(env, a.shifts, Datas(env.codec, a.upstream)).raised
    ensures Piped(env, a.shifts, Datas(env.codec, a.upstream)).buf == FedAllBuffer([], Datas(env.codec, a.upstream))
  {
    PipeSendsRelayed(env, a.shifts, NEW_PIPE, Datas(env.codec, a.upstream));
  }

  /** An attempt that decides breaks off exactly when relaying its chunks raises, or the end of its stream
      does. */
  lemma BreaksOffExactly(env: Env, a: Attempt)
    ensures Alone(env, a).raised <==> RelayRaises(env.codec, a) || EndRaises(env.codec, a.upstream)
  {
    RelayRaisesExactly(env, a);
    if FailsEarly(env.codec, a.upstream) {
      NothingRelayed(env.codec, a);
    }
    if !RelayRaises(env.codec, a) {
      PipeBuffer(env, a);
    }
  }

  /** And it lacks its usage row exactly when relaying raises. */
  lemma RowIsMissingExactly(env: Env, a: Attempt)
    ensures |Alone(env, a).rows| == if RelayRaises(env.codec, a) then 0 else 1
  {
    RelayRaisesExactly(env, a);
    if FailsEarly(env.codec, a.upstream) {
      NothingRelayed(env.codec, a);
    }
  }

  // ---------- a whole request ----------

  /** The deciding attempt, when there is one, has this. */
  predicate OfDecider(c: Codec, attempts: seq<Attempt>, p: Attempt -> bool) {
    Decider(c, attempts).Some? && p(attempts[Decider(c, attempts).value])
  }

  /** A request breaks off exactly when its deciding attempt does; it leaves a row for every attempt exactly
      when relaying the deciding one does not raise, and else a row for all before it. */
  lemma RequestBreaksOffExactly(env: Env, attempts: seq<Attempt>)
    ensures var c, r := env.codec, Served(env, attempts);
            && (r.raised <==> OfDecider(c, attempts, a => RelayRaises(c, a) || EndRaises(c, a.upstream)))
            && |r.rows| == Attempted(c, attempts) - if OfDecider(c, attempts, a => RelayRaises(c, a)) then 1 else 0
  {
    match Decider(env.codec, attempts) {
      case None =>
        NobodyServes(env, attempts);
        FailedRowsAre(attempts);
      case Some(i) =>
        ServedByDecider(env, attempts, i);
        BreaksOffExactly(env, attempts[i]);
        RowIsMissingExactly(env, attempts[i]);
        FailedRowsAre(attempts[..i]);
    }
  }

  // ---------- a count that is text ----------

  /** An object whose count of cached tokens is a text. */
  const TEXT_COUNT: Object := map[Str("usage") := JObj(TEXT_USAGE)]
  const TEXT_USAGE: Object :=
    map[Str("prompt_tokens") := JInt(1), Str("prompt_tokens_details") := JObj(TEXT_DETAILS)]
  const TEXT_DETAILS: Object := map[Str("cached_tokens") := JStr(Str("1"))]

  lemma TextCountRaises(c: Codec)
    ensures CountsRaise(c, TEXT_COUNT)
  {
    assert Get(TEXT_COUNT, "usage") == JObj(TEXT_USAGE);
    assert Details(TEXT_USAGE) == TEXT_DETAILS;
  }

  lemma TextCountStays()
    ensures NormalizedObject(TEXT_COUNT) == Some(TEXT_COUNT) && FirstDelta(TEXT_COUNT).None?
  {
    FirstTextUnrolled(TEXT_COUNT);
  }

  lemma {:induction false} Utf8Append(a: Bytes, b: Bytes)
    requires Utf8(a) && Utf8(b)
    ensures Utf8(a + b)
    decreases |a|
  {
    if a == [] {
      Units(b);
    } else {
      var n := CharLength(a);
      assert forall i :: 0 <= i < |a| ==> (a + b)[i] == a[i];
      assert CharLength(a + b) == n && (a + b)[n..] == a[n..] + b;
      Utf8Append(a[n..], b);
    }
  }

  lemma {:induction false} AsciiIsUtf8(s: Bytes)
    requires forall i :: 0 <= i < |s| ==> s[i] < 0x80
    ensures Utf8(s)
  {
    if s == [] {
    } else {
      AsciiIsUtf8(s[1..]);
    }
  }

  /** One plain event on the wire that names usage is looked at. */
  lemma EventIsInspected(text: Bytes)
    requires Utf8(text) && Contains(text, USAGE)
    ensures Inspected(DATA_PREFIX + text + BLANK)
  {
    AsciiIsUtf8(DATA_PREFIX);
    AsciiIsUtf8(BLANK);
    Utf8Append(DATA_PREFIX, text);
    Utf8Append(DATA_PREFIX + text, BLANK);
    ContainsBefore(DATA_PREFIX, text, USAGE);
    ContainsBefore(DATA_PREFIX + text, BLANK, USAGE);
  }

  lemma EventHasLine(line: Bytes)
    requires LF !in line
    ensures line in SplitLines(line + BLANK)
  {
    SplitOneLine(line);
    SplitLinesAppend(line, [LF]);
    assert line + BLANK == line + [LF] + [LF];
    assert ([line] + SplitLines([LF]))[0] == line;
  }

  lemma TextCountLineRaises(c: Codec, text: Bytes)
    requires !IsDone(text) && c.loads(text) == Some(JObj(TEXT_COUNT))
    ensures LineShift(c, DATA_PREFIX + text).Raises?
  {
    var line := DATA_PREFIX + text;
    assert line[..|DATA_PREFIX|] == DATA_PREFIX && line[|DATA_PREFIX|..] == text;
    TextCountRaises(c);
    LineRaisesExactly(c, line);
  }

  /** The event of such a text is rewritten to itself. */
  lemma TextCountIsRelayed(c: Codec, text: Bytes)
    requires PlainLine(text) && !IsDone(text) && c.loads(text) == Some(JObj(TEXT_COUNT))
    ensures var first := DATA_PREFIX + text + BLANK;
            && FirstObjection(c, FedEvents([], first)).None?
            && RewrittenAll(c, FedEvents([], first)) == Some(first)
  {
    OneLineIsItsEvent(text);
    var ev := FedEvents([], DATA_PREFIX + text + BLANK)[0];
    TextCountStays();
    RewrittenOne(c, ev);
  }

  lemma OneLineIsItsEvent(text: Bytes)
    requires PlainLine(text)
    ensures var first := DATA_PREFIX + text + BLANK;
            FedEvents([], first) == [Event(text, IsDone(text), Some(first))]
  {
    var first := DATA_PREFIX + text + BLANK;
    PrintedLine(text);
    PrintedBlockParses(text);
    PrintedBlockIsWhole(text);
    PrefixedHasNoCr(text);
    AcceptedAsIs(first);
    OneBlock(DATA_PREFIX + text);
  }

  lemma TextCountPieceRaises(c: Codec, text: Bytes)
    requires PlainLine(text) && !IsDone(text) && Utf8(text) && Contains(text, USAGE)
    requires c.loads(text) == Some(JObj(TEXT_COUNT))
    ensures PieceRaises(c, DATA_PREFIX + text + BLANK)
  {
    EventIsInspected(text);
    EventHasLine(DATA_PREFIX + text);
    TextCountLineRaises(c, text);
  }

  lemma StepRaises(env: Env, first: Bytes)
    requires RewrittenAll(env.codec, FedEvents([], first)) == Some(first) && PieceRaises(env.codec, first)
    ensures PipeStep(env, true, NEW_PIPE, first).raised
  {
    PieceRaisesExactly(env.codec, true, first);
  }

  /** A first event whose count of cached tokens is a text breaks off the request to a backend without a
      price for cached input: headers, no bytes, no usage row, and no other backend is tried. */
  lemma TextCountBreaksOff(env: Env, b: Backend, text: Bytes, more: seq<Bytes>, ending: Ending, later: seq<Attempt>)
    requires PlainLine(text) && !IsDone(text) && Utf8(text) && Contains(text, USAGE)
    requires env.codec.loads(text) == Some(JObj(TEXT_COUNT))
    ensures var up := Reads([DATA_PREFIX + text + BLANK] + more, ending);
            Served(env, [Attempt(b, true, up)] + later)
            == Result([Headers(b)], [], [], [Start(b), End(b)], None, true)
  {
    var first := DATA_PREFIX + text + BLANK;
    var a := Attempt(b, true, Reads([first] + more, ending));
    TextCountIsRelayed(env.codec, text);
    TextCountPieceRaises(env.codec, text);
    StepRaises(env, first);
    assert NonEmpty(a.upstream.chunks) == [first] + NonEmpty(more);
    FirstChunkRaises(env, a, first, NonEmpty(more));
    ServedFirst(env, [a] + later);
  }
}
