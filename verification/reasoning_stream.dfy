/** Rewriting an event stream as it passes (transform_stream_chunk and flush_stream_chunk of
    src/localgateway/reasoning.py). */
module ReasoningStream {
  import opened Wrappers
  import opened Sequences
  import opened Sse
  import opened JsonValues
  import opened SseLaws
  import opened SseRoundTrip
  import opened Reasoning

  predicate Contains(s: Bytes, part: Bytes) {
    exists i :: 0 <= i <= |s| && HasPrefix(s[i..], part)
  }

  /** An object printed as one event; None if UTF-8 cannot write it. */
  function PrintObject(c: Codec, o: Object): Option<Bytes> {
    var text := c.dumps(JObj(o));
    if text.None? then None else Some(DATA_PREFIX + text.value + BLANK)
  }

  /** The bytes an event leaves with when its payload may be rewritten; None if joining its parts or
      printing the rewritten object raises. */
  function RewrittenPayload(c: Codec, ev: Event): Option<Bytes> {
    var json := c.loads(ev.data);
    if json.None? || !json.value.JObj? then Some(RenderEvent(ev))
    else
      var g := NormalizedObject(json.value.fields);
      if g.None? then None
      else if g.value == json.value.fields then Some(RenderEvent(ev))
      else PrintObject(c, g.value)
  }

  /** Events that mention no reasoning field pass without being read. */
  function Rewritten(c: Codec, ev: Event): Option<Bytes> {
    if ev.done || !(Contains(ev.data, REASONING) || Contains(ev.data, THINKING))
    then Some(RenderEvent(ev))
    else RewrittenPayload(c, ev)
  }

  /** The stream transform is the per-event rewrite, applied in order. */
  function RewrittenAll(c: Codec, events: seq<Event>): Option<Bytes> {
    if events == [] then Some([])
    else
      var first, rest := Rewritten(c, events[0]), RewrittenAll(c, events[1..]);
      if first.None? || rest.None? then None else Some(first.value + rest.value)
  }

  function FlushedTransform(c: Codec, buf: Bytes): Option<Bytes> {
    var ev := Flushed(buf);
    if ev.None? then Some([])
    else if ev.value.done then Some(RenderEvent(ev.value))
    else RewrittenPayload(c, ev.value)
  }

  lemma {:induction false} RewrittenAllAppend(c: Codec, a: seq<Event>, b: seq<Event>)
    ensures RewrittenAll(c, a + b) ==
            (var x, y := RewrittenAll(c, a), RewrittenAll(c, b);
             if x.None? || y.None? then None else Some(x.value + y.value))
  {
    if a == [] {
      Units(b);
      if RewrittenAll(c, b).Some? {
        Units(RewrittenAll(c, b).value);
      }
    } else {
      assert (a + b)[1..] == a[1..] + b;
      RewrittenAllAppend(c, a[1..], b);
      var x, y, z := Rewritten(c, a[0]), RewrittenAll(c, a[1..]), RewrittenAll(c, b);
      if x.Some? && y.Some? && z.Some? {
        Assoc(x.value, y.value, z.value);
      }
    }
  }

  method RewritePayload(c: Codec, ev: Event) returns (out: Option<Bytes>)
    ensures out == RewrittenPayload(c, ev)
  {
    var json := c.loads(ev.data);
    if json.None? || !json.value.JObj? {
      return Some(RenderEvent(ev));
    }
    var g := NormalizeObject(json.value.fields);
    if g.None? {
      return None;
    }
    if g.value.1 {
      out := PrintObject(c, g.value.0);
    } else {
      out := Some(RenderEvent(ev));
    }
  }

  method TransformStreamChunk(c: Codec, chunk: Bytes, parser: SseParser) returns (out: Option<Bytes>)
    modifies parser
    ensures out == RewrittenAll(c, FedEvents(old(parser.buf), chunk))
    ensures parser.buf == FedBuffer(old(parser.buf), chunk)
  {
    var events := parser.Feed(chunk);
    if events == [] {
      return Some([]);
    }
    assert events[0..] == events && RewrittenAll(c, events) == After([], RewrittenAll(c, events)) by {
      AfterNothing(RewrittenAll(c, events));
    }
    var sent: Bytes := [];
    var i := 0;
    while i < |events|
      invariant 0 <= i <= |events|
      invariant RewrittenAll(c, events) == After(sent, RewrittenAll(c, events[i..]))
      invariant parser.buf == FedBuffer(old(parser.buf), chunk)
    {
      var ev := events[i];
      var piece: Option<Bytes>;
      if ev.done {
        piece := Some(RenderEvent(ev));
      } else if !Contains(ev.data, REASONING) && !Contains(ev.data, THINKING) {
        piece := Some(RenderEvent(ev));
      } else {
        piece := RewritePayload(c, ev);
      }
      AfterStep(c, sent, events, i);
      if piece.None? {
        return None;
      }
      sent := sent + piece.value;
      i := i + 1;
    }
    Units(sent);
    return Some(sent);
  }

  /** Bytes sent before the rest. */
  function After(sent: Bytes, rest: Option<Bytes>): Option<Bytes> {
    if rest.None? then None else Some(sent + rest.value)
  }

  lemma AfterNothing(rest: Option<Bytes>)
    ensures After([], rest) == rest
  {
    if rest.Some? {
      Units(rest.value);
    }
  }

  lemma AfterStep(c: Codec, sent: Bytes, events: seq<Event>, i: nat)
    requires i < |events|
    ensures var piece := Rewritten(c, events[i]);
            After(sent, RewrittenAll(c, events[i..])) ==
            if piece.None? then None else After(sent + piece.value, RewrittenAll(c, events[i + 1..]))
  {
    assert events[i..][0] == events[i] && events[i..][1..] == events[i + 1..];
    var piece, rest := Rewritten(c, events[i]), RewrittenAll(c, events[i + 1..]);
    if piece.Some? && rest.Some? {
      Assoc(sent, piece.value, rest.value);
    }
  }

  lemma RewrittenOne(c: Codec, ev: Event)
    ensures RewrittenAll(c, [ev]) == Rewritten(c, ev)
  {
    assert [ev][1..] == [];
    if Rewritten(c, ev).Some? {
      Units(Rewritten(c, ev).value);
    }
  }

  method FlushStreamChunk(c: Codec, parser: SseParser) returns (out: Option<Bytes>)
    modifies parser
    ensures out == FlushedTransform(c, old(parser.buf)) && parser.buf == []
  {
    var ev := parser.Flush();
    if ev.None? {
      return Some([]);
    }
    if ev.value.done {
      return Some(RenderEvent(ev.value));
    }
    out := RewritePayload(c, ev.value);
  }

  // ---------- when rewriting raises ----------

  /** The object of an event, when its payload is one. */
  function EventObject(c: Codec, ev: Event): Option<Object> {
    match c.loads(ev.data)
    case Some(JObj(fields)) => Some(fields)
    case _ => None
  }

  /** Rewriting a payload raises exactly when joining its reasoning parts does, or when it changes
      something in an object that holds half a surrogate pair anywhere, as text or as a key. */
  lemma RewriteRaisesExactly(c: Codec, ev: Event)
    requires ValidCodec(c)
    ensures RewrittenPayload(c, ev).None?
      <==> && EventObject(c, ev).Some?
           && var o := EventObject(c, ev).value;
              NormalizedObject(o).None? || (NormalizedObject(o).value != o && !Printable(JObj(o)))
  {
    var o := EventObject(c, ev);
    if o.Some? && NormalizedObject(o.value).Some? {
      NormalizingKeepsPrintable(o.value);
    }
  }

  // ---------- over a whole stream ----------

  /** The bytes sent on for successive chunks. */
  function TransformedChunks(c: Codec, buf: Bytes, chunks: seq<Bytes>): Option<Bytes>
    decreases |chunks|
  {
    if chunks == [] then Some([])
    else
      var first := RewrittenAll(c, FedEvents(buf, chunks[0]));
      var rest := TransformedChunks(c, FedBuffer(buf, chunks[0]), chunks[1..]);
      if first.None? || rest.None? then None else Some(first.value + rest.value)
  }

  lemma {:induction false} TransformIsMap(c: Codec, buf: Bytes, chunks: seq<Bytes>)
    ensures TransformedChunks(c, buf, chunks) == RewrittenAll(c, FedAllEvents(buf, chunks))
    decreases |chunks|
  {
    if chunks == [] {
    } else {
      TransformIsMap(c, FedBuffer(buf, chunks[0]), chunks[1..]);
      RewrittenAllAppend(c, FedEvents(buf, chunks[0]),
                         FedAllEvents(FedBuffer(buf, chunks[0]), chunks[1..]));
    }
  }

  /** However the network cuts a stream (outside CRLF pairs), the bytes sent on are the per-event
      rewrite of the events of the whole. */
  lemma TransformIgnoresChunking(c: Codec, chunks: seq<Bytes>)
    requires CleanCuts([], chunks)
    ensures TransformedChunks(c, [], chunks) == RewrittenAll(c, FedEvents([], Flatten(chunks)))
  {
    TransformIsMap(c, [], chunks);
    ChunkingIndependence([], chunks);
  }

  // ---------- idempotence ----------

  /** A printed object is one whole block whose payload is its JSON text. */
  lemma PrintedObjectIsBlock(c: Codec, o: Object)
    requires ValidCodec(c) && c.dumps(JObj(o)).Some?
    ensures var text := c.dumps(JObj(o)).value;
            var out := DATA_PREFIX + text;
            && WholeBlock(out) && CR !in out && ParsedBlock(out).Some?
            && ParsedBlock(out).value.data == text && c.loads(text) == Some(JObj(o))
  {
    var text := c.dumps(JObj(o)).value;
    assert c.loads(text) == Some(JObj(o)) && PlainLine(text);
    PrintedLine(text);
    PrintedBlockIsWhole(text);
    PrintedBlockParses(text);
  }

  /** Rewriting an event whose payload is a normalised object changes nothing. */
  lemma NormalisedStays(c: Codec, o: Object, ev: Event)
    requires ValidCodec(c) && NormalizedObject(o) == Some(o) && c.loads(ev.data) == Some(JObj(o))
    ensures Rewritten(c, ev) == Some(RenderEvent(ev))
  {
  }

  lemma BlockRenders(b: Bytes)
    requires ParsedBlock(b).Some?
    ensures BlockEvents(b) != [] && RenderEvent(BlockEvents(b)[0]) == b + BLANK
    ensures BlockEvents(b)[0].data == ParsedBlock(b).value.data
  {
  }

  lemma RewrittenToPrinted(c: Codec, ev: Event)
    requires Rewritten(c, ev).Some? && Rewritten(c, ev).value != RenderEvent(ev)
    ensures c.loads(ev.data).Some? && c.loads(ev.data).value.JObj?
    ensures var g := NormalizedObject(c.loads(ev.data).value.fields);
            g.Some? && Rewritten(c, ev) == PrintObject(c, g.value)
  {
  }

  /** What one event leaves with is again one whole block, and rewriting the event of that block
      changes nothing more. */
  lemma RewrittenIsStable(c: Codec, b: Bytes) returns (out: Bytes)
    requires ValidCodec(c) && WholeBlock(b) && CR !in b && ParsedBlock(b).Some?
    requires Rewritten(c, BlockEvents(b)[0]).Some?
    ensures Rewritten(c, BlockEvents(b)[0]) == Some(out + BLANK)
    ensures WholeBlock(out) && CR !in out && ParsedBlock(out).Some?
    ensures Rewritten(c, BlockEvents(out)[0]) == Some(out + BLANK)
  {
    var ev := BlockEvents(b)[0];
    BlockRenders(b);
    if Rewritten(c, ev).value == RenderEvent(ev) {
      out := b;
    } else {
      RewrittenToPrinted(c, ev);
      var o := c.loads(ev.data).value.fields;
      var g := NormalizedObject(o).value;
      out := DATA_PREFIX + c.dumps(JObj(g)).value;
      PrintedObjectIsBlock(c, g);
      NormalizedObjectIdempotent(o);
      BlockRenders(out);
      NormalisedStays(c, g, BlockEvents(out)[0]);
    }
  }

  /** Re-parsing what the transform sent on gives events that it sends on unchanged. */
  lemma {:induction false} RewrittenReparses(c: Codec, blocks: seq<Bytes>)
    requires ValidCodec(c)
    requires forall b :: b in blocks ==> WholeBlock(b) && CR !in b && ParsedBlock(b).Some?
    requires RewrittenAll(c, EventsOf(blocks)).Some?
    ensures var wire := RewrittenAll(c, EventsOf(blocks)).value;
            CR !in wire && Rest(wire) == [] && RewrittenAll(c, EventsOf(Blocks(wire))) == Some(wire)
  {
    if blocks == [] {
    } else {
      var b, ev := blocks[0], BlockEvents(blocks[0])[0];
      RewrittenAllAppend(c, [ev], EventsOf(blocks[1..]));
      RewrittenOne(c, ev);
      assert BlockEvents(b) == [ev];
      RewrittenReparses(c, blocks[1..]);
      var out := RewrittenIsStable(c, b);
      var tail := RewrittenAll(c, EventsOf(blocks[1..])).value;
      SplitFirst(out, tail);
      EventsOfCons(out, Blocks(tail));
      var ev' := BlockEvents(out)[0];
      assert BlockEvents(out) == [ev'];
      RewrittenAllAppend(c, [ev'], EventsOf(Blocks(tail)));
      RewrittenOne(c, ev');
    }
  }

  lemma {:induction false} DataBlocksParse(blocks: seq<Bytes>)
    ensures forall b :: b in DataBlocks(blocks) ==> ParsedBlock(b).Some?
  {
    if blocks == [] {
    } else {
      DataBlocksParse(blocks[1..]);
    }
  }

  /** The transform is idempotent: feeding it what it sent on sends the same bytes on, all of them. */
  lemma TransformIdempotent(c: Codec, s: Bytes)
    requires ValidCodec(c)
    requires RewrittenAll(c, FedEvents([], s)).Some?
    ensures var wire := RewrittenAll(c, FedEvents([], s)).value;
            RewrittenAll(c, FedEvents([], wire)) == Some(wire) && FedBuffer([], wire) == []
  {
    var buf := Accept([], s);
    AcceptSettled([], s);
    var kept := DataBlocks(Blocks(buf));
    RelayIsDataBlocks(Blocks(buf));
    DataBlocksParse(Blocks(buf));
    SplitIsComplete(buf);
    BlocksAreParts(buf);
    RewrittenReparses(c, kept);
    var wire := RewrittenAll(c, EventsOf(kept)).value;
    AcceptSettled([], wire);
    NormaliseIdentity(wire);
    Units(wire);
  }
}
