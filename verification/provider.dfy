/** Streaming from a provider (call_provider_stream of src/localgateway/provider.py), as a function
    of what the upstream connection does. */
module Provider {
  import opened Wrappers
  import opened Sequences
  import opened Sse
  import opened JsonValues

  const RETRYABLE_STATUS: set<int> := {429, 500, 502, 503, 504}

  datatype Ending = Eof | IdleTimeout | Timeout | Broken(message: string)

  /** An upstream answers with an error status, or with 200 and some reads; a connection that fails
      before the status line is a trace with no reads. */
  datatype Upstream = BadStatus(status: int, body: string) | Reads(chunks: seq<Bytes>, ending: Ending)

  datatype StreamEvent =
    | Chunk(data: Bytes)
    | Done(sentDone: bool)
    | Failed(error: string, status: int, retryable: bool, midStream: bool)

  function Cut500(s: string): (r: string)
    ensures r <= s && |r| <= 500 && (r == s || |r| == 500)
  {
    if |s| <= 500 then s else s[..500]
  }

  // ---------- observing events ----------

  const CONTENT_KEYS: seq<string> := ["content", "reasoning_content", "reasoning"]

  /** What Python's len says of a value that has no length; None for text, lists and dictionaries. */
  function NoLength(j: Json): Option<string> {
    match j
    case JNull => Some("object of type 'NoneType' has no len()")
    case JBool(_) => Some("object of type 'bool' has no len()")
    case JInt(_) => Some("object of type 'int' has no len()")
    case JFloat(_, _) => Some("object of type 'float' has no len()")
    case _ => None
  }

  /** The delta of the first choice, when the object has one. */
  function FirstDelta(o: Object): Option<Object> {
    match Get(o, "choices")
    case JList(items) =>
      if items == [] || !items[0].JObj? || !Get(items[0].fields, "delta").JObj? then None
      else Some(Get(items[0].fields, "delta").fields)
    case _ => None
  }

  /** What observing an event raises: its content is measured, whatever it is. */
  function Objection(c: Codec, ev: Event): Option<string> {
    if ev.done then None
    else
      var json := c.loads(ev.data);
      if json.None? || !json.value.JObj? then None
      else
        var delta := FirstDelta(json.value.fields);
        if delta.None? || !Truthy(FirstTruthy(delta.value, CONTENT_KEYS)) then None
        else NoLength(FirstTruthy(delta.value, CONTENT_KEYS))
  }

  function FirstObjection(c: Codec, events: seq<Event>): Option<string> {
    if events == [] then None
    else if Objection(c, events[0]).Some? then Objection(c, events[0])
    else FirstObjection(c, events[1..])
  }

  lemma {:induction false} FirstObjectionAppend(c: Codec, a: seq<Event>, b: seq<Event>)
    ensures FirstObjection(c, a + b)
         == if FirstObjection(c, a).Some? then FirstObjection(c, a) else FirstObjection(c, b)
  {
    if a == [] {
      Units(b);
    } else {
      assert (a + b)[1..] == a[1..] + b;
      FirstObjectionAppend(c, a[1..], b);
    }
  }

  class StreamAccumulator {
    const codec: Codec
    const parser: SseParser
    var sawDone: bool

    constructor (codec: Codec)
      ensures fresh(this) && fresh(parser) && parser.buf == [] && !sawDone && this.codec == codec
    {
      this.codec := codec;
      parser := new SseParser();
      sawDone := false;
    }

    /** Parses a chunk and observes its events in order; the first objection ends it. */
    method Feed(chunk: Bytes) returns (error: Option<string>)
      modifies this, parser
      ensures parser.buf == FedBuffer(old(parser.buf), chunk)
      ensures error == FirstObjection(codec, FedEvents(old(parser.buf), chunk))
      ensures error.None? ==> (sawDone <==> old(sawDone) || HasDone(FedEvents(old(parser.buf), chunk)))
    {
      var events := parser.Feed(chunk);
      error := ObserveAll(events);
    }

    method ObserveAll(events: seq<Event>) returns (error: Option<string>)
      modifies this
      ensures error == FirstObjection(codec, events)
      ensures error.None? ==> (sawDone <==> old(sawDone) || HasDone(events))
    {
      for i := 0 to |events|
        invariant FirstObjection(codec, events[i..]) == FirstObjection(codec, events)
        invariant sawDone <==> old(sawDone) || HasDone(events[..i])
      {
        assert events[i..][1..] == events[i + 1..];
        assert events[..i + 1] == events[..i] + [events[i]];
        HasDoneAppend(events[..i], [events[i]]);
        assert HasDone([events[i]]) <==> events[i].done by { assert [events[i]][0] == events[i]; }
        error := Observe(events[i]);
        if error.Some? {
          return;
        }
      }
      error := None;
      assert events[..|events|] == events;
    }

    method Observe(ev: Event) returns (error: Option<string>)
      modifies this
      ensures error == Objection(codec, ev)
      ensures sawDone <==> old(sawDone) || ev.done
    {
      if ev.done {
        sawDone := true;
        return None;
      }
      var json := codec.loads(ev.data);
      if json.None? || !json.value.JObj? {
        return None;
      }
      var delta := FirstDelta(json.value.fields);
      if delta.Some? && Truthy(FirstTruthy(delta.value, CONTENT_KEYS)) {
        return NoLength(FirstTruthy(delta.value, CONTENT_KEYS));
      }
      return None;
    }

    /** Observes what the parser held back. */
    method Finish() returns (ev: Option<Event>, error: Option<string>)
      modifies this, parser
      ensures ev == Flushed(old(parser.buf)) && parser.buf == []
      ensures error == if ev.Some? then Objection(codec, ev.value) else None
      ensures sawDone <==> old(sawDone) || (ev.Some? && ev.value.done)
    {
      ev := parser.Flush();
      error := None;
      if ev.Some? {
        error := Observe(ev.value);
      }
    }
  }

  predicate HasDone(events: seq<Event>) {
    exists i :: 0 <= i < |events| && events[i].done
  }

  lemma HasDoneAppend(a: seq<Event>, b: seq<Event>)
    ensures HasDone(a + b) <==> HasDone(a) || HasDone(b)
  {
    var s := a + b;
    if i :| 0 <= i < |a| && a[i].done {
      assert s[i].done;
    }
    if i :| 0 <= i < |b| && b[i].done {
      assert s[|a| + i].done;
    }
  }

  function NonEmpty(chunks: seq<Bytes>): seq<Bytes> {
    if chunks == [] then []
    else (if chunks[0] == [] then [] else [chunks[0]]) + NonEmpty(chunks[1..])
  }

  function AsChunks(datas: seq<Bytes>): (r: seq<StreamEvent>)
    ensures |r| == |datas| && forall i :: 0 <= i < |r| ==> r[i] == Chunk(datas[i])
  {
    if datas == [] then [] else [Chunk(datas[0])] + AsChunks(datas[1..])
  }

  /** The extra chunk for a stream that ended without a final blank line. */
  function TailChunk(datas: seq<Bytes>): seq<Bytes> {
    var ev := Flushed(FedAllBuffer([], datas));
    if ev.None? then [] else [RenderEvent(ev.value)]
  }

  function SawDone(datas: seq<Bytes>): bool {
    var ev := Flushed(FedAllBuffer([], datas));
    HasDone(FedAllEvents([], datas)) || (ev.Some? && ev.value.done)
  }

  /** How many chunks are observed without an objection. */
  function Heard(c: Codec, buf: Bytes, datas: seq<Bytes>): (n: nat)
    ensures n <= |datas|
    decreases |datas|
  {
    if datas == [] || FirstObjection(c, FedEvents(buf, datas[0])).Some? then 0
    else 1 + Heard(c, FedBuffer(buf, datas[0]), datas[1..])
  }

  function TailObjection(c: Codec, datas: seq<Bytes>): Option<string> {
    var ev := Flushed(FedAllBuffer([], datas));
    if ev.None? then None else Objection(c, ev.value)
  }

  /** The bytes handed on, in order: a chunk that cannot be observed is not handed on. */
  function Datas(c: Codec, up: Upstream): seq<Bytes> {
    if up.BadStatus? then []
    else
      var datas := NonEmpty(up.chunks);
      if Heard(c, [], datas) < |datas| then datas[..Heard(c, [], datas)]
      else datas + if up.ending.Eof? && TailObjection(c, datas).None? then TailChunk(datas) else []
  }

  function Terminal(c: Codec, up: Upstream): (end: StreamEvent)
    ensures !end.Chunk?
  {
    match up
    case BadStatus(status, body) => Failed(Cut500(body), status, status in RETRYABLE_STATUS, false)
    case Reads(chunks, ending) =>
      var datas := NonEmpty(chunks);
      var objection := FirstObjection(c, FedAllEvents([], datas));
      if objection.Some? then Failed(Cut500(objection.value), 0, true, true)
      else
        match ending
        case Eof =>
          if TailObjection(c, datas).Some? then Failed(Cut500(TailObjection(c, datas).value), 0, true, datas != [])
          else Done(SawDone(datas))
        case IdleTimeout => Failed("idle timeout", 0, true, datas != [])
        case Timeout => Failed("timeout", 0, true, datas != [])
        case Broken(message) => Failed(Cut500(message), 0, true, datas != [])
  }

  /** Some chunks, then exactly one Done or Failed. */
  function Events(c: Codec, up: Upstream): seq<StreamEvent> {
    AsChunks(Datas(c, up)) + [Terminal(c, up)]
  }

  lemma {:induction false} HeardAll(c: Codec, buf: Bytes, datas: seq<Bytes>)
    ensures Heard(c, buf, datas) == |datas| <==> FirstObjection(c, FedAllEvents(buf, datas)).None?
    decreases |datas|
  {
    if datas == [] {
    } else {
      HeardAll(c, FedBuffer(buf, datas[0]), datas[1..]);
      FirstObjectionAppend(c, FedEvents(buf, datas[0]), FedAllEvents(FedBuffer(buf, datas[0]), datas[1..]));
    }
  }

  lemma {:induction false} FedAllAppend(buf: Bytes, a: seq<Bytes>, b: seq<Bytes>)
    ensures FedAllEvents(buf, a + b) == FedAllEvents(buf, a) + FedAllEvents(FedAllBuffer(buf, a), b)
    ensures FedAllBuffer(buf, a + b) == FedAllBuffer(FedAllBuffer(buf, a), b)
    decreases |a|
  {
    if a == [] {
      Units(b);
      Units(FedAllEvents(buf, b));
    } else {
      var next := FedBuffer(buf, a[0]);
      FirstOfSum(a, b);
      FedAllAppend(next, a[1..], b);
      Assoc(FedEvents(buf, a[0]), FedAllEvents(next, a[1..]), FedAllEvents(FedAllBuffer(next, a[1..]), b));
    }
  }

  lemma FedOne(buf: Bytes, chunk: Bytes)
    ensures FedAllEvents(buf, [chunk]) == FedEvents(buf, chunk) && FedAllBuffer(buf, [chunk]) == FedBuffer(buf, chunk)
  {
    assert [chunk][1..] == [];
    Units(FedEvents(buf, chunk));
  }

  lemma HeardFirst(c: Codec, buf: Bytes, datas: seq<Bytes>)
    requires datas != [] && FirstObjection(c, FedEvents(buf, datas[0])).None?
    ensures Heard(c, buf, datas) == 1 + Heard(c, FedBuffer(buf, datas[0]), datas[1..])
  {
  }

  lemma {:induction false} HeardAppend(c: Codec, buf: Bytes, a: seq<Bytes>, b: seq<Bytes>)
    requires FirstObjection(c, FedAllEvents(buf, a)).None?
    ensures Heard(c, buf, a + b) == |a| + Heard(c, FedAllBuffer(buf, a), b)
    decreases |a|
  {
    if a == [] {
      Units(b);
    } else {
      var next := FedBuffer(buf, a[0]);
      FirstOfSum(a, b);
      FirstObjectionAppend(c, FedEvents(buf, a[0]), FedAllEvents(next, a[1..]));
      HeardFirst(c, buf, a + b);
      HeardAppend(c, next, a[1..], b);
    }
  }

  /** The first chunk with an objection is where hearing ends. */
  lemma HeardUpTo(c: Codec, datas: seq<Bytes>, chunk: Bytes, more: seq<Bytes>)
    requires FirstObjection(c, FedAllEvents([], datas)).None?
    requires FirstObjection(c, FedEvents(FedAllBuffer([], datas), chunk)).Some?
    ensures Heard(c, [], datas + ([chunk] + more)) == |datas|
    ensures FirstObjection(c, FedAllEvents([], datas + ([chunk] + more)))
         == FirstObjection(c, FedEvents(FedAllBuffer([], datas), chunk))
  {
    var later := [chunk] + more;
    assert later[0] == chunk && later[1..] == more;
    var buf := FedAllBuffer([], datas);
    HeardAppend(c, [], datas, later);
    FedAllAppend([], datas, later);
    FirstObjectionAppend(c, FedAllEvents([], datas), FedAllEvents(buf, later));
    FirstObjectionAppend(c, FedEvents(buf, chunk), FedAllEvents(FedBuffer(buf, chunk), more));
  }

  lemma {:induction false} AsChunksAppend(a: seq<Bytes>, b: seq<Bytes>)
    ensures AsChunks(a + b) == AsChunks(a) + AsChunks(b)
  {
  }

  lemma NonEmptyStep(chunks: seq<Bytes>, i: nat, before: seq<Bytes>)
    requires i < |chunks|
    ensures before + NonEmpty(chunks[i..])
         == if chunks[i] == [] then before + NonEmpty(chunks[i + 1..])
            else (before + [chunks[i]]) + NonEmpty(chunks[i + 1..])
    ensures chunks[i] != [] ==>
              before + NonEmpty(chunks[i..]) == before + ([chunks[i]] + NonEmpty(chunks[i + 1..]))
  {
    var more := NonEmpty(chunks[i + 1..]);
    assert chunks[i..][0] == chunks[i] && chunks[i..][1..] == chunks[i + 1..];
    Units(more);
    Assoc(before, [chunks[i]], more);
  }

  /** src/localgateway/provider.py:312-330. A chunk counts as the first before it is observed. */
  method ReadChunks(c: Codec, chunks: seq<Bytes>, acc: StreamAccumulator)
    returns (events: seq<StreamEvent>, first: bool, error: Option<string>)
    requires acc.codec == c && acc.parser.buf == [] && !acc.sawDone
    modifies acc, acc.parser
    ensures error == FirstObjection(c, FedAllEvents([], NonEmpty(chunks)))
    ensures events == AsChunks(NonEmpty(chunks)[..Heard(c, [], NonEmpty(chunks))])
    ensures first <==> NonEmpty(chunks) != []
    ensures error.None? ==> Listening(c, NonEmpty(chunks), acc.parser.buf, acc.sawDone)
  {
    events, first := [], false;
    ghost var all, datas: seq<Bytes> := NonEmpty(chunks), [];
    for i := 0 to |chunks|
      invariant datas + NonEmpty(chunks[i..]) == all
      invariant events == AsChunks(datas) && (first <==> datas != [])
      invariant Listening(c, datas, acc.parser.buf, acc.sawDone)
    {
      var chunk := chunks[i];
      ghost var more := NonEmpty(chunks[i + 1..]);
      NonEmptyStep(chunks, i, datas);
      if chunk == [] {
        continue;
      }
      first := true;
      error := acc.Feed(chunk);
      if error.Some? {
        HeardUpTo(c, datas, chunk, more);
        assert all[..|datas|] == datas;
        return;
      }
      StillListening(c, datas, chunk, acc.sawDone);
      AsChunksAppend(datas, [chunk]);
      AsChunksOne(chunk);
      events := events + [Chunk(chunk)];
      datas := datas + [chunk];
    }
    Units(datas);
    HeardAll(c, [], datas);
    assert datas[..|datas|] == datas;
    error := None;
  }

  /** src/localgateway/provider.py:332-356, the end of a stream that was read to its end. */
  method EndStream(c: Codec, acc: StreamAccumulator, first: bool, ghost datas: seq<Bytes>)
    returns (events: seq<StreamEvent>)
    requires acc.codec == c && Listening(c, datas, acc.parser.buf, acc.sawDone)
    modifies acc, acc.parser
    ensures events == var error := TailObjection(c, datas);
                      if error.Some? then [Failed(Cut500(error.value), 0, true, first)]
                      else AsChunks(TailChunk(datas)) + [Done(SawDone(datas))]
  {
    var ev, error := acc.Finish();
    if error.Some? {
      return [Failed(Cut500(error.value), 0, true, first)];
    }
    events := [];
    if ev.Some? {
      AsChunksOne(RenderEvent(ev.value));
      events := [Chunk(RenderEvent(ev.value))];
    }
    events := events + [Done(acc.sawDone)];
  }

  /** src/localgateway/provider.py:265-361. */
  method CallProviderStream(c: Codec, up: Upstream) returns (events: seq<StreamEvent>)
    ensures events == Events(c, up)
  {
    if up.BadStatus? {
      var error := Cut500(up.body);
      events := [Failed(error, up.status, up.status in RETRYABLE_STATUS, false)];
      Units(events);
      return;
    }
    var acc := new StreamAccumulator(c);
    var first, error;
    events, first, error := ReadChunks(c, up.chunks, acc);
    ghost var datas := NonEmpty(up.chunks);
    HeardAll(c, [], datas);
    Units(datas);
    assert datas[..|datas|] == datas;
    if error.Some? {
      return events + [Failed(Cut500(error.value), 0, true, first)];
    }
    match up.ending {
      case IdleTimeout =>
        events := events + [Failed("idle timeout", 0, true, first)];
      case Timeout =>
        events := events + [Failed("timeout", 0, true, first)];
      case Broken(message) =>
        events := events + [Failed(Cut500(message), 0, true, first)];
      case Eof =>
        var end := EndStream(c, acc, first, datas);
        AsChunksAppend(datas, TailChunk(datas));
        Assoc(events, AsChunks(TailChunk(datas)), [Done(SawDone(datas))]);
        events := events + end;
    }
  }

  /** The accumulator after the chunks datas, none of which it objected to. */
  predicate Listening(c: Codec, datas: seq<Bytes>, buf: Bytes, sawDone: bool) {
    && buf == FedAllBuffer([], datas)
    && (sawDone <==> HasDone(FedAllEvents([], datas)))
    && FirstObjection(c, FedAllEvents([], datas)).None?
  }

  lemma StillListening(c: Codec, datas: seq<Bytes>, chunk: Bytes, sawDone: bool)
    requires FirstObjection(c, FedAllEvents([], datas)).None?
    requires FirstObjection(c, FedEvents(FedAllBuffer([], datas), chunk)).None?
    requires sawDone <==> HasDone(FedAllEvents([], datas)) || HasDone(FedEvents(FedAllBuffer([], datas), chunk))
    ensures Listening(c, datas + [chunk], FedBuffer(FedAllBuffer([], datas), chunk), sawDone)
  {
    FedAllAppend([], datas, [chunk]);
    FedOne(FedAllBuffer([], datas), chunk);
    HasDoneAppend(FedAllEvents([], datas), FedEvents(FedAllBuffer([], datas), chunk));
    FirstObjectionAppend(c, FedAllEvents([], datas), FedEvents(FedAllBuffer([], datas), chunk));
  }

  lemma AsChunksOne(d: Bytes)
    ensures AsChunks([d]) == [Chunk(d)]
  {
  }

  /** An event completed by the first chunk cannot be observed. */
  predicate ObjectsAtOnce(c: Codec, up: Upstream) {
    && up.Reads? && NonEmpty(up.chunks) != []
    && FirstObjection(c, FedEvents([], NonEmpty(up.chunks)[0])).Some?
  }

  /** The grammar of the event stream. */
  lemma EventGrammar(c: Codec, up: Upstream)
    ensures var es, n := Events(c, up), |Events(c, up)| - 1;
            && n >= 0 && n == |Datas(c, up)| && es[n] == Terminal(c, up) && !es[n].Chunk?
            && (forall i :: 0 <= i < n ==> es[i] == Chunk(Datas(c, up)[i]))
            && (es[n].Failed? && es[n].midStream ==> es[n].retryable && es[n].status == 0)
            && (es[n].Failed? && n > 0 ==> es[n].midStream)
  {
    if up.Reads? {
      HeardAll(c, [], NonEmpty(up.chunks));
    }
  }

  /** What midStream means: a failure says it exactly when a chunk has been handed on before it, unless
      the first chunk could not be observed; then nothing was handed on and it still says so. */
  lemma MidStreamExactly(c: Codec, up: Upstream)
    ensures var es, n := Events(c, up), |Datas(c, up)|;
            && ((es[n].Failed? ==> (es[n].midStream <==> n > 0)) <==> !ObjectsAtOnce(c, up))
            && (ObjectsAtOnce(c, up) ==> n == 0 && es == [Terminal(c, up)] && es[0].Failed? && es[0].midStream)
  {
    EventGrammar(c, up);
    if up.Reads? {
      var datas := NonEmpty(up.chunks);
      HeardAll(c, [], datas);
      if datas != [] {
        FirstObjectionAppend(c, FedEvents([], datas[0]), FedAllEvents(FedBuffer([], datas[0]), datas[1..]));
      }
    }
  }
}
