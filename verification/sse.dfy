/** The incremental event-stream parser and printer (src/localgateway/sse.py).

    The format is section 9.2.6 of the WHATWG HTML Living Standard. Payloads stay bytes: decoding
    UTF-8 never creates or removes an ASCII byte, so it commutes with every split made here. */
module Sse {
  import opened Wrappers
  import opened Sequences

  newtype byte = x: int | 0 <= x < 256
  type Bytes = seq<byte>

  const LF: byte := 10
  const CR: byte := 13
  const SPACE: byte := 32
  const COLON: byte := 58
  const BLANK: Bytes := [LF, LF]
  const DATA_FIELD: Bytes := [100, 97, 116, 97, 58]      // data:
  const DATA_PREFIX: Bytes := DATA_FIELD + [SPACE]
  const DONE_MARK: Bytes := [91, 68, 79, 78, 69, 93]     // [DONE]

  datatype Event = Event(data: Bytes, done: bool, raw: Option<Bytes>)

  // ---------- line endings ----------

  function CrLfToLf(s: Bytes): Bytes {
    if |s| < 2 then s
    else if s[0] == CR && s[1] == LF then [LF] + CrLfToLf(s[2..])
    else [s[0]] + CrLfToLf(s[1..])
  }

  function CrToLf(s: Bytes): Bytes {
    if s == [] then [] else [if s[0] == CR then LF else s[0]] + CrToLf(s[1..])
  }

  /** CRLF, CR and LF each end a line: one pass from the left. */
  function Normalise(s: Bytes): Bytes {
    if s == [] then []
    else if s[0] != CR then [s[0]] + Normalise(s[1..])
    else [LF] + Normalise(if |s| > 1 && s[1] == LF then s[2..] else s[1..])
  }

  /** The two replacements made on each incoming chunk, CRLF before CR, amount to that one pass. */
  lemma {:induction false} TwoReplacementsNormalise(s: Bytes)
    ensures CrToLf(CrLfToLf(s)) == Normalise(s)
  {
    if |s| == 1 {
      assert CrToLf(s[1..]) == [] == Normalise(s[1..]);
    } else if |s| > 1 {
      var rest := if s[0] == CR && s[1] == LF then s[2..] else s[1..];
      var t := CrLfToLf(rest);
      TwoReplacementsNormalise(rest);
      assert CrLfToLf(s)[1..] == t;
    }
  }

  /** A chunk boundary between a and b falls inside a CRLF pair. */
  predicate CutsCrLf(a: Bytes, b: Bytes) {
    a != [] && b != [] && a[|a| - 1] == CR && b[0] == LF
  }

  lemma {:induction false} NormaliseIdentity(s: Bytes)
    requires CR !in s
    ensures Normalise(s) == s
  {
    if s == [] {
    } else {
      NormaliseIdentity(s[1..]);
      assert s == [s[0]] + s[1..];
    }
  }

  lemma NormaliseStep(s: Bytes, head: Bytes, rest: Bytes)
    requires s == head + rest
    requires head == [CR, LF] || (|head| == 1 && (head[0] == CR ==> rest == [] || rest[0] != LF))
    ensures Normalise(s) == [if head[0] == CR then LF else head[0]] + Normalise(rest)
  {
  }

  /** Normalising chunk by chunk loses nothing unless a cut falls inside a CRLF, and then it adds
      exactly one line end. */
  lemma {:induction false} NormaliseAppend(a: Bytes, b: Bytes)
    ensures !CutsCrLf(a, b) ==> Normalise(a + b) == Normalise(a) + Normalise(b)
    ensures CutsCrLf(a, b) ==> |Normalise(a + b)| + 1 == |Normalise(a)| + |Normalise(b)|
  {
    if a == [] {
      assert a + b == b;
    } else if |a| == 1 && CutsCrLf(a, b) {
      NormaliseStep(a + b, [CR, LF], b[1..]);
      NormaliseStep(b, [LF], b[1..]);
      NormaliseStep(a, a, []);
    } else {
      var head := if a[0] == CR && |a| > 1 && a[1] == LF then a[..2] else a[..1];
      var rest := a[|head|..];
      NormaliseStep(a, head, rest);
      NormaliseStep(a + b, head, rest + b);
      NormaliseAppend(rest, b);
      Assoc([if head[0] == CR then LF else head[0]], Normalise(rest), Normalise(b));
    }
  }

  // ---------- blocks ----------

  predicate BlankAt(s: Bytes, i: int) {
    0 <= i && i + 2 <= |s| && s[i] == LF && s[i + 1] == LF
  }

  /** Position of the first blank-line separator, if there is one. */
  function FirstBlank(s: Bytes): (i: Option<nat>)
    ensures i.Some? ==> i.value + 2 <= |s|
  {
    if |s| < 2 then None
    else if BlankAt(s, 0) then Some(0)
    else
      var r := FirstBlank(s[1..]);
      if r.None? then None else Some(r.value + 1)
  }

  lemma {:induction false} FirstBlankIsFirst(s: Bytes)
    ensures var i := FirstBlank(s);
            if i.None? then forall j :: !BlankAt(s, j)
            else BlankAt(s, i.value) && forall j :: BlankAt(s, j) ==> i.value <= j
  {
    if |s| < 2 || BlankAt(s, 0) {
    } else {
      FirstBlankIsFirst(s[1..]);
      assert forall j :: BlankAt(s, j) ==> BlankAt(s[1..], j - 1);
      var i := FirstBlank(s[1..]);
      if i.Some? {
        assert BlankAt(s, i.value + 1);
      }
    }
  }

  /** The complete blocks of s, without their separators. */
  function Blocks(s: Bytes): seq<Bytes>
    decreases |s|
  {
    match FirstBlank(s)
    case None => []
    case Some(i) => [s[..i]] + Blocks(s[i + 2..])
  }

  /** What is left of s after its last complete block. */
  function Rest(s: Bytes): Bytes
    decreases |s|
  {
    match FirstBlank(s)
    case None => s
    case Some(i) => Rest(s[i + 2..])
  }

  function JoinBlocks(blocks: seq<Bytes>): Bytes {
    if blocks == [] then [] else blocks[0] + BLANK + JoinBlocks(blocks[1..])
  }

  /** A block as the parser cuts it: its separator is the first blank line after its start. */
  predicate WholeBlock(b: Bytes) {
    FirstBlank(b + BLANK) == Some(|b|)
  }

  lemma FirstBlankAfter(b: Bytes, rest: Bytes)
    requires WholeBlock(b)
    ensures FirstBlank(b + BLANK + rest) == Some(|b|)
  {
    var s := b + BLANK + rest;
    FirstBlankIsFirst(b + BLANK);
    FirstBlankIsFirst(s);
    assert BlankAt(s, |b|);
    forall j | BlankAt(s, j) ensures j >= |b| {
      if j < |b| {
        assert BlankAt(b + BLANK, j);
      }
    }
  }

  lemma SplitFirst(b: Bytes, rest: Bytes)
    requires WholeBlock(b)
    ensures Blocks(b + BLANK + rest) == [b] + Blocks(rest)
    ensures Rest(b + BLANK + rest) == Rest(rest)
  {
    var s := b + BLANK + rest;
    FirstBlankAfter(b, rest);
    assert s[..|b|] == b && s[|b| + 2..] == rest;
  }

  lemma FirstBlankCutsWhole(s: Bytes)
    requires FirstBlank(s).Some?
    ensures var i := FirstBlank(s).value; WholeBlock(s[..i]) && s == s[..i] + BLANK + s[i + 2..]
  {
    var i := FirstBlank(s).value;
    var t := s[..i] + BLANK;
    FirstBlankIsFirst(s);
    FirstBlankIsFirst(t);
    assert BlankAt(t, i);
    forall j | BlankAt(t, j) ensures j >= i {
      if j < i {
        assert BlankAt(s, j);
      }
    }
  }

  lemma JoinCons(b: Bytes, blocks: seq<Bytes>)
    ensures JoinBlocks([b] + blocks) == b + BLANK + JoinBlocks(blocks)
  {
  }

  /** Cutting into blocks conserves the bytes. */
  lemma {:induction false} SplitConserves(s: Bytes)
    ensures JoinBlocks(Blocks(s)) + Rest(s) == s
    decreases |s|
  {
    match FirstBlank(s) {
      case None =>
      case Some(i) =>
        FirstBlankCutsWhole(s);
        var tail := s[i + 2..];
        SplitConserves(tail);
        JoinCons(s[..i], Blocks(tail));
        Assoc(s[..i] + BLANK, JoinBlocks(Blocks(tail)), Rest(tail));
    }
  }

  /** Cutting leaves no separator behind, and cuts whole blocks. */
  lemma {:induction false} SplitIsComplete(s: Bytes)
    ensures FirstBlank(Rest(s)).None?
    ensures forall b :: b in Blocks(s) ==> WholeBlock(b)
    decreases |s|
  {
    match FirstBlank(s) {
      case None =>
      case Some(i) =>
        FirstBlankCutsWhole(s);
        SplitIsComplete(s[i + 2..]);
    }
  }

  lemma {:induction false} SplitJoined(blocks: seq<Bytes>, rest: Bytes)
    requires forall b :: b in blocks ==> WholeBlock(b)
    ensures Blocks(JoinBlocks(blocks) + rest) == blocks + Blocks(rest)
    ensures Rest(JoinBlocks(blocks) + rest) == Rest(rest)
  {
    if blocks == [] {
      assert JoinBlocks(blocks) + rest == rest;
    } else {
      var tail := JoinBlocks(blocks[1..]) + rest;
      Assoc(blocks[0] + BLANK, JoinBlocks(blocks[1..]), rest);
      SplitFirst(blocks[0], tail);
      SplitJoined(blocks[1..], rest);
      Assoc([blocks[0]], blocks[1..], Blocks(rest));
      HeadTail(blocks);
    }
  }

  /** Cutting may be resumed: what was left over is cut again together with the next bytes. */
  lemma SplitAppend(s: Bytes, t: Bytes)
    ensures Blocks(s + t) == Blocks(s) + Blocks(Rest(s) + t)
    ensures Rest(s + t) == Rest(Rest(s) + t)
  {
    SplitConserves(s);
    SplitIsComplete(s);
    assert s + t == JoinBlocks(Blocks(s)) + (Rest(s) + t);
    SplitJoined(Blocks(s), Rest(s) + t);
  }

  // ---------- one block ----------

  function SplitLines(s: Bytes): (lines: seq<Bytes>)
    ensures |lines| >= 1
  {
    if s == [] then [[]]
    else
      var r := SplitLines(s[1..]);
      if s[0] == LF then [[]] + r else [[s[0]] + r[0]] + r[1..]
  }

  function JoinLines(lines: seq<Bytes>): Bytes {
    if lines == [] then []
    else if |lines| == 1 then lines[0]
    else lines[0] + [LF] + JoinLines(lines[1..])
  }

  predicate HasPrefix(s: Bytes, p: Bytes) {
    |p| <= |s| && s[..|p|] == p
  }

  predicate IsDataLine(line: Bytes) {
    HasPrefix(line, DATA_FIELD)
  }

  /** The value of a data line: exactly one leading space is dropped. */
  function DataValue(line: Bytes): Bytes
    requires IsDataLine(line)
  {
    var v := line[|DATA_FIELD|..];
    if v != [] && v[0] == SPACE then v[1..] else v
  }

  function DataLines(lines: seq<Bytes>): seq<Bytes> {
    if lines == [] then []
    else (if IsDataLine(lines[0]) then [DataValue(lines[0])] else []) + DataLines(lines[1..])
  }

  predicate IsSpaceByte(b: byte) {
    9 <= b <= 13 || 28 <= b <= 32
  }

  function StripLeft(s: Bytes): Bytes {
    if s != [] && IsSpaceByte(s[0]) then StripLeft(s[1..]) else s
  }

  function StripRight(s: Bytes): Bytes {
    if s != [] && IsSpaceByte(s[|s| - 1]) then StripRight(s[..|s| - 1]) else s
  }

  predicate IsDone(data: Bytes) {
    StripRight(StripLeft(data)) == DONE_MARK
  }

  function EventOf(dataLines: seq<Bytes>): Option<Event> {
    if dataLines == [] then None
    else Some(Event(JoinLines(dataLines), IsDone(JoinLines(dataLines)), None))
  }

  /** What one block means: the values of its data lines, joined; nothing if it has none. */
  function ParsedBlock(raw: Bytes): Option<Event> {
    EventOf(DataLines(SplitLines(raw)))
  }

  /** The event of a block, carrying the wire bytes it came from; none for a block without data. */
  function BlockEvents(block: Bytes): seq<Event> {
    var ev := ParsedBlock(block);
    if ev.None? then [] else [ev.value.(raw := Some(block + BLANK))]
  }

  function EventsOf(blocks: seq<Bytes>): seq<Event> {
    if blocks == [] then [] else BlockEvents(blocks[0]) + EventsOf(blocks[1..])
  }

  lemma EventsOfCons(b: Bytes, blocks: seq<Bytes>)
    ensures EventsOf([b] + blocks) == BlockEvents(b) + EventsOf(blocks)
  {
  }

  lemma {:induction false} DataLinesAppend(a: seq<Bytes>, b: seq<Bytes>)
    ensures DataLines(a + b) == DataLines(a) + DataLines(b)
  {
    if a == [] {
      assert a + b == b;
    } else {
      assert (a + b)[1..] == a[1..] + b;
      DataLinesAppend(a[1..], b);
    }
  }

  lemma {:induction false} EventsOfAppend(a: seq<Bytes>, b: seq<Bytes>)
    ensures EventsOf(a + b) == EventsOf(a) + EventsOf(b)
  {
    if a == [] {
      assert a + b == b;
    } else {
      assert (a + b)[1..] == a[1..] + b;
      EventsOfAppend(a[1..], b);
    }
  }

  // ---------- the parser ----------

  /** The buffer after a chunk has been taken in, before it is cut into blocks. */
  function Accept(buf: Bytes, chunk: Bytes): Bytes {
    if chunk == [] then buf
    else if buf != [] && buf[|buf| - 1] == CR then
      buf[..|buf| - 1] + [LF] + Normalise(if chunk[0] == LF then chunk[1..] else chunk)
    else buf + Normalise(chunk)
  }

  /** Events delivered by one feed, and the buffer it leaves. */
  function FedEvents(buf: Bytes, chunk: Bytes): seq<Event> {
    EventsOf(Blocks(Accept(buf, chunk)))
  }

  function FedBuffer(buf: Bytes, chunk: Bytes): Bytes {
    Rest(Accept(buf, chunk))
  }

  /** The same for successive feeds. */
  function FedAllEvents(buf: Bytes, chunks: seq<Bytes>): seq<Event>
    decreases |chunks|
  {
    if chunks == [] then []
    else FedEvents(buf, chunks[0]) + FedAllEvents(FedBuffer(buf, chunks[0]), chunks[1..])
  }

  function FedAllBuffer(buf: Bytes, chunks: seq<Bytes>): Bytes
    decreases |chunks|
  {
    if chunks == [] then buf else FedAllBuffer(FedBuffer(buf, chunks[0]), chunks[1..])
  }

  lemma CutStep(s: Bytes, at: nat)
    requires FirstBlank(s) == Some(at)
    ensures EventsOf(Blocks(s)) == BlockEvents(s[..at]) + EventsOf(Blocks(s[at + 2..]))
    ensures Rest(s) == Rest(s[at + 2..])
  {
  }

  predicate AllSpace(s: Bytes) {
    forall i :: 0 <= i < |s| ==> 9 <= s[i] <= 13 || s[i] == SPACE
  }

  function StripNewlines(s: Bytes): Bytes {
    if s != [] && s[|s| - 1] == LF then StripNewlines(s[..|s| - 1]) else s
  }

  /** The event a flush delivers from the unterminated rest. */
  function Flushed(buf: Bytes): Option<Event> {
    if AllSpace(buf) then None
    else
      var ev := ParsedBlock(buf);
      if ev.None? then None else Some(ev.value.(raw := Some(StripNewlines(buf) + BLANK)))
  }

  /** The data field of each line of a payload. */
  function RenderLines(lines: seq<Bytes>): Bytes {
    if lines == [] then [] else DATA_PREFIX + lines[0] + [LF] + RenderLines(lines[1..])
  }

  /** The wire form of an event: its original block when it has one. */
  function RenderEvent(ev: Event): Bytes {
    if ev.raw.Some? then ev.raw.value
    else if ev.done then DATA_PREFIX + DONE_MARK + BLANK
    else RenderLines(SplitLines(ev.data)) + [LF]
  }

  method ParseBlock(raw: Bytes) returns (ev: Option<Event>)
    ensures ev == ParsedBlock(raw)
  {
    var lines := SplitLines(raw);
    var dataLines: seq<Bytes> := [];
    for i := 0 to |lines|
      invariant dataLines == DataLines(lines[..i])
    {
      var line := lines[i];
      assert lines[..i + 1] == lines[..i] + [line];
      DataLinesAppend(lines[..i], [line]);
      assert DataLines([line]) == if IsDataLine(line) then [DataValue(line)] else [];
      if line == [] || line[0] == COLON {
        continue;
      }
      if HasPrefix(line, DATA_FIELD) {
        var value := line[5..];
        dataLines := dataLines + [if value != [] && value[0] == SPACE then value[1..] else value];
      }
    }
    assert lines[..|lines|] == lines;
    if dataLines == [] {
      return None;
    }
    var data := JoinLines(dataLines);
    return Some(Event(data, IsDone(data), None));
  }

  class SseParser {
    var buf: Bytes

    constructor ()
      ensures buf == []
    {
      buf := [];
    }

    method Feed(chunk: Bytes) returns (events: seq<Event>)
      modifies this
      ensures events == FedEvents(old(buf), chunk)
      ensures buf == FedBuffer(old(buf), chunk)
    {
      if chunk != [] {
        var incoming := chunk;
        if buf != [] && buf[|buf| - 1] == CR {
          buf := buf[..|buf| - 1] + [LF];
          if incoming[0] == LF {
            incoming := incoming[1..];
          }
        }
        TwoReplacementsNormalise(incoming);
        incoming := CrToLf(CrLfToLf(incoming));
        buf := buf + incoming;
      }
      ghost var whole := buf;
      assert whole == Accept(old(buf), chunk);
      events := [];
      while FirstBlank(buf).Some?
        invariant events + EventsOf(Blocks(buf)) == EventsOf(Blocks(whole))
        invariant Rest(buf) == Rest(whole)
        decreases |buf|
      {
        ghost var before, size := events, |buf|;
        var at := FirstBlank(buf).value;
        var raw := buf[..at];
        CutStep(buf, at);
        buf := buf[at + 2..];
        assert |buf| + at + 2 == size;
        var ev := ParseBlock(raw);
        if ev.Some? {
          ev := Some(ev.value.(raw := Some(raw + BLANK)));
          events := events + [ev.value];
        }
        assert events == before + BlockEvents(raw);
        Assoc(before, BlockEvents(raw), EventsOf(Blocks(buf)));
      }
    }

    method Flush() returns (ev: Option<Event>)
      modifies this
      ensures ev == Flushed(old(buf)) && buf == []
    {
      if AllSpace(buf) {
        buf := [];
        return None;
      }
      var raw := buf;
      buf := [];
      ev := ParseBlock(raw);
      if ev.Some? {
        ev := Some(ev.value.(raw := Some(StripNewlines(raw) + BLANK)));
      }
    }
  }
}
