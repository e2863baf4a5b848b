/** What the parser delivers, byte by byte: which lines carry data and what of them is the payload. */
module SseBytes {
  import opened Wrappers
  import opened Sequences
  import opened Sse
  import opened SseLaws
  import opened SseRoundTrip

  /** A line of an event: `data:` and a value, or a line that does not begin with those five bytes. */
  datatype Line = Data(value: Bytes) | Other(line: Bytes)

  /** The line begins with the bytes of `data:`. */
  predicate BeginsWithData(line: Bytes) {
    |line| >= 5 && line[0] == 100 && line[1] == 97 && line[2] == 116 && line[3] == 97 && line[4] == 58
  }

  function Wire(l: Line): Bytes {
    match l
    case Data(value) => [100, 97, 116, 97, 58] + value
    case Other(line) => line
  }

  function WireAll(ls: seq<Line>): (r: seq<Bytes>)
    ensures |r| == |ls| && forall k :: 0 <= k < |ls| ==> r[k] == Wire(ls[k])
  {
    if ls == [] then [] else [Wire(ls[0])] + WireAll(ls[1..])
  }

  /** Without line ends, not empty, and of one kind only. */
  predicate Proper(l: Line) {
    PlainLine(Wire(l)) && (l.Other? ==> l.line != [] && !BeginsWithData(l.line))
  }

  /** A value without the one space that may come first. */
  function Unspaced(value: Bytes): Bytes {
    if value != [] && value[0] == 32 then value[1..] else value
  }

  function Values(ls: seq<Line>): seq<Bytes> {
    if ls == [] then [] else (if ls[0].Data? then [Unspaced(ls[0].value)] else []) + Values(ls[1..])
  }

  lemma DataLinesBegin(line: Bytes)
    ensures IsDataLine(line) <==> BeginsWithData(line)
  {
    if |line| >= 5 {
      var start := line[..5];
      assert start == [start[0], start[1], start[2], start[3], start[4]];
    }
  }

  lemma WireOfOne(l: Line)
    requires Proper(l)
    ensures IsDataLine(Wire(l)) <==> l.Data?
    ensures l.Data? ==> DataValue(Wire(l)) == Unspaced(l.value)
  {
    DataLinesBegin(Wire(l));
    if l.Data? {
      assert Wire(l)[5..] == l.value;
    }
  }

  lemma {:induction false} DataOfWire(ls: seq<Line>)
    requires forall l :: l in ls ==> Proper(l)
    ensures DataLines(WireAll(ls)) == Values(ls)
  {
    if ls == [] {
    } else {
      DataOfWire(ls[1..]);
      assert ls[0] in ls;
      WireOfOne(ls[0]);
      assert WireAll(ls)[1..] == WireAll(ls[1..]);
    }
  }

  lemma ProperBlock(ls: seq<Line>)
    requires ls != [] && forall l :: l in ls ==> Proper(l)
    ensures var b := JoinLines(WireAll(ls)); WholeBlock(b) && CR !in b && DataLines(SplitLines(b)) == Values(ls)
  {
    var lines := WireAll(ls);
    forall m | m in lines ensures LF !in m && CR !in m && m != [] {
      var k :| 0 <= k < |lines| && m == lines[k];
      assert ls[k] in ls;
    }
    FullLinesAreWhole(lines);
    SplitJoinedLines(lines);
    JoinedLinesHaveNoCr(lines);
    DataOfWire(ls);
  }

  /** Any lines, ended by a blank one, are one event whose payload is the values of the data lines, each in a
      line of its own; or no event if none of them is a data line. Nothing is left over. */
  lemma LinesAreOneEvent(ls: seq<Line>)
    requires ls != [] && forall l :: l in ls ==> Proper(l)
    ensures var chunk := JoinLines(WireAll(ls)) + [10, 10];
      && Payloads(FedEvents([], chunk)) == (if Values(ls) == [] then [] else [JoinLines(Values(ls))])
      && FedBuffer([], chunk) == []
  {
    var b := JoinLines(WireAll(ls));
    ProperBlock(ls);
    NormaliseIdentity(b + BLANK);
    AcceptSettled([], b + BLANK);
    Units(b + BLANK);
    OneBlock(b);
    SplitFirst(b, []);
    assert b + BLANK + [] == b + BLANK;
  }

  lemma OneLine(l: Line)
    ensures JoinLines(WireAll([l])) == Wire(l)
    ensures Values([l]) == if l.Data? then [Unspaced(l.value)] else []
  {
  }

  lemma TwoLines(l: Line, m: Line)
    ensures JoinLines(WireAll([l, m])) == Wire(l) + [LF] + Wire(m)
    ensures Values([l, m]) == Values([l]) + Values([m])
  {
    var both, last: seq<Line> := [l, m], [m];
    assert both[1..] == last;
    assert WireAll(both)[1..] == WireAll(last);
    OneLine(l);
    OneLine(m);
  }

  /** `data:` with or without a space, anything, and a blank line are one event, the anything being its
      payload. */
  lemma DataLineIsOneEvent(d: Bytes)
    requires PlainLine(d)
    ensures Payloads(FedEvents([], [100, 97, 116, 97, 58] + d + [10, 10]))
         == [if d != [] && d[0] == 32 then d[1..] else d]
  {
    var l := Data(d);
    assert Proper(l);
    OneLine(l);
    LinesAreOneEvent([l]);
  }

  /** A comment, or a line of any other field, gives no event alone, and before or after a data line leaves the
      payload as it is. */
  lemma OtherLinesAddNothing(other: Bytes, d: Bytes)
    requires PlainLine(other) && other != [] && !BeginsWithData(other) && PlainLine(d)
    ensures FedEvents([], other + [10, 10]) == []
    ensures var data, payload := [100, 97, 116, 97, 58] + d, [if d != [] && d[0] == 32 then d[1..] else d];
      && Payloads(FedEvents([], other + [10] + data + [10, 10])) == payload
      && Payloads(FedEvents([], data + [10] + other + [10, 10])) == payload
  {
    var l, m := Other(other), Data(d);
    assert Proper(l) && Proper(m);
    OneLine(l);
    OneLine(m);
    TwoLines(l, m);
    TwoLines(m, l);
    LinesAreOneEvent([l]);
    LinesAreOneEvent([l, m]);
    LinesAreOneEvent([m, l]);
    NoPayloads(FedEvents([], other + [10, 10]));
  }

  lemma NoPayloads(events: seq<Event>)
    ensures Payloads(events) == [] <==> events == []
  {
  }

  // ---------- the end of a stream ----------

  lemma TailParses(d: Bytes, end: Bytes)
    requires PlainLine(d) && (end == [] || end == [LF])
    ensures DataLines(SplitLines([100, 97, 116, 97, 58] + d + end)) == [Unspaced(d)]
  {
    var line := Wire(Data(d));
    WireOfOne(Data(d));
    SplitOneLine(line);
    assert DataLines([line]) == [Unspaced(d)];
    if end == [] {
      Units(line);
    } else {
      SplitLinesAppend(line, []);
      Units(line + [LF]);
      DataLinesAppend([line], [[]]);
      assert DataLines([[]]) == [];
    }
  }

  lemma TailIsTrimmed(line: Bytes, end: Bytes)
    requires line != [] && line[|line| - 1] != LF && (end == [] || end == [LF])
    ensures StripNewlines(line + end) == line
  {
    if end == [] {
      Units(line);
    } else {
      assert (line + end)[..|line|] == line;
    }
  }

  /** A data line that the stream ends in, with or without its line end, is delivered by the flush, and handed
      on with the blank line that it lacks. */
  lemma TailIsOneEvent(d: Bytes, end: Bytes)
    requires PlainLine(d) && (end == [] || end == [10])
    ensures var line, ev := [100, 97, 116, 97, 58] + d, Flushed([100, 97, 116, 97, 58] + d + end);
      && ev.Some?
      && ev.value.data == (if d != [] && d[0] == 32 then d[1..] else d)
      && ev.value.raw == Some(line + [10, 10])
  {
    var line := Wire(Data(d));
    assert line[|line| - 1] != LF by { assert d != [] ==> d[|d| - 1] in d; }
    TailParses(d, end);
    TailIsTrimmed(line, end);
    assert (line + end)[0] == 100;
  }

  // ---------- the end mark ----------

  predicate Spaces(s: Bytes) {
    forall i :: 0 <= i < |s| ==> 9 <= s[i] <= 13 || 28 <= s[i] <= 32
  }

  /** How many bytes are stripped in front. */
  lemma {:induction false} StripLeftSplits(s: Bytes) returns (n: nat)
    ensures n <= |s| && Spaces(s[..n]) && StripLeft(s) == s[n..]
  {
    n := 0;
    if s != [] && IsSpaceByte(s[0]) {
      var k := StripLeftSplits(s[1..]);
      n := k + 1;
      assert s[..n] == [s[0]] + s[1..][..k];
    }
  }

  /** How many bytes are left when those behind are stripped. */
  lemma {:induction false} StripRightSplits(s: Bytes) returns (n: nat)
    ensures n <= |s| && Spaces(s[n..]) && StripRight(s) == s[..n]
  {
    n := |s|;
    if s != [] && IsSpaceByte(s[|s| - 1]) {
      var t := s[..|s| - 1];
      n := StripRightSplits(t);
      assert s[n..] == t[n..] + [s[|s| - 1]];
      assert t[..n] == s[..n];
    }
  }

  lemma {:induction false} StripLeftOf(a: Bytes, rest: Bytes)
    requires Spaces(a) && rest != [] && !IsSpaceByte(rest[0])
    ensures StripLeft(a + rest) == rest
  {
    if a == [] {
      Units(rest);
    } else {
      assert (a + rest)[1..] == a[1..] + rest;
      StripLeftOf(a[1..], rest);
    }
  }

  lemma {:induction false} StripRightOf(rest: Bytes, b: Bytes)
    requires Spaces(b) && rest != [] && !IsSpaceByte(rest[|rest| - 1])
    ensures StripRight(rest + b) == rest
  {
    if b == [] {
      Units(rest);
    } else {
      var c := b[..|b| - 1];
      assert (rest + b)[..|rest + b| - 1] == rest + c;
      StripRightOf(rest, c);
    }
  }

  /** The payload is the six bytes of `[DONE]` from i on, and white space around them. */
  predicate MarkAt(data: Bytes, i: int) {
    && 0 <= i && i + 6 <= |data| && data[i..i + 6] == [91, 68, 79, 78, 69, 93]
    && Spaces(data[..i]) && Spaces(data[i + 6..])
  }

  lemma DoneHasMark(data: Bytes)
    requires IsDone(data)
    ensures exists i :: MarkAt(data, i)
  {
    var n := StripLeftSplits(data);
    var t := data[n..];
    var k := StripRightSplits(t);
    assert |t[..k]| == |DONE_MARK| == 6;
    assert t[..6] == data[n..n + 6] && t[6..] == data[n + 6..];
    assert MarkAt(data, n);
  }

  lemma MarkIsDone(data: Bytes, i: int)
    requires MarkAt(data, i)
    ensures IsDone(data)
  {
    var a, mark, b := data[..i], data[i..i + 6], data[i + 6..];
    assert data == a + (mark + b);
    assert mark[0] == 91 && mark[5] == 93;
    StripLeftOf(a, mark + b);
    StripRightOf(mark, b);
  }

  /** What ends a stream: those six bytes, whatever ASCII white space surrounds them, and nothing else. */
  lemma DoneExactly(data: Bytes)
    ensures IsDone(data) <==> exists i :: MarkAt(data, i)
  {
    if IsDone(data) {
      DoneHasMark(data);
    }
    if i :| MarkAt(data, i) {
      MarkIsDone(data, i);
    }
  }
}
