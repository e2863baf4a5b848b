/** Printing and parsing undo each other, and where splitting a stream does harm. */
module SseRoundTrip {
  import opened Wrappers
  import opened Sequences
  import opened Sse
  import opened SseLaws

  lemma {:induction false} JoinSplitLines(s: Bytes)
    ensures JoinLines(SplitLines(s)) == s
  {
    if s == [] {
    } else {
      var r := SplitLines(s[1..]);
      JoinSplitLines(s[1..]);
      if s[0] == LF {
        assert ([[]] + r)[1..] == r;
        assert [] + [LF] + s[1..] == s;
      } else {
        assert ([[s[0]] + r[0]] + r[1..])[1..] == r[1..];
        if |r| == 1 {
          assert [s[0]] + s[1..] == s;
        } else {
          assert [s[0]] + r[0] + [LF] + JoinLines(r[1..]) == [s[0]] + (r[0] + [LF] + JoinLines(r[1..]));
        }
      }
    }
  }

  lemma {:induction false} SplitLinesHaveNoLf(s: Bytes)
    ensures forall l :: l in SplitLines(s) ==> LF !in l && forall c :: c in l ==> c in s
  {
    if s == [] {
    } else {
      SplitLinesHaveNoLf(s[1..]);
      var r := SplitLines(s[1..]);
      assert r[0] in r;
      assert forall l :: l in r[1..] ==> l in r;
    }
  }

  lemma {:induction false} SplitOneLine(l: Bytes)
    requires LF !in l
    ensures SplitLines(l) == [l]
  {
    if l == [] {
    } else {
      SplitOneLine(l[1..]);
      assert [l[0]] + l[1..] == l;
    }
  }

  lemma {:induction false} SplitJoinedLines(ls: seq<Bytes>)
    requires ls != [] && forall l :: l in ls ==> LF !in l
    ensures SplitLines(JoinLines(ls)) == ls
  {
    if |ls| == 1 {
      SplitOneLine(ls[0]);
    } else {
      SplitOneLine(ls[0]);
      SplitJoinedLines(ls[1..]);
      SplitLinesAppend(ls[0], JoinLines(ls[1..]));
      assert [ls[0]] + ls[1..] == ls;
    }
  }

  /** Non-empty lines make up a block that no separator cuts. */
  lemma {:induction false} FullLinesAreWhole(ls: seq<Bytes>)
    requires ls != [] && forall l :: l in ls ==> LF !in l && l != []
    ensures WholeBlock(JoinLines(ls)) && JoinLines(ls) != [] && JoinLines(ls)[0] != LF
  {
    var b := JoinLines(ls);
    var s := b + BLANK;
    var l := ls[0];
    assert l in ls && l[0] in l;
    assert forall m :: m in ls[1..] ==> m in ls;
    var n := |l|;
    if |ls| > 1 {
      FullLinesAreWhole(ls[1..]);
      FirstBlankIsFirst(JoinLines(ls[1..]) + BLANK);
    }
    forall k | 0 <= k < n ensures s[k] != LF {
      assert l[k] in l;
    }
    forall j | BlankAt(s, j) ensures j >= |b| {
      assert j >= n;
      if |ls| > 1 && j < |b| {
        var t := JoinLines(ls[1..]);
        assert s[n + 1] == t[0];
        assert j > n;
        assert forall k :: 0 <= k < |t + BLANK| ==> s[n + 1 + k] == (t + BLANK)[k];
        assert BlankAt(t + BLANK, j - n - 1);
      }
    }
    FirstBlankIsFirst(s);
    assert BlankAt(s, |b|);
  }

  function Prefixed(ls: seq<Bytes>): (r: seq<Bytes>)
    ensures |r| == |ls| && forall k :: 0 <= k < |r| ==> r[k] == DATA_PREFIX + ls[k]
  {
    if ls == [] then [] else [DATA_PREFIX + ls[0]] + Prefixed(ls[1..])
  }

  lemma {:induction false} DataOfPrefixed(ls: seq<Bytes>)
    ensures DataLines(Prefixed(ls)) == ls
  {
    if ls == [] {
    } else {
      DataOfPrefixed(ls[1..]);
      var line := DATA_PREFIX + ls[0];
      assert line[..5] == DATA_FIELD;
      assert line[5..] == [SPACE] + ls[0];
      assert DataValue(line) == ls[0];
      assert Prefixed(ls)[1..] == Prefixed(ls[1..]);
      assert [ls[0]] + ls[1..] == ls;
    }
  }

  lemma {:induction false} RenderLinesJoins(ls: seq<Bytes>)
    requires ls != []
    ensures RenderLines(ls) == JoinLines(Prefixed(ls)) + [LF]
  {
    var line := DATA_PREFIX + ls[0];
    if |ls| == 1 {
      assert RenderLines(ls[1..]) == [];
    } else {
      RenderLinesJoins(ls[1..]);
      assert Prefixed(ls)[1..] == Prefixed(ls[1..]);
      Assoc(line + [LF], JoinLines(Prefixed(ls[1..])), [LF]);
    }
  }

  /** The payload a reader gets back: the end mark is always printed in its bare form. */
  function PrintedData(ev: Event): Bytes {
    if ev.done then DONE_MARK else ev.data
  }

  function PrintedAll(events: seq<Event>): seq<Bytes> {
    if events == [] then [] else [PrintedData(events[0])] + PrintedAll(events[1..])
  }

  function PrintedBlock(data: Bytes): Bytes {
    JoinLines(Prefixed(SplitLines(data)))
  }

  lemma PrintedBlockIsWhole(data: Bytes)
    ensures WholeBlock(PrintedBlock(data))
    ensures SplitLines(PrintedBlock(data)) == Prefixed(SplitLines(data))
  {
    var ls := SplitLines(data);
    SplitLinesHaveNoLf(data);
    forall l | l in Prefixed(ls) ensures LF !in l && l != [] {
      var k :| 0 <= k < |ls| && l == DATA_PREFIX + ls[k];
    }
    FullLinesAreWhole(Prefixed(ls));
    SplitJoinedLines(Prefixed(ls));
  }

  lemma PrintedBlockRenders(data: Bytes)
    ensures RenderLines(SplitLines(data)) + [LF] == PrintedBlock(data) + BLANK
  {
    RenderLinesJoins(SplitLines(data));
    Assoc(PrintedBlock(data), [LF], [LF]);
  }

  lemma PrintedBlockParses(data: Bytes)
    ensures ParsedBlock(PrintedBlock(data)) == Some(Event(data, IsDone(data), None))
  {
    PrintedBlockIsWhole(data);
    DataOfPrefixed(SplitLines(data));
    JoinSplitLines(data);
  }

  lemma RenderIsBlock(ev: Event)
    requires ev.raw.None?
    ensures RenderEvent(ev) == PrintedBlock(PrintedData(ev)) + BLANK
  {
    PrintedBlockRenders(PrintedData(ev));
    if ev.done {
      SplitOneLine(DONE_MARK);
      assert RenderLines([DONE_MARK]) == DATA_PREFIX + DONE_MARK + [LF] + RenderLines([]);
      assert DATA_PREFIX + DONE_MARK + [LF] + [] + [LF] == DATA_PREFIX + DONE_MARK + BLANK;
    }
  }

  lemma {:induction false} RelayOfPrinted(events: seq<Event>)
    requires forall e :: e in events ==> e.raw.None?
    ensures Payloads(EventsOf(Blocks(Relay(events)))) == PrintedAll(events)
    ensures Rest(Relay(events)) == []
  {
    if events == [] {
    } else {
      var data := PrintedData(events[0]);
      var b, tail := PrintedBlock(data), Relay(events[1..]);
      RenderIsBlock(events[0]);
      PrintedBlockIsWhole(data);
      PrintedBlockParses(data);
      RelayOfPrinted(events[1..]);
      SplitFirst(b, tail);
      EventsOfCons(b, Blocks(tail));
      PayloadsAppend(BlockEvents(b), EventsOf(Blocks(tail)));
    }
  }

  // ---------- carriage returns ----------

  lemma {:induction false} PrefixedKeepsCr(ls: seq<Bytes>)
    requires forall l :: l in ls ==> CR !in l
    ensures CR !in JoinLines(Prefixed(ls))
  {
    if ls == [] {
    } else {
      PrefixedKeepsCr(ls[1..]);
      assert Prefixed(ls)[1..] == Prefixed(ls[1..]);
      assert ls[0] in ls;
    }
  }

  lemma {:induction false} RelayHasNoCr(events: seq<Event>)
    requires forall e :: e in events ==> e.raw.None? && CR !in PrintedData(e)
    ensures CR !in Relay(events)
  {
    if events == [] {
    } else {
      var data := PrintedData(events[0]);
      RelayHasNoCr(events[1..]);
      RenderIsBlock(events[0]);
      SplitLinesHaveNoLf(data);
      PrefixedKeepsCr(SplitLines(data));
    }
  }

  lemma {:induction false} JoinedLinesHaveNoCr(ls: seq<Bytes>)
    requires forall l :: l in ls ==> CR !in l
    ensures CR !in JoinLines(ls)
  {
    if |ls| == 1 {
      assert ls[0] in ls;
    } else if ls != [] {
      assert ls[0] in ls;
      JoinedLinesHaveNoCr(ls[1..]);
    }
  }

  lemma {:induction false} DataLinesHaveNoCr(ls: seq<Bytes>)
    requires forall l :: l in ls ==> CR !in l
    ensures forall d :: d in DataLines(ls) ==> CR !in d
  {
    if ls == [] {
    } else {
      assert ls[0] in ls;
      DataLinesHaveNoCr(ls[1..]);
    }
  }

  lemma {:induction false} PayloadsHaveNoCr(blocks: seq<Bytes>)
    requires forall b :: b in blocks ==> CR !in b
    ensures forall d :: d in Payloads(EventsOf(blocks)) ==> CR !in d
  {
    if blocks == [] {
    } else {
      var b := blocks[0];
      PayloadsHaveNoCr(blocks[1..]);
      SplitLinesHaveNoLf(b);
      DataLinesHaveNoCr(SplitLines(b));
      JoinedLinesHaveNoCr(DataLines(SplitLines(b)));
      PayloadsAppend(BlockEvents(b), EventsOf(blocks[1..]));
      assert [b] + blocks[1..] == blocks;
    }
  }

  /** No payload a parser delivers holds a carriage return. */
  lemma ParsedPayloadsHaveNoCr(chunk: Bytes)
    ensures forall d :: d in Payloads(FedEvents([], chunk)) ==> CR !in d
  {
    AcceptSettled([], chunk);
    BlocksAreParts(Accept([], chunk));
    PayloadsHaveNoCr(Blocks(Accept([], chunk)));
  }

  /** Round trip: parsing the printed form of events gives back their payloads, in order and with
      nothing left over, exactly when no payload holds a carriage return. */
  lemma PrintThenParse(events: seq<Event>)
    requires forall e :: e in events ==> e.raw.None?
    ensures Payloads(FedEvents([], Relay(events))) == PrintedAll(events)
            <==> forall d :: d in PrintedAll(events) ==> CR !in d
    ensures (forall d :: d in PrintedAll(events) ==> CR !in d) ==> FedBuffer([], Relay(events)) == []
  {
    ParsedPayloadsHaveNoCr(Relay(events));
    if forall d :: d in PrintedAll(events) ==> CR !in d {
      PrintedAllHolds(events);
      RelayHasNoCr(events);
      AcceptSettled([], Relay(events));
      NormaliseIdentity(Relay(events));
      Units(Relay(events));
      RelayOfPrinted(events);
    }
  }

  lemma {:induction false} PrintedAllHolds(events: seq<Event>)
    ensures forall e :: e in events ==> PrintedData(e) in PrintedAll(events)
  {
    if events == [] {
    } else {
      PrintedAllHolds(events[1..]);
    }
  }

  // ---------- cutting inside CRLF ----------

  predicate PlainLine(d: Bytes) {
    LF !in d && CR !in d
  }

  lemma NormalisePlain(line: Bytes, rest: Bytes)
    requires CR !in line
    ensures Normalise(line + rest) == line + Normalise(rest)
  {
    assert line != [] ==> line[|line| - 1] in line;
    NormaliseAppend(line, rest);
    NormaliseIdentity(line);
  }

  lemma NormaliseEnds()
    ensures Normalise([CR]) == [LF] && Normalise([CR, LF, CR, LF]) == BLANK
  {
  }

  lemma NormaliseWhole(l: Bytes, m: Bytes)
    requires CR !in l && CR !in m
    ensures Normalise(l + ([CR, LF] + (m + [CR, LF, CR, LF]))) == l + [LF] + m + BLANK
  {
    var tail := m + [CR, LF, CR, LF];
    NormaliseEnds();
    NormalisePlain(m, [CR, LF, CR, LF]);
    NormaliseStep([CR, LF] + tail, [CR, LF], tail);
    NormalisePlain(l, [CR, LF] + tail);
    assert l + ([LF] + (m + BLANK)) == l + [LF] + m + BLANK;
  }

  lemma NormalisePieces(l: Bytes, m: Bytes)
    requires CR !in l && CR !in m
    ensures NormaliseEach([l + [CR], [LF] + (m + [CR, LF, CR, LF])]) == l + BLANK + (m + BLANK + [])
  {
    var p, q := l + [CR], [LF] + (m + [CR, LF, CR, LF]);
    NormaliseEnds();
    NormalisePlain(l, [CR]);
    NormalisePlain(m, [CR, LF, CR, LF]);
    NormaliseStep(q, [LF], m + [CR, LF, CR, LF]);
    assert [p, q][1..] == [q] && [q][1..] == [];
    assert NormaliseEach([q]) == Normalise(q) + [];
    assert l + [LF] + ([LF] + (m + BLANK) + []) == l + BLANK + (m + BLANK + []);
  }

  lemma OneBlock(b: Bytes)
    requires WholeBlock(b)
    ensures Blocks(b + BLANK + []) == [b]
    ensures EventsOf([b]) == BlockEvents(b)
    ensures ParsedBlock(b).Some? ==> Payloads(BlockEvents(b)) == [ParsedBlock(b).value.data]
  {
    SplitFirst(b, []);
    assert [b][1..] == [];
    Units(BlockEvents(b));
  }

  lemma TwoBlocks(l: Bytes, m: Bytes)
    requires WholeBlock(l) && WholeBlock(m) && ParsedBlock(l).Some? && ParsedBlock(m).Some?
    ensures Payloads(EventsOf(Blocks(l + BLANK + (m + BLANK + []))))
         == [ParsedBlock(l).value.data, ParsedBlock(m).value.data]
  {
    SplitFirst(l, m + BLANK + []);
    OneBlock(l);
    OneBlock(m);
    EventsOfCons(l, [m]);
    PayloadsAppend(BlockEvents(l), EventsOf([m]));
  }

  lemma PrintedLine(d: Bytes)
    requires PlainLine(d)
    ensures PrintedBlock(d) == DATA_PREFIX + d
  {
    SplitOneLine(d);
  }

  lemma PrintedTwoLines(d: Bytes, e: Bytes)
    requires PlainLine(d) && PlainLine(e)
    ensures PrintedBlock(d + [LF] + e) == DATA_PREFIX + d + [LF] + (DATA_PREFIX + e)
  {
    SplitOneLine(d);
    SplitOneLine(e);
    SplitLinesAppend(d, e);
    assert [d] + [e] == [d, e];
    var l, m := DATA_PREFIX + d, DATA_PREFIX + e;
    assert SplitLines(d + [LF] + e) == [d, e];
    assert [d, e][1..] == [e] && Prefixed([e]) == [m];
    assert Prefixed([d, e]) == [l] + [m] == [l, m];
    assert [l, m][1..] == [m];
    assert JoinLines([l, m]) == l + [LF] + JoinLines([m]);
  }

  /** Fed at once, two data lines ended by CRLF are one event of two lines. */
  lemma UncutIsOneEvent(d: Bytes, e: Bytes)
    requires PlainLine(d) && PlainLine(e)
    ensures Payloads(FedEvents([], (DATA_PREFIX + d) + ([CR, LF] + ((DATA_PREFIX + e) + [CR, LF, CR, LF]))))
         == [d + [LF] + e]
  {
    var l, m := DATA_PREFIX + d, DATA_PREFIX + e;
    var whole := l + ([CR, LF] + (m + [CR, LF, CR, LF]));
    AcceptSettled([], whole);
    NormaliseWhole(l, m);
    PrintedTwoLines(d, e);
    var b := PrintedBlock(d + [LF] + e);
    PrintedBlockIsWhole(d + [LF] + e);
    PrintedBlockParses(d + [LF] + e);
    assert [] + Normalise(whole) == b + BLANK + [];
    OneBlock(b);
  }

  /** Cut between the CR and the LF, the same bytes are two events: a split CRLF is not harmless. */
  lemma CutInCrLfIsTwoEvents(d: Bytes, e: Bytes)
    requires PlainLine(d) && PlainLine(e)
    ensures Payloads(FedAllEvents([], [(DATA_PREFIX + d) + [CR],
                                       [LF] + ((DATA_PREFIX + e) + [CR, LF, CR, LF])])) == [d, e]
  {
    var l, m := DATA_PREFIX + d, DATA_PREFIX + e;
    var pieces := [l + [CR], [LF] + (m + [CR, LF, CR, LF])];
    FedAllCutsTheWhole([], pieces);
    NormalisePieces(l, m);
    Units(NormaliseEach(pieces));
    PrintedLine(d);
    PrintedLine(e);
    PrintedBlockIsWhole(d);
    PrintedBlockIsWhole(e);
    PrintedBlockParses(d);
    PrintedBlockParses(e);
    TwoBlocks(l, m);
  }
}
