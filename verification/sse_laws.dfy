/** What the parser and the printer of Sse promise over whole streams. */
module SseLaws {
  import opened Wrappers
  import opened Sequences
  import opened Sse

  /** What a parser's buffer looks like between two feeds. */
  predicate Settled(buf: Bytes) {
    CR !in buf && FirstBlank(buf).None?
  }

  lemma AcceptSettled(buf: Bytes, chunk: Bytes)
    requires CR !in buf
    ensures Accept(buf, chunk) == buf + Normalise(chunk)
    ensures CR !in Accept(buf, chunk)
  {
  }

  lemma {:induction false} RestIsSuffix(s: Bytes)
    ensures forall b :: b in Rest(s) ==> b in s
    decreases |s|
  {
    if FirstBlank(s).None? {
    } else {
      RestIsSuffix(s[FirstBlank(s).value + 2..]);
    }
  }

  lemma SettledStep(buf: Bytes, chunk: Bytes)
    requires Settled(buf)
    ensures Settled(FedBuffer(buf, chunk))
  {
    AcceptSettled(buf, chunk);
    RestIsSuffix(Accept(buf, chunk));
    SplitIsComplete(Accept(buf, chunk));
  }

  /** Whatever the chunks and wherever they are cut, the buffer never holds a carriage return or a
      complete block between feeds, so the branch for a buffered CR is never taken. */
  lemma {:induction false} BufferStaysSettled(buf: Bytes, chunks: seq<Bytes>)
    requires Settled(buf)
    ensures Settled(FedAllBuffer(buf, chunks))
    decreases |chunks|
  {
    if chunks == [] {
    } else {
      SettledStep(buf, chunks[0]);
      BufferStaysSettled(FedBuffer(buf, chunks[0]), chunks[1..]);
    }
  }

  // ---------- chunking ----------

  /** No boundary between the chunks (after the bytes already seen) falls inside a CRLF pair. */
  predicate CleanCuts(seen: Bytes, chunks: seq<Bytes>)
    decreases |chunks|
  {
    chunks == [] || (!CutsCrLf(seen, chunks[0]) && CleanCuts(seen + chunks[0], chunks[1..]))
  }

  function NormaliseEach(chunks: seq<Bytes>): Bytes {
    if chunks == [] then [] else Normalise(chunks[0]) + NormaliseEach(chunks[1..])
  }

  lemma {:induction false} NormaliseChunks(seen: Bytes, chunks: seq<Bytes>)
    ensures |Normalise(seen)| + |NormaliseEach(chunks)| >= |Normalise(seen + Flatten(chunks))|
    ensures CleanCuts(seen, chunks)
            <==> |Normalise(seen)| + |NormaliseEach(chunks)| == |Normalise(seen + Flatten(chunks))|
    ensures CleanCuts(seen, chunks)
            ==> Normalise(seen) + NormaliseEach(chunks) == Normalise(seen + Flatten(chunks))
    decreases |chunks|
  {
    if chunks == [] {
      assert seen + Flatten(chunks) == seen;
    } else {
      var c, more := chunks[0], chunks[1..];
      NormaliseAppend(seen, c);
      NormaliseChunks(seen + c, more);
      Assoc(seen, c, Flatten(more));
      Assoc(Normalise(seen), Normalise(c), NormaliseEach(more));
    }
  }

  /** The bytes the parser works on are those of the whole stream exactly when no cut falls inside
      a CRLF pair. */
  lemma CleanCutsExactly(chunks: seq<Bytes>)
    ensures CleanCuts([], chunks) <==> NormaliseEach(chunks) == Normalise(Flatten(chunks))
  {
    NormaliseChunks([], chunks);
    assert [] + Flatten(chunks) == Flatten(chunks);
    assert Normalise([]) + NormaliseEach(chunks) == NormaliseEach(chunks);
  }

  lemma {:induction false} FedAllCutsTheWhole(buf: Bytes, chunks: seq<Bytes>)
    requires Settled(buf)
    ensures FedAllEvents(buf, chunks) == EventsOf(Blocks(buf + NormaliseEach(chunks)))
    ensures FedAllBuffer(buf, chunks) == Rest(buf + NormaliseEach(chunks))
    decreases |chunks|
  {
    if chunks == [] {
      assert buf + NormaliseEach(chunks) == buf;
    } else {
      var first := buf + Normalise(chunks[0]);
      var later := NormaliseEach(chunks[1..]);
      AcceptSettled(buf, chunks[0]);
      SettledStep(buf, chunks[0]);
      FedAllCutsTheWhole(Rest(first), chunks[1..]);
      SplitAppend(first, later);
      EventsOfAppend(Blocks(first), Blocks(Rest(first) + later));
      Assoc(buf, Normalise(chunks[0]), later);
    }
  }

  /** Chunking independence: feeding a stream in pieces gives the events, in order and with their
      wire bytes, and the buffer that feeding it at once gives. */
  lemma ChunkingIndependence(buf: Bytes, chunks: seq<Bytes>)
    requires Settled(buf) && CleanCuts([], chunks)
    ensures FedAllEvents(buf, chunks) == FedEvents(buf, Flatten(chunks))
    ensures FedAllBuffer(buf, chunks) == FedBuffer(buf, Flatten(chunks))
  {
    FedAllCutsTheWhole(buf, chunks);
    CleanCutsExactly(chunks);
    AcceptSettled(buf, Flatten(chunks));
  }

  // ---------- line by line ----------

  /** The dispatch loop of section 9.2.6, restricted to data fields: values collect until a blank
      line dispatches them as one event. */
  function Dispatch(lines: seq<Bytes>, pending: seq<Bytes>): seq<Bytes> {
    if lines == [] then []
    else if lines[0] == [] then
      (if pending == [] then [] else [JoinLines(pending)]) + Dispatch(lines[1..], [])
    else Dispatch(lines[1..], pending + DataLines([lines[0]]))
  }

  /** The lines of s that have been ended. */
  function EndedLines(s: Bytes): seq<Bytes> {
    SplitLines(s)[..|SplitLines(s)| - 1]
  }

  function Payloads(events: seq<Event>): seq<Bytes> {
    if events == [] then [] else [events[0].data] + Payloads(events[1..])
  }

  lemma {:induction false} PayloadsAppend(a: seq<Event>, b: seq<Event>)
    ensures Payloads(a + b) == Payloads(a) + Payloads(b)
  {
    if a == [] {
      assert a + b == b;
    } else {
      assert (a + b)[1..] == a[1..] + b;
      PayloadsAppend(a[1..], b);
    }
  }

  lemma {:induction false} SplitLinesAppend(a: Bytes, b: Bytes)
    ensures SplitLines(a + [LF] + b) == SplitLines(a) + SplitLines(b)
  {
    var s := a + [LF] + b;
    if a == [] {
      assert s[0] == LF && s[1..] == b;
    } else {
      assert s[0] == a[0] && s[1..] == a[1..] + [LF] + b;
      SplitLinesAppend(a[1..], b);
      var r := SplitLines(a[1..]);
      assert (r + SplitLines(b))[0] == r[0];
      assert (r + SplitLines(b))[1..] == r[1..] + SplitLines(b);
      if a[0] == LF {
        Assoc([[]], r, SplitLines(b));
      } else {
        Assoc([[a[0]] + r[0]], r[1..], SplitLines(b));
      }
    }
  }

  /** Inside a whole block only the first line can be empty. */
  lemma {:induction false} InnerLinesNotEmpty(b: Bytes)
    requires WholeBlock(b)
    ensures forall k :: 1 <= k < |SplitLines(b)| ==> SplitLines(b)[k] != []
  {
    FirstBlankIsFirst(b + BLANK);
    if b == [] {
    } else {
      var t := b[1..];
      FirstBlankIsFirst(t + BLANK);
      assert BlankAt(t + BLANK, |t|);
      assert (t + BLANK) == (b + BLANK)[1..];
      forall j | BlankAt(t + BLANK, j) ensures j >= |t| {
        assert BlankAt(b + BLANK, j + 1);
      }
      InnerLinesNotEmpty(t);
      if b[0] == LF {
        assert !BlankAt(b + BLANK, 0);
        assert t != [] && t[0] != LF;
        assert SplitLines(t)[0] != [];
      }
    }
  }

  lemma {:induction false} DispatchBlock(ls: seq<Bytes>, more: seq<Bytes>, pending: seq<Bytes>)
    requires forall k :: 0 <= k < |ls| ==> ls[k] != []
    ensures Dispatch(ls + [[]] + more, pending)
         == (if pending + DataLines(ls) == [] then [] else [JoinLines(pending + DataLines(ls))])
            + Dispatch(more, [])
  {
    var all := ls + [[]] + more;
    if ls == [] {
      assert all[0] == [] && all[1..] == more;
      assert pending + DataLines(ls) == pending;
    } else {
      assert all[0] == ls[0] && all[1..] == ls[1..] + [[]] + more;
      DispatchBlock(ls[1..], more, pending + DataLines([ls[0]]));
      DataLinesAppend([ls[0]], ls[1..]);
      assert [ls[0]] + ls[1..] == ls;
      Assoc(pending, DataLines([ls[0]]), DataLines(ls[1..]));
    }
  }

  lemma EndedLinesOfBlock(b: Bytes, rest: Bytes)
    ensures EndedLines(b + BLANK + rest) == SplitLines(b) + [[]] + EndedLines(rest)
  {
    var more := SplitLines(rest);
    assert b + BLANK + rest == b + [LF] + ([LF] + rest);
    SplitLinesAppend(b, [LF] + rest);
    assert ([LF] + rest)[1..] == rest;
    Assoc(SplitLines(b), [[]], more);
    DropLastAppend(SplitLines(b) + [[]], more);
  }

  /** The lines of a whole block dispatch the event of that block. */
  lemma DispatchLines(ls: seq<Bytes>, more: seq<Bytes>)
    requires ls != [] && forall k :: 1 <= k < |ls| ==> ls[k] != []
    ensures Dispatch(ls + [[]] + more, [])
         == (if DataLines(ls) == [] then [] else [JoinLines(DataLines(ls))]) + Dispatch(more, [])
  {
    if ls[0] == [] {
      assert (ls + [[]] + more)[1..] == ls[1..] + [[]] + more;
      DispatchBlock(ls[1..], more, []);
      assert [] + DataLines(ls[1..]) == DataLines(ls[1..]) == DataLines(ls);
    } else {
      DispatchBlock(ls, more, []);
      assert [] + DataLines(ls) == DataLines(ls);
    }
  }

  lemma DispatchWholeBlock(b: Bytes, rest: Bytes)
    requires WholeBlock(b)
    ensures Dispatch(EndedLines(b + BLANK + rest), [])
         == Payloads(BlockEvents(b)) + Dispatch(EndedLines(rest), [])
  {
    EndedLinesOfBlock(b, rest);
    InnerLinesNotEmpty(b);
    DispatchLines(SplitLines(b), EndedLines(rest));
  }

  lemma {:induction false} DispatchRest(rest: Bytes)
    requires FirstBlank(rest).None?
    ensures Dispatch(EndedLines(rest), []) == []
  {
    var ended := EndedLines(rest);
    if rest != [] {
      var ls := SplitLines(rest);
      forall k | 1 <= k < |ls| - 1 ensures ls[k] != [] {
        UnendedInnerLine(rest, k);
      }
      if |ended| > 0 && ended[0] == [] {
        DispatchNothing(ended[1..], []);
      } else {
        DispatchNothing(ended, []);
      }
    }
  }

  lemma {:induction false} DispatchNothing(ls: seq<Bytes>, pending: seq<Bytes>)
    requires forall k :: 0 <= k < |ls| ==> ls[k] != []
    ensures Dispatch(ls, pending) == []
  {
    if ls == [] {
    } else {
      DispatchNothing(ls[1..], pending + DataLines([ls[0]]));
    }
  }

  lemma {:induction false} UnendedInnerLine(s: Bytes, k: nat)
    requires FirstBlank(s).None? && 1 <= k < |SplitLines(s)| - 1
    ensures SplitLines(s)[k] != []
  {
    FirstBlankIsFirst(s);
    if s == [] {
    } else {
      FirstBlankIsFirst(s[1..]);
      assert forall j :: BlankAt(s[1..], j) ==> BlankAt(s, j + 1);
      var r := SplitLines(s[1..]);
      if s[0] != LF {
        UnendedInnerLine(s[1..], k);
      } else if k > 1 {
        UnendedInnerLine(s[1..], k - 1);
      } else {
        assert !BlankAt(s, 0);
        assert |r| > 1;
        assert s[1..] != [];
        assert r[0] != [];
      }
    }
  }

  /** The block parser refines the line-by-line dispatch: cutting at blank lines and parsing each
      piece yields the payloads that reading the ended lines one at a time dispatches. */
  lemma {:induction false} RefinesLineDispatch(s: Bytes)
    ensures Payloads(EventsOf(Blocks(s))) == Dispatch(EndedLines(s), [])
    decreases |s|
  {
    match FirstBlank(s) {
      case None =>
        DispatchRest(s);
      case Some(i) =>
        var tail := s[i + 2..];
        FirstBlankCutsWhole(s);
        RefinesLineDispatch(tail);
        DispatchWholeBlock(s[..i], tail);
        CutStep(s, i);
        PayloadsAppend(BlockEvents(s[..i]), EventsOf(Blocks(tail)));
    }
  }

  // ---------- a cut inside a CRLF pair ----------

  /** The data values that wait for the next empty line. */
  function Pending(lines: seq<Bytes>, pending: seq<Bytes>): seq<Bytes> {
    if lines == [] then pending
    else Pending(lines[1..], if lines[0] == [] then [] else pending + DataLines([lines[0]]))
  }

  lemma {:induction false} DispatchSplit(a: seq<Bytes>, b: seq<Bytes>, pending: seq<Bytes>)
    ensures Dispatch(a + b, pending) == Dispatch(a, pending) + Dispatch(b, Pending(a, pending))
    decreases |a|
  {
    if a == [] {
      Units(b);
      Units(Dispatch(b, pending));
    } else {
      FirstOfSum(a, b);
      var first := if a[0] == [] && pending != [] then [JoinLines(pending)] else [];
      var next := if a[0] == [] then [] else pending + DataLines([a[0]]);
      DispatchSplit(a[1..], b, next);
      Assoc(first, Dispatch(a[1..], next), Dispatch(b, Pending(a[1..], next)));
      Units(Dispatch(a[1..], next));
      Units(Dispatch((a + b)[1..], next));
    }
  }

  /** There is an empty line, and no data line before the first. */
  predicate NextAddsNothing(lines: seq<Bytes>) {
    lines != [] && (lines[0] == [] || (!IsDataLine(lines[0]) && NextAddsNothing(lines[1..])))
  }

  /** There are as many payloads on the left, or more, and the same ones exactly when same holds, which is
      when there are as many. */
  predicate AtLeast(more: seq<Bytes>, fewer: seq<Bytes>, same: bool) {
    |more| >= |fewer| && (more == fewer <==> same) && (|more| == |fewer| <==> same)
  }

  /** Dispatching early shows unless no data comes before the next empty line. */
  lemma {:induction false} EarlyDispatchShows(lines: seq<Bytes>, sent: seq<Bytes>, more: seq<Bytes>)
    requires sent != []
    ensures AtLeast([JoinLines(sent)] + Dispatch(lines, more), Dispatch(lines, sent + more),
                    more == [] && NextAddsNothing(lines))
    decreases |lines|
  {
    if lines == [] {
    } else if lines[0] == [] {
      var rest := Dispatch(lines[1..], []);
      if more == [] {
        Units(sent);
        Units(rest);
      } else {
        assert Dispatch(lines, sent + more) == [JoinLines(sent + more)] + rest;
        assert |[JoinLines(sent)] + ([JoinLines(more)] + rest)| == 2 + |rest|;
      }
    } else {
      var data := DataLines([lines[0]]);
      assert data == [] <==> !IsDataLine(lines[0]) by {
        assert DataLines([lines[0]][1..]) == [];
      }
      Assoc(sent, more, data);
      EarlyDispatchShows(lines[1..], sent, more + data);
      assert more + data == [] <==> more == [] && data == [];
    }
  }

  lemma ExtraBlankShows(lines: seq<Bytes>, pending: seq<Bytes>)
    ensures AtLeast(Dispatch([[]] + lines, pending), Dispatch(lines, pending), pending == [] || NextAddsNothing(lines))
  {
    assert ([[]] + lines)[0] == [] && ([[]] + lines)[1..] == lines;
    if pending == [] {
      Units(Dispatch(lines, []));
    } else {
      EarlyDispatchShows(lines, pending, []);
      Units(pending);
    }
  }

  lemma NormaliseLf(y: Bytes)
    ensures Normalise([LF] + y) == [LF] + Normalise(y)
  {
    NormaliseStep([LF] + y, [LF], y);
  }

  lemma NormalisePair(y: Bytes)
    ensures Normalise([CR, LF] + y) == [LF] + Normalise(y)
  {
    NormaliseStep([CR, LF] + y, [CR, LF], y);
  }

  lemma NormaliseLastCr(x: Bytes)
    ensures Normalise(x + [CR]) == Normalise(x) + [LF]
  {
    NormaliseAppend(x, [CR]);
    NormaliseStep([CR], [CR], []);
    Units([LF]);
  }

  lemma PairBetween(x: Bytes, y: Bytes)
    ensures (x + [CR]) + ([LF] + y) == x + ([CR, LF] + y)
    ensures Normalise(x + ([CR, LF] + y)) == Normalise(x) + ([LF] + Normalise(y))
  {
    NormaliseAppend(x, [CR, LF] + y);
    NormalisePair(y);
  }

  lemma CutNormalises(a: Bytes, b: Bytes)
    requires CutsCrLf(a, b)
    ensures Normalise(a) == Normalise(a[..|a| - 1]) + [LF] && Normalise(b) == [LF] + Normalise(b[1..])
    ensures Normalise(a + b) == Normalise(a[..|a| - 1]) + ([LF] + Normalise(b[1..]))
  {
    SnocSplit(a);
    HeadTail(b);
    NormaliseLastCr(a[..|a| - 1]);
    NormaliseLf(b[1..]);
    PairBetween(a[..|a| - 1], b[1..]);
  }

  lemma LinesAfterEnd(before: Bytes, after: Bytes)
    ensures EndedLines(before + [LF] + after) == SplitLines(before) + EndedLines(after)
  {
    SplitLinesAppend(before, after);
    DropLastAppend(SplitLines(before), SplitLines(after));
  }

  lemma LinesAfterCut(before: Bytes, after: Bytes)
    ensures EndedLines(before + [LF] + after) == SplitLines(before) + EndedLines(after)
    ensures EndedLines(before + [LF] + ([LF] + after)) == SplitLines(before) + ([[]] + EndedLines(after))
  {
    LinesAfterEnd(before, after);
    LinesAfterEnd(before, [LF] + after);
    LinesAfterEnd([], after);
    Units([LF]);
  }

  lemma AtLeastAfter(first: seq<Bytes>, more: seq<Bytes>, fewer: seq<Bytes>, same: bool)
    requires AtLeast(more, fewer, same)
    ensures AtLeast(first + more, first + fewer, same)
  {
    assert (first + more)[|first|..] == more && (first + fewer)[|first|..] == fewer;
  }

  lemma AnotherBlankShows(before: Bytes, after: Bytes)
    ensures AtLeast(Payloads(EventsOf(Blocks(before + [LF] + ([LF] + after)))),
                    Payloads(EventsOf(Blocks(before + [LF] + after))),
                    Pending(SplitLines(before), []) == [] || NextAddsNothing(EndedLines(after)))
  {
    RefinesLineDispatch(before + [LF] + ([LF] + after));
    RefinesLineDispatch(before + [LF] + after);
    LinesAfterCut(before, after);
    var head, more := SplitLines(before), EndedLines(after);
    var pending := Pending(head, []);
    DispatchSplit(head, more, []);
    DispatchSplit(head, [[]] + more, []);
    ExtraBlankShows(more, pending);
    AtLeastAfter(Dispatch(head, []), Dispatch([[]] + more, pending), Dispatch(more, pending),
                 pending == [] || NextAddsNothing(more));
  }

  lemma EachOfTwo(a: Bytes, b: Bytes)
    ensures NormaliseEach([a, b]) == Normalise(a) + Normalise(b)
  {
    var both, last: seq<Bytes> := [a, b], [b];
    assert both[1..] == last && last[1..] == [];
    assert NormaliseEach(last) == Normalise(b) + [];
    Units(Normalise(b));
  }

  lemma Regroup(buf: Bytes, x: Bytes, l: Bytes, m: Bytes, y: Bytes)
    ensures buf + ((x + l) + (m + y)) == (buf + x) + l + (m + y)
    ensures buf + (x + (l + y)) == (buf + x) + l + y
  {
    Assoc(x, l, m + y);
    Assoc(buf, x, l + (m + y));
    Assoc(buf + x, l, m + y);
    Assoc(buf, x, l + y);
    Assoc(buf + x, l, y);
  }

  lemma TextsOfCut(buf: Bytes, a: Bytes, b: Bytes)
    requires Settled(buf) && CutsCrLf(a, b)
    ensures var before, after := buf + Normalise(a[..|a| - 1]), Normalise(b[1..]);
            && FedAllEvents(buf, [a, b]) == EventsOf(Blocks(before + [LF] + ([LF] + after)))
            && FedEvents(buf, a + b) == EventsOf(Blocks(before + [LF] + after))
  {
    CutNormalises(a, b);
    FedAllCutsTheWhole(buf, [a, b]);
    EachOfTwo(a, b);
    AcceptSettled(buf, a + b);
    Regroup(buf, Normalise(a[..|a| - 1]), [LF], [LF], Normalise(b[1..]));
  }

  /** The cut between a and b does not show: it is none inside a CRLF pair, or no data was waiting for the
      end of its event, or the lines after the cut end that event before they add data to it. */
  predicate CutIsHidden(buf: Bytes, a: Bytes, b: Bytes) {
    || !CutsCrLf(a, b)
    || Pending(SplitLines(buf + Normalise(a[..|a| - 1])), []) == []
    || NextAddsNothing(EndedLines(Normalise(b[1..])))
  }

  lemma TwoChunks(a: Bytes, b: Bytes)
    ensures Flatten([a, b]) == a + b && (!CutsCrLf(a, b) ==> CleanCuts([], [a, b]))
  {
    var both, last: seq<Bytes> := [a, b], [b];
    assert both[1..] == last && last[1..] == [] && [] + a == a;
    assert Flatten<byte>([]) == [] && Flatten(last) == b + Flatten<byte>([]);
    Units(b);
    assert Flatten(both) == a + Flatten(last);
  }

  /** When one cut shows. */
  lemma CutShowsExactly(buf: Bytes, a: Bytes, b: Bytes)
    requires Settled(buf)
    ensures AtLeast(Payloads(FedAllEvents(buf, [a, b])), Payloads(FedEvents(buf, a + b)), CutIsHidden(buf, a, b))
  {
    if CutsCrLf(a, b) {
      TextsOfCut(buf, a, b);
      AnotherBlankShows(buf + Normalise(a[..|a| - 1]), Normalise(b[1..]));
    } else {
      TwoChunks(a, b);
      ChunkingIndependence(buf, [a, b]);
    }
  }

  /** Each cut in turn is hidden, the bytes before it having been fed in chunks and those after it uncut. */
  predicate CutsAreHidden(buf: Bytes, chunks: seq<Bytes>)
    decreases |chunks|
  {
    chunks == []
    || (CutIsHidden(buf, chunks[0], Flatten(chunks[1..])) && CutsAreHidden(FedBuffer(buf, chunks[0]), chunks[1..]))
  }

  lemma FedTwo(buf: Bytes, a: Bytes, b: Bytes)
    ensures FedAllEvents(buf, [a, b]) == FedEvents(buf, a) + FedEvents(FedBuffer(buf, a), b)
  {
    var both, last: seq<Bytes> := [a, b], [b];
    var next := FedBuffer(buf, a);
    assert both[1..] == last && last[1..] == [];
    assert FedAllEvents(FedBuffer(next, b), []) == [];
    assert FedAllEvents(next, last) == FedEvents(next, b) + [];
    Units(FedEvents(next, b));
  }

  lemma FedNothing(buf: Bytes)
    requires Settled(buf)
    ensures FedEvents(buf, []) == []
  {
  }

  lemma AtLeastChain(most: seq<Bytes>, middle: seq<Bytes>, least: seq<Bytes>, first: bool, second: bool)
    requires AtLeast(most, middle, first) && AtLeast(middle, least, second)
    ensures AtLeast(most, least, first && second)
  {
  }

  /** When chunking shows, wherever it cuts: the payloads of the chunks are those of their concatenation if
      and only if every cut is hidden; otherwise there are more of them. */
  lemma {:induction false} ChunkingShowsExactly(buf: Bytes, chunks: seq<Bytes>)
    requires Settled(buf)
    ensures AtLeast(Payloads(FedAllEvents(buf, chunks)), Payloads(FedEvents(buf, Flatten(chunks))),
                    CutsAreHidden(buf, chunks))
    decreases |chunks|
  {
    if chunks == [] {
      FedNothing(buf);
    } else {
      var a, rest, next := chunks[0], chunks[1..], FedBuffer(buf, chunks[0]);
      var uncut := Flatten(rest);
      SettledStep(buf, a);
      ChunkingShowsExactly(next, rest);
      CutShowsExactly(buf, a, uncut);
      FedTwo(buf, a, uncut);
      PayloadsAppend(FedEvents(buf, a), FedEvents(next, uncut));
      PayloadsAppend(FedEvents(buf, a), FedAllEvents(next, rest));
      AtLeastAfter(Payloads(FedEvents(buf, a)), Payloads(FedAllEvents(next, rest)), Payloads(FedEvents(next, uncut)),
                   CutsAreHidden(next, rest));
      AtLeastChain(Payloads(FedAllEvents(buf, chunks)), Payloads(FedAllEvents(buf, [a, uncut])),
                   Payloads(FedEvents(buf, a + uncut)), CutsAreHidden(next, rest), CutIsHidden(buf, a, uncut));
    }
  }

  // ---------- relaying by raw ----------

  function Relay(events: seq<Event>): Bytes {
    if events == [] then [] else RenderEvent(events[0]) + Relay(events[1..])
  }

  lemma RelayCons(ev: Event, events: seq<Event>)
    ensures Relay([ev] + events) == RenderEvent(ev) + Relay(events)
  {
  }

  /** The blocks that carry data. */
  function DataBlocks(blocks: seq<Bytes>): seq<Bytes> {
    if blocks == [] then []
    else (if ParsedBlock(blocks[0]).None? then [] else [blocks[0]]) + DataBlocks(blocks[1..])
  }

  lemma {:induction false} RelayIsDataBlocks(blocks: seq<Bytes>)
    ensures Relay(EventsOf(blocks)) == JoinBlocks(DataBlocks(blocks))
    ensures EventsOf(DataBlocks(blocks)) == EventsOf(blocks)
    ensures forall b :: b in DataBlocks(blocks) ==> b in blocks
  {
    if blocks == [] {
    } else {
      RelayIsDataBlocks(blocks[1..]);
      if ParsedBlock(blocks[0]).Some? {
        var later := DataBlocks(blocks[1..]);
        JoinCons(blocks[0], later);
        EventsOfCons(blocks[0], later);
        RelayCons(BlockEvents(blocks[0])[0], EventsOf(blocks[1..]));
      } else {
        Units<Event>(EventsOf(blocks[1..]));
        Units<Bytes>(DataBlocks(blocks[1..]));
      }
    }
  }

  /** Relaying the parsed events reproduces the normalised input minus its blocks without data and
      its unterminated rest, and parsing the relayed bytes gives back the same events. */
  lemma RelayReparses(s: Bytes)
    requires CR !in s
    ensures JoinBlocks(Blocks(s)) + Rest(s) == s
    ensures Relay(FedEvents([], s)) == JoinBlocks(DataBlocks(Blocks(s)))
    ensures FedEvents([], Relay(FedEvents([], s))) == FedEvents([], s)
    ensures FedBuffer([], Relay(FedEvents([], s))) == []
  {
    NormaliseIdentity(s);
    AcceptSettled([], s);
    assert [] + s == s;
    SplitConserves(s);
    SplitIsComplete(s);
    RelayIsDataBlocks(Blocks(s));
    var kept := DataBlocks(Blocks(s));
    var wire := JoinBlocks(kept);
    JoinedHasNoCr(s, kept);
    NormaliseIdentity(wire);
    AcceptSettled([], wire);
    assert [] + wire == wire;
    SplitJoined(kept, []);
    assert wire + [] == wire && kept + [] == kept;
  }

  lemma {:induction false} BlocksAreParts(s: Bytes)
    ensures forall b :: b in Blocks(s) ==> forall c :: c in b ==> c in s
    decreases |s|
  {
    if FirstBlank(s).None? {
    } else {
      BlocksAreParts(s[FirstBlank(s).value + 2..]);
    }
  }

  lemma {:induction false} JoinedHasNoCr(s: Bytes, kept: seq<Bytes>)
    requires CR !in s && forall b :: b in kept ==> b in Blocks(s)
    ensures CR !in JoinBlocks(kept)
  {
    if kept == [] {
    } else {
      BlocksAreParts(s);
      assert kept[0] in kept;
      JoinedHasNoCr(s, kept[1..]);
    }
  }
}
