/** What a client reads of a stream whose usage numbers are shifted, however the network cut it. */
module StreamingShift {
  import opened Wrappers
  import opened Sequences
  import opened Sse
  import opened SseLaws
  import opened SseRoundTrip
  import opened JsonValues
  import opened Reasoning
  import opened ReasoningStream
  import opened UsageShift
  import opened Provider
  import opened Streaming
  import opened StreamingLaws

  // ---------- lines ----------

  /** Lines, each with its end. */
  function Unlines(lines: seq<Bytes>): Bytes {
    if lines == [] then [] else lines[0] + [LF] + Unlines(lines[1..])
  }

  predicate NoLf(lines: seq<Bytes>) {
    forall l :: l in lines ==> LF !in l
  }

  lemma {:induction false} UnlinesAppend(a: seq<Bytes>, b: seq<Bytes>)
    ensures Unlines(a + b) == Unlines(a) + Unlines(b)
  {
    if a == [] {
      Units(b);
      Units(Unlines(b));
    } else {
      assert (a + b)[1..] == a[1..] + b;
      UnlinesAppend(a[1..], b);
      Assoc(a[0] + [LF], Unlines(a[1..]), Unlines(b));
    }
  }

  lemma {:induction false} JoinIsUnlines(lines: seq<Bytes>)
    ensures JoinLines(lines + [[]]) == Unlines(lines)
  {
    if lines == [] {
      var last: seq<Bytes> := [[]];
      Units(last);
    } else {
      assert (lines + [[]])[1..] == lines[1..] + [[]];
      JoinIsUnlines(lines[1..]);
    }
  }

  lemma SplitEnded(line: Bytes, rest: Bytes, lines: seq<Bytes>)
    requires LF !in line && SplitLines(rest) == lines + [[]]
    ensures SplitLines(line + [LF] + rest) == ([line] + lines) + [[]]
  {
    SplitOneLine(line);
    SplitLinesAppend(line, rest);
    Assoc([line], lines, [[]]);
  }

  lemma {:induction false} SplitsBack(lines: seq<Bytes>)
    requires NoLf(lines)
    ensures SplitLines(Unlines(lines)) == lines + [[]]
  {
    if lines == [] {
    } else {
      assert lines[0] in lines;
      SplitsBack(lines[1..]);
      SplitEnded(lines[0], Unlines(lines[1..]), lines[1..]);
      HeadTail(lines);
    }
  }

  lemma SplitUnlines(lines: seq<Bytes>)
    requires NoLf(lines)
    ensures SplitLines(Unlines(lines)) == lines + [[]] && EndedLines(Unlines(lines)) == lines
  {
    SplitsBack(lines);
  }

  /** Ended lines, the last of them empty: what whole events are made of. */
  predicate WholeLines(lines: seq<Bytes>) {
    NoLf(lines) && (lines != [] ==> lines[|lines| - 1] == [])
  }

  /** Whole events on the wire. */
  predicate Closed(s: Bytes) {
    CR !in s && (s == [] || (|s| >= 2 && s[|s| - 2..] == BLANK))
  }

  lemma ClosedLines(s: Bytes)
    requires Closed(s)
    ensures WholeLines(EndedLines(s)) && Unlines(EndedLines(s)) == s && SplitLines(s) == EndedLines(s) + [[]]
  {
    if s != [] {
      var y := s[..|s| - 2];
      assert s == (y + [LF]) + [LF] + [] == y + [LF] + [LF];
      SplitLinesAppend(y + [LF], []);
      SplitLinesAppend(y, []);
      assert y + [LF] + [] == y + [LF];
      SplitLinesHaveNoLf(s);
      JoinSplitLines(s);
      JoinIsUnlines(EndedLines(s));
    }
  }

  lemma {:induction false} DispatchAppend(a: seq<Bytes>, b: seq<Bytes>, pending: seq<Bytes>)
    requires a != [] && a[|a| - 1] == []
    ensures Dispatch(a + b, pending) == Dispatch(a, pending) + Dispatch(b, [])
    decreases |a|
  {
    assert (a + b)[0] == a[0] && (a + b)[1..] == a[1..] + b;
    if |a| == 1 {
      Units(b);
      assert a[1..] == [];
    } else if a[0] == [] {
      DispatchAppend(a[1..], b, []);
      Assoc(if pending == [] then [] else [JoinLines(pending)], Dispatch(a[1..], []), Dispatch(b, []));
    } else {
      DispatchAppend(a[1..], b, pending + DataLines([a[0]]));
    }
  }

  lemma DispatchTwo(a: seq<Bytes>, b: seq<Bytes>)
    requires WholeLines(a)
    ensures Dispatch(a + b, []) == Dispatch(a, []) + Dispatch(b, [])
  {
    if a == [] {
      Units(b);
      Units(Dispatch(b, []));
    } else {
      DispatchAppend(a, b, []);
    }
  }

  // ---------- shifting lines ----------

  lemma ShiftedLineShape(c: Codec, line: Bytes)
    requires ValidCodec(c)
    ensures LineShift(c, line).Changed? ==>
              && IsDataLine(line) && IsDataLine(ShiftedLine(c, line)) && ShiftedLine(c, line) != []
              && DataValue(line) != DataValue(ShiftedLine(c, line))
    ensures !LineShift(c, line).Changed? ==> ShiftedLine(c, line) == line
    ensures LF !in line ==> LF !in ShiftedLine(c, line)
    ensures CR !in line ==> CR !in ShiftedLine(c, line)
  {
    if LineShift(c, line).Changed? {
      var obj, text := LineObject(c, line).value, c.escaped(JObj(LineShift(c, line).obj)).value;
      ShiftConserves(c, obj);
      ShiftKeepsNoPairs(c, obj);
      assert c.loads(text) == Some(JObj(LineShift(c, line).obj)) && PlainLine(text);
      PrefixedValue(line);
      PrefixedValue(DATA_PREFIX + text);
      assert (DATA_PREFIX + text)[|DATA_PREFIX|..] == text;
    }
  }

  lemma PrefixedValue(line: Bytes)
    requires HasPrefix(line, DATA_PREFIX)
    ensures IsDataLine(line) && DataValue(line) == line[|DATA_PREFIX|..] && line != []
  {
    assert line[..|DATA_FIELD|] == DATA_PREFIX[..|DATA_FIELD|];
    assert line[|DATA_FIELD|] == line[..|DATA_PREFIX|][|DATA_FIELD|] == SPACE;
  }

  lemma {:induction false} ShiftedAt(c: Codec, lines: seq<Bytes>, i: nat)
    requires i < |lines|
    ensures ShiftedLines(c, lines)[i] == ShiftedLine(c, lines[i])
  {
    if i == 0 {
    } else {
      ShiftedAt(c, lines[1..], i - 1);
    }
  }

  lemma ShiftedFrom(c: Codec, lines: seq<Bytes>, m: Bytes) returns (l: Bytes)
    requires m in ShiftedLines(c, lines)
    ensures l in lines && m == ShiftedLine(c, l)
  {
    var i :| 0 <= i < |lines| && ShiftedLines(c, lines)[i] == m;
    ShiftedAt(c, lines, i);
    l := lines[i];
  }

  lemma ShiftedKeepsNoLf(c: Codec, lines: seq<Bytes>)
    requires ValidCodec(c) && NoLf(lines)
    ensures NoLf(ShiftedLines(c, lines))
  {
    forall m | m in ShiftedLines(c, lines) ensures LF !in m {
      var l := ShiftedFrom(c, lines, m);
      ShiftedLineShape(c, l);
    }
  }

  lemma ShiftedKeepsNoCr(c: Codec, lines: seq<Bytes>)
    requires ValidCodec(c) && forall l :: l in lines ==> CR !in l
    ensures forall m :: m in ShiftedLines(c, lines) ==> CR !in m
  {
    forall m | m in ShiftedLines(c, lines) ensures CR !in m {
      var l := ShiftedFrom(c, lines, m);
      ShiftedLineShape(c, l);
    }
  }

  lemma ShiftedKeepsWhole(c: Codec, lines: seq<Bytes>)
    requires ValidCodec(c) && WholeLines(lines)
    ensures WholeLines(ShiftedLines(c, lines))
  {
    ShiftedKeepsNoLf(c, lines);
    if lines != [] {
      ShiftedAt(c, lines, |lines| - 1);
      ShiftedLineShape(c, []);
    }
  }

  lemma NothingShifts(c: Codec, lines: seq<Bytes>)
    requires !AnyShifts(c, lines)
    ensures ShiftedLines(c, lines) == lines
  {
    forall i | 0 <= i < |lines| ensures ShiftedLines(c, lines)[i] == lines[i] {
      ShiftedAt(c, lines, i);
      assert lines[i] in lines;
    }
  }

  lemma JoinInjective(a: seq<Bytes>, b: seq<Bytes>)
    requires NoLf(a) && NoLf(b) && a != [] && b != [] && JoinLines(a) == JoinLines(b)
    ensures a == b
  {
    SplitJoinedLines(a);
    SplitJoinedLines(b);
  }

  /** Two lists of lines give as many payloads, and the same ones exactly when same holds. */
  predicate Tells(a: seq<Bytes>, p: seq<Bytes>, b: seq<Bytes>, q: seq<Bytes>, same: bool) {
    |Dispatch(a, p)| == |Dispatch(b, q)| && (Dispatch(a, p) == Dispatch(b, q) <==> same)
  }

  lemma TellsBlank(rest: seq<Bytes>, more: seq<Bytes>, p: seq<Bytes>, q: seq<Bytes>, same: bool)
    requires |p| == |q| && NoLf(p) && NoLf(q) && Tells(rest, [], more, [], same)
    ensures Tells([[]] + rest, p, [[]] + more, q, p == q && same)
  {
    assert ([[]] + rest)[1..] == rest && ([[]] + more)[1..] == more;
    if p != [] {
      if JoinLines(p) == JoinLines(q) {
        JoinInjective(p, q);
      }
      ConsEqual(JoinLines(p), Dispatch(rest, []), JoinLines(q), Dispatch(more, []));
    } else {
      Units(Dispatch(rest, []));
      Units(Dispatch(more, []));
    }
  }

  lemma TellsLine(l: Bytes, m: Bytes, rest: seq<Bytes>, more: seq<Bytes>, p: seq<Bytes>, q: seq<Bytes>, same: bool)
    requires l != [] && m != [] && |p| == |q|
    requires Tells(rest, p + DataLines([l]), more, q + DataLines([m]), p + DataLines([l]) == q + DataLines([m]) && same)
    ensures Tells([l] + rest, p, [m] + more, q, p == q && DataLines([l]) == DataLines([m]) && same)
  {
    assert ([l] + rest)[1..] == rest && ([m] + more)[1..] == more;
    AppendEqual(p, DataLines([l]), q, DataLines([m]));
  }

  /** Shifting a line keeps it a data line or not, and shows in its value. */
  lemma ShiftedData(c: Codec, l: Bytes)
    requires ValidCodec(c) && LF !in l
    ensures var u, v := DataLines([l]), DataLines([ShiftedLine(c, l)]);
            |u| == |v| && (u == v <==> !LineShift(c, l).Changed?) && NoLf(u) && NoLf(v)
    ensures l == [] <==> ShiftedLine(c, l) == []
  {
    ShiftedLineShape(c, l);
    DataOfLine(l);
    DataOfLine(ShiftedLine(c, l));
    DataValueHasNoLf(l);
    DataValueHasNoLf(ShiftedLine(c, l));
    assert HasPrefix(l, DATA_PREFIX) ==> l != [];
  }

  lemma NoLfAppend(a: seq<Bytes>, b: seq<Bytes>)
    requires NoLf(a) && NoLf(b)
    ensures NoLf(a + b)
  {
  }

  /** Shifting keeps the number of payloads, and shows in them exactly when a line shifts. */
  lemma {:induction false} ShiftShows(c: Codec, lines: seq<Bytes>, p: seq<Bytes>, q: seq<Bytes>)
    requires ValidCodec(c) && WholeLines(lines) && (lines == [] ==> p == [])
    requires |p| == |q| && NoLf(p) && NoLf(q)
    ensures Tells(lines, p, ShiftedLines(c, lines), q, p == q && !AnyShifts(c, lines))
    decreases |lines|
  {
    if lines == [] {
    } else {
      var l, m, rest := lines[0], ShiftedLine(c, lines[0]), lines[1..];
      var more := ShiftedLines(c, rest);
      HeadTail(lines);
      ShiftedLinesAppend(c, [l], rest);
      assert AnyShifts(c, [l]) <==> LineShift(c, l).Changed? by {
        assert l in [l];
      }
      ShiftedData(c, l);
      var u, v := DataLines([l]), DataLines([m]);
      if l == [] {
        ShiftShows(c, rest, [], []);
        TellsBlank(rest, more, p, q, !AnyShifts(c, rest));
      } else {
        NoLfAppend(p, u);
        NoLfAppend(q, v);
        ShiftShows(c, rest, p + u, q + v);
        TellsLine(l, m, rest, more, p, q, !AnyShifts(c, rest));
      }
    }
  }

  lemma ConsEqual(a: Bytes, x: seq<Bytes>, b: Bytes, y: seq<Bytes>)
    ensures [a] + x == [b] + y <==> a == b && x == y
  {
    if [a] + x == [b] + y {
      assert ([a] + x)[0] == a && ([b] + y)[0] == b;
      assert ([a] + x)[1..] == x && ([b] + y)[1..] == y;
    }
  }

  lemma AppendEqual(p: seq<Bytes>, u: seq<Bytes>, q: seq<Bytes>, v: seq<Bytes>)
    requires |p| == |q|
    ensures p + u == q + v <==> p == q && u == v
  {
    if p + u == q + v {
      assert (p + u)[..|p|] == p && (q + v)[..|q|] == q;
      assert (p + u)[|p|..] == u && (q + v)[|q|..] == v;
    }
  }

  lemma DataOfLine(line: Bytes)
    ensures DataLines([line]) == if IsDataLine(line) then [DataValue(line)] else []
  {
    assert [line][1..] == [];
    Units(if IsDataLine(line) then [DataValue(line)] else []);
  }

  lemma DataValueHasNoLf(line: Bytes)
    requires LF !in line
    ensures NoLf(DataLines([line]))
  {
    DataOfLine(line);
  }

  // ---------- one piece ----------

  /** The lines a piece is sent with, not counting the empty one that a change adds. */
  function PieceLines(c: Codec, s: Bytes): seq<Bytes> {
    if Inspected(s) then ShiftedLines(c, EndedLines(s)) else EndedLines(s)
  }

  /** A changed piece is its shifted lines and one line end more. */
  lemma ShiftedPiece(c: Codec, s: Bytes)
    requires Closed(s) && Inspected(s) && AnyShifts(c, EndedLines(s)) && !AnyRaises(c, EndedLines(s))
    ensures ShiftedChunk(c, s) == Some(Unlines(ShiftedLines(c, EndedLines(s))) + [LF])
  {
    var lines, last: seq<Bytes> := EndedLines(s), [[]];
    ClosedLines(s);
    ShiftedLinesAppend(c, lines, last);
    assert ShiftedLines(c, last) == last && !AnyRaises(c, last);
    JoinIsUnlines(ShiftedLines(c, lines));
  }

  lemma UnshiftedPiece(c: Codec, s: Bytes)
    requires Closed(s) && !(Inspected(s) && (AnyShifts(c, EndedLines(s)) || AnyRaises(c, EndedLines(s))))
    ensures ShiftedChunk(c, s) == Some(s)
    ensures PieceLines(c, s) == EndedLines(s)
  {
    var lines, last: seq<Bytes> := EndedLines(s), [[]];
    ClosedLines(s);
    ShiftedLinesAppend(c, lines, last);
    assert !AnyShifts(c, last) && !AnyRaises(c, last);
    if !AnyShifts(c, lines) {
      NothingShifts(c, lines);
    }
  }

  lemma {:induction false} UnlinesNoCr(lines: seq<Bytes>)
    requires forall l :: l in lines ==> CR !in l
    ensures CR !in Unlines(lines)
  {
    if lines == [] {
    } else {
      assert lines[0] in lines;
      UnlinesNoCr(lines[1..]);
    }
  }

  lemma {:induction false} UnlinesEnds(lines: seq<Bytes>)
    requires lines != []
    ensures Unlines(lines) != [] && Unlines(lines)[|Unlines(lines)| - 1] == LF
  {
    if |lines| == 1 {
      assert lines[1..] == [];
    } else {
      UnlinesEnds(lines[1..]);
    }
  }

  lemma EndsTwice(t: Bytes)
    requires t != [] && t[|t| - 1] == LF && CR !in t
    ensures Closed(t + [LF])
  {
    assert (t + [LF])[|t| - 1..] == BLANK;
  }

  lemma ClosedOfLines(init: seq<Bytes>)
    requires init != [] && forall l :: l in init ==> CR !in l
    ensures Closed(Unlines(init + [[]])) && Unlines(init + [[]]) == Unlines(init) + [LF]
  {
    var last: seq<Bytes> := [[]];
    UnlinesNoCr(init);
    UnlinesAppend(init, last);
    assert Unlines(last) == [LF] by { assert last[1..] == []; }
    UnlinesEnds(init);
    EndsTwice(Unlines(init));
  }

  lemma LinesHaveNoCr(s: Bytes)
    requires CR !in s
    ensures forall l :: l in EndedLines(s) ==> CR !in l
  {
    SplitLinesHaveNoLf(s);
    forall l | l in EndedLines(s) ensures CR !in l {
      assert l in SplitLines(s);
    }
  }

  /** A piece is sent as whole events that read as its lines. */
  lemma PieceReads(c: Codec, s: Bytes)
    requires ValidCodec(c) && Closed(s) && !(Inspected(s) && AnyRaises(c, EndedLines(s)))
    ensures ShiftedChunk(c, s).Some? && Closed(ShiftedChunk(c, s).value)
    ensures Dispatch(EndedLines(ShiftedChunk(c, s).value), []) == Dispatch(PieceLines(c, s), [])
  {
    var lines := EndedLines(s);
    ClosedLines(s);
    if Inspected(s) && AnyShifts(c, lines) {
      var shifted, last: seq<Bytes> := ShiftedLines(c, lines), [[]];
      ShiftedPiece(c, s);
      ShiftedKeepsWhole(c, lines);
      LinesHaveNoCr(s);
      ShiftedKeepsNoCr(c, lines);
      ClosedOfLines(shifted);
      SplitUnlines(shifted + last);
      DispatchTwo(shifted, last);
      assert Dispatch(last, []) == [] by { assert last[1..] == []; }
      Units(Dispatch(shifted, []));
    } else {
      UnshiftedPiece(c, s);
    }
  }

  // ---------- all pieces ----------

  predicate AllClosed(outs: seq<Bytes>) {
    forall o :: o in outs ==> Closed(o)
  }

  /** No piece raises: those that are looked at hold no usage that cannot be added up. */
  predicate NoneRaises(c: Codec, outs: seq<Bytes>) {
    forall o :: o in outs ==> !(Inspected(o) && AnyRaises(c, EndedLines(o)))
  }

  function SentPieces(c: Codec, outs: seq<Bytes>): seq<Bytes> {
    if outs == [] then [] else [ShiftedChunk(c, outs[0]).GetOr([])] + SentPieces(c, outs[1..])
  }

  function PiecePayloads(c: Codec, outs: seq<Bytes>): seq<Bytes> {
    if outs == [] then [] else Dispatch(PieceLines(c, outs[0]), []) + PiecePayloads(c, outs[1..])
  }

  function ShiftedPayloads(c: Codec, outs: seq<Bytes>): seq<Bytes> {
    if outs == [] then []
    else Dispatch(ShiftedLines(c, EndedLines(outs[0])), []) + ShiftedPayloads(c, outs[1..])
  }

  lemma ClosedAppend(a: Bytes, b: Bytes)
    requires Closed(a) && Closed(b)
    ensures Closed(a + b) && EndedLines(a + b) == EndedLines(a) + EndedLines(b)
  {
    if a == [] {
      Units(b);
      Units(EndedLines(b));
    } else {
      var y := a[..|a| - 1];
      assert a == y + [LF] && a + b == y + [LF] + b;
      SplitLinesAppend(y, b);
      SplitLinesAppend(y, []);
      assert y + [LF] + [] == a;
      DropLastAppend(SplitLines(y), SplitLines(b));
      assert EndedLines(a) == SplitLines(y);
      assert b != [] ==> (a + b)[|a + b| - 2..] == b[|b| - 2..];
      Units(a);
    }
  }

  lemma {:induction false} SentReads(c: Codec, outs: seq<Bytes>)
    requires ValidCodec(c) && AllClosed(outs) && NoneRaises(c, outs)
    ensures Closed(Flatten(SentPieces(c, outs)))
    ensures Dispatch(EndedLines(Flatten(SentPieces(c, outs))), []) == PiecePayloads(c, outs)
  {
    if outs == [] {
    } else {
      assert outs[0] in outs;
      SentReads(c, outs[1..]);
      PieceReads(c, outs[0]);
      var first, rest := ShiftedChunk(c, outs[0]).value, Flatten(SentPieces(c, outs[1..]));
      ClosedAppend(first, rest);
      ClosedLines(first);
      DispatchTwo(EndedLines(first), EndedLines(rest));
    }
  }

  lemma {:induction false} WholeReads(c: Codec, outs: seq<Bytes>)
    requires ValidCodec(c) && AllClosed(outs)
    ensures Closed(Flatten(outs))
    ensures Dispatch(ShiftedLines(c, EndedLines(Flatten(outs))), []) == ShiftedPayloads(c, outs)
  {
    if outs == [] {
    } else {
      assert outs[0] in outs;
      WholeReads(c, outs[1..]);
      var first, rest := outs[0], Flatten(outs[1..]);
      ClosedAppend(first, rest);
      ClosedLines(first);
      ShiftedLinesAppend(c, EndedLines(first), EndedLines(rest));
      ShiftedKeepsWhole(c, EndedLines(first));
      DispatchTwo(ShiftedLines(c, EndedLines(first)), ShiftedLines(c, EndedLines(rest)));
    }
  }

  /** Every piece with a line to shift is looked at. */
  predicate AllShifted(c: Codec, outs: seq<Bytes>) {
    forall o :: o in outs ==> Inspected(o) || !AnyShifts(c, EndedLines(o))
  }

  lemma PieceTells(c: Codec, o: Bytes)
    requires ValidCodec(c) && Closed(o)
    ensures var x, y := Dispatch(PieceLines(c, o), []), Dispatch(ShiftedLines(c, EndedLines(o)), []);
            |x| == |y| && (x == y <==> Inspected(o) || !AnyShifts(c, EndedLines(o)))
  {
    ClosedLines(o);
    if !Inspected(o) {
      ShiftShows(c, EndedLines(o), [], []);
    }
  }

  lemma {:induction false} PiecesTell(c: Codec, outs: seq<Bytes>)
    requires ValidCodec(c) && AllClosed(outs)
    ensures PiecePayloads(c, outs) == ShiftedPayloads(c, outs) <==> AllShifted(c, outs)
    ensures |PiecePayloads(c, outs)| == |ShiftedPayloads(c, outs)|
  {
    if outs == [] {
    } else {
      var o, rest := outs[0], outs[1..];
      HeadTail(outs);
      assert o in outs;
      PiecesTell(c, rest);
      PieceTells(c, o);
      AppendEqual(Dispatch(PieceLines(c, o), []), PiecePayloads(c, rest),
                  Dispatch(ShiftedLines(c, EndedLines(o)), []), ShiftedPayloads(c, rest));
      assert AllShifted(c, outs) <==> (Inspected(o) || !AnyShifts(c, EndedLines(o))) && AllShifted(c, rest);
    }
  }

  // ---------- the relay ----------

  /** The rewrite of the events each chunk completes. */
  function Outputs(c: Codec, buf: Bytes, datas: seq<Bytes>): seq<Bytes>
    decreases |datas|
  {
    if datas == [] then []
    else [RewrittenAll(c, FedEvents(buf, datas[0])).GetOr([])] + Outputs(c, FedBuffer(buf, datas[0]), datas[1..])
  }

  lemma {:induction false} OutputsAreTransform(c: Codec, buf: Bytes, datas: seq<Bytes>)
    requires TransformedChunks(c, buf, datas).Some?
    ensures Flatten(Outputs(c, buf, datas)) == TransformedChunks(c, buf, datas).value
    decreases |datas|
  {
    if datas == [] {
    } else {
      OutputsAreTransform(c, FedBuffer(buf, datas[0]), datas[1..]);
    }
  }

  lemma {:induction false} RelayedAreSentPieces(c: Codec, buf: Bytes, datas: seq<Bytes>)
    requires ValidCodec(c) && TransformedChunks(c, buf, datas).Some?
    requires AllClosed(Outputs(c, buf, datas)) && NoneRaises(c, Outputs(c, buf, datas))
    ensures RelayedChunks(c, true, buf, datas) == Some(Flatten(SentPieces(c, Outputs(c, buf, datas))))
    decreases |datas|
  {
    if datas == [] {
    } else {
      var o, outs := RewrittenAll(c, FedEvents(buf, datas[0])).value, Outputs(c, buf, datas);
      assert outs[0] == o && o in outs;
      assert outs[1..] == Outputs(c, FedBuffer(buf, datas[0]), datas[1..]);
      RelayedAreSentPieces(c, FedBuffer(buf, datas[0]), datas[1..]);
      PieceReads(c, o);
      if o == [] {
        NothingInspected();
        UnshiftedPiece(c, []);
      } else {
        FlattenOne(ShiftedChunk(c, o).value);
      }
    }
  }

  lemma NothingInspected()
    ensures !Inspected([])
  {
  }

  /** What the transform makes of whole events is whole events. */
  lemma RewrittenClosed(c: Codec, buf: Bytes, chunk: Bytes)
    requires ValidCodec(c) && Settled(buf) && RewrittenAll(c, FedEvents(buf, chunk)).Some?
    ensures Closed(RewrittenAll(c, FedEvents(buf, chunk)).value)
  {
    var s := Accept(buf, chunk);
    AcceptSettled(buf, chunk);
    var kept := DataBlocks(Blocks(s));
    RelayIsDataBlocks(Blocks(s));
    DataBlocksParse(Blocks(s));
    SplitIsComplete(s);
    BlocksAreParts(s);
    RewrittenReparses(c, kept);
    AllBlocksAreClosed(RewrittenAll(c, EventsOf(kept)).value);
  }

  lemma AllBlocksAreClosed(s: Bytes)
    requires CR !in s && Rest(s) == []
    ensures Closed(s)
  {
    SplitConserves(s);
    Units(JoinBlocks(Blocks(s)));
    JoinBlocksEnds(Blocks(s));
  }

  lemma {:induction false} JoinBlocksEnds(blocks: seq<Bytes>)
    ensures var s := JoinBlocks(blocks); s == [] || (|s| >= 2 && s[|s| - 2..] == BLANK)
  {
    if blocks == [] {
    } else {
      JoinBlocksEnds(blocks[1..]);
      var s, rest := JoinBlocks(blocks), JoinBlocks(blocks[1..]);
      assert rest != [] ==> s[|s| - 2..] == rest[|rest| - 2..];
    }
  }

  lemma {:induction false} OutputsClosed(c: Codec, buf: Bytes, datas: seq<Bytes>)
    requires ValidCodec(c) && Settled(buf) && TransformedChunks(c, buf, datas).Some?
    ensures AllClosed(Outputs(c, buf, datas))
    decreases |datas|
  {
    if datas == [] {
    } else {
      RewrittenClosed(c, buf, datas[0]);
      BufferStaysSettled(buf, [datas[0]]);
      FedOne(buf, datas[0]);
      OutputsClosed(c, FedBuffer(buf, datas[0]), datas[1..]);
    }
  }

  // ---------- what the client reads ----------

  /** The payload of the end mark that is added to a stream without one. */
  function EndPayload(sentDone: bool): seq<Bytes> {
    if sentDone then [] else [DONE_MARK]
  }

  lemma TwoLines(l: Bytes, m: Bytes)
    ensures Unlines([l, m]) == l + [LF] + (m + [LF])
    ensures l != [] && m == [] ==> Dispatch([l, m], []) == if IsDataLine(l) then [DataValue(l)] else []
  {
    var lines, last: seq<Bytes> := [l, m], [m];
    assert lines[1..] == last && last[1..] == [];
    assert Unlines(last) == m + [LF] + [];
    Units(m + [LF]);
    if l != [] && m == [] {
      DataOfLine(l);
      Units(DataLines([l]));
      assert Dispatch(last[1..], []) == [];
    }
  }

  const DONE_LINE: Bytes := DATA_PREFIX + DONE_MARK

  lemma DoneIsTwoLines()
    ensures DONE_EVENT == Unlines([DONE_LINE, []]) && Closed(DONE_EVENT)
    ensures LF !in DONE_LINE && IsDataLine(DONE_LINE) && DataValue(DONE_LINE) == DONE_MARK
  {
    TwoLines(DONE_LINE, []);
    Assoc(DONE_LINE, [LF], [LF]);
    PrefixedValue(DONE_LINE);
  }

  lemma DoneReads(sentDone: bool)
    ensures var s: Bytes := if sentDone then [] else DONE_EVENT;
            Closed(s) && Dispatch(EndedLines(s), []) == EndPayload(sentDone)
  {
    if !sentDone {
      DoneIsTwoLines();
      SplitUnlines([DONE_LINE, []]);
      TwoLines(DONE_LINE, []);
    }
  }

  lemma ClosedReads(s: Bytes)
    requires Closed(s)
    ensures Payloads(FedEvents([], s)) == Dispatch(EndedLines(s), [])
  {
    NormaliseIdentity(s);
    AcceptSettled([], s);
    Units(s);
    RefinesLineDispatch(s);
  }

  /** The payloads a client finds in the bytes after the headers. */
  function ClientReads(r: Result): seq<Bytes> {
    if MetaFirst(r.out) then Payloads(FedEvents([], DataOf(r.out[1..]))) else []
  }

  /** The rewrite of all events of an upstream. */
  function Whole(c: Codec, up: Upstream): Bytes {
    if up.Reads? then RewrittenAll(c, FedEvents([], Flatten(up.chunks))).GetOr([]) else []
  }

  /** The transform of each chunk of an upstream. */
  function Pieces(c: Codec, up: Upstream): seq<Bytes> {
    if up.Reads? then Outputs(c, [], NonEmpty(up.chunks)) else []
  }

  lemma PiecesAreWhole(c: Codec, up: Upstream)
    requires ValidCodec(c) && Sound(c, up)
    ensures AllClosed(Pieces(c, up)) && Flatten(Pieces(c, up)) == Whole(c, up)
    ensures TransformedChunks(c, [], NonEmpty(up.chunks)).Some?
  {
    var datas := NonEmpty(up.chunks);
    SoundIsHeard(c, up);
    TransformIgnoresChunking(c, datas);
    OutputsAreTransform(c, [], datas);
    OutputsClosed(c, [], datas);
  }

  /** What the client reads of a sound upstream whose usage numbers are shifted: the payloads of the
      pieces, each shifted line by line if it is looked at. */
  lemma ShiftedStreamReads(env: Env, a: Attempt)
    requires ValidCodec(env.codec) && Sound(env.codec, a.upstream) && a.shifts
    requires NoneRaises(env.codec, Pieces(env.codec, a.upstream))
    ensures var r := Served(env, [a]);
            && !r.raised && MetaFirst(r.out)
            && ClientReads(r) == PiecePayloads(env.codec, Pieces(env.codec, a.upstream))
                                 + EndPayload(SawDone(NonEmpty(a.upstream.chunks)))
  {
    var c, datas := env.codec, NonEmpty(a.upstream.chunks);
    var outs := Pieces(c, a.upstream);
    PiecesAreWhole(c, a.upstream);
    RelayedAreSentPieces(c, [], datas);
    SoundIsRelayed(env, a);
    SentReads(c, outs);
    DoneReads(SawDone(datas));
    var sent, end: Bytes := Flatten(SentPieces(c, outs)), if SawDone(datas) then [] else DONE_EVENT;
    ClosedAppend(sent, end);
    ClosedLines(sent);
    DispatchTwo(EndedLines(sent), EndedLines(end));
    ClosedReads(sent + end);
  }

  /** For any chunking the client reads the whole stream with every line of it shifted, if and only if
      every piece that has a line to shift is looked at. */
  lemma ShiftedStreamExactly(env: Env, a: Attempt)
    requires ValidCodec(env.codec) && Sound(env.codec, a.upstream) && a.shifts
    requires NoneRaises(env.codec, Pieces(env.codec, a.upstream))
    ensures ClientReads(Served(env, [a]))
            == Dispatch(ShiftedLines(env.codec, EndedLines(Whole(env.codec, a.upstream))), [])
               + EndPayload(SawDone(NonEmpty(a.upstream.chunks)))
            <==> AllShifted(env.codec, Pieces(env.codec, a.upstream))
  {
    var c, outs := env.codec, Pieces(env.codec, a.upstream);
    var end := EndPayload(SawDone(NonEmpty(a.upstream.chunks)));
    ShiftedStreamReads(env, a);
    PiecesAreWhole(c, a.upstream);
    WholeReads(c, outs);
    PiecesTell(c, outs);
    AppendEqual(PiecePayloads(c, outs), end, ShiftedPayloads(c, outs), end);
  }

  // ---------- when every piece is looked at ----------

  lemma InnerBytes(s: Bytes, i: nat)
    requires 0 < i < CharLength(s)
    ensures Continuation(s[i])
  {
  }

  lemma LfIsLast(a: Bytes, b: Bytes)
    requires a != [] && a[|a| - 1] == LF && CharLength(a + b) > 0
    ensures CharLength(a + b) <= |a| && CharLength(a) == CharLength(a + b)
  {
    assert forall i :: 0 <= i < |a| ==> (a + b)[i] == a[i];
    if 1 < |a| < CharLength(a + b) {
      InnerBytes(a + b, |a| - 1);
    }
  }

  /** Cutting well-formed UTF-8 after a line end leaves two well-formed parts. */
  lemma {:induction false} Utf8Split(a: Bytes, b: Bytes)
    requires Utf8(a + b) && (a != [] ==> a[|a| - 1] == LF)
    ensures Utf8(a) && Utf8(b)
    decreases |a|
  {
    if a == [] {
      Units(b);
    } else {
      LfIsLast(a, b);
      var n := CharLength(a);
      assert (a + b)[n..] == a[n..] + b;
      Utf8Split(a[n..], b);
    }
  }

  lemma {:induction false} PartsAreUtf8(outs: seq<Bytes>)
    requires AllClosed(outs) && Utf8(Flatten(outs))
    ensures forall o :: o in outs ==> Utf8(o)
  {
    if outs == [] {
    } else {
      assert outs[0] in outs;
      assert outs[0] != [] ==> outs[0][|outs[0]| - 1] == LF by {
        assert outs[0] != [] ==> outs[0][|outs[0]| - 2..][1] == LF;
      }
      Utf8Split(outs[0], Flatten(outs[1..]));
      PartsAreUtf8(outs[1..]);
      HeadTail(outs);
    }
  }

  lemma ContainsBefore(s: Bytes, t: Bytes, part: Bytes)
    ensures Contains(s, part) ==> Contains(s + t, part)
    ensures Contains(t, part) ==> Contains(s + t, part)
  {
    if Contains(s, part) {
      var i :| 0 <= i <= |s| && HasPrefix(s[i..], part);
      assert (s + t)[i..][..|part|] == s[i..][..|part|];
    }
    if Contains(t, part) {
      var i :| 0 <= i <= |t| && HasPrefix(t[i..], part);
      assert (s + t)[|s| + i..] == t[i..];
    }
  }

  lemma {:induction false} LineInText(lines: seq<Bytes>, l: Bytes, part: Bytes)
    requires l in lines && Contains(l, part)
    ensures Contains(Unlines(lines), part)
  {
    if lines[0] == l {
      ContainsBefore(l, [LF], part);
      ContainsBefore(l + [LF], Unlines(lines[1..]), part);
    } else {
      LineInText(lines[1..], l, part);
      ContainsBefore(lines[0] + [LF], Unlines(lines[1..]), part);
    }
  }

  lemma {:induction false} PieceOfWhole(outs: seq<Bytes>, o: Bytes, l: Bytes)
    requires AllClosed(outs) && o in outs && l in EndedLines(o)
    ensures Closed(Flatten(outs)) && l in EndedLines(Flatten(outs))
  {
    AllClosedFlat(outs[1..]);
    assert outs[0] in outs;
    ClosedAppend(outs[0], Flatten(outs[1..]));
    if o == outs[0] {
    } else {
      HeadTail(outs);
      PieceOfWhole(outs[1..], o, l);
    }
  }

  lemma {:induction false} AllClosedFlat(outs: seq<Bytes>)
    requires AllClosed(outs)
    ensures Closed(Flatten(outs))
  {
    if outs == [] {
    } else {
      assert outs[0] in outs;
      AllClosedFlat(outs[1..]);
      ClosedAppend(outs[0], Flatten(outs[1..]));
    }
  }

  /** Well-formed UTF-8 in which every line to shift writes the name of its usage numbers plainly. */
  predicate PlainUsage(c: Codec, s: Bytes) {
    Utf8(s) && forall l :: l in EndedLines(s) && LineShift(c, l).Changed? ==> Contains(l, USAGE)
  }

  lemma PlainPieces(c: Codec, outs: seq<Bytes>)
    requires AllClosed(outs) && PlainUsage(c, Flatten(outs))
    ensures AllShifted(c, outs)
  {
    PartsAreUtf8(outs);
    forall o | o in outs && AnyShifts(c, EndedLines(o)) ensures Inspected(o) {
      var l :| l in EndedLines(o) && LineShift(c, l).Changed?;
      PieceOfWhole(outs, o, l);
      ClosedLines(o);
      LineInText(EndedLines(o), l, USAGE);
    }
  }

  /** A stream with plain usage numbers is shifted as a whole, whatever the chunking. */
  lemma PlainUsageIsShifted(env: Env, a: Attempt)
    requires ValidCodec(env.codec) && Sound(env.codec, a.upstream) && a.shifts
    requires NoneRaises(env.codec, Pieces(env.codec, a.upstream))
    requires PlainUsage(env.codec, Whole(env.codec, a.upstream))
    ensures ClientReads(Served(env, [a]))
         == Dispatch(ShiftedLines(env.codec, EndedLines(Whole(env.codec, a.upstream))), [])
            + EndPayload(SawDone(NonEmpty(a.upstream.chunks)))
  {
    PiecesAreWhole(env.codec, a.upstream);
    PlainPieces(env.codec, Pieces(env.codec, a.upstream));
    ShiftedStreamExactly(env, a);
  }

  lemma FlattenTwo(a: Bytes, b: Bytes)
    ensures Flatten([a, b]) == a + b
  {
    assert [a, b][1..] == [b];
    FlattenOne(b);
  }

  lemma SentOne(c: Codec, a: Bytes)
    ensures SentPieces(c, [a]) == [ShiftedChunk(c, a).GetOr([])]
  {
    assert [a][1..] == [];
  }

  lemma SentTwo(c: Codec, a: Bytes, b: Bytes)
    ensures SentPieces(c, [a, b]) == [ShiftedChunk(c, a).GetOr([]), ShiftedChunk(c, b).GetOr([])]
  {
    assert [a, b][1..] == [b];
    SentOne(c, b);
  }

  lemma MovedLf(x: Bytes, y: Bytes)
    requires y != [] && y[0] != LF
    ensures (x + [LF]) + y != (x + y) + [LF]
  {
    assert ((x + [LF]) + y)[|x|] == LF && ((x + y) + [LF])[|x|] == y[0];
  }

  /** The bytes do depend on the chunking: a changed piece gets a line end more, so the same events cut
      in two come out otherwise than in one. */
  lemma ExtraLineEndMoves(c: Codec, first: Bytes, second: Bytes)
    requires Closed(first) && Closed(second) && second != [] && second[0] != LF
    requires Inspected(first) && Inspected(first + second)
    requires AnyShifts(c, EndedLines(first)) && !AnyShifts(c, EndedLines(second))
    requires !AnyRaises(c, EndedLines(first)) && !AnyRaises(c, EndedLines(second))
    ensures Flatten(SentPieces(c, [first, second])) != Flatten(SentPieces(c, [first + second]))
  {
    var shifted := Unlines(ShiftedLines(c, EndedLines(first)));
    ClosedAppend(first, second);
    ClosedLines(second);
    ShiftedLinesAppend(c, EndedLines(first), EndedLines(second));
    NothingShifts(c, EndedLines(second));
    UnlinesAppend(ShiftedLines(c, EndedLines(first)), EndedLines(second));
    ShiftedPiece(c, first);
    ShiftedPiece(c, first + second);
    UnshiftedPiece(c, second);
    SentTwo(c, first, second);
    SentOne(c, first + second);
    FlattenTwo(shifted + [LF], second);
    FlattenOne((shifted + second) + [LF]);
    MovedLf(shifted, second);
  }
}
