/** How the relay of shifted usage numbers depends on the pieces it is done in
    (src/localgateway/streaming.py:92-122 and 884-902). */
module StreamingCuts {
  import opened Wrappers
  import opened Sequences
  import opened Sse
  import opened SseLaws
  import opened SseRoundTrip
  import opened JsonValues
  import opened Reasoning
  import opened ReasoningStream
  import opened UsageShift
  import opened Provider
  import opened Streaming
  import opened StreamingLaws
  import opened StreamingShift

  // ---------- payloads ----------

  /** Every piece with a line to shift is looked at exactly when the whole would be. */
  predicate SameLook(c: Codec, outs: seq<Bytes>, whole: bool) {
    forall o :: o in outs && AnyShifts(c, EndedLines(o)) ==> (Inspected(o) <==> whole)
  }

  function PlainPayloads(outs: seq<Bytes>): seq<Bytes> {
    if outs == [] then [] else Dispatch(EndedLines(outs[0]), []) + PlainPayloads(outs[1..])
  }

  lemma {:induction false} WholeReadsPlain(outs: seq<Bytes>)
    requires AllClosed(outs)
    ensures Closed(Flatten(outs))
    ensures Dispatch(EndedLines(Flatten(outs)), []) == PlainPayloads(outs)
  {
    if outs == [] {
    } else {
      assert outs[0] in outs;
      WholeReadsPlain(outs[1..]);
      ClosedAppend(outs[0], Flatten(outs[1..]));
      ClosedLines(outs[0]);
      DispatchTwo(EndedLines(outs[0]), EndedLines(Flatten(outs[1..])));
    }
  }

  lemma PieceTellsPlain(c: Codec, o: Bytes)
    requires ValidCodec(c) && Closed(o)
    ensures var x, y := Dispatch(PieceLines(c, o), []), Dispatch(EndedLines(o), []);
            |x| == |y| && (x == y <==> !Inspected(o) || !AnyShifts(c, EndedLines(o)))
  {
    ClosedLines(o);
    if Inspected(o) {
      ShiftShows(c, EndedLines(o), [], []);
    }
  }

  lemma {:induction false} PiecesTellPlain(c: Codec, outs: seq<Bytes>)
    requires ValidCodec(c) && AllClosed(outs)
    ensures PiecePayloads(c, outs) == PlainPayloads(outs) <==> SameLook(c, outs, false)
    ensures |PiecePayloads(c, outs)| == |PlainPayloads(outs)|
  {
    if outs == [] {
    } else {
      var o, rest := outs[0], outs[1..];
      HeadTail(outs);
      assert o in outs;
      PiecesTellPlain(c, rest);
      PieceTellsPlain(c, o);
      AppendEqual(Dispatch(PieceLines(c, o), []), PiecePayloads(c, rest),
                  Dispatch(EndedLines(o), []), PlainPayloads(rest));
      assert SameLook(c, outs, false) <==> (!Inspected(o) || !AnyShifts(c, EndedLines(o))) && SameLook(c, rest, false);
    }
  }

  lemma OnePiece(c: Codec, s: Bytes)
    ensures PiecePayloads(c, [s]) == Dispatch(PieceLines(c, s), [])
  {
    assert [s][1..] == [];
    Units(Dispatch(PieceLines(c, s), []));
  }

  /** The payloads are those of the uncut bytes if and only if every piece with a line to shift is looked
      at exactly when the uncut bytes are. */
  lemma PayloadsIgnoreCutsExactly(c: Codec, outs: seq<Bytes>)
    requires ValidCodec(c) && AllClosed(outs)
    ensures PiecePayloads(c, outs) == PiecePayloads(c, [Flatten(outs)])
      <==> SameLook(c, outs, Inspected(Flatten(outs)))
  {
    OnePiece(c, Flatten(outs));
    if Inspected(Flatten(outs)) {
      WholeReads(c, outs);
      PiecesTell(c, outs);
      assert SameLook(c, outs, true) <==> AllShifted(c, outs);
    } else {
      WholeReadsPlain(outs);
      PiecesTellPlain(c, outs);
    }
  }

  /** Two pieces, the second of which escapes the key that only the first spells out, read otherwise
      than in one. */
  lemma EscapedKeyMovesPayload(c: Codec, first: Bytes, second: Bytes)
    requires ValidCodec(c) && Closed(first) && Closed(second) && Utf8(first + second)
    requires Contains(first, USAGE) && !Contains(second, USAGE) && AnyShifts(c, EndedLines(second))
    ensures PiecePayloads(c, [first, second]) != PiecePayloads(c, [first + second])
  {
    var outs := [first, second];
    FlattenTwo(first, second);
    ContainsBefore(first, second, USAGE);
    PayloadsIgnoreCutsExactly(c, outs);
    assert second in outs;
  }

  // ---------- bytes ----------

  predicate OnlyLf(s: Bytes) {
    forall i :: 0 <= i < |s| ==> s[i] == LF
  }

  predicate Changes(c: Codec, o: Bytes) {
    Inspected(o) && AnyShifts(c, EndedLines(o))
  }

  /** Nothing but line ends comes after a piece that changes. */
  predicate ChangesLast(c: Codec, outs: seq<Bytes>) {
    forall i, j :: 0 <= i < j < |outs| && Changes(c, outs[i]) ==> OnlyLf(outs[j])
  }

  predicate AnyChange(c: Codec, outs: seq<Bytes>) {
    exists o :: o in outs && Changes(c, o)
  }

  lemma {:induction false} LfCommutes(s: Bytes)
    ensures [LF] + s == s + [LF] <==> OnlyLf(s)
  {
    if s == [] {
    } else {
      var rest := s[1..];
      LfCommutes(rest);
      HeadTail(s);
      if [LF] + s == s + [LF] {
        assert s[0] == ([LF] + s)[0];
        assert s == ([LF] + s)[1..] == (s + [LF])[1..] == rest + [LF];
        assert s == [LF] + rest;
      }
      if OnlyLf(s) {
        assert OnlyLf(rest) && s == [LF] + rest;
        Assoc([LF], rest, [LF]);
      }
    }
  }

  /** A piece with its lines shifted if it is looked at, and no line end more. */
  function Kept(c: Codec, o: Bytes): Bytes {
    if Changes(c, o) then Unlines(ShiftedLines(c, EndedLines(o))) else o
  }

  function KeptAll(c: Codec, outs: seq<Bytes>): Bytes {
    if outs == [] then [] else Kept(c, outs[0]) + KeptAll(c, outs[1..])
  }

  function Extra(changes: bool): Bytes {
    if changes then [LF] else []
  }

  lemma SentPiece(c: Codec, o: Bytes)
    requires Closed(o) && !(Inspected(o) && AnyRaises(c, EndedLines(o)))
    ensures ShiftedChunk(c, o) == Some(Kept(c, o) + Extra(Changes(c, o)))
  {
    if Changes(c, o) {
      ShiftedPiece(c, o);
    } else {
      UnshiftedPiece(c, o);
      Units(o);
    }
  }

  function Changed(c: Codec, outs: seq<Bytes>): nat {
    if outs == [] then 0 else (if Changes(c, outs[0]) then 1 else 0) + Changed(c, outs[1..])
  }

  lemma {:induction false} ChangedCounts(c: Codec, outs: seq<Bytes>)
    requires AllClosed(outs) && NoneRaises(c, outs)
    ensures |Flatten(SentPieces(c, outs))| == |KeptAll(c, outs)| + Changed(c, outs)
    ensures Changed(c, outs) > 0 <==> AnyChange(c, outs)
    ensures Changed(c, outs) == 0 ==> Flatten(SentPieces(c, outs)) == KeptAll(c, outs) == Flatten(outs)
  {
    if outs == [] {
    } else {
      HeadTail(outs);
      assert outs[0] in outs;
      SentPiece(c, outs[0]);
      ChangedCounts(c, outs[1..]);
      Units(Kept(c, outs[0]));
    }
  }

  lemma ChangedIsNotOnlyLf(c: Codec, o: Bytes)
    requires Changes(c, o)
    ensures !OnlyLf(o)
  {
    var i :| 0 <= i <= |o| && HasPrefix(o[i..], USAGE);
    assert o[i..][..|USAGE|][0] == 34;
  }

  lemma {:induction false} OnlyLfPieces(outs: seq<Bytes>)
    ensures OnlyLf(Flatten(outs)) <==> forall o :: o in outs ==> OnlyLf(o)
  {
    if outs == [] {
    } else {
      var o, rest := outs[0], Flatten(outs[1..]);
      OnlyLfPieces(outs[1..]);
      HeadTail(outs);
      assert forall i :: 0 <= i < |rest| ==> (o + rest)[|o| + i] == rest[i];
      assert forall i :: 0 <= i < |o| ==> (o + rest)[i] == o[i];
      assert OnlyLf(o + rest) <==> OnlyLf(o) && OnlyLf(rest);
    }
  }

  lemma ChangesLastFirst(c: Codec, outs: seq<Bytes>)
    requires outs != []
    ensures ChangesLast(c, outs)
      <==> ChangesLast(c, outs[1..]) && (Changes(c, outs[0]) ==> forall o :: o in outs[1..] ==> OnlyLf(o))
  {
    var rest := outs[1..];
    assert forall i :: 0 <= i < |rest| ==> rest[i] == outs[i + 1];
  }

  /** Comparing what is sent for the pieces with the kept bytes and one line end. */
  lemma {:induction false} ExtraEndsExactly(c: Codec, outs: seq<Bytes>)
    requires AllClosed(outs) && NoneRaises(c, outs)
    ensures Flatten(SentPieces(c, outs)) == KeptAll(c, outs) + Extra(AnyChange(c, outs)) <==> ChangesLast(c, outs)
  {
    if outs == [] {
    } else {
      var o, rest := outs[0], outs[1..];
      var sent, kept := Flatten(SentPieces(c, rest)), KeptAll(c, rest);
      assert o in outs;
      HeadTail(outs);
      SentPiece(c, o);
      ChangesLastFirst(c, outs);
      ExtraEndsExactly(c, rest);
      if Changes(c, o) {
        FirstChanges(c, o, rest);
      } else {
        Units(Kept(c, o));
        SamePrefix(o, sent, kept + Extra(AnyChange(c, rest)));
        Assoc(o, kept, Extra(AnyChange(c, rest)));
        assert AnyChange(c, outs) <==> AnyChange(c, rest);
      }
    }
  }

  lemma SamePrefix(p: Bytes, u: Bytes, v: Bytes)
    ensures p + u == p + v <==> u == v
  {
    assert (p + u)[|p|..] == u && (p + v)[|p|..] == v;
  }

  lemma FirstChanges(c: Codec, o: Bytes, rest: seq<Bytes>)
    requires AllClosed([o] + rest) && NoneRaises(c, [o] + rest) && Changes(c, o)
    ensures var sent, kept := Flatten(SentPieces(c, rest)), KeptAll(c, rest);
            (Kept(c, o) + [LF]) + sent == (Kept(c, o) + kept) + [LF] <==> forall r :: r in rest ==> OnlyLf(r)
  {
    var sent, kept, t := Flatten(SentPieces(c, rest)), KeptAll(c, rest), Kept(c, o);
    assert forall r :: r in rest ==> r in [o] + rest;
    ChangedCounts(c, rest);
    Assoc(t, [LF], sent);
    Assoc(t, kept, [LF]);
    SamePrefix(t, [LF] + sent, kept + [LF]);
    OnlyLfPieces(rest);
    LfCommutes(kept);
    if AnyChange(c, rest) {
      var r :| r in rest && Changes(c, r);
      ChangedIsNotOnlyLf(c, r);
    }
  }

  lemma {:induction false} KeptIsShifted(c: Codec, outs: seq<Bytes>)
    requires AllClosed(outs) && AllShifted(c, outs)
    ensures Closed(Flatten(outs))
    ensures KeptAll(c, outs) == Unlines(ShiftedLines(c, EndedLines(Flatten(outs))))
    ensures AnyShifts(c, EndedLines(Flatten(outs))) <==> AnyChange(c, outs)
  {
    if outs == [] {
    } else {
      var o, rest := outs[0], outs[1..];
      HeadTail(outs);
      assert o in outs;
      KeptIsShifted(c, rest);
      ClosedAppend(o, Flatten(rest));
      ClosedLines(o);
      ShiftedLinesAppend(c, EndedLines(o), EndedLines(Flatten(rest)));
      UnlinesAppend(ShiftedLines(c, EndedLines(o)), ShiftedLines(c, EndedLines(Flatten(rest))));
      if !AnyShifts(c, EndedLines(o)) {
        NothingShifts(c, EndedLines(o));
      }
      assert AnyChange(c, outs) <==> Changes(c, o) || AnyChange(c, rest);
    }
  }

  lemma SentWhole(c: Codec, s: Bytes)
    requires Closed(s) && NoneRaises(c, [s])
    ensures Flatten(SentPieces(c, [s])) == Kept(c, s) + Extra(Changes(c, s))
  {
    assert s in [s];
    SentPiece(c, s);
    SentOne(c, s);
    FlattenOne(ShiftedChunk(c, s).value);
  }

  /** Pieces and uncut bytes that are looked at alike are sent alike if and only if nothing but line ends
      comes after a piece that changes. */
  lemma AlikeBytes(c: Codec, outs: seq<Bytes>)
    requires AllClosed(outs) && NoneRaises(c, outs) && NoneRaises(c, [Flatten(outs)])
    requires SameLook(c, outs, Inspected(Flatten(outs)))
    ensures Flatten(SentPieces(c, outs)) == Flatten(SentPieces(c, [Flatten(outs)])) <==> ChangesLast(c, outs)
  {
    var whole := Flatten(outs);
    WholeReadsPlain(outs);
    SentWhole(c, whole);
    ChangedCounts(c, outs);
    if Inspected(whole) {
      KeptIsShifted(c, outs);
      ExtraEndsExactly(c, outs);
      if !AnyChange(c, outs) {
        Units(whole);
      }
    } else {
      Units(whole);
      assert !AnyChange(c, outs);
      assert forall i :: 0 <= i < |outs| ==> outs[i] in outs;
    }
  }

  /** The bytes are those sent for the uncut bytes if and only if every piece with a line to shift is
      looked at exactly when these are, and nothing but line ends comes after a piece that changes. */
  lemma BytesIgnoreCutsExactly(c: Codec, outs: seq<Bytes>)
    requires ValidCodec(c) && AllClosed(outs) && NoneRaises(c, outs) && NoneRaises(c, [Flatten(outs)])
    ensures Flatten(SentPieces(c, outs)) == Flatten(SentPieces(c, [Flatten(outs)]))
      <==> SameLook(c, outs, Inspected(Flatten(outs))) && ChangesLast(c, outs)
  {
    WholeReadsPlain(outs);
    SentReads(c, outs);
    SentReads(c, [Flatten(outs)]);
    PayloadsIgnoreCutsExactly(c, outs);
    if SameLook(c, outs, Inspected(Flatten(outs))) {
      AlikeBytes(c, outs);
    }
  }

  // ---------- a whole request ----------

  lemma DataBlockIsNotOnlyLf(b: Bytes)
    requires ParsedBlock(b).Some?
    ensures !OnlyLf(b)
  {
    SplitLinesHaveNoLf(b);
    SomeDataLine(SplitLines(b));
    var l :| l in SplitLines(b) && IsDataLine(l);
    assert l[..|DATA_FIELD|][0] == 100;
    assert l[0] in l;
  }

  lemma {:induction false} SomeDataLine(lines: seq<Bytes>)
    requires DataLines(lines) != []
    ensures exists l :: l in lines && IsDataLine(l)
  {
    if IsDataLine(lines[0]) {
      assert lines[0] in lines;
    } else {
      SomeDataLine(lines[1..]);
    }
  }

  lemma RewrittenIsNotOnlyLf(c: Codec, b: Bytes)
    requires ParsedBlock(b).Some? && Rewritten(c, BlockEvents(b)[0]).Some?
    ensures !OnlyLf(Rewritten(c, BlockEvents(b)[0]).value)
  {
    var ev := BlockEvents(b)[0];
    var out := Rewritten(c, ev).value;
    BlockRenders(b);
    if out == RenderEvent(ev) {
      DataBlockIsNotOnlyLf(b);
      assert forall i :: 0 <= i < |b| ==> out[i] == b[i];
    } else {
      RewrittenToPrinted(c, ev);
      assert out[0] == 100;
    }
  }

  lemma {:induction false} RelayedIsNotOnlyLf(c: Codec, blocks: seq<Bytes>)
    requires RewrittenAll(c, EventsOf(blocks)).Some?
    ensures OnlyLf(RewrittenAll(c, EventsOf(blocks)).value) ==> RewrittenAll(c, EventsOf(blocks)).value == []
  {
    if blocks == [] {
    } else if ParsedBlock(blocks[0]).None? {
      Units(EventsOf(blocks[1..]));
      RelayedIsNotOnlyLf(c, blocks[1..]);
    } else {
      var ev := BlockEvents(blocks[0])[0];
      assert BlockEvents(blocks[0]) == [ev];
      RewrittenAllAppend(c, [ev], EventsOf(blocks[1..]));
      RewrittenOne(c, ev);
      RewrittenIsNotOnlyLf(c, blocks[0]);
      var first, rest := Rewritten(c, ev).value, RewrittenAll(c, EventsOf(blocks[1..])).value;
      assert forall i :: 0 <= i < |first| ==> (first + rest)[i] == first[i];
    }
  }

  lemma {:induction false} OutputsAreNotOnlyLf(c: Codec, buf: Bytes, datas: seq<Bytes>)
    requires TransformedChunks(c, buf, datas).Some?
    ensures forall o :: o in Outputs(c, buf, datas) && OnlyLf(o) ==> o == []
    decreases |datas|
  {
    if datas == [] {
    } else {
      RelayedIsNotOnlyLf(c, Blocks(Accept(buf, datas[0])));
      OutputsAreNotOnlyLf(c, FedBuffer(buf, datas[0]), datas[1..]);
    }
  }

  /** The same backend with an upstream that sends all its bytes at once. */
  function Uncut(a: Attempt): Attempt {
    if a.upstream.Reads? then a.(upstream := Reads([Flatten(a.upstream.chunks)], a.upstream.ending)) else a
  }

  lemma OneChunk(w: Bytes)
    ensures NonEmpty([w]) == if w == [] then [] else [w]
    ensures Flatten(NonEmpty([w])) == Flatten([w]) == w && CleanCuts([], NonEmpty([w]))
  {
    var one := [w];
    assert one[1..] == [] && NonEmpty([]) == [];
    FlattenOne(w);
    FlattenNonEmpty(one);
    Units(NonEmpty(one));
  }

  lemma UncutIsSound(c: Codec, a: Attempt)
    requires ValidCodec(c) && Sound(c, a.upstream)
    ensures Sound(c, Uncut(a).upstream)
    ensures SawDone(NonEmpty(Uncut(a).upstream.chunks)) == SawDone(NonEmpty(a.upstream.chunks))
  {
    var w, datas := Flatten(a.upstream.chunks), NonEmpty(a.upstream.chunks);
    OneChunk(w);
    FlattenNonEmpty(a.upstream.chunks);
    ChunkingIndependence([], datas);
    ChunkingIndependence([], NonEmpty([w]));
  }

  lemma OneOutput(c: Codec, w: Bytes)
    ensures Outputs(c, [], [w]) == [RewrittenAll(c, FedEvents([], w)).GetOr([])]
  {
    assert [w][1..] == [];
    assert Outputs(c, FedBuffer([], w), []) == [];
  }

  lemma {:induction false} NothingToSend(chunks: seq<Bytes>)
    requires Flatten(chunks) == []
    ensures NonEmpty(chunks) == []
  {
    if chunks == [] {
    } else {
      NothingToSend(chunks[1..]);
    }
  }

  lemma UncutPieces(c: Codec, a: Attempt)
    requires ValidCodec(c) && Sound(c, a.upstream)
    ensures var w, outs := Flatten(a.upstream.chunks), Pieces(c, Uncut(a).upstream);
            if w == [] then outs == [] == Pieces(c, a.upstream) else outs == [Whole(c, a.upstream)]
  {
    var w := Flatten(a.upstream.chunks);
    OneChunk(w);
    if w == [] {
      NothingToSend(a.upstream.chunks);
    } else {
      OneOutput(c, w);
    }
  }

  /** What the client gets of a sound upstream whose usage numbers are shifted. */
  lemma ShiftedBytesSent(env: Env, a: Attempt)
    requires ValidCodec(env.codec) && Sound(env.codec, a.upstream) && a.shifts
    requires NoneRaises(env.codec, Pieces(env.codec, a.upstream))
    ensures var r := Served(env, [a]);
            && !r.raised && MetaFirst(r.out)
            && DataOf(r.out[1..]) == Flatten(SentPieces(env.codec, Pieces(env.codec, a.upstream)))
                                     + if SawDone(NonEmpty(a.upstream.chunks)) then [] else DONE_EVENT
  {
    PiecesAreWhole(env.codec, a.upstream);
    RelayedAreSentPieces(env.codec, [], NonEmpty(a.upstream.chunks));
    SoundIsRelayed(env, a);
  }

  /** Nothing is sent after a piece that changes. */
  predicate ChangeEnds(c: Codec, outs: seq<Bytes>) {
    forall i, j :: 0 <= i < j < |outs| && Changes(c, outs[i]) ==> outs[j] == []
  }

  lemma PiecesEndAlike(c: Codec, up: Upstream)
    requires ValidCodec(c) && Sound(c, up)
    ensures ChangesLast(c, Pieces(c, up)) <==> ChangeEnds(c, Pieces(c, up))
  {
    var outs := Pieces(c, up);
    PiecesAreWhole(c, up);
    OutputsAreNotOnlyLf(c, [], NonEmpty(up.chunks));
    assert forall j :: 0 <= j < |outs| ==> outs[j] in outs;
  }

  /** Whether cutting a sound upstream into chunks shows, its usage numbers being shifted: the client reads
      the same payloads as from the upstream uncut if and only if every piece with a line to shift is
      looked at exactly when the uncut one is; and receives the same bytes if and only if, besides, nothing
      is sent after a piece that changes. */
  lemma CutsShowExactly(env: Env, a: Attempt)
    requires ValidCodec(env.codec) && Sound(env.codec, a.upstream) && a.shifts
    requires NoneRaises(env.codec, Pieces(env.codec, a.upstream))
    requires NoneRaises(env.codec, [Whole(env.codec, a.upstream)])
    ensures var r, s := Served(env, [a]), Served(env, [Uncut(a)]);
            var outs := Pieces(env.codec, a.upstream);
            var same := SameLook(env.codec, outs, Inspected(Whole(env.codec, a.upstream)));
            && MetaFirst(r.out) && MetaFirst(s.out)
            && (ClientReads(r) == ClientReads(s) <==> same)
            && (DataOf(r.out[1..]) == DataOf(s.out[1..]) <==> same && ChangeEnds(env.codec, outs))
  {
    var c, outs, whole := env.codec, Pieces(env.codec, a.upstream), Whole(env.codec, a.upstream);
    UncutIsSound(c, a);
    UncutPieces(c, a);
    PiecesAreWhole(c, a.upstream);
    PiecesEndAlike(c, a.upstream);
    ShiftedBytesSent(env, a);
    ShiftedStreamReads(env, a);
    ShiftedBytesSent(env, Uncut(a));
    ShiftedStreamReads(env, Uncut(a));
    CutsShow(c, outs, Pieces(c, Uncut(a).upstream), EndPayload(SawDone(NonEmpty(a.upstream.chunks))),
             if SawDone(NonEmpty(a.upstream.chunks)) then [] else DONE_EVENT);
  }

  /** The same of any pieces and what follows them, with the uncut pieces given. */
  lemma CutsShow(c: Codec, outs: seq<Bytes>, uncut: seq<Bytes>, end: seq<Bytes>, tail: Bytes)
    requires ValidCodec(c) && AllClosed(outs) && NoneRaises(c, outs) && NoneRaises(c, [Flatten(outs)])
    requires uncut == [Flatten(outs)] || (uncut == [] && outs == [])
    ensures PiecePayloads(c, outs) + end == PiecePayloads(c, uncut) + end
      <==> SameLook(c, outs, Inspected(Flatten(outs)))
    ensures Flatten(SentPieces(c, outs)) + tail == Flatten(SentPieces(c, uncut)) + tail
      <==> SameLook(c, outs, Inspected(Flatten(outs))) && ChangesLast(c, outs)
  {
    if outs != [] || uncut != [] {
      PayloadsIgnoreCutsExactly(c, outs);
      BytesIgnoreCutsExactly(c, outs);
      SameSuffix(PiecePayloads(c, outs), PiecePayloads(c, uncut), end);
      SameSuffix(Flatten(SentPieces(c, outs)), Flatten(SentPieces(c, uncut)), tail);
    }
  }

  lemma SameSuffix<T>(u: seq<T>, v: seq<T>, t: seq<T>)
    ensures u + t == v + t <==> u == v
  {
    if u + t == v + t {
      assert |u| == |v| && u == (u + t)[..|u|] && v == (v + t)[..|v|];
    }
  }

  /** With plain usage numbers the payloads never depend on the chunking. */
  lemma PlainPayloadsIgnoreCuts(c: Codec, outs: seq<Bytes>)
    requires ValidCodec(c) && AllClosed(outs) && PlainUsage(c, Flatten(outs))
    ensures PiecePayloads(c, outs) == PiecePayloads(c, [Flatten(outs)])
  {
    PlainPieces(c, outs);
    PayloadsIgnoreCutsExactly(c, outs);
    if o :| o in outs && AnyShifts(c, EndedLines(o)) {
      assert Inspected(o);
      PartOfFlat(outs, o, USAGE);
    }
  }

  lemma {:induction false} PartOfFlat(outs: seq<Bytes>, o: Bytes, part: Bytes)
    requires o in outs && Contains(o, part)
    ensures Contains(Flatten(outs), part)
  {
    ContainsBefore(outs[0], Flatten(outs[1..]), part);
    if o == outs[0] {
    } else {
      HeadTail(outs);
      PartOfFlat(outs[1..], o, part);
    }
  }
}
