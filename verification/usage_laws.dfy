/** Which tokens a relayed usage object shows (src/localgateway/streaming.py:53-122), field by field, and which
    chunks are looked at, byte by byte. */
module UsageLaws {
  import opened Wrappers
  import opened Sequences
  import opened Sse
  import opened SseLaws
  import opened SseRoundTrip
  import opened JsonValues
  import opened Reasoning
  import opened ReasoningStream
  import opened UsageShift

  /** What Python takes for false. */
  predicate Falsy(j: Json) {
    || j == JNull || j == JBool(false) || j == JInt(0) || j == JStr([]) || j == JList([]) || j == JObj(map[])
    || (j.JFloat? && j.zero)
  }

  lemma TruthyExactly(j: Json)
    ensures Truthy(j) <==> !Falsy(j)
  {
  }

  predicate ObjectAt(o: Object, key: string) {
    Str(key) in o && o[Str(key)].JObj?
  }

  /** The integer that counts: an absent or falsy value is 0, true is 1; None for anything else. */
  function Count(o: Object, key: string): Option<int> {
    if Str(key) !in o || Falsy(o[Str(key)]) then Some(0)
    else
      match o[Str(key)]
      case JBool(b) => Some(1)
      case JInt(n) => Some(n)
      case _ => None
  }

  /** There are prompt tokens: an integer other than 0, or true. */
  predicate HasPrompt(o: Object) {
    && ObjectAt(o, "usage") && Str("prompt_tokens") in o[Str("usage")].fields
    && var tokens := o[Str("usage")].fields[Str("prompt_tokens")];
       !Falsy(tokens) && (tokens.JInt? || tokens.JBool?)
  }

  function Prompt(o: Object): int
    requires HasPrompt(o)
  {
    var tokens := o[Str("usage")].fields[Str("prompt_tokens")];
    if tokens.JInt? then tokens.n else 1
  }

  function DetailsAt(usage: Object): Object {
    if ObjectAt(usage, "prompt_tokens_details") then usage[Str("prompt_tokens_details")].fields else map[]
  }

  /** The field holds after the move what it held before and n more; a float is added to by the library. */
  predicate Grows(c: Codec, before: Object, after: Object, key: string, n: int) {
    && Str(key) in after
    && if Count(before, key).Some? then after[Str(key)] == JInt(Count(before, key).value + n)
       else before[Str(key)].JFloat? && c.plus(before[Str(key)], n) == Some(after[Str(key)])
  }

  /** after differs from before in the named fields at most. */
  predicate OnlyAt(before: Object, after: Object, keys: set<Text>) {
    after.Keys == before.Keys + keys && forall k :: k in before && k !in keys ==> after[k] == before[k]
  }

  /** What moving the prompt tokens makes of a usage object. */
  predicate Moved(c: Codec, before: Object, after: Object, n: int) {
    && OnlyAt(before, after, {Str("prompt_tokens"), Str("prompt_tokens_details"), Str("cache_read_input_tokens")})
    && after[Str("prompt_tokens")] == JInt(0)
    && Grows(c, before, after, "cache_read_input_tokens", n)
    && ObjectAt(after, "prompt_tokens_details")
    && OnlyAt(DetailsAt(before), DetailsAt(after), {Str("cached_tokens")})
    && Grows(c, DetailsAt(before), DetailsAt(after), "cached_tokens", n)
  }

  lemma PlusGrows(c: Codec, before: Object, after: Object, key: string, n: int)
    requires Str(key) in after && Plus(c, Get(before, key), n) == Some(after[Str(key)])
    ensures Grows(c, before, after, key, n)
  {
    TruthyExactly(Get(before, key));
  }

  lemma KeysDiffer()
    ensures Str("prompt_tokens") != Str("prompt_tokens_details")
    ensures Str("prompt_tokens") != Str("cache_read_input_tokens")
    ensures Str("prompt_tokens_details") != Str("cache_read_input_tokens")
  {
    assert |Str("prompt_tokens")| == 13 && |Str("prompt_tokens_details")| == 21;
    assert |Str("cache_read_input_tokens")| == 23;
  }

  lemma ShiftedUsageMoves(c: Codec, before: Object, n: int)
    requires ShiftedUsage(c, before, n).Some?
    ensures Moved(c, before, ShiftedUsage(c, before, n).value, n)
  {
    var after := ShiftedUsage(c, before, n).value;
    KeysDiffer();
    PlusGrows(c, before, after, "cache_read_input_tokens", n);
    PlusGrows(c, DetailsAt(before), DetailsAt(after), "cached_tokens", n);
  }

  lemma PromptExactly(o: Object)
    ensures HasPrompt(o)
      <==> && Get(o, "usage").JObj?
           && var n := AsInt(Get(Get(o, "usage").fields, "prompt_tokens")); n.Some? && n.value != 0
    ensures HasPrompt(o) ==> AsInt(Get(Get(o, "usage").fields, "prompt_tokens")) == Some(Prompt(o))
  {
  }

  /** An object without prompt tokens stays as it is. With prompt tokens they become 0, and both counts of
      cached tokens grow by them; every other field stays. */
  lemma TokensMoveExactly(c: Codec, o: Object)
    ensures ShiftedObject(c, o).Unchanged? <==> !HasPrompt(o)
    ensures ShiftedObject(c, o).Changed? ==>
      var after := ShiftedObject(c, o).obj;
      && OnlyAt(o, after, {Str("usage")}) && ObjectAt(after, "usage")
      && Moved(c, o[Str("usage")].fields, after[Str("usage")].fields, Prompt(o))
  {
    PromptExactly(o);
    if ShiftedObject(c, o).Changed? {
      ShiftedUsageMoves(c, o[Str("usage")].fields, Prompt(o));
    }
  }

  /** Moving raises exactly when there are prompt tokens and one of the two counts is a text, a list or an object
      that is not empty, or a float that the library cannot add them to. */
  lemma MovingRaisesExactly(c: Codec, o: Object)
    ensures ShiftedObject(c, o).Raises?
      <==> HasPrompt(o) && (Uncountable(c, DetailsAt(o[Str("usage")].fields), "cached_tokens", Prompt(o))
                            || Uncountable(c, o[Str("usage")].fields, "cache_read_input_tokens", Prompt(o)))
  {
    PromptExactly(o);
    if HasPrompt(o) {
      var usage := o[Str("usage")].fields;
      PlusIsUncountable(c, DetailsAt(usage), "cached_tokens", Prompt(o));
      PlusIsUncountable(c, usage, "cache_read_input_tokens", Prompt(o));
    }
  }

  predicate Uncountable(c: Codec, o: Object, key: string, n: int) {
    Count(o, key).None? && (o[Str(key)].JFloat? ==> c.plus(o[Str(key)], n).None?)
  }

  lemma PlusIsUncountable(c: Codec, o: Object, key: string, n: int)
    ensures Plus(c, Get(o, key), n).None? <==> Uncountable(c, o, key, n)
  {
    TruthyExactly(Get(o, key));
  }

  // ---------- one line in a chunk ----------

  lemma LineAndBlank(line: Bytes)
    requires PlainLine(line)
    ensures SplitLines(line + [10, 10]) == [line, [], []]
  {
    SplitOneLine(line);
    SplitLinesAppend(line, [LF]);
    SplitLinesAppend([], []);
    assert line + [LF] + [LF] == line + [10, 10] && [] + [LF] + [] == [LF];
  }

  lemma BlankStays(c: Codec)
    ensures ShiftedLine(c, []) == [] && LineShift(c, []) == Unchanged
  {
  }

  lemma ThreeLines(c: Codec, line: Bytes)
    ensures AnyRaises(c, [line, [], []]) <==> LineShift(c, line).Raises?
    ensures AnyShifts(c, [line, [], []]) <==> LineShift(c, line).Changed?
    ensures JoinLines(ShiftedLines(c, [line, [], []])) == ShiftedLine(c, line) + [10, 10]
  {
    var all, two, one: seq<Bytes> := [line, [], []], [[], []], [[]];
    BlankStays(c);
    assert all[1..] == two && two[1..] == one && one[1..] == [];
    assert line in all;
    var shifted := ShiftedLine(c, line);
    assert ShiftedLines(c, one) == [[]] + ShiftedLines(c, []);
    assert ShiftedLines(c, two) == [[]] + ShiftedLines(c, one);
    assert ShiftedLines(c, all) == [shifted] + ShiftedLines(c, two) == [shifted, [], []];
    var sent: seq<Bytes> := [shifted, [], []];
    assert sent[1..] == two;
    assert JoinLines(two) == [LF];
    assert shifted + [LF] + [LF] == shifted + [10, 10];
  }

  /** One data line and a blank line: a changed object is printed in its place, with one line end more. */
  lemma UsageLineIsRewritten(c: Codec, d: Bytes, o: Object)
    requires PlainLine(d) && !IsDone(d) && c.loads(d) == Some(JObj(o))
    requires Inspected([100, 97, 116, 97, 58, 32] + d + [10, 10])
    ensures var prefix: Bytes := [100, 97, 116, 97, 58, 32];
      ShiftedChunk(c, prefix + d + [10, 10]) ==
        match ShiftedObject(c, o)
        case Unchanged => Some(prefix + d + [10, 10])
        case Raises => None
        case Changed(moved) =>
          var text := c.escaped(JObj(moved));
          if text.None? then None else Some(prefix + text.value + [10, 10, 10])
  {
    var prefix: Bytes := [100, 97, 116, 97, 58, 32];
    var line := prefix + d;
    assert prefix == DATA_PREFIX && line[..6] == prefix && line[6..] == d;
    LineAndBlank(line);
    ThreeLines(c, line);
    assert ShiftedLine(c, line) + [10, 10] + [LF] == ShiftedLine(c, line) + [10, 10, 10];
  }

  /** Without the space after the colon, in any other line and in the end mark nothing is looked for. */
  lemma OtherLinesStay(c: Codec, line: Bytes)
    requires PlainLine(line)
    requires |line| >= 6 && line[..6] == [100, 97, 116, 97, 58, 32] ==> IsDone(line[6..])
    ensures ShiftedChunk(c, line + [10, 10]) == Some(line + [10, 10])
  {
    var prefix: Bytes := [100, 97, 116, 97, 58, 32];
    assert prefix == DATA_PREFIX;
    LineAndBlank(line);
    ThreeLines(c, line);
  }
}
