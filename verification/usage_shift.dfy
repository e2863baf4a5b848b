/** Moving input tokens to cached tokens in relayed usage numbers, for backends without a price for
    cached input (src/localgateway/streaming.py:53-122). */
module UsageShift {
  import opened Wrappers
  import opened Sequences
  import opened Sse
  import opened JsonValues
  import opened Reasoning
  import opened ReasoningStream

  const USAGE: Bytes := [34, 117, 115, 97, 103, 101, 34]  // "usage", with its quotes

  // ---------- one usage object ----------

  /** The number that isinstance(x, int) lets through; True counts as 1. */
  function AsInt(j: Json): Option<int> {
    match j
    case JInt(n) => Some(n)
    case JBool(b) => Some(if b then 1 else 0)
    case _ => None
  }

  /** What `(j or 0) + n` is; None when adding raises. */
  function Plus(c: Codec, j: Json, n: int): Option<Json> {
    if !Truthy(j) then Some(JInt(n))
    else if AsInt(j).Some? then Some(JInt(AsInt(j).value + n))
    else if j.JFloat? then c.plus(j, n)
    else None
  }

  datatype Shift = Unchanged | Changed(obj: Object) | Raises

  function Details(usage: Object): Object {
    if Get(usage, "prompt_tokens_details").JObj? then Get(usage, "prompt_tokens_details").fields else map[]
  }

  /** All prompt tokens become cached tokens, in both places where those are counted. */
  function ShiftedUsage(c: Codec, usage: Object, n: int): Option<Object> {
    var cached := Plus(c, Get(Details(usage), "cached_tokens"), n);
    var read := Plus(c, Get(usage, "cache_read_input_tokens"), n);
    if cached.None? || read.None? then None
    else
      var details := Put(Details(usage), "cached_tokens", cached.value);
      Some(Put(Put(Put(usage, "prompt_tokens", JInt(0)), "prompt_tokens_details", JObj(details)),
               "cache_read_input_tokens", read.value))
  }

  function ShiftedObject(c: Codec, obj: Object): Shift {
    if !Get(obj, "usage").JObj? then Unchanged
    else
      var usage := Get(obj, "usage").fields;
      var n := AsInt(Get(usage, "prompt_tokens"));
      if n.None? || n.value == 0 then Unchanged
      else
        var moved := ShiftedUsage(c, usage, n.value);
        if moved.None? then Raises else Changed(Put(obj, "usage", JObj(moved.value)))
  }

  /** src/localgateway/streaming.py:53-75: the same by successive updates. */
  method ShiftUsageObject(c: Codec, obj: Object) returns (r: Shift)
    ensures r == ShiftedObject(c, obj)
  {
    if !Get(obj, "usage").JObj? {
      return Unchanged;
    }
    var usage := Get(obj, "usage").fields;
    ghost var was := usage;
    var pt := AsInt(Get(usage, "prompt_tokens"));
    if pt.None? || pt.value == 0 {
      return Unchanged;
    }
    usage := Put(usage, "prompt_tokens", JInt(0));
    var details := Details(usage);
    assert details == Details(was);
    var cached := Plus(c, Get(details, "cached_tokens"), pt.value);
    if cached.None? {
      return Raises;
    }
    usage := Put(usage, "prompt_tokens_details", JObj(Put(details, "cached_tokens", cached.value)));
    assert Get(usage, "cache_read_input_tokens") == Get(was, "cache_read_input_tokens");
    var read := Plus(c, Get(usage, "cache_read_input_tokens"), pt.value);
    if read.None? {
      return Raises;
    }
    usage := Put(usage, "cache_read_input_tokens", read.value);
    return Changed(Put(obj, "usage", JObj(usage)));
  }

  /** What n cannot be added to: text, a list or an object that is not empty, or a float too far from it. */
  predicate NoCount(c: Codec, j: Json, n: int) {
    Truthy(j) && (j.JStr? || j.JList? || j.JObj? || (j.JFloat? && c.plus(j, n).None?))
  }

  /** There are prompt tokens to move and one of the two counts of cached tokens is none. */
  predicate CountsRaise(c: Codec, obj: Object) {
    && Get(obj, "usage").JObj?
    && var usage := Get(obj, "usage").fields;
       var n := AsInt(Get(usage, "prompt_tokens"));
       && n.Some? && n.value != 0
       && (NoCount(c, Get(Details(usage), "cached_tokens"), n.value)
           || NoCount(c, Get(usage, "cache_read_input_tokens"), n.value))
  }

  /** Shifting an object raises exactly when it has prompt tokens to move to a count that is none. */
  lemma ShiftRaisesExactly(c: Codec, obj: Object)
    ensures ShiftedObject(c, obj).Raises? <==> CountsRaise(c, obj)
  {
    if Get(obj, "usage").JObj? {
      var usage := Get(obj, "usage").fields;
      var n := AsInt(Get(usage, "prompt_tokens"));
      if n.Some? {
        PlusRaises(c, Get(Details(usage), "cached_tokens"), n.value);
        PlusRaises(c, Get(usage, "cache_read_input_tokens"), n.value);
      }
    }
  }

  lemma PlusRaises(c: Codec, j: Json, n: int)
    ensures Plus(c, j, n).None? <==> NoCount(c, j, n)
  {
  }

  /** Tokens are moved, not lost, and moving them again moves nothing. */
  lemma ShiftConserves(c: Codec, obj: Object)
    requires ShiftedObject(c, obj).Changed?
    ensures Get(obj, "usage").JObj? && Get(ShiftedObject(c, obj).obj, "usage").JObj?
    ensures var before, after := Get(obj, "usage").fields, Get(ShiftedObject(c, obj).obj, "usage").fields;
            var cached := AsInt(Get(Details(before), "cached_tokens"));
            && Get(after, "prompt_tokens") == JInt(0)
            && (cached.Some? ==>
                  Get(Details(after), "cached_tokens")
                  == JInt(cached.value + AsInt(Get(before, "prompt_tokens")).value))
    ensures ShiftedObject(c, ShiftedObject(c, obj).obj) == Unchanged
    ensures ShiftedObject(c, obj).obj != obj
  {
  }

  lemma SumHasNoText(c: Codec, j: Json, n: int)
    requires ValidCodec(c) && Plus(c, j, n).Some?
    ensures AllText(Plus(c, j, n).value, NoPairs)
  {
  }

  lemma FieldHasText(o: Object, key: string, p: Text -> bool)
    requires AllText(JObj(o), p)
    ensures AllText(Get(o, key), p)
  {
  }

  lemma ThreePuts(usage: Object, details: Object, cached: Json, read: Json, p: Text -> bool)
    requires AllText(JObj(usage), p) && AllText(JObj(details), p) && AllText(cached, p) && AllText(read, p)
    requires p(Str("cached_tokens")) && p(Str("prompt_tokens"))
    requires p(Str("prompt_tokens_details")) && p(Str("cache_read_input_tokens"))
    ensures var moved := JObj(Put(details, "cached_tokens", cached));
            AllText(JObj(Put(Put(Put(usage, "prompt_tokens", JInt(0)), "prompt_tokens_details", moved),
                             "cache_read_input_tokens", read)), p)
  {
    PutKeepsText(details, "cached_tokens", cached, p);
    var moved := JObj(Put(details, "cached_tokens", cached));
    var zero := Put(usage, "prompt_tokens", JInt(0));
    PutKeepsText(usage, "prompt_tokens", JInt(0), p);
    PutKeepsText(zero, "prompt_tokens_details", moved, p);
    PutKeepsText(Put(zero, "prompt_tokens_details", moved), "cache_read_input_tokens", read, p);
  }

  lemma ShiftedUsageKeepsNoPairs(c: Codec, usage: Object, n: int)
    requires ValidCodec(c) && AllText(JObj(usage), NoPairs) && ShiftedUsage(c, usage, n).Some?
    ensures AllText(JObj(ShiftedUsage(c, usage, n).value), NoPairs)
  {
    FieldHasText(usage, "prompt_tokens_details", NoPairs);
    SumHasNoText(c, Get(Details(usage), "cached_tokens"), n);
    SumHasNoText(c, Get(usage, "cache_read_input_tokens"), n);
    ThreePuts(usage, Details(usage), Plus(c, Get(Details(usage), "cached_tokens"), n).value,
              Plus(c, Get(usage, "cache_read_input_tokens"), n).value, NoPairs);
  }

  /** Shifting brings no pair of surrogates together. */
  lemma ShiftKeepsNoPairs(c: Codec, obj: Object)
    requires ValidCodec(c) && AllText(JObj(obj), NoPairs) && ShiftedObject(c, obj).Changed?
    ensures AllText(JObj(ShiftedObject(c, obj).obj), NoPairs)
  {
    var usage := Get(obj, "usage").fields;
    var n := AsInt(Get(usage, "prompt_tokens")).value;
    FieldHasText(obj, "usage", NoPairs);
    ShiftedUsageKeepsNoPairs(c, usage, n);
    PutKeepsText(obj, "usage", JObj(ShiftedUsage(c, usage, n).value), NoPairs);
  }

  // ---------- one line ----------

  function LineObject(c: Codec, line: Bytes): Option<Object> {
    if !HasPrefix(line, DATA_PREFIX) || IsDone(line[|DATA_PREFIX|..]) then None
    else
      match c.loads(line[|DATA_PREFIX|..])
      case Some(JObj(fields)) => Some(fields)
      case _ => None
  }

  /** What shifting a line comes to; printing the changed object can raise too. */
  function LineShift(c: Codec, line: Bytes): Shift {
    var obj := LineObject(c, line);
    if obj.None? then Unchanged else PrintedShift(c, ShiftedObject(c, obj.value))
  }

  function PrintedShift(c: Codec, shift: Shift): Shift {
    if shift.Changed? && c.escaped(JObj(shift.obj)).None? then Raises else shift
  }

  /** The object with its tokens moved cannot be printed. */
  predicate CannotPrintShifted(c: Codec, obj: Object) {
    ShiftedObject(c, obj).Changed? && c.escaped(JObj(ShiftedObject(c, obj).obj)).None?
  }

  /** A line raises exactly when it holds an object whose counts raise, or which cannot be printed after
      its tokens have moved. */
  lemma LineRaisesExactly(c: Codec, line: Bytes)
    ensures LineShift(c, line).Raises?
      <==> && LineObject(c, line).Some?
           && (CountsRaise(c, LineObject(c, line).value) || CannotPrintShifted(c, LineObject(c, line).value))
  {
    if LineObject(c, line).Some? {
      ShiftRaisesExactly(c, LineObject(c, line).value);
    }
  }

  /** The line as it is sent on; a line that raises stays. */
  function ShiftedLine(c: Codec, line: Bytes): Bytes {
    if LineShift(c, line).Changed? then DATA_PREFIX + c.escaped(JObj(LineShift(c, line).obj)).value else line
  }

  function ShiftedLines(c: Codec, lines: seq<Bytes>): (r: seq<Bytes>)
    ensures |r| == |lines|
  {
    if lines == [] then [] else [ShiftedLine(c, lines[0])] + ShiftedLines(c, lines[1..])
  }

  predicate AnyShifts(c: Codec, lines: seq<Bytes>) {
    exists l :: l in lines && LineShift(c, l).Changed?
  }

  predicate AnyRaises(c: Codec, lines: seq<Bytes>) {
    exists l :: l in lines && LineShift(c, l).Raises?
  }

  // ---------- one chunk ----------

  predicate Continuation(b: byte) {
    0x80 <= b < 0xC0
  }

  /** How many bytes the character at the front takes in well-formed UTF-8; 0 if it is malformed. */
  function CharLength(s: Bytes): (n: nat)
    ensures n <= |s| && n <= 4
  {
    if s == [] then 0
    else if s[0] < 0x80 then 1
    else if 0xC2 <= s[0] < 0xE0 then (if |s| > 1 && Continuation(s[1]) then 2 else 0)
    else if 0xE0 <= s[0] < 0xF0 then
      (if |s| > 2 && Continuation(s[1]) && Continuation(s[2])
          && (s[0] == 0xE0 ==> s[1] >= 0xA0) && (s[0] == 0xED ==> s[1] < 0xA0) then 3 else 0)
    else if 0xF0 <= s[0] < 0xF5 then
      (if |s| > 3 && Continuation(s[1]) && Continuation(s[2]) && Continuation(s[3])
          && (s[0] == 0xF0 ==> s[1] >= 0x90) && (s[0] == 0xF4 ==> s[1] < 0x90) then 4 else 0)
    else 0
  }

  predicate Utf8(s: Bytes) {
    s == [] || (CharLength(s) > 0 && Utf8(s[CharLength(s)..]))
  }

  /** The chunk is looked at line by line: it decodes, and mentions usage. */
  predicate Inspected(chunk: Bytes) {
    Utf8(chunk) && Contains(chunk, USAGE)
  }

  /** A chunk as it is sent on; None if shifting raises. A changed chunk gets one line end more. */
  function ShiftedChunk(c: Codec, chunk: Bytes): Option<Bytes> {
    var lines := SplitLines(chunk);
    if !Inspected(chunk) then Some(chunk)
    else if AnyRaises(c, lines) then None
    else if !AnyShifts(c, lines) then Some(chunk)
    else Some(JoinLines(ShiftedLines(c, lines)) + [LF])
  }

  lemma ShiftedLinesSnoc(c: Codec, lines: seq<Bytes>, i: nat)
    requires i < |lines|
    ensures ShiftedLines(c, lines[..i + 1]) == ShiftedLines(c, lines[..i]) + [ShiftedLine(c, lines[i])]
    ensures AnyShifts(c, lines[..i + 1]) <==> AnyShifts(c, lines[..i]) || LineShift(c, lines[i]).Changed?
  {
    PrefixSnoc(lines, i);
    ShiftedLinesAppend(c, lines[..i], [lines[i]]);
    assert [lines[i]][1..] == [];
    assert lines[i] in [lines[i]];
  }

  lemma {:induction false} ShiftedLinesAppend(c: Codec, a: seq<Bytes>, b: seq<Bytes>)
    ensures ShiftedLines(c, a + b) == ShiftedLines(c, a) + ShiftedLines(c, b)
    ensures AnyShifts(c, a + b) <==> AnyShifts(c, a) || AnyShifts(c, b)
    ensures AnyRaises(c, a + b) <==> AnyRaises(c, a) || AnyRaises(c, b)
  {
    if a == [] {
      Units(b);
      Units(ShiftedLines(c, b));
    } else {
      assert (a + b)[1..] == a[1..] + b;
      ShiftedLinesAppend(c, a[1..], b);
      Assoc([ShiftedLine(c, a[0])], ShiftedLines(c, a[1..]), ShiftedLines(c, b));
    }
  }

  /** src/localgateway/streaming.py:92-122. */
  method ShiftStreamUsage(c: Codec, chunk: Bytes) returns (out: Option<Bytes>)
    ensures out == ShiftedChunk(c, chunk)
  {
    if !Inspected(chunk) {
      return Some(chunk);
    }
    var lines := SplitLines(chunk);
    var sent: seq<Bytes>, changed := [], false;
    for i := 0 to |lines|
      invariant sent == ShiftedLines(c, lines[..i]) && (changed <==> AnyShifts(c, lines[..i]))
      invariant !AnyRaises(c, lines[..i])
    {
      var line := lines[i];
      ShiftedLinesSnoc(c, lines, i);
      PrefixSnoc(lines, i);
      var obj := LineObject(c, line);
      var shift := Unchanged;
      if obj.Some? {
        shift := ShiftUsageObject(c, obj.value);
        if shift.Changed? && c.escaped(JObj(shift.obj)).None? {
          shift := Raises;
        }
      }
      match shift {
        case Raises =>
          assert line in lines;
          return None;
        case Changed(o) =>
          changed := true;
          sent := sent + [DATA_PREFIX + c.escaped(JObj(o)).value];
        case Unchanged =>
          sent := sent + [line];
      }
    }
    assert lines[..|lines|] == lines;
    if !changed {
      return Some(chunk);
    }
    return Some(JoinLines(sent) + [LF]);
  }
}
