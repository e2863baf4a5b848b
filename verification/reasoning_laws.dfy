/** Which payloads are rewritten, byte by byte, and what texts are joined (src/localgateway/reasoning.py). */
module ReasoningLaws {
  import opened Wrappers
  import opened Sequences
  import opened Sse
  import opened JsonValues
  import opened Reasoning
  import opened ReasoningStream

  // ---------- which payloads are read ----------

  /** The bytes of part stand in s from i on. */
  predicate StandsAt(s: Bytes, part: Bytes, i: int) {
    0 <= i && i + |part| <= |s| && s[i..i + |part|] == part
  }

  lemma ContainsExactly(s: Bytes, part: Bytes)
    ensures Contains(s, part) <==> exists i :: StandsAt(s, part, i)
  {
    if i :| 0 <= i <= |s| && HasPrefix(s[i..], part) {
      assert s[i..][..|part|] == s[i..i + |part|];
      assert StandsAt(s, part, i);
    }
    if i :| StandsAt(s, part, i) {
      assert s[i..][..|part|] == s[i..i + |part|];
      assert HasPrefix(s[i..], part);
    }
  }

  /** The payload holds the word `reasoning`, or the word `thinking`. */
  ghost predicate Mentions(s: Bytes) {
    || (exists i :: StandsAt(s, [114, 101, 97, 115, 111, 110, 105, 110, 103], i))
    || (exists i :: StandsAt(s, [116, 104, 105, 110, 107, 105, 110, 103], i))
  }

  lemma MentionsExactly(s: Bytes)
    ensures Contains(s, REASONING) || Contains(s, THINKING) <==> Mentions(s)
  {
    ContainsExactly(s, REASONING);
    ContainsExactly(s, THINKING);
  }

  /** An event that mentions neither word passes as it is, and so does the end mark and whatever is no JSON
      object; another one is printed anew if normalising its object changes it. */
  lemma EventIsRewrittenExactly(c: Codec, ev: Event)
    ensures var o := EventObject(c, ev);
      Rewritten(c, ev) ==
        if ev.done || !Mentions(ev.data) || o.None? then Some(RenderEvent(ev))
        else if NormalizedObject(o.value).None? then None
        else if NormalizedObject(o.value).value == o.value then Some(RenderEvent(ev))
        else if c.dumps(JObj(NormalizedObject(o.value).value)).None? then None
        else Some([100, 97, 116, 97, 58, 32] + c.dumps(JObj(NormalizedObject(o.value).value)).value + [10, 10])
  {
    MentionsExactly(ev.data);
    assert DATA_PREFIX == [100, 97, 116, 97, 58, 32];
  }

  // ---------- reasoning in parts ----------

  /** The parts that carry text, as providers send them, and one of another type. */
  datatype Part =
    | Bare(text: Text)
    | Untyped(text: Text)
    | Thinking(text: Text)
    | Texts(text: Text)
    | Foreign(fields: Object)

  predicate Proper(p: Part) {
    p.Foreign? ==>
      && Str("type") in p.fields
      && p.fields[Str("type")] !in {JNull, JStr(Str("thinking")), JStr(Str("text"))}
  }

  function Sent(p: Part): Json {
    match p
    case Bare(text) => JStr(text)
    case Untyped(text) => JObj(map[Str("text") := JStr(text)])
    case Thinking(text) => JObj(map[Str("type") := JStr(Str("thinking")), Str("thinking") := JStr(text)])
    case Texts(text) => JObj(map[Str("type") := JStr(Str("text")), Str("text") := JStr(text)])
    case Foreign(fields) => JObj(fields)
  }

  function SentAll(ps: seq<Part>): seq<Json> {
    if ps == [] then [] else [Sent(ps[0])] + SentAll(ps[1..])
  }

  function Joined(ps: seq<Part>): Text {
    if ps == [] then [] else (if ps[0].Foreign? then [] else ps[0].text) + Joined(ps[1..])
  }

  lemma KeysDiffer()
    ensures Str("type") != Str("text") && Str("type") != Str("thinking") && Str("text") != Str("thinking")
  {
    assert Chars(Str("type")) != Chars(Str("text")) && |Str("thinking")| == 8 && |Str("text")| == 4;
    assert "type"[1] != "text"[1];
  }

  lemma SentPart(p: Part)
    requires Proper(p)
    ensures PartText(Sent(p)) == Some(if p.Foreign? then [] else p.text)
  {
    KeysDiffer();
  }

  lemma {:induction false} SentParts(ps: seq<Part>)
    requires forall i :: 0 <= i < |ps| ==> Proper(ps[i])
    ensures PartsText(SentAll(ps)) == Some(Joined(ps))
  {
    if ps == [] {
    } else {
      SentPart(ps[0]);
      SentParts(ps[1..]);
      assert SentAll(ps)[1..] == SentAll(ps[1..]);
    }
  }

  lemma FirstTextOfParts(o: Object, ps: seq<Part>)
    requires forall i :: 0 <= i < |ps| ==> Proper(ps[i])
    requires Get(o, "reasoning_content") == JNull && Get(o, "reasoning") == JNull
    requires Get(o, "thinking") == JList(SentAll(ps))
    ensures FirstText(o, REASONING_KEYS) == Some(Joined(ps))
  {
    SentParts(ps);
    FirstTextUnrolled(o);
  }

  /** The object with this text in both fields, if there is any. */
  function BothFilled(o: Object, text: Text): Object {
    if text == [] then o else o[Str("reasoning_content") := JStr(text)][Str("reasoning") := JStr(text)]
  }

  lemma DeltaIsFilled(o: Object, text: Text)
    requires Str("reasoning_content") !in o && Str("reasoning") !in o
    requires FirstText(o, REASONING_KEYS) == Some(text)
    ensures NormalizedDelta(o) == Some(BothFilled(o, text))
  {
    assert |Str("reasoning_content")| == 17 && |Str("reasoning")| == 9;
  }

  /** A delta whose reasoning comes in parts, and in no other field, gets the parts' text, joined, in both
      fields that clients read. */
  lemma PartsFillBothFields(o: Object, ps: seq<Part>)
    requires forall i :: 0 <= i < |ps| ==> Proper(ps[i])
    requires Str("reasoning_content") !in o && Str("reasoning") !in o
    requires Str("thinking") in o && o[Str("thinking")] == JList(SentAll(ps))
    ensures NormalizedDelta(o) == Some(BothFilled(o, Joined(ps)))
  {
    FirstTextOfParts(o, ps);
    DeltaIsFilled(o, Joined(ps));
  }

  // ---------- where reasoning is looked for ----------

  /** The field's object is normalised; without an object there, the field stays as it is. */
  predicate FilledAt(was: Object, now: Object, field: string) {
    if Str(field) in was && was[Str(field)].JObj? then
      && NormalizedDelta(was[Str(field)].fields).Some? && Str(field) in now
      && now[Str(field)] == JObj(NormalizedDelta(was[Str(field)].fields).value)
    else (Str(field) in now <==> Str(field) in was) && (Str(field) in was ==> now[Str(field)] == was[Str(field)])
  }

  predicate FilledChoice(was: Json, now: Json) {
    if !was.JObj? then now == was
    else
      && now.JObj? && FilledAt(was.fields, now.fields, "delta") && FilledAt(was.fields, now.fields, "message")
      && now.fields.Keys == was.fields.Keys
      && forall k :: k in was.fields && k != Str("delta") && k != Str("message") ==> now.fields[k] == was.fields[k]
  }

  lemma ChoiceIsFilled(choice: Json)
    requires NormalizedChoice(choice).Some?
    ensures FilledChoice(choice, NormalizedChoice(choice).value)
  {
    assert |Str("delta")| == 5 && |Str("message")| == 7;
  }

  lemma {:induction false} ChoicesAreFilled(choices: seq<Json>)
    requires NormalizedChoices(choices).Some?
    ensures var now := NormalizedChoices(choices).value;
      |now| == |choices| && forall i :: 0 <= i < |choices| ==> FilledChoice(choices[i], now[i])
  {
    if choices == [] {
    } else {
      ChoiceIsFilled(choices[0]);
      ChoicesAreFilled(choices[1..]);
    }
  }

  /** Of an object with choices the delta and the message of each are normalised, and nothing else of them
      changes; then the object itself is. */
  lemma EveryMessageIsFilled(o: Object, choices: seq<Json>) returns (now: seq<Json>)
    requires NormalizedObject(o).Some? && Str("choices") in o && o[Str("choices")] == JList(choices)
    ensures |now| == |choices| && forall i :: 0 <= i < |choices| ==> FilledChoice(choices[i], now[i])
    ensures NormalizedObject(o) == NormalizedDelta(o[Str("choices") := JList(now)])
  {
    ChoicesAreFilled(choices);
    now := NormalizedChoices(choices).value;
  }
}
