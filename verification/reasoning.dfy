/** Reasoning-field normalisation of chat objects and of event streams
    (src/localgateway/reasoning.py).

    Reading and printing JSON is a codec passed in; a TypeError the code can raise (joining a
    reasoning part that is not text) is None. */
module Reasoning {
  import opened Wrappers
  import opened Sequences
  import opened Sse
  import opened JsonValues
  import opened SseLaws
  import opened SseRoundTrip

  /** What the JSON library guarantees: it prints as UTF-8 what holds no surrogate, reads back what it
      prints, joins pairs of surrogates when reading, prints no raw line end, and does not accept the
      end-of-stream mark. */
  ghost predicate ValidCodec(c: Codec) {
    && (forall j :: c.dumps(j).Some? <==> Printable(j))
    && (forall j :: c.dumps(j).Some? ==> c.loads(c.dumps(j).value) == Some(j) && PlainLine(c.dumps(j).value))
    && (forall j :: c.escaped(j).Some? && AllText(j, NoPairs) ==>
          c.loads(c.escaped(j).value) == Some(j) && PlainLine(c.escaped(j).value))
    && (forall d :: c.loads(d).Some? ==> AllText(c.loads(d).value, NoPairs))
    && (forall j, n :: c.plus(j, n).Some? ==> c.plus(j, n).value.JFloat?)
    && (forall d :: IsDone(d) ==> c.loads(d).None?)
  }

  const REASONING_KEYS: seq<string> := ["reasoning_content", "reasoning", "thinking"]
  const TARGET_KEYS: seq<string> := ["reasoning_content", "reasoning"]
  const CHOICE_FIELDS: seq<string> := ["delta", "message"]
  const REASONING: Bytes := [114, 101, 97, 115, 111, 110, 105, 110, 103]
  const THINKING: Bytes := [116, 104, 105, 110, 107, 105, 110, 103]

  // ---------- one delta or message ----------

  /** The text of one reasoning part: empty if it is skipped, None if joining it raises. */
  function PartText(part: Json): Option<Text> {
    match part
    case JStr(s) => Some(s)
    case JObj(o) =>
      if Get(o, "type") in [JNull, JStr(Str("thinking")), JStr(Str("text"))] then
        var t := if Truthy(Get(o, "thinking")) then Get(o, "thinking") else Get(o, "text");
        if !Truthy(t) then Some([]) else if t.JStr? then Some(t.s) else None
      else Some([])
    case _ => Some([])
  }

  function PartsText(parts: seq<Json>): Option<Text> {
    if parts == [] then Some([])
    else
      var first, rest := PartText(parts[0]), PartsText(parts[1..]);
      if first.None? || rest.None? then None else Some(first.value + rest.value)
  }

  function FieldText(v: Json): Option<Text> {
    match v
    case JList(items) => PartsText(items)
    case JStr(s) => Some(s)
    case _ => Some([])
  }

  /** The first non-empty reasoning text among the keys. */
  function FirstText(o: Object, keys: seq<string>): Option<Text> {
    if keys == [] then Some([])
    else
      var t := FieldText(Get(o, keys[0]));
      if t.None? || t.value != [] then t else FirstText(o, keys[1..])
  }

  function FillTargets(o: Object, text: Text): Object {
    var a := if Truthy(Get(o, "reasoning_content")) then o else Put(o, "reasoning_content", JStr(text));
    if Truthy(Get(a, "reasoning")) then a else Put(a, "reasoning", JStr(text))
  }

  /** Both reasoning fields are filled with the first reasoning text, where they are empty. */
  function NormalizedDelta(o: Object): Option<Object> {
    match FirstText(o, REASONING_KEYS)
    case None => None
    case Some(text) => Some(if text == [] then o else FillTargets(o, text))
  }

  lemma PartsTextSnoc(parts: seq<Json>, i: nat)
    requires i < |parts|
    ensures PartsText(parts[..i + 1]) ==
            (var a, b := PartsText(parts[..i]), PartText(parts[i]);
             if a.None? || b.None? then None else Some(a.value + b.value))
  {
    if i == 0 {
      assert parts[..1] == [parts[0]] && parts[..1][1..] == [];
      assert PartText(parts[0]).Some? ==> PartText(parts[0]).value + [] == [] + PartText(parts[0]).value;
    } else {
      PartsTextSnoc(parts[1..], i - 1);
      assert parts[1..][..i] == parts[..i + 1][1..];
      assert parts[1..][..i - 1] == parts[..i][1..];
      var a, b, c := PartText(parts[0]), PartsText(parts[..i][1..]), PartText(parts[i]);
      if a.Some? && b.Some? && c.Some? {
        Assoc(a.value, b.value, c.value);
      }
    }
  }

  lemma {:induction false} PartsTextStaysNone(parts: seq<Json>, i: nat)
    requires i <= |parts| && PartsText(parts[..i]).None?
    ensures PartsText(parts).None?
    decreases |parts| - i
  {
    if i < |parts| {
      PartsTextSnoc(parts, i);
      PartsTextStaysNone(parts, i + 1);
    } else {
      assert parts[..i] == parts;
    }
  }

  /** Dual-emits the reasoning text of one delta; None when joining its parts raises. */
  method NormalizeDelta(delta: Object) returns (r: Option<(Object, bool)>)
    ensures r.None? <==> NormalizedDelta(delta).None?
    ensures r.Some? ==> NormalizedDelta(delta) == Some(r.value.0) && (r.value.1 <==> r.value.0 != delta)
  {
    var value: Text := [];
    var k := 0;
    while k < |REASONING_KEYS| && value == []
      invariant 0 <= k <= |REASONING_KEYS|
      invariant FirstText(delta, REASONING_KEYS)
             == if value == [] then FirstText(delta, REASONING_KEYS[k..]) else Some(value)
    {
      var v := Get(delta, REASONING_KEYS[k]);
      if v.JList? {
        var text: Text := [];
        for i := 0 to |v.items|
          invariant PartsText(v.items[..i]) == Some(text)
        {
          var t := PartText(v.items[i]);
          PartsTextSnoc(v.items, i);
          if t.None? {
            PartsTextStaysNone(v.items, i + 1);
            return None;
          }
          text := text + t.value;
        }
        assert v.items[..|v.items|] == v.items;
        value := text;
      } else if v.JStr? {
        value := v.s;
      }
      k := k + 1;
    }
    if value == [] {
      return Some((delta, false));
    }
    var out, changed := delta, false;
    for i := 0 to |TARGET_KEYS|
      invariant i == 0 ==> out == delta
      invariant i == 1 ==> out == if Truthy(Get(delta, "reasoning_content")) then delta
                                  else Put(delta, "reasoning_content", JStr(value))
      invariant i == 2 ==> out == FillTargets(delta, value)
      invariant changed <==> out != delta
    {
      var target := TARGET_KEYS[i];
      if !Truthy(Get(out, target)) {
        ghost var before := out;
        assert i == 1 && before != delta ==> Get(before, "reasoning_content") != Get(delta, "reasoning_content");
        out := Put(out, target, JStr(value));
        assert Get(out, target) != Get(delta, target);
        changed := true;
      }
    }
    return Some((out, changed));
  }

  /** Normalising a delta twice is normalising it once. */
  lemma NormalizedDeltaIdempotent(o: Object)
    requires NormalizedDelta(o).Some?
    ensures NormalizedDelta(NormalizedDelta(o).value) == NormalizedDelta(o)
  {
    var text := FirstText(o, REASONING_KEYS);
    FirstTextUnrolled(o);
    if text.value != [] {
      var g := FillTargets(o, text.value);
      FirstTextUnrolled(g);
      assert Truthy(Get(g, "reasoning_content")) && Truthy(Get(g, "reasoning"));
      assert Get(g, "thinking") == Get(o, "thinking");
    }
  }

  lemma FirstTextUnrolled(o: Object)
    ensures var a, b, c := FieldText(Get(o, "reasoning_content")), FieldText(Get(o, "reasoning")),
                           FieldText(Get(o, "thinking"));
            FirstText(o, REASONING_KEYS)
            == if a.None? || a.value != [] then a else if b.None? || b.value != [] then b
               else if c.None? || c.value != [] then c else Some([])
  {
    assert REASONING_KEYS[1..] == ["reasoning", "thinking"];
    assert ["reasoning", "thinking"][1..] == ["thinking"];
    assert ["thinking"][1..] == [];
    assert FirstText(o, []) == Some([]);
    assert FirstText(o, ["thinking"]) ==
           var c := FieldText(Get(o, "thinking")); if c.None? || c.value != [] then c else FirstText(o, []);
    assert FirstText(o, ["reasoning", "thinking"]) ==
           var b := FieldText(Get(o, "reasoning"));
           if b.None? || b.value != [] then b else FirstText(o, ["thinking"]);
  }

  // ---------- a whole chat object ----------

  function NormalizedField(o: Object, field: string): Option<Object> {
    if Get(o, field).JObj? then
      var d := NormalizedDelta(Get(o, field).fields);
      if d.None? then None else Some(Put(o, field, JObj(d.value)))
    else Some(o)
  }

  function NormalizedChoice(choice: Json): Option<Json> {
    if !choice.JObj? then Some(choice)
    else
      var a := NormalizedField(choice.fields, "delta");
      if a.None? then None
      else
        var b := NormalizedField(a.value, "message");
        if b.None? then None else Some(JObj(b.value))
  }

  function NormalizedChoices(choices: seq<Json>): Option<seq<Json>> {
    if choices == [] then Some([])
    else
      var first, rest := NormalizedChoice(choices[0]), NormalizedChoices(choices[1..]);
      if first.None? || rest.None? then None else Some([first.value] + rest.value)
  }

  /** Every delta and message of the choices is normalised, and then the object itself. */
  function NormalizedObject(o: Object): Option<Object> {
    if Get(o, "choices").JList? then
      var cs := NormalizedChoices(Get(o, "choices").items);
      if cs.None? then None else NormalizedDelta(Put(o, "choices", JList(cs.value)))
    else NormalizedDelta(o)
  }

  lemma NormalizedFieldIdempotent(o: Object, field: string)
    requires NormalizedField(o, field).Some?
    ensures NormalizedField(NormalizedField(o, field).value, field) == NormalizedField(o, field)
  {
    if Get(o, field).JObj? {
      NormalizedDeltaIdempotent(Get(o, field).fields);
      var g := NormalizedField(o, field).value;
      assert Put(g, field, Get(g, field)) == g;
    }
  }

  lemma NormalizedChoiceIdempotent(choice: Json)
    requires NormalizedChoice(choice).Some?
    ensures NormalizedChoice(NormalizedChoice(choice).value) == NormalizedChoice(choice)
  {
    if choice.JObj? {
      var a := NormalizedField(choice.fields, "delta").value;
      var b := NormalizedField(a, "message").value;
      NormalizedFieldIdempotent(choice.fields, "delta");
      NormalizedFieldIdempotent(a, "message");
      assert Get(b, "delta") == Get(a, "delta");
      if Get(b, "delta").JObj? {
        assert Put(b, "delta", Get(b, "delta")) == b;
      }
    }
  }

  lemma {:induction false} NormalizedChoicesIdempotent(choices: seq<Json>)
    requires NormalizedChoices(choices).Some?
    ensures NormalizedChoices(NormalizedChoices(choices).value) == NormalizedChoices(choices)
  {
    if choices == [] {
    } else {
      NormalizedChoiceIdempotent(choices[0]);
      NormalizedChoicesIdempotent(choices[1..]);
      var out := NormalizedChoices(choices).value;
      assert out[1..] == NormalizedChoices(choices[1..]).value;
    }
  }

  /** Normalising a chat object twice is normalising it once. */
  lemma NormalizedObjectIdempotent(o: Object)
    requires NormalizedObject(o).Some?
    ensures NormalizedObject(NormalizedObject(o).value) == NormalizedObject(o)
  {
    if Get(o, "choices").JList? {
      var cs := NormalizedChoices(Get(o, "choices").items).value;
      var a := Put(o, "choices", JList(cs));
      var g := NormalizedDelta(a).value;
      NormalizedChoicesIdempotent(Get(o, "choices").items);
      NormalizedDeltaIdempotent(a);
      assert Get(g, "choices") == JList(cs);
      assert Put(g, "choices", JList(cs)) == g;
    } else {
      var g := NormalizedDelta(o).value;
      NormalizedDeltaIdempotent(o);
      assert Get(g, "choices") == Get(o, "choices");
    }
  }

  lemma {:induction false} NormalizedChoicesSnoc(cs: seq<Json>, i: nat)
    requires i < |cs|
    ensures NormalizedChoices(cs[..i + 1]) ==
            (var a, b := NormalizedChoices(cs[..i]), NormalizedChoice(cs[i]);
             if a.None? || b.None? then None else Some(a.value + [b.value]))
  {
    if i == 0 {
      assert cs[..1] == [cs[0]];
      assert NormalizedChoices(cs[..1][1..]) == Some([]);
      if NormalizedChoice(cs[0]).Some? {
        Units([NormalizedChoice(cs[0]).value]);
      }
    } else {
      NormalizedChoicesSnoc(cs[1..], i - 1);
      assert cs[1..][..i] == cs[..i + 1][1..];
      assert cs[1..][..i - 1] == cs[..i][1..];
      var a, b, c := NormalizedChoice(cs[0]), NormalizedChoices(cs[..i][1..]), NormalizedChoice(cs[i]);
      if a.Some? && b.Some? && c.Some? {
        Assoc([a.value], b.value, [c.value]);
      }
    }
  }

  lemma {:induction false} NormalizedChoicesStayNone(cs: seq<Json>, i: nat)
    requires i <= |cs| && NormalizedChoices(cs[..i]).None?
    ensures NormalizedChoices(cs).None?
    decreases |cs| - i
  {
    if i < |cs| {
      NormalizedChoicesSnoc(cs, i);
      NormalizedChoicesStayNone(cs, i + 1);
    } else {
      assert cs[..i] == cs;
    }
  }

  method NormalizeChoice(choice: Object) returns (r: Option<(Object, bool)>)
    ensures r.None? <==> NormalizedChoice(JObj(choice)).None?
    ensures r.Some? ==> NormalizedChoice(JObj(choice)) == Some(JObj(r.value.0))
    ensures r.Some? ==> (r.value.1 <==> r.value.0 != choice)
  {
    var out, changed := choice, false;
    for i := 0 to |CHOICE_FIELDS|
      invariant i == 0 ==> out == choice
      invariant i == 1 ==> Some(out) == NormalizedField(choice, "delta")
      invariant i == 2 ==> Some(JObj(out)) == NormalizedChoice(JObj(choice))
      invariant changed <==> out != choice
    {
      var field := CHOICE_FIELDS[i];
      if Get(out, field).JObj? {
        ghost var before := out;
        assert i == 1 && before != choice ==> Get(before, "delta") != Get(choice, "delta");
        assert i == 1 ==> Get(before, "message") == Get(choice, "message");
        var d := NormalizeDelta(Get(out, field).fields);
        if d.None? {
          return None;
        }
        out := Put(out, field, JObj(d.value.0));
        assert Put(before, field, Get(before, field)) == before;
        if d.value.1 {
          assert Get(out, field) != Get(choice, field);
          changed := true;
        }
      }
    }
    return Some((out, changed));
  }

  /** Normalises a chat object; the flag says whether anything changed. */
  method NormalizeObject(obj: Object) returns (r: Option<(Object, bool)>)
    ensures r.None? <==> NormalizedObject(obj).None?
    ensures r.Some? ==> NormalizedObject(obj) == Some(r.value.0) && (r.value.1 <==> r.value.0 != obj)
  {
    var changed, out := false, obj;
    var choices := Get(obj, "choices");
    if choices.JList? {
      var done: seq<Json> := [];
      for i := 0 to |choices.items|
        invariant NormalizedChoices(choices.items[..i]) == Some(done)
        invariant |done| == i && (changed <==> done != choices.items[..i])
      {
        var choice := choices.items[i];
        NormalizedChoicesSnoc(choices.items, i);
        assert choices.items[..i + 1] == choices.items[..i] + [choice];
        if choice.JObj? {
          var c := NormalizeChoice(choice.fields);
          if c.None? {
            NormalizedChoicesStayNone(choices.items, i + 1);
            return None;
          }
          done := done + [JObj(c.value.0)];
          if c.value.1 {
            changed := true;
            assert done[i] != choices.items[..i + 1][i];
          }
        } else {
          done := done + [choice];
        }
      }
      assert choices.items[..|choices.items|] == choices.items;
      out := Put(obj, "choices", JList(done));
      if !changed {
        assert out == obj;
      }
    }
    var d := NormalizeDelta(out);
    if d.None? {
      return None;
    }
    assert changed ==> Get(d.value.0, "choices") != Get(obj, "choices");
    return Some((d.value.0, changed || d.value.1));
  }

  /** A delta that changes changes its object. */
  lemma ChangedDeltaShows(o: Object, choice: Object, delta: Object)
    requires Get(o, "choices") == JList([JObj(choice)]) && Get(choice, "delta") == JObj(delta)
    requires NormalizedDelta(delta).Some? && NormalizedDelta(delta).value != delta
    ensures NormalizedObject(o).Some? ==> NormalizedObject(o).value != o
  {
    var one := [JObj(choice)];
    assert one[1..] == [];
    if NormalizedObject(o).Some? {
      var cs := NormalizedChoices(one).value;
      var g := NormalizedObject(o).value;
      assert Get(g, "choices") == JList(cs);
      assert Get(cs[0].fields, "delta") == JObj(NormalizedDelta(delta).value);
    }
  }

  lemma NormalizedDeltaKeeps(o: Object, key: string)
    requires NormalizedDelta(o).Some? && key != "reasoning_content" && key != "reasoning"
    ensures Get(NormalizedDelta(o).value, key) == Get(o, key)
  {
  }

  /** Normalising an object leaves all its other fields. */
  lemma NormalizedObjectKeeps(o: Object, key: string)
    requires NormalizedObject(o).Some? && key != "choices" && key != "reasoning_content" && key != "reasoning"
    ensures Get(NormalizedObject(o).value, key) == Get(o, key)
  {
    if Get(o, "choices").JList? {
      NormalizedDeltaKeeps(Put(o, "choices", JList(NormalizedChoices(Get(o, "choices").items).value)), key);
    } else {
      NormalizedDeltaKeeps(o, key);
    }
  }

  // ---------- what can be printed ----------

  /** All but one field of an object can be printed. */
  predicate OthersPrintable(o: Object, key: string) {
    forall k :: k in o && k != Str(key) ==> NoSurrogates(k) && Printable(o[k])
  }

  lemma PrintableParts(o: Object, key: string, value: Json)
    ensures Printable(JObj(o)) <==> Printable(Get(o, key)) && OthersPrintable(o, key)
    ensures Printable(JObj(Put(o, key, value))) <==> Printable(value) && OthersPrintable(o, key)
  {
    var k, g := Str(key), Put(o, key, value);
    assert forall j :: j in o && j != k ==> j in g && g[j] == o[j];
    assert k in g && g[k] == value && NoSurrogates(k);
  }

  lemma FalsyIsPrintable(j: Json)
    requires !Truthy(j)
    ensures Printable(j)
  {
  }

  lemma PartTextPrintable(part: Json)
    requires Printable(part) && PartText(part).Some?
    ensures NoSurrogates(PartText(part).value)
  {
    if part.JObj? {
      PrintableParts(part.fields, "thinking", JNull);
      PrintableParts(part.fields, "text", JNull);
    }
  }

  lemma {:induction false} PartsTextPrintable(parts: seq<Json>)
    requires Printable(JList(parts)) && PartsText(parts).Some?
    ensures NoSurrogates(PartsText(parts).value)
  {
    if parts == [] {
    } else {
      PartTextPrintable(parts[0]);
      PartsTextPrintable(parts[1..]);
    }
  }

  lemma {:induction false} FirstTextPrintable(o: Object, keys: seq<string>)
    requires Printable(JObj(o)) && FirstText(o, keys).Some?
    ensures NoSurrogates(FirstText(o, keys).value)
  {
    if keys == [] {
    } else {
      PrintableParts(o, keys[0], JNull);
      if Get(o, keys[0]).JList? && PartsText(Get(o, keys[0]).items).Some? {
        PartsTextPrintable(Get(o, keys[0]).items);
      }
      if FieldText(Get(o, keys[0])) == Some([]) {
        FirstTextPrintable(o, keys[1..]);
      }
    }
  }

  lemma FilledPrintable(o: Object, key: string, text: Text)
    requires Printable(JObj(o)) ==> NoSurrogates(text)
    requires !Truthy(Get(o, key))
    ensures Printable(JObj(Put(o, key, JStr(text)))) <==> Printable(JObj(o))
  {
    PrintableParts(o, key, JStr(text));
    FalsyIsPrintable(Get(o, key));
    assert Printable(JStr(text)) <==> NoSurrogates(text);
  }

  lemma DeltaKeepsPrintable(o: Object)
    requires NormalizedDelta(o).Some?
    ensures Printable(JObj(NormalizedDelta(o).value)) <==> Printable(JObj(o))
  {
    var text := FirstText(o, REASONING_KEYS).value;
    if Printable(JObj(o)) {
      FirstTextPrintable(o, REASONING_KEYS);
    }
    if text != [] {
      var a := if Truthy(Get(o, "reasoning_content")) then o else Put(o, "reasoning_content", JStr(text));
      if !Truthy(Get(o, "reasoning_content")) {
        FilledPrintable(o, "reasoning_content", text);
      }
      if !Truthy(Get(a, "reasoning")) {
        FilledPrintable(a, "reasoning", text);
      }
    }
  }

  lemma FieldKeepsPrintable(o: Object, field: string)
    requires NormalizedField(o, field).Some?
    ensures Printable(JObj(NormalizedField(o, field).value)) <==> Printable(JObj(o))
  {
    if Get(o, field).JObj? {
      var d := NormalizedDelta(Get(o, field).fields).value;
      DeltaKeepsPrintable(Get(o, field).fields);
      PrintableParts(o, field, JObj(d));
      assert Get(o, field) == JObj(Get(o, field).fields);
    }
  }

  lemma {:induction false} ChoicesKeepPrintable(choices: seq<Json>)
    requires NormalizedChoices(choices).Some?
    ensures Printable(JList(NormalizedChoices(choices).value)) <==> Printable(JList(choices))
  {
    if choices == [] {
    } else {
      var first, rest := choices[0], choices[1..];
      if first.JObj? {
        FieldKeepsPrintable(first.fields, "delta");
        FieldKeepsPrintable(NormalizedField(first.fields, "delta").value, "message");
      }
      ChoicesKeepPrintable(rest);
      ConsPrintable(first, rest);
      ConsPrintable(NormalizedChoice(first).value, NormalizedChoices(rest).value);
      HeadTail(choices);
    }
  }

  lemma ConsPrintable(first: Json, rest: seq<Json>)
    ensures Printable(JList([first] + rest)) <==> Printable(first) && Printable(JList(rest))
  {
    var all := [first] + rest;
    assert forall i :: 0 <= i < |rest| ==> all[i + 1] == rest[i];
    assert all[0] == first;
  }

  /** Normalising neither brings in a surrogate nor takes the last one away. */
  lemma NormalizingKeepsPrintable(o: Object)
    requires NormalizedObject(o).Some?
    ensures Printable(JObj(NormalizedObject(o).value)) <==> Printable(JObj(o))
  {
    if Get(o, "choices").JList? {
      var items := Get(o, "choices").items;
      var cs := NormalizedChoices(items).value;
      ChoicesKeepPrintable(items);
      PrintableParts(o, "choices", JList(cs));
      assert Get(o, "choices") == JList(items);
      DeltaKeepsPrintable(Put(o, "choices", JList(cs)));
    } else {
      DeltaKeepsPrintable(o);
    }
  }
}
