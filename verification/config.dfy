/** Saving, rotating, loading and restoring the configuration file (src/localgateway/config.py and
    restore_backup of src/localgateway/endpoints/admin.py).

    C is the content of a file and G a parsed configuration. Every file operation may fail with an
    OSError, and the machine may stop between any two of them or in the middle of writing a file. */
module Config {
  import opened Wrappers
  import opened Sequences
  import opened JsonValues

  const BACKUP_KEEP := 5

  /** The files beside each other: slot i of backups is .bak for 0 and .bak.i after that. */
  datatype Files<C> = Files(primary: Option<C>, backups: map<int, C>, tmp: Option<C>, restoreTmp: Option<C>)

  /** Parsing gives a configuration, or an error that loading expects, or another one: a TypeError, say,
      for a list of providers that is null. */
  datatype Parsed<G> = Good(cfg: G) | Malformed | Unexpected

  // ---------- parsing one file ----------

  /** Reading a file as JSON, and validating what was read. */
  datatype Reader<!C, !G> = Reader(loads: C -> Parsed<Json>, validate: Json -> Parsed<G>)

  function WithoutMode(provider: Json): Json {
    if provider.JObj? then JObj(provider.fields - {Str("reasoning_mode")}) else provider
  }

  function Stripped(items: seq<Json>): seq<Json> {
    if items == [] then [] else [WithoutMode(items[0])] + Stripped(items[1..])
  }

  /** Going through the providers drops a stale key of each; what cannot be gone through raises. */
  function Migrated(raw: Json): Parsed<Json> {
    if !raw.JObj? || Str("providers") !in raw.fields then Good(raw)
    else
      match Get(raw.fields, "providers")
      case JList(items) => Good(JObj(Put(raw.fields, "providers", JList(Stripped(items)))))
      case JStr(_) => Good(raw)
      case JObj(_) => Good(raw)
      case _ => Unexpected
  }

  function ParsedFile<C, G>(r: Reader<C, G>, content: C): Parsed<G> {
    match r.loads(content)
    case Malformed => Malformed
    case Unexpected => Unexpected
    case Good(raw) => if Migrated(raw).Good? then r.validate(Migrated(raw).cfg) else Unexpected
  }

  lemma {:induction false} StrippedAppend(a: seq<Json>, b: seq<Json>)
    ensures Stripped(a + b) == Stripped(a) + Stripped(b)
  {
    if a == [] {
      Units(b);
      Units(Stripped(b));
    } else {
      FirstOfSum(a, b);
      StrippedAppend(a[1..], b);
      Assoc([WithoutMode(a[0])], Stripped(a[1..]), Stripped(b));
    }
  }

  /** src/localgateway/config.py:372-379 and 404-405. */
  method ParseFile<C, G>(r: Reader<C, G>, content: C) returns (result: Parsed<G>)
    ensures result == ParsedFile(r, content)
  {
    var json := r.loads(content);
    if !json.Good? {
      return if json.Malformed? then Malformed else Unexpected;
    }
    var raw := json.cfg;
    if raw.JObj? && Str("providers") in raw.fields {
      var providers := Get(raw.fields, "providers");
      if !providers.JList? && !providers.JStr? && !providers.JObj? {
        return Unexpected;
      }
      if providers.JList? {
        var items: seq<Json> := [];
        for i := 0 to |providers.items|
          invariant items == Stripped(providers.items[..i])
        {
          PrefixSnoc(providers.items, i);
          StrippedAppend(providers.items[..i], [providers.items[i]]);
          assert [providers.items[i]][1..] == [];
          items := items + [WithoutMode(providers.items[i])];
        }
        assert providers.items[..|providers.items|] == providers.items;
        raw := JObj(Put(raw.fields, "providers", JList(items)));
      }
    }
    result := r.validate(raw);
  }

  /** The same provider, the stale key apart. */
  predicate Cleaned(was: Json, now: Json) {
    if was.JObj? then
      && now.JObj? && now.fields.Keys == was.fields.Keys - {Str("reasoning_mode")}
      && forall k :: k in now.fields ==> now.fields[k] == was.fields[k]
    else now == was
  }

  lemma {:induction false} StrippedCleans(items: seq<Json>)
    ensures |Stripped(items)| == |items|
    ensures forall i :: 0 <= i < |items| ==> Cleaned(items[i], Stripped(items)[i])
  {
    if items == [] {
    } else {
      StrippedCleans(items[1..]);
    }
  }

  /** Of an object with a list of providers just that key is dropped, from every provider that is an object. */
  lemma MigrationDropsOneKey(o: Object, items: seq<Json>)
    requires Str("providers") in o && o[Str("providers")] == JList(items)
    ensures Migrated(JObj(o)).Good? && Migrated(JObj(o)).cfg.JObj?
    ensures var now := Migrated(JObj(o)).cfg.fields;
      && now.Keys == o.Keys && (forall k :: k in o && k != Str("providers") ==> now[k] == o[k])
      && now[Str("providers")].JList? && |now[Str("providers")].items| == |items|
      && forall i :: 0 <= i < |items| ==> Cleaned(items[i], now[Str("providers")].items[i])
  {
    StrippedCleans(items);
  }

  predicate Iterable(j: Json) {
    j.JList? || j.JStr? || j.JObj?
  }

  /** With a reader that raises nothing unexpected itself, a file raises exactly when it is an object
      whose providers are there and cannot be gone through. */
  lemma FileRaisesExactly<C, G>(r: Reader<C, G>, content: C)
    requires !r.loads(content).Unexpected? && forall j :: !r.validate(j).Unexpected?
    ensures ParsedFile(r, content).Unexpected?
      <==> && r.loads(content).Good? && r.loads(content).cfg.JObj?
           && Str("providers") in r.loads(content).cfg.fields
           && !Iterable(Get(r.loads(content).cfg.fields, "providers"))
  {
  }

  // ---------- loading ----------

  /** The contents of the kept backups from slot i on, newest first. */
  function Kept<C>(backups: map<int, C>, i: nat): seq<C>
    decreases BACKUP_KEEP - i, |backups|
  {
    if i >= BACKUP_KEEP then []
    else (if i in backups then [backups[i]] else []) + Kept(backups, i + 1)
  }

  function Candidates<C>(f: Files<C>): seq<C> {
    (if f.primary.Some? then [f.primary.value] else []) + Kept(f.backups, 0)
  }

  /** The first content that is not malformed decides; Malformed if all are. */
  function FirstParsed<C, G>(parse: C -> Parsed<G>, contents: seq<C>): Parsed<G> {
    if contents == [] then Malformed
    else if !parse(contents[0]).Malformed? then parse(contents[0])
    else FirstParsed(parse, contents[1..])
  }

  /** What a fresh process loads; Malformed stands for the empty default, Unexpected for not starting. */
  function Loaded<C, G>(parse: C -> Parsed<G>, f: Files<C>): Parsed<G> {
    FirstParsed(parse, Candidates(f))
  }

  /** What a load looks at first. */
  function Newest<C>(f: Files<C>): Option<C> {
    if f.primary.Some? then f.primary else if 0 in f.backups then Some(f.backups[0]) else None
  }

  /** The content survives as what a load finds first. */
  predicate Carries<C(==)>(f: Files<C>, content: C) {
    Newest(f) == Some(content)
  }

  lemma NewestIsLoaded<C, G>(parse: C -> Parsed<G>, f: Files<C>)
    requires Newest(f).Some? && !parse(Newest(f).value).Malformed?
    ensures Loaded(parse, f) == parse(Newest(f).value)
  {
    if f.primary.None? {
      Units(Kept(f.backups, 0));
    }
  }

  lemma CarriedIsLoaded<C, G>(parse: C -> Parsed<G>, trail: seq<Files<C>>, from: nat, a: C, b: C)
    requires parse(a).Good? && parse(b).Good?
    requires forall i :: from <= i < |trail| ==> Carries(trail[i], a) || Carries(trail[i], b)
    ensures forall i :: from <= i < |trail| ==>
              Loaded(parse, trail[i]) == parse(a) || Loaded(parse, trail[i]) == parse(b)
  {
    forall i | from <= i < |trail|
      ensures Loaded(parse, trail[i]) == parse(a) || Loaded(parse, trail[i]) == parse(b)
    {
      NewestIsLoaded(parse, trail[i]);
    }
  }

  /** A load fails exactly when some file raises an unexpected error and every newer one is malformed,
      whatever good backups come after it. */
  lemma {:induction false} LoadFailsExactly<C, G>(parse: C -> Parsed<G>, contents: seq<C>)
    ensures FirstParsed(parse, contents).Unexpected?
      <==> exists i :: 0 <= i < |contents| && parse(contents[i]).Unexpected? && AllMalformed(parse, contents[..i])
  {
    if contents == [] {
    } else {
      var rest := contents[1..];
      LoadFailsExactly(parse, rest);
      if i :| 0 <= i < |contents| && parse(contents[i]).Unexpected? && AllMalformed(parse, contents[..i]) {
        if i > 0 {
          assert contents[..i][0] == contents[0];
          assert contents[..i][1..] == rest[..i - 1] && rest[i - 1] == contents[i];
          assert AllMalformed(parse, rest[..i - 1]);
        }
      }
      if parse(contents[0]).Unexpected? {
        assert AllMalformed(parse, contents[..0]);
      }
      if parse(contents[0]).Malformed? {
        if i :| 0 <= i < |rest| && parse(rest[i]).Unexpected? && AllMalformed(parse, rest[..i]) {
          assert contents[..i + 1] == [contents[0]] + rest[..i] && contents[i + 1] == rest[i];
          assert AllMalformed(parse, contents[..i + 1]);
        }
      }
    }
  }

  predicate AllMalformed<C, G>(parse: C -> Parsed<G>, contents: seq<C>) {
    forall i :: 0 <= i < |contents| ==> parse(contents[i]).Malformed?
  }

  /** A configuration file whose list of providers is null stops the load, however good its backup. */
  lemma NullProvidersStopTheLoad<C, G>(r: Reader<C, G>, nulled: C, good: C)
    requires r.loads(nulled) == Good(JObj(map[Str("providers") := JNull])) && ParsedFile(r, good).Good?
    ensures var parse := (content: C) => ParsedFile(r, content);
            var f := Files(Some(nulled), map[0 := good], None, None);
            Loaded(parse, f).Unexpected? && Loaded(parse, f.(primary := None)) == ParsedFile(r, good)
  {
    var parse := (content: C) => ParsedFile(r, content);
    var f := Files(Some(nulled), map[0 := good], None, None);
    NewestIsLoaded(parse, f);
    NewestIsLoaded(parse, f.(primary := None));
  }

  // ---------- rotation ----------

  function Shifted<C>(b: map<int, C>, i: int): map<int, C> {
    if i in b then (b - {i})[i + 1 := b[i]] else b
  }

  /** Slots i..0 shifted up by one, the oldest first. */
  function ShiftedDown<C>(b: map<int, C>, i: int): map<int, C>
    decreases i + 1, |b|
  {
    if i < 0 then b else ShiftedDown(Shifted(b, i), i - 1)
  }

  function Rotated<C>(b: map<int, C>): map<int, C> {
    ShiftedDown(b - {BACKUP_KEEP}, BACKUP_KEEP - 2)
  }

  /** What rotation leaves: slot 0 free, every other kept slot holding its older neighbour, and
      nothing beyond; only an empty slot 3 leaves slot 4 as it was. */
  lemma RotatedSlots<C>(b: map<int, C>)
    ensures var r := Rotated(b);
            && 0 !in r && BACKUP_KEEP !in r
            && (forall i :: 1 <= i <= 3 ==> (i in r <==> i - 1 in b) && (i in r ==> r[i] == b[i - 1]))
            && (4 in r <==> 3 in b || 4 in b)
            && (4 in r ==> r[4] == if 3 in b then b[3] else b[4])
            && (forall i :: i < 0 || BACKUP_KEEP < i ==> (i in r <==> i in b) && (i in r ==> r[i] == b[i]))
  {
    var b0 := b - {BACKUP_KEEP};
    var b3 := Shifted(b0, 3);
    var b2 := Shifted(b3, 2);
    var b1 := Shifted(b2, 1);
    assert ShiftedDown(b0, 3) == ShiftedDown(b3, 2) == ShiftedDown(b2, 1) == ShiftedDown(b1, 0)
        == ShiftedDown(Shifted(b1, 0), -1) == Shifted(b1, 0);
  }

  /** Every kept slot moves to the next one and the last falls out. */
  predicate ExactShift<C(==)>(b: map<int, C>, r: map<int, C>) {
    && 0 !in r
    && forall i :: 1 <= i < BACKUP_KEEP ==> (i in r <==> i - 1 in b) && (i in r ==> r[i] == b[i - 1])
  }

  /** With slot 3 empty, slot 4 keeps a backup that should have gone. */
  lemma GapKeepsTheOldest<C>(a: C, b: C)
    ensures var r := Rotated(map[0 := a, 4 := b]);
            r == map[1 := a, 4 := b] && !ExactShift(map[0 := a, 4 := b], r)
  {
    var was, left := map[0 := a, 4 := b], map[1 := a, 4 := b];
    RotatedSlots(was);
    forall i ensures i in Rotated(was) <==> i in left {
      assert 1 <= i <= 3 ==> (i in Rotated(was) <==> i - 1 in was);
    }
    RotatedIsShiftExactly(map[0 := a, 4 := b]);
  }

  /** Rotation is an exact shift if and only if slot 3 is filled or slot 4 is empty. */
  lemma RotatedIsShiftExactly<C>(b: map<int, C>)
    ensures ExactShift(b, Rotated(b)) <==> (3 in b || 4 !in b)
  {
    RotatedSlots(b);
  }

  // ---------- what a load looks at during a rotation ----------

  /** Rotating drops the oldest backup. */
  predicate Drops<C>(b: map<int, C>) {
    3 in b && 4 in b
  }

  function WithoutOldest<C>(f: Files<C>): Files<C> {
    f.(backups := f.backups - {4})
  }

  lemma {:induction false} KeptSame<C>(a: map<int, C>, b: map<int, C>, i: nat)
    requires forall j :: i <= j < BACKUP_KEEP ==> (j in a <==> j in b) && (j in a ==> a[j] == b[j])
    ensures Kept(a, i) == Kept(b, i)
    decreases BACKUP_KEEP - i
  {
    if i >= BACKUP_KEEP {
    } else {
      KeptSame(a, b, i + 1);
    }
  }

  /** Moving a backup to the empty slot after it keeps the order. */
  lemma {:induction false} KeptMoved<C>(b: map<int, C>, i: int, from: nat)
    requires i in b && i + 1 !in b && from <= i < BACKUP_KEEP - 1
    ensures Kept((b - {i})[i + 1 := b[i]], from) == Kept(b, from)
    decreases i - from
  {
    var moved := (b - {i})[i + 1 := b[i]];
    if from < i {
      KeptMoved(b, i, from + 1);
    } else {
      KeptSame(b, moved, i + 2);
      assert Kept(moved, i) == [] + Kept(moved, i + 1) && Kept(moved, i + 1) == [b[i]] + Kept(moved, i + 2);
      assert Kept(b, i) == [b[i]] + Kept(b, i + 1) && Kept(b, i + 1) == [] + Kept(b, i + 2);
    }
  }

  /** What a load finds in b is what it finds in was, in order, or all of it but the oldest. */
  predicate SameOrder<C(==)>(was: map<int, C>, b: map<int, C>) {
    Kept(b, 0) == Kept(was, 0) || (Drops(was) && Kept(b, 0) == Kept(was - {4}, 0))
  }

  /** The slots after each operation of a rotation in which nothing fails. */
  function RotationTrail<C>(b: map<int, C>): seq<map<int, C>> {
    (if BACKUP_KEEP in b then [b - {BACKUP_KEEP}] else []) + ShiftTrail(b - {BACKUP_KEEP}, BACKUP_KEEP - 2)
  }

  function ShiftTrail<C>(b: map<int, C>, i: int): seq<map<int, C>>
    decreases i + 1, |b|
  {
    if i < 0 then [] else MoveTrail(b, i) + ShiftTrail(Shifted(b, i), i - 1)
  }

  function MoveTrail<C>(b: map<int, C>, i: int): seq<map<int, C>> {
    if i !in b then [] else (if i + 1 in b then [b - {i + 1}] else []) + [Shifted(b, i)]
  }

  function Snapshots<C>(f: Files<C>, slots: seq<map<int, C>>): (r: seq<Files<C>>)
    ensures |r| == |slots| && forall k :: 0 <= k < |r| ==> r[k] == f.(backups := slots[k])
  {
    if slots == [] then [] else [f.(backups := slots[0])] + Snapshots(f, slots[1..])
  }

  lemma {:induction false} SnapshotsAppend<C>(f: Files<C>, a: seq<map<int, C>>, b: seq<map<int, C>>)
    ensures Snapshots(f, a + b) == Snapshots(f, a) + Snapshots(f, b)
  {
    if a == [] {
      Units(b);
      Units(Snapshots(f, b));
    } else {
      FirstOfSum(a, b);
      SnapshotsAppend(f, a[1..], b);
      Assoc([f.(backups := a[0])], Snapshots(f, a[1..]), Snapshots(f, b));
    }
  }

  lemma {:induction false} SnapshotsOfSlots<C>(f: Files<C>, g: Files<C>, slots: seq<map<int, C>>)
    requires g == f.(backups := g.backups)
    ensures Snapshots(g, slots) == Snapshots(f, slots)
  {
    if slots == [] {
    } else {
      SnapshotsOfSlots(f, g, slots[1..]);
    }
  }

  /** The order once slot i has been emptied, or before the first when i is 4. */
  predicate Midway<C(==)>(was: map<int, C>, b: map<int, C>, i: int) {
    && Kept(b, 0) == (if i < 4 && Drops(was) then Kept(was - {4}, 0) else Kept(was, 0))
    && (i < 4 ==> i !in b)
    && forall j :: 0 <= j <= i && (j < i || i == 4) ==> (j in b <==> j in was) && (j in b ==> b[j] == was[j])
  }

  lemma MidwayStarts<C>(was: map<int, C>)
    ensures Midway(was, was - {BACKUP_KEEP}, 4) && Midway(was, was, 4)
  {
    KeptSame(was, was - {BACKUP_KEEP}, 0);
  }

  lemma MidwayUnlinks<C>(was: map<int, C>, b: map<int, C>)
    requires Midway(was, b, 4) && 3 in b && 4 in b
    ensures Kept(b - {4}, 0) == Kept(was - {4}, 0)
  {
    KeptSame(b - {4}, was - {4}, 0);
  }

  /** One turn of the rotation, nothing failing: the slot after i is emptied if need be, then i moves. */
  lemma MidwayMoves<C>(was: map<int, C>, b: map<int, C>, i: int)
    requires Midway(was, b, i + 1) && 0 <= i < 4
    ensures i !in b ==> Midway(was, b, i)
    ensures i in b ==> Midway(was, ((b - {i + 1}) - {i})[i + 1 := b[i]], i)
    ensures i in b && i + 1 in b ==> i == 3
  {
    if i in b {
      if i + 1 in b {
        MidwayUnlinks(was, b);
      } else {
        assert b - {i + 1} == b;
      }
      KeptMoved(b - {i + 1}, i, 0);
    }
  }

  lemma MidwayIsOrder<C>(was: map<int, C>, b: map<int, C>, i: int)
    requires Midway(was, b, i)
    ensures SameOrder(was, b)
  {
  }

  lemma ShiftedIs<C>(b: map<int, C>, i: int)
    requires i in b
    ensures ((b - {i + 1}) - {i})[i + 1 := b[i]] == Shifted(b, i)
  {
  }

  lemma MoveKeepsMidway<C>(was: map<int, C>, b: map<int, C>, i: int)
    requires Midway(was, b, i + 1) && 0 <= i < 4
    ensures Midway(was, Shifted(b, i), i)
    ensures i in b && i + 1 in b ==> SameOrder(was, b - {i + 1})
  {
    MidwayMoves(was, b, i);
    if i in b {
      ShiftedIs(b, i);
      if i + 1 in b {
        MidwayUnlinks(was, b);
      }
    }
  }

  lemma MoveTrailOrder<C>(was: map<int, C>, b: map<int, C>, i: int)
    requires Midway(was, b, i + 1) && 0 <= i < 4
    ensures forall k :: 0 <= k < |MoveTrail(b, i)| ==> SameOrder(was, MoveTrail(b, i)[k])
    ensures Midway(was, Shifted(b, i), i)
  {
    MoveKeepsMidway(was, b, i);
    MidwayIsOrder(was, Shifted(b, i), i);
  }

  lemma {:induction false} ShiftTrailOrder<C>(was: map<int, C>, b: map<int, C>, i: int)
    requires -1 <= i < 4 && Midway(was, b, i + 1)
    ensures forall k :: 0 <= k < |ShiftTrail(b, i)| ==> SameOrder(was, ShiftTrail(b, i)[k])
    ensures Midway(was, ShiftedDown(b, i), 0)
    decreases i + 1
  {
    if i < 0 {
    } else {
      MoveTrailOrder(was, b, i);
      ShiftTrailOrder(was, Shifted(b, i), i - 1);
    }
  }

  /** A rotation in which nothing fails keeps the order at every step, and in the end as well. */
  lemma RotationKeepsOrder<C>(b: map<int, C>)
    ensures forall k :: 0 <= k < |RotationTrail(b)| ==> SameOrder(b, RotationTrail(b)[k])
    ensures Kept(Rotated(b), 0) == if Drops(b) then Kept(b - {4}, 0) else Kept(b, 0)
  {
    MidwayStarts(b);
    ShiftTrailOrder(b, b - {BACKUP_KEEP}, BACKUP_KEEP - 2);
  }

  lemma {:induction false} ShiftTrailEnds<C>(b: map<int, C>, i: int)
    ensures var t := ShiftTrail(b, i);
            if t == [] then ShiftedDown(b, i) == b else t[|t| - 1] == ShiftedDown(b, i)
    decreases i + 1
  {
    if i < 0 {
    } else {
      ShiftTrailEnds(Shifted(b, i), i - 1);
    }
  }

  lemma RotationEnds<C>(b: map<int, C>)
    requires Drops(b)
    ensures RotationTrail(b) != [] && RotationTrail(b)[|RotationTrail(b)| - 1] == Rotated(b)
  {
    var c, i := b - {BACKUP_KEEP}, BACKUP_KEEP - 2;
    assert MoveTrail(c, i) != [];
    ShiftTrailEnds(c, i);
  }

  /** A load finds in g what it finds in f, in order, or all of it but the oldest backup. */
  predicate SameButOldest<C(==)>(f: Files<C>, g: Files<C>) {
    || Candidates(g) == Candidates(f)
    || (f.primary.Some? && Drops(f.backups) && Candidates(g) == Candidates(WithoutOldest(f)))
  }

  /** A save's rotation takes the only backup that a load can use. */
  predicate LosesOldest<C, G>(parse: C -> Parsed<G>, f: Files<C>) {
    f.primary.Some? && Drops(f.backups) && AllMalformed(parse, Candidates(WithoutOldest(f)))
  }

  lemma {:induction false} FirstParsedSnoc<C, G>(parse: C -> Parsed<G>, contents: seq<C>, last: C)
    ensures FirstParsed(parse, contents + [last])
         == if AllMalformed(parse, contents) then parse(last) else FirstParsed(parse, contents)
    ensures AllMalformed(parse, contents) <==> FirstParsed(parse, contents).Malformed?
  {
    if contents == [] {
      Units([last]);
      assert [last][1..] == [];
    } else {
      FirstOfSum(contents, [last]);
      FirstParsedSnoc(parse, contents[1..], last);
      assert AllMalformed(parse, contents) <==> parse(contents[0]).Malformed? && AllMalformed(parse, contents[1..]);
    }
  }

  lemma {:induction false} OldestIsLast<C>(b: map<int, C>, i: nat)
    requires 4 in b && i <= 4
    ensures Kept(b, i) == Kept(b - {4}, i) + [b[4]]
    decreases 4 - i
  {
    if i == 4 {
      assert Kept(b, 5) == [] == Kept(b - {4}, 5);
    } else {
      OldestIsLast(b, i + 1);
      Assoc(if i in b then [b[i]] else [], Kept(b - {4}, i + 1), [b[4]]);
    }
  }

  /** What a load makes of files that have lost the oldest backup. */
  lemma WithoutOldestLoads<C, G>(parse: C -> Parsed<G>, f: Files<C>)
    requires f.primary.Some? && Drops(f.backups) && Loaded(parse, f).Good?
    ensures Loaded(parse, WithoutOldest(f))
         == if LosesOldest(parse, f) then Malformed else Loaded(parse, f)
  {
    OldestIsLast(f.backups, 0);
    var rest := Candidates(WithoutOldest(f));
    Assoc([f.primary.value], Kept(f.backups - {4}, 0), [f.backups[4]]);
    assert Candidates(f) == rest + [f.backups[4]];
    FirstParsedSnoc(parse, rest, f.backups[4]);
  }

  /** With slots 3 and 4 filled and all but slot 4 malformed, rotating leaves nothing that loads. */
  lemma OnlyOldestIsLost<C, G>(parse: C -> Parsed<G>, bad: C, good: C)
    requires parse(bad).Malformed? && parse(good).Good?
    ensures var f := Files(Some(bad), map[3 := bad, 4 := good], None, None);
            && Loaded(parse, f) == parse(good) && LosesOldest(parse, f)
            && Loaded(parse, f.(backups := Rotated(f.backups))).Malformed?
  {
    var f := Files(Some(bad), map[3 := bad, 4 := good], None, None);
    var rest := Candidates(WithoutOldest(f));
    OldestIsLast(f.backups, 0);
    Assoc([bad], Kept(f.backups - {4}, 0), [good]);
    KeptAreSlots(f.backups - {4}, 0, bad);
    FirstParsedSnoc(parse, rest, good);
    RotationKeepsOrder(f.backups);
    assert Candidates(f) == rest + [good];
  }

  lemma {:induction false} KeptAreSlots<C>(b: map<int, C>, i: nat, content: C)
    requires forall k :: k in b ==> b[k] == content
    ensures forall k :: 0 <= k < |Kept(b, i)| ==> Kept(b, i)[k] == content
    decreases BACKUP_KEEP - i
  {
    if i >= BACKUP_KEEP {
    } else {
      KeptAreSlots(b, i + 1, content);
    }
  }

  /** What a load finds during a rotation of f in which nothing fails. */
  lemma RotationOrder<C>(f: Files<C>)
    requires f.primary.Some?
    ensures var seen := RotationTrail(f.backups);
            && (forall k :: 0 <= k < |seen| ==> SameButOldest(f, f.(backups := seen[k])))
            && SameButOldest(f, f.(backups := Rotated(f.backups)))
  {
    var seen := RotationTrail(f.backups);
    RotationKeepsOrder(f.backups);
    forall k | 0 <= k < |seen| ensures SameButOldest(f, f.(backups := seen[k])) {
      SlotsDecide(f, seen[k]);
    }
    SlotsDecide(f, Rotated(f.backups));
  }

  lemma SlotsDecide<C>(f: Files<C>, slots: map<int, C>)
    requires f.primary.Some? && SameOrder(f.backups, slots)
    ensures SameButOldest(f, f.(backups := slots))
  {
  }

  lemma RotationDrops<C>(f: Files<C>)
    requires f.primary.Some? && Drops(f.backups)
    ensures var seen := RotationTrail(f.backups);
            seen != [] && Candidates(f.(backups := seen[|seen| - 1])) == Candidates(WithoutOldest(f))
  {
    RotationKeepsOrder(f.backups);
    RotationEnds(f.backups);
  }

  /** A primary that becomes the newest backup is found where it was. */
  lemma PrimaryBecomesBackup<C>(f: Files<C>)
    requires f.primary.Some?
    ensures 0 !in f.backups ==>
              Candidates(f.(primary := None, backups := f.backups[0 := f.primary.value])) == Candidates(f)
  {
    var b := f.backups[0 := f.primary.value];
    KeptSame(f.backups, b, 1);
    Units(Kept(b, 0));
    if 0 !in f.backups {
      Units(Kept(f.backups, 1));
    }
  }

  /** The files after the rotation of f, and after its primary has become a backup or stayed. */
  predicate Moved<C(==)>(f: Files<C>, rotated: Files<C>, last: Files<C>) {
    && f.primary.Some? && rotated == f.(backups := rotated.backups)
    && (last == rotated || last == rotated.(primary := None, backups := rotated.backups[0 := f.primary.value]))
  }

  /** The trail of making room: the slots after every step, and then the last files. */
  predicate RoomTrail<C(==)>(f: Files<C>, start: seq<Files<C>>, seen: seq<map<int, C>>, rotated: Files<C>,
                             last: Files<C>, trail: seq<Files<C>>) {
    if f.primary.None? then last == f && trail == start
    else Moved(f, rotated, last) && trail == (start + Snapshots(f, seen)) + [last]
  }

  lemma RoomKeepsNewest<C>(f: Files<C>, start: seq<Files<C>>, seen: seq<map<int, C>>, rotated: Files<C>,
                           last: Files<C>, trail: seq<Files<C>>)
    requires RoomTrail(f, start, seen, rotated, last, trail)
    ensures start <= trail && Newest(last) == Newest(f)
    ensures Newest(f).Some? ==> forall i :: |start| <= i < |trail| ==> Newest(trail[i]) == Newest(f)
  {
    if f.primary.Some? {
      assert trail[|start| + |seen|] == last;
      assert forall i :: |start| <= i < |start| + |seen| ==> trail[i] == Snapshots(f, seen)[i - |start|];
    }
  }

  lemma RoomKeepsOrder<C>(f: Files<C>, start: seq<Files<C>>, rotated: Files<C>, last: Files<C>,
                          trail: seq<Files<C>>)
    requires RoomTrail(f, start, RotationTrail(f.backups), rotated, last, trail)
    requires f.primary.Some? && rotated.backups == Rotated(f.backups)
    ensures SameButOldest(f, last) && forall i :: |start| <= i < |trail| ==> SameButOldest(f, trail[i])
    ensures var seen := RotationTrail(f.backups);
      Drops(f.backups) ==>
        && |seen| > 0 && |trail| == |start| + |seen| + 1
        && Candidates(trail[|start| + |seen| - 1]) == Candidates(WithoutOldest(f))
  {
    var seen := RotationTrail(f.backups);
    RotationOrder(f);
    if Drops(f.backups) {
      RotationDrops(f);
    }
    RotatedSlots(f.backups);
    PrimaryBecomesBackup(rotated);
    assert trail[|start| + |seen|] == last;
    assert forall i :: |start| <= i < |start| + |seen| ==> trail[i] == Snapshots(f, seen)[i - |start|];
  }

  /** What a load finds first stays so while room is made; and nothing failing, all that a load finds does,
      but for the oldest backup. */
  lemma RoomIsMade<C>(f: Files<C>, start: seq<Files<C>>, seen: seq<map<int, C>>, rotated: Files<C>,
                      last: Files<C>, trail: seq<Files<C>>)
    requires RoomTrail(f, start, seen, rotated, last, trail)
    ensures start <= trail && Newest(last) == Newest(f)
    ensures Newest(f).Some? ==> forall i :: |start| <= i < |trail| ==> Newest(trail[i]) == Newest(f)
    ensures f.primary.None? || (seen == RotationTrail(f.backups) && rotated.backups == Rotated(f.backups)) ==>
              && SameButOldest(f, last)
              && (forall i :: |start| <= i < |trail| ==> SameButOldest(f, trail[i]))
              && (f.primary.Some? && Drops(f.backups) ==>
                    && |seen| > 0 && |trail| == |start| + |seen| + 1
                    && Candidates(trail[|start| + |seen| - 1]) == Candidates(WithoutOldest(f)))
  {
    RoomKeepsNewest(f, start, seen, rotated, last, trail);
    if f.primary.Some? && seen == RotationTrail(f.backups) && rotated.backups == Rotated(f.backups) {
      RoomKeepsOrder(f, start, rotated, last, trail);
    }
  }

  /** Every state of the trail loads as f did or as data, if and only if the rotation did not take the only
      backup that loads. at is the end of the rotation. */
  lemma OrderDecides<C, G>(parse: C -> Parsed<G>, f: Files<C>, data: C, trail: seq<Files<C>>, from: nat, at: nat)
    requires Loaded(parse, f).Good? && parse(data).Good?
    requires forall i :: from <= i < |trail| ==> SameButOldest(f, trail[i]) || Newest(trail[i]) == Some(data)
    requires f.primary.Some? && Drops(f.backups) ==>
               from <= at < |trail| && Candidates(trail[at]) == Candidates(WithoutOldest(f))
    ensures (forall i :: from <= i < |trail| ==>
               Loaded(parse, trail[i]) == Loaded(parse, f) || Loaded(parse, trail[i]) == parse(data))
      <==> !LosesOldest(parse, f)
  {
    if f.primary.Some? && Drops(f.backups) {
      WithoutOldestLoads(parse, f);
      assert Loaded(parse, trail[at]) == Loaded(parse, WithoutOldest(f));
    }
    if !LosesOldest(parse, f) {
      forall i | from <= i < |trail|
        ensures Loaded(parse, trail[i]) == Loaded(parse, f) || Loaded(parse, trail[i]) == parse(data)
      {
        if Newest(trail[i]) == Some(data) {
          NewestIsLoaded(parse, trail[i]);
        }
      }
    }
  }

  /** The trail of a save: room is made, leaving mid, and then the new file is written and put in its place. */
  predicate SaveTrail<C(==)>(f: Files<C>, data: C, start: seq<Files<C>>, seen: seq<map<int, C>>, rotated: Files<C>,
                                     last: Files<C>, mid: seq<Files<C>>, trail: seq<Files<C>>) {
    && RoomTrail(f, start, seen, rotated, last, mid) && mid <= trail
    && (Newest(last).Some? ==>
          forall i :: |mid| <= i < |trail| ==> Carries(trail[i], Newest(last).value) || Carries(trail[i], data))
    && forall i :: |mid| <= i < |trail| ==>
         Candidates(trail[i]) == Candidates(last) || Newest(trail[i]) == Some(data)
  }

  lemma SavedCarries<C, G>(parse: C -> Parsed<G>, f: Files<C>, data: C, start: seq<Files<C>>, seen: seq<map<int, C>>,
                           rotated: Files<C>, last: Files<C>, mid: seq<Files<C>>, trail: seq<Files<C>>)
    requires SaveTrail(f, data, start, seen, rotated, last, mid, trail)
    ensures start <= trail
    ensures Newest(f).Some? && parse(Newest(f).value).Good? && parse(data).Good? ==>
              forall i :: |start| <= i < |trail| ==>
                Loaded(parse, trail[i]) == parse(Newest(f).value) || Loaded(parse, trail[i]) == parse(data)
  {
    RoomKeepsNewest(f, start, seen, rotated, last, mid);
    if Newest(f).Some? && parse(Newest(f).value).Good? && parse(data).Good? {
      forall i | |start| <= i < |trail| ensures Carries(trail[i], Newest(f).value) || Carries(trail[i], data) {
        assert i < |mid| ==> trail[i] == mid[i];
      }
      CarriedIsLoaded(parse, trail, |start|, Newest(f).value, data);
    }
  }

  lemma SavedKeepsOrder<C, G>(parse: C -> Parsed<G>, f: Files<C>, data: C, start: seq<Files<C>>,
                              seen: seq<map<int, C>>, rotated: Files<C>, last: Files<C>, mid: seq<Files<C>>,
                              trail: seq<Files<C>>)
    requires SaveTrail(f, data, start, seen, rotated, last, mid, trail)
    requires f.primary.None? || (seen == RotationTrail(f.backups) && rotated.backups == Rotated(f.backups))
    ensures Loaded(parse, f).Good? && parse(data).Good? ==>
              ((forall i :: |start| <= i < |trail| ==>
                  Loaded(parse, trail[i]) == Loaded(parse, f) || Loaded(parse, trail[i]) == parse(data))
               <==> !LosesOldest(parse, f))
  {
    RoomIsMade(f, start, seen, rotated, last, mid);
    if Loaded(parse, f).Good? && parse(data).Good? {
      forall i | |start| <= i < |trail| ensures SameButOldest(f, trail[i]) || Newest(trail[i]) == Some(data) {
        assert i < |mid| ==> trail[i] == mid[i];
      }
      var at := |start| + |seen|;
      OrderDecides(parse, f, data, trail, |start|, if at > 0 then at - 1 else 0);
    }
  }

  // ---------- the files of a save and of a restore ----------

  function SavedFiles<C>(f: Files<C>, data: C): Files<C> {
    var backups := if f.primary.Some? then Rotated(f.backups)[0 := f.primary.value] else f.backups;
    Files(Some(data), backups, None, f.restoreTmp)
  }

  function RestoredFiles<C>(f: Files<C>, slot: int): Files<C>
    requires slot in f.backups && f.primary.Some?
  {
    Files(Some(f.backups[slot]), Rotated(f.backups)[0 := f.primary.value], f.tmp, None)
  }

  datatype RestoreStatus = NoSuchSlot | NotAConfig | Restored | Raised

  /** Parses one file after the other until one succeeds or raises what is not caught. */
  method FirstGood<C, G>(parse: C -> Parsed<G>, contents: seq<C>) returns (result: Parsed<G>, at: nat)
    ensures result == FirstParsed(parse, contents)
    ensures at <= |contents| && AllMalformed(parse, contents[..at])
    ensures !result.Malformed? ==> at < |contents| && parse(contents[at]) == result
  {
    at := 0;
    while at < |contents|
      invariant 0 <= at <= |contents|
      invariant FirstParsed(parse, contents[at..]) == FirstParsed(parse, contents)
      invariant AllMalformed(parse, contents[..at])
    {
      result := parse(contents[at]);
      if !result.Malformed? {
        return;
      }
      assert contents[at..][1..] == contents[at + 1..];
      at := at + 1;
    }
    result := Malformed;
  }

  class ConfigStore<!C(==), !G> {
    const parse: C -> Parsed<G>
    const fails: nat -> bool        // which file operations raise OSError
    const torn: nat -> C            // what an interrupted write leaves behind
    var files: Files<C>
    var operations: nat
    ghost var trail: seq<Files<C>>  // the files after every operation, or part of one

    constructor (parse: C -> Parsed<G>, fails: nat -> bool, torn: nat -> C, files: Files<C>)
      ensures this.parse == parse && this.fails == fails && this.torn == torn
      ensures this.files == files && trail == [files] && operations == 0
    {
      this.parse, this.fails, this.torn := parse, fails, torn;
      this.files, operations := files, 0;
      trail := [files];
    }

    /** One atomic file operation: it happens completely or raises. */
    method Atomically(after: Files<C>) returns (ok: bool)
      modifies this
      ensures operations == old(operations) + 1 && (ok <==> !fails(old(operations)))
      ensures files == if ok then after else old(files)
      ensures trail == old(trail) + [files]
    {
      ok := !fails(operations);
      if ok {
        files := after;
      }
      operations := operations + 1;
      trail := trail + [files];
    }

    /** Writing a file is not atomic: the torn content can be seen first, and stay. */
    method Gradually(partly: Files<C>, after: Files<C>) returns (ok: bool)
      modifies this
      ensures operations == old(operations) + 1 && (ok <==> !fails(old(operations)))
      ensures files == if ok then after else partly
      ensures trail == old(trail) + [partly, files]
    {
      ok := !fails(operations);
      files := partly;
      trail := trail + [files];
      if ok {
        files := after;
      }
      operations := operations + 1;
      trail := trail + [files];
    }

    ghost predicate NoFaults() {
      forall n :: !fails(n)
    }

    /** Whatever fails, only the slots change; seen are the slots after every operation. */
    method RotateBackups() returns (ghost seen: seq<map<int, C>>)
      modifies this
      ensures trail == old(trail) + Snapshots(old(files), seen)
      ensures files == old(files).(backups := files.backups)
      ensures NoFaults() ==> files.backups == Rotated(old(files).backups) && seen == RotationTrail(old(files).backups)
    {
      ghost var f := files;
      seen := [];
      if BACKUP_KEEP in files.backups {
        var _ := Atomically(files.(backups := files.backups - {BACKUP_KEEP}));
        seen := [files.backups];
      }
      assert NoFaults() ==> files.backups == f.backups - {BACKUP_KEEP};
      for i := BACKUP_KEEP - 1 downto 0
        invariant trail == old(trail) + Snapshots(f, seen) && files == f.(backups := files.backups)
        invariant NoFaults() ==> ShiftedDown(files.backups, i - 1) == Rotated(f.backups)
        invariant NoFaults() ==> seen + ShiftTrail(files.backups, i - 1) == RotationTrail(f.backups)
      {
        ghost var b := files.backups;
        ghost var g := files;
        ghost var moved := MoveUp(i);
        SnapshotsOfSlots(f, g, moved);
        SnapshotsAppend(f, seen, moved);
        Assoc(old(trail), Snapshots(f, seen), Snapshots(f, moved));
        Assoc(seen, MoveTrail(b, i), ShiftTrail(Shifted(b, i), i - 1));
        seen := seen + moved;
      }
      Units(seen);
    }

    /** One turn of the rotation: what is in the slot after i makes room, and i moves there. */
    method MoveUp(i: int) returns (ghost seen: seq<map<int, C>>)
      modifies this
      ensures trail == old(trail) + Snapshots(old(files), seen)
      ensures files == old(files).(backups := files.backups)
      ensures NoFaults() ==>
                files.backups == Shifted(old(files).backups, i) && seen == MoveTrail(old(files).backups, i)
    {
      seen := [];
      if i !in files.backups {
        return;
      }
      ghost var f := files;
      var clear := true;
      if i + 1 in files.backups {
        clear := Atomically(files.(backups := files.backups - {i + 1}));
        seen := [files.backups];
      }
      if clear {
        var left := files.backups;
        assert (left - {i})[i + 1 := left[i]] == Shifted(f.backups, i);
        var _ := Atomically(files.(backups := (left - {i})[i + 1 := left[i]]));
        SnapshotsAppend(f, seen, [files.backups]);
        seen := seen + [files.backups];
      }
    }

    /** Saves a configuration by way of a temporary file; false if writing raised. Whatever was there
        for a load to find first, as a primary or as the backup of a save that broke off, a load finds
        that or the new configuration in every state on the way. */
    method SaveConfig(data: C) returns (ok: bool)
      modifies this
      ensures NoFaults() ==> ok && files == SavedFiles(old(files), data)
      ensures old(trail) <= trail
      ensures var before := Newest(old(files));
              before.Some? && parse(before.value).Good? && parse(data).Good? ==>
                forall i :: |old(trail)| <= i < |trail| ==>
                  Loaded(parse, trail[i]) == parse(before.value) || Loaded(parse, trail[i]) == parse(data)
      ensures NoFaults() && Loaded(parse, old(files)).Good? && parse(data).Good? ==>
                ((forall i :: |old(trail)| <= i < |trail| ==>
                    Loaded(parse, trail[i]) == Loaded(parse, old(files)) || Loaded(parse, trail[i]) == parse(data))
                 <==> !LosesOldest(parse, old(files)))
      ensures ok ==> files.primary == Some(data)
    {
      ghost var f, start := files, trail;
      ghost var seen, rotated := MakeRoom();
      ghost var cleared, mid := files, trail;
      ok := WriteAndReplace(data);
      SavedCarries(parse, f, data, start, seen, rotated, cleared, mid, trail);
      if NoFaults() {
        SavedKeepsOrder(parse, f, data, start, seen, rotated, cleared, mid, trail);
      }
    }

    /** The start of a save: a primary becomes the newest backup, after a rotation. */
    method MakeRoom() returns (ghost seen: seq<map<int, C>>, ghost rotated: Files<C>)
      modifies this
      ensures if old(files).primary.None? then files == old(files) && trail == old(trail)
              else Moved(old(files), rotated, files)
                   && trail == (old(trail) + Snapshots(old(files), seen)) + [files]
      ensures NoFaults() && old(files).primary.Some? ==>
                && seen == RotationTrail(old(files).backups) && rotated.backups == Rotated(old(files).backups)
                && files == rotated.(primary := None, backups := rotated.backups[0 := old(files).primary.value])
    {
      seen, rotated := [], files;
      if files.primary.None? {
        return;
      }
      seen := RotateBackups();
      rotated := files;
      var _ := Atomically(files.(primary := None, backups := files.backups[0 := files.primary.value]));
    }

    /** The end of a save: the temporary file is written and takes the place of the primary. */
    method WriteAndReplace(data: C) returns (ok: bool)
      modifies this
      ensures NoFaults() ==> ok
      ensures ok ==> files == old(files).(primary := Some(data), tmp := None)
      ensures old(trail) <= trail
      ensures Newest(old(files)).Some? ==>
                forall i :: |old(trail)| <= i < |trail| ==>
                  Carries(trail[i], Newest(old(files)).value) || Carries(trail[i], data)
      ensures forall i :: |old(trail)| <= i < |trail| ==>
                Candidates(trail[i]) == Candidates(old(files)) || Newest(trail[i]) == Some(data)
    {
      ok := Gradually(files.(tmp := Some(torn(operations))), files.(tmp := Some(data)));
      if ok {
        ok := Atomically(files.(primary := files.tmp, tmp := None));
      }
    }

    method LoadConfig() returns (result: Parsed<G>, fromBackup: bool)
      ensures result == Loaded(parse, files)
      ensures fromBackup <==> result.Good? && !(files.primary.Some? && parse(files.primary.value).Good?)
    {
      var candidates := ExistingFiles();
      var at;
      result, at := FirstGood(parse, candidates);
      fromBackup := result.Good? && !(files.primary.Some? && at == 0);
      if files.primary.Some? && at > 0 && result.Good? {
        assert candidates[..at][0] == files.primary.value;
      }
    }

    /** The contents of the primary and of the kept backups, newest first, as far as they exist. */
    method ExistingFiles() returns (candidates: seq<C>)
      ensures candidates == Candidates(files)
      ensures files.primary.Some? ==> candidates != [] && candidates[0] == files.primary.value
    {
      var f := files;
      candidates := if f.primary.Some? then [f.primary.value] else [];
      var i := 0;
      while i < BACKUP_KEEP
        invariant 0 <= i <= BACKUP_KEEP
        invariant candidates + Kept(f.backups, i) == Candidates(f)
      {
        Units(Kept(f.backups, i + 1));
        if i in f.backups {
          Assoc(candidates, [f.backups[i]], Kept(f.backups, i + 1));
          candidates := candidates + [f.backups[i]];
        }
        i := i + 1;
      }
      Units(candidates);
    }

    method RestoreBackup(slot: int) returns (status: RestoreStatus)
      modifies this
      ensures status == NoSuchSlot <==> slot !in old(files).backups
      ensures status == NotAConfig <==> slot in old(files).backups && !parse(old(files).backups[slot]).Good?
      ensures status.NoSuchSlot? || status.NotAConfig? ==> files == old(files) && trail == old(trail)
      ensures NoFaults() && (status.Restored? || status.Raised?) ==>
                (status.Restored? <==> old(files).primary.Some?)
      ensures NoFaults() && status.Restored? ==> old(files).primary.Some? && files == RestoredFiles(old(files), slot)
      ensures old(trail) <= trail
      ensures old(files).primary.Some? && parse(old(files).primary.value).Good? ==>
                forall i :: |old(trail)| <= i < |trail| ==>
                  Loaded(parse, trail[i]) == parse(old(files).primary.value)
                  || (slot in old(files).backups && Loaded(parse, trail[i]) == parse(old(files).backups[slot]))
      ensures status.Restored? ==> files.primary == Some(old(files).backups[slot])
    {
      if slot !in files.backups {
        return NoSuchSlot;
      }
      if !parse(files.backups[slot]).Good? {
        return NotAConfig;
      }
      status := StageAndSwap(slot);
      ghost var before := old(files).primary;
      if before.Some? && parse(before.value).Good? {
        CarriedIsLoaded(parse, trail, |old(trail)|, before.value, old(files).backups[slot]);
      }
    }

    /** The file steps of a restore: stage the source, rotate, keep the current file, swap. */
    method StageAndSwap(slot: int) returns (status: RestoreStatus)
      requires slot in files.backups
      modifies this
      ensures status.Restored? || status.Raised?
      ensures status.Restored? ==> files.primary == Some(old(files).backups[slot])
      ensures NoFaults() ==> (status.Restored? <==> old(files).primary.Some?)
      ensures NoFaults() && old(files).primary.Some? ==> files == RestoredFiles(old(files), slot)
      ensures old(trail) <= trail
      ensures old(files).primary.Some? ==>
                forall i :: |old(trail)| <= i < |trail| ==>
                  Carries(trail[i], old(files).primary.value) || Carries(trail[i], old(files).backups[slot])
    {
      var staged := Gradually(files.(restoreTmp := Some(torn(operations))),
                              files.(restoreTmp := Some(files.backups[slot])));
      if !staged {
        return Raised;
      }
      ghost var seen := RotateBackups();
      if files.primary.None? {
        return Raised;
      }
      var copied := Gradually(files.(backups := files.backups[0 := torn(operations)]),
                              files.(backups := files.backups[0 := files.primary.value]));
      if !copied {
        return Raised;
      }
      var swapped := Atomically(files.(primary := files.restoreTmp, restoreTmp := None));
      return if swapped then Restored else Raised;
    }
  }

  // ---------- any number of saves and restores ----------

  /** The primary holds the newest of the versions and the kept slots the five before it, newest
      first; older ones are gone. */
  predicate Holds<C(==)>(f: Files<C>, versions: seq<C>) {
    && (f.primary.Some? <==> versions != []) && (versions != [] ==> f.primary == Some(versions[0]))
    && forall i :: 0 <= i < BACKUP_KEEP ==>
         (i in f.backups <==> i + 1 < |versions|) && (i in f.backups ==> f.backups[i] == versions[i + 1])
  }

  datatype Change<C> = Save(data: C) | Restore(slot: int)

  predicate Possible<C(==)>(f: Files<C>, change: Change<C>) {
    change.Restore? ==> f.primary.Some? && 0 <= change.slot < BACKUP_KEEP && change.slot in f.backups
  }

  function Changed<C(==)>(f: Files<C>, change: Change<C>): Files<C>
    requires Possible(f, change)
  {
    match change
    case Save(data) => SavedFiles(f, data)
    case Restore(slot) => RestoredFiles(f, slot)
  }

  /** The version a change makes current. */
  function Version<C(==)>(f: Files<C>, change: Change<C>): C
    requires Possible(f, change)
  {
    match change
    case Save(data) => data
    case Restore(slot) => f.backups[slot]
  }

  predicate AllPossible<C(==)>(f: Files<C>, changes: seq<Change<C>>)
    decreases |changes|
  {
    changes == [] || (Possible(f, changes[0]) && AllPossible(Changed(f, changes[0]), changes[1..]))
  }

  function AfterChanges<C(==)>(f: Files<C>, changes: seq<Change<C>>): Files<C>
    requires AllPossible(f, changes)
    decreases |changes|
  {
    if changes == [] then f else AfterChanges(Changed(f, changes[0]), changes[1..])
  }

  /** All versions ever current, newest first. */
  function History<C(==)>(f: Files<C>, changes: seq<Change<C>>, versions: seq<C>): seq<C>
    requires AllPossible(f, changes)
    decreases |changes|
  {
    if changes == [] then versions
    else History(Changed(f, changes[0]), changes[1..], [Version(f, changes[0])] + versions)
  }

  lemma ChangeKeepsHistory<C>(f: Files<C>, change: Change<C>, versions: seq<C>)
    requires Holds(f, versions) && Possible(f, change)
    ensures Holds(Changed(f, change), [Version(f, change)] + versions)
  {
    RotatedSlots(f.backups);
    var g, vs := Changed(f, change), [Version(f, change)] + versions;
    forall i | 0 <= i < BACKUP_KEEP
      ensures (i in g.backups <==> i + 1 < |vs|) && (i in g.backups ==> g.backups[i] == vs[i + 1])
    {
      if versions != [] && i > 0 {
        assert i - 1 in f.backups <==> i < |versions|;
      }
    }
  }

  /** After any number of saves and restores the slots hold the last five versions, newest first:
      a restore makes its version the newest and keeps the one it replaced in slot 0. */
  lemma {:induction false} SlotsHoldLastFive<C>(f: Files<C>, changes: seq<Change<C>>, versions: seq<C>)
    requires Holds(f, versions) && AllPossible(f, changes)
    ensures Holds(AfterChanges(f, changes), History(f, changes, versions))
    decreases |changes|
  {
    if changes == [] {
    } else {
      ChangeKeepsHistory(f, changes[0], versions);
      SlotsHoldLastFive(Changed(f, changes[0]), changes[1..], [Version(f, changes[0])] + versions);
    }
  }
}
