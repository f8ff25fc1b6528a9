/**
 Edits of scenes, tags and performers: the diff of an edit's input against the current record, its validation, and the patch
 that applies it. Only the plain fields are here; lists of related things are in the module SetDiffs.
 */
module Edits {

  import opened Wrappers
  import opened Arguments
  import opened EditFields
  import opened EditRecords
  import FuzzyDates

  // ----- one line of SceneEditFromDiff and its like

  /** The gate in front of every field. */
  method GivenOrNull(given: Option<Datum>, inputArgs: Query, f: FieldName) returns (b: bool)
    ensures b <==> given.Some? || f in NullArgs(inputArgs)
  {
    if given.Some? {
      return true;
    }
    b := IsNull(Field(inputArgs, ArgName(f)));
  }

  /** A field that is done has its diff, another one none. */
  ghost predicate DiffedAt(orig: Fields, e: Fields, nulls: set<FieldName>, d: Edit, done: set<FieldName>, f: FieldName) {
    if f in done then IsFieldDiff(f, Get(orig, f), Get(Asked(orig, e, nulls), f), Get(d.before, f), Get(d.after, f))
    else f !in d.before && f !in d.after
  }

  ghost predicate Diffed(orig: Fields, e: Fields, nulls: set<FieldName>, d: Edit, done: set<FieldName>) {
    forall f :: DiffedAt(orig, e, nulls, d, done, f)
  }

  function With(m: Fields, f: FieldName, v: Option<Datum>): (r: Fields)
    ensures Get(r, f) == v && forall g :: g != f ==> Get(r, g) == Get(m, g)
  {
    if v.Some? then m[f := v.value] else m - {f}
  }

  /** The gate and the diff of one field. */
  method DiffField(orig: Fields, e: Fields, inputArgs: Query, d: Edit, ghost done: set<FieldName>, f: FieldName)
    returns (d': Edit, ghost done': set<FieldName>)
    requires Diffed(orig, e, NullArgs(inputArgs), d, done)
    ensures done' == done + {f} && Diffed(orig, e, NullArgs(inputArgs), d', done')
  {
    assert DiffedAt(orig, e, NullArgs(inputArgs), d, done, f);
    d', done' := d, done + {f};
    var gate := GivenOrNull(Get(e, f), inputArgs, f);
    if gate {
      var p := if IsEnum(f) then DiffEnum(f, Get(orig, f), Get(e, f)) else Diff(Get(orig, f), Get(e, f));
      d' := Edit(With(d.before, f, p.0), With(d.after, f, p.1));
    }
    GateIsAsked(orig, e, NullArgs(inputArgs), f, gate, d');
    OneMoreDiff(orig, e, NullArgs(inputArgs), d, done, f, d');
  }

  lemma GateIsAsked(orig: Fields, e: Fields, nulls: set<FieldName>, f: FieldName, gate: bool, d: Edit)
    requires gate <==> Get(e, f).Some? || f in nulls
    requires if gate then IsFieldDiff(f, Get(orig, f), Get(e, f), Get(d.before, f), Get(d.after, f))
             else Get(d.before, f) == None == Get(d.after, f)
    ensures IsFieldDiff(f, Get(orig, f), Get(Asked(orig, e, nulls), f), Get(d.before, f), Get(d.after, f))
  {
    assert Get(Asked(orig, e, nulls), f) == AskedValue(Get(e, f), Get(orig, f), f in nulls);
  }

  lemma OneMoreDiff(orig: Fields, e: Fields, nulls: set<FieldName>, d: Edit, done: set<FieldName>, f: FieldName, d': Edit)
    requires Diffed(orig, e, nulls, d, done)
    requires IsFieldDiff(f, Get(orig, f), Get(Asked(orig, e, nulls), f), Get(d'.before, f), Get(d'.after, f))
    requires forall g :: g != f ==> Get(d'.before, g) == Get(d.before, g) && Get(d'.after, g) == Get(d.after, g)
    ensures Diffed(orig, e, nulls, d', done + {f})
  {
    forall g ensures DiffedAt(orig, e, nulls, d', done + {f}, g) {
      assert DiffedAt(orig, e, nulls, d, done, g);
      assert g != f ==> Get(d'.before, g) == Get(d.before, g) && Get(d'.after, g) == Get(d.after, g);
    }
  }

  lemma NothingDiffed(orig: Fields, e: Fields, nulls: set<FieldName>)
    ensures Diffed(orig, e, nulls, NO_EDIT, {})
  {
  }

  lemma DiffIsEdit(orig: Fields, e: Fields, nulls: set<FieldName>, d: Edit, done: set<FieldName>)
    requires Diffed(orig, e, nulls, d, done) && orig.Keys <= done && e.Keys <= done
    ensures IsEdit(orig, Asked(orig, e, nulls), d) && d.before.Keys <= done && d.after.Keys <= done
  {
    forall f ensures IsFieldDiff(f, Get(orig, f), Get(Asked(orig, e, nulls), f), Get(d.before, f), Get(d.after, f)) {
      assert DiffedAt(orig, e, nulls, d, done, f);
      assert f !in done ==> f !in orig && f !in e;
    }
    forall f | f !in done ensures f !in d.before && f !in d.after {
      assert DiffedAt(orig, e, nulls, d, done, f);
    }
  }

  // ----- one line of CopyFromSceneEdit and its like

  ghost predicate CopiedAt(was: Fields, d: Edit, now: Fields, done: set<FieldName>, f: FieldName) {
    Get(now, f) == if f in done then AssignField(f, Get(was, f), Get(d.after, f), Get(d.before, f)) else Get(was, f)
  }

  ghost predicate Copied(was: Fields, d: Edit, now: Fields, done: set<FieldName>) {
    forall f :: CopiedAt(was, d, now, done, f)
  }

  method CopyField(was: Fields, d: Edit, now: Fields, ghost done: set<FieldName>, f: FieldName)
    returns (now': Fields, ghost done': set<FieldName>)
    requires Copied(was, d, now, done)
    ensures done' == done + {f} && Copied(was, d, now', done')
  {
    assert CopiedAt(was, d, now, done, f);
    now', done' := With(now, f, AssignField(f, Get(now, f), Get(d.after, f), Get(d.before, f))), done + {f};
    forall g ensures CopiedAt(was, d, now', done', g) {
      assert CopiedAt(was, d, now, done, g);
    }
  }

  lemma CopyIsPatch(was: Fields, d: Edit, now: Fields, done: set<FieldName>)
    requires Copied(was, d, now, done) && was.Keys <= done && d.before.Keys <= done && d.after.Keys <= done
    ensures now == Patch(was, d) && now.Keys <= done
  {
    forall f ensures Get(now, f) == Get(Patch(was, d), f) {
      assert CopiedAt(was, d, now, done, f);
      assert f !in done ==> f !in was && f !in d.before && f !in d.after;
    }
    SameFields(now, Patch(was, d));
    forall f | f !in done ensures f !in now {
      assert CopiedAt(was, d, now, done, f) && f !in was;
    }
  }

  // ----- one line of ValidateModifyEdit

  ghost predicate ExpectedIn(r: Fields, d: Edit, done: set<FieldName>) {
    forall f :: f in done ==> Expected(f, Get(d.before, f), Get(r, f))
  }

  method ValidateField(r: Fields, d: Edit, ok: bool, ghost done: set<FieldName>, f: FieldName)
    returns (ok': bool, ghost done': set<FieldName>)
    requires ok <==> ExpectedIn(r, d, done)
    ensures done' == done + {f} && (ok' <==> ExpectedIn(r, d, done'))
  {
    ok', done' := ok && Expected(f, Get(d.before, f), Get(r, f)), done + {f};
  }

  lemma ValidatedIff(r: Fields, d: Edit, ok: bool, done: set<FieldName>)
    requires (ok <==> ExpectedIn(r, d, done)) && d.before.Keys <= done
    ensures ok <==> AllExpected(r, d)
  {
    if ok {
      forall f ensures Expected(f, Get(d.before, f), Get(r, f)) {
        assert f !in done ==> f !in d.before;
      }
    }
  }

  /** A date that is given must be acceptable. */
  ghost predicate DateOk(date: Option<Datum>) {
    match date
    case Some(Text(s)) => FuzzyDates.Accepted(s)
    case _ => true
  }

  // ----- scenes

  const SCENE_FIELDS: set<FieldName> := {
    TITLE, DETAILS, DATE, PRODUCTION_DATE, STUDIO, DURATION, DIRECTOR, CODE
  }

  /** The fields of a scene, of its edits, and of their input. */
  type SceneFields = m: Fields | m.Keys <= SCENE_FIELDS

  lemma SceneExpected(r: SceneFields, d: Edit)
    requires d.before.Keys <= SCENE_FIELDS
    ensures AllExpected(r, d) <==> forall f :: f in d.before ==> (f in r && r[f] == d.before[f]) || (f != STUDIO && f !in r)
  {
    ExpectedIff(r, d);
  }

  class Scene {
    var fields: SceneFields

    /** SceneEditFromDiff, with this scene as the original. */
    method SceneEditFromDiff(e: SceneFields, inputArgs: Query) returns (r: Result<Edit, FuzzyDates.Error>)
      ensures r.Ok? <==> DateOk(Get(e, DATE))
      ensures r.Ok? ==> IsEdit(fields, Asked(fields, e, NullArgs(inputArgs)), r.value)
      ensures r.Ok? ==> r.value.before.Keys <= SCENE_FIELDS && r.value.after.Keys <= SCENE_FIELDS
    {
      var err := FuzzyDates.ValidateFuzzyString(TextIn(Get(e, DATE)));
      if err.Some? {
        return Err(FuzzyDates.InvalidDate);
      }
      var d := DiffFields(e, inputArgs);
      return Ok(d);
    }

    method DiffFields(e: SceneFields, inputArgs: Query) returns (d: Edit)
      ensures IsEdit(fields, Asked(fields, e, NullArgs(inputArgs)), d)
      ensures d.before.Keys <= SCENE_FIELDS && d.after.Keys <= SCENE_FIELDS
    {
      d := NO_EDIT;
      ghost var done := {};
      NothingDiffed(fields, e, NullArgs(inputArgs));
      d, done := DiffField(fields, e, inputArgs, d, done, TITLE);
      d, done := DiffField(fields, e, inputArgs, d, done, DETAILS);
      d, done := DiffField(fields, e, inputArgs, d, done, DATE);
      d, done := DiffField(fields, e, inputArgs, d, done, PRODUCTION_DATE);
      d, done := DiffField(fields, e, inputArgs, d, done, STUDIO);
      d, done := DiffField(fields, e, inputArgs, d, done, DURATION);
      d, done := DiffField(fields, e, inputArgs, d, done, DIRECTOR);
      d, done := DiffField(fields, e, inputArgs, d, done, CODE);
      DiffIsEdit(fields, e, NullArgs(inputArgs), d, done);
    }

    /** CopyFromSceneEdit. */
    method CopyFromSceneEdit(d: Edit)
      requires d.before.Keys <= SCENE_FIELDS && d.after.Keys <= SCENE_FIELDS
      modifies this
      ensures fields == Patch(old(fields), d)
    {
      var now: Fields := fields;
      ghost var done := {};
      assert Copied(fields, d, now, done);
      now, done := CopyField(fields, d, now, done, TITLE);
      now, done := CopyField(fields, d, now, done, DETAILS);
      now, done := CopyField(fields, d, now, done, STUDIO);
      now, done := CopyField(fields, d, now, done, DURATION);
      now, done := CopyField(fields, d, now, done, DIRECTOR);
      now, done := CopyField(fields, d, now, done, CODE);
      now, done := CopyField(fields, d, now, done, DATE);
      now, done := CopyField(fields, d, now, done, PRODUCTION_DATE);
      CopyIsPatch(fields, d, now, done);
      fields := now;
    }

    /** ValidateModifyEdit. */
    method ValidateModifyEdit(d: Edit) returns (ok: bool)
      requires d.before.Keys <= SCENE_FIELDS
      ensures ok <==> AllExpected(fields, d)
      ensures ok <==> forall f :: f in d.before ==> (f in fields && fields[f] == d.before[f]) || (f != STUDIO && f !in fields)
    {
      ok := true;
      ghost var done := {};
      ok, done := ValidateField(fields, d, ok, done, TITLE);
      ok, done := ValidateField(fields, d, ok, done, DETAILS);
      ok, done := ValidateField(fields, d, ok, done, DATE);
      ok, done := ValidateField(fields, d, ok, done, PRODUCTION_DATE);
      ok, done := ValidateField(fields, d, ok, done, STUDIO);
      ok, done := ValidateField(fields, d, ok, done, DURATION);
      ok, done := ValidateField(fields, d, ok, done, DIRECTOR);
      ok, done := ValidateField(fields, d, ok, done, CODE);
      ValidatedIff(fields, d, ok, done);
      SceneExpected(fields, d);
    }
  }

  lemma SceneIsPlain(r: SceneFields)
    ensures IsPlain(r)
  {
    forall f | f == NAME || IsEnum(f) ensures Get(r, f) == None {
      assert f !in SCENE_FIELDS;
    }
  }

  /** Every edit of a scene can be applied and inverted, and it is empty exactly for no change. */
  lemma ScenePatchAndInverse(a: SceneFields, b: SceneFields, d: Edit)
    requires IsEdit(a, b, d)
    ensures Patch(a, d) == b && Patch(b, d.Inverse()) == a
    ensures d == NO_EDIT <==> a == b
  {
    SceneIsPlain(a);
    SceneIsPlain(b);
    PlainIsSettable(a, b);
    PlainIsSettable(b, a);
    PatchIff(a, b, d);
    InversePatchIff(a, b, d);
    PlainNoChangeIff(a, b, d);
  }

  /**
   An edit made of a scene and applied to it: a date that is not acceptable stops it, otherwise the scene has exactly the fields
   asked for, and asking once more is an empty edit.
   */
  method EditScene(scene: Scene, e: SceneFields, inputArgs: Query) returns (again: Result<Edit, FuzzyDates.Error>)
    modifies scene
    ensures again.Ok? <==> DateOk(Get(e, DATE))
    ensures again.Err? ==> scene.fields == old(scene.fields)
    ensures again.Ok? ==> scene.fields == Asked(old(scene.fields), e, NullArgs(inputArgs)) && again.value == NO_EDIT
  {
    ghost var orig: Fields := scene.fields;
    ghost var asked := Asked(orig, e, NullArgs(inputArgs));
    SceneIsPlain(scene.fields);
    SceneIsPlain(e);
    AskedIsPlain(orig, e, NullArgs(inputArgs));
    PlainIsSettable(orig, asked);
    again := scene.SceneEditFromDiff(e, inputArgs);
    if again.Err? {
      return;
    }
    PatchIff(orig, asked, again.value);
    scene.CopyFromSceneEdit(again.value);
    again := scene.SceneEditFromDiff(e, inputArgs);
    AskedTwice(orig, e, NullArgs(inputArgs));
    NoChangeIff(asked, asked, again.value);
  }

  /** A title given since the edit was made is overwritten, and validation does not notice. */
  lemma SceneValidationOverwrites()
    ensures var wanted, now := map[TITLE := Text("A")], map[TITLE := Text("B")];
            var d := Edit(map[], wanted);
            IsEdit(map[], wanted, d) && AllExpected(now, d) && Patch(now, d) == wanted && Patch(wanted, d.Inverse()) != now
  {
    var wanted, now := map[TITLE := Text("A")], map[TITLE := Text("B")];
    var d := Edit(map[], wanted);
    SameFields(Patch(now, d), wanted);
    assert Get(Patch(wanted, d.Inverse()), TITLE) == None;
  }

  // ----- tags

  const TAG_FIELDS: set<FieldName> := {NAME, DESCRIPTION, CATEGORY}

  /** The fields of a tag, of its edits, and of their input. */
  type TagFields = m: Fields | m.Keys <= TAG_FIELDS

  lemma TagExpected(r: TagFields, d: Edit)
    requires d.before.Keys <= TAG_FIELDS
    ensures AllExpected(r, d) <==> forall f :: f in d.before ==> (f in r && r[f] == d.before[f]) || (f == DESCRIPTION && f !in r)
  {
    ExpectedIff(r, d);
  }

  class Tag {
    var fields: TagFields

    /** TagEditFromDiff, with this tag as the original. */
    method TagEditFromDiff(e: TagFields, inputArgs: Query) returns (d: Edit)
      ensures IsEdit(fields, Asked(fields, e, NullArgs(inputArgs)), d) && d.before.Keys <= TAG_FIELDS && d.after.Keys <= TAG_FIELDS
    {
      d := NO_EDIT;
      ghost var done := {};
      NothingDiffed(fields, e, NullArgs(inputArgs));
      d, done := DiffField(fields, e, inputArgs, d, done, NAME);
      d, done := DiffField(fields, e, inputArgs, d, done, DESCRIPTION);
      d, done := DiffField(fields, e, inputArgs, d, done, CATEGORY);
      DiffIsEdit(fields, e, NullArgs(inputArgs), d, done);
    }

    /** CopyFromTagEdit. */
    method CopyFromTagEdit(d: Edit)
      requires d.before.Keys <= TAG_FIELDS && d.after.Keys <= TAG_FIELDS
      modifies this
      ensures fields == Patch(old(fields), d)
    {
      var now: Fields := fields;
      ghost var done := {};
      assert Copied(fields, d, now, done);
      now, done := CopyField(fields, d, now, done, NAME);
      now, done := CopyField(fields, d, now, done, DESCRIPTION);
      now, done := CopyField(fields, d, now, done, CATEGORY);
      CopyIsPatch(fields, d, now, done);
      fields := now;
    }

    /** ValidateModifyEdit. */
    method ValidateModifyEdit(d: Edit) returns (ok: bool)
      requires d.before.Keys <= TAG_FIELDS
      ensures ok <==> AllExpected(fields, d)
      ensures ok <==> forall f :: f in d.before ==> (f in fields && fields[f] == d.before[f]) || (f == DESCRIPTION && f !in fields)
    {
      ok := true;
      ghost var done := {};
      ok, done := ValidateField(fields, d, ok, done, NAME);
      ok, done := ValidateField(fields, d, ok, done, DESCRIPTION);
      ok, done := ValidateField(fields, d, ok, done, CATEGORY);
      ValidatedIff(fields, d, ok, done);
      TagExpected(fields, d);
    }
  }

  lemma TagIsPlain(r: TagFields)
    ensures IsPlainBut(r)
  {
    forall f | IsEnum(f) ensures Get(r, f) == None {
      assert f !in TAG_FIELDS;
    }
  }

  /**
   An edit made of a tag and applied to it gives exactly the fields asked for, but that a name asked to be null stays. In that
   case asking once more is not an empty edit: it asks for the same again.
   */
  method EditTag(tag: Tag, e: TagFields, inputArgs: Query) returns (again: Edit)
    requires NAME in tag.fields
    modifies tag
    ensures NAME in tag.fields
    ensures var asked := Asked(old(tag.fields), e, NullArgs(inputArgs));
            tag.fields == if NAME in asked then asked else asked[NAME := old(tag.fields)[NAME]]
    ensures again == NO_EDIT <==> NAME in e || NAME !in NullArgs(inputArgs)
  {
    ghost var orig: Fields := tag.fields;
    TagIsPlain(tag.fields);
    TagIsPlain(e);
    AskedIsPlain(orig, e, NullArgs(inputArgs));
    again := tag.TagEditFromDiff(e, inputArgs);
    NamedPatch(orig, Asked(orig, e, NullArgs(inputArgs)), again);
    tag.CopyFromTagEdit(again);
    again := tag.TagEditFromDiff(e, inputArgs);
    NamedDiffAgain(orig, e, NullArgs(inputArgs), tag.fields, again);
  }

  // ----- performers

  const PERFORMER_FIELDS: set<FieldName> := {
    NAME, DISAMBIGUATION, GENDER, BIRTHDATE, DEATHDATE, ETHNICITY, COUNTRY, EYE_COLOR, HAIR_COLOR, HEIGHT, CUP_SIZE, BAND_SIZE,
    WAIST_SIZE, HIP_SIZE, BREAST_TYPE, CAREER_START_YEAR, CAREER_END_YEAR
  }

  /** The fields of a performer, of its edits, and of their input. */
  type PerformerFields = m: Fields | m.Keys <= PERFORMER_FIELDS

  lemma PerformerExpected(r: PerformerFields, d: Edit)
    requires d.before.Keys <= PERFORMER_FIELDS
    ensures AllExpected(r, d) <==> forall f :: f in d.before ==> (f in r && r[f] == d.before[f]) || (f != NAME && !Shows(r, f))
  {
    ExpectedIff(r, d);
  }

  class Performer {
    var fields: PerformerFields

    /** PerformerEditFromDiff, with this performer as the original. */
    method PerformerEditFromDiff(e: PerformerFields, inputArgs: Query) returns (r: Result<Edit, FuzzyDates.Error>)
      ensures r.Ok? <==> DateOk(Get(e, BIRTHDATE)) && DateOk(Get(e, DEATHDATE))
      ensures r.Ok? ==> IsEdit(fields, Asked(fields, e, NullArgs(inputArgs)), r.value)
      ensures r.Ok? ==> r.value.before.Keys <= PERFORMER_FIELDS && r.value.after.Keys <= PERFORMER_FIELDS
    {
      var err := FuzzyDates.ValidateFuzzyString(TextIn(Get(e, BIRTHDATE)));
      if err.Some? {
        return Err(FuzzyDates.InvalidDate);
      }
      err := FuzzyDates.ValidateFuzzyString(TextIn(Get(e, DEATHDATE)));
      if err.Some? {
        return Err(FuzzyDates.InvalidDate);
      }
      ghost var done := {};
      NothingDiffed(fields, e, NullArgs(inputArgs));
      var d, first := DiffFirst(e, inputArgs, NO_EDIT, done);
      d, done := DiffRest(e, inputArgs, d, first);
      DiffIsEdit(fields, e, NullArgs(inputArgs), d, done);
      return Ok(d);
    }

    /** The name and the fields up to hair colour. */
    method DiffFirst(e: PerformerFields, inputArgs: Query, before: Edit, ghost doneBefore: set<FieldName>)
      returns (d: Edit, ghost done: set<FieldName>)
      requires Diffed(fields, e, NullArgs(inputArgs), before, doneBefore)
      ensures Diffed(fields, e, NullArgs(inputArgs), d, done)
      ensures done == doneBefore + {
                NAME, DISAMBIGUATION, GENDER, BIRTHDATE, DEATHDATE, ETHNICITY, COUNTRY, EYE_COLOR, HAIR_COLOR
              }
    {
      d, done := before, doneBefore;
      d, done := DiffField(fields, e, inputArgs, d, done, NAME);
      d, done := DiffField(fields, e, inputArgs, d, done, DISAMBIGUATION);
      d, done := DiffField(fields, e, inputArgs, d, done, GENDER);
      d, done := DiffField(fields, e, inputArgs, d, done, BIRTHDATE);
      d, done := DiffField(fields, e, inputArgs, d, done, DEATHDATE);
      d, done := DiffField(fields, e, inputArgs, d, done, ETHNICITY);
      d, done := DiffField(fields, e, inputArgs, d, done, COUNTRY);
      d, done := DiffField(fields, e, inputArgs, d, done, EYE_COLOR);
      d, done := DiffField(fields, e, inputArgs, d, done, HAIR_COLOR);
    }

    /** The measurements, breast type and career years. */
    method DiffRest(e: PerformerFields, inputArgs: Query, before: Edit, ghost doneBefore: set<FieldName>)
      returns (d: Edit, ghost done: set<FieldName>)
      requires Diffed(fields, e, NullArgs(inputArgs), before, doneBefore)
      ensures Diffed(fields, e, NullArgs(inputArgs), d, done)
      ensures done == doneBefore + {
                HEIGHT, CUP_SIZE, BAND_SIZE, WAIST_SIZE, HIP_SIZE, BREAST_TYPE, CAREER_START_YEAR, CAREER_END_YEAR
              }
    {
      d, done := before, doneBefore;
      d, done := DiffField(fields, e, inputArgs, d, done, HEIGHT);
      d, done := DiffField(fields, e, inputArgs, d, done, CUP_SIZE);
      d, done := DiffField(fields, e, inputArgs, d, done, BAND_SIZE);
      d, done := DiffField(fields, e, inputArgs, d, done, WAIST_SIZE);
      d, done := DiffField(fields, e, inputArgs, d, done, HIP_SIZE);
      d, done := DiffField(fields, e, inputArgs, d, done, BREAST_TYPE);
      d, done := DiffField(fields, e, inputArgs, d, done, CAREER_START_YEAR);
      d, done := DiffField(fields, e, inputArgs, d, done, CAREER_END_YEAR);
    }

    /** CopyFromPerformerEdit. */
    method CopyFromPerformerEdit(d: Edit)
      requires d.before.Keys <= PERFORMER_FIELDS && d.after.Keys <= PERFORMER_FIELDS
      modifies this
      ensures fields == Patch(old(fields), d)
    {
      var now: Fields := fields;
      ghost var done := {};
      assert Copied(fields, d, now, done);
      now, done := CopyField(fields, d, now, done, NAME);
      now, done := CopyField(fields, d, now, done, DISAMBIGUATION);
      now, done := CopyField(fields, d, now, done, GENDER);
      now, done := CopyField(fields, d, now, done, ETHNICITY);
      now, done := CopyField(fields, d, now, done, COUNTRY);
      now, done := CopyField(fields, d, now, done, EYE_COLOR);
      now, done := CopyField(fields, d, now, done, HAIR_COLOR);
      now, done := CopyField(fields, d, now, done, HEIGHT);
      now, done := CopyField(fields, d, now, done, BREAST_TYPE);
      now, done := CopyField(fields, d, now, done, CAREER_START_YEAR);
      now, done := CopyField(fields, d, now, done, CAREER_END_YEAR);
      now, done := CopyField(fields, d, now, done, CUP_SIZE);
      now, done := CopyField(fields, d, now, done, BAND_SIZE);
      now, done := CopyField(fields, d, now, done, HIP_SIZE);
      now, done := CopyField(fields, d, now, done, WAIST_SIZE);
      now, done := CopyField(fields, d, now, done, BIRTHDATE);
      now, done := CopyField(fields, d, now, done, DEATHDATE);
      CopyIsPatch(fields, d, now, done);
      fields := now;
    }

    /** ValidateModifyEdit. */
    method ValidateModifyEdit(d: Edit) returns (ok: bool)
      requires d.before.Keys <= PERFORMER_FIELDS
      ensures ok <==> AllExpected(fields, d)
      ensures ok <==> forall f :: f in d.before ==> (f in fields && fields[f] == d.before[f]) || (f != NAME && !Shows(fields, f))
    {
      ok := ValidateFields(d);
      PerformerExpected(fields, d);
    }

    method ValidateFields(d: Edit) returns (ok: bool)
      requires d.before.Keys <= PERFORMER_FIELDS
      ensures ok <==> AllExpected(fields, d)
    {
      ok := true;
      ghost var done := {};
      ok, done := ValidateField(fields, d, ok, done, NAME);
      ok, done := ValidateField(fields, d, ok, done, DISAMBIGUATION);
      ok, done := ValidateField(fields, d, ok, done, GENDER);
      ok, done := ValidateField(fields, d, ok, done, ETHNICITY);
      ok, done := ValidateField(fields, d, ok, done, COUNTRY);
      ok, done := ValidateField(fields, d, ok, done, EYE_COLOR);
      ok, done := ValidateField(fields, d, ok, done, HAIR_COLOR);
      ok, done := ValidateField(fields, d, ok, done, HEIGHT);
      ok, done := ValidateField(fields, d, ok, done, BREAST_TYPE);
      ok, done := ValidateField(fields, d, ok, done, CAREER_START_YEAR);
      ok, done := ValidateField(fields, d, ok, done, CAREER_END_YEAR);
      ok, done := ValidateField(fields, d, ok, done, CUP_SIZE);
      ok, done := ValidateField(fields, d, ok, done, BAND_SIZE);
      ok, done := ValidateField(fields, d, ok, done, HIP_SIZE);
      ok, done := ValidateField(fields, d, ok, done, WAIST_SIZE);
      ok, done := ValidateField(fields, d, ok, done, BIRTHDATE);
      ok, done := ValidateField(fields, d, ok, done, DEATHDATE);
      ValidatedIff(fields, d, ok, done);
    }
  }

  /**
   An edit made of a performer and applied to it gives exactly the fields asked for if and only if each of them can be set: the
   name is not cleared, and every enum stays as it is or changes to a known value. Where this holds, asking once more is an
   empty edit.
   */
  method EditPerformer(performer: Performer, e: PerformerFields, inputArgs: Query) returns (again: Result<Edit, FuzzyDates.Error>)
    modifies performer
    ensures again.Ok? <==> DateOk(Get(e, BIRTHDATE)) && DateOk(Get(e, DEATHDATE))
    ensures again.Err? ==> performer.fields == old(performer.fields)
    ensures again.Ok? ==>
              var asked := Asked(old(performer.fields), e, NullArgs(inputArgs));
              && (performer.fields == asked <==> AllSettable(old(performer.fields), asked))
              && (performer.fields == asked ==> again.value == NO_EDIT)
  {
    ghost var orig: Fields := performer.fields;
    again := performer.PerformerEditFromDiff(e, inputArgs);
    if again.Err? {
      return;
    }
    PatchIff(orig, Asked(orig, e, NullArgs(inputArgs)), again.value);
    performer.CopyFromPerformerEdit(again.value);
    ghost var patched: Fields := performer.fields;
    again := performer.PerformerEditFromDiff(e, inputArgs);
    AskedTwice(orig, e, NullArgs(inputArgs));
    NoChangeIff(patched, Asked(patched, e, NullArgs(inputArgs)), again.value);
  }

  /** Among known enum values every request that does not clear the name can be met. */
  lemma PerformerSettable(orig: PerformerFields, e: PerformerFields, nulls: set<FieldName>)
    requires AllKnown(orig) && AllKnown(e) && (NAME in e || NAME !in nulls)
    ensures AllSettable(orig, Asked(orig, e, nulls))
  {
    KnownIsSettable(orig, e, nulls);
  }
}
