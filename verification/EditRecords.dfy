/**
 Edits of whole records. A record is a map from field names to the values that are present, and an edit is a pair of such
 maps. Every theorem is the field's, for all fields at once.
 */
module EditRecords {

  import opened Wrappers
  import opened Arguments
  import opened EditFields

  type Fields = map<FieldName, Datum>

  function Get(m: Fields, f: FieldName): Option<Datum> {
    if f in m then Some(m[f]) else None
  }

  ghost function FromValues(v: FieldName -> Option<Datum>): (m: Fields)
    ensures forall f :: Get(m, f) == v(f)
  {
    map f | v(f).Some? :: v(f).value
  }

  lemma SameFields(a: Fields, b: Fields)
    ensures a == b <==> forall f :: Get(a, f) == Get(b, f)
  {
    if forall f :: Get(a, f) == Get(b, f) {
      forall f ensures f in a <==> f in b { assert Get(a, f) == Get(b, f); }
      forall f | f in a ensures a[f] == b[f] { assert Get(a, f) == Get(b, f); }
    }
  }

  datatype Edit = Edit(before: Fields, after: Fields) {
    function Inverse(): Edit {
      Edit(after, before)
    }
  }

  const NO_EDIT := Edit(map[], map[])

  ghost predicate IsEdit(from: Fields, to: Fields, d: Edit) {
    forall f :: IsFieldDiff(f, Get(from, f), Get(to, f), Get(d.before, f), Get(d.after, f))
  }

  ghost function Patch(r: Fields, d: Edit): Fields {
    FromValues(f => AssignField(f, Get(r, f), Get(d.after, f), Get(d.before, f)))
  }

  // ----- what is asked for

  /** The name of a field among the arguments of a request. */
  function ArgName(f: FieldName): string {
    ARG_NAMES[f]
  }

  const ARG_NAMES := [
    "title", "details", "date", "production_date", "studio_id", "duration", "director", "code", "name", "description",
    "category_id", "disambiguation", "gender", "birthdate", "deathdate", "ethnicity", "country", "eye_color",
    "hair_color", "height", "cup_size", "band_size", "waist_size", "hip_size", "breast_type", "career_start_year",
    "career_end_year"
  ]

  /** The fields that the arguments give as null. */
  ghost function NullArgs(inputArgs: Query): set<FieldName> {
    set f | Holds(Field(inputArgs, ArgName(f)), Null)
  }

  /** The given value, nothing when the field is given as null, and the original when it is left out. */
  function AskedValue<T>(given: Option<T>, orig: Option<T>, isNull: bool): Option<T> {
    if given.Some? then given else if isNull then None else orig
  }

  ghost function Asked(orig: Fields, given: Fields, nulls: set<FieldName>): Fields {
    FromValues(f => AskedValue(Get(given, f), Get(orig, f), f in nulls))
  }

  // The arguments that are null, by name.

  lemma TitleNulls(q: Query)
    ensures TITLE in NullArgs(q) <==> Holds(Field(q, "title"), Null)
    ensures DETAILS in NullArgs(q) <==> Holds(Field(q, "details"), Null)
  {
  }

  lemma DatesNulls(q: Query)
    ensures DATE in NullArgs(q) <==> Holds(Field(q, "date"), Null)
    ensures PRODUCTION_DATE in NullArgs(q) <==> Holds(Field(q, "production_date"), Null)
  {
  }

  lemma StudioNulls(q: Query)
    ensures STUDIO in NullArgs(q) <==> Holds(Field(q, "studio_id"), Null)
    ensures DURATION in NullArgs(q) <==> Holds(Field(q, "duration"), Null)
  {
  }

  lemma CodeNulls(q: Query)
    ensures DIRECTOR in NullArgs(q) <==> Holds(Field(q, "director"), Null)
    ensures CODE in NullArgs(q) <==> Holds(Field(q, "code"), Null)
  {
  }

  lemma TagNulls(q: Query)
    ensures NAME in NullArgs(q) <==> Holds(Field(q, "name"), Null)
    ensures DESCRIPTION in NullArgs(q) <==> Holds(Field(q, "description"), Null)
    ensures CATEGORY in NullArgs(q) <==> Holds(Field(q, "category_id"), Null)
  {
  }

  lemma PerformerNulls(q: Query)
    ensures DISAMBIGUATION in NullArgs(q) <==> Holds(Field(q, "disambiguation"), Null)
    ensures GENDER in NullArgs(q) <==> Holds(Field(q, "gender"), Null)
    ensures BIRTHDATE in NullArgs(q) <==> Holds(Field(q, "birthdate"), Null)
    ensures DEATHDATE in NullArgs(q) <==> Holds(Field(q, "deathdate"), Null)
  {
  }

  lemma LooksNulls(q: Query)
    ensures ETHNICITY in NullArgs(q) <==> Holds(Field(q, "ethnicity"), Null)
    ensures COUNTRY in NullArgs(q) <==> Holds(Field(q, "country"), Null)
    ensures EYE_COLOR in NullArgs(q) <==> Holds(Field(q, "eye_color"), Null)
    ensures HAIR_COLOR in NullArgs(q) <==> Holds(Field(q, "hair_color"), Null)
  {
  }

  lemma MeasurementNulls(q: Query)
    ensures HEIGHT in NullArgs(q) <==> Holds(Field(q, "height"), Null)
    ensures CUP_SIZE in NullArgs(q) <==> Holds(Field(q, "cup_size"), Null)
    ensures BAND_SIZE in NullArgs(q) <==> Holds(Field(q, "band_size"), Null)
    ensures WAIST_SIZE in NullArgs(q) <==> Holds(Field(q, "waist_size"), Null)
    ensures HIP_SIZE in NullArgs(q) <==> Holds(Field(q, "hip_size"), Null)
  {
  }

  lemma CareerNulls(q: Query)
    ensures BREAST_TYPE in NullArgs(q) <==> Holds(Field(q, "breast_type"), Null)
    ensures CAREER_START_YEAR in NullArgs(q) <==> Holds(Field(q, "career_start_year"), Null)
    ensures CAREER_END_YEAR in NullArgs(q) <==> Holds(Field(q, "career_end_year"), Null)
  {
  }

  /** What is given wins, null clears, and what is left out stays. */
  lemma AskedFields(orig: Fields, given: Fields, nulls: set<FieldName>, f: FieldName)
    ensures var asked := Asked(orig, given, nulls);
            if f in given then f in asked && asked[f] == given[f]
            else if f in nulls then f !in asked
            else (f in asked <==> f in orig) && (f in orig ==> asked[f] == orig[f])
  {
    assert Get(Asked(orig, given, nulls), f) == AskedValue(Get(given, f), Get(orig, f), f in nulls);
  }

  lemma AskedTwice(orig: Fields, given: Fields, nulls: set<FieldName>)
    ensures Asked(Asked(orig, given, nulls), given, nulls) == Asked(orig, given, nulls)
  {
    SameFields(Asked(Asked(orig, given, nulls), given, nulls), Asked(orig, given, nulls));
  }

  // ----- diff and patch

  ghost predicate AllSettable(from: Fields, to: Fields) {
    forall f :: Settable(f, Get(from, f), Get(to, f))
  }

  /** A field of an edit becomes what is after it, or nothing if something was before it; but a name is never cleared. */
  lemma PatchedFields(r: Fields, d: Edit, f: FieldName)
    ensures var patched := Patch(r, d);
            if f in d.after then f in patched && patched[f] == d.after[f]
            else if f in d.before && f != NAME then f !in patched
            else (f in patched <==> f in r) && (f in r ==> patched[f] == r[f])
  {
    assert Get(Patch(r, d), f) == AssignField(f, Get(r, f), Get(d.after, f), Get(d.before, f));
  }

  /** What a record shows to a diff: everything but values of enums that are none of their constants. */
  ghost predicate Shows(m: Fields, f: FieldName) {
    f in m && ((f == GENDER || f == ETHNICITY || f == EYE_COLOR || f == HAIR_COLOR || f == BREAST_TYPE) ==> m[f].Constant?)
  }

  /** An edit has, of each field that shows a difference, what shows before and after; and nothing else. */
  lemma EditFieldsIff(from: Fields, to: Fields, d: Edit)
    ensures IsEdit(from, to, d) <==>
              forall f :: var same := Shows(from, f) == Shows(to, f) && (Shows(from, f) ==> from[f] == to[f]);
                && (f in d.before <==> !same && Shows(from, f))
                && (f in d.after <==> !same && Shows(to, f))
                && (f in d.before ==> d.before[f] == from[f])
                && (f in d.after ==> d.after[f] == to[f])
  {
    forall f ensures IsFieldDiff(f, Get(from, f), Get(to, f), Get(d.before, f), Get(d.after, f)) <==>
                       var same := Shows(from, f) == Shows(to, f) && (Shows(from, f) ==> from[f] == to[f]);
                       && (f in d.before <==> !same && Shows(from, f))
                       && (f in d.after <==> !same && Shows(to, f))
                       && (f in d.before ==> d.before[f] == from[f])
                       && (f in d.after ==> d.after[f] == to[f])
    {}
  }

  /** What can be met: a field that stays, one set to something that shows, or one other than the name cleared of it. */
  lemma AllSettableIff(from: Fields, to: Fields)
    ensures AllSettable(from, to) <==>
              forall f :: || ((f in from <==> f in to) && (f in from ==> from[f] == to[f]))
                          || (if f in to then Shows(to, f) else f != NAME && Shows(from, f))
  {
    forall f ensures Settable(f, Get(from, f), Get(to, f)) <==>
                       || ((f in from <==> f in to) && (f in from ==> from[f] == to[f]))
                       || (if f in to then Shows(to, f) else f != NAME && Shows(from, f))
    {}
  }

  /** The patch gives what was asked for exactly when every field can be set to it. */
  lemma PatchIff(a: Fields, b: Fields, d: Edit)
    requires IsEdit(a, b, d)
    ensures Patch(a, d) == b <==> AllSettable(a, b)
  {
    SameFields(Patch(a, d), b);
    forall f ensures Get(Patch(a, d), f) == Get(b, f) <==> Settable(f, Get(a, f), Get(b, f)) {
      FieldPatchIff(f, Get(a, f), Get(b, f), Get(d.before, f), Get(d.after, f));
    }
  }

  /** No name, and no value of an enum. */
  ghost predicate IsPlain(m: Fields) {
    forall f :: f == NAME || IsEnum(f) ==> Get(m, f) == None
  }

  /** No value of an enum. */
  ghost predicate IsPlainBut(m: Fields) {
    forall f :: IsEnum(f) ==> Get(m, f) == None
  }

  ghost predicate AllKnown(m: Fields) {
    forall f :: Known(f, Get(m, f)) == Get(m, f)
  }

  lemma PlainIsSettable(a: Fields, b: Fields)
    requires IsPlain(a) && IsPlain(b)
    ensures AllSettable(a, b)
  {
    forall f ensures Settable(f, Get(a, f), Get(b, f)) {
      assert f == NAME || IsEnum(f) ==> Get(a, f) == Get(b, f);
    }
  }

  lemma AskedIsPlain(orig: Fields, given: Fields, nulls: set<FieldName>)
    ensures IsPlain(orig) && IsPlain(given) ==> IsPlain(Asked(orig, given, nulls))
    ensures IsPlainBut(orig) && IsPlainBut(given) ==> IsPlainBut(Asked(orig, given, nulls))
  {
    forall f ensures Get(orig, f) == None == Get(given, f) ==> Get(Asked(orig, given, nulls), f) == None {}
  }

  lemma PlainNoChangeIff(a: Fields, b: Fields, d: Edit)
    requires IsPlain(a) && IsPlain(b) && IsEdit(a, b, d)
    ensures d == NO_EDIT <==> a == b
  {
    NoChangeIff(a, b, d);
    SameFields(a, b);
    forall f ensures Known(f, Get(a, f)) == Get(a, f) && Known(f, Get(b, f)) == Get(b, f) {
      assert IsEnum(f) ==> Get(a, f) == None == Get(b, f);
    }
  }

  lemma KnownIsSettable(orig: Fields, given: Fields, nulls: set<FieldName>)
    requires AllKnown(orig) && AllKnown(given) && (Get(given, NAME).Some? || NAME !in nulls)
    ensures AllSettable(orig, Asked(orig, given, nulls))
  {
    var b := Asked(orig, given, nulls);
    forall f ensures Settable(f, Get(orig, f), Get(b, f)) {
      assert Known(f, Get(orig, f)) == Get(orig, f) && Known(f, Get(given, f)) == Get(given, f);
      assert Get(b, f) == AskedValue(Get(given, f), Get(orig, f), f in nulls);
    }
  }

  /** Without enums the patch gives what was asked for, but keeps a name that was asked to be null. */
  lemma NamedPatch(orig: Fields, b: Fields, d: Edit)
    requires IsPlainBut(orig) && IsPlainBut(b) && NAME in orig && IsEdit(orig, b, d)
    ensures Patch(orig, d) == if NAME in b then b else b[NAME := orig[NAME]]
  {
    var kept := if NAME in b then b else b[NAME := orig[NAME]];
    SameFields(Patch(orig, d), kept);
    forall f ensures Get(Patch(orig, d), f) == Get(kept, f) {
      NamedFieldPatch(f, Get(orig, f), Get(b, f), Get(d.before, f), Get(d.after, f));
    }
  }

  lemma NamedFieldPatch(f: FieldName, from: Option<Datum>, to: Option<Datum>, before: Option<Datum>, after: Option<Datum>)
    requires IsFieldDiff(f, from, to, before, after) && (IsEnum(f) ==> from == None == to)
    ensures AssignField(f, from, after, before) == if f == NAME && to.None? then from else to
  {
  }

  /** Asking once more after such a patch is empty exactly when the name was not asked to be null. */
  lemma NamedDiffAgain(orig: Fields, given: Fields, nulls: set<FieldName>, patched: Fields, d: Edit)
    requires IsPlainBut(orig) && IsPlainBut(given) && NAME in orig
    requires var b := Asked(orig, given, nulls); patched == if NAME in b then b else b[NAME := orig[NAME]]
    requires IsEdit(patched, Asked(patched, given, nulls), d)
    ensures d == NO_EDIT <==> Get(given, NAME).Some? || NAME !in nulls
  {
    var b := Asked(orig, given, nulls);
    assert Get(b, NAME) == AskedValue(Get(given, NAME), Get(orig, NAME), NAME in nulls);
    NoChangeIff(patched, Asked(patched, given, nulls), d);
    if NAME in b {
      AskedTwice(orig, given, nulls);
    } else {
      assert Known(NAME, Get(patched, NAME)) == Some(orig[NAME]);
      assert Get(Asked(patched, given, nulls), NAME) == AskedValue(Get(given, NAME), Get(patched, NAME), NAME in nulls);
      assert Known(NAME, Get(Asked(patched, given, nulls), NAME)) == None;
    }
  }

  /** The inverse of an edit is the edit back, and it gives the original exactly when every field can be set back. */
  lemma InversePatchIff(a: Fields, b: Fields, d: Edit)
    requires IsEdit(a, b, d)
    ensures IsEdit(b, a, d.Inverse())
    ensures Patch(b, d.Inverse()) == a <==> AllSettable(b, a)
  {
    forall f ensures IsFieldDiff(f, Get(b, f), Get(a, f), Get(d.after, f), Get(d.before, f)) {
      assert IsFieldDiff(f, Get(a, f), Get(b, f), Get(d.before, f), Get(d.after, f));
    }
    PatchIff(b, a, d.Inverse());
  }

  /** The edit is empty, and equal before and after, exactly when no field changes its known value. */
  lemma NoChangeIff(a: Fields, b: Fields, d: Edit)
    requires IsEdit(a, b, d)
    ensures d.before == d.after <==> forall f :: Known(f, Get(a, f)) == Known(f, Get(b, f))
    ensures d.before == d.after <==> d == NO_EDIT
  {
    SameFields(d.before, d.after);
    SameFields(d.before, map[]);
    SameFields(d.after, map[]);
    forall f
      ensures Get(d.before, f) == Get(d.after, f) <==> Known(f, Get(a, f)) == Known(f, Get(b, f))
      ensures Get(d.before, f) == Get(d.after, f) ==> Get(d.before, f) == None
    {
      assert IsFieldDiff(f, Get(a, f), Get(b, f), Get(d.before, f), Get(d.after, f));
    }
  }

  /** Applied to a record that has changed since, an edit touches only its own fields. */
  lemma PatchIsThreeWay(a: Fields, b: Fields, d: Edit, c: Fields)
    requires IsEdit(a, b, d)
    ensures Patch(c, d) == FromValues(f => ThreeWay(f, Get(a, f), Get(b, f), Get(c, f)))
  {
    var merged := FromValues(f => ThreeWay(f, Get(a, f), Get(b, f), Get(c, f)));
    SameFields(Patch(c, d), merged);
    forall f ensures Get(Patch(c, d), f) == Get(merged, f) {
      FieldThreeWay(f, Get(a, f), Get(b, f), Get(d.before, f), Get(d.after, f), Get(c, f));
    }
  }

  /** Edits made one on top of the other apply as one. */
  lemma EditsChain(a: Fields, b: Fields, c: Fields, d: Edit, o: Edit, whole: Edit)
    requires IsEdit(a, b, d) && IsEdit(b, c, o) && IsEdit(a, c, whole)
    requires AllSettable(a, b) && AllSettable(b, c)
    ensures Patch(Patch(a, d), o) == c
    ensures AllSettable(a, c) ==> Patch(a, whole) == Patch(Patch(a, d), o)
  {
    PatchIff(a, b, d);
    PatchIff(b, c, o);
    PatchIff(a, c, whole);
  }

  // ----- undoing

  ghost predicate AllUnmoved(r: Fields, d: Edit) {
    forall f :: Unmoved(f, Get(d.before, f), Get(d.after, f), Get(r, f))
  }

  /** The inverse edit restores a record exactly when no touched field had moved. */
  lemma UndoIff(r: Fields, d: Edit)
    ensures Patch(Patch(r, d), d.Inverse()) == r <==> AllUnmoved(r, d)
  {
    SameFields(Patch(Patch(r, d), d.Inverse()), r);
    forall f
      ensures Get(Patch(Patch(r, d), d.Inverse()), f) == Get(r, f) <==> Unmoved(f, Get(d.before, f), Get(d.after, f), Get(r, f))
    {
      FieldUndoIff(f, Get(r, f), Get(d.after, f), Get(d.before, f));
    }
  }

  ghost predicate AllExpected(r: Fields, d: Edit) {
    forall f :: Expected(f, Get(d.before, f), Get(r, f))
  }

  /** Each old value is still there, or it is one that may be cleared and none that is known is there. */
  lemma ExpectedIff(r: Fields, d: Edit)
    ensures AllExpected(r, d) <==>
              forall f :: f in d.before ==>
                || (f in r && r[f] == d.before[f])
                || (f != NAME && f != STUDIO && f != CATEGORY && !Shows(r, f))
  {
    forall f ensures Expected(f, Get(d.before, f), Get(r, f)) <==>
                       (f in d.before ==>
                          || (f in r && r[f] == d.before[f])
                          || (f != NAME && f != STUDIO && f != CATEGORY && !Shows(r, f)))
    {}
  }

  ghost predicate AllPresenceUnmoved(r: Fields, d: Edit) {
    forall f :: PresenceUnmoved(f, Get(d.before, f), Get(d.after, f), Get(r, f))
  }

  /**
   A validated edit can be undone exactly when in each of its fields there is a value now, and a known one, if and only if there
   was one then.
   */
  lemma ValidatedUndoIff(a: Fields, b: Fields, d: Edit, r: Fields)
    requires IsEdit(a, b, d) && AllExpected(r, d) && (NAME in a || NAME !in b)
    ensures Patch(Patch(r, d), d.Inverse()) == r <==> AllPresenceUnmoved(r, d)
  {
    UndoIff(r, d);
    forall f ensures Unmoved(f, Get(d.before, f), Get(d.after, f), Get(r, f)) <==>
                       PresenceUnmoved(f, Get(d.before, f), Get(d.after, f), Get(r, f))
    {
      FieldValidatedIff(f, Get(a, f), Get(b, f), Get(d.before, f), Get(d.after, f), Get(r, f));
    }
  }

  // ----- two edits

  ghost predicate AllAgree(d: Edit, o: Edit) {
    forall f :: Agree(Clears(f, Get(d.before, f)), Get(d.after, f), Clears(f, Get(o.before, f)), Get(o.after, f))
  }

  lemma EditsCommuteOn(r: Fields, d: Edit, o: Edit)
    ensures Patch(Patch(r, d), o) == Patch(Patch(r, o), d) <==> AllAgree(d, o)
  {
    SameFields(Patch(Patch(r, d), o), Patch(Patch(r, o), d));
    forall f
      ensures Get(Patch(Patch(r, d), o), f) == Get(Patch(Patch(r, o), d), f) <==>
                Agree(Clears(f, Get(d.before, f)), Get(d.after, f), Clears(f, Get(o.before, f)), Get(o.after, f))
    {
      FieldsCommuteIff(f, Get(d.before, f), Get(d.after, f), Get(o.before, f), Get(o.after, f), Get(r, f));
    }
  }

  /** Two edits can be applied in either order, to any record, exactly when they agree on every field both have an effect on. */
  lemma EditsCommuteIff(d: Edit, o: Edit)
    ensures (forall r :: Patch(Patch(r, d), o) == Patch(Patch(r, o), d)) <==> AllAgree(d, o)
  {
    forall r ensures Patch(Patch(r, d), o) == Patch(Patch(r, o), d) <==> AllAgree(d, o) {
      EditsCommuteOn(r, d, o);
    }
    assert Patch(Patch(map[], d), o) == Patch(Patch(map[], o), d) <==> AllAgree(d, o);
  }
}
