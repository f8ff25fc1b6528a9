/**
 The plain fields of a record, and the diff, the patch and the validation of a single one. An edit of a field is a pair of
 optional values, the one before and the one after; a field that does not change has neither.
 */
module EditFields {

  import opened Wrappers

  type Uuid = int

  /** uuid.NullUUID. */
  datatype NullUuid = NullUuid(valid: bool, uuid: Uuid) {
    function AsOption(): Option<Uuid> {
      if valid then Some(uuid) else None
    }
  }

  /** The plain fields of scenes, tags and performers. */
  newtype FieldName = n: int | 0 <= n < 27

  const TITLE: FieldName := 0
  const DETAILS: FieldName := 1
  const DATE: FieldName := 2
  const PRODUCTION_DATE: FieldName := 3
  const STUDIO: FieldName := 4
  const DURATION: FieldName := 5
  const DIRECTOR: FieldName := 6
  const CODE: FieldName := 7
  const NAME: FieldName := 8
  const DESCRIPTION: FieldName := 9
  const CATEGORY: FieldName := 10
  const DISAMBIGUATION: FieldName := 11
  const GENDER: FieldName := 12
  const BIRTHDATE: FieldName := 13
  const DEATHDATE: FieldName := 14
  const ETHNICITY: FieldName := 15
  const COUNTRY: FieldName := 16
  const EYE_COLOR: FieldName := 17
  const HAIR_COLOR: FieldName := 18
  const HEIGHT: FieldName := 19
  const CUP_SIZE: FieldName := 20
  const BAND_SIZE: FieldName := 21
  const WAIST_SIZE: FieldName := 22
  const HIP_SIZE: FieldName := 23
  const BREAST_TYPE: FieldName := 24
  const CAREER_START_YEAR: FieldName := 25
  const CAREER_END_YEAR: FieldName := 26

  /**
   A field's value. What an enum field holds is a constant when it is one of the constants of that field's enum, and a text
   otherwise.
   */
  datatype Datum = Text(text: string) | Number(number: int) | Ref(uuid: Uuid) | Constant(name: string)

  function TextIn(v: Option<Datum>): Option<string> {
    if v.Some? && v.value.Text? then Some(v.value.text) else None
  }

  // ----- enums

  predicate IsEnum(f: FieldName) {
    f == GENDER || f == ETHNICITY || f == EYE_COLOR || f == HAIR_COLOR || f == BREAST_TYPE
  }

  /** A value of an enum that is not one of its constants counts as no value. */
  function Known(f: FieldName, v: Option<Datum>): Option<Datum> {
    if IsEnum(f) && v.Some? && !v.value.Constant? then None else v
  }

  // ----- editDiff

  /** The least edit from one value to another: both values when they differ, otherwise nothing. */
  predicate IsDiff<T(==)>(from: Option<T>, to: Option<T>, before: Option<T>, after: Option<T>) {
    if from == to then before == None && after == None else before == from && after == to
  }

  predicate IsFieldDiff(f: FieldName, from: Option<Datum>, to: Option<Datum>, before: Option<Datum>, after: Option<Datum>) {
    IsDiff(Known(f, from), Known(f, to), before, after)
  }

  /** editDiff.string and editDiff.int. */
  function Diff<T(==)>(before: Option<T>, after: Option<T>): (r: (Option<T>, Option<T>))
    ensures IsDiff(before, after, r.0, r.1)
  {
    (if before.Some? && (after.None? || after.value != before.value) then before else None,
     if after.Some? && (before.None? || after.value != before.value) then after else None)
  }

  /** editDiff.nullUUID: a uuid is diffed like any other optional value. */
  function DiffNullUuid(before: NullUuid, after: Option<Uuid>): (r: (Option<Uuid>, Option<Uuid>))
    ensures IsDiff(before.AsOption(), after, r.0, r.1)
  {
    (if before.valid && (after.None? || after.value != before.uuid) then Some(before.uuid) else None,
     if after.Some? && (!before.valid || after.value != before.uuid) then after else None)
  }

  /** editDiff.enum. */
  function DiffEnum(f: FieldName, before: Option<Datum>, after: Option<Datum>): (r: (Option<Datum>, Option<Datum>))
    requires IsEnum(f)
    ensures IsFieldDiff(f, before, after, r.0, r.1)
  {
    (if before.Some? && before.value.Constant?
        && (after.None? || !after.value.Constant? || after.value != before.value) then before else None,
     if after.Some? && after.value.Constant?
        && (before.None? || !before.value.Constant? || after.value != before.value) then after else None)
  }

  // ----- assign

  /** assign.StringPtr, assign.IntPtr and assign.EnumPtr. */
  function Assign<T>(current: Option<T>, after: Option<T>, before: Option<T>): Option<T> {
    if after.Some? then after else if before.Some? then None else current
  }

  /** assign.NullUUID: and it is assigned like one. */
  function AssignNullUuid(current: NullUuid, after: Option<Uuid>, before: Option<Uuid>): (r: NullUuid)
    ensures r.AsOption() == Assign(current.AsOption(), after, before)
  {
    if after.Some? then NullUuid(true, after.value) else if before.Some? then NullUuid(false, 0) else current
  }

  /** assign.String, for names: a value before clears nothing. */
  function Clears(f: FieldName, before: Option<Datum>): Option<Datum> {
    if f == NAME then None else before
  }

  function AssignField(f: FieldName, current: Option<Datum>, after: Option<Datum>, before: Option<Datum>): Option<Datum> {
    Assign(current, after, Clears(f, before))
  }

  predicate Touches<T(==)>(before: Option<T>, after: Option<T>) {
    before.Some? || after.Some?
  }

  // ----- what a diff and a patch do together

  /** What can be asked for: to leave a field alone, or a known value other than the one there, but not to clear a name. */
  predicate Settable(f: FieldName, from: Option<Datum>, to: Option<Datum>) {
    from == to || (Known(f, to) == to && Known(f, from) != to && !(f == NAME && to.None?))
  }

  lemma FieldPatchIff(f: FieldName, from: Option<Datum>, to: Option<Datum>, before: Option<Datum>, after: Option<Datum>)
    requires IsFieldDiff(f, from, to, before, after)
    ensures AssignField(f, from, after, before) == to <==> Settable(f, from, to)
  {
  }

  /** Applied to any current value: the known new value if the diff changes anything, otherwise what is there. */
  lemma FieldThreeWay(f: FieldName, from: Option<Datum>, to: Option<Datum>, before: Option<Datum>, after: Option<Datum>,
                      current: Option<Datum>)
    requires IsFieldDiff(f, from, to, before, after)
    ensures AssignField(f, current, after, before) == ThreeWay(f, from, to, current)
  {
  }

  function ThreeWay(f: FieldName, from: Option<Datum>, to: Option<Datum>, current: Option<Datum>): Option<Datum> {
    if Known(f, from) == Known(f, to) || (f == NAME && to.None?) then current else Known(f, to)
  }

  /** A field that an edit and its inverse leave as it is: untouched, or the value from before the edit. */
  predicate Unmoved(f: FieldName, before: Option<Datum>, after: Option<Datum>, current: Option<Datum>) {
    if f == NAME then
      if before.Some? then current == before else after.Some? ==> current == after
    else
      Touches(before, after) ==> current == before
  }

  lemma FieldUndoIff(f: FieldName, current: Option<Datum>, after: Option<Datum>, before: Option<Datum>)
    ensures AssignField(f, AssignField(f, current, after, before), before, after) == current <==> Unmoved(f, before, after, current)
  {
  }

  predicate Agree<T(==)>(before: Option<T>, after: Option<T>, before': Option<T>, after': Option<T>) {
    !Touches(before, after) || !Touches(before', after') || after == after'
  }

  /** Two edits of a field give the same value in both orders exactly when one has no effect or they agree on it. */
  lemma FieldsCommuteIff(f: FieldName, before: Option<Datum>, after: Option<Datum>, before': Option<Datum>, after': Option<Datum>,
                         current: Option<Datum>)
    ensures AssignField(f, AssignField(f, current, after, before), after', before') ==
            AssignField(f, AssignField(f, current, after', before'), after, before)
            <==> Agree(Clears(f, before), after, Clears(f, before'), after')
  {
  }

  // ----- validator

  /** The fields of which a validation refuses to see the old value cleared. */
  predicate IsStrict(f: FieldName) {
    f == NAME || f == STUDIO || f == CATEGORY
  }

  /**
   validator.String and validator.UUID want the old value; validator.StringPtr, IntPtr and EnumPtr also let a value pass that
   was cleared, or is no constant of its enum.
   */
  predicate Expected(f: FieldName, before: Option<Datum>, current: Option<Datum>) {
    before.None? || current == before || (!IsStrict(f) && Known(f, current).None?)
  }

  /** There is a value now exactly when there was one then, and it is a known one. */
  predicate PresenceUnmoved(f: FieldName, before: Option<Datum>, after: Option<Datum>, current: Option<Datum>) {
    Touches(before, after) ==> (current.Some? <==> before.Some?) && Known(f, current) == current
  }

  /** What validation is worth for one field of a diff: there, nothing has moved exactly when its presence has not. */
  lemma FieldValidatedIff(f: FieldName, from: Option<Datum>, to: Option<Datum>, before: Option<Datum>, after: Option<Datum>,
                          current: Option<Datum>)
    requires IsFieldDiff(f, from, to, before, after) && Expected(f, before, current) && (f == NAME ==> from.Some? || to.None?)
    ensures Unmoved(f, before, after, current) <==> PresenceUnmoved(f, before, after, current)
  {
  }
}
