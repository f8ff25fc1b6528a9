/**
 Edits of lists: what is added and what is removed, and the merged view that applies both to whatever is current. Tags,
 aliases and images are compared as they are; performers of a scene and body modifications have comparisons of their own.
 */
module SetDiffs {

  import opened Wrappers

  ghost function ToSet<T>(s: seq<T>): set<T> {
    set v | v in s
  }

  predicate NoDuplicates<T(==)>(s: seq<T>) {
    forall i, j :: 0 <= i < j < |s| ==> s[i] != s[j]
  }

  /** (current EXCEPT removed) UNION added. */
  ghost function Merged<T>(current: set<T>, added: seq<T>, removed: seq<T>): set<T> {
    (current - ToSet(removed)) + ToSet(added)
  }

  // ----- SliceCompare

  /** Where an element first occurs. */
  ghost predicate FirstAt<T>(s: seq<T>, v: T, i: int) {
    0 <= i < |s| && s[i] == v && v !in s[..i]
  }

  /** Exactly the elements of `list` that are not in `other`, each once, in the order of their first occurrence. */
  ghost predicate OnlyIn<T(!new)>(list: seq<T>, other: seq<T>, r: seq<T>) {
    && NoDuplicates(r)
    && (forall v :: v in r <==> v in list && v !in other)
    && (forall i, j, p, q :: 0 <= i < j < |r| && FirstAt(list, r[i], p) && FirstAt(list, r[j], q) ==> p < q)
  }

  /** Includes. */
  method Includes<T(==)>(arr: seq<T>, against: T) returns (b: bool)
    ensures b <==> against in arr
  {
    for i := 0 to |arr|
      invariant against !in arr[..i]
    {
      if arr[i] == against {
        return true;
      }
    }
    return false;
  }

  method NotIn<T(==,!new)>(list: seq<T>, other: seq<T>) returns (r: seq<T>)
    ensures OnlyIn(list, other, r)
  {
    r := [];
    for k := 0 to |list|
      invariant NoDuplicates(r)
      invariant forall v :: v in r <==> v in list[..k] && v !in other
      invariant forall i, j, p, q :: 0 <= i < j < |r| && FirstAt(list, r[i], p) && FirstAt(list, r[j], q) ==> p < q
    {
      var v := list[k];
      var inOther := Includes(other, v);
      var already := Includes(r, v);
      if !inOther && !already {
        LaterThanAll(list, r, k);
        r := r + [v];
      }
      assert list[..k + 1] == list[..k] + [v];
    }
    assert list[..|list|] == list;
  }

  lemma LaterThanAll<T(!new)>(list: seq<T>, r: seq<T>, k: nat)
    requires k < |list| && list[k] !in list[..k]
    requires forall v :: v in r ==> v in list[..k]
    ensures forall i, p, q :: 0 <= i < |r| && FirstAt(list, r[i], p) && FirstAt(list, list[k], q) ==> p < q
  {
    forall i, p, q | 0 <= i < |r| && FirstAt(list, r[i], p) && FirstAt(list, list[k], q) ensures p < q {
      assert r[i] in list[..k];
      var j :| 0 <= j < k && list[j] == r[i];
    }
  }

  /** SliceCompare. */
  method SliceCompare<T(==,!new)>(subject: seq<T>, against: seq<T>) returns (added: seq<T>, missing: seq<T>)
    ensures OnlyIn(subject, against, added) && OnlyIn(against, subject, missing)
  {
    added := NotIn(subject, against);
    missing := NotIn(against, subject);
  }

  lemma FirstExists<T>(s: seq<T>, v: T)
    requires v in s
    ensures exists i :: FirstAt(s, v, i)
    decreases |s|
  {
    var n := |s| - 1;
    if v in s[..n] {
      FirstExists(s[..n], v);
      var i :| FirstAt(s[..n], v, i);
      assert s[..n][..i] == s[..i];
      assert FirstAt(s, v, i);
    } else {
      assert FirstAt(s, v, n);
    }
  }

  /** The comparison is determined: nothing else meets its description. */
  lemma {:induction false} OnlyInDetermined<T(!new)>(list: seq<T>, other: seq<T>, r: seq<T>, q: seq<T>)
    requires OnlyIn(list, other, r) && OnlyIn(list, other, q)
    ensures r == q
  {
    forall v ensures v in r <==> v in q {}
    SameOrder(list, r, q);
  }

  lemma {:induction false} SameOrder<T(!new)>(list: seq<T>, r: seq<T>, q: seq<T>)
    requires NoDuplicates(r) && NoDuplicates(q) && (forall v :: v in r <==> v in q) && (forall v :: v in r ==> v in list)
    requires forall i, j, a, b :: 0 <= i < j < |r| && FirstAt(list, r[i], a) && FirstAt(list, r[j], b) ==> a < b
    requires forall i, j, a, b :: 0 <= i < j < |q| && FirstAt(list, q[i], a) && FirstAt(list, q[j], b) ==> a < b
    ensures r == q
    decreases |r|
  {
    if r == [] {
      assert forall i :: 0 <= i < |q| ==> q[i] in q;
    } else {
      assert r[0] in q;
      assert q != [] && q[0] in r;
      FirstExists(list, r[0]);
      FirstExists(list, q[0]);
      var a :| FirstAt(list, r[0], a);
      var b :| FirstAt(list, q[0], b);
      var i :| 0 <= i < |q| && q[i] == r[0];
      var j :| 0 <= j < |r| && r[j] == q[0];
      assert r[0] == q[0];
      forall v ensures v in r[1..] <==> v in q[1..] {
        assert v in r <==> v == r[0] || v in r[1..];
        assert v in q <==> v == q[0] || v in q[1..];
      }
      SameOrder(list, r[1..], q[1..]);
      assert r == [r[0]] + r[1..] && q == [q[0]] + q[1..];
    }
  }

  // ----- the merged view

  /** Any current set: what the edit asked for decides about its own changes, the current set about everything else. */
  lemma MergeIsThreeWay<T(!new)>(subject: seq<T>, against: seq<T>, added: seq<T>, missing: seq<T>, current: set<T>, v: T)
    requires OnlyIn(subject, against, added) && OnlyIn(against, subject, missing)
    ensures v in Merged(current, added, missing) <==> if v in subject <==> v in against then v in current else v in subject
  {
  }

  /** On the list the edit was made against the merged view is the list asked for, and the inverse merge goes back. */
  lemma MergeRebuilds<T(!new)>(subject: seq<T>, against: seq<T>, added: seq<T>, missing: seq<T>)
    requires OnlyIn(subject, against, added) && OnlyIn(against, subject, missing)
    ensures Merged(ToSet(against), added, missing) == ToSet(subject)
    ensures Merged(ToSet(subject), missing, added) == ToSet(against)
  {
  }

  /** Two edits merge alike in both orders exactly when neither removes what the other adds. */
  lemma MergesCommuteIff<T(!new)>(added: seq<T>, removed: seq<T>, added': seq<T>, removed': seq<T>)
    requires ToSet(added) !! ToSet(removed) && ToSet(added') !! ToSet(removed')
    ensures (forall c :: Merged(Merged(c, added, removed), added', removed') == Merged(Merged(c, added', removed'), added, removed))
            <==> ToSet(added) !! ToSet(removed') && ToSet(added') !! ToSet(removed)
  {
    if ToSet(added) !! ToSet(removed') && ToSet(added') !! ToSet(removed) {
      forall c ensures Merged(Merged(c, added, removed), added', removed') == Merged(Merged(c, added', removed'), added, removed) {}
    } else {
      var c: set<T> := {};
      if v :| v in added && v in removed' {
        assert v !in Merged(Merged(c, added, removed), added', removed') && v in Merged(Merged(c, added', removed'), added, removed);
      } else {
        var v :| v in added' && v in removed;
        assert v in Merged(Merged(c, added, removed), added', removed') && v !in Merged(Merged(c, added', removed'), added, removed);
      }
    }
  }

  // ----- performers of a scene

  datatype Appearance = Appearance(performer: int, credit: Option<string>)

  /** No credited name and an empty one are alike when a request meets a stored row. */
  function Credit(a: Appearance): string {
    if a.credit.Some? then a.credit.value else ""
  }

  predicate Same(a: Appearance, b: Appearance) {
    a.performer == b.performer && Credit(a) == Credit(b)
  }

  /** Equal performers, and equal credits or on both sides none or an empty one. */
  predicate Alike(a: Appearance, b: Appearance) {
    && a.performer == b.performer
    && (a.credit == b.credit || (a.credit in {None, Some("")} && b.credit in {None, Some("")}))
  }

  lemma SameIffAlike(a: Appearance, b: Appearance)
    ensures Same(a, b) <==> Alike(a, b)
  {
    if a.credit.None? && b.credit.Some? && b.credit.value == "" {
      assert b.credit == Some("");
    }
    if b.credit.None? && a.credit.Some? && a.credit.value == "" {
      assert a.credit == Some("");
    }
  }

  predicate HasSame(list: seq<Appearance>, a: Appearance) {
    exists b :: b in list && Same(a, b)
  }

  ghost predicate NewOnes(subject: seq<Appearance>, against: seq<Appearance>, added: seq<Appearance>) {
    NoDuplicates(added) && forall s :: s in added <==> s in subject && !HasSame(against, s)
  }

  ghost predicate GoneOnes(subject: seq<Appearance>, against: seq<Appearance>, missing: seq<Appearance>) {
    && (forall a :: a in missing ==> a in against && !HasSame(subject, a))
    && (forall a :: a in against && !HasSame(subject, a) ==> HasSame(missing, a))
    && (forall i, j :: 0 <= i < j < |missing| ==> !Same(missing[i], missing[j]))
  }

  /** performerAppearanceCompare. Among the added ones, and only there, the two spellings are different. */
  method AppearanceCompare(subject: seq<Appearance>, against: seq<Appearance>)
    returns (added: seq<Appearance>, missing: seq<Appearance>)
    ensures NewOnes(subject, against, added) && GoneOnes(subject, against, missing)
    ensures forall s :: s in added <==> s in subject && forall a :: a in against ==> !Alike(s, a)
    ensures forall a :: a in missing ==> a in against && forall s :: s in subject ==> !Alike(s, a)
    ensures forall a :: a in against && (forall s :: s in subject ==> !Alike(s, a)) ==> exists m :: m in missing && Alike(a, m)
    ensures OncePerPerformer(against) ==>
              forall a :: a in missing <==> a in against && forall s :: s in subject ==> !Alike(s, a)
  {
    added := NewAppearances(subject, against);
    missing := GoneAppearances(subject, against);
    forall s ensures HasSame(against, s) <==> exists a :: a in against && Alike(s, a) { HasSameIff(against, s); }
    forall a ensures HasSame(subject, a) <==> exists s :: s in subject && Alike(s, a) { HasSameIff(subject, a); }
    forall a ensures HasSame(missing, a) <==> exists m :: m in missing && Alike(a, m) { HasSameIff(missing, a); }
  }

  lemma HasSameIff(list: seq<Appearance>, a: Appearance)
    ensures HasSame(list, a) <==> exists b :: b in list && Alike(a, b)
    ensures HasSame(list, a) <==> exists b :: b in list && Alike(b, a)
  {
    forall b ensures Same(a, b) <==> Alike(a, b) { SameIffAlike(a, b); }
  }

  method NewAppearances(subject: seq<Appearance>, against: seq<Appearance>) returns (added: seq<Appearance>)
    ensures NewOnes(subject, against, added)
  {
    added := [];
    for k := 0 to |subject|
      invariant NewOnes(subject[..k], against, added)
    {
      var s := subject[k];
      var found := AnySame(against, s);
      var already := Includes(added, s);
      if !found && !already {
        added := added + [s];
      }
      assert subject[..k + 1] == subject[..k] + [s];
    }
    assert subject[..|subject|] == subject;
  }

  method GoneAppearances(subject: seq<Appearance>, against: seq<Appearance>) returns (missing: seq<Appearance>)
    ensures GoneOnes(subject, against, missing)
  {
    missing := [];
    for k := 0 to |against|
      invariant GoneOnes(subject, against[..k], missing)
    {
      var a := against[k];
      var found := AnySame(subject, a);
      var already := AnySame(missing, a);
      OneMoreGone(subject, against[..k], missing, a);
      assert against[..k + 1] == against[..k] + [a];
      if !found && !already {
        missing := missing + [a];
      }
    }
    assert against[..|against|] == against;
  }

  lemma OneMoreGone(subject: seq<Appearance>, against: seq<Appearance>, missing: seq<Appearance>, a: Appearance)
    requires GoneOnes(subject, against, missing)
    ensures GoneOnes(subject, against + [a], if HasSame(subject, a) || HasSame(missing, a) then missing else missing + [a])
  {
    var next := if HasSame(subject, a) || HasSame(missing, a) then missing else missing + [a];
    forall x | x in against + [a] && !HasSame(subject, x) ensures HasSame(next, x) {
      if x == a {
        assert !HasSame(missing, a) ==> a in next && Same(a, a);
      } else {
        var m :| m in missing && Same(x, m);
        assert m in next;
      }
    }
    forall i, j | 0 <= i < j < |next| ensures !Same(next[i], next[j]) {
      if j == |missing| {
        assert next[i] in missing && Same(next[i], a) == Same(a, next[i]);
      }
    }
  }

  /** The source's inner loops do not leave early; they only lower a flag. */
  method AnySame(list: seq<Appearance>, a: Appearance) returns (b: bool)
    ensures b <==> HasSame(list, a)
  {
    b := false;
    for i := 0 to |list|
      invariant b <==> HasSame(list[..i], a)
    {
      assert list[..i + 1] == list[..i] + [list[i]];
      if Same(a, list[i]) {
        assert list[i] in list[..i + 1];
        b := true;
      }
    }
    assert list[..|list|] == list;
  }

  /** scene_performers holds a performer once per scene. */
  predicate OncePerPerformer(rows: seq<Appearance>) {
    forall a, b :: a in rows && b in rows && a.performer == b.performer ==> a == b
  }

  /** A request and a stored row that differ only in a missing against an empty name. */
  predicate Respelled(subject: seq<Appearance>, against: seq<Appearance>) {
    exists s, a :: s in subject && a in against && Same(s, a) && s != a
  }

  /**
   On any current list: what is asked for and has nothing alike in the list the edit was made against comes in, what was there
   and has nothing alike in the request goes, and everything else stays as it is now.
   */
  lemma AppearancesThreeWay(subject: seq<Appearance>, against: seq<Appearance>, added: seq<Appearance>, missing: seq<Appearance>,
                            current: set<Appearance>, v: Appearance)
    requires OncePerPerformer(against) && NewOnes(subject, against, added) && GoneOnes(subject, against, missing)
    ensures v in Merged(current, added, missing) <==>
              (v in subject && !HasSame(against, v)) || (v in current && !(v in against && !HasSame(subject, v)))
  {
    if v in against && !HasSame(subject, v) {
      var m :| m in missing && Same(v, m);
      assert m == v;
    }
  }

  lemma AppearancesMerge(subject: seq<Appearance>, against: seq<Appearance>, added: seq<Appearance>, missing: seq<Appearance>)
    requires OncePerPerformer(against) && NewOnes(subject, against, added) && GoneOnes(subject, against, missing)
    ensures forall v :: v in Merged(ToSet(against), added, missing) <==>
                          (v in against && HasSame(subject, v)) || (v in subject && !HasSame(against, v))
  {
    forall v ensures v in Merged(ToSet(against), added, missing) <==>
                       (v in against && HasSame(subject, v)) || (v in subject && !HasSame(against, v))
    {
      AppearancesThreeWay(subject, against, added, missing, ToSet(against), v);
    }
  }

  /** Every appearance asked for is in the merged view, up to the spelling of no name, and nothing else is. */
  lemma AppearancesRebuilt(subject: seq<Appearance>, against: seq<Appearance>, added: seq<Appearance>, missing: seq<Appearance>)
    requires OncePerPerformer(against) && NewOnes(subject, against, added) && GoneOnes(subject, against, missing)
    ensures forall s :: s in subject ==> exists v :: v in Merged(ToSet(against), added, missing) && Same(s, v)
    ensures forall v :: v in Merged(ToSet(against), added, missing) ==> HasSame(subject, v)
  {
    var merged := Merged(ToSet(against), added, missing);
    AppearancesMerge(subject, against, added, missing);
    forall s | s in subject ensures exists v :: v in merged && Same(s, v) {
      if a :| a in against && Same(s, a) {
        assert Same(a, s) && HasSame(subject, a) && a in merged;
      } else {
        assert !HasSame(against, s);
        assert s in merged && Same(s, s);
      }
    }
    forall v | v in merged ensures HasSame(subject, v) {
      assert v in subject ==> Same(v, v);
    }
  }

  lemma UnrespelledStays(subject: seq<Appearance>, against: seq<Appearance>, v: Appearance)
    requires !Respelled(subject, against)
    ensures v in subject && HasSame(against, v) ==> v in against
    ensures v in against && HasSame(subject, v) ==> v in subject
  {
    if v in subject && HasSame(against, v) {
      var a :| a in against && Same(v, a);
      assert a == v;
    }
    if v in against && HasSame(subject, v) {
      var s :| s in subject && Same(v, s);
      assert Same(s, v) && s == v;
    }
  }

  /** It is exactly the list asked for unless a request spells the missing name of a stored row differently. */
  lemma AppearancesRebuiltIff(subject: seq<Appearance>, against: seq<Appearance>, added: seq<Appearance>, missing: seq<Appearance>)
    requires OncePerPerformer(against) && NewOnes(subject, against, added) && GoneOnes(subject, against, missing)
    ensures Merged(ToSet(against), added, missing) == ToSet(subject) <==> !Respelled(subject, against)
    ensures Respelled(subject, against) <==>
              exists s, a :: s in subject && a in against && s.performer == a.performer
                             && s.credit != a.credit && s.credit in {None, Some("")} && a.credit in {None, Some("")}
  {
    forall s, a ensures Same(s, a) <==> Alike(s, a) { SameIffAlike(s, a); }
    var merged := Merged(ToSet(against), added, missing);
    AppearancesMerge(subject, against, added, missing);
    if Respelled(subject, against) {
      var s, a :| s in subject && a in against && Same(s, a) && s != a;
      assert HasSame(against, s);
      assert s in against ==> s == a;
      assert s !in merged && s in ToSet(subject);
    } else {
      forall v ensures v in merged <==> v in subject {
        UnrespelledStays(subject, against, v);
        assert v in subject ==> Same(v, v);
      }
    }
  }

  /** Asked for with an empty name and stored with none: nothing changes, and the stored spelling stays. */
  lemma RespelledRequest()
    ensures var asked, stored := [Appearance(1, Some(""))], [Appearance(1, None)];
            && OncePerPerformer(stored) && NewOnes(asked, stored, []) && GoneOnes(asked, stored, [])
            && Respelled(asked, stored) && Merged(ToSet(stored), [], []) == ToSet(stored) != ToSet(asked)
  {
    var asked, stored := [Appearance(1, Some(""))], [Appearance(1, None)];
    assert asked[0] in asked && stored[0] in stored && Same(asked[0], stored[0]) && Same(stored[0], asked[0]);
    assert stored[0] in ToSet(stored) && stored[0] !in ToSet(asked);
  }

  // ----- body modifications

  datatype BodyMod = BodyMod(location: string, description: Option<string>)

  /** The last one at a place, which decides a comparison. */
  function LastAt(list: seq<BodyMod>, location: string): (r: Option<BodyMod>)
    ensures r.Some? ==> r.value in list && r.value.location == location
    ensures r.None? ==> forall m :: m in list ==> m.location != location
  {
    if list == [] then None
    else if list[|list| - 1].location == location then Some(list[|list| - 1])
    else
      assert list == list[..|list| - 1] + [list[|list| - 1]];
      LastAt(list[..|list| - 1], location)
  }

  /** The one that no later one shares its place with. */
  lemma {:induction false} LastAtIsLast(list: seq<BodyMod>, i: nat)
    requires i < |list| && forall j :: i < j < |list| ==> list[j].location != list[i].location
    ensures LastAt(list, list[i].location) == Some(list[i])
    decreases |list|
  {
    if i < |list| - 1 {
      LastAtIsLast(list[..|list| - 1], i);
    }
  }

  /** The first one at a place that is not the last of the other list. */
  function FirstChanged(list: seq<BodyMod>, other: seq<BodyMod>, location: string): (r: Option<BodyMod>)
    ensures r.Some? ==> r.value in list && r.value.location == location && LastAt(other, location) != r
    ensures r.None? ==> forall m :: m in list && m.location == location ==> LastAt(other, location) == Some(m)
  {
    if list == [] then None
    else
      assert list == list[..|list| - 1] + [list[|list| - 1]];
      var m := list[|list| - 1];
      var earlier := FirstChanged(list[..|list| - 1], other, location);
      if earlier.None? && m.location == location && LastAt(other, location) != Some(m) then Some(m) else earlier
  }

  /** Every earlier one at the place is the last of the other list. */
  lemma {:induction false} FirstChangedIsFirst(list: seq<BodyMod>, other: seq<BodyMod>, location: string)
    requires FirstChanged(list, other, location).Some?
    ensures exists i :: 0 <= i < |list| && Some(list[i]) == FirstChanged(list, other, location)
                        && forall j :: 0 <= j < i && list[j].location == location ==> LastAt(other, location) == Some(list[j])
    decreases |list|
  {
    var n := |list| - 1;
    var init := list[..n];
    if FirstChanged(init, other, location).Some? {
      FirstChangedIsFirst(init, other, location);
      var i :| 0 <= i < n && Some(init[i]) == FirstChanged(init, other, location)
               && forall j :: 0 <= j < i && init[j].location == location ==> LastAt(other, location) == Some(init[j]);
      assert list[i] == init[i] && forall j :: 0 <= j < i ==> list[j] == init[j];
    } else {
      assert Some(list[n]) == FirstChanged(list, other, location);
      assert forall j :: 0 <= j < n ==> list[j] == init[j] && init[j] in init;
    }
  }

  ghost predicate OnePerPlace(list: seq<BodyMod>, other: seq<BodyMod>, r: seq<BodyMod>) {
    NoDuplicates(r) && forall m :: m in r <==> FirstChanged(list, other, m.location) == Some(m)
  }

  /** The loop over the other list: the last one at the place decides. */
  method DiffersFromLast(other: seq<BodyMod>, s: BodyMod) returns (changed: bool)
    ensures changed <==> LastAt(other, s.location) != Some(s)
  {
    changed := true;
    for i := 0 to |other|
      invariant changed <==> LastAt(other[..i], s.location) != Some(s)
    {
      assert other[..i + 1][..i] == other[..i];
      if s.location == other[i].location {
        changed := s.description != other[i].description;
      }
    }
    assert other[..|other|] == other;
  }

  predicate PlaceTaken(r: seq<BodyMod>, location: string) {
    exists j :: 0 <= j < |r| && r[j].location == location
  }

  /** Either half of bodyModCompare. */
  method ChangedMods(list: seq<BodyMod>, other: seq<BodyMod>) returns (r: seq<BodyMod>)
    ensures OnePerPlace(list, other, r)
  {
    r := [];
    for k := 0 to |list|
      invariant OnePerPlace(list[..k], other, r)
    {
      var s := list[k];
      var changed := DiffersFromLast(other, s);
      for i := 0 to |r|
        invariant changed <==> LastAt(other, s.location) != Some(s) && !PlaceTaken(r[..i], s.location)
      {
        assert r[..i + 1] == r[..i] + [r[i]];
        if s.location == r[i].location {
          assert r[..i + 1][i] == r[i];
          changed := false;
        }
      }
      assert r[..|r|] == r;
      OneMoreMod(list[..k], other, r, s, changed);
      assert list[..k + 1] == list[..k] + [s];
      if changed {
        r := r + [s];
      }
    }
    assert list[..|list|] == list;
  }

  lemma OneMoreMod(list: seq<BodyMod>, other: seq<BodyMod>, r: seq<BodyMod>, s: BodyMod, changed: bool)
    requires OnePerPlace(list, other, r)
    requires changed <==> LastAt(other, s.location) != Some(s) && !PlaceTaken(r, s.location)
    ensures OnePerPlace(list + [s], other, if changed then r + [s] else r)
  {
    var longer := list + [s];
    assert longer[..|list|] == list;
    var f := FirstChanged(list, other, s.location);
    TakenIff(list, other, r, s.location);
    forall m: BodyMod ensures FirstChanged(longer, other, m.location) == Some(m) <==> m in (if changed then r + [s] else r) {
      assert m.location != s.location ==> FirstChanged(longer, other, m.location) == FirstChanged(list, other, m.location);
    }
  }

  lemma TakenIff(list: seq<BodyMod>, other: seq<BodyMod>, r: seq<BodyMod>, location: string)
    requires OnePerPlace(list, other, r)
    ensures PlaceTaken(r, location) <==> FirstChanged(list, other, location).Some?
  {
    var f := FirstChanged(list, other, location);
    if f.Some? {
      assert f.value in r;
    }
    if PlaceTaken(r, location) {
      var j :| 0 <= j < |r| && r[j].location == location;
      assert r[j] in r;
    }
  }

  /** bodyModCompare. */
  method BodyModCompare(subject: seq<BodyMod>, against: seq<BodyMod>) returns (added: seq<BodyMod>, missing: seq<BodyMod>)
    ensures OnePerPlace(subject, against, added) && OnePerPlace(against, subject, missing)
  {
    added := ChangedMods(subject, against);
    missing := ChangedMods(against, subject);
  }

  /** The key of performer_tattoos and performer_piercings. */
  predicate OncePerPlace(list: seq<BodyMod>) {
    forall m, n :: m in list && n in list && m.location == n.location ==> m == n
  }

  /**
   At one place: all those asked for are the same, or the stored one is asked for last and all others are the same.
   */
  predicate SettledAt(subject: seq<BodyMod>, against: seq<BodyMod>, location: string) {
    || (forall m, n :: m in subject && n in subject && m.location == n.location == location ==> m == n)
    || (&& LastAt(against, location).Some? && LastAt(subject, location) == LastAt(against, location)
        && forall m, n :: (m in subject && n in subject && m.location == n.location == location
                           && Some(m) != LastAt(against, location) && Some(n) != LastAt(against, location)) ==> m == n)
  }

  /**
   On any current list: at each place the first modification asked for that was not the stored one comes in, the stored one
   goes unless it was asked for last, and everything else stays as it is now.
   */
  lemma BodyModsThreeWay(subject: seq<BodyMod>, against: seq<BodyMod>, added: seq<BodyMod>, missing: seq<BodyMod>,
                         current: set<BodyMod>, m: BodyMod)
    requires OncePerPlace(against) && OnePerPlace(subject, against, added) && OnePerPlace(against, subject, missing)
    ensures m in Merged(current, added, missing) <==>
              || FirstChanged(subject, against, m.location) == Some(m)
              || (m in current && !(m in against && LastAt(subject, m.location) != Some(m)))
  {
    var f := FirstChanged(against, subject, m.location);
    assert m in against <==> LastAt(against, m.location) == Some(m);
    assert f.Some? && m in against ==> f == Some(m);
  }

  lemma ModMerged(subject: seq<BodyMod>, against: seq<BodyMod>, added: seq<BodyMod>, missing: seq<BodyMod>, m: BodyMod)
    requires OncePerPlace(against) && OnePerPlace(subject, against, added) && OnePerPlace(against, subject, missing)
    ensures m in Merged(ToSet(against), added, missing) <==>
              LastAt(against, m.location) == LastAt(subject, m.location) == Some(m) || FirstChanged(subject, against, m.location) == Some(m)
  {
    BodyModsThreeWay(subject, against, added, missing, ToSet(against), m);
    assert m in against <==> LastAt(against, m.location) == Some(m);
  }

  /** The merged view is the list asked for exactly when every place is settled: with one modification a place, always. */
  lemma BodyModsRebuiltIff(subject: seq<BodyMod>, against: seq<BodyMod>, added: seq<BodyMod>, missing: seq<BodyMod>)
    requires OncePerPlace(against) && OnePerPlace(subject, against, added) && OnePerPlace(against, subject, missing)
    ensures Merged(ToSet(against), added, missing) <= ToSet(subject)
    ensures Merged(ToSet(against), added, missing) == ToSet(subject) <==> forall location :: SettledAt(subject, against, location)
    ensures OncePerPlace(subject) ==> Merged(ToSet(against), added, missing) == ToSet(subject)
  {
    var merged := Merged(ToSet(against), added, missing);
    forall m: BodyMod ensures m in merged ==> m in subject { ModMerged(subject, against, added, missing, m); }
    if merged == ToSet(subject) {
      forall location ensures SettledAt(subject, against, location) {
        forall m | m in subject && m.location == location
          ensures LastAt(against, location) == LastAt(subject, location) == Some(m) || FirstChanged(subject, against, location) == Some(m)
        {
          assert m in merged;
          ModMerged(subject, against, added, missing, m);
        }
      }
    }
    if forall location :: SettledAt(subject, against, location) {
      forall m | m in subject ensures m in merged {
        assert SettledAt(subject, against, m.location);
        ModMerged(subject, against, added, missing, m);
      }
    }
  }

  /** Two tattoos asked for at a new place: the second is lost. */
  lemma SecondAtAPlaceIsLost()
    ensures var arm, other := BodyMod("arm", Some("x")), BodyMod("arm", None);
            !SettledAt([arm, other], [], "arm") && FirstChanged([arm, other], [], "arm") == Some(arm)
  {
    var arm, other := BodyMod("arm", Some("x")), BodyMod("arm", None);
    assert arm in [arm, other] && other in [arm, other] && arm != other;
    assert [arm, other][..1] == [arm] && [arm][..0] == [];
    assert FirstChanged([arm], [], "arm") == Some(arm);
  }
}
