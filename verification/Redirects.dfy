/**
 Merges and the redirects they leave. A merge soft-deletes its source, points every redirect to the source at the target,
 merges the join rows and adds a redirect from the source; lookups follow at most one redirect. The entities are tags or
 performers: the statements are the same, the checks before them are not.
 */
module Redirects {

  import opened Wrappers
  import opened MemberMerge

  datatype Redirect = Redirect(source: Id, target: Id)

  datatype Error = NotFound | Deleted | Constraint

  /** `entities` maps every id to its deleted flag; `joins` are the rows that tie scenes to entities. */
  datatype Store = Store(entities: map<Id, bool>, redirects: set<Redirect>, joins: set<Row<()>>)

  ghost predicate Live(st: Store, id: Id) {
    id in st.entities && !st.entities[id]
  }

  ghost predicate IsSource(st: Store, id: Id) {
    exists r :: r in st.redirects && r.source == id
  }

  // ----- the statements

  ghost function SoftDelete(st: Store, id: Id): Store {
    if id in st.entities then st.(entities := st.entities[id := true]) else st
  }

  ghost function Retarget(rs: set<Redirect>, from: Id, to: Id): set<Redirect> {
    set r | r in rs :: if r.target == from then Redirect(r.source, to) else r
  }

  /** The INSERT fails on the primary key (one redirect a source) and on the foreign keys. */
  ghost function CreateRedirect(st: Store, source: Id, target: Id): Result<Store, Error> {
    if IsSource(st, source) || source !in st.entities || target !in st.entities then Err(Constraint)
    else Ok(st.(redirects := st.redirects + {Redirect(source, target)}))
  }

  /** The two halves of the UNION: the entity itself, and the target of its redirect, each unless deleted. */
  ghost function FindWithRedirect(st: Store, id: Id): set<Id> {
    (if Live(st, id) then {id} else {}) + (set r | r in st.redirects && r.source == id && Live(st, r.target) :: r.target)
  }

  // ----- one merge

  ghost function MergeSteps(st: Store, source: Id, target: Id): Result<Store, Error> {
    CreateRedirect(
      SoftDelete(st, source).(redirects := Retarget(st.redirects, source, target), joins := Merge(st.joins, source, target)),
      source, target)
  }

  /** TagEditProcessor.mergeInto: only the source is looked at. */
  ghost function MergeTag(st: Store, source: Id, target: Id): Result<Store, Error> {
    if source !in st.entities then Err(NotFound)
    else if st.entities[source] then Err(Deleted)
    else MergeSteps(st, source, target)
  }

  /** PerformerEditProcessor.mergeInto and MergeInto: both ends are looked at. */
  ghost function MergePerformer(st: Store, source: Id, target: Id): Result<Store, Error> {
    if source !in st.entities || target !in st.entities then Err(NotFound)
    else if st.entities[source] || st.entities[target] then Err(Deleted)
    else MergeSteps(st, source, target)
  }

  // ----- the forest

  datatype Merged = Merged(source: Id, target: Id)

  /** Where an id ends up if every merge is followed, oldest first. */
  ghost function Root(h: seq<Merged>, id: Id): Id {
    if h == [] then id else Root(h[1..], if h[0].source == id then h[0].target else id)
  }

  ghost predicate WasMerged(h: seq<Merged>, id: Id) {
    exists m :: m in h && m.source == id
  }

  /** No id redirects and is redirected to; each source has one redirect. */
  ghost predicate Compressed(st: Store) {
    && (forall r, q :: r in st.redirects && q in st.redirects ==> r.source != q.target)
    && (forall r, q :: r in st.redirects && q in st.redirects && r.source == q.source ==> r == q)
  }

  /** The redirects are the merge history with every path compressed to its root. */
  ghost predicate Forest(st: Store, h: seq<Merged>) {
    && Compressed(st)
    && (forall r :: r in st.redirects ==> r.source in st.entities && st.entities[r.source] && r.target in st.entities)
    && (forall r :: r in st.redirects ==> r.target == Root(h, r.source))
    && (forall id :: IsSource(st, id) <==> WasMerged(h, id))
  }

  lemma {:induction false} RootAfter(h: seq<Merged>, m: Merged, id: Id)
    ensures Root(h + [m], id) == (if Root(h, id) == m.source then m.target else Root(h, id))
  {
    if h == [] {
      assert (h + [m])[1..] == [];
    } else {
      var next := if h[0].source == id then h[0].target else id;
      RootAfter(h[1..], m, next);
      assert (h + [m])[1..] == h[1..] + [m] && (h + [m])[0] == h[0];
    }
  }

  lemma {:induction false} UnmergedIsRoot(h: seq<Merged>, id: Id)
    requires !WasMerged(h, id)
    ensures Root(h, id) == id
  {
    if h != [] {
      assert h[0] in h;
      assert !WasMerged(h[1..], id);
      UnmergedIsRoot(h[1..], id);
    }
  }

  lemma RetargetRows(rs: set<Redirect>, from: Id, to: Id, r: Redirect)
    ensures r in Retarget(rs, from, to) <==>
            (r in rs && r.target != from) || (r.target == to && Redirect(r.source, from) in rs)
  {
  }

  /** The store a merge of two existing entities leads to, when the source has no redirect yet. */
  lemma MergeStepsResult(st: Store, source: Id, target: Id)
    requires source in st.entities && target in st.entities && !IsSource(st, source)
    ensures MergeSteps(st, source, target) == Ok(Store(
              st.entities[source := true],
              Retarget(st.redirects, source, target) + {Redirect(source, target)},
              Merge(st.joins, source, target)))
  {
    var mid := SoftDelete(st, source).(redirects := Retarget(st.redirects, source, target), joins := Merge(st.joins, source, target));
    if IsSource(mid, source) {
      var r :| r in mid.redirects && r.source == source;
      RetargetRows(st.redirects, source, target, r);
    }
  }

  lemma RetargetKeepsSources(st: Store, from: Id, to: Id, id: Id)
    ensures IsSource(st.(redirects := Retarget(st.redirects, from, to)), id) <==> IsSource(st, id)
  {
    var after := st.(redirects := Retarget(st.redirects, from, to));
    if IsSource(st, id) {
      var r :| r in st.redirects && r.source == id;
      assert (if r.target == from then Redirect(r.source, to) else r) in after.redirects;
    }
  }

  lemma MergeStepsIff(st: Store, source: Id, target: Id)
    requires source in st.entities
    ensures MergeSteps(st, source, target).Ok? <==> target in st.entities && !IsSource(st, source)
    ensures MergeSteps(st, source, target).Err? ==> MergeSteps(st, source, target).error == Constraint
  {
    RetargetKeepsSources(st, source, target, source);
    var mid := SoftDelete(st, source).(redirects := Retarget(st.redirects, source, target), joins := Merge(st.joins, source, target));
    assert IsSource(mid, source) <==> IsSource(st.(redirects := Retarget(st.redirects, source, target)), source);
  }

  /**
   A tag merge is refused for a source that is missing, deleted, or redirected, and for a target that is missing. A deleted
   target is accepted, and so is the source itself.
   */
  lemma TagMergeIff(st: Store, source: Id, target: Id)
    ensures MergeTag(st, source, target).Ok? <==> Live(st, source) && target in st.entities && !IsSource(st, source)
    ensures MergeTag(st, source, target) == Err(NotFound) <==> source !in st.entities
    ensures MergeTag(st, source, target) == Err(Deleted) <==> source in st.entities && st.entities[source]
  {
    if source in st.entities {
      MergeStepsIff(st, source, target);
    }
  }

  /** A performer merge is also refused for a deleted target. */
  lemma PerformerMergeIff(st: Store, source: Id, target: Id)
    ensures MergePerformer(st, source, target).Ok? <==> Live(st, source) && Live(st, target) && !IsSource(st, source)
    ensures MergePerformer(st, source, target) == Err(NotFound) <==> source !in st.entities || target !in st.entities
    ensures MergePerformer(st, source, target) == Err(Deleted) <==>
              source in st.entities && target in st.entities && (st.entities[source] || st.entities[target])
  {
    if source in st.entities {
      MergeStepsIff(st, source, target);
    }
  }

  lemma LiveIsNoSource(st: Store, h: seq<Merged>, id: Id)
    requires Forest(st, h) && Live(st, id)
    ensures !IsSource(st, id) && !WasMerged(h, id) && Root(h, id) == id
  {
    assert !IsSource(st, id);
    UnmergedIsRoot(h, id);
  }

  /** Merging a live entity into a different one that has not been merged away itself keeps the forest. */
  lemma MergeKeepsForest(st: Store, h: seq<Merged>, source: Id, target: Id)
    requires Forest(st, h) && Live(st, source) && target in st.entities && source != target && !IsSource(st, target)
    ensures MergeSteps(st, source, target).Ok?
    ensures Forest(MergeSteps(st, source, target).value, h + [Merged(source, target)])
  {
    LiveIsNoSource(st, h, source);
    MergeStepsResult(st, source, target);
    var st' := MergeSteps(st, source, target).value;
    var m := Merged(source, target);
    forall r | r in st'.redirects
      ensures r.source in st'.entities && st'.entities[r.source] && r.target in st'.entities
      ensures r.target == Root(h + [m], r.source)
      ensures r.target != source && r.source != target
      ensures r == Redirect(source, target) || IsSource(st, r.source)
    {
      RetargetRows(st.redirects, source, target, r);
      RootAfter(h, m, r.source);
    }
    forall r, q | r in st'.redirects && q in st'.redirects
      ensures r.source != q.target
      ensures r.source == q.source ==> r == q
    {
      RetargetRows(st.redirects, source, target, r);
      RetargetRows(st.redirects, source, target, q);
    }
    forall id ensures IsSource(st', id) <==> WasMerged(h + [m], id) { SourcesAfter(st, h, source, target, id); }
  }

  lemma SourcesAfter(st: Store, h: seq<Merged>, source: Id, target: Id, id: Id)
    requires Forest(st, h) && MergeSteps(st, source, target).Ok?
    ensures IsSource(MergeSteps(st, source, target).value, id) <==> WasMerged(h + [Merged(source, target)], id)
  {
    var st' := MergeSteps(st, source, target).value;
    var m := Merged(source, target);
    if WasMerged(h + [m], id) {
      if id == source {
        assert Redirect(source, target) in st'.redirects;
      } else {
        var n :| n in h + [m] && n.source == id;
        assert n in h && IsSource(st, id);
        var r :| r in st.redirects && r.source == id;
        RetargetRows(st.redirects, source, target, if r.target == source then Redirect(id, target) else r);
      }
    }
    if IsSource(st', id) {
      var r :| r in st'.redirects && r.source == id;
      RetargetRows(st.redirects, source, target, r);
      if id == source {
        assert m in h + [m];
      } else {
        assert IsSource(st, id);
        var n :| n in h && n.source == id;
        assert n in h + [m];
      }
    }
  }

  /**
   The tag merge does not look at its target. It keeps the redirects compressed exactly when the target differs from the
   source and has not itself been merged away since the edit was submitted.
   */
  lemma TagMergeCompressedIff(st: Store, h: seq<Merged>, source: Id, target: Id)
    requires Forest(st, h) && Live(st, source) && target in st.entities
    ensures MergeTag(st, source, target).Ok?
    ensures Compressed(MergeTag(st, source, target).value) <==> source != target && !IsSource(st, target)
  {
    LiveIsNoSource(st, h, source);
    MergeStepsResult(st, source, target);
    var st' := MergeTag(st, source, target).value;
    assert Redirect(source, target) in st'.redirects;
    if source != target && !IsSource(st, target) {
      MergeKeepsForest(st, h, source, target);
    } else if source != target {
      var r :| r in st.redirects && r.source == target;
      var moved := if r.target == source then Redirect(target, target) else r;
      RetargetRows(st.redirects, source, target, moved);
      assert moved in st'.redirects;
    }
  }

  /** The performer merge looks at both ends, so it succeeds and keeps the forest for every two different live performers. */
  lemma PerformerMergeKeepsForestIff(st: Store, h: seq<Merged>, source: Id, target: Id)
    requires Forest(st, h)
    ensures MergePerformer(st, source, target).Ok? <==> Live(st, source) && Live(st, target)
    ensures MergePerformer(st, source, target).Ok? ==>
              (Forest(MergePerformer(st, source, target).value, h + [Merged(source, target)]) <==> source != target)
  {
    if Live(st, source) && Live(st, target) {
      LiveIsNoSource(st, h, source);
      LiveIsNoSource(st, h, target);
      MergeStepsResult(st, source, target);
      if source != target {
        MergeKeepsForest(st, h, source, target);
      } else {
        assert Redirect(source, target) in MergePerformer(st, source, target).value.redirects;
      }
    }
  }

  // ----- runs

  /** Edits that were applied: creations, destructions, and merges of one source. */
  datatype Event = Create(id: Id) | Destroy(id: Id) | DoMerge(source: Id, target: Id)

  /**
   A merge is of a live source into a different target that was not itself merged away; it may have been destroyed. Ids are
   created once.
   */
  ghost predicate Enabled(st: Store, e: Event) {
    match e
    case Create(id) => id !in st.entities
    case Destroy(_) => true
    case DoMerge(s, t) => Live(st, s) && t in st.entities && !IsSource(st, t) && s != t && MergeSteps(st, s, t).Ok?
  }

  ghost function Apply(st: Store, e: Event): Store
    requires Enabled(st, e)
  {
    match e
    case Create(id) => st.(entities := st.entities[id := false])
    case Destroy(id) => SoftDelete(st, id).(joins := DeleteMember(st.joins, id))
    case DoMerge(s, t) => MergeSteps(st, s, t).value
  }

  datatype Trace = Trace(store: Store, history: seq<Merged>)

  ghost function Run(st: Store, h: seq<Merged>, es: seq<Event>): Outcome<Trace>
    decreases |es|
  {
    if es == [] then Reached(Trace(st, h))
    else if Enabled(st, es[0]) then
      Run(Apply(st, es[0]), if es[0].DoMerge? then h + [Merged(es[0].source, es[0].target)] else h, es[1..])
    else Stuck
  }

  lemma {:induction false} RunKeepsForest(st: Store, h: seq<Merged>, es: seq<Event>)
    requires Forest(st, h) && Run(st, h, es).Reached?
    ensures Forest(Run(st, h, es).state.store, Run(st, h, es).state.history)
    decreases |es|
  {
    if es != [] {
      var e := es[0];
      if e.DoMerge? {
        MergeKeepsForest(st, h, e.source, e.target);
        RunKeepsForest(Apply(st, e), h + [Merged(e.source, e.target)], es[1..]);
      } else {
        assert forall id :: IsSource(Apply(st, e), id) <==> IsSource(st, id);
        RunKeepsForest(Apply(st, e), h, es[1..]);
      }
    }
  }

  /**
   A lookup with one redirect finds exactly the root of the whole merge history: that one entity if it is live, and
   nothing if it was destroyed.
   */
  lemma LookupFindsRoot(st: Store, h: seq<Merged>, id: Id)
    requires Forest(st, h)
    ensures FindWithRedirect(st, id) == if Live(st, Root(h, id)) then {Root(h, id)} else {}
  {
    var found := FindWithRedirect(st, id);
    if IsSource(st, id) {
      var r :| r in st.redirects && r.source == id;
      assert found == if Live(st, r.target) then {r.target} else {};
    } else {
      UnmergedIsRoot(h, id);
    }
  }

  /**
   After any sequence of creations, destructions and merges from a store without redirects: no id is both a source and a
   target, each source has one redirect, which leads to the root of its merge history, and every lookup finds that root.
   */
  lemma RedirectsStayCompressed(start: Store, es: seq<Event>, id: Id)
    requires start.redirects == {} && Run(start, [], es).Reached?
    ensures var st := Run(start, [], es).state.store; var h := Run(start, [], es).state.history;
            && Compressed(st)
            && (IsSource(st, id) <==> WasMerged(h, id))
            && (WasMerged(h, id) ==> Redirect(id, Root(h, id)) in st.redirects)
            && FindWithRedirect(st, id) == (if Live(st, Root(h, id)) then {Root(h, id)} else {})
  {
    RunKeepsForest(start, [], es);
    ForestLookup(Run(start, [], es).state.store, Run(start, [], es).state.history, id);
  }

  /**
   What the tag code accepts and a run above does not: with tag 2 merged into 3, merging 1 into 2 leaves a redirect to an id
   that is itself redirected, and looking 1 up finds nothing although 3 is live.
   */
  lemma MergeIntoMergedTag()
    ensures var r := Run(Store(map[], {}, {}), [], [Create(1), Create(2), Create(3), DoMerge(2, 3)]);
            && r.Reached? && MergeTag(r.state.store, 1, 2).Ok?
            && var after := MergeTag(r.state.store, 1, 2).value;
               !Compressed(after) && Live(after, 3) && FindWithRedirect(after, 1) == {}
  {
    var es := [Create(1), Create(2), Create(3), DoMerge(2, 3)];
    var st0 := Store(map[], {}, {});
    var st1 := Apply(st0, Create(1));
    var st2 := Apply(st1, Create(2));
    var st3 := Apply(st2, Create(3));
    MergeStepsResult(st3, 2, 3);
    var st4 := Apply(st3, DoMerge(2, 3));
    assert es[1..] == [Create(2), Create(3), DoMerge(2, 3)] && es[1..][1..] == [Create(3), DoMerge(2, 3)];
    assert es[1..][1..][1..] == [DoMerge(2, 3)] && [DoMerge(2, 3)][1..] == [];
    assert st4.redirects == {Redirect(2, 3)} && Live(st4, 1) && Live(st4, 3) && IsSource(st4, 2);
    assert Run(st3, [], [DoMerge(2, 3)]) == Run(st4, [] + [Merged(2, 3)], []);
    assert Run(st0, [], es) == Run(st3, [], [DoMerge(2, 3)]);
    MergeStepsResult(st4, 1, 2);
    var after := MergeTag(st4, 1, 2).value;
    assert after.redirects == {Redirect(2, 3), Redirect(1, 2)};
  }

  lemma ForestLookup(st: Store, h: seq<Merged>, id: Id)
    requires Forest(st, h)
    ensures IsSource(st, id) <==> WasMerged(h, id)
    ensures WasMerged(h, id) ==> Redirect(id, Root(h, id)) in st.redirects
    ensures FindWithRedirect(st, id) == if Live(st, Root(h, id)) then {Root(h, id)} else {}
  {
    LookupFindsRoot(st, h, id);
    if WasMerged(h, id) {
      assert IsSource(st, id);
      var r :| r in st.redirects && r.source == id;
      assert r == Redirect(id, Root(h, id));
    }
  }

  // ----- the tables

  class EntityTables {
    var entities: map<Id, bool>
    var redirects: set<Redirect>
    const joins: JoinTable<()>

    ghost function State(): Store
      reads this, joins
    {
      Store(entities, redirects, joins.rows)
    }

    constructor ()
      ensures fresh(joins) && State() == Store(map[], {}, {})
    {
      entities, redirects := map[], {};
      joins := new JoinTable<()>();
    }

    method UpdateRedirects(from: Id, to: Id)
      modifies this`redirects
      ensures redirects == Retarget(old(redirects), from, to)
    {
      redirects := set r | r in redirects :: if r.target == from then Redirect(r.source, to) else r;
    }

    /**
     mergeInto of the tag edit. An error leaves the tables as they were: it is found before the first write, or the
     transaction is rolled back.
     */
    method MergeTagInto(source: Id, target: Id) returns (error: Option<Error>)
      modifies this, joins
      ensures match error
              case None => MergeTag(old(State()), source, target) == Ok(State())
              case Some(e) => MergeTag(old(State()), source, target) == Err(e) && State() == old(State())
    {
      if source !in entities {
        return Some(NotFound);
      }
      if entities[source] {
        return Some(Deleted);
      }
      error := MergeStatements(source, target);
    }

    method MergePerformerInto(source: Id, target: Id) returns (error: Option<Error>)
      modifies this, joins
      ensures match error
              case None => MergePerformer(old(State()), source, target) == Ok(State())
              case Some(e) => MergePerformer(old(State()), source, target) == Err(e) && State() == old(State())
    {
      if source !in entities || target !in entities {
        return Some(NotFound);
      }
      if entities[source] || entities[target] {
        return Some(Deleted);
      }
      error := MergeStatements(source, target);
    }

    method MergeStatements(source: Id, target: Id) returns (error: Option<Error>)
      modifies this, joins
      ensures match error
              case None => MergeSteps(old(State()), source, target) == Ok(State())
              case Some(e) => MergeSteps(old(State()), source, target) == Err(e) && State() == old(State())
    {
      var entitiesBefore, redirectsBefore, rowsBefore := entities, redirects, joins.rows;
      if source in entities {
        entities := entities[source := true];
      }
      UpdateRedirects(source, target);
      joins.ReassignRows(source, target);
      joins.DeleteRows(source);
      ghost var mid := State();
      if (exists r :: r in redirects && r.source == source) || source !in entities || target !in entities {
        assert IsSource(mid, source) <==> exists r :: r in redirects && r.source == source;
        entities, redirects, joins.rows := entitiesBefore, redirectsBefore, rowsBefore;
        return Some(Constraint);
      }
      assert IsSource(mid, source) <==> exists r :: r in redirects && r.source == source;
      redirects := redirects + {Redirect(source, target)};
      return None;
    }
  }
}
