/**
 Merging one member of a join table into another: scene_performers, performer_favorites and scene_tags all use the same
 UPDATE ... NOT IN (...) followed by a DELETE. A row joins an owner (a scene, a user) to a member (a performer, a tag) and
 carries the other columns of the table.
 */
module MemberMerge {

  import opened Wrappers

  type Id = int

  datatype Row<+A> = Row(owner: Id, member: Id, rest: A)

  /** The table's unique constraint. */
  ghost predicate UniqueKeys<A>(rows: set<Row<A>>) {
    forall r, q :: r in rows && q in rows && r.owner == q.owner && r.member == q.member ==> r == q
  }

  ghost function Owners<A>(rows: set<Row<A>>, member: Id): set<Id> {
    set r | r in rows && r.member == member :: r.owner
  }

  // ----- the statements

  ghost predicate Has<A>(rows: set<Row<A>>, owner: Id, member: Id) {
    exists r :: r in rows && r.owner == owner && r.member == member
  }

  ghost function Moved<A>(rows: set<Row<A>>, r: Row<A>, from: Id, to: Id): Row<A> {
    if r.member == from && !Has(rows, r.owner, to) then r.(member := to) else r
  }

  /** UPDATE: the old member's rows become the new member's, except where the owner has the new member already. */
  ghost function Reassign<A>(rows: set<Row<A>>, from: Id, to: Id): set<Row<A>> {
    set r | r in rows :: Moved(rows, r, from, to)
  }

  ghost function DeleteMember<A>(rows: set<Row<A>>, member: Id): set<Row<A>> {
    set r | r in rows && r.member != member
  }

  ghost function Merge<A>(rows: set<Row<A>>, from: Id, to: Id): set<Row<A>> {
    DeleteMember(Reassign(rows, from, to), from)
  }

  ghost function MergeAll<A>(rows: set<Row<A>>, sources: seq<Id>, target: Id): set<Row<A>>
    decreases |sources|
  {
    if sources == [] then rows else MergeAll(Merge(rows, sources[0], target), sources[1..], target)
  }

  // ----- one merge

  /** Exactly the rows after a merge into another member: the rest untouched, the target's own, and what only the source had. */
  lemma MergeRows<A>(rows: set<Row<A>>, from: Id, to: Id, r: Row<A>)
    requires from != to
    ensures r in Merge(rows, from, to) <==>
            || (r in rows && r.member != from)
            || (r.member == to && r.(member := from) in rows && !Has(rows, r.owner, to))
  {
    var moved := Reassign(rows, from, to);
    if r.member == to && r.(member := from) in rows && !Has(rows, r.owner, to) {
      assert Moved(rows, r.(member := from), from, to) == r;
    }
    if r in rows && r.member != from {
      assert Moved(rows, r, from, to) == r;
    }
  }

  lemma MergeKeepsUnique<A>(rows: set<Row<A>>, from: Id, to: Id)
    requires UniqueKeys(rows) && from != to
    ensures UniqueKeys(Merge(rows, from, to))
  {
    var after := Merge(rows, from, to);
    forall r, q | r in after && q in after && r.owner == q.owner && r.member == q.member
      ensures r == q
    {
      MergeRows(rows, from, to, r);
      MergeRows(rows, from, to, q);
      if r.(member := from) in rows && q.(member := from) in rows && r !in rows && q !in rows {
        assert r.(member := from) == q.(member := from);
      }
    }
  }

  lemma MergeUnitesOwners<A>(rows: set<Row<A>>, from: Id, to: Id)
    requires from != to
    ensures Owners(Merge(rows, from, to), to) == Owners(rows, to) + Owners(rows, from)
    ensures Owners(Merge(rows, from, to), from) == {}
    ensures forall m :: m != to && m != from ==> Owners(Merge(rows, from, to), m) == Owners(rows, m)
  {
    var after := Merge(rows, from, to);
    forall o ensures o in Owners(after, to) <==> o in Owners(rows, to) + Owners(rows, from) {
      if o in Owners(after, to) {
        var r :| r in after && r.member == to && r.owner == o;
        MergeRows(rows, from, to, r);
        assert r.(member := from) in rows ==> o in Owners(rows, from);
      }
      if o in Owners(rows, to) {
        var r :| r in rows && r.member == to && r.owner == o;
        MergeRows(rows, from, to, r);
      } else if o in Owners(rows, from) {
        var r :| r in rows && r.member == from && r.owner == o;
        assert !Has(rows, o, to);
        MergeRows(rows, from, to, r.(member := to));
        assert r.(member := to) in after;
      }
    }
    forall m | m != to && m != from ensures Owners(after, m) == Owners(rows, m) {
      forall r: Row<A> | r.member == m ensures r in after <==> r in rows { MergeRows(rows, from, to, r); }
    }
    forall r | r in after ensures r.member != from { MergeRows(rows, from, to, r); }
  }

  /**
   Nothing checks that the two members differ. The merge unites their owners exactly when they do, or when there is nothing
   to lose: merging a member into itself deletes all its rows.
   */
  lemma MergeUnitesIff<A>(rows: set<Row<A>>, from: Id, to: Id)
    ensures Owners(Merge(rows, from, to), to) == Owners(rows, to) + Owners(rows, from) <==> from != to || Owners(rows, to) == {}
  {
    if from != to {
      MergeUnitesOwners(rows, from, to);
    } else {
      assert Owners(Merge(rows, from, to), to) == {};
    }
  }

  // ----- a list of merges

  ghost function OwnersOfAny<A>(rows: set<Row<A>>, members: seq<Id>): set<Id> {
    set r | r in rows && r.member in members :: r.owner
  }

  /** The source whose row survives for an owner the target did not have: the first in the list that has the owner. */
  ghost function Donor<A>(rows: set<Row<A>>, sources: seq<Id>, owner: Id): Option<Id> {
    if sources == [] then None
    else if Has(rows, owner, sources[0]) then Some(sources[0])
    else Donor(rows, sources[1..], owner)
  }

  /** Where a row of the target comes from: its own, or the owner's donor's with the member replaced. */
  ghost predicate Survives<A>(rows: set<Row<A>>, sources: seq<Id>, target: Id, r: Row<A>) {
    || r in rows
    || (!Has(rows, r.owner, target) && Donor(rows, sources, r.owner).Some?
        && r.(member := Donor(rows, sources, r.owner).value) in rows)
  }

  lemma {:induction false} DonorUnmoved<A>(rows: set<Row<A>>, from: Id, to: Id, sources: seq<Id>, owner: Id)
    requires from != to && to !in sources && (from in sources ==> !Has(rows, owner, from))
    ensures Donor(Merge(rows, from, to), sources, owner) == Donor(rows, sources, owner)
  {
    if sources != [] {
      HasAfterMerge(rows, from, to, owner, sources[0]);
      DonorUnmoved(rows, from, to, sources[1..], owner);
    }
  }

  lemma HasAfterMerge<A>(rows: set<Row<A>>, from: Id, to: Id, owner: Id, member: Id)
    requires from != to
    ensures Has(Merge(rows, from, to), owner, member) <==>
            (if member == to then Has(rows, owner, to) || Has(rows, owner, from)
             else member != from && Has(rows, owner, member))
  {
    MergeUnitesOwners(rows, from, to);
    HasIsOwner(rows, owner, member);
    HasIsOwner(rows, owner, from);
    HasIsOwner(Merge(rows, from, to), owner, member);
  }

  lemma HasIsOwner<A>(rows: set<Row<A>>, owner: Id, member: Id)
    ensures Has(rows, owner, member) <==> owner in Owners(rows, member)
  {
  }

  /**
   Merging a list of sources keeps the key unique, leaves no row of a source and every row of the other members, and gives
   the target exactly its own rows plus, for each owner it lacked, the row of the first source in the list with that owner.
   */
  lemma {:induction false} MergeAllRows<A>(rows: set<Row<A>>, sources: seq<Id>, target: Id, r: Row<A>)
    requires UniqueKeys(rows) && target !in sources
    ensures UniqueKeys(MergeAll(rows, sources, target))
    ensures r.member in sources ==> r !in MergeAll(rows, sources, target)
    ensures r.member !in sources && r.member != target ==> (r in MergeAll(rows, sources, target) <==> r in rows)
    ensures r.member == target ==> (r in MergeAll(rows, sources, target) <==> Survives(rows, sources, target, r))
    decreases |sources|
  {
    if sources != [] {
      var from := sources[0];
      var mid := Merge(rows, from, target);
      var rest := sources[1..];
      MergeKeepsUnique(rows, from, target);
      MergeAllRows(mid, rest, target, r);
      MergeRows(rows, from, target, r);
      if r.member == from && from !in rest {
        assert r !in mid;
      }
      if r.member == target {
        SurvivesStep(rows, sources, target, r);
      }
    }
  }

  lemma SurvivesStep<A>(rows: set<Row<A>>, sources: seq<Id>, target: Id, r: Row<A>)
    requires sources != [] && target !in sources && r.member == target && UniqueKeys(rows)
    ensures Survives(Merge(rows, sources[0], target), sources[1..], target, r) <==> Survives(rows, sources, target, r)
  {
    var from := sources[0];
    var rest := sources[1..];
    var mid := Merge(rows, from, target);
    MergeRows(rows, from, target, r);
    HasAfterMerge(rows, from, target, r.owner, target);
    if !Has(rows, r.owner, from) {
      DonorUnmoved(rows, from, target, rest, r.owner);
      var d := Donor(rows, rest, r.owner);
      if d.Some? {
        DonorIsSource(rows, rest, r.owner);
        MergeRows(rows, from, target, r.(member := d.value));
      }
    }
  }

  lemma {:induction false} DonorIsSource<A>(rows: set<Row<A>>, sources: seq<Id>, owner: Id)
    ensures match Donor(rows, sources, owner)
            case Some(d) => d in sources && Has(rows, owner, d)
            case None => forall d :: d in sources ==> !Has(rows, owner, d)
  {
    if sources != [] {
      DonorIsSource(rows, sources[1..], owner);
    }
  }

  /** Of an owner the target did not have, the row of the earliest source with that owner is the one that is kept. */
  lemma FirstSourceWins<A>(rows: set<Row<A>>, sources: seq<Id>, target: Id, n: nat, r: Row<A>)
    requires UniqueKeys(rows) && target !in sources && n < |sources| && r in rows && r.member == sources[n]
    requires forall q :: q in rows && q.owner == r.owner ==> q.member != target && q.member !in sources[..n]
    ensures forall q: Row<A> :: q.owner == r.owner && q.member == target ==>
              (q in MergeAll(rows, sources, target) <==> q == r.(member := target))
  {
    assert Has(rows, r.owner, sources[n]);
    DonorIsFirst(rows, sources, r.owner, n);
    forall q: Row<A> | q.owner == r.owner && q.member == target
      ensures q in MergeAll(rows, sources, target) <==> q == r.(member := target)
    {
      MergeAllRows(rows, sources, target, q);
      assert q !in rows && !Has(rows, q.owner, target);
      if q.(member := sources[n]) in rows {
        assert q.(member := sources[n]) == r;
      }
    }
  }

  lemma {:induction false} DonorIsFirst<A>(rows: set<Row<A>>, sources: seq<Id>, owner: Id, n: nat)
    requires n < |sources| && Has(rows, owner, sources[n])
    requires forall q :: q in rows && q.owner == owner ==> q.member !in sources[..n]
    ensures Donor(rows, sources, owner) == Some(sources[n])
    decreases |sources|
  {
    if n > 0 {
      assert sources[0] in sources[..n];
      assert !Has(rows, owner, sources[0]);
      forall q | q in rows && q.owner == owner ensures q.member !in sources[1..][..n - 1] {
        assert sources[1..][..n - 1] == sources[..n][1..];
      }
      DonorIsFirst(rows, sources[1..], owner, n - 1);
    }
  }

  /** And a row the target had stays, while nothing is added for its owner. */
  lemma TargetKeepsItsRow<A>(rows: set<Row<A>>, sources: seq<Id>, target: Id, r: Row<A>)
    requires UniqueKeys(rows) && target !in sources && r in rows && r.member == target
    ensures forall q: Row<A> :: q.owner == r.owner && q.member == target ==> (q in MergeAll(rows, sources, target) <==> q == r)
  {
    forall q: Row<A> | q.owner == r.owner && q.member == target ensures q in MergeAll(rows, sources, target) <==> q == r {
      MergeAllRows(rows, sources, target, q);
      assert Has(rows, r.owner, target);
    }
  }

  /** The target ends up with exactly the owners of itself and of all the sources. */
  lemma {:induction false} MergeAllUnitesOwners<A>(rows: set<Row<A>>, sources: seq<Id>, target: Id)
    requires target !in sources
    ensures Owners(MergeAll(rows, sources, target), target) == Owners(rows, target) + OwnersOfAny(rows, sources)
    decreases |sources|
  {
    if sources != [] {
      var from := sources[0];
      var mid := Merge(rows, from, target);
      var rest := sources[1..];
      MergeAllUnitesOwners(mid, rest, target);
      MergeUnitesOwners(rows, from, target);
      forall o ensures o in Owners(mid, target) + OwnersOfAny(mid, rest) <==> o in Owners(rows, target) + OwnersOfAny(rows, sources) {
        OwnersOfAnyStep(rows, sources, target, o);
      }
    }
  }

  lemma OwnersOfAnyStep<A>(rows: set<Row<A>>, sources: seq<Id>, target: Id, o: Id)
    requires sources != [] && target !in sources
    ensures var mid := Merge(rows, sources[0], target);
            o in Owners(mid, target) + OwnersOfAny(mid, sources[1..]) <==> o in Owners(rows, target) + OwnersOfAny(rows, sources)
  {
    var from := sources[0];
    var mid := Merge(rows, from, target);
    MergeUnitesOwners(rows, from, target);
    if o in OwnersOfAny(mid, sources[1..]) {
      var r :| r in mid && r.member in sources[1..] && r.owner == o;
      MergeRows(rows, from, target, r);
    }
    if o in OwnersOfAny(rows, sources) {
      var r :| r in rows && r.member in sources && r.owner == o;
      if r.member == from {
        assert o in Owners(rows, from);
      } else {
        MergeRows(rows, from, target, r);
        assert r in mid && r.member in sources[1..];
      }
    }
  }

  /** The order of the sources, and repetitions among them, do not matter for who the target's owners are. */
  lemma OrderOfSourcesIrrelevant<A>(rows: set<Row<A>>, sources: seq<Id>, others: seq<Id>, target: Id)
    requires target !in sources && forall s :: s in sources <==> s in others
    ensures Owners(MergeAll(rows, sources, target), target) == Owners(MergeAll(rows, others, target), target)
  {
    MergeAllUnitesOwners(rows, sources, target);
    MergeAllUnitesOwners(rows, others, target);
    assert OwnersOfAny(rows, sources) == OwnersOfAny(rows, others);
  }

  // ----- the table

  class JoinTable<A(==)> {
    var rows: set<Row<A>>

    constructor ()
      ensures rows == {}
    {
      rows := {};
    }

    /** ReassignPerformerAliases, ReassignPerformerFavorites, UpdateSceneTagsForMerge. */
    method ReassignRows(from: Id, to: Id)
      modifies this
      ensures rows == Reassign(old(rows), from, to)
    {
      var had := set r | r in rows && r.member == to :: r.owner;
      ghost var was := rows;
      var moved := set r | r in rows && r.member == from && r.owner !in had :: r.(member := to);
      var kept := set r | r in rows && !(r.member == from && r.owner !in had);
      rows := moved + kept;
      forall r | r in was ensures r.owner in had <==> Has(was, r.owner, to) { HasIsOwner(was, r.owner, to); }
      forall q ensures q in rows <==> q in Reassign(was, from, to) {
        if q in Reassign(was, from, to) {
          var r :| r in was && Moved(was, r, from, to) == q;
        }
        if q in moved {
          var r :| r in was && r.member == from && r.owner !in had && r.(member := to) == q;
          assert Moved(was, r, from, to) == q;
        } else if q in kept {
          assert Moved(was, q, from, to) == q;
        }
      }
    }

    /** DeletePerformerScenes, DeletePerformerFavorites, DeleteSceneTagsByTag. */
    method DeleteRows(member: Id)
      modifies this
      ensures rows == DeleteMember(old(rows), member)
    {
      rows := set r | r in rows && r.member != member;
    }

    method MergeSources(sources: seq<Id>, target: Id)
      modifies this
      ensures rows == MergeAll(old(rows), sources, target)
    {
      for n := 0 to |sources|
        invariant MergeAll(rows, sources[n..], target) == MergeAll(old(rows), sources, target)
      {
        ReassignRows(sources[n], target);
        DeleteRows(sources[n]);
        assert sources[n..][1..] == sources[n + 1..];
      }
    }
  }
}
