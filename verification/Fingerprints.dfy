/**
 The scene_fingerprints table: moving a fingerprint's submissions between scenes, keeping a deleted user's unique
 submissions, and the two ways its rows are counted.
 */
module Fingerprints {

  type Id = int

  datatype Fingerprint = Fingerprint(hash: int, algorithm: string)

  datatype Row = Row(fp: Id, scene: Id, user: Id, duration: int, vote: int)

  /** The unique constraint on (scene_id, fingerprint_id, user_id). */
  ghost predicate UniqueKeys(rows: set<Row>) {
    forall r, q :: r in rows && q in rows && r.fp == q.fp && r.scene == q.scene && r.user == q.user ==> r == q
  }

  /** The check constraint on vote. */
  ghost predicate VotesOk(rows: set<Row>) {
    forall r :: r in rows ==> r.vote == 1 || r.vote == -1
  }

  /** The fingerprints table and its unique (hash, algorithm). */
  ghost predicate UniqueFingerprints(fps: map<Id, Fingerprint>) {
    forall i, j :: i in fps && j in fps && fps[i] == fps[j] ==> i == j
  }

  ghost predicate Is(fps: map<Id, Fingerprint>, fp: Id, f: Fingerprint) {
    fp in fps && fps[fp] == f
  }

  ghost predicate On(fps: map<Id, Fingerprint>, f: Fingerprint, scene: Id, r: Row) {
    Is(fps, r.fp, f) && r.scene == scene
  }

  // ----- moving a fingerprint from one scene to another

  ghost predicate HasTwin(rows: set<Row>, r: Row, scene: Id) {
    exists q :: q in rows && q.scene == scene && q.fp == r.fp && q.user == r.user
  }

  ghost function Pruned(rows: set<Row>, fps: map<Id, Fingerprint>, f: Fingerprint, source: Id, target: Id): set<Row> {
    set r | r in rows && On(fps, f, source, r) && (r.vote == -1 || HasTwin(rows, r, target))
  }

  ghost function Moving(rows: set<Row>, fps: map<Id, Fingerprint>, f: Fingerprint, source: Id): set<Row> {
    set r | r in rows && On(fps, f, source, r)
  }

  ghost function Move(rows: set<Row>, fps: map<Id, Fingerprint>, f: Fingerprint, source: Id, target: Id): set<Row> {
    set r | r in rows :: if On(fps, f, source, r) then r.(scene := target) else r
  }

  ghost function PruneAndMove(rows: set<Row>, fps: map<Id, Fingerprint>, f: Fingerprint, source: Id, target: Id): set<Row> {
    Move(rows - Pruned(rows, fps, f, source, target), fps, f, source, target)
  }

  /** Exactly the rows after the two statements: what was not on the source, and what the target could take over. */
  lemma MoveRows(rows: set<Row>, fps: map<Id, Fingerprint>, f: Fingerprint, source: Id, target: Id, r: Row)
    requires source != target
    ensures r in PruneAndMove(rows, fps, f, source, target) <==>
            || (r in rows && !On(fps, f, source, r))
            || (r.scene == target && Is(fps, r.fp, f) && r.(scene := source) in rows && r.vote != -1 && !HasTwin(rows, r, target))
  {
    var left := rows - Pruned(rows, fps, f, source, target);
    var after := PruneAndMove(rows, fps, f, source, target);
    if r.scene == target && Is(fps, r.fp, f) && r.(scene := source) in rows && r.vote != -1 && !HasTwin(rows, r, target) {
      var q := r.(scene := source);
      assert !HasTwin(rows, q, target);
      assert q in left && q.(scene := target) == r;
    }
    if r in rows && !On(fps, f, source, r) {
      assert r in left;
    }
    if r in after {
      var q :| q in left && (if On(fps, f, source, q) then q.(scene := target) else q) == r;
      if On(fps, f, source, q) {
        assert q == r.(scene := source);
        assert HasTwin(rows, q, target) <==> HasTwin(rows, r, target);
      }
    }
  }

  lemma MoveKeepsUnique(rows: set<Row>, fps: map<Id, Fingerprint>, f: Fingerprint, source: Id, target: Id)
    requires UniqueKeys(rows) && source != target
    ensures UniqueKeys(PruneAndMove(rows, fps, f, source, target))
  {
    var after := PruneAndMove(rows, fps, f, source, target);
    forall r, q | r in after && q in after && r.fp == q.fp && r.scene == q.scene && r.user == q.user
      ensures r == q
    {
      MoveRows(rows, fps, f, source, target, r);
      MoveRows(rows, fps, f, source, target, q);
      if r !in rows && q !in rows { assert r.(scene := source) == q.(scene := source); }
    }
  }

  /** The users a move reports: those whose row moved, and those whose pruned row was no report. */
  ghost function Reported(rows: set<Row>, fps: map<Id, Fingerprint>, f: Fingerprint, source: Id, target: Id): set<Id> {
    var pruned := Pruned(rows, fps, f, source, target);
    (set r | r in Moving(rows - pruned, fps, f, source) :: r.user) + (set r | r in pruned && r.vote == 1 :: r.user)
  }

  ghost function Submitters(rows: set<Row>, fps: map<Id, Fingerprint>, f: Fingerprint, scene: Id): set<Id> {
    set r | r in rows && On(fps, f, scene, r) && r.vote == 1 :: r.user
  }

  ghost function Reporters(rows: set<Row>, fps: map<Id, Fingerprint>, f: Fingerprint, scene: Id): set<Id> {
    set r | r in rows && On(fps, f, scene, r) && r.vote == -1 :: r.user
  }

  /** The users reported are exactly those who had submitted the fingerprint on the source, whatever else happens to their rows. */
  lemma ReportedAreSubmitters(rows: set<Row>, fps: map<Id, Fingerprint>, f: Fingerprint, source: Id, target: Id)
    requires VotesOk(rows)
    ensures Reported(rows, fps, f, source, target) == Submitters(rows, fps, f, source)
  {
    var pruned := Pruned(rows, fps, f, source, target);
    forall u ensures u in Reported(rows, fps, f, source, target) <==> u in Submitters(rows, fps, f, source) {
      if u in Submitters(rows, fps, f, source) {
        var r :| r in rows && On(fps, f, source, r) && r.vote == 1 && r.user == u;
        assert r in pruned || r in Moving(rows - pruned, fps, f, source);
      }
    }
  }

  lemma FewerRowsFewerTwins(few: set<Row>, many: set<Row>, r: Row, scene: Id)
    requires few <= many && !HasTwin(many, r, scene)
    ensures !HasTwin(few, r, scene)
  {
  }

  ghost function Image(fps: map<Id, Fingerprint>, f: Fingerprint, source: Id, target: Id, r: Row): Row {
    if On(fps, f, source, r) then r.(scene := target) else r
  }

  lemma ImagesDiffer(left: set<Row>, fps: map<Id, Fingerprint>, f: Fingerprint, source: Id, target: Id, q: Row, r: Row)
    requires forall r :: r in left && On(fps, f, source, r) ==> !HasTwin(left, r, target)
    requires q in left && r in left && q != r
    ensures Image(fps, f, source, target, q) != Image(fps, f, source, target, r)
  {
    if On(fps, f, source, r) && On(fps, f, source, q) {
      assert r == r.(scene := target).(scene := source) && q == q.(scene := target).(scene := source);
    }
    assert On(fps, f, source, r) ==> !HasTwin(left, r, target);
    assert On(fps, f, source, q) ==> !HasTwin(left, q, target);
  }

  lemma MoveSplits(left: set<Row>, fps: map<Id, Fingerprint>, f: Fingerprint, source: Id, target: Id, r: Row)
    requires r in left
    ensures Move(left, fps, f, source, target) == Move(left - {r}, fps, f, source, target) + {Image(fps, f, source, target, r)}
  {
  }

  lemma {:induction false} MovedCount(left: set<Row>, fps: map<Id, Fingerprint>, f: Fingerprint, source: Id, target: Id)
    requires source != target && forall r :: r in left && On(fps, f, source, r) ==> !HasTwin(left, r, target)
    ensures |Move(left, fps, f, source, target)| == |left|
  {
    if left == {} {
      assert Move(left, fps, f, source, target) == {};
    } else {
      var r :| r in left;
      var rest := left - {r};
      var image := Image(fps, f, source, target, r);
      forall q | q in rest && On(fps, f, source, q) ensures !HasTwin(rest, q, target) {
        FewerRowsFewerTwins(rest, left, q, target);
      }
      MovedCount(rest, fps, f, source, target);
      MoveSplits(left, fps, f, source, target, r);
      forall q | q in rest ensures Image(fps, f, source, target, q) != image {
        ImagesDiffer(left, fps, f, source, target, q, r);
      }
      assert image !in Move(rest, fps, f, source, target);
    }
  }

  /**
   Moving a fingerprint to a different scene keeps the keys unique, leaves nothing of it on the source, keeps every row that
   was elsewhere, gives the target one row for each submitter who had none there, and shortens the table by the pruned rows
   alone.
   */
  lemma MoveConserves(rows: set<Row>, fps: map<Id, Fingerprint>, f: Fingerprint, source: Id, target: Id)
    requires UniqueKeys(rows) && VotesOk(rows) && source != target
    ensures var after := PruneAndMove(rows, fps, f, source, target);
            && UniqueKeys(after) && VotesOk(after)
            && (forall r :: r in after ==> !On(fps, f, source, r))
            && (forall r :: r in rows && !On(fps, f, source, r) ==> r in after)
            && (forall r :: r in after && r !in rows ==>
                  On(fps, f, target, r) && r.vote == 1 && r.(scene := source) in rows && !HasTwin(rows, r, target))
            && (forall r :: r in rows && On(fps, f, source, r) && r.vote == 1 && !HasTwin(rows, r, target) ==>
                  r.(scene := target) in after)
            && |after| == |rows| - |Pruned(rows, fps, f, source, target)|
  {
    var after := PruneAndMove(rows, fps, f, source, target);
    var pruned := Pruned(rows, fps, f, source, target);
    MoveKeepsUnique(rows, fps, f, source, target);
    forall r
      ensures r in after ==> !On(fps, f, source, r)
      ensures r in after ==>
                r in rows || (On(fps, f, target, r) && r.vote == 1 && r.(scene := source) in rows && !HasTwin(rows, r, target))
      ensures r in rows && !On(fps, f, source, r) ==> r in after
    {
      MoveRows(rows, fps, f, source, target, r);
    }
    forall r | r in rows && On(fps, f, source, r) && r.vote == 1 && !HasTwin(rows, r, target) ensures r.(scene := target) in after {
      LoneSubmissionMoves(rows, fps, f, source, target, r);
    }
    assert |rows - pruned| == |rows| - |pruned|;
    forall r | r in rows - pruned && On(fps, f, source, r) ensures !HasTwin(rows - pruned, r, target) {
      FewerRowsFewerTwins(rows - pruned, rows, r, target);
    }
    MovedCount(rows - pruned, fps, f, source, target);
  }

  lemma LoneSubmissionMoves(rows: set<Row>, fps: map<Id, Fingerprint>, f: Fingerprint, source: Id, target: Id, r: Row)
    requires source != target && r in rows && On(fps, f, source, r) && r.vote == 1 && !HasTwin(rows, r, target)
    ensures r.(scene := target) in PruneAndMove(rows, fps, f, source, target)
  {
    var q := r.(scene := target);
    assert q.(scene := source) == r;
    assert HasTwin(rows, q, target) <==> HasTwin(rows, r, target);
    MoveRows(rows, fps, f, source, target, q);
  }

  // ----- who has submitted the fingerprint afterwards

  /**
   A submitter of the source is a submitter of the target afterwards exactly when that user has not reported the fingerprint
   on the target: a report is a row of the same key, in favour of which the submission is pruned.
   */
  lemma SubmitterArrivesIff(rows: set<Row>, fps: map<Id, Fingerprint>, f: Fingerprint, source: Id, target: Id, u: Id)
    requires UniqueKeys(rows) && VotesOk(rows) && UniqueFingerprints(fps) && source != target
    requires u in Submitters(rows, fps, f, source)
    ensures u in Submitters(PruneAndMove(rows, fps, f, source, target), fps, f, target) <==> u !in Reporters(rows, fps, f, target)
  {
    var after := PruneAndMove(rows, fps, f, source, target);
    var r :| r in rows && On(fps, f, source, r) && r.vote == 1 && r.user == u;
    if HasTwin(rows, r, target) {
      var q :| q in rows && q.scene == target && q.fp == r.fp && q.user == u;
      MoveRows(rows, fps, f, source, target, q);
      TwinDecides(rows, fps, f, source, target, q);
    } else {
      LoneSubmissionMoves(rows, fps, f, source, target, r);
      var moved := r.(scene := target);
      assert moved in after && On(fps, f, target, moved) && moved.user == u && moved.vote == 1;
      assert forall q :: q in rows && On(fps, f, target, q) ==> q.fp == r.fp;
    }
  }

  /** A user's row for the fingerprint on the target stays the only one, with its vote. */
  lemma TwinDecides(rows: set<Row>, fps: map<Id, Fingerprint>, f: Fingerprint, source: Id, target: Id, q: Row)
    requires UniqueKeys(rows) && VotesOk(rows) && UniqueFingerprints(fps) && source != target
    requires q in rows && On(fps, f, target, q)
    ensures q.user in Submitters(PruneAndMove(rows, fps, f, source, target), fps, f, target) <==> q.vote == 1
    ensures q.user in Reporters(rows, fps, f, target) <==> q.vote == -1
  {
    var after := PruneAndMove(rows, fps, f, source, target);
    MoveRows(rows, fps, f, source, target, q);
    MoveKeepsUnique(rows, fps, f, source, target);
    assert forall r :: r in rows && On(fps, f, target, r) && r.user == q.user ==> r == q;
    assert forall r :: r in after && On(fps, f, target, r) && r.user == q.user ==> r == q;
  }

  /** The target's submitters afterwards: its own, and the source's but for those who had reported it on the target. */
  lemma TargetSubmitters(rows: set<Row>, fps: map<Id, Fingerprint>, f: Fingerprint, source: Id, target: Id)
    requires UniqueKeys(rows) && VotesOk(rows) && UniqueFingerprints(fps) && source != target
    ensures Submitters(PruneAndMove(rows, fps, f, source, target), fps, f, target) ==
            Submitters(rows, fps, f, target) + (Submitters(rows, fps, f, source) - Reporters(rows, fps, f, target))
    ensures Reporters(PruneAndMove(rows, fps, f, source, target), fps, f, target) == Reporters(rows, fps, f, target)
  {
    var after := PruneAndMove(rows, fps, f, source, target);
    forall u | u in Submitters(rows, fps, f, source)
      ensures u in Submitters(after, fps, f, target) <==> u !in Reporters(rows, fps, f, target)
    {
      SubmitterArrivesIff(rows, fps, f, source, target, u);
    }
    forall r | On(fps, f, target, r)
      ensures r in rows ==> r in after
      ensures r in after ==> r in rows || (r.vote != -1 && r.(scene := source) in rows)
    {
      MoveRows(rows, fps, f, source, target, r);
    }
    forall u | u in Submitters(after, fps, f, target)
      ensures u in Submitters(rows, fps, f, target) || u in Submitters(rows, fps, f, source)
    {
      var r :| r in after && On(fps, f, target, r) && r.vote == 1 && r.user == u;
      if r !in rows {
        var q := r.(scene := source);
        assert q in rows && On(fps, f, source, q) && q.vote == 1 && q.user == u;
      }
    }
  }

  /** On one and the same scene each row counts as its own duplicate, and all of them are pruned. */
  lemma SameSceneLosesAll(rows: set<Row>, fps: map<Id, Fingerprint>, f: Fingerprint, scene: Id)
    ensures Submitters(PruneAndMove(rows, fps, f, scene, scene), fps, f, scene) == {}
  {
    forall r | r in rows && On(fps, f, scene, r) ensures r in Pruned(rows, fps, f, scene, scene) {
      assert HasTwin(rows, r, scene);
    }
  }

  /**
   Nobody's submission is lost exactly when there was none, or when the scenes differ, which nothing checks, and no submitter
   of the source had reported the fingerprint on the target.
   */
  lemma SubmissionsSurviveIff(rows: set<Row>, fps: map<Id, Fingerprint>, f: Fingerprint, source: Id, target: Id)
    requires UniqueKeys(rows) && VotesOk(rows) && UniqueFingerprints(fps)
    ensures Submitters(rows, fps, f, source) <= Submitters(PruneAndMove(rows, fps, f, source, target), fps, f, target)
            <==> Submitters(rows, fps, f, source) == {}
                 || (source != target && Submitters(rows, fps, f, source) !! Reporters(rows, fps, f, target))
  {
    if source == target {
      SameSceneLosesAll(rows, fps, f, source);
    } else {
      forall u | u in Submitters(rows, fps, f, source)
        ensures u in Submitters(PruneAndMove(rows, fps, f, source, target), fps, f, target) <==> u !in Reporters(rows, fps, f, target)
      {
        SubmitterArrivesIff(rows, fps, f, source, target, u);
      }
    }
  }

  /** User 7 submitted the fingerprint on scene 10 and reported it on scene 20: the move loses the submission and still reports 7. */
  lemma ReportSwallowsSubmission()
    ensures var f := Fingerprint(1, "PHASH");
            var fps := map[0 := f];
            var rows := {Row(0, 10, 7, 100, 1), Row(0, 20, 7, 100, -1)};
            && UniqueKeys(rows) && VotesOk(rows) && UniqueFingerprints(fps)
            && PruneAndMove(rows, fps, f, 10, 20) == {Row(0, 20, 7, 100, -1)}
            && Reported(rows, fps, f, 10, 20) == {7}
            && Submitters(PruneAndMove(rows, fps, f, 10, 20), fps, f, 20) == {}
  {
    var f := Fingerprint(1, "PHASH");
    var fps := map[0 := f];
    var submission, report := Row(0, 10, 7, 100, 1), Row(0, 20, 7, 100, -1);
    var rows := {submission, report};
    assert HasTwin(rows, submission, 20);
    assert Pruned(rows, fps, f, 10, 20) == {submission};
    assert rows - {submission} == {report};
    ReportedAreSubmitters(rows, fps, f, 10, 20);
    assert Submitters(rows, fps, f, 10) == {7} by {
      assert submission.user in Submitters(rows, fps, f, 10);
    }
  }

  // ----- a list of fingerprints in one request

  /** The service's loop: one prune and one move a fingerprint, and the users reported under the fingerprint's hash. */
  datatype Moved = Moved(rows: set<Row>, users: map<int, set<Id>>) | NotOnSource(f: Fingerprint)

  ghost function MoveAll(rows: set<Row>, fps: map<Id, Fingerprint>, fs: seq<Fingerprint>, source: Id, target: Id): Moved {
    if fs == [] then Moved(rows, map[])
    else
      var f := fs[|fs| - 1];
      match MoveAll(rows, fps, fs[..|fs| - 1], source, target)
      case NotOnSource(g) => NotOnSource(g)
      case Moved(before, users) =>
        if Moving(before, fps, f, source) == {} then NotOnSource(f)
        else Moved(PruneAndMove(before, fps, f, source, target), users[f.hash := Reported(before, fps, f, source, target)])
  }

  /** Moving one fingerprint does not touch the rows of another. */
  lemma OtherFingerprintUntouched(rows: set<Row>, fps: map<Id, Fingerprint>, f: Fingerprint, g: Fingerprint, source: Id, target: Id)
    requires source != target && f != g
    ensures Submitters(PruneAndMove(rows, fps, f, source, target), fps, g, source) == Submitters(rows, fps, g, source)
    ensures Moving(PruneAndMove(rows, fps, f, source, target), fps, g, source) == Moving(rows, fps, g, source)
  {
    var after := PruneAndMove(rows, fps, f, source, target);
    forall r | On(fps, g, source, r) ensures r in after <==> r in rows {
      MoveRows(rows, fps, f, source, target, r);
    }
  }

  lemma NothingLeftToMove(rows: set<Row>, fps: map<Id, Fingerprint>, f: Fingerprint, source: Id, target: Id)
    requires source != target
    ensures Moving(PruneAndMove(rows, fps, f, source, target), fps, f, source) == {}
  {
    forall r | r in PruneAndMove(rows, fps, f, source, target) ensures !On(fps, f, source, r) {
      MoveRows(rows, fps, f, source, target, r);
    }
  }

  /** The last position in the list with this hash. */
  ghost function LastWithHash(fs: seq<Fingerprint>, hash: int): (i: int)
    ensures -1 <= i < |fs|
    ensures i >= 0 ==> fs[i].hash == hash
    ensures forall j :: i < j < |fs| ==> fs[j].hash != hash
  {
    if fs == [] then -1 else if fs[|fs| - 1].hash == hash then |fs| - 1 else LastWithHash(fs[..|fs| - 1], hash)
  }

  /** After some moves: a fingerprint not moved yet has its rows on the source as at first, a moved one has none there. */
  ghost predicate MovedOnly(rows: set<Row>, after: set<Row>, fps: map<Id, Fingerprint>, fs: seq<Fingerprint>, source: Id) {
    forall g: Fingerprint ::
      Moving(after, fps, g, source) == (if g in fs then {} else Moving(rows, fps, g, source))
  }

  lemma SubmittersOfMoving(rows: set<Row>, others: set<Row>, fps: map<Id, Fingerprint>, g: Fingerprint, source: Id)
    requires Moving(rows, fps, g, source) == Moving(others, fps, g, source)
    ensures Submitters(rows, fps, g, source) == Submitters(others, fps, g, source)
  {
    assert forall r :: r in rows && On(fps, g, source, r) <==> r in Moving(rows, fps, g, source);
    assert forall r :: r in others && On(fps, g, source, r) <==> r in Moving(others, fps, g, source);
  }

  /** Every fingerprint of the list has a row on the source, and none is listed twice. */
  ghost predicate Movable(rows: set<Row>, fps: map<Id, Fingerprint>, fs: seq<Fingerprint>, source: Id) {
    && (forall f :: f in fs ==> Moving(rows, fps, f, source) != {})
    && (forall i, j :: 0 <= i < j < |fs| ==> fs[i] != fs[j])
  }

  lemma MovableStep(rows: set<Row>, fps: map<Id, Fingerprint>, fs: seq<Fingerprint>, source: Id)
    requires fs != []
    ensures var init := fs[..|fs| - 1]; var f := fs[|fs| - 1];
            Movable(rows, fps, fs, source) <==>
            Movable(rows, fps, init, source) && f !in init && Moving(rows, fps, f, source) != {}
  {
    var init := fs[..|fs| - 1];
    var f := fs[|fs| - 1];
    assert fs == init + [f];
    assert forall g :: g in fs <==> g in init || g == f;
    if Movable(rows, fps, fs, source) {
      forall i | 0 <= i < |init| ensures init[i] != f { assert fs[i] != fs[|fs| - 1]; }
    }
  }

  /** Under each hash, the submitters of the last fingerprint listed with it. */
  ghost predicate ReportsLast(rows: set<Row>, fps: map<Id, Fingerprint>, fs: seq<Fingerprint>, source: Id, users: map<int, set<Id>>) {
    && (forall h :: h in users <==> LastWithHash(fs, h) >= 0)
    && (forall h :: h in users && LastWithHash(fs, h) >= 0 ==> users[h] == Submitters(rows, fps, fs[LastWithHash(fs, h)], source))
  }

  /**
   A whole request, between different scenes. It succeeds exactly when every fingerprint has a row on the source and none is
   repeated. The users are kept by hash alone: under each hash the request reports exactly the submitters of the last
   fingerprint listed with that hash, so those of an earlier one with another algorithm are not reported.
   */
  lemma {:induction false} MoveAllReports(rows: set<Row>, fps: map<Id, Fingerprint>, fs: seq<Fingerprint>, source: Id, target: Id)
    requires UniqueKeys(rows) && VotesOk(rows) && source != target
    ensures MoveAll(rows, fps, fs, source, target).Moved? <==> Movable(rows, fps, fs, source)
    ensures MoveAll(rows, fps, fs, source, target).Moved? ==>
              var m := MoveAll(rows, fps, fs, source, target);
              && UniqueKeys(m.rows) && VotesOk(m.rows) && MovedOnly(rows, m.rows, fps, fs, source)
              && ReportsLast(rows, fps, fs, source, m.users)
    decreases |fs|
  {
    if fs != [] {
      var init := fs[..|fs| - 1];
      var f := fs[|fs| - 1];
      MoveAllReports(rows, fps, init, source, target);
      MovableStep(rows, fps, fs, source);
      var m := MoveAll(rows, fps, init, source, target);
      if m.Moved? {
        assert Moving(m.rows, fps, f, source) == (if f in init then {} else Moving(rows, fps, f, source));
        if Moving(m.rows, fps, f, source) != {} {
          MoveConserves(m.rows, fps, f, source, target);
          MovedOneMore(rows, m.rows, fps, fs, source, target);
          ReportsOneMore(rows, m, fps, fs, source, target);
        }
      }
    }
  }

  /**
   What a whole request does to the target: every listed fingerprint ends with the target's own submitters and the source's
   but for those who had reported it on the target; other fingerprints keep theirs.
   */
  lemma {:induction false} MoveAllSubmitters(rows: set<Row>, fps: map<Id, Fingerprint>, fs: seq<Fingerprint>, source: Id, target: Id,
                                             g: Fingerprint)
    requires UniqueKeys(rows) && VotesOk(rows) && UniqueFingerprints(fps) && source != target
    requires MoveAll(rows, fps, fs, source, target).Moved?
    ensures var after := MoveAll(rows, fps, fs, source, target).rows;
            && Submitters(after, fps, g, target) == Submitters(rows, fps, g, target) +
                 (if g in fs then Submitters(rows, fps, g, source) - Reporters(rows, fps, g, target) else {})
            && Reporters(after, fps, g, target) == Reporters(rows, fps, g, target)
    decreases |fs|
  {
    if fs != [] {
      var init, f := fs[..|fs| - 1], fs[|fs| - 1];
      assert fs == init + [f];
      var m := MoveAll(rows, fps, init, source, target);
      MoveAllSubmitters(rows, fps, init, source, target, g);
      MoveAllReports(rows, fps, init, source, target);
      MoveAllReports(rows, fps, fs, source, target);
      MovableStep(rows, fps, fs, source);
      if g == f {
        TargetSubmitters(m.rows, fps, f, source, target);
        SubmittersOfMoving(m.rows, rows, fps, f, source);
      } else {
        OtherOnTarget(m.rows, fps, f, g, source, target);
      }
    }
  }

  lemma OtherOnTarget(rows: set<Row>, fps: map<Id, Fingerprint>, f: Fingerprint, g: Fingerprint, source: Id, target: Id)
    requires source != target && f != g
    ensures Submitters(PruneAndMove(rows, fps, f, source, target), fps, g, target) == Submitters(rows, fps, g, target)
    ensures Reporters(PruneAndMove(rows, fps, f, source, target), fps, g, target) == Reporters(rows, fps, g, target)
  {
    var after := PruneAndMove(rows, fps, f, source, target);
    forall r | On(fps, g, target, r) ensures r in after <==> r in rows {
      MoveRows(rows, fps, f, source, target, r);
    }
  }

  lemma ReportsOneMore(rows: set<Row>, m: Moved, fps: map<Id, Fingerprint>, fs: seq<Fingerprint>, source: Id, target: Id)
    requires fs != [] && m.Moved? && VotesOk(m.rows) && ReportsLast(rows, fps, fs[..|fs| - 1], source, m.users)
    requires Moving(m.rows, fps, fs[|fs| - 1], source) == Moving(rows, fps, fs[|fs| - 1], source)
    ensures var f := fs[|fs| - 1];
            ReportsLast(rows, fps, fs, source, m.users[f.hash := Reported(m.rows, fps, f, source, target)])
  {
    var f := fs[|fs| - 1];
    ReportedAreSubmitters(m.rows, fps, f, source, target);
    SubmittersOfMoving(m.rows, rows, fps, f, source);
  }

  lemma MovedOneMore(rows: set<Row>, before: set<Row>, fps: map<Id, Fingerprint>, fs: seq<Fingerprint>, source: Id, target: Id)
    requires source != target && fs != [] && MovedOnly(rows, before, fps, fs[..|fs| - 1], source)
    ensures MovedOnly(rows, PruneAndMove(before, fps, fs[|fs| - 1], source, target), fps, fs, source)
  {
    var f := fs[|fs| - 1];
    forall g: Fingerprint
      ensures Moving(PruneAndMove(before, fps, f, source, target), fps, g, source) == (if g in fs then {} else Moving(rows, fps, g, source))
    {
      if g == f { NothingLeftToMove(before, fps, f, source, target); }
      else { OtherFingerprintUntouched(before, fps, f, g, source, target); }
    }
  }

  // ----- deleting a user

  /** Another user has submitted the same fingerprint on the same scene. */
  ghost predicate Shared(rows: set<Row>, r: Row, user: Id) {
    exists q :: q in rows && q.scene == r.scene && q.fp == r.fp && q.user != user
  }

  ghost function ReassignUnique(rows: set<Row>, sentinel: Id, user: Id): set<Row> {
    set r | r in rows :: if r.user == user && !Shared(rows, r, user) then r.(user := sentinel) else r
  }

  /** The delete of the user cascades to the rows that are still the user's. */
  ghost function DeleteUser(rows: set<Row>, sentinel: Id, user: Id): set<Row> {
    set r | r in ReassignUnique(rows, sentinel, user) && r.user != user
  }

  ghost predicate Present(rows: set<Row>, scene: Id, fp: Id) {
    exists r :: r in rows && r.scene == scene && r.fp == fp
  }

  lemma DeleteUserRows(rows: set<Row>, sentinel: Id, user: Id, r: Row)
    requires sentinel != user
    ensures r in DeleteUser(rows, sentinel, user) <==>
            || (r in rows && r.user != user)
            || (r.user == sentinel && r.(user := user) in rows && !Shared(rows, r, user))
  {
    if r.user == sentinel && r.(user := user) in rows && !Shared(rows, r, user) {
      var q := r.(user := user);
      assert !Shared(rows, q, user) && q.(user := sentinel) == r;
    }
    if r in DeleteUser(rows, sentinel, user) && r !in rows {
      var q :| q in rows && q.user == user && !Shared(rows, q, user) && q.(user := sentinel) == r;
      assert q == r.(user := user) && !Shared(rows, r, user);
    }
  }

  /**
   Deleting a user other than the sentinel keeps the keys unique and every other user's rows, adds only rows of the sentinel
   for what was the user's alone, and leaves a row for every fingerprint on every scene that had one.
   */
  lemma DeleteUserKeepsFingerprints(rows: set<Row>, sentinel: Id, user: Id)
    requires UniqueKeys(rows) && sentinel != user
    ensures var after := DeleteUser(rows, sentinel, user);
            && UniqueKeys(after)
            && (forall r :: r in after ==> r.user != user)
            && (forall r :: r in rows && r.user != user ==> r in after)
            && (forall r :: r in after && r !in rows ==> r.user == sentinel && r.(user := user) in rows && !Shared(rows, r, user))
            && (forall scene, fp :: Present(after, scene, fp) <==> Present(rows, scene, fp))
  {
    var after := DeleteUser(rows, sentinel, user);
    forall r
      ensures r in after ==> r in rows || (r.user == sentinel && r.(user := user) in rows && !Shared(rows, r, user))
      ensures r in rows && r.user != user ==> r in after
    {
      DeleteUserRows(rows, sentinel, user, r);
    }
    forall r, q | r in after && q in after && r.fp == q.fp && r.scene == q.scene && r.user == q.user
      ensures r == q
    {
      DeleteUserRows(rows, sentinel, user, r);
      DeleteUserRows(rows, sentinel, user, q);
      if r !in rows && q !in rows { assert r.(user := user) == q.(user := user); }
    }
    forall scene, fp ensures Present(after, scene, fp) <==> Present(rows, scene, fp) {
      if Present(rows, scene, fp) { StaysPresent(rows, sentinel, user, scene, fp); }
    }
  }

  lemma StaysPresent(rows: set<Row>, sentinel: Id, user: Id, scene: Id, fp: Id)
    requires sentinel != user && Present(rows, scene, fp)
    ensures Present(DeleteUser(rows, sentinel, user), scene, fp)
  {
    var r :| r in rows && r.scene == scene && r.fp == fp;
    if Shared(rows, r, user) {
      var q :| q in rows && q.scene == scene && q.fp == fp && q.user != user;
      DeleteUserRows(rows, sentinel, user, q);
    } else {
      var q := r.(user := sentinel);
      assert !Shared(rows, q, user) && q.(user := user) == r;
      DeleteUserRows(rows, sentinel, user, q);
      assert q in DeleteUser(rows, sentinel, user);
    }
  }

  /** With the deleted user as its own sentinel nothing would be kept: that is why system users cannot be deleted. */
  lemma FingerprintsSurviveIff(rows: set<Row>, sentinel: Id, user: Id)
    ensures (forall scene, fp :: Present(rows, scene, fp) ==> Present(DeleteUser(rows, sentinel, user), scene, fp))
            <==> sentinel != user || (forall r :: r in rows ==> Shared(rows, r, user))
  {
    var after := DeleteUser(rows, sentinel, user);
    if sentinel != user {
      forall scene, fp | Present(rows, scene, fp) ensures Present(after, scene, fp) {
        StaysPresent(rows, sentinel, user, scene, fp);
      }
    } else {
      forall r | r in rows ensures Present(after, r.scene, r.fp) <==> Shared(rows, r, user) {
        OwnSentinelKeepsShared(rows, user, r);
      }
      if forall scene, fp :: Present(rows, scene, fp) ==> Present(after, scene, fp) {
        forall r | r in rows ensures Shared(rows, r, user) { assert Present(rows, r.scene, r.fp); }
      }
      forall scene, fp | Present(rows, scene, fp) && (forall r :: r in rows ==> Shared(rows, r, user))
        ensures Present(after, scene, fp)
      {
        var r :| r in rows && r.scene == scene && r.fp == fp;
        assert Shared(rows, r, user);
      }
    }
  }

  lemma OwnSentinelKeepsShared(rows: set<Row>, user: Id, r: Row)
    ensures Present(DeleteUser(rows, user, user), r.scene, r.fp) <==> Shared(rows, r, user)
  {
    var after := DeleteUser(rows, user, user);
    forall q ensures q in after <==> q in rows && q.user != user {
      if q in rows && q.user != user { assert q in ReassignUnique(rows, user, user); }
    }
    if Shared(rows, r, user) {
      var q :| q in rows && q.scene == r.scene && q.fp == r.fp && q.user != user;
      assert q in after;
    }
  }

  /** Somebody has submitted, not reported, the fingerprint on the scene. */
  ghost predicate Submitted(rows: set<Row>, scene: Id, fp: Id) {
    exists r :: r in rows && r.scene == scene && r.fp == fp && r.vote == 1
  }

  /** Another user has submitted, not reported, what this row is about. */
  ghost predicate SubmittedByOther(rows: set<Row>, r: Row, user: Id) {
    exists q :: q in rows && q.scene == r.scene && q.fp == r.fp && q.user != user && q.vote == 1
  }

  /** This row of the deleted user is kept for the sentinel. */
  ghost predicate Kept(rows: set<Row>, r: Row, sentinel: Id, user: Id) {
    sentinel != user && !Shared(rows, r, user)
  }

  lemma DeleteUserVotes(rows: set<Row>, sentinel: Id, user: Id, scene: Id, fp: Id)
    ensures Submitted(DeleteUser(rows, sentinel, user), scene, fp) <==>
              exists r :: r in rows && r.scene == scene && r.fp == fp && r.vote == 1 && (r.user != user || Kept(rows, r, sentinel, user))
  {
    var after := DeleteUser(rows, sentinel, user);
    if Submitted(after, scene, fp) {
      var q :| q in after && q.scene == scene && q.fp == fp && q.vote == 1;
      var r :| r in rows && (if r.user == user && !Shared(rows, r, user) then r.(user := sentinel) else r) == q;
      assert r.scene == scene && r.fp == fp && r.vote == 1 && (r.user != user || Kept(rows, r, sentinel, user));
    }
    if r :| r in rows && r.scene == scene && r.fp == fp && r.vote == 1 && (r.user != user || Kept(rows, r, sentinel, user)) {
      var q := if r.user == user && !Shared(rows, r, user) then r.(user := sentinel) else r;
      assert q in ReassignUnique(rows, sentinel, user) && q.user != user;
      assert q in after && q.scene == scene && q.fp == fp && q.vote == 1;
    }
  }

  /**
   Every pair that had a submission still has one exactly when each submission of the deleted user is kept for the sentinel
   or somebody else has submitted the same. It is not enough that somebody else has a row, which can be a report.
   */
  lemma SubmittedSurvivesIff(rows: set<Row>, sentinel: Id, user: Id)
    ensures (forall scene, fp :: Submitted(rows, scene, fp) ==> Submitted(DeleteUser(rows, sentinel, user), scene, fp))
            <==> forall r :: r in rows && r.user == user && r.vote == 1 ==>
                               Kept(rows, r, sentinel, user) || SubmittedByOther(rows, r, user)
  {
    var after := DeleteUser(rows, sentinel, user);
    forall r | r in rows && r.user == user && r.vote == 1
      ensures Submitted(rows, r.scene, r.fp)
      ensures Submitted(after, r.scene, r.fp) ==> Kept(rows, r, sentinel, user) || SubmittedByOther(rows, r, user)
    {
      DeleteUserVotes(rows, sentinel, user, r.scene, r.fp);
      if Submitted(after, r.scene, r.fp) {
        var q :| q in rows && q.scene == r.scene && q.fp == r.fp && q.vote == 1 && (q.user != user || Kept(rows, q, sentinel, user));
        assert Shared(rows, q, user) <==> Shared(rows, r, user);
      }
    }
    if forall r :: r in rows && r.user == user && r.vote == 1 ==> Kept(rows, r, sentinel, user) || SubmittedByOther(rows, r, user) {
      forall scene, fp | Submitted(rows, scene, fp) ensures Submitted(after, scene, fp) {
        DeleteUserVotes(rows, sentinel, user, scene, fp);
        var r :| r in rows && r.scene == scene && r.fp == fp && r.vote == 1;
        assert r.user != user || Kept(rows, r, sentinel, user) || SubmittedByOther(rows, r, user);
      }
    }
  }

  /** Deleting user 7, who submitted what user 8 reported, leaves only the report. */
  lemma OnlyReportLeft(sentinel: Id)
    requires sentinel != 7 && sentinel != 8
    ensures var rows := {Row(0, 10, 7, 100, 1), Row(0, 10, 8, 100, -1)};
            Submitted(rows, 10, 0) && !Submitted(DeleteUser(rows, sentinel, 7), 10, 0)
  {
    var submission, report := Row(0, 10, 7, 100, 1), Row(0, 10, 8, 100, -1);
    var rows := {submission, report};
    assert submission in rows && report in rows;
    assert Shared(rows, submission, 7);
    DeleteUserVotes(rows, sentinel, 7, 10, 0);
  }

  // ----- the table

  class SubmissionTable {
    var rows: set<Row>
    const fps: map<Id, Fingerprint>

    constructor (rows: set<Row>, fps: map<Id, Fingerprint>)
      ensures this.rows == rows && this.fps == fps
    {
      this.rows, this.fps := rows, fps;
    }

    /** PruneSceneFingerprintsForMove, which returns the deleted rows. */
    method Prune(f: Fingerprint, source: Id, target: Id) returns (pruned: set<Row>)
      modifies this
      ensures pruned == Pruned(old(rows), fps, f, source, target) && rows == old(rows) - pruned
    {
      pruned := set r | r in rows && r.fp in fps && fps[r.fp] == f && r.scene == source
                  && (r.vote == -1 || exists q :: q in rows && q.scene == target && q.fp == r.fp && q.user == r.user);
      rows := rows - pruned;
    }

    /** MoveSceneFingerprintSubmissions, which returns the users of the updated rows. */
    method MoveSubmissions(f: Fingerprint, source: Id, target: Id) returns (users: set<Id>)
      modifies this
      ensures rows == Move(old(rows), fps, f, source, target)
      ensures users == set r | r in Moving(old(rows), fps, f, source) :: r.user
      ensures users == {} <==> Moving(old(rows), fps, f, source) == {}
    {
      var moving := set r | r in rows && r.fp in fps && fps[r.fp] == f && r.scene == source;
      users := set r | r in moving :: r.user;
      assert forall r :: r in moving ==> r.user in users;
      rows := set r | r in rows :: if r.fp in fps && fps[r.fp] == f && r.scene == source then r.(scene := target) else r;
    }

    /** The body of the service's loop: whether there was anything on the source, and the users to report. */
    method MoveOne(f: Fingerprint, source: Id, target: Id) returns (found: bool, users: set<Id>)
      modifies this
      ensures rows == PruneAndMove(old(rows), fps, f, source, target)
      ensures found <==> Moving(old(rows), fps, f, source) != {}
      ensures users == Reported(old(rows), fps, f, source, target)
    {
      ghost var was := rows;
      var pruned := Prune(f, source, target);
      var moved := MoveSubmissions(f, source, target);
      PruneOrMove(was, fps, f, source, target);
      found := pruned != {} || moved != {};
      users := moved + (set r | r in pruned && r.vote == 1 :: r.user);
    }

    /** MoveFingerprintSubmissions once both scenes were found; an error rolls the whole transaction back. */
    method MoveFingerprintSubmissions(fs: seq<Fingerprint>, source: Id, target: Id) returns (moved: Moved)
      modifies this
      ensures moved == MoveAll(old(rows), fps, fs, source, target)
      ensures rows == if moved.Moved? then moved.rows else old(rows)
    {
      var before := rows;
      var movedUsers: map<int, set<Id>> := map[];
      for n := 0 to |fs|
        invariant MoveAll(before, fps, fs[..n], source, target) == Moved(rows, movedUsers)
      {
        var found, users := MoveOne(fs[n], source, target);
        assert fs[..n + 1][..n] == fs[..n];
        if !found {
          MoveAllStops(before, fps, fs, n, source, target);
          rows := before;
          return NotOnSource(fs[n]);
        }
        movedUsers := movedUsers[fs[n].hash := users];
      }
      assert fs[..|fs|] == fs;
      return Moved(rows, movedUsers);
    }

    /** ReassignUniqueSceneFingerprints and the cascade of the user's deletion. */
    method Delete(sentinel: Id, user: Id)
      modifies this
      ensures rows == DeleteUser(old(rows), sentinel, user)
    {
      rows := set r | r in rows ::
        if r.user == user && !(exists q :: q in rows && q.scene == r.scene && q.fp == r.fp && q.user != user)
        then r.(user := sentinel) else r;
      assert rows == ReassignUnique(old(rows), sentinel, user);
      rows := set r | r in rows && r.user != user;
    }
  }

  /** Nothing was pruned and nothing moved exactly when the source had no row of the fingerprint. */
  lemma PruneOrMove(rows: set<Row>, fps: map<Id, Fingerprint>, f: Fingerprint, source: Id, target: Id)
    ensures var pruned := Pruned(rows, fps, f, source, target);
            pruned == {} && Moving(rows - pruned, fps, f, source) == {} <==> Moving(rows, fps, f, source) == {}
  {
    var pruned := Pruned(rows, fps, f, source, target);
    assert Moving(rows, fps, f, source) == pruned + Moving(rows - pruned, fps, f, source);
  }

  /** An error at one fingerprint is the answer for the whole list. */
  lemma {:induction false} MoveAllStops(rows: set<Row>, fps: map<Id, Fingerprint>, fs: seq<Fingerprint>, n: nat, source: Id, target: Id)
    requires n < |fs| && MoveAll(rows, fps, fs[..n], source, target).Moved?
    requires Moving(MoveAll(rows, fps, fs[..n], source, target).rows, fps, fs[n], source) == {}
    ensures MoveAll(rows, fps, fs, source, target) == NotOnSource(fs[n])
    decreases |fs|
  {
    if n == |fs| - 1 {
    } else {
      var init := fs[..|fs| - 1];
      assert init[..n] == fs[..n];
      MoveAllStops(rows, fps, init, n, source, target);
    }
  }
}
