/**
 Two queries that count the same submissions: GetAllFingerprints counts the rows of a scene's fingerprint directly,
 LoadClusterSubmissions first groups them by duration and then adds the groups up.
 */
module FingerprintCounts {
  import opened Fingerprints

  ghost function Group(rows: set<Row>, fp: Id, scene: Id): set<Row> {
    set r | r in rows && r.fp == fp && r.scene == scene
  }

  // ----- sorting a set of durations

  lemma {:induction false} HasMinimum(s: set<int>)
    requires s != {}
    decreases |s|
    ensures exists m :: m in s && forall x :: x in s ==> m <= x
  {
    assert (forall x :: x !in s) ==> s == {};
    var m :| m in s;
    if s - {m} == {} {
      assert forall x :: x in s ==> x == m || x in s - {m};
    } else {
      HasMinimum(s - {m});
      var n :| n in s - {m} && forall x :: x in s - {m} ==> n <= x;
      var least := if m < n then m else n;
      assert forall x :: x in s ==> x == m || x in s - {m};
      assert least in s && forall x :: x in s ==> least <= x;
    }
  }

  ghost function Minimum(s: set<int>): (m: int)
    requires s != {}
    ensures m in s && forall x :: x in s ==> m <= x
  {
    HasMinimum(s);
    var m :| m in s && forall x :: x in s ==> m <= x;
    m
  }

  ghost predicate Increasing(s: seq<int>) {
    forall i, j :: 0 <= i < j < |s| ==> s[i] < s[j]
  }

  /** The elements of a set in increasing order: GROUP BY with ORDER BY on the grouping column. */
  ghost function Sorted(s: set<int>): (r: seq<int>)
    ensures Increasing(r)
    ensures forall x :: x in r <==> x in s
    decreases |s|
  {
    if s == {} then []
    else
      var m := Minimum(s);
      var rest := Sorted(s - {m});
      assert forall i :: 0 <= i < |rest| ==> rest[i] in s - {m};
      [m] + rest
  }

  // ----- the queries

  ghost function Durations(g: set<Row>): set<int> {
    set r | r in g :: r.duration
  }

  ghost function WithVote(g: set<Row>, vote: int): set<Row> {
    set r | r in g && r.vote == vote
  }

  /** The inner query's COUNT(*) FILTER for one duration. */
  ghost function CountAt(g: set<Row>, duration: int, vote: int): nat {
    |set r | r in g && r.duration == duration && r.vote == vote|
  }

  ghost function Counts(g: set<Row>, durations: seq<int>, vote: int): (r: seq<nat>)
    ensures |r| == |durations|
  {
    seq(|durations|, i requires 0 <= i < |durations| => CountAt(g, durations[i], vote))
  }

  ghost function Sum(s: seq<nat>): nat {
    if s == [] then 0 else Sum(s[..|s| - 1]) + s[|s| - 1]
  }

  datatype ClusterRow = ClusterRow(submissions: nat, reports: nat, durations: seq<int>, durationSubmissions: seq<nat>)

  ghost function LoadClusterRow(rows: set<Row>, fp: Id, scene: Id): ClusterRow {
    var g := Group(rows, fp, scene);
    var durations := Sorted(Durations(g));
    ClusterRow(Sum(Counts(g, durations, 1)), Sum(Counts(g, durations, -1)), durations, Counts(g, durations, 1))
  }

  ghost function SumVotes(g: set<Row>): int
    decreases |g|
  {
    if g == {} then 0
    else
      var r :| r in g;
      r.vote + SumVotes(g - {r})
  }

  datatype DirectRow = DirectRow(submissions: nat, reports: nat, net: int)

  /** The join with fingerprints selects by hash and algorithm; the rows of one group share both and the scene. */
  ghost function GetAllRow(rows: set<Row>, fps: map<Id, Fingerprint>, f: Fingerprint, scene: Id): DirectRow {
    var g := Moving(rows, fps, f, scene);
    DirectRow(|WithVote(g, 1)|, |WithVote(g, -1)|, SumVotes(g))
  }

  // ----- they agree

  ghost function Among(g: set<Row>, durations: seq<int>, vote: int): set<Row> {
    set r | r in g && r.duration in durations && r.vote == vote
  }

  lemma AmongOneMore(g: set<Row>, durations: seq<int>, duration: int, vote: int)
    requires duration !in durations
    ensures |Among(g, durations + [duration], vote)| ==
            |Among(g, durations, vote)| + |set r | r in g && r.duration == duration && r.vote == vote|
  {
    var here := set r | r in g && r.duration == duration && r.vote == vote;
    assert Among(g, durations + [duration], vote) == Among(g, durations, vote) + here;
    assert Among(g, durations, vote) !! here;
  }

  lemma {:induction false} GroupsAddUp(g: set<Row>, durations: seq<int>, vote: int)
    requires Increasing(durations)
    ensures Sum(Counts(g, durations, vote)) == |Among(g, durations, vote)|
    decreases |durations|
  {
    if durations == [] {
      assert Among(g, durations, vote) == {};
    } else {
      var n := |durations| - 1;
      var init := durations[..n];
      GroupsAddUp(g, init, vote);
      assert Counts(g, durations, vote)[..n] == Counts(g, init, vote);
      assert durations == init + [durations[n]];
      AmongOneMore(g, init, durations[n], vote);
    }
  }

  lemma {:induction false} NetIsDifference(g: set<Row>)
    requires VotesOk(g)
    ensures SumVotes(g) == |WithVote(g, 1)| - |WithVote(g, -1)|
    decreases |g|
  {
    if g == {} {
      assert WithVote(g, 1) == {} && WithVote(g, -1) == {};
    } else {
      var r :| r in g && SumVotes(g) == r.vote + SumVotes(g - {r});
      var rest := g - {r};
      NetIsDifference(rest);
      assert WithVote(g, r.vote) == WithVote(rest, r.vote) + {r};
      assert WithVote(g, -r.vote) == WithVote(rest, -r.vote);
    }
  }

  lemma SameGroup(rows: set<Row>, fps: map<Id, Fingerprint>, fp: Id, scene: Id)
    requires UniqueFingerprints(fps) && fp in fps
    ensures Moving(rows, fps, fps[fp], scene) == Group(rows, fp, scene)
  {
  }

  /**
   For every set of submissions, fingerprint and scene: the sums over the durations are the direct counts, the durations are
   strictly increasing and are exactly those submitted, the counts are aligned with them and add up to the submissions,
   and the net count is submissions minus reports.
   */
  lemma GroupedCountsAreDirectCounts(rows: set<Row>, fps: map<Id, Fingerprint>, fp: Id, scene: Id)
    requires UniqueFingerprints(fps) && fp in fps && VotesOk(rows)
    ensures var grouped := LoadClusterRow(rows, fp, scene); var direct := GetAllRow(rows, fps, fps[fp], scene);
            && grouped.submissions == direct.submissions && grouped.reports == direct.reports
            && direct.net == grouped.submissions - grouped.reports
            && Increasing(grouped.durations)
            && (forall d :: d in grouped.durations <==> exists r :: r in Group(rows, fp, scene) && r.duration == d)
            && |grouped.durationSubmissions| == |grouped.durations|
            && Sum(grouped.durationSubmissions) == grouped.submissions
            && (forall i :: 0 <= i < |grouped.durations| ==>
                  grouped.durationSubmissions[i] == |set r | r in Group(rows, fp, scene) && r.duration == grouped.durations[i] && r.vote == 1|)
  {
    var g := Group(rows, fp, scene);
    var durations := Sorted(Durations(g));
    SameGroup(rows, fps, fp, scene);
    GroupsAddUp(g, durations, 1);
    GroupsAddUp(g, durations, -1);
    assert forall r :: r in g ==> r.duration in Durations(g);
    assert Among(g, durations, 1) == WithVote(g, 1);
    assert Among(g, durations, -1) == WithVote(g, -1);
    NetIsDifference(g);
  }
}
