/**
 Growing a cluster of perceptual hashes from a seed scene: a breadth-first search that alternates between hashes within a
 Hamming distance and hashes on the same scenes, with caps on scenes, members and rounds.
 */
module PhashClosure {

  /** A hash is its 64 bits. */
  type Hash = s: seq<bool> | |s| == 64 witness seq(64, i => false)

  type Scene = int

  const MAX_SCENES: nat := 100
  const MAX_ROUNDS: nat := 10
  const MAX_MEMBERS: nat := 500
  const BATCH_SIZE: nat := 64

  /** The PHASH fingerprints by id, and the scenes they were submitted on. */
  datatype Db = Db(phash: map<int, Hash>, on: set<(int, Scene)>)

  /** bits.OnesCount64. */
  function Popcount(s: seq<bool>): nat {
    if s == [] then 0 else (if s[0] then 1 else 0) + Popcount(s[1..])
  }

  function Xor(a: Hash, b: Hash): Hash {
    seq(64, i requires 0 <= i < 64 => a[i] != b[i])
  }

  predicate Near(a: Hash, b: Hash, distance: nat) {
    Popcount(Xor(a, b)) <= distance
  }

  ghost function Up(s: set<nat>): set<nat> {
    set i | i in s :: i + 1
  }

  lemma UpHas(s: set<nat>)
    ensures forall i: nat :: i in Up(s) <==> i > 0 && i - 1 in s
  {
    forall i: nat | i > 0 && i - 1 in s ensures i in Up(s) {
      assert (i - 1) + 1 == i;
    }
  }

  lemma {:induction false} UpKeepsSize(s: set<nat>)
    ensures |Up(s)| == |s|
  {
    if s == {} {
      assert Up(s) == {};
    } else {
      assert (forall i :: i !in s) ==> s == {};
      var i :| i in s;
      UpKeepsSize(s - {i});
      UpHas(s);
      UpHas(s - {i});
      assert Up(s) == Up(s - {i}) + {i + 1};
    }
  }

  ghost function Ones(s: seq<bool>): set<nat> {
    set i: nat | i < |s| && s[i]
  }

  lemma OnesStep(s: seq<bool>)
    requires s != []
    ensures Ones(s) == (if s[0] then {0} else {}) + Up(Ones(s[1..]))
  {
    UpHas(Ones(s[1..]));
    forall i: nat ensures i in Ones(s) <==> (i == 0 && s[0]) || i in Up(Ones(s[1..])) {
      assert 0 < i < |s| ==> s[1..][i - 1] == s[i];
    }
  }

  /** The count is the number of positions that are set. */
  lemma {:induction false} PopcountCounts(s: seq<bool>)
    ensures Popcount(s) == |set i: nat | i < |s| && s[i]|
    decreases |s|
  {
    if s == [] {
      assert Ones(s) == {};
    } else {
      PopcountCounts(s[1..]);
      UpKeepsSize(Ones(s[1..]));
      OnesStep(s);
      UpHas(Ones(s[1..]));
    }
  }

  /** Two hashes are near exactly when they differ in at most `distance` bits. */
  lemma NearIffFewDiffer(a: Hash, b: Hash, distance: nat)
    ensures Near(a, b, distance) <==> |set i: nat | i < 64 && a[i] != b[i]| <= distance
  {
    PopcountCounts(Xor(a, b));
    assert (set i: nat | i < 64 && a[i] != b[i]) == set i: nat | i < |Xor(a, b)| && Xor(a, b)[i];
  }

  lemma NearItself(a: Hash, distance: nat)
    ensures Near(a, a, distance)
  {
    NearIffFewDiffer(a, a, distance);
    assert (set i: nat | i < 64 && a[i] != a[i]) == {};
  }

  lemma NearBothWays(a: Hash, b: Hash, distance: nat)
    ensures Near(a, b, distance) <==> Near(b, a, distance)
  {
    assert Xor(a, b) == Xor(b, a);
  }

  // ----- the queries

  /** ExpandPhashNeighbors. */
  function Neighbors(db: Db, hashes: seq<Hash>, distance: nat): set<int> {
    set id | id in db.phash && exists h :: h in hashes && Near(h, db.phash[id], distance)
  }

  /** GetSceneFingerprintScenes, as the scenes of a set of fingerprints. */
  function ScenesOf(db: Db, ids: set<int>): set<Scene> {
    set r | r in db.on && r.0 in ids :: r.1
  }

  /** ExpandSceneCoMembers, and GetScenePhashSeeds for a single scene. */
  function PhashesOn(db: Db, scenes: set<Scene>): set<int> {
    set r | r in db.on && r.1 in scenes && r.0 in db.phash :: r.0
  }

  // ----- what is reachable

  ghost predicate Linked(db: Db, distance: nat, a: int, b: int) {
    && a in db.phash && b in db.phash
    && (Near(db.phash[a], db.phash[b], distance) || exists s :: (a, s) in db.on && (b, s) in db.on)
  }

  ghost predicate IsPath(db: Db, distance: nat, p: seq<int>) {
    p != [] && forall i :: 0 <= i < |p| - 1 ==> Linked(db, distance, p[i], p[i + 1])
  }

  /** Some chain of near hashes and shared scenes leads from the seed scene's hashes to this one. */
  ghost predicate Reachable(db: Db, distance: nat, seed: Scene, id: int) {
    exists p :: IsPath(db, distance, p) && p[0] in PhashesOn(db, {seed}) && p[|p| - 1] == id
  }

  lemma ReachableOn(db: Db, distance: nat, seed: Scene, a: int, b: int)
    requires Reachable(db, distance, seed, a) && Linked(db, distance, a, b)
    ensures Reachable(db, distance, seed, b)
  {
    var p :| IsPath(db, distance, p) && p[0] in PhashesOn(db, {seed}) && p[|p| - 1] == a;
    var q := p + [b];
    assert forall i :: 0 <= i < |q| - 1 ==> Linked(db, distance, q[i], q[i + 1]);
    assert IsPath(db, distance, q) && q[0] == p[0] && q[|q| - 1] == b;
  }

  lemma SeedsReachable(db: Db, distance: nat, seed: Scene, id: int)
    requires id in PhashesOn(db, {seed})
    ensures Reachable(db, distance, seed, id)
  {
    assert IsPath(db, distance, [id]) && [id][0] == id;
  }

  /** A scene is reached when it is the seed or carries a reachable hash. */
  ghost predicate SceneReached(db: Db, distance: nat, seed: Scene, s: Scene) {
    s == seed || exists id :: id in db.phash && (id, s) in db.on && Reachable(db, distance, seed, id)
  }

  lemma CoMembersReachable(db: Db, distance: nat, seed: Scene, scenes: set<Scene>, id: int)
    requires id in PhashesOn(db, scenes) && forall s :: s in scenes ==> SceneReached(db, distance, seed, s)
    ensures Reachable(db, distance, seed, id)
  {
    var r :| r in db.on && r.1 in scenes && r.0 == id;
    var s := r.1;
    if s == seed {
      SeedsReachable(db, distance, seed, id);
    } else {
      var a :| a in db.phash && (a, s) in db.on && Reachable(db, distance, seed, a);
      ReachableOn(db, distance, seed, a, id);
    }
  }

  // ----- how far each round gets

  /** The fingerprints near some of these. */
  ghost function Around(db: Db, distance: nat, ids: set<int>): set<int> {
    set n | n in db.phash && exists id :: id in ids && id in db.phash && Near(db.phash[id], db.phash[n], distance)
  }

  ghost function ScenesAround(db: Db, distance: nat, seed: Scene, ids: set<int>): set<Scene> {
    {seed} + ScenesOf(db, Around(db, distance, ids))
  }

  ghost function Next(db: Db, distance: nat, seed: Scene, ids: set<int>): set<int> {
    Around(db, distance, ids) + PhashesOn(db, ScenesAround(db, distance, seed, ids))
  }

  /** The fingerprints found after each number of rounds, when no cap interferes, and the scenes reached by then. */
  datatype Track = Track(levels: seq<set<int>>, scenes: seq<set<Scene>>)

  ghost function TrackFrom(db: Db, distance: nat, seed: Scene, rounds: nat): (t: Track)
    ensures |t.levels| == |t.scenes| == rounds + 1
  {
    if rounds == 0 then Track([PhashesOn(db, {seed})], [{seed}])
    else
      var t := TrackFrom(db, distance, seed, rounds - 1);
      var last := t.levels[rounds - 1];
      Track(t.levels + [Next(db, distance, seed, last)], t.scenes + [ScenesAround(db, distance, seed, last)])
  }

  /** Each entry is one round after the last. */
  ghost predicate IsTrack(db: Db, distance: nat, seed: Scene, t: Track) {
    && |t.levels| == |t.scenes| > 0 && t.levels[0] == PhashesOn(db, {seed}) && t.scenes[0] == {seed}
    && forall k :: 0 <= k < |t.levels| - 1 ==> StepAt(db, distance, seed, t, k)
  }

  ghost predicate StepAt(db: Db, distance: nat, seed: Scene, t: Track, k: nat)
    requires k + 1 < |t.levels| == |t.scenes|
  {
    t.levels[k + 1] == Next(db, distance, seed, t.levels[k]) && t.scenes[k + 1] == ScenesAround(db, distance, seed, t.levels[k])
  }

  /** What truncates a search: too many scenes, too many members unless no round finds any, or too long a way. */
  ghost predicate OverCaps(t: Track)
    requires |t.levels| == |t.scenes| == MAX_ROUNDS + 1
  {
    || |t.scenes[MAX_ROUNDS]| > MAX_SCENES
    || (|t.levels[MAX_ROUNDS]| > MAX_MEMBERS && t.levels[MAX_ROUNDS] != t.levels[0])
    || t.levels[MAX_ROUNDS] != t.levels[MAX_ROUNDS - 1]
  }

  lemma {:induction false} TrackIsTrack(db: Db, distance: nat, seed: Scene, rounds: nat)
    ensures IsTrack(db, distance, seed, TrackFrom(db, distance, seed, rounds))
  {
    if rounds > 0 {
      TrackIsTrack(db, distance, seed, rounds - 1);
      var was, t := TrackFrom(db, distance, seed, rounds - 1), TrackFrom(db, distance, seed, rounds);
      forall k | 0 <= k < rounds ensures StepAt(db, distance, seed, t, k) {
        assert k < rounds - 1 ==> StepAt(db, distance, seed, was, k);
      }
    }
  }

  lemma AroundGrows(db: Db, distance: nat, ids: set<int>)
    requires ids <= db.phash.Keys
    ensures ids <= Around(db, distance, ids) <= db.phash.Keys
  {
    forall id | id in ids ensures id in Around(db, distance, ids) {
      NearItself(db.phash[id], distance);
    }
  }

  lemma NextGrows(db: Db, distance: nat, seed: Scene, few: set<int>, many: set<int>)
    requires few <= many <= db.phash.Keys
    ensures few <= Next(db, distance, seed, few) <= Next(db, distance, seed, many) <= db.phash.Keys
    ensures ScenesAround(db, distance, seed, few) <= ScenesAround(db, distance, seed, many)
  {
    AroundGrows(db, distance, few);
    assert Around(db, distance, few) <= Around(db, distance, many);
  }

  lemma TrackStep(db: Db, distance: nat, seed: Scene, t: Track, k: nat)
    requires IsTrack(db, distance, seed, t) && k + 1 < |t.levels| && t.levels[k] <= db.phash.Keys
    requires if k == 0 then t.scenes[k] == {seed} else t.levels[k - 1] <= t.levels[k]
    ensures t.levels[k] <= t.levels[k + 1] <= db.phash.Keys && t.scenes[k] <= t.scenes[k + 1]
  {
    assert StepAt(db, distance, seed, t, k);
    NextGrows(db, distance, seed, t.levels[k], t.levels[k]);
    if k > 0 {
      assert StepAt(db, distance, seed, t, k - 1);
      NextGrows(db, distance, seed, t.levels[k - 1], t.levels[k]);
    }
  }

  lemma {:induction false} TrackGrows(db: Db, distance: nat, seed: Scene, t: Track, j: nat, k: nat)
    requires IsTrack(db, distance, seed, t) && j <= k < |t.levels|
    ensures t.levels[j] <= t.levels[k] <= db.phash.Keys && t.scenes[j] <= t.scenes[k]
    decreases k, j
  {
    if k > 0 {
      TrackGrows(db, distance, seed, t, if j < k then j else k - 1, k - 1);
      if k > 1 {
        TrackGrows(db, distance, seed, t, k - 2, k - 1);
      }
      TrackStep(db, distance, seed, t, k - 1);
    }
  }

  /** Once a round finds nothing new, no later one does. */
  lemma {:induction false} TrackSettles(db: Db, distance: nat, seed: Scene, t: Track, settled: nat, k: nat)
    requires IsTrack(db, distance, seed, t) && 0 < settled <= k < |t.levels| && t.levels[settled] == t.levels[settled - 1]
    ensures t.levels[k] == t.levels[settled] == t.levels[k - 1] && t.scenes[k] == t.scenes[settled]
    decreases k
  {
    if settled < k {
      TrackSettles(db, distance, seed, t, settled, k - 1);
      assert StepAt(db, distance, seed, t, k - 1) && StepAt(db, distance, seed, t, k - 2);
    }
  }

  // ----- the search

  /** Everything found so far is reachable and carries its own hash. */
  ghost predicate Sound(db: Db, distance: nat, seed: Scene, members: map<int, Hash>, scenes: set<Scene>) {
    && seed in scenes
    && (forall id :: id in members ==> id in db.phash && members[id] == db.phash[id] && Reachable(db, distance, seed, id))
    && (forall s :: s in scenes ==> SceneReached(db, distance, seed, s))
  }

  /** This member's neighbours and scenes have been taken in. */
  ghost predicate Processed(db: Db, distance: nat, members: map<int, Hash>, scenes: set<Scene>, id: int)
    requires id in db.phash
  {
    && (forall n :: n in db.phash && Near(db.phash[id], db.phash[n], distance) ==> n in members)
    && (forall s :: (id, s) in db.on ==> s in scenes)
  }

  /** Until a cap is hit, a member is processed or waits in the frontier, and the scenes' hashes are all members. */
  ghost predicate Complete(db: Db, distance: nat, members: map<int, Hash>, scenes: set<Scene>, frontier: seq<Hash>) {
    && (forall id :: id in members && id in db.phash ==> db.phash[id] in frontier || Processed(db, distance, members, scenes, id))
    && PhashesOn(db, scenes) <= members.Keys
  }

  lemma {:induction false} PathStaysInside(db: Db, distance: nat, seed: Scene, members: map<int, Hash>, scenes: set<Scene>, p: seq<int>)
    requires Sound(db, distance, seed, members, scenes) && Complete(db, distance, members, scenes, [])
    requires IsPath(db, distance, p) && p[0] in PhashesOn(db, {seed})
    ensures p[|p| - 1] in members
    decreases |p|
  {
    if |p| == 1 {
      assert p[0] in PhashesOn(db, scenes);
    } else {
      var q := p[..|p| - 1];
      PathStaysInside(db, distance, seed, members, scenes, q);
      var a, b := p[|p| - 2], p[|p| - 1];
      assert Linked(db, distance, a, b) && Processed(db, distance, members, scenes, a);
      if !Near(db.phash[a], db.phash[b], distance) {
        var s :| (a, s) in db.on && (b, s) in db.on;
        assert b in PhashesOn(db, scenes);
      }
    }
  }

  /** An empty frontier without a cap means that everything reachable has been found. */
  lemma EmptyFrontierIsClosure(db: Db, distance: nat, seed: Scene, members: map<int, Hash>, scenes: set<Scene>, id: int)
    requires Sound(db, distance, seed, members, scenes) && Complete(db, distance, members, scenes, [])
    ensures id in members <==> Reachable(db, distance, seed, id)
  {
    if Reachable(db, distance, seed, id) {
      var p :| IsPath(db, distance, p) && p[0] in PhashesOn(db, {seed}) && p[|p| - 1] == id;
      PathStaysInside(db, distance, seed, members, scenes, p);
    }
  }

  /** The hash-adjacency probe in batches of at most BATCH_SIZE. */
  method Probe(db: Db, frontier: seq<Hash>, distance: nat) returns (candidates: set<int>)
    ensures candidates == Neighbors(db, frontier, distance)
  {
    candidates := {};
    var start := 0;
    assert frontier[..0] == [];
    while start < |frontier|
      invariant 0 <= start <= |frontier|
      invariant candidates == Neighbors(db, frontier[..start], distance)
    {
      var end := if start + BATCH_SIZE > |frontier| then |frontier| else start + BATCH_SIZE;
      assert frontier[..end] == frontier[..start] + frontier[start..end];
      candidates := candidates + Neighbors(db, frontier[start..end], distance);
      start := end;
    }
    assert frontier[..start] == frontier;
  }

  ghost predicate HashesOf(db: Db, members: map<int, Hash>) {
    forall id :: id in members ==> id in db.phash && members[id] == db.phash[id]
  }

  /** `more` has the hash of every member that is new. */
  ghost predicate Covers(db: Db, members: map<int, Hash>, all: map<int, Hash>, more: seq<Hash>) {
    forall id :: id in all && id !in members ==> id in db.phash && db.phash[id] in more
  }

  /** The frontier holds hashes of members. */
  ghost predicate FromMembers(members: map<int, Hash>, frontier: seq<Hash>) {
    forall h :: h in frontier ==> Carried(members, h)
  }

  ghost predicate Carried(members: map<int, Hash>, h: Hash) {
    exists id :: id in members && members[id] == h
  }

  lemma StillCarried(few: map<int, Hash>, many: map<int, Hash>, frontier: seq<Hash>)
    requires FromMembers(few, frontier) && forall id :: id in few ==> id in many && many[id] == few[id]
    ensures FromMembers(many, frontier)
  {
    forall h | h in frontier ensures Carried(many, h) {
      assert Carried(few, h);
      var id :| id in few && few[id] == h;
      assert many[id] == h;
    }
  }

  lemma AdmitOne(db: Db, members: map<int, Hash>, all: map<int, Hash>, more: seq<Hash>, id: int)
    requires HashesOf(db, all) && Covers(db, members, all, more) && FromMembers(all, more)
    requires id in db.phash && id !in all
    ensures var next, hashes := all[id := db.phash[id]], more + [db.phash[id]];
            HashesOf(db, next) && Covers(db, members, next, hashes) && FromMembers(next, hashes)
            && next.Keys == all.Keys + {id} && |next| == |all| + 1
  {
    var next, hashes := all[id := db.phash[id]], more + [db.phash[id]];
    StillCarried(all, next, more);
    assert next[id] == db.phash[id] && Carried(next, db.phash[id]);
    assert next.Keys == all.Keys + {id};
    assert |next.Keys| == |all.Keys| + 1;
    forall i | i in next && i !in members ensures i in db.phash && db.phash[i] in hashes {
      if i != id {
        assert db.phash[i] in more;
      }
    }
  }

  /**
   Take new ids in, one by one in no particular order, until there are MAX_MEMBERS members. `more` collects the hashes that
   are new.
   */
  method Admit(db: Db, members: map<int, Hash>, ids: set<int>) returns (all: map<int, Hash>, more: seq<Hash>, capHit: bool)
    requires HashesOf(db, members) && ids <= db.phash.Keys
    ensures HashesOf(db, all) && Covers(db, members, all, more) && FromMembers(all, more)
    ensures members.Keys <= all.Keys <= members.Keys + ids && |more| == |all| - |members|
    ensures if capHit then |all| >= MAX_MEMBERS && !(ids <= all.Keys) else ids <= all.Keys
    ensures |all| <= MAX_MEMBERS || all == members
  {
    all, more, capHit := members, [], false;
    var rest := ids;
    while rest != {}
      invariant rest <= ids && !capHit
      invariant HashesOf(db, all) && Covers(db, members, all, more) && FromMembers(all, more)
      invariant members.Keys <= all.Keys <= members.Keys + ids && |more| == |all| - |members|
      invariant ids <= all.Keys + rest
      invariant |all| <= MAX_MEMBERS || all == members
      decreases |rest|
    {
      assert (forall x :: x !in rest) ==> rest == {};
      var id :| id in rest;
      rest := rest - {id};
      if id !in all {
        if |all| >= MAX_MEMBERS {
          return all, more, true;
        }
        AdmitOne(db, members, all, more, id);
        all := all[id := db.phash[id]];
        more := more + [db.phash[id]];
      }
    }
  }

  /** One round finds only what is reachable. */
  lemma RoundIsSound(db: Db, distance: nat, seed: Scene, members: map<int, Hash>, scenes: set<Scene>, frontier: seq<Hash>)
    requires Sound(db, distance, seed, members, scenes)
    requires FromMembers(members, frontier)
    ensures forall id :: id in Neighbors(db, frontier, distance) ==> Reachable(db, distance, seed, id)
    ensures forall s :: s in ScenesOf(db, Neighbors(db, frontier, distance)) ==> SceneReached(db, distance, seed, s)
  {
    forall id | id in Neighbors(db, frontier, distance) ensures Reachable(db, distance, seed, id) {
      var h :| h in frontier && Near(h, db.phash[id], distance);
      assert Carried(members, h);
      var a :| a in members && members[a] == h;
      ReachableOn(db, distance, seed, a, id);
    }
    forall s | s in ScenesOf(db, Neighbors(db, frontier, distance)) ensures SceneReached(db, distance, seed, s) {
      var r :| r in db.on && r.0 in Neighbors(db, frontier, distance) && r.1 == s;
      assert r.0 in db.phash && (r.0, s) in db.on && Reachable(db, distance, seed, r.0);
    }
  }

  /** One round without a cap processes the whole frontier. */
  lemma RoundIsComplete(db: Db, distance: nat, members: map<int, Hash>, scenes: set<Scene>, frontier: seq<Hash>,
                        members': map<int, Hash>, scenes': set<Scene>, frontier': seq<Hash>)
    requires HashesOf(db, members) && Complete(db, distance, members, scenes, frontier)
    requires members.Keys <= members'.Keys && scenes <= scenes'
    requires Neighbors(db, frontier, distance) <= members'.Keys && ScenesOf(db, Neighbors(db, frontier, distance)) <= scenes'
    requires PhashesOn(db, scenes') <= members'.Keys
    requires Covers(db, members, members', frontier')
    ensures Complete(db, distance, members', scenes', frontier')
  {
    forall id | id in members' && id in db.phash
      ensures db.phash[id] in frontier' || Processed(db, distance, members', scenes', id)
    {
      if id in members {
        if db.phash[id] in frontier {
          NearItself(db.phash[id], distance);
          assert id in Neighbors(db, frontier, distance);
          forall n | n in db.phash && Near(db.phash[id], db.phash[n], distance) ensures n in members' {
            assert n in Neighbors(db, frontier, distance);
          }
          forall s | (id, s) in db.on ensures s in scenes' {
            assert (id, s).1 in ScenesOf(db, Neighbors(db, frontier, distance));
          }
        } else {
          assert Processed(db, distance, members, scenes, id);
        }
      }
    }
  }

  lemma AdmittedAreReachable(db: Db, distance: nat, seed: Scene, members: map<int, Hash>, scenes: set<Scene>, ids: set<int>,
                             all: map<int, Hash>)
    requires Sound(db, distance, seed, members, scenes) && HashesOf(db, all)
    requires forall id :: id in all ==> id in members || id in ids
    requires forall id :: id in ids ==> Reachable(db, distance, seed, id)
    requires HashesOf(db, members)
    ensures Sound(db, distance, seed, all, scenes)
  {
  }

  /** Steps 1 and 2 of a round: the candidates, and the scenes they bring, unless those are too many. */
  method Candidates(db: Db, ghost seed: Scene, ghost members: map<int, Hash>, scenes: set<Scene>, frontier: seq<Hash>, distance: nat)
    returns (acceptable: set<int>, reached: set<Scene>, capHit: bool)
    requires Sound(db, distance, seed, members, scenes) && FromMembers(members, frontier)
    ensures acceptable <= Neighbors(db, frontier, distance) <= db.phash.Keys
    ensures forall id :: id in acceptable ==> Reachable(db, distance, seed, id)
    ensures scenes <= reached && forall s :: s in reached ==> SceneReached(db, distance, seed, s)
    ensures capHit <==> |scenes + ScenesOf(db, Neighbors(db, frontier, distance))| > MAX_SCENES
    ensures !capHit ==> acceptable == Neighbors(db, frontier, distance) && reached == scenes + ScenesOf(db, acceptable)
    ensures |reached| <= MAX_SCENES || reached == scenes
  {
    var candidates := Probe(db, frontier, distance);
    RoundIsSound(db, distance, seed, members, scenes, frontier);
    var newScenes := ScenesOf(db, candidates) - scenes;
    assert scenes + newScenes == scenes + ScenesOf(db, candidates);
    if |scenes| + |newScenes| > MAX_SCENES {
      acceptable := set id | id in candidates && exists s :: s in scenes && (id, s) in db.on;
      reached, capHit := scenes, true;
    } else {
      acceptable, reached, capHit := candidates, scenes + newScenes, false;
    }
  }

  lemma AllCoMembersReachable(db: Db, distance: nat, seed: Scene, scenes: set<Scene>)
    requires forall s :: s in scenes ==> SceneReached(db, distance, seed, s)
    ensures forall id :: id in PhashesOn(db, scenes) ==> Reachable(db, distance, seed, id)
  {
    forall id | id in PhashesOn(db, scenes) ensures Reachable(db, distance, seed, id) {
      CoMembersReachable(db, distance, seed, scenes, id);
    }
  }

  lemma ReachedScenesAreSound(db: Db, distance: nat, seed: Scene, members: map<int, Hash>, scenes: set<Scene>, reached: set<Scene>)
    requires Sound(db, distance, seed, members, scenes) && scenes <= reached
    requires forall s :: s in reached ==> SceneReached(db, distance, seed, s)
    ensures Sound(db, distance, seed, members, reached)
  {
  }

  /** Step 3: the other hashes of every scene reached join. */
  method CoMembers(db: Db, ghost seed: Scene, members: map<int, Hash>, scenes: set<Scene>, frontier: seq<Hash>, ghost distance: nat)
    returns (members': map<int, Hash>, frontier': seq<Hash>, capHit: bool)
    requires Sound(db, distance, seed, members, scenes) && FromMembers(members, frontier)
    ensures Sound(db, distance, seed, members', scenes) && FromMembers(members', frontier')
    ensures members.Keys <= members'.Keys && (|members'| <= MAX_MEMBERS || members' == members)
    ensures Covers(db, members, members', frontier') && frontier <= frontier'
    ensures members'.Keys <= members.Keys + PhashesOn(db, scenes) && |frontier'| - |frontier| == |members'| - |members|
    ensures if capHit then |members'| >= MAX_MEMBERS && !(PhashesOn(db, scenes) <= members'.Keys) else PhashesOn(db, scenes) <= members'.Keys
  {
    var more;
    members', more, capHit := Admit(db, members, PhashesOn(db, scenes));
    AllCoMembersReachable(db, distance, seed, scenes);
    AdmittedAreReachable(db, distance, seed, members, scenes, PhashesOn(db, scenes), members');
    StillCarried(members, members', frontier);
    frontier' := frontier + more;
  }

  lemma CoversBoth(db: Db, first: map<int, Hash>, second: map<int, Hash>, third: map<int, Hash>, few: seq<Hash>, many: seq<Hash>)
    requires Covers(db, first, second, few) && Covers(db, second, third, many) && few <= many
    ensures Covers(db, first, third, many)
  {
    forall id | id in third && id !in first ensures id in db.phash && db.phash[id] in many {
      if id in second {
        assert db.phash[id] in few;
      }
    }
  }

  /** What a round finds, and when it meets a cap. */
  ghost predicate RoundRan(db: Db, distance: nat, members: map<int, Hash>, scenes: set<Scene>, frontier: seq<Hash>,
                           members': map<int, Hash>, scenes': set<Scene>, frontier': seq<Hash>, sceneCapHit: bool, memberCapHit: bool)
  {
    var near := Neighbors(db, frontier, distance);
    && (sceneCapHit <==> |scenes + ScenesOf(db, near)| > MAX_SCENES)
    && (!sceneCapHit ==>
          var found := near + PhashesOn(db, scenes');
          && scenes' == scenes + ScenesOf(db, near)
          && (memberCapHit ==> |members'| >= MAX_MEMBERS && members.Keys <= members'.Keys <= members.Keys + found && !(found <= members'.Keys))
          && (!memberCapHit ==> members'.Keys == members.Keys + found && |frontier'| == |members'| - |members|))
  }

  /** One round: candidates, then the other hashes of every scene reached. */
  method Round(db: Db, ghost seed: Scene, members: map<int, Hash>, scenes: set<Scene>, frontier: seq<Hash>, distance: nat)
    returns (members': map<int, Hash>, scenes': set<Scene>, frontier': seq<Hash>, sceneCapHit: bool, memberCapHit: bool)
    requires Sound(db, distance, seed, members, scenes) && FromMembers(members, frontier)
    ensures Sound(db, distance, seed, members', scenes') && FromMembers(members', frontier')
    ensures members.Keys <= members'.Keys && (|members'| <= MAX_MEMBERS || members' == members)
    ensures |scenes'| <= MAX_SCENES || scenes' == scenes
    ensures RoundRan(db, distance, members, scenes, frontier, members', scenes', frontier', sceneCapHit, memberCapHit)
    ensures !sceneCapHit && !memberCapHit ==> Covers(db, members, members', frontier')
  {
    var acceptable;
    acceptable, scenes', sceneCapHit := Candidates(db, seed, members, scenes, frontier, distance);
    members', frontier', memberCapHit := Admit(db, members, acceptable);
    ReachedScenesAreSound(db, distance, seed, members, scenes, scenes');
    AdmittedAreReachable(db, distance, seed, members, scenes', acceptable, members');
    ghost var co := PhashesOn(db, scenes');
    if !memberCapHit {
      ghost var halfway, few := members', frontier';
      members', frontier', memberCapHit := CoMembers(db, seed, members', scenes', frontier', distance);
      CoversBoth(db, members, halfway, members', few, frontier');
      FoundInTwo(members.Keys, acceptable, co, halfway.Keys, members'.Keys, memberCapHit);
    }
  }

  lemma FoundInTwo(members: set<int>, first: set<int>, second: set<int>, halfway: set<int>, all: set<int>, capHit: bool)
    requires members <= halfway <= members + first && first <= halfway <= all <= halfway + second
    requires if capHit then !(second <= all) else second <= all
    ensures members <= all <= members + (first + second)
    ensures if capHit then !(first + second <= all) else all == members + (first + second)
  {
  }

  /** Without a cap so far, the search is on its track. */
  ghost predicate AtLevel(db: Db, distance: nat, t: Track, members: map<int, Hash>, scenes: set<Scene>, frontier: seq<Hash>, rounds: nat)
    requires rounds < |t.levels| == |t.scenes|
  {
    && HashesOf(db, members) && Complete(db, distance, members, scenes, frontier) && FromMembers(members, frontier)
    && members.Keys == t.levels[rounds] && scenes == t.scenes[rounds]
  }

  /** The frontier's neighbours are what the members' neighbours add. */
  lemma NeighborsOfAll(db: Db, distance: nat, members: map<int, Hash>, scenes: set<Scene>, frontier: seq<Hash>)
    requires HashesOf(db, members) && Complete(db, distance, members, scenes, frontier) && FromMembers(members, frontier)
    ensures members.Keys + Neighbors(db, frontier, distance) == Around(db, distance, members.Keys)
  {
    var near, around := Neighbors(db, frontier, distance), Around(db, distance, members.Keys);
    forall id | id in members.Keys ensures id in db.phash.Keys {
      assert id in members;
    }
    AroundGrows(db, distance, members.Keys);
    forall n | n in near ensures n in around {
      var h :| h in frontier && Near(h, db.phash[n], distance);
      assert Carried(members, h);
    }
    forall n | n in around ensures n in members.Keys + near {
      var id :| id in members && id in db.phash && Near(db.phash[id], db.phash[n], distance);
      assert db.phash[id] in frontier || Processed(db, distance, members, scenes, id);
    }
  }

  lemma ScenesOfAll(db: Db, distance: nat, members: map<int, Hash>, scenes: set<Scene>, frontier: seq<Hash>)
    requires HashesOf(db, members) && Complete(db, distance, members, scenes, frontier) && FromMembers(members, frontier)
    ensures ScenesOf(db, Neighbors(db, frontier, distance)) <= ScenesOf(db, Around(db, distance, members.Keys))
            <= scenes + ScenesOf(db, Neighbors(db, frontier, distance))
  {
    var near, around := Neighbors(db, frontier, distance), Around(db, distance, members.Keys);
    NeighborsOfAll(db, distance, members, scenes, frontier);
    forall s | s in ScenesOf(db, around) ensures s in scenes + ScenesOf(db, near) {
      var r :| r in db.on && r.0 in around && r.1 == s;
      if r.0 !in near {
        InFrontierIsNear(db, distance, frontier, r.0);
        assert Processed(db, distance, members, scenes, r.0) && (r.0, s) in db.on;
      }
    }
  }

  lemma InFrontierIsNear(db: Db, distance: nat, frontier: seq<Hash>, id: int)
    requires id in db.phash
    ensures db.phash[id] in frontier ==> id in Neighbors(db, frontier, distance)
  {
    NearItself(db.phash[id], distance);
  }

  lemma OnTheTrack(db: Db, distance: nat, seed: Scene, t: Track, members: map<int, Hash>, scenes: set<Scene>, frontier: seq<Hash>, k: nat)
    requires IsTrack(db, distance, seed, t) && k + 1 < |t.levels| && AtLevel(db, distance, t, members, scenes, frontier, k)
    ensures t.scenes[k + 1] == scenes + ScenesOf(db, Neighbors(db, frontier, distance))
    ensures t.levels[k + 1] == members.Keys + (Neighbors(db, frontier, distance) + PhashesOn(db, t.scenes[k + 1]))
  {
    NeighborsOfAll(db, distance, members, scenes, frontier);
    ScenesOfAll(db, distance, members, scenes, frontier);
    TrackGrows(db, distance, seed, t, k, k + 1);
    TrackGrows(db, distance, seed, t, 0, k);
    assert StepAt(db, distance, seed, t, k);
    var near, around := Neighbors(db, frontier, distance), Around(db, distance, members.Keys);
    Whole(t.scenes[0], t.scenes[k], ScenesOf(db, near), ScenesOf(db, around), t.scenes[k + 1]);
  }

  lemma Whole<T>(seed: set<T>, scenes: set<T>, few: set<T>, many: set<T>, all: set<T>)
    requires seed <= scenes <= all == seed + many && few <= many <= scenes + few
    ensures all == scenes + few
  {
  }

  /** Either the next level is reached, or a cap is over at the next level. */
  lemma NextLevel(db: Db, distance: nat, t: Track, members: map<int, Hash>, scenes: set<Scene>, frontier: seq<Hash>, k: nat,
                  members': map<int, Hash>, scenes': set<Scene>, frontier': seq<Hash>, sceneCapHit: bool, memberCapHit: bool)
    requires k + 1 < |t.levels| == |t.scenes| && t.levels[k] == members.Keys
    requires t.scenes[k + 1] == scenes + ScenesOf(db, Neighbors(db, frontier, distance))
    requires t.levels[k + 1] == members.Keys + (Neighbors(db, frontier, distance) + PhashesOn(db, t.scenes[k + 1]))
    requires RoundRan(db, distance, members, scenes, frontier, members', scenes', frontier', sceneCapHit, memberCapHit)
    ensures sceneCapHit <==> |t.scenes[k + 1]| > MAX_SCENES
    ensures !sceneCapHit && memberCapHit ==> |t.levels[k + 1]| > MAX_MEMBERS && t.levels[k + 1] != t.levels[k]
    ensures !sceneCapHit && !memberCapHit ==>
              members'.Keys == t.levels[k + 1] && scenes' == t.scenes[k + 1] && (frontier' == [] <==> t.levels[k + 1] == t.levels[k])
  {
    if !sceneCapHit {
      assert |members'.Keys| == |members'| && |members.Keys| == |members|;
      if memberCapHit {
        Smaller(members'.Keys, t.levels[k + 1]);
      } else if members'.Keys != members.Keys {
        Smaller(members.Keys, members'.Keys);
      }
    }
  }

  lemma Smaller(few: set<int>, many: set<int>)
    requires few <= many && few != many
    ensures |few| < |many|
  {
    assert |many - few| > 0;
    assert few + (many - few) == many;
  }

  lemma AtMost(few: set<int>, many: set<int>)
    requires few <= many
    ensures |few| <= |many|
  {
    assert few + (many - few) == many;
  }

  /** A cap met on the way shows at the end. */
  lemma CapShows(db: Db, distance: nat, seed: Scene, t: Track, k: nat)
    requires IsTrack(db, distance, seed, t) && |t.levels| == MAX_ROUNDS + 1 && 0 < k <= MAX_ROUNDS
    requires |t.scenes[k]| > MAX_SCENES || (|t.levels[k]| > MAX_MEMBERS && t.levels[k] != t.levels[k - 1])
    ensures OverCaps(t)
  {
    TrackGrows(db, distance, seed, t, k, MAX_ROUNDS);
    TrackGrows(db, distance, seed, t, 0, k - 1);
    TrackGrows(db, distance, seed, t, k - 1, k);
    AtMost(t.scenes[k], t.scenes[MAX_ROUNDS]);
    AtMost(t.levels[k], t.levels[MAX_ROUNDS]);
  }

  /** A search that runs dry without a cap was not over any. */
  lemma DryIsNotOver(db: Db, distance: nat, seed: Scene, t: Track, k: nat)
    requires IsTrack(db, distance, seed, t) && |t.levels| == MAX_ROUNDS + 1 && k <= MAX_ROUNDS
    requires if k == 0 then t.levels[0] == {} else t.levels[k] == t.levels[k - 1]
    requires |t.scenes[k]| <= MAX_SCENES && (|t.levels[k]| <= MAX_MEMBERS || t.levels[k] == t.levels[0])
    ensures !OverCaps(t)
  {
    if k == 0 {
      NothingFromNothing(db, distance, seed, t);
      TrackSettles(db, distance, seed, t, 1, MAX_ROUNDS);
    } else {
      TrackSettles(db, distance, seed, t, k, MAX_ROUNDS);
    }
  }

  lemma NothingFromNothing(db: Db, distance: nat, seed: Scene, t: Track)
    requires IsTrack(db, distance, seed, t) && |t.levels| > 1 && t.levels[0] == {}
    ensures t.levels[1] == {} && t.scenes[1] == {seed}
  {
    assert StepAt(db, distance, seed, t, 0);
    assert Around(db, distance, {}) == {} && ScenesOf(db, {}) == {};
    assert {seed} + {} == {seed};
  }

  lemma NoSeedsNotOver(db: Db, distance: nat, seed: Scene)
    requires PhashesOn(db, {seed}) == {}
    ensures !OverCaps(TrackFrom(db, distance, seed, MAX_ROUNDS))
  {
    var t := TrackFrom(db, distance, seed, MAX_ROUNDS);
    TrackIsTrack(db, distance, seed, MAX_ROUNDS);
    DryIsNotOver(db, distance, seed, t, 0);
  }

  /** The invariant of the search: sound and within the caps, and on its track until a cap is over. */
  ghost predicate OnTrack(db: Db, distance: nat, seed: Scene, t: Track, members: map<int, Hash>, scenes: set<Scene>, frontier: seq<Hash>,
                          iter: nat, capHit: bool)
    requires iter < |t.levels| == |t.scenes| == MAX_ROUNDS + 1
  {
    && Sound(db, distance, seed, members, scenes) && FromMembers(members, frontier) && |scenes| <= MAX_SCENES
    && t.levels[0] <= members.Keys && (|members| <= MAX_MEMBERS || members.Keys == t.levels[0])
    && if capHit then OverCaps(t)
       else
         && AtLevel(db, distance, t, members, scenes, frontier, iter)
         && (frontier == [] <==> if iter == 0 then t.levels[0] == {} else t.levels[iter] == t.levels[iter - 1])
  }

  /** A round of the loop, with what was hit before it. */
  method TrackedRound(db: Db, ghost seed: Scene, ghost t: Track, members: map<int, Hash>, scenes: set<Scene>, frontier: seq<Hash>,
                      distance: nat, ghost iter: nat, hitBefore: bool)
    returns (members': map<int, Hash>, scenes': set<Scene>, frontier': seq<Hash>, sceneCapHit: bool, memberCapHit: bool)
    requires IsTrack(db, distance, seed, t) && iter < MAX_ROUNDS && |t.levels| == MAX_ROUNDS + 1
    requires OnTrack(db, distance, seed, t, members, scenes, frontier, iter, hitBefore)
    ensures OnTrack(db, distance, seed, t, members', scenes', frontier', iter + 1, sceneCapHit || memberCapHit)
    ensures hitBefore ==> sceneCapHit
  {
    var hit;
    members', scenes', frontier', hit, memberCapHit := Round(db, seed, members, scenes, frontier, distance);
    sceneCapHit := hitBefore || hit;
    if !hitBefore {
      RoundStaysOnTrack(db, distance, seed, t, members, scenes, frontier, iter, members', scenes', frontier', hit, memberCapHit);
    }
  }

  lemma RoundStaysOnTrack(db: Db, distance: nat, seed: Scene, t: Track, members: map<int, Hash>, scenes: set<Scene>, frontier: seq<Hash>,
                          k: nat, members': map<int, Hash>, scenes': set<Scene>, frontier': seq<Hash>, sceneCapHit: bool, memberCapHit: bool)
    requires IsTrack(db, distance, seed, t) && k < MAX_ROUNDS && |t.levels| == MAX_ROUNDS + 1
    requires AtLevel(db, distance, t, members, scenes, frontier, k)
    requires RoundRan(db, distance, members, scenes, frontier, members', scenes', frontier', sceneCapHit, memberCapHit)
    requires !sceneCapHit && !memberCapHit ==> Covers(db, members, members', frontier')
    requires HashesOf(db, members') && FromMembers(members', frontier') && members.Keys <= members'.Keys
    ensures sceneCapHit || memberCapHit ==> OverCaps(t)
    ensures !sceneCapHit && !memberCapHit ==>
              AtLevel(db, distance, t, members', scenes', frontier', k + 1) && (frontier' == [] <==> t.levels[k + 1] == t.levels[k])
  {
    OnTheTrack(db, distance, seed, t, members, scenes, frontier, k);
    NextLevel(db, distance, t, members, scenes, frontier, k, members', scenes', frontier', sceneCapHit, memberCapHit);
    if sceneCapHit || memberCapHit {
      CapShows(db, distance, seed, t, k + 1);
    } else {
      RoundIsComplete(db, distance, members, scenes, frontier, members', scenes', frontier');
    }
  }

  /**
   expandClosure. Whatever the caps do, only hashes reachable from the seed scene are returned, the scene's own among them,
   each with its own value. The result is marked as truncated exactly when the hashes and scenes around the seed are over the
   caps; when it is not, all reachable hashes are there.
   */
  method ExpandClosure(db: Db, seed: Scene, seedIds: seq<int>, seedHashes: seq<Hash>, distance: nat)
    returns (members: map<int, Hash>, truncated: bool)
    requires |seedIds| == |seedHashes| && (set id | id in seedIds) == PhashesOn(db, {seed})
    requires forall i :: 0 <= i < |seedIds| ==> seedIds[i] in db.phash && seedHashes[i] == db.phash[seedIds[i]]
    ensures HashesOf(db, members) && PhashesOn(db, {seed}) <= members.Keys
    ensures forall id :: id in members ==> Reachable(db, distance, seed, id)
    ensures truncated <==> OverCaps(TrackFrom(db, distance, seed, MAX_ROUNDS))
    ensures !truncated ==> forall id :: Reachable(db, distance, seed, id) ==> id in members
    ensures |members| <= MAX_MEMBERS || members.Keys == PhashesOn(db, {seed})
  {
    ghost var t := TrackFrom(db, distance, seed, MAX_ROUNDS);
    TrackIsTrack(db, distance, seed, MAX_ROUNDS);
    members, truncated := Search(db, seed, seedIds, seedHashes, distance, t);
  }

  lemma StartsOnTrack(db: Db, distance: nat, seed: Scene, t: Track, members: map<int, Hash>, frontier: seq<Hash>)
    requires IsTrack(db, distance, seed, t) && |t.levels| == MAX_ROUNDS + 1
    requires Sound(db, distance, seed, members, {seed}) && Complete(db, distance, members, {seed}, frontier)
    requires FromMembers(members, frontier) && members.Keys == t.levels[0]
    requires frontier == [] <==> t.levels[0] == {}
    ensures OnTrack(db, distance, seed, t, members, {seed}, frontier, 0, false)
  {
  }

  method Search(db: Db, seed: Scene, seedIds: seq<int>, seedHashes: seq<Hash>, distance: nat, ghost t: Track)
    returns (members: map<int, Hash>, truncated: bool)
    requires IsTrack(db, distance, seed, t) && |t.levels| == MAX_ROUNDS + 1
    requires |seedIds| == |seedHashes| && (set id | id in seedIds) == t.levels[0]
    requires forall i :: 0 <= i < |seedIds| ==> seedIds[i] in db.phash && seedHashes[i] == db.phash[seedIds[i]]
    ensures HashesOf(db, members) && t.levels[0] <= members.Keys
    ensures forall id :: id in members ==> Reachable(db, distance, seed, id)
    ensures truncated <==> OverCaps(t)
    ensures !truncated ==> forall id :: Reachable(db, distance, seed, id) ==> id in members
    ensures |members| <= MAX_MEMBERS || members.Keys == t.levels[0]
  {
    var scenes;
    members, scenes := Start(db, seed, seedIds, seedHashes, distance, t);
    var sceneCapHit, memberCapHit := false, false;
    var frontier := seedHashes;
    var iter := 0;
    while iter < MAX_ROUNDS && |frontier| > 0 && !memberCapHit
      invariant iter <= MAX_ROUNDS && OnTrack(db, distance, seed, t, members, scenes, frontier, iter, sceneCapHit || memberCapHit)
      decreases MAX_ROUNDS - iter
    {
      members, scenes, frontier, sceneCapHit, memberCapHit :=
        TrackedRound(db, seed, t, members, scenes, frontier, distance, iter, sceneCapHit);
      iter := iter + 1;
    }
    truncated := sceneCapHit || memberCapHit || (iter == MAX_ROUNDS && |frontier| > 0);
    SearchEnds(db, distance, seed, t, members, scenes, frontier, iter, sceneCapHit || memberCapHit);
  }

  method Start(db: Db, seed: Scene, seedIds: seq<int>, seedHashes: seq<Hash>, ghost distance: nat, ghost t: Track)
    returns (members: map<int, Hash>, scenes: set<Scene>)
    requires IsTrack(db, distance, seed, t) && |t.levels| == MAX_ROUNDS + 1
    requires |seedIds| == |seedHashes| && (set id | id in seedIds) == t.levels[0]
    requires forall i :: 0 <= i < |seedIds| ==> seedIds[i] in db.phash && seedHashes[i] == db.phash[seedIds[i]]
    ensures OnTrack(db, distance, seed, t, members, scenes, seedHashes, 0, false)
  {
    members := map i | 0 <= i < |seedIds| :: seedIds[i] := seedHashes[i];
    scenes := {seed};
    StartIsComplete(db, distance, seed, seedIds, seedHashes, members);
    if seedIds != [] {
      assert seedIds[0] in t.levels[0];
    }
    assert seedIds == [] ==> t.levels[0] == {};
    StartsOnTrack(db, distance, seed, t, members, seedHashes);
  }

  /** The search ends at a cap, at the last round, or with nothing left to look at. */
  lemma SearchEnds(db: Db, distance: nat, seed: Scene, t: Track, members: map<int, Hash>, scenes: set<Scene>, frontier: seq<Hash>,
                   iter: nat, capHit: bool)
    requires IsTrack(db, distance, seed, t) && iter <= MAX_ROUNDS && |t.levels| == MAX_ROUNDS + 1
    requires OnTrack(db, distance, seed, t, members, scenes, frontier, iter, capHit)
    requires iter == MAX_ROUNDS || frontier == [] || capHit
    ensures HashesOf(db, members)
    ensures forall id :: id in members ==> Reachable(db, distance, seed, id)
    ensures OverCaps(t) <==> capHit || (iter == MAX_ROUNDS && frontier != [])
    ensures !OverCaps(t) ==> forall id :: Reachable(db, distance, seed, id) ==> id in members
  {
    if !capHit && frontier == [] {
      assert |members.Keys| == |members|;
      DryIsNotOver(db, distance, seed, t, iter);
      AllFound(db, distance, seed, members, scenes);
    }
  }

  lemma AllFound(db: Db, distance: nat, seed: Scene, members: map<int, Hash>, scenes: set<Scene>)
    requires Sound(db, distance, seed, members, scenes) && Complete(db, distance, members, scenes, [])
    ensures forall id :: Reachable(db, distance, seed, id) ==> id in members
  {
    forall id | Reachable(db, distance, seed, id) ensures id in members {
      EmptyFrontierIsClosure(db, distance, seed, members, scenes, id);
    }
  }

  lemma SeedMap(db: Db, seedIds: seq<int>, seedHashes: seq<Hash>, members: map<int, Hash>)
    requires |seedIds| == |seedHashes|
    requires forall i :: 0 <= i < |seedIds| ==> seedIds[i] in db.phash && seedHashes[i] == db.phash[seedIds[i]]
    requires members == map i | 0 <= i < |seedIds| :: seedIds[i] := seedHashes[i]
    ensures HashesOf(db, members) && FromMembers(members, seedHashes)
    ensures forall id :: id in members <==> id in seedIds
    ensures forall id :: id in members ==> db.phash[id] in seedHashes
  {
    forall i | 0 <= i < |seedIds| ensures seedIds[i] in members && members[seedIds[i]] == seedHashes[i] {}
    forall h | h in seedHashes ensures Carried(members, h) {
      var i :| 0 <= i < |seedHashes| && seedHashes[i] == h;
      assert members[seedIds[i]] == h;
    }
  }

  lemma SeedsAreSound(db: Db, distance: nat, seed: Scene, members: map<int, Hash>)
    requires HashesOf(db, members) && members.Keys == PhashesOn(db, {seed})
    ensures Sound(db, distance, seed, members, {seed})
  {
    forall id | id in members ensures Reachable(db, distance, seed, id) {
      SeedsReachable(db, distance, seed, id);
    }
  }

  lemma StartIsComplete(db: Db, distance: nat, seed: Scene, seedIds: seq<int>, seedHashes: seq<Hash>, members: map<int, Hash>)
    requires |seedIds| == |seedHashes| && (set id | id in seedIds) == PhashesOn(db, {seed})
    requires forall i :: 0 <= i < |seedIds| ==> seedIds[i] in db.phash && seedHashes[i] == db.phash[seedIds[i]]
    requires members == map i | 0 <= i < |seedIds| :: seedIds[i] := seedHashes[i]
    ensures members.Keys == PhashesOn(db, {seed})
    ensures Sound(db, distance, seed, members, {seed}) && FromMembers(members, seedHashes)
    ensures Complete(db, distance, members, {seed}, seedHashes)
  {
    SeedMap(db, seedIds, seedHashes, members);
    assert members.Keys == (set id | id in seedIds);
    SeedsAreSound(db, distance, seed, members);
  }
}
