/**
 Splitting a closure of perceptual hashes into clusters: the pairs within distance of each other, their connected
 components by union-find with path compression, and the filter that keeps the components holding a seed.
 */
module Components {

  import opened PhashClosure

  datatype Edge = Edge(a: int, b: int)

  // ----- what a component is

  predicate Adjacent(nodes: seq<int>, edges: seq<Edge>, x: int, y: int) {
    x in nodes && y in nodes && (Edge(x, y) in edges || Edge(y, x) in edges)
  }

  ghost predicate IsWalk(nodes: seq<int>, edges: seq<Edge>, p: seq<int>) {
    p != [] && forall i :: 0 <= i < |p| - 1 ==> Adjacent(nodes, edges, p[i], p[i + 1])
  }

  ghost predicate WalkBetween(nodes: seq<int>, edges: seq<Edge>, p: seq<int>, x: int, y: int) {
    IsWalk(nodes, edges, p) && p[0] == x && p[|p| - 1] == y
  }

  /** Some walk along edges between nodes leads from x to y. */
  ghost predicate Joined(nodes: seq<int>, edges: seq<Edge>, x: int, y: int) {
    exists p :: WalkBetween(nodes, edges, p, x, y)
  }

  lemma JoinedItself(nodes: seq<int>, edges: seq<Edge>, x: int)
    ensures Joined(nodes, edges, x, x)
  {
    assert WalkBetween(nodes, edges, [x], x, x);
  }

  lemma JoinedByEdge(nodes: seq<int>, edges: seq<Edge>, x: int, y: int)
    requires Adjacent(nodes, edges, x, y)
    ensures Joined(nodes, edges, x, y)
  {
    assert WalkBetween(nodes, edges, [x, y], x, y);
  }

  lemma JoinedOnward(nodes: seq<int>, edges: seq<Edge>, x: int, y: int, z: int)
    requires Joined(nodes, edges, x, y) && Joined(nodes, edges, y, z)
    ensures Joined(nodes, edges, x, z)
  {
    var p :| WalkBetween(nodes, edges, p, x, y);
    var q :| WalkBetween(nodes, edges, q, y, z);
    var r := p + q[1..];
    forall i | 0 <= i < |r| - 1 ensures Adjacent(nodes, edges, r[i], r[i + 1]) {
      if i >= |p| - 1 {
        var k := i - (|p| - 1);
        assert r[i] == q[k] && r[i + 1] == q[k + 1];
      }
    }
    assert WalkBetween(nodes, edges, r, x, z);
  }

  lemma {:induction false} JoinedBack(nodes: seq<int>, edges: seq<Edge>, p: seq<int>)
    requires IsWalk(nodes, edges, p)
    ensures Joined(nodes, edges, p[|p| - 1], p[0])
    decreases |p|
  {
    if |p| == 1 {
      JoinedItself(nodes, edges, p[0]);
    } else {
      JoinedBack(nodes, edges, p[1..]);
      assert Adjacent(nodes, edges, p[0], p[0 + 1]);
      JoinedByEdge(nodes, edges, p[1], p[0]);
      JoinedOnward(nodes, edges, p[|p| - 1], p[1], p[0]);
    }
  }

  lemma JoinedBothWays(nodes: seq<int>, edges: seq<Edge>, x: int, y: int)
    requires Joined(nodes, edges, x, y)
    ensures Joined(nodes, edges, y, x)
  {
    var p :| WalkBetween(nodes, edges, p, x, y);
    JoinedBack(nodes, edges, p);
  }

  lemma JoinedWithMore(nodes: seq<int>, edges: seq<Edge>, e: Edge, x: int, y: int)
    requires Joined(nodes, edges, x, y)
    ensures Joined(nodes, edges + [e], x, y)
  {
    var p :| WalkBetween(nodes, edges, p, x, y);
    forall i | 0 <= i < |p| - 1 ensures Adjacent(nodes, edges + [e], p[i], p[i + 1]) {
      assert Adjacent(nodes, edges, p[i], p[i + 1]);
    }
    assert WalkBetween(nodes, edges + [e], p, x, y);
  }

  // ----- labellings

  /** Nodes with one label are joined. */
  ghost predicate LabelsJoin(nodes: seq<int>, edges: seq<Edge>, root: map<int, int>) {
    forall x, y :: x in root && y in root && root[x] == root[y] ==> Joined(nodes, edges, x, y)
  }

  /** The ends of an edge between nodes have one label. */
  predicate EdgesShareLabel(edges: seq<Edge>, root: map<int, int>) {
    forall e :: e in edges && e.a in root && e.b in root ==> root[e.a] == root[e.b]
  }

  ghost predicate Labels(nodes: seq<int>, root: map<int, int>) {
    forall n :: n in root <==> n in nodes
  }

  lemma {:induction false} LabelAlongWalk(nodes: seq<int>, edges: seq<Edge>, root: map<int, int>, p: seq<int>)
    requires Labels(nodes, root) && EdgesShareLabel(edges, root)
    requires IsWalk(nodes, edges, p) && p[0] in root
    ensures p[|p| - 1] in root && root[p[|p| - 1]] == root[p[0]]
    decreases |p|
  {
    if |p| > 1 {
      assert Adjacent(nodes, edges, p[0], p[0 + 1]);
      LabelAlongWalk(nodes, edges, root, p[1..]);
    }
  }

  /** Labels that are equal along edges and only between joined nodes decide who is joined to whom. */
  lemma LabelsDecide(nodes: seq<int>, edges: seq<Edge>, root: map<int, int>, x: int, y: int)
    requires Labels(nodes, root) && EdgesShareLabel(edges, root) && LabelsJoin(nodes, edges, root)
    requires x in nodes
    ensures Joined(nodes, edges, x, y) <==> y in root && root[x] == root[y]
  {
    if Joined(nodes, edges, x, y) {
      var p :| WalkBetween(nodes, edges, p, x, y);
      LabelAlongWalk(nodes, edges, root, p);
    }
  }

  function Relabelled(root: map<int, int>, from: int, to: int): map<int, int> {
    map x | x in root :: if root[x] == from then to else root[x]
  }

  /** Giving a's class b's label is right once the edge from a to b is there. */
  lemma MergedLabelsJoin(nodes: seq<int>, edges: seq<Edge>, root: map<int, int>, e: Edge)
    requires Labels(nodes, root) && LabelsJoin(nodes, edges, root)
    requires e.a in nodes && e.b in nodes
    ensures LabelsJoin(nodes, edges + [e], Relabelled(root, root[e.a], root[e.b]))
  {
    var next, more := Relabelled(root, root[e.a], root[e.b]), edges + [e];
    forall x, y | x in next && y in next && next[x] == next[y] ensures Joined(nodes, more, x, y) {
      if root[x] == root[y] {
        JoinedWithMore(nodes, edges, e, x, y);
      } else if root[x] == root[e.a] {
        AcrossEdge(nodes, edges, e, x, y);
      } else {
        AcrossEdge(nodes, edges, e, y, x);
        JoinedBothWays(nodes, more, y, x);
      }
    }
  }

  lemma AcrossEdge(nodes: seq<int>, edges: seq<Edge>, e: Edge, x: int, y: int)
    requires e.a in nodes && e.b in nodes && Joined(nodes, edges, x, e.a) && Joined(nodes, edges, e.b, y)
    ensures Joined(nodes, edges + [e], x, y)
  {
    JoinedWithMore(nodes, edges, e, x, e.a);
    JoinedWithMore(nodes, edges, e, e.b, y);
    JoinedByEdge(nodes, edges + [e], e.a, e.b);
    JoinedOnward(nodes, edges + [e], x, e.a, e.b);
    JoinedOnward(nodes, edges + [e], x, e.b, y);
  }

  lemma SkippedEdge(nodes: seq<int>, edges: seq<Edge>, root: map<int, int>, e: Edge)
    requires LabelsJoin(nodes, edges, root)
    ensures LabelsJoin(nodes, edges + [e], root)
  {
    forall x, y | x in root && y in root && root[x] == root[y] ensures Joined(nodes, edges + [e], x, y) {
      JoinedWithMore(nodes, edges, e, x, y);
    }
  }

  // ----- union-find

  ghost predicate Forest(parent: map<int, int>, root: map<int, int>, level: map<int, nat>, top: nat) {
    && parent.Keys == root.Keys == level.Keys
    && (forall x {:trigger Placed(parent, root, level, top, x)} :: x in parent ==> Placed(parent, root, level, top, x))
  }

  /** A node's parent is in its tree, and both its parent and its root are on higher levels. */
  ghost predicate Placed(parent: map<int, int>, root: map<int, int>, level: map<int, nat>, top: nat, x: int)
    requires x in parent
  {
    && x in root && x in level && level[x] <= top
    && parent[x] in root && parent[x] in level && root[parent[x]] == root[x]
    && root[x] in root && root[x] in level && root[root[x]] == root[x]
    && (parent[x] == x <==> root[x] == x)
    && (parent[x] != x ==> level[x] < level[parent[x]] && level[x] < level[root[x]])
  }

  lemma Climb(parent: map<int, int>, root: map<int, int>, level: map<int, nat>, top: nat, x: int)
    requires Forest(parent, root, level, top) && x in parent
    ensures parent[x] in parent && x in root && root[x] in parent && root[root[x]] == root[x]
    ensures root[parent[x]] == root[x] && (parent[x] == x <==> root[x] == x)
    ensures parent[x] != x ==> level[x] < level[parent[x]] <= top
  {
    assert Placed(parent, root, level, top, x);
    assert Placed(parent, root, level, top, parent[x]);
  }

  class UnionFind {
    var parent: map<int, int>
    ghost var root: map<int, int>
    ghost var level: map<int, nat>
    ghost var top: nat

    ghost predicate Valid()
      reads this
    {
      Forest(parent, root, level, top)
    }

    constructor (nodes: seq<int>)
      ensures Valid() && Labels(nodes, root)
      ensures forall n :: n in root ==> root[n] == n
    {
      parent := map n | n in nodes :: n;
      root := map n | n in nodes :: n;
      level := map n | n in nodes :: 0;
      top := 0;
    }

    /** Finds the root, and hangs every node on the way directly under it. */
    method Find(x: int) returns (r: int)
      requires Valid() && x in parent
      modifies this`parent
      ensures Valid() && parent.Keys == old(parent.Keys)
      ensures r == root[x] && parent[x] == r
      decreases top - level[x]
    {
      Climb(parent, root, level, top, x);
      if parent[x] != x {
        var p := Find(parent[x]);
        Compress(parent, root, level, top, x);
        parent := parent[x := p];
      }
      r := parent[x];
    }

    method Union(a: int, b: int)
      requires Valid() && a in parent && b in parent
      modifies this
      ensures Valid()
      ensures root == Relabelled(old(root), old(root[a]), old(root[b]))
    {
      var ra := Find(a);
      var rb := Find(b);
      Climb(parent, root, level, top, a);
      Climb(parent, root, level, top, b);
      if ra != rb {
        Hang(parent, root, level, top, ra, rb);
        parent := parent[ra := rb];
        root := Relabelled(root, ra, rb);
        top := top + 1;
        level := level[rb := top];
      }
    }
  }

  lemma Compress(parent: map<int, int>, root: map<int, int>, level: map<int, nat>, top: nat, x: int)
    requires Forest(parent, root, level, top) && x in parent && root[x] != x
    ensures Forest(parent[x := root[x]], root, level, top)
  {
    var next := parent[x := root[x]];
    forall y | y in next ensures Placed(next, root, level, top, y) {
      assert Placed(parent, root, level, top, x) && Placed(parent, root, level, top, y);
    }
  }

  lemma Hang(parent: map<int, int>, root: map<int, int>, level: map<int, nat>, top: nat, ra: int, rb: int)
    requires Forest(parent, root, level, top) && ra in parent && rb in parent
    requires root[ra] == ra != rb == root[rb]
    ensures Forest(parent[ra := rb], Relabelled(root, ra, rb), level[rb := top + 1], top + 1)
  {
    var p, r, l := parent[ra := rb], Relabelled(root, ra, rb), level[rb := top + 1];
    forall y | y in p ensures Placed(p, r, l, top + 1, y) {
      assert Placed(parent, root, level, top, y);
      assert Placed(parent, root, level, top, ra) && Placed(parent, root, level, top, rb);
      assert Placed(parent, root, level, top, parent[y]);
    }
  }

  // ----- grouping

  predicate Increasing(s: seq<int>) {
    forall i, j :: 0 <= i < j < |s| ==> s[i] <= s[j]
  }

  function Insert(x: int, s: seq<int>): (r: seq<int>)
    ensures multiset(r) == multiset(s) + multiset{x}
  {
    if s == [] || x <= s[0] then [x] + s
    else
      assert s == [s[0]] + s[1..];
      [s[0]] + Insert(x, s[1..])
  }

  lemma InsertHas(x: int, s: seq<int>, y: int)
    requires y in Insert(x, s)
    ensures y == x || y in s
  {
    assert y in multiset(Insert(x, s));
  }

  lemma PrependIncreases(x: int, s: seq<int>)
    requires Increasing(s) && forall y :: y in s ==> x <= y
    ensures Increasing([x] + s)
  {
    var r := [x] + s;
    forall i, j | 0 <= i < j < |r| ensures r[i] <= r[j] {
      assert r[j] == s[j - 1] && s[j - 1] in s;
      assert i > 0 ==> r[i] == s[i - 1];
    }
  }

  lemma {:induction false} InsertIncreases(x: int, s: seq<int>)
    requires Increasing(s)
    ensures Increasing(Insert(x, s))
  {
    if s == [] || x <= s[0] {
      PrependIncreases(x, s);
    } else {
      InsertIncreases(x, s[1..]);
      var rest := Insert(x, s[1..]);
      forall y | y in rest ensures s[0] <= y { InsertHas(x, s[1..], y); }
      PrependIncreases(s[0], rest);
    }
  }

  /** sort.Ints. */
  function SortInts(s: seq<int>): (r: seq<int>)
    ensures Increasing(r) && multiset(r) == multiset(s)
  {
    if s == [] then []
    else
      assert s == s[..|s| - 1] + [s[|s| - 1]];
      var rest := SortInts(s[..|s| - 1]);
      InsertIncreases(s[|s| - 1], rest);
      Insert(s[|s| - 1], rest)
  }

  /** A group is a whole component, each node as often as it was given. */
  ghost predicate IsComponent(nodes: seq<int>, edges: seq<Edge>, group: seq<int>) {
    && group != [] && Increasing(group) && group[0] in nodes
    && forall n :: multiset(group)[n] == if Joined(nodes, edges, group[0], n) then multiset(nodes)[n] else 0
  }

  /** No walk leads from one group to the other. */
  ghost predicate Apart(nodes: seq<int>, edges: seq<Edge>, g: seq<int>, h: seq<int>) {
    forall x, y :: x in g && y in h ==> !Joined(nodes, edges, x, y)
  }

  /** The nodes with a given label, in order. */
  ghost function Class(nodes: seq<int>, root: map<int, int>, r: int): (c: seq<int>)
    ensures forall n :: multiset(c)[n] == if n in root && root[n] == r then multiset(nodes)[n] else 0
  {
    if nodes == [] then []
    else
      var k := |nodes| - 1;
      assert nodes == nodes[..k] + [nodes[k]];
      if nodes[k] in root && root[nodes[k]] == r then Class(nodes[..k], root, r) + [nodes[k]]
      else Class(nodes[..k], root, r)
  }

  lemma ClassIsComponent(nodes: seq<int>, edges: seq<Edge>, root: map<int, int>, r: int, group: seq<int>)
    requires Labels(nodes, root) && EdgesShareLabel(edges, root) && LabelsJoin(nodes, edges, root)
    requires Increasing(group) && group != [] && multiset(group) == multiset(Class(nodes, root, r))
    ensures IsComponent(nodes, edges, group) && root[group[0]] == r
  {
    var n := group[0];
    assert multiset(group)[n] > 0;
    assert n in root && root[n] == r;
    forall m ensures multiset(group)[m] == if Joined(nodes, edges, n, m) then multiset(nodes)[m] else 0 {
      LabelsDecide(nodes, edges, root, n, m);
    }
  }

  /** computeEdges: every pair of members within distance, once. */
  method ComputeEdges(ids: seq<int>, hashById: map<int, Hash>, distance: nat) returns (edges: seq<Edge>)
    requires forall id :: id in ids ==> id in hashById
    ensures forall x, y :: Edge(x, y) in edges <==> Pair(ids, hashById, distance, |ids|, 0, x, y)
  {
    edges := [];
    for i := 0 to |ids|
      invariant forall x, y :: Edge(x, y) in edges <==> Pair(ids, hashById, distance, i, 0, x, y)
    {
      for j := i + 1 to |ids|
        invariant forall x, y :: Edge(x, y) in edges <==> Pair(ids, hashById, distance, i, j, x, y)
      {
        var x, y := ids[i], ids[j];
        assert x in ids && y in ids;
        if Near(hashById[x], hashById[y], distance) {
          edges := edges + [Edge(x, y)];
        }
      }
    }
  }

  /** x comes before y in the list and is near it, counting rows before `row` and, in that row, columns before `column`. */
  ghost predicate Pair(ids: seq<int>, hashById: map<int, Hash>, distance: nat, row: int, column: int, x: int, y: int)
    requires forall id :: id in ids ==> id in hashById
  {
    exists i, j :: 0 <= i < j < |ids| && (i < row || (i == row && j < column)) && ids[i] == x && ids[j] == y
                   && Near(hashById[x], hashById[y], distance)
  }

  /** connectedComponents: the groups are the components, each once, and every node is in one. */
  method ConnectedComponents(nodes: seq<int>, edges: seq<Edge>) returns (out: seq<seq<int>>)
    ensures forall k :: 0 <= k < |out| ==> IsComponent(nodes, edges, out[k])
    ensures forall n :: n in nodes ==> exists k :: 0 <= k < |out| && n in out[k]
    ensures forall j, k :: 0 <= j < k < |out| ==> Apart(nodes, edges, out[j], out[k])
  {
    var forest := Unite(nodes, edges);
    var groups := Group(nodes, forest);
    ghost var roots;
    out, roots := Listed(groups);
    GroupsAreComponents(nodes, edges, forest.root, groups, roots, out);
    GroupsAreApart(nodes, edges, forest.root, groups, roots, out);
    EveryNodeIsGrouped(nodes, forest.root, groups, roots, out);
  }

  /** `out` lists the groups by root, sorted, in some order. */
  predicate Lists(groups: map<int, seq<int>>, roots: seq<int>, out: seq<seq<int>>) {
    && |roots| == |out|
    && (forall k :: 0 <= k < |out| ==> roots[k] in groups && out[k] == SortInts(groups[roots[k]]))
    && (forall j, k :: 0 <= j < k < |out| ==> roots[j] != roots[k])
  }

  method Listed(groups: map<int, seq<int>>) returns (out: seq<seq<int>>, ghost roots: seq<int>)
    ensures Lists(groups, roots, out) && forall r :: r in groups ==> r in roots
  {
    out, roots := [], [];
    var rest := groups.Keys;
    while rest != {}
      invariant Lists(groups, roots, out) && rest <= groups.Keys
      invariant forall r :: r in roots ==> r !in rest
      invariant forall r :: r in groups ==> r in rest || r in roots
      decreases |rest|
    {
      assert (forall x :: x !in rest) ==> rest == {};
      var r :| r in rest;
      rest := rest - {r};
      assert forall k :: 0 <= k < |roots| ==> roots[k] in roots;
      out, roots := out + [SortInts(groups[r])], roots + [r];
    }
  }

  ghost predicate Grouped(nodes: seq<int>, root: map<int, int>, groups: map<int, seq<int>>) {
    && (forall r :: r in groups ==> groups[r] != [] && groups[r] == Class(nodes, root, r))
    && (forall r :: r !in groups ==> Class(nodes, root, r) == [])
  }

  lemma SortedHas(s: seq<int>, n: int)
    ensures n in SortInts(s) <==> n in s
    ensures |SortInts(s)| == |s|
  {
    assert n in SortInts(s) <==> n in multiset(SortInts(s));
    assert |multiset(SortInts(s))| == |multiset(s)|;
  }

  lemma ClassHas(nodes: seq<int>, root: map<int, int>, r: int, n: int)
    ensures n in Class(nodes, root, r) <==> n in nodes && n in root && root[n] == r
  {
    assert n in Class(nodes, root, r) <==> n in multiset(Class(nodes, root, r));
    assert n in nodes <==> n in multiset(nodes);
  }

  lemma GroupsAreComponents(nodes: seq<int>, edges: seq<Edge>, root: map<int, int>, groups: map<int, seq<int>>, roots: seq<int>,
                            out: seq<seq<int>>)
    requires Labels(nodes, root) && EdgesShareLabel(edges, root) && LabelsJoin(nodes, edges, root)
    requires Grouped(nodes, root, groups) && Lists(groups, roots, out)
    ensures forall k :: 0 <= k < |out| ==> IsComponent(nodes, edges, out[k])
  {
    forall k | 0 <= k < |out| ensures IsComponent(nodes, edges, out[k]) {
      SortedHas(groups[roots[k]], 0);
      ClassIsComponent(nodes, edges, root, roots[k], out[k]);
    }
  }

  lemma GroupsAreApart(nodes: seq<int>, edges: seq<Edge>, root: map<int, int>, groups: map<int, seq<int>>, roots: seq<int>,
                       out: seq<seq<int>>)
    requires Labels(nodes, root) && EdgesShareLabel(edges, root) && LabelsJoin(nodes, edges, root)
    requires Grouped(nodes, root, groups) && Lists(groups, roots, out)
    ensures forall j, k :: 0 <= j < k < |out| ==> Apart(nodes, edges, out[j], out[k])
  {
    forall j, k, x, y | 0 <= j < k < |out| && x in out[j] && y in out[k] ensures !Joined(nodes, edges, x, y) {
      SortedHas(groups[roots[j]], x);
      SortedHas(groups[roots[k]], y);
      ClassHas(nodes, root, roots[j], x);
      ClassHas(nodes, root, roots[k], y);
      LabelsDecide(nodes, edges, root, x, y);
    }
  }

  lemma EveryNodeIsGrouped(nodes: seq<int>, root: map<int, int>, groups: map<int, seq<int>>, roots: seq<int>, out: seq<seq<int>>)
    requires Labels(nodes, root) && Grouped(nodes, root, groups) && Lists(groups, roots, out)
    requires forall r :: r in groups ==> r in roots
    ensures forall n :: n in nodes ==> exists k :: 0 <= k < |out| && n in out[k]
  {
    forall n | n in nodes ensures exists k :: 0 <= k < |out| && n in out[k] {
      ClassHas(nodes, root, root[n], n);
      assert root[n] in groups;
      var k :| 0 <= k < |roots| && roots[k] == root[n];
      ClassHas(nodes, root, roots[k], n);
      SortedHas(groups[roots[k]], n);
      assert n in out[k];
    }
  }

  /** The union of the ends of every edge whose ends are both nodes. */
  method Unite(nodes: seq<int>, edges: seq<Edge>) returns (forest: UnionFind)
    ensures fresh(forest) && forest.Valid() && Labels(nodes, forest.root)
    ensures EdgesShareLabel(edges, forest.root) && LabelsJoin(nodes, edges, forest.root)
  {
    forest := new UnionFind(nodes);
    forall n | n in nodes ensures Joined(nodes, [], n, n) { JoinedItself(nodes, [], n); }
    assert edges[..0] == [];
    for k := 0 to |edges|
      invariant forest.Valid() && Labels(nodes, forest.root)
      invariant EdgesShareLabel(edges[..k], forest.root) && LabelsJoin(nodes, edges[..k], forest.root)
    {
      var e := edges[k];
      assert edges[..k + 1] == edges[..k] + [e];
      if e.a in forest.parent && e.b in forest.parent {
        MergedLabelsJoin(nodes, edges[..k], forest.root, e);
        forest.Union(e.a, e.b);
      } else {
        SkippedEdge(nodes, edges[..k], forest.root, e);
      }
    }
    assert edges[..|edges|] == edges;
  }

  lemma ClassOneMore(nodes: seq<int>, root: map<int, int>, n: int, r: int)
    requires n in root
    ensures Class(nodes + [n], root, r) == if r == root[n] then Class(nodes, root, r) + [n] else Class(nodes, root, r)
  {
    assert (nodes + [n])[..|nodes|] == nodes;
  }

  lemma GroupOneMore(nodes: seq<int>, root: map<int, int>, groups: map<int, seq<int>>, n: int)
    requires Grouped(nodes, root, groups) && n in root
    ensures var r := root[n];
            Grouped(nodes + [n], root, groups[r := (if r in groups then groups[r] else []) + [n]])
  {
    forall r ensures Class(nodes + [n], root, r) == if r == root[n] then Class(nodes, root, r) + [n] else Class(nodes, root, r) {
      ClassOneMore(nodes, root, n, r);
    }
  }

  /** The nodes by root. */
  method Group(nodes: seq<int>, forest: UnionFind) returns (groups: map<int, seq<int>>)
    requires forest.Valid() && Labels(nodes, forest.root)
    modifies forest`parent
    ensures Grouped(nodes, forest.root, groups)
  {
    groups := map[];
    for k := 0 to |nodes|
      invariant forest.Valid()
      invariant Grouped(nodes[..k], forest.root, groups)
    {
      var r := forest.Find(nodes[k]);
      GroupOneMore(nodes[..k], forest.root, groups, nodes[k]);
      assert nodes[..k + 1] == nodes[..k] + [nodes[k]];
      groups := groups[r := (if r in groups then groups[r] else []) + [nodes[k]]];
    }
    assert nodes[..|nodes|] == nodes;
  }

  predicate HasSeed(group: seq<int>, seeds: seq<int>) {
    exists n :: n in group && n in seeds
  }

  /** No two of the groups share a member. */
  ghost predicate Disjoint(groups: seq<seq<int>>) {
    forall j, k, x :: 0 <= j < k < |groups| && x in groups[j] ==> x !in groups[k]
  }

  lemma DisjointWithNext(components: seq<seq<int>>, k: nat, kept: seq<seq<int>>)
    requires Disjoint(components) && Disjoint(kept) && k < |components| && forall g :: g in kept ==> g in components[..k]
    ensures Disjoint(kept + [components[k]])
  {
    forall j, x | 0 <= j < |kept| && x in kept[j] ensures x !in components[k] {
      assert kept[j] in kept;
      var i :| 0 <= i < k && components[..k][i] == kept[j];
      assert components[i] == kept[j];
    }
  }

  lemma ComponentsAreDisjoint(nodes: seq<int>, edges: seq<Edge>, groups: seq<seq<int>>)
    requires forall j, k :: 0 <= j < k < |groups| ==> Apart(nodes, edges, groups[j], groups[k])
    ensures Disjoint(groups)
  {
    forall j, k, x | 0 <= j < k < |groups| && x in groups[j] ensures x !in groups[k] {
      assert Apart(nodes, edges, groups[j], groups[k]);
      JoinedItself(nodes, edges, x);
    }
  }

  /** The filter over the components, in place over its own prefix in the source. */
  method KeepSeeded(components: seq<seq<int>>, seeds: seq<int>) returns (kept: seq<seq<int>>)
    ensures forall g :: g in kept <==> g in components && HasSeed(g, seeds)
    ensures Disjoint(components) ==> Disjoint(kept)
  {
    kept := [];
    for k := 0 to |components|
      invariant forall g :: g in kept <==> g in components[..k] && HasSeed(g, seeds)
      invariant Disjoint(components) ==> Disjoint(kept)
    {
      var hasSeed := false;
      var i := 0;
      while i < |components[k]| && !hasSeed
        invariant 0 <= i <= |components[k]|
        invariant hasSeed <==> exists j :: 0 <= j < i && components[k][j] in seeds
      {
        hasSeed := components[k][i] in seeds;
        i := i + 1;
      }
      if hasSeed {
        var j :| 0 <= j < i && components[k][j] in seeds;
        var n := components[k][j];
        assert n in components[k] && n in seeds;
      }
      assert hasSeed <==> HasSeed(components[k], seeds);
      assert components[..k + 1] == components[..k] + [components[k]];
      if hasSeed {
        if Disjoint(components) { DisjointWithNext(components, k, kept); }
        kept := kept + [components[k]];
      }
    }
  }

  // ----- from hashes to clusters

  predicate NearMembers(members: map<int, Hash>, distance: nat, x: int, y: int) {
    x in members && y in members && Near(members[x], members[y], distance)
  }

  /** A chain of members, each within distance of the next. */
  ghost predicate NearChain(members: map<int, Hash>, distance: nat, p: seq<int>) {
    && p != [] && p[0] in members
    && (forall i :: 0 <= i < |p| - 1 ==> NearMembers(members, distance, p[i], p[i + 1]))
  }

  ghost predicate Similar(members: map<int, Hash>, distance: nat, x: int, y: int) {
    exists p :: NearChain(members, distance, p) && p[0] == x && p[|p| - 1] == y
  }

  ghost predicate AllNearPairs(ids: seq<int>, members: map<int, Hash>, distance: nat, edges: seq<Edge>) {
    && (forall id :: id in ids <==> id in members)
    && (forall x, y :: Edge(x, y) in edges <==> Pair(ids, members, distance, |ids|, 0, x, y))
  }

  lemma AdjacentIffNear(ids: seq<int>, members: map<int, Hash>, distance: nat, edges: seq<Edge>, x: int, y: int)
    requires AllNearPairs(ids, members, distance, edges)
    ensures Adjacent(ids, edges, x, y) ==> NearMembers(members, distance, x, y)
    ensures x != y && NearMembers(members, distance, x, y) ==> Adjacent(ids, edges, x, y)
  {
    if x in members && y in members {
      NearBothWays(members[x], members[y], distance);
      if x != y && Near(members[x], members[y], distance) {
        var i :| 0 <= i < |ids| && ids[i] == x;
        var j :| 0 <= j < |ids| && ids[j] == y;
        assert Pair(ids, members, distance, |ids|, 0, x, y) || Pair(ids, members, distance, |ids|, 0, y, x);
      }
    }
  }

  lemma {:induction false} ChainJoins(ids: seq<int>, members: map<int, Hash>, distance: nat, edges: seq<Edge>, p: seq<int>)
    requires AllNearPairs(ids, members, distance, edges) && NearChain(members, distance, p)
    ensures Joined(ids, edges, p[0], p[|p| - 1])
    decreases |p|
  {
    JoinedItself(ids, edges, p[0]);
    if |p| > 1 {
      ChainJoins(ids, members, distance, edges, p[1..]);
      assert NearMembers(members, distance, p[0], p[0 + 1]);
      AdjacentIffNear(ids, members, distance, edges, p[0], p[1]);
      if p[0] != p[1] {
        JoinedByEdge(ids, edges, p[0], p[1]);
        JoinedOnward(ids, edges, p[0], p[1], p[|p| - 1]);
      }
    }
  }

  /** Components of the near pairs are chains of near hashes. */
  lemma JoinedIffSimilar(ids: seq<int>, members: map<int, Hash>, distance: nat, edges: seq<Edge>, x: int, y: int)
    requires AllNearPairs(ids, members, distance, edges) && x in members
    ensures Joined(ids, edges, x, y) <==> Similar(members, distance, x, y)
  {
    if Joined(ids, edges, x, y) {
      var p :| WalkBetween(ids, edges, p, x, y);
      forall i | 0 <= i < |p| - 1 ensures NearMembers(members, distance, p[i], p[i + 1]) {
        assert Adjacent(ids, edges, p[i], p[i + 1]);
        AdjacentIffNear(ids, members, distance, edges, p[i], p[i + 1]);
      }
      assert NearChain(members, distance, p);
    }
    if Similar(members, distance, x, y) {
      var p :| NearChain(members, distance, p) && p[0] == x && p[|p| - 1] == y;
      ChainJoins(ids, members, distance, edges, p);
    }
  }

  ghost predicate Kept(kept: seq<seq<int>>, x: int) {
    exists g :: g in kept && x in g
  }

  ghost predicate NearSeed(members: map<int, Hash>, distance: nat, seeds: seq<int>, x: int) {
    exists s :: s in seeds && s in members && Similar(members, distance, s, x)
  }

  lemma KeptTogether(ids: seq<int>, members: map<int, Hash>, edges: seq<Edge>, distance: nat, g: seq<int>)
    requires AllNearPairs(ids, members, distance, edges) && IsComponent(ids, edges, g)
    ensures forall x, y :: x in g ==> (y in g <==> Similar(members, distance, x, y))
  {
    forall x, y | x in g ensures y in g <==> Similar(members, distance, x, y) {
      InComponent(ids, edges, g, x, y);
      JoinedIffSimilar(ids, members, distance, edges, x, y);
    }
  }

  /**
   The clusters of a scene: members are together exactly when a chain of near members connects them, and a member is kept
   exactly when such a chain starts at a seed.
   */
  method SeedClusters(ids: seq<int>, members: map<int, Hash>, distance: nat, seeds: seq<int>) returns (kept: seq<seq<int>>)
    requires forall id :: id in ids <==> id in members
    ensures forall g, x, y :: g in kept && x in g ==> (y in g <==> Similar(members, distance, x, y))
    ensures forall x :: Kept(kept, x) <==> NearSeed(members, distance, seeds, x)
    ensures Disjoint(kept)
  {
    var edges := ComputeEdges(ids, members, distance);
    var components := ConnectedComponents(ids, edges);
    ComponentsAreDisjoint(ids, edges, components);
    kept := KeepSeeded(components, seeds);
    assert AllNearPairs(ids, members, distance, edges);
    forall g | g in kept ensures forall x, y :: x in g ==> (y in g <==> Similar(members, distance, x, y)) {
      KeptTogether(ids, members, edges, distance, g);
    }
    forall x ensures Kept(kept, x) <==> NearSeed(members, distance, seeds, x) {
      KeptIff(ids, members, edges, distance, components, kept, seeds, x);
    }
  }

  lemma InComponent(nodes: seq<int>, edges: seq<Edge>, g: seq<int>, x: int, y: int)
    requires IsComponent(nodes, edges, g) && x in g
    ensures x in nodes && (y in g <==> Joined(nodes, edges, x, y))
  {
    assert multiset(g)[x] > 0;
    assert x in multiset(nodes);
    var r := g[0];
    JoinedBothWays(nodes, edges, r, x);
    if Joined(nodes, edges, x, y) {
      JoinedOnward(nodes, edges, r, x, y);
      EndIsNode(nodes, edges, x, y);
      assert multiset(nodes)[y] > 0;
      assert y in multiset(g);
    }
    if y in g {
      assert multiset(g)[y] > 0;
      JoinedOnward(nodes, edges, x, r, y);
    }
  }

  lemma EndIsNode(nodes: seq<int>, edges: seq<Edge>, x: int, y: int)
    requires x in nodes && Joined(nodes, edges, x, y)
    ensures y in nodes
  {
    var p :| WalkBetween(nodes, edges, p, x, y);
    if |p| > 1 {
      assert Adjacent(nodes, edges, p[|p| - 2], p[(|p| - 2) + 1]);
    }
  }

  lemma KeptIff(ids: seq<int>, members: map<int, Hash>, edges: seq<Edge>, distance: nat, components: seq<seq<int>>, kept: seq<seq<int>>,
                seeds: seq<int>, x: int)
    requires AllNearPairs(ids, members, distance, edges)
    requires forall k :: 0 <= k < |components| ==> IsComponent(ids, edges, components[k])
    requires forall n :: n in ids ==> exists k :: 0 <= k < |components| && n in components[k]
    requires forall g :: g in kept <==> g in components && HasSeed(g, seeds)
    ensures Kept(kept, x) <==> NearSeed(members, distance, seeds, x)
  {
    if g :| g in kept && x in g {
      var s :| s in g && s in seeds;
      InComponent(ids, edges, g, s, x);
      JoinedIffSimilar(ids, members, distance, edges, s, x);
    }
    if s :| s in seeds && s in members && Similar(members, distance, s, x) {
      var k :| 0 <= k < |components| && s in components[k];
      InComponent(ids, edges, components[k], s, x);
      JoinedIffSimilar(ids, members, distance, edges, s, x);
      assert HasSeed(components[k], seeds);
    }
  }

  // ----- the clusters of a scene

  ghost predicate Closed(db: Db, members: map<int, Hash>, distance: nat, seed: Scene) {
    HashesOf(db, members) && forall id :: id in members <==> Reachable(db, distance, seed, id)
  }

  /** In a closure without truncation a chain through the whole table never leaves the members. */
  lemma {:induction false} ChainStaysInside(db: Db, members: map<int, Hash>, distance: nat, seed: Scene, p: seq<int>)
    requires Closed(db, members, distance, seed) && NearChain(db.phash, distance, p) && p[0] in members
    ensures NearChain(members, distance, p) && p[|p| - 1] in members
    decreases |p|
  {
    if |p| > 1 {
      var q := p[..|p| - 1];
      var a, b := p[|p| - 2], p[|p| - 1];
      ChainStaysInside(db, members, distance, seed, q);
      assert NearMembers(db.phash, distance, p[|p| - 2], p[(|p| - 2) + 1]);
      ReachableOn(db, distance, seed, a, b);
      forall i | 0 <= i < |p| - 1 ensures NearMembers(members, distance, p[i], p[i + 1]) {
        assert i < |p| - 2 ==> NearMembers(members, distance, q[i], q[i + 1]);
      }
    }
  }

  lemma ChainFromTable(db: Db, members: map<int, Hash>, distance: nat, p: seq<int>)
    requires HashesOf(db, members) && NearChain(members, distance, p)
    ensures NearChain(db.phash, distance, p)
  {
    var first := p[0];
    assert first in members && first in db.phash;
    forall i | 0 <= i < |p| - 1 ensures NearMembers(db.phash, distance, p[i], p[i + 1]) {
      assert NearMembers(members, distance, p[i], p[i + 1]);
    }
  }

  lemma SimilarInTable(db: Db, members: map<int, Hash>, distance: nat, seed: Scene, x: int, y: int)
    requires HashesOf(db, members) && x in members
    ensures Similar(members, distance, x, y) ==> Similar(db.phash, distance, x, y)
    ensures Closed(db, members, distance, seed) ==> (Similar(members, distance, x, y) <==> Similar(db.phash, distance, x, y))
  {
    if p :| NearChain(members, distance, p) && p[0] == x && p[|p| - 1] == y {
      ChainFromTable(db, members, distance, p);
    }
    if Closed(db, members, distance, seed) {
      if p :| NearChain(db.phash, distance, p) && p[0] == x && p[|p| - 1] == y {
        ChainStaysInside(db, members, distance, seed, p);
      }
    }
  }

  method SortedKeys(m: map<int, Hash>) returns (ids: seq<int>)
    ensures Increasing(ids) && forall id :: id in ids <==> id in m
  {
    ids := [];
    var rest := m.Keys;
    while rest != {}
      invariant rest <= m.Keys && forall id :: id in m <==> id in rest || id in ids
      decreases |rest|
    {
      assert (forall x :: x !in rest) ==> rest == {};
      var id :| id in rest;
      ids, rest := ids + [id], rest - {id};
    }
    ghost var unsorted := ids;
    ids := SortInts(ids);
    forall id ensures id in ids <==> id in unsorted { SortedHas(unsorted, id); }
  }

  /**
   ClusterScenes, up to the submissions shown with each member. The clusters share no member and hold all of the scene's own
   hashes. Truncated or not they are the classes of chains of near hashes among the members that the search found, as far as
   they hold one of the scene's own. Without truncation, which is marked exactly when the search is
   over its caps, the clusters are the classes of such chains through the whole table, and scenes only served to find them.
   */
  method ClusterScenes(db: Db, seed: Scene, seedIds: seq<int>, seedHashes: seq<Hash>, distance: nat)
    returns (kept: seq<seq<int>>, truncated: bool, ghost members: map<int, Hash>)
    requires |seedIds| == |seedHashes| && (set id | id in seedIds) == PhashesOn(db, {seed})
    requires forall i :: 0 <= i < |seedIds| ==> seedIds[i] in db.phash && seedHashes[i] == db.phash[seedIds[i]]
    ensures forall x :: Kept(kept, x) ==> NearSeed(db.phash, distance, seedIds, x)
    ensures !truncated ==> forall x :: Kept(kept, x) <==> NearSeed(db.phash, distance, seedIds, x)
    ensures !truncated ==> forall g, x, y :: g in kept && x in g ==> (y in g <==> Similar(db.phash, distance, x, y))
    ensures truncated <==> OverCaps(TrackFrom(db, distance, seed, MAX_ROUNDS))
    ensures Disjoint(kept)
    ensures HashesOf(db, members) && PhashesOn(db, {seed}) <= members.Keys
    ensures forall id :: id in members ==> Reachable(db, distance, seed, id)
    ensures forall x :: Kept(kept, x) <==> NearSeed(members, distance, seedIds, x)
    ensures forall g, x, y :: g in kept && x in g ==> (y in g <==> Similar(members, distance, x, y))
    ensures forall s :: s in seedIds ==> Kept(kept, s)
  {
    if seedIds == [] {
      NoSeedsNotOver(db, distance, seed);
      return [], false, map[];
    }
    var found;
    found, truncated := ExpandClosure(db, seed, seedIds, seedHashes, distance);
    members := found;
    var ids := SortedKeys(found);
    kept := SeedClusters(ids, found, distance, seedIds);
    forall s | s in seedIds ensures s in members && NearSeed(members, distance, seedIds, s) {
      assert s in set id | id in seedIds;
      assert NearChain(members, distance, [s]) && [s][0] == s;
    }
    ClustersInTable(db, members, distance, seed, seedIds, kept, truncated);
  }

  lemma ClustersInTable(db: Db, members: map<int, Hash>, distance: nat, seed: Scene, seeds: seq<int>, kept: seq<seq<int>>,
                       truncated: bool)
    requires HashesOf(db, members) && (forall s :: s in seeds ==> s in members) && (!truncated ==> Closed(db, members, distance, seed))
    requires forall g, x, y :: g in kept && x in g ==> (y in g <==> Similar(members, distance, x, y))
    requires forall x :: Kept(kept, x) <==> NearSeed(members, distance, seeds, x)
    ensures forall x :: Kept(kept, x) ==> NearSeed(db.phash, distance, seeds, x)
    ensures !truncated ==> forall x :: Kept(kept, x) <==> NearSeed(db.phash, distance, seeds, x)
    ensures !truncated ==> forall g, x, y :: g in kept && x in g ==> (y in g <==> Similar(db.phash, distance, x, y))
  {
    forall x
      ensures Kept(kept, x) ==> NearSeed(db.phash, distance, seeds, x)
      ensures !truncated ==> (Kept(kept, x) <==> NearSeed(db.phash, distance, seeds, x))
    {
      SeedsInTable(db, members, distance, seed, seeds, x);
    }
    if !truncated {
      forall g, x, y | g in kept && x in g ensures y in g <==> Similar(db.phash, distance, x, y) {
        KeptAreMembers(members, distance, seeds, kept, x);
        SimilarInTable(db, members, distance, seed, x, y);
      }
    }
  }

  lemma SeedsInTable(db: Db, members: map<int, Hash>, distance: nat, seed: Scene, seeds: seq<int>, x: int)
    requires HashesOf(db, members) && forall s :: s in seeds ==> s in members
    ensures NearSeed(members, distance, seeds, x) ==> NearSeed(db.phash, distance, seeds, x)
    ensures Closed(db, members, distance, seed) ==> (NearSeed(members, distance, seeds, x) <==> NearSeed(db.phash, distance, seeds, x))
  {
    forall s | s in seeds
      ensures Similar(members, distance, s, x) ==> Similar(db.phash, distance, s, x)
      ensures Closed(db, members, distance, seed) ==> (Similar(members, distance, s, x) <==> Similar(db.phash, distance, s, x))
    {
      SimilarInTable(db, members, distance, seed, s, x);
    }
  }

  lemma KeptAreMembers(members: map<int, Hash>, distance: nat, seeds: seq<int>, kept: seq<seq<int>>, x: int)
    requires (forall y :: Kept(kept, y) <==> NearSeed(members, distance, seeds, y)) && Kept(kept, x)
    ensures x in members
  {
    assert NearSeed(members, distance, seeds, x);
    var s :| s in seeds && s in members && Similar(members, distance, s, x);
    var p :| NearChain(members, distance, p) && p[0] == s && p[|p| - 1] == x;
    assert |p| > 1 ==> NearMembers(members, distance, p[|p| - 2], p[(|p| - 2) + 1]);
  }
}
