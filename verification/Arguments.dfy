/**
 Queries into the decoded arguments of a request. They tell a field that was given as null from one that was left out,
 which the decoded input structs cannot.
 */
module Arguments {

  import opened Wrappers

  datatype Value =
    | Null
    | Scalar(text: string)
    | List(items: seq<Value>)
    | Object(fields: map<string, Value>)

  datatype Selector = Member(name: string) | Position(index: int)

  datatype Query = Query(args: map<string, Value>, selectors: seq<Selector>)

  /** One selector: a field of an object, or an element of a list. */
  function Select(v: Value, sel: Selector): Option<Value> {
    match sel
    case Member(name) => if v.Object? && name in v.fields then Some(v.fields[name]) else None
    case Position(index) => if 0 <= index && v.List? && index < |v.items| then Some(v.items[index]) else None
  }

  function Child(q: Query, sel: Selector): Query {
    q.(selectors := q.selectors + [sel])
  }

  function Field(q: Query, name: string): Query {
    Child(q, Member(name))
  }

  function Index(q: Query, index: int): Query {
    Child(q, Position(index))
  }

  /** `trace` are the values on the way along `path`. */
  ghost predicate Leads(path: seq<Selector>, trace: seq<Value>) {
    |trace| == |path| + 1 && forall i :: 0 <= i < |path| ==> Select(trace[i], path[i]) == Some(trace[i + 1])
  }

  /** The arguments hold `v` at the place the query names. */
  ghost predicate Holds(q: Query, v: Value) {
    exists trace :: Leads(q.selectors, trace) && trace[0] == Object(q.args) && trace[|q.selectors|] == v
  }

  /** selected. The loop leaves at the first selector that finds nothing. */
  method Selected(q: Query) returns (r: Option<Value>)
    ensures forall v :: r == Some(v) <==> Holds(q, v)
  {
    r := Some(Object(q.args));
    ghost var trace := [Object(q.args)];
    var i := 0;
    while i < |q.selectors| && r.Some?
      invariant 0 <= i <= |q.selectors|
      invariant r.Some? ==> Leads(q.selectors[..i], trace) && trace[0] == Object(q.args) && trace[i] == r.value
      invariant r.None? ==> forall v :: !Holds(q, v)
    {
      var next := Select(r.value, q.selectors[i]);
      if next.Some? {
        trace := trace + [next.value];
      } else {
        DeadEnd(q, trace, i);
      }
      r := next;
      i := i + 1;
    }
    if r.Some? {
      assert q.selectors[..i] == q.selectors;
      forall v ensures r == Some(v) <==> Holds(q, v) {
        if Holds(q, v) {
          var other :| Leads(q.selectors, other) && other[0] == Object(q.args) && other[|q.selectors|] == v;
          SameTrace(q.selectors, trace, other, i);
        }
      }
    }
  }

  /** There is one way along a path. */
  lemma {:induction false} SameTrace(path: seq<Selector>, a: seq<Value>, b: seq<Value>, n: nat)
    requires n <= |path| && |a| > n && |b| > n && a[0] == b[0]
    requires forall i :: 0 <= i < n ==> Select(a[i], path[i]) == Some(a[i + 1]) && Select(b[i], path[i]) == Some(b[i + 1])
    ensures a[n] == b[n]
  {
    if n > 0 {
      SameTrace(path, a, b, n - 1);
      assert Select(a[n - 1], path[n - 1]) == Some(a[n]);
    }
  }

  /** Every way to the end goes on from where any way along a part of the path has come to. */
  lemma Onward(q: Query, trace: seq<Value>, i: nat, whole: seq<Value>)
    requires i < |q.selectors| && Leads(q.selectors[..i], trace) && trace[0] == Object(q.args)
    requires Leads(q.selectors, whole) && whole[0] == Object(q.args)
    ensures Select(trace[i], q.selectors[i]).Some?
  {
    forall k | 0 <= k < i
      ensures Select(trace[k], q.selectors[k]) == Some(trace[k + 1]) && Select(whole[k], q.selectors[k]) == Some(whole[k + 1])
    {
      assert q.selectors[..i][k] == q.selectors[k];
    }
    SameTrace(q.selectors, trace, whole, i);
    assert Select(whole[i], q.selectors[i]) == Some(whole[i + 1]);
  }

  lemma DeadEnd(q: Query, trace: seq<Value>, i: nat)
    requires i < |q.selectors| && Leads(q.selectors[..i], trace) && trace[0] == Object(q.args)
    requires Select(trace[i], q.selectors[i]) == None
    ensures forall v :: !Holds(q, v)
  {
    forall v ensures !Holds(q, v) {
      if whole: seq<Value> :| Leads(q.selectors, whole) && whole[0] == Object(q.args) && whole[|q.selectors|] == v {
        Onward(q, trace, i, whole);
      }
    }
  }

  /** IsNull. */
  method IsNull(q: Query) returns (b: bool)
    ensures b <==> Holds(q, Null)
  {
    var r := Selected(q);
    b := r == Some(Null);
    assert b <==> Holds(q, Null);
  }

  /** A child query finds what its own selector finds in what the query finds. */
  lemma ChildHolds(q: Query, sel: Selector, v: Value)
    ensures Holds(Child(q, sel), v) <==> exists w :: Holds(q, w) && Select(w, sel) == Some(v)
  {
    var n := |q.selectors|;
    var longer := Child(q, sel).selectors;
    if Holds(Child(q, sel), v) {
      var trace: seq<Value> :| Leads(longer, trace) && trace[0] == Object(q.args) && trace[|longer|] == v;
      assert longer[n] == sel && Select(trace[n], longer[n]) == Some(trace[n + 1]);
      var front := trace[..n + 1];
      forall i | 0 <= i < n ensures Select(front[i], q.selectors[i]) == Some(front[i + 1]) {
        assert longer[i] == q.selectors[i] && Select(trace[i], longer[i]) == Some(trace[i + 1]);
      }
      assert Leads(q.selectors, front) && Holds(q, trace[n]);
    }
    if w :| Holds(q, w) && Select(w, sel) == Some(v) {
      var front :| Leads(q.selectors, front) && front[0] == Object(q.args) && front[n] == w;
      var trace := front + [v];
      forall i | 0 <= i < n + 1 ensures Select(trace[i], longer[i]) == Some(trace[i + 1]) {
        if i < n {
          assert Select(front[i], q.selectors[i]) == Some(front[i + 1]);
        }
      }
      assert Leads(longer, trace) && trace[|longer|] == v;
    }
  }

  /** A field of a query is there exactly when the query names an object that has it. */
  lemma FieldHolds(q: Query, name: string, v: Value)
    ensures Holds(Field(q, name), v) <==> exists fields :: Holds(q, Object(fields)) && name in fields && fields[name] == v
  {
    ChildHolds(q, Member(name), v);
    if Holds(Field(q, name), v) {
      var w :| Holds(q, w) && Select(w, Member(name)) == Some(v);
      assert w == Object(w.fields);
    }
    if fields :| Holds(q, Object(fields)) && name in fields && fields[name] == v {
      assert Select(Object(fields), Member(name)) == Some(v);
    }
  }

  /** An element is there exactly when the query names a list that is long enough. */
  lemma IndexHolds(q: Query, index: int, v: Value)
    ensures Holds(Index(q, index), v) <==> exists items :: Holds(q, List(items)) && 0 <= index < |items| && items[index] == v
  {
    ChildHolds(q, Position(index), v);
    if Holds(Index(q, index), v) {
      var w :| Holds(q, w) && Select(w, Position(index)) == Some(v);
      assert w == List(w.items);
    }
    if items :| Holds(q, List(items)) && 0 <= index < |items| && items[index] == v {
      assert Select(List(items), Position(index)) == Some(v);
    }
  }

  /** Null has no fields: a null object does not make its fields null. */
  lemma NullHasNoFields(q: Query, name: string)
    requires Holds(q, Null)
    ensures forall v :: !Holds(Field(q, name), v)
  {
    forall v ensures !Holds(Field(q, name), v) {
      FieldHolds(q, name, v);
      HoldsOne(q);
    }
  }

  lemma HoldsOne(q: Query)
    ensures forall v, w :: Holds(q, v) && Holds(q, w) ==> v == w
  {
    forall v, w | Holds(q, v) && Holds(q, w) ensures v == w {
      var a :| Leads(q.selectors, a) && a[0] == Object(q.args) && a[|q.selectors|] == v;
      var b :| Leads(q.selectors, b) && b[0] == Object(q.args) && b[|q.selectors|] == w;
      SameTrace(q.selectors, a, b, |q.selectors|);
    }
  }
}
