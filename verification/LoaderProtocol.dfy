/**
 The batching dataloader as a protocol: its state, the atomic step of every goroutine that touches it,
 and what every interleaving of those steps keeps.

 A batch is named by the order in which it was created. Goroutines that have been started and not yet
 finished are the multiset `tasks`; what a thunk needs after `LoadThunk` returned is in `issued`.
 */
module LoaderProtocol {

  import opened Wrappers

  type Key = int

  /** The error slice a fetch returns: nil, or a slice whose elements may be nil. */
  datatype Errors<+E> = NoErrors | Errors(list: seq<Option<E>>)

  /** `fetches` counts the calls to fetch for this batch, `closes` the calls to close(done). */
  datatype Batch<+V, +E> = Batch(keys: seq<Key>, data: seq<V>, errors: Errors<E>, closing: bool,
                                 fetches: nat, closes: nat)

  /** A running goroutine: the timer asleep, and `end` before, during and after its call to fetch. */
  datatype Task =
    | Sleeping(batch: nat)
    | Ending(batch: nat)
    | Fetching(batch: nat, keys: seq<Key>)
    | Fetched(batch: nat)

  /** The captured variables of a thunk that waits for a batch. */
  datatype Thunk = Thunk(key: Key, batch: nat, pos: nat)

  /** `issued` and `primed` are history: every waiting thunk handed out, every pair Prime stored. */
  datatype State<!V(==), !E> = State(cache: map<Key, V>, current: Option<nat>, batches: seq<Batch<V, E>>,
                                 tasks: multiset<Task>, issued: set<Thunk>, primed: set<(Key, V)>)

  /** What LoadThunk returns: a thunk that already has its value, or one that waits. */
  datatype Handle<+V> = Ready(value: V) | Waiting(thunk: Thunk)

  /** What a waiting thunk returns once done is closed; `error[pos]` can be out of range. */
  datatype ThunkResult<+V, +E> = Loaded(value: Option<V>, error: Option<E>) | IndexPanic

  ghost function Initial<V, E>(): State<V, E> {
    State(map[], None, [], multiset{}, {}, {})
  }

  // ----- the steps

  ghost function Position(keys: seq<Key>, key: Key): (i: nat)
    ensures i <= |keys|
    ensures i < |keys| ==> keys[i] == key
    ensures key in keys <==> i < |keys|
  {
    if keys == [] then 0 else if keys[0] == key then 0 else 1 + Position(keys[1..], key)
  }

  ghost predicate Fills(maxBatch: int, pos: nat) {
    maxBatch != 0 && pos >= maxBatch - 1
  }

  /** The lock section of LoadThunk when the key is not cached, up to the call of keyIndex. */
  ghost function OpenBatch<V, E>(s: State<V, E>): State<V, E> {
    if s.current.Some? then s
    else s.(current := Some(|s.batches|), batches := s.batches + [Batch([], [], NoErrors, false, 0, 0)])
  }

  ghost function SetBatch<V, E>(s: State<V, E>, b: nat, batch: Batch<V, E>): State<V, E>
    requires b < |s.batches|
  {
    s.(batches := s.batches[b := batch])
  }

  /** keyIndex on the current batch, together with the goroutines it starts. */
  ghost function Enqueue<V, E>(s: State<V, E>, maxBatch: int, key: Key): State<V, E>
    requires s.current.Some? && s.current.value < |s.batches|
  {
    var b := s.current.value;
    var batch := s.batches[b];
    var pos := Position(batch.keys, key);
    var s1 := s.(issued := s.issued + {Thunk(key, b, pos)});
    if pos < |batch.keys| then s1
    else
      var s2 := SetBatch(s1, b, batch.(keys := batch.keys + [key]));
      var s3 := if pos == 0 then s2.(tasks := s2.tasks + multiset{Sleeping(b)}) else s2;
      if Fills(maxBatch, pos) && !batch.closing then
        SetBatch(s3, b, s3.batches[b].(closing := true)).(current := None, tasks := s3.tasks + multiset{Ending(b)})
      else s3
  }

  ghost function Load<V, E>(s: State<V, E>, maxBatch: int, key: Key): State<V, E>
    requires s.current.Some? ==> s.current.value < |s.batches|
  {
    if key in s.cache then s else Enqueue(OpenBatch(s), maxBatch, key)
  }

  ghost function LoadHandle<V, E>(s: State<V, E>, key: Key): Handle<V>
    requires s.current.Some? ==> s.current.value < |s.batches|
  {
    if key in s.cache then Ready(s.cache[key])
    else
      var s1 := OpenBatch(s);
      Waiting(Thunk(key, s1.current.value, Position(s1.batches[s1.current.value].keys, key)))
  }

  /** startTimer after its sleep: nothing if the batch is closing, otherwise detach and go on to end. */
  ghost function Timer<V, E>(s: State<V, E>, b: nat): State<V, E>
    requires b < |s.batches|
  {
    var s1 := s.(tasks := s.tasks - multiset{Sleeping(b)});
    if s.batches[b].closing then s1
    else s1.(current := None, tasks := s1.tasks + multiset{Ending(b)})
  }

  /** end reads b.keys without the lock and calls fetch. */
  ghost function BeginFetch<V, E>(s: State<V, E>, b: nat): State<V, E>
    requires b < |s.batches|
  {
    SetBatch(s, b, s.batches[b].(fetches := s.batches[b].fetches + 1))
    .(tasks := s.tasks - multiset{Ending(b)} + multiset{Fetching(b, s.batches[b].keys)})
  }

  /** fetch returned: b.data and b.error are assigned. */
  ghost function EndFetch<V, E>(s: State<V, E>, b: nat, keys: seq<Key>, data: seq<V>, errors: Errors<E>): State<V, E>
    requires b < |s.batches|
  {
    SetBatch(s, b, s.batches[b].(data := data, errors := errors))
    .(tasks := s.tasks - multiset{Fetching(b, keys)} + multiset{Fetched(b)})
  }

  ghost function Close<V, E>(s: State<V, E>, b: nat): State<V, E>
    requires b < |s.batches|
  {
    SetBatch(s, b, s.batches[b].(closes := s.batches[b].closes + 1)).(tasks := s.tasks - multiset{Fetched(b)})
  }

  /** What the body of a waiting thunk computes from its batch. A missing data element is nil. */
  ghost function Read<V, E>(batch: Batch<V, E>, pos: nat): ThunkResult<V, E> {
    var data := if pos < |batch.data| then Some(batch.data[pos]) else None;
    match batch.errors
    case NoErrors => Loaded(data, None)
    case Errors(list) =>
      if |list| == 1 then Loaded(data, list[0])
      else if pos < |list| then Loaded(data, list[pos])
      else IndexPanic
  }

  /** The thunk stores what it read unless it carries an error; `absent` is the nil value. */
  ghost function Resolve<V, E>(s: State<V, E>, t: Thunk, absent: V): State<V, E>
    requires t.batch < |s.batches|
  {
    match Read(s.batches[t.batch], t.pos)
    case Loaded(data, None) => s.(cache := s.cache[t.key := OrAbsent(data, absent)])
    case _ => s
  }

  ghost function OrAbsent<V>(data: Option<V>, absent: V): V {
    if data.Some? then data.value else absent
  }

  ghost function Prime<V, E>(s: State<V, E>, key: Key, value: V): State<V, E> {
    if key in s.cache then s else s.(cache := s.cache[key := value], primed := s.primed + {(key, value)})
  }

  ghost function Clear<V, E>(s: State<V, E>, key: Key): State<V, E> {
    s.(cache := s.cache - {key})
  }

  // ----- runs

  datatype Event<+V, +E> =
    | DoLoad(key: Key)
    | DoTimer(batch: nat)
    | DoBeginFetch(batch: nat)
    | DoEndFetch(batch: nat, keys: seq<Key>, data: seq<V>, errors: Errors<E>)
    | DoClose(batch: nat)
    | DoResolve(thunk: Thunk)
    | DoPrime(key: Key, value: V)
    | DoClear(key: Key)

  /** The loader's fixed parameters, and the per-key lookup that fetch is meant to batch. */
  datatype Config<!V> = Config(maxBatch: int, lookup: Key -> V, absent: V)

  /** The error slice is nil, holds one error for the whole batch, or one per key. */
  ghost predicate WellSized<E>(keys: seq<Key>, errors: Errors<E>) {
    errors.Errors? ==> |errors.list| == 1 || |errors.list| == |keys|
  }

  /** fetch is pointwise: wherever it reports no error, a thunk finds the lookup of its own key. */
  ghost predicate Pointwise<V, E>(c: Config<V>, keys: seq<Key>, data: seq<V>, errors: Errors<E>) {
    && WellSized(keys, errors)
    && forall i | 0 <= i < |keys| :: ErrorFree(errors, i) ==> (if i < |data| then data[i] else c.absent) == c.lookup(keys[i])
  }

  /** The error slice is nil, or its one element is, or the element at this position is. */
  ghost predicate ErrorFree<E>(errors: Errors<E>, i: nat) {
    || errors.NoErrors?
    || (|errors.list| == 1 && errors.list[0].None?)
    || (|errors.list| != 1 && i < |errors.list| && errors.list[i].None?)
  }

  ghost predicate Enabled<V, E>(c: Config<V>, s: State<V, E>, e: Event<V, E>) {
    match e
    case DoLoad(_) => s.current.Some? ==> s.current.value < |s.batches|
    case DoTimer(b) => b < |s.batches| && Sleeping(b) in s.tasks
    case DoBeginFetch(b) => b < |s.batches| && Ending(b) in s.tasks
    case DoEndFetch(b, keys, data, errors) =>
      b < |s.batches| && Fetching(b, keys) in s.tasks && Pointwise(c, keys, data, errors)
    case DoClose(b) => b < |s.batches| && Fetched(b) in s.tasks
    case DoResolve(t) => t in s.issued && t.batch < |s.batches| && s.batches[t.batch].closes > 0
    case DoPrime(_, _) => true
    case DoClear(_) => true
  }

  ghost function Apply<V, E>(c: Config<V>, s: State<V, E>, e: Event<V, E>): State<V, E>
    requires Enabled(c, s, e)
  {
    match e
    case DoLoad(key) => Load(s, c.maxBatch, key)
    case DoTimer(b) => Timer(s, b)
    case DoBeginFetch(b) => BeginFetch(s, b)
    case DoEndFetch(b, keys, data, errors) => EndFetch(s, b, keys, data, errors)
    case DoClose(b) => Close(s, b)
    case DoResolve(t) => Resolve(s, t, c.absent)
    case DoPrime(key, value) => Prime(s, key, value)
    case DoClear(key) => Clear(s, key)
  }

  /** The state after a schedule of steps, or None if some step was not enabled when its turn came. */
  ghost function Run<V, E>(c: Config<V>, s: State<V, E>, es: seq<Event<V, E>>): Option<State<V, E>>
    decreases |es|
  {
    if es == [] then Some(s)
    else if Enabled(c, s, es[0]) then Run(c, Apply(c, s, es[0]), es[1..])
    else None
  }

  // ----- the invariant

  /** The number of `end` calls batch b has in progress or behind it. */
  ghost function Enders<V, E>(s: State<V, E>, b: nat): nat
    requires b < |s.batches|
  {
    s.tasks[Ending(b)] + s.tasks[Fetching(b, s.batches[b].keys)] + s.tasks[Fetched(b)] + s.batches[b].closes
  }

  /** Where a batch is in its life: still collecting keys, or handed to exactly one `end`. */
  ghost predicate Lifecycle<V, E>(s: State<V, E>, b: nat)
    requires b < |s.batches|
  {
    if s.current == Some(b) then
      && !s.batches[b].closing
      && s.tasks[Sleeping(b)] == 1
      && Enders(s, b) == 0
      && s.batches[b].fetches == 0
    else
      && Enders(s, b) == 1
      && s.tasks[Sleeping(b)] <= 1
      && (Sleeping(b) in s.tasks ==> s.batches[b].closing)
      && s.batches[b].fetches == 1 - s.tasks[Ending(b)]
  }

  ghost predicate Distinct(keys: seq<Key>) {
    forall i, j :: 0 <= i < j < |keys| ==> keys[i] != keys[j]
  }

  ghost function Limit(maxBatch: int): nat {
    if maxBatch > 1 then maxBatch else 1
  }

  ghost predicate KeysOk<V, E>(maxBatch: int, s: State<V, E>, b: nat)
    requires b < |s.batches|
  {
    var keys := s.batches[b].keys;
    && keys != []
    && Distinct(keys)
    && (maxBatch != 0 ==> |keys| <= Limit(maxBatch))
    && (maxBatch != 0 && s.current == Some(b) ==> |keys| < Limit(maxBatch))
    && (s.batches[b].closing <==> maxBatch != 0 && |keys| >= maxBatch)
  }

  /** A goroutine names a batch that exists, and a fetch in progress works on that batch's own keys. */
  ghost predicate TaskOk<V, E>(s: State<V, E>, t: Task) {
    t.batch < |s.batches| && (t.Fetching? ==> t.keys == s.batches[t.batch].keys)
  }

  ghost predicate ThunkOk<V, E>(s: State<V, E>, t: Thunk) {
    && t.batch < |s.batches|
    && t.pos < |s.batches[t.batch].keys|
    && s.batches[t.batch].keys[t.pos] == t.key
  }

  /** Once fetch has returned, the batch carries a pointwise answer for its keys. */
  ghost predicate DataOk<V, E>(c: Config<V>, s: State<V, E>, b: nat)
    requires b < |s.batches|
  {
    Fetched(b) in s.tasks || s.batches[b].closes > 0 ==>
      Pointwise(c, s.batches[b].keys, s.batches[b].data, s.batches[b].errors)
  }

  ghost predicate Coherent<V, E>(c: Config<V>, s: State<V, E>) {
    forall k :: k in s.cache ==> s.cache[k] == c.lookup(k) || (k, s.cache[k]) in s.primed
  }

  ghost predicate BatchOk<V, E>(c: Config<V>, s: State<V, E>, b: nat)
    requires b < |s.batches|
  {
    Lifecycle(s, b) && KeysOk(c.maxBatch, s, b) && DataOk(c, s, b)
  }

  ghost predicate Inv<V, E>(c: Config<V>, s: State<V, E>) {
    && (s.current.Some? ==> s.current.value < |s.batches|)
    && (forall b: nat :: b < |s.batches| ==> BatchOk(c, s, b))
    && (forall t :: t in s.tasks ==> TaskOk(s, t))
    && (forall t :: t in s.issued ==> ThunkOk(s, t))
    && Coherent(c, s)
  }

  // ----- every step keeps the invariant

  /** A step that touches one existing batch leaves every other batch as it was. */
  ghost predicate OnlyTouches<V, E>(s: State<V, E>, s': State<V, E>, b: nat) {
    && |s'.batches| == |s.batches|
    && (forall a: nat :: a < |s.batches| && a != b ==> s'.batches[a] == s.batches[a])
    && (forall t: Task :: t.batch != b ==> s'.tasks[t] == s.tasks[t])
    && (s'.current == s.current || (s.current == Some(b) && s'.current == None))
  }

  /** How far the goroutines of batch b still have to go. */
  ghost function Pending<V, E>(s: State<V, E>, b: nat): nat
    requires b < |s.batches|
  {
    4 * s.tasks[Sleeping(b)] + 3 * s.tasks[Ending(b)] + 2 * s.tasks[Fetching(b, s.batches[b].keys)] + s.tasks[Fetched(b)]
  }

  lemma OthersKept<V, E>(c: Config<V>, s: State<V, E>, s': State<V, E>, b: nat)
    requires Inv(c, s) && OnlyTouches(s, s', b)
    ensures forall a: nat :: a < |s.batches| && a != b ==> BatchOk(c, s', a)
  {
    forall a: nat | a < |s.batches| && a != b
      ensures BatchOk(c, s', a)
    {
      assert BatchOk(c, s, a);
      assert s'.tasks[Sleeping(a)] == s.tasks[Sleeping(a)];
      assert s'.tasks[Ending(a)] == s.tasks[Ending(a)];
      assert s'.tasks[Fetched(a)] == s.tasks[Fetched(a)];
      assert s'.tasks[Fetching(a, s.batches[a].keys)] == s.tasks[Fetching(a, s.batches[a].keys)];
    }
  }

  lemma TimerKeeps<V, E>(c: Config<V>, s: State<V, E>, b: nat)
    requires Inv(c, s) && Enabled(c, s, DoTimer(b))
    ensures Inv(c, Timer(s, b))
    ensures OnlyTouches(s, Timer(s, b), b) && Pending(Timer(s, b), b) < Pending(s, b)
    ensures !s.batches[b].closing ==> s.current == Some(b)
  {
    var s' := Timer(s, b);
    assert BatchOk(c, s, b);
    assert OnlyTouches(s, s', b);
    OthersKept(c, s, s', b);
    assert BatchOk(c, s', b);
    forall t | t in s'.tasks ensures TaskOk(s', t) { assert t in s.tasks || t == Ending(b); }
    forall t | t in s'.issued ensures ThunkOk(s', t) { assert ThunkOk(s, t); }
  }

  lemma BeginFetchKeeps<V, E>(c: Config<V>, s: State<V, E>, b: nat)
    requires Inv(c, s) && Enabled(c, s, DoBeginFetch(b))
    ensures Inv(c, BeginFetch(s, b))
    ensures OnlyTouches(s, BeginFetch(s, b), b) && Pending(BeginFetch(s, b), b) < Pending(s, b)
    ensures s.batches[b].fetches == 0 && s.current != Some(b)
  {
    var s' := BeginFetch(s, b);
    assert BatchOk(c, s, b);
    assert OnlyTouches(s, s', b);
    OthersKept(c, s, s', b);
    assert BatchOk(c, s', b);
    forall t | t in s'.tasks ensures TaskOk(s', t) { assert t in s.tasks || t == Fetching(b, s.batches[b].keys); }
    forall t | t in s'.issued ensures ThunkOk(s', t) { assert ThunkOk(s, t); }
  }

  lemma EndFetchKeeps<V, E>(c: Config<V>, s: State<V, E>, b: nat, keys: seq<Key>, data: seq<V>, errors: Errors<E>)
    requires Inv(c, s) && Enabled(c, s, DoEndFetch(b, keys, data, errors))
    ensures Inv(c, EndFetch(s, b, keys, data, errors))
    ensures OnlyTouches(s, EndFetch(s, b, keys, data, errors), b) && Pending(EndFetch(s, b, keys, data, errors), b) < Pending(s, b)
    ensures keys == s.batches[b].keys
  {
    var s' := EndFetch(s, b, keys, data, errors);
    assert BatchOk(c, s, b);
    assert TaskOk(s, Fetching(b, keys));
    assert OnlyTouches(s, s', b);
    OthersKept(c, s, s', b);
    assert BatchOk(c, s', b);
    forall t | t in s'.tasks ensures TaskOk(s', t) { assert t in s.tasks || t == Fetched(b); }
    forall t | t in s'.issued ensures ThunkOk(s', t) { assert ThunkOk(s, t); }
  }

  lemma CloseKeeps<V, E>(c: Config<V>, s: State<V, E>, b: nat)
    requires Inv(c, s) && Enabled(c, s, DoClose(b))
    ensures Inv(c, Close(s, b))
    ensures OnlyTouches(s, Close(s, b), b) && Pending(Close(s, b), b) < Pending(s, b)
    ensures s.batches[b].closes == 0
  {
    var s' := Close(s, b);
    assert BatchOk(c, s, b);
    assert OnlyTouches(s, s', b);
    OthersKept(c, s, s', b);
    assert BatchOk(c, s', b);
    forall t | t in s'.tasks ensures TaskOk(s', t) { assert t in s.tasks; }
    forall t | t in s'.issued ensures ThunkOk(s', t) { assert ThunkOk(s, t); }
  }

  lemma ResolveKeeps<V, E>(c: Config<V>, s: State<V, E>, t: Thunk)
    requires Inv(c, s) && Enabled(c, s, DoResolve(t))
    ensures Inv(c, Resolve(s, t, c.absent))
    ensures Read(s.batches[t.batch], t.pos).Loaded?
  {
    var batch := s.batches[t.batch];
    assert BatchOk(c, s, t.batch) && ThunkOk(s, t);
    assert Read(batch, t.pos) == Read(Batch(batch.keys, batch.data, batch.errors, false, 0, 0), t.pos);
    var s' := Resolve(s, t, c.absent);
    forall b: nat | b < |s'.batches| ensures BatchOk(c, s', b) { assert BatchOk(c, s, b); }
    forall u | u in s'.issued ensures ThunkOk(s', u) { assert ThunkOk(s, u); }
    forall u | u in s'.tasks ensures TaskOk(s', u) { assert TaskOk(s, u); }
  }

  /** An existing key changes nothing but the thunks handed out. */
  lemma RepeatKeeps<V, E>(c: Config<V>, s: State<V, E>, key: Key)
    requires Inv(c, s) && s.current.Some? && key in s.batches[s.current.value].keys
    ensures Inv(c, Enqueue(s, c.maxBatch, key))
  {
    var s' := Enqueue(s, c.maxBatch, key);
    forall b: nat | b < |s'.batches| ensures BatchOk(c, s', b) { assert BatchOk(c, s, b); }
    forall u | u in s'.issued ensures ThunkOk(s', u) { assert u in s.issued ==> ThunkOk(s, u); }
    forall u | u in s'.tasks ensures TaskOk(s', u) { assert TaskOk(s, u); }
  }

  /** A new key in a batch that is already collecting. */
  lemma AppendKeeps<V, E>(c: Config<V>, s: State<V, E>, key: Key)
    requires Inv(c, s) && s.current.Some? && key !in s.batches[s.current.value].keys
    ensures Inv(c, Enqueue(s, c.maxBatch, key))
  {
    var b := s.current.value;
    var s' := Enqueue(s, c.maxBatch, key);
    assert BatchOk(c, s, b);
    assert OnlyTouches(s, s', b);
    OthersKept(c, s, s', b);
    NoFetchYet(c, s, b);
    assert Fetching(b, s'.batches[b].keys) !in s'.tasks;
    assert BatchOk(c, s', b);
    forall u | u in s'.issued ensures ThunkOk(s', u) { assert u in s.issued ==> ThunkOk(s, u); }
    forall u | u in s'.tasks ensures TaskOk(s', u) { assert u in s.tasks ==> TaskOk(s, u); }
  }

  /** No goroutine is fetching for the batch that is collecting. */
  lemma NoFetchYet<V, E>(c: Config<V>, s: State<V, E>, b: nat)
    requires Inv(c, s) && s.current == Some(b)
    ensures forall t :: t in s.tasks && t.Fetching? ==> t.batch != b
  {
    assert BatchOk(c, s, b);
    forall t | t in s.tasks && t.Fetching?
      ensures t.batch != b
    {
      assert TaskOk(s, t);
      assert t == Fetching(t.batch, t.keys);
    }
  }

  /** The state after the first key of a batch that this load creates. */
  lemma CreatedBatch<V, E>(s: State<V, E>, maxBatch: int, key: Key)
    requires s.current.None?
    ensures var b := |s.batches|; var full := Fills(maxBatch, 0);
            Enqueue(OpenBatch(s), maxBatch, key) ==
            State(s.cache, if full then None else Some(b),
                  s.batches + [Batch([key], [], NoErrors, full, 0, 0)],
                  s.tasks + multiset{Sleeping(b)} + (if full then multiset{Ending(b)} else multiset{}),
                  s.issued + {Thunk(key, b, 0)}, s.primed)
  {
    var b := |s.batches|;
    var s1 := OpenBatch(s);
    var s2 := SetBatch(s1, b, s1.batches[b].(keys := [key]));
    assert s2.batches == s.batches + [Batch([key], [], NoErrors, false, 0, 0)];
    assert [] + [key] == [key];
    if Fills(maxBatch, 0) {
      assert SetBatch(s2, b, s2.batches[b].(closing := true)).batches == s.batches + [Batch([key], [], NoErrors, true, 0, 0)];
    } else {
      assert s.tasks + multiset{Sleeping(b)} + multiset{} == s.tasks + multiset{Sleeping(b)};
    }
  }

  lemma CreateLeavesBatch<V, E>(c: Config<V>, s: State<V, E>, key: Key, a: nat)
    requires s.current.None? && a < |s.batches| && BatchOk(c, s, a)
    ensures BatchOk(c, Enqueue(OpenBatch(s), c.maxBatch, key), a)
  {
    CreatedBatch(s, c.maxBatch, key);
    var s' := Enqueue(OpenBatch(s), c.maxBatch, key);
    assert s'.batches[a] == s.batches[a];
    assert s'.tasks[Sleeping(a)] == s.tasks[Sleeping(a)];
    assert s'.tasks[Ending(a)] == s.tasks[Ending(a)];
    assert s'.tasks[Fetched(a)] == s.tasks[Fetched(a)];
    assert s'.tasks[Fetching(a, s.batches[a].keys)] == s.tasks[Fetching(a, s.batches[a].keys)];
  }

  lemma CreatedIsOk<V, E>(c: Config<V>, s: State<V, E>, key: Key)
    requires s.current.None? && forall t :: t in s.tasks ==> t.batch < |s.batches|
    ensures BatchOk(c, Enqueue(OpenBatch(s), c.maxBatch, key), |s.batches|)
  {
    CreatedBatch(s, c.maxBatch, key);
  }

  lemma CreateKeeps<V, E>(c: Config<V>, s: State<V, E>, key: Key)
    requires Inv(c, s) && s.current.None?
    ensures Inv(c, Enqueue(OpenBatch(s), c.maxBatch, key))
  {
    var s' := Enqueue(OpenBatch(s), c.maxBatch, key);
    forall t | t in s.tasks ensures t.batch < |s.batches| { assert TaskOk(s, t); }
    CreatedIsOk(c, s, key);
    forall a: nat | a < |s.batches| ensures BatchOk(c, s', a) { CreateLeavesBatch(c, s, key, a); }
    CreatedBatch(s, c.maxBatch, key);
    forall u | u in s'.issued ensures ThunkOk(s', u) { assert u in s.issued ==> ThunkOk(s, u); }
    forall u | u in s'.tasks ensures TaskOk(s', u) { assert u in s.tasks ==> TaskOk(s, u); }
  }

  lemma LoadKeeps<V, E>(c: Config<V>, s: State<V, E>, key: Key)
    requires Inv(c, s)
    ensures Inv(c, Load(s, c.maxBatch, key))
  {
    if key !in s.cache {
      if s.current.None? { CreateKeeps(c, s, key); }
      else if key in s.batches[s.current.value].keys { RepeatKeeps(c, s, key); }
      else { AppendKeeps(c, s, key); }
    }
  }

  lemma CacheStepKeeps<V, E>(c: Config<V>, s: State<V, E>, e: Event<V, E>)
    requires Inv(c, s) && (e.DoPrime? || e.DoClear?)
    ensures Inv(c, Apply(c, s, e))
  {
    var s' := Apply(c, s, e);
    forall b: nat | b < |s'.batches| ensures BatchOk(c, s', b) { assert BatchOk(c, s, b); }
    forall u | u in s'.issued ensures ThunkOk(s', u) { assert ThunkOk(s, u); }
    forall u | u in s'.tasks ensures TaskOk(s', u) { assert TaskOk(s, u); }
  }

  lemma StepKeeps<V, E>(c: Config<V>, s: State<V, E>, e: Event<V, E>)
    requires Inv(c, s) && Enabled(c, s, e)
    ensures Inv(c, Apply(c, s, e))
  {
    match e
    case DoLoad(key) => LoadKeeps(c, s, key);
    case DoTimer(b) => TimerKeeps(c, s, b);
    case DoBeginFetch(b) => BeginFetchKeeps(c, s, b);
    case DoEndFetch(b, keys, data, errors) => EndFetchKeeps(c, s, b, keys, data, errors);
    case DoClose(b) => CloseKeeps(c, s, b);
    case DoResolve(t) => ResolveKeeps(c, s, t);
    case DoPrime(_, _) => CacheStepKeeps(c, s, e);
    case DoClear(_) => CacheStepKeeps(c, s, e);
  }

  /** The invariant holds at the end of every schedule that starts where it holds. */
  lemma {:induction false} RunKeeps<V, E>(c: Config<V>, s: State<V, E>, es: seq<Event<V, E>>)
    requires Inv(c, s) && Run(c, s, es).Some?
    ensures Inv(c, Run(c, s, es).value)
    decreases |es|
  {
    if es != [] {
      StepKeeps(c, s, es[0]);
      RunKeeps(c, Apply(c, s, es[0]), es[1..]);
    }
  }

  ghost predicate Reachable<V(!new), E(!new)>(c: Config<V>, s: State<V, E>) {
    exists es :: Run(c, Initial<V, E>(), es) == Some(s)
  }

  lemma ReachableInv<V(!new), E(!new)>(c: Config<V>, s: State<V, E>)
    requires Reachable(c, s)
    ensures Inv(c, s)
  {
    var es :| Run(c, Initial<V, E>(), es) == Some(s);
    RunKeeps(c, Initial<V, E>(), es);
  }

  // ----- what the callers and the runtime can rely on

  /**
   In every reachable state fetch has been called and done closed at most once for each batch, and a timer
   that is about to detach a batch can only detach its own: the current batch is the one it slept for.
   */
  lemma AtMostOnce<V(!new), E(!new)>(c: Config<V>, s: State<V, E>, b: nat)
    requires Reachable(c, s) && b < |s.batches|
    ensures s.batches[b].fetches <= 1 && s.batches[b].closes <= 1
    ensures s.batches[b].closes == 1 ==> s.batches[b].fetches == 1
    ensures Fetched(b) in s.tasks ==> s.batches[b].closes == 0
    ensures Sleeping(b) in s.tasks && !s.batches[b].closing ==> s.current == Some(b)
  {
    ReachableInv(c, s);
    assert BatchOk(c, s, b);
  }

  /** The keys of a batch are distinct, within the limit, and hold every thunk's key where the thunk looks. */
  lemma KeysIndexThunks<V(!new), E(!new)>(c: Config<V>, s: State<V, E>)
    requires Reachable(c, s)
    ensures forall b: nat :: b < |s.batches| ==> s.batches[b].keys != [] && Distinct(s.batches[b].keys)
    ensures c.maxBatch > 0 ==> forall b: nat :: b < |s.batches| ==> |s.batches[b].keys| <= c.maxBatch
    ensures forall b: nat :: b < |s.batches| ==> (s.batches[b].closing <==> c.maxBatch != 0 && |s.batches[b].keys| >= c.maxBatch)
    ensures forall t :: t in s.issued ==> ThunkOk(s, t)
    ensures forall b: nat, keys :: Fetching(b, keys) in s.tasks ==> b < |s.batches| && keys == s.batches[b].keys
  {
    ReachableInv(c, s);
    forall b: nat | b < |s.batches|
      ensures s.batches[b].keys != [] && Distinct(s.batches[b].keys)
      ensures c.maxBatch > 0 ==> |s.batches[b].keys| <= c.maxBatch
      ensures s.batches[b].closing <==> c.maxBatch != 0 && |s.batches[b].keys| >= c.maxBatch
    {
      assert BatchOk(c, s, b);
    }
    forall b: nat, keys | Fetching(b, keys) in s.tasks
      ensures b < |s.batches| && keys == s.batches[b].keys
    {
      assert TaskOk(s, Fetching(b, keys));
    }
  }

  /** Steps only add history: a batch stays, and once it is not current its keys and its detachment are final. */
  ghost predicate Extends<V, E>(s: State<V, E>, s': State<V, E>) {
    && |s.batches| <= |s'.batches|
    && s.issued <= s'.issued
    && s.primed <= s'.primed
    && (s.current.Some? ==> s.current.value < |s.batches|)
    && (s'.current.Some? ==> s'.current == s.current || s'.current.value >= |s.batches|)
    && (forall b: nat :: b < |s.batches| ==> s.batches[b].closes <= s'.batches[b].closes)
    && (forall b: nat :: b < |s.batches| ==> s.batches[b].keys <= s'.batches[b].keys)
    && (forall b: nat :: b < |s.batches| && s.current != Some(b) ==> s'.batches[b].keys == s.batches[b].keys)
    && (forall b: nat :: b < |s.batches| && s.batches[b].closes > 0 ==>
          s'.batches[b].data == s.batches[b].data && s'.batches[b].errors == s.batches[b].errors)
  }

  lemma EnqueueExtends<V, E>(s: State<V, E>, maxBatch: int, key: Key)
    requires s.current.Some? && s.current.value < |s.batches|
    ensures Extends(s, Enqueue(s, maxBatch, key))
  {
    var b := s.current.value;
    var s' := Enqueue(s, maxBatch, key);
    assert s'.batches[b].keys == s.batches[b].keys || s'.batches[b].keys == s.batches[b].keys + [key];
    assert forall a: nat :: a < |s.batches| && a != b ==> s'.batches[a] == s.batches[a];
  }

  lemma CreateExtends<V, E>(s: State<V, E>, maxBatch: int, key: Key)
    requires s.current.None?
    ensures Extends(s, Enqueue(OpenBatch(s), maxBatch, key))
  {
    CreatedBatch(s, maxBatch, key);
    var s' := Enqueue(OpenBatch(s), maxBatch, key);
    assert forall a: nat :: a < |s.batches| ==> s'.batches[a] == s.batches[a];
  }

  lemma TimerExtends<V, E>(s: State<V, E>, b: nat)
    requires b < |s.batches| && (s.current.Some? ==> s.current.value < |s.batches|)
    ensures Extends(s, Timer(s, b))
  {
  }

  lemma BeginFetchExtends<V, E>(s: State<V, E>, b: nat)
    requires b < |s.batches| && (s.current.Some? ==> s.current.value < |s.batches|)
    ensures Extends(s, BeginFetch(s, b))
  {
  }

  lemma EndFetchExtends<V, E>(s: State<V, E>, b: nat, keys: seq<Key>, data: seq<V>, errors: Errors<E>)
    requires b < |s.batches| && s.batches[b].closes == 0 && (s.current.Some? ==> s.current.value < |s.batches|)
    ensures Extends(s, EndFetch(s, b, keys, data, errors))
  {
  }

  lemma CloseExtends<V, E>(s: State<V, E>, b: nat)
    requires b < |s.batches| && (s.current.Some? ==> s.current.value < |s.batches|)
    ensures Extends(s, Close(s, b))
  {
  }

  /** Nothing is closed while a fetch for it is in progress. */
  lemma FetchingIsOpen<V, E>(c: Config<V>, s: State<V, E>, b: nat, keys: seq<Key>)
    requires Inv(c, s) && Fetching(b, keys) in s.tasks
    ensures b < |s.batches| && s.batches[b].closes == 0
  {
    assert TaskOk(s, Fetching(b, keys)) && BatchOk(c, s, b);
  }

  lemma StepExtends<V, E>(c: Config<V>, s: State<V, E>, e: Event<V, E>)
    requires Inv(c, s) && Enabled(c, s, e)
    ensures Extends(s, Apply(c, s, e))
  {
    match e
    case DoLoad(key) =>
      if key !in s.cache {
        if s.current.None? { CreateExtends(s, c.maxBatch, key); } else { EnqueueExtends(s, c.maxBatch, key); }
      }
    case DoTimer(b) => TimerExtends(s, b);
    case DoBeginFetch(b) => BeginFetchExtends(s, b);
    case DoEndFetch(b, keys, data, errors) =>
      FetchingIsOpen(c, s, b, keys);
      EndFetchExtends(s, b, keys, data, errors);
    case DoClose(b) => CloseExtends(s, b);
    case _ =>
  }

  /**
   A detached batch is frozen for the rest of the run, and so are its results once done is closed: the lock-free
   reads of b.keys in `end` and of batch.data in a thunk see the same values whenever they happen.
   */
  lemma {:induction false} DetachedIsFrozen<V, E>(c: Config<V>, s: State<V, E>, es: seq<Event<V, E>>)
    requires Inv(c, s) && Run(c, s, es).Some?
    ensures Extends(s, Run(c, s, es).value)
    decreases |es|
  {
    if es != [] {
      StepKeeps(c, s, es[0]);
      StepExtends(c, s, es[0]);
      DetachedIsFrozen(c, Apply(c, s, es[0]), es[1..]);
    }
  }

  /**
   The batched, cached loader refines the per-key lookup: in every reachable state a cached key, and every thunk
   whose batch is done and that reports no error, yields the lookup of its own key or a value Prime stored for it;
   a thunk that reports an error leaves the cache alone; and no thunk indexes its errors out of range.
   */
  lemma LoaderRefinesLookup<V(!new), E(!new)>(c: Config<V>, s: State<V, E>, t: Thunk)
    requires Reachable(c, s) && t in s.issued && t.batch < |s.batches| && s.batches[t.batch].closes > 0
    ensures var r := Read(s.batches[t.batch], t.pos);
            && r.Loaded?
            && (r.error.None? <==> ErrorFree(s.batches[t.batch].errors, t.pos))
            && (r.error.None? ==> OrAbsent(r.value, c.absent) == c.lookup(t.key))
            && (r.error.Some? ==> Resolve(s, t, c.absent) == s)
    ensures Coherent(c, s) && Coherent(c, Resolve(s, t, c.absent))
  {
    ReachableInv(c, s);
    ResolveKeeps(c, s, t);
    var batch := s.batches[t.batch];
    assert BatchOk(c, s, t.batch) && ThunkOk(s, t);
    assert Read(batch, t.pos) == Read(Batch(batch.keys, batch.data, batch.errors, false, 0, 0), t.pos);
  }

  /** A thunk's index into the error slice is out of range exactly when that slice is neither nil, nor single, nor long enough. */
  lemma PanicsIffErrorsTooShort<V, E>(batch: Batch<V, E>)
    requires batch.keys != []
    ensures (exists pos: nat :: pos < |batch.keys| && Read(batch, pos).IndexPanic?)
            <==> batch.errors.Errors? && |batch.errors.list| != 1 && |batch.errors.list| < |batch.keys|
  {
    if batch.errors.Errors? && |batch.errors.list| != 1 && |batch.errors.list| < |batch.keys| {
      assert Read(batch, |batch.errors.list|).IndexPanic?;
    }
  }

  // ----- what the cache is for

  /**
   A thunk that returns without an error leaves the lookup of its key in the cache and no other key touched. The next load of
   the key is answered from there: it makes no batch, adds no key to one and starts nothing.
   */
  lemma LoadedIsCached<V(!new), E(!new)>(c: Config<V>, s: State<V, E>, t: Thunk)
    requires Reachable(c, s) && Enabled(c, s, DoResolve(t)) && ErrorFree(s.batches[t.batch].errors, t.pos)
    ensures var s' := Apply(c, s, DoResolve(t));
            && t.key in s'.cache && s'.cache[t.key] == c.lookup(t.key)
            && (forall k :: k != t.key ==> (k in s'.cache <==> k in s.cache) && (k in s.cache ==> s'.cache[k] == s.cache[k]))
            && s' == s.(cache := s'.cache)
            && Enabled(c, s', DoLoad(t.key)) && Apply(c, s', DoLoad(t.key)) == s'
            && LoadHandle(s', t.key) == Ready(c.lookup(t.key))
  {
    LoaderRefinesLookup(c, s, t);
    ReachableInv(c, s);
  }

  /** A primed key holds the given value unless it held one before, and every other key what it held. */
  lemma PrimedIsHeld<V, E>(c: Config<V>, s: State<V, E>, key: Key, value: V)
    ensures var s' := Apply(c, s, DoPrime(key, value));
            && key in s'.cache && s'.cache[key] == (if key in s.cache then s.cache[key] else value)
            && (forall k :: k != key ==> (k in s'.cache <==> k in s.cache) && (k in s.cache ==> s'.cache[k] == s.cache[k]))
            && s' == s.(cache := s'.cache, primed := s'.primed)
  {
  }

  /** A cleared key is gone, and no other. */
  lemma ClearedIsGone<V, E>(c: Config<V>, s: State<V, E>, key: Key)
    ensures var s' := Apply(c, s, DoClear(key));
            && key !in s'.cache
            && (forall k :: k != key ==> (k in s'.cache <==> k in s.cache) && (k in s.cache ==> s'.cache[k] == s.cache[k]))
            && s' == s.(cache := s'.cache)
  {
  }

  /** Without a batch that is collecting, a key that is not cached starts one, and touches no other. */
  lemma LoadStartsBatch<V, E>(c: Config<V>, s: State<V, E>, key: Key)
    requires s.current.None? && key !in s.cache
    ensures var s' := Apply(c, s, DoLoad(key));
            && s'.cache == s.cache
            && |s'.batches| == |s.batches| + 1 && s'.batches[|s.batches|].keys == [key]
            && (forall a: nat :: a < |s.batches| ==> s'.batches[a] == s.batches[a])
  {
    CreatedBatch(s, c.maxBatch, key);
  }

  /** Otherwise it joins that batch, once. */
  lemma LoadJoinsBatch<V, E>(c: Config<V>, s: State<V, E>, key: Key)
    requires s.current.Some? && s.current.value < |s.batches| && key !in s.cache
    ensures var s' := Apply(c, s, DoLoad(key));
            var keys := s.batches[s.current.value].keys;
            && s'.cache == s.cache && |s'.batches| == |s.batches|
            && s'.batches[s.current.value].keys == (if key in keys then keys else keys + [key])
            && (forall a: nat :: a < |s.batches| && a != s.current.value ==> s'.batches[a] == s.batches[a])
  {
  }

  // ----- progress

  ghost function Measure<V, E>(s: State<V, E>, n: nat): nat
    requires n <= |s.batches|
  {
    if n == 0 then 0 else Measure(s, n - 1) + Pending(s, n - 1)
  }

  ghost predicate IsWork<V, E>(e: Event<V, E>) {
    e.DoTimer? || e.DoBeginFetch? || e.DoEndFetch? || e.DoClose?
  }

  lemma {:induction false} MeasureFalls<V, E>(s: State<V, E>, s': State<V, E>, b: nat, n: nat)
    requires n <= |s.batches| && b < |s.batches| && OnlyTouches(s, s', b)
    requires Pending(s', b) < Pending(s, b)
    ensures if b < n then Measure(s', n) < Measure(s, n) else Measure(s', n) == Measure(s, n)
  {
    if n > 0 {
      MeasureFalls(s, s', b, n - 1);
      var a := n - 1;
      if a != b {
        assert s'.tasks[Sleeping(a)] == s.tasks[Sleeping(a)];
        assert s'.tasks[Ending(a)] == s.tasks[Ending(a)];
        assert s'.tasks[Fetched(a)] == s.tasks[Fetched(a)];
        assert s'.tasks[Fetching(a, s.batches[a].keys)] == s.tasks[Fetching(a, s.batches[a].keys)];
      }
    }
  }

  /** Each timer or end step brings the measure down. */
  lemma WorkDecreases<V, E>(c: Config<V>, s: State<V, E>, e: Event<V, E>)
    requires Inv(c, s) && Enabled(c, s, e) && IsWork(e)
    ensures |Apply(c, s, e).batches| == |s.batches|
    ensures Measure(Apply(c, s, e), |s.batches|) < Measure(s, |s.batches|)
  {
    match e {
      case DoTimer(b) => TimerKeeps(c, s, b);
      case DoBeginFetch(b) => BeginFetchKeeps(c, s, b);
      case DoEndFetch(b, keys, data, errors) => EndFetchKeeps(c, s, b, keys, data, errors);
      case DoClose(b) => CloseKeeps(c, s, b);
    }
    MeasureFalls(s, Apply(c, s, e), e.batch, |s.batches|);
  }

  /** The step a waiting batch needs next; `data` and `errors` are what fetch answers if that step is its return. */
  ghost function NextWork<V, E>(s: State<V, E>, b: nat, data: seq<V>, errors: Errors<E>): Event<V, E>
    requires b < |s.batches|
  {
    if Fetched(b) in s.tasks then DoClose(b)
    else if Fetching(b, s.batches[b].keys) in s.tasks then DoEndFetch(b, s.batches[b].keys, data, errors)
    else if Ending(b) in s.tasks then DoBeginFetch(b)
    else DoTimer(b)
  }

  /** As long as a batch is not done, one of its own goroutines can take a step. */
  lemma WaitingBatchHasWork<V, E>(c: Config<V>, s: State<V, E>, b: nat, data: seq<V>, errors: Errors<E>)
    requires Inv(c, s) && b < |s.batches| && s.batches[b].closes == 0
    requires Pointwise(c, s.batches[b].keys, data, errors)
    ensures Enabled(c, s, NextWork(s, b, data, errors)) && IsWork(NextWork(s, b, data, errors))
  {
    assert BatchOk(c, s, b);
  }

  /** A schedule of timer and end steps alone is no longer than the measure it starts from. */
  lemma {:induction false} WorkIsBounded<V, E>(c: Config<V>, s: State<V, E>, es: seq<Event<V, E>>)
    requires Inv(c, s) && Run(c, s, es).Some? && (forall e :: e in es ==> IsWork(e))
    ensures var s' := Run(c, s, es).value;
            |s'.batches| == |s.batches| && |es| + Measure(s', |s.batches|) <= Measure(s, |s.batches|)
    decreases |es|
  {
    if es != [] {
      StepKeeps(c, s, es[0]);
      WorkDecreases(c, s, es[0]);
      WorkIsBounded(c, Apply(c, s, es[0]), es[1..]);
    }
  }

  /**
   Progress: with no new loads, every schedule of timer and end steps ends within Measure steps, and where it can go
   no further (whatever fetch would answer) done is closed for every batch, so every thunk handed out can return.
   */
  lemma EveryThunkReturns<V(!new), E(!new)>(c: Config<V>, s: State<V, E>, es: seq<Event<V, E>>)
    requires Reachable(c, s) && Run(c, s, es).Some? && (forall e :: e in es ==> IsWork(e))
    requires var s' := Run(c, s, es).value;
             forall e: Event<V, E> :: IsWork(e) ==> !Enabled(c, s', e)
    ensures |es| <= Measure(s, |s.batches|)
    ensures var s' := Run(c, s, es).value;
            forall t :: t in s'.issued ==> t.batch < |s'.batches| && s'.batches[t.batch].closes == 1
  {
    ReachableInv(c, s);
    WorkIsBounded(c, s, es);
    RunKeeps(c, s, es);
    var s' := Run(c, s, es).value;
    forall t | t in s'.issued
      ensures t.batch < |s'.batches| && s'.batches[t.batch].closes == 1
    {
      assert ThunkOk(s', t);
      var b := t.batch;
      var keys := s'.batches[b].keys;
      assert BatchOk(c, s', b);
      if s'.batches[b].closes == 0 {
        var data := seq(|keys|, i requires 0 <= i < |keys| => c.lookup(keys[i]));
        WaitingBatchHasWork(c, s', b, data, NoErrors);
      }
    }
  }

  // ----- composing runs

  ghost predicate Leads<V(!new), E(!new)>(c: Config<V>, s: State<V, E>, s': State<V, E>) {
    exists es :: Run(c, s, es) == Some(s')
  }

  lemma LeadsNowhere<V(!new), E(!new)>(c: Config<V>, s: State<V, E>)
    ensures Leads(c, s, s)
  {
    assert Run(c, s, []) == Some(s);
  }

  lemma LeadsByStep<V(!new), E(!new)>(c: Config<V>, s: State<V, E>, e: Event<V, E>)
    requires Enabled(c, s, e)
    ensures Leads(c, s, Apply(c, s, e))
  {
    assert Run(c, Apply(c, s, e), []) == Some(Apply(c, s, e));
    assert Run(c, s, [e]) == Some(Apply(c, s, e));
  }

  lemma RunFirst<V, E>(c: Config<V>, s: State<V, E>, es: seq<Event<V, E>>)
    requires es != []
    ensures Run(c, s, es) == if Enabled(c, s, es[0]) then Run(c, Apply(c, s, es[0]), es[1..]) else None
  {
  }

  lemma {:induction false} RunConcat<V, E>(c: Config<V>, s: State<V, E>, es: seq<Event<V, E>>, fs: seq<Event<V, E>>)
    requires Run(c, s, es).Some?
    ensures Run(c, s, es + fs) == Run(c, Run(c, s, es).value, fs)
    decreases |es|
  {
    if es == [] {
      assert es + fs == fs;
    } else {
      var all := es + fs;
      assert all[0] == es[0] && all[1..] == es[1..] + fs;
      RunFirst(c, s, es);
      RunFirst(c, s, all);
      RunConcat(c, Apply(c, s, es[0]), es[1..], fs);
    }
  }

  lemma LeadsOn<V(!new), E(!new)>(c: Config<V>, s: State<V, E>, s': State<V, E>, s'': State<V, E>)
    requires Leads(c, s, s') && Leads(c, s', s'')
    ensures Leads(c, s, s'')
  {
    var es :| Run(c, s, es) == Some(s');
    var fs :| Run(c, s', fs) == Some(s'');
    RunConcat(c, s, es, fs);
  }

  /** The state after that next step; `data` is what fetch answers, without errors, if the step is its return. */
  ghost function AfterNextWork<V, E>(s: State<V, E>, b: nat, data: seq<V>): State<V, E>
    requires b < |s.batches|
  {
    if Fetched(b) in s.tasks then Close(s, b)
    else if Fetching(b, s.batches[b].keys) in s.tasks then EndFetch(s, b, s.batches[b].keys, data, NoErrors)
    else if Ending(b) in s.tasks then BeginFetch(s, b)
    else Timer(s, b)
  }

  lemma NextWorkAdvances<V(!new), E(!new)>(c: Config<V>, s: State<V, E>, b: nat, data: seq<V>)
    requires Inv(c, s) && b < |s.batches| && s.batches[b].closes == 0
    requires Pointwise(c, s.batches[b].keys, data, Errors<E>.NoErrors)
    ensures var s' := AfterNextWork(s, b, data);
            && Leads(c, s, s') && |s'.batches| == |s.batches|
            && Measure(s', |s.batches|) < Measure(s, |s.batches|)
  {
    var e := NextWork(s, b, data, NoErrors);
    WaitingBatchHasWork(c, s, b, data, NoErrors);
    WorkDecreases(c, s, e);
    LeadsByStep(c, s, e);
  }

  lemma LeadsKeeps<V(!new), E(!new)>(c: Config<V>, s: State<V, E>, s': State<V, E>)
    requires Inv(c, s) && Leads(c, s, s')
    ensures Inv(c, s') && Extends(s, s')
  {
    var es :| Run(c, s, es) == Some(s');
    RunKeeps(c, s, es);
    DetachedIsFrozen(c, s, es);
  }
}
