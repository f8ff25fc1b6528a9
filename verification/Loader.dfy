/**
 The dataloader's objects, updated in place. Each method below is one atomic step of a goroutine (a section under
 the loader's mutex, or a part of `end` between its effects) and is proved to be the protocol's step of that name;
 LoadAll is proved against every interleaving of those steps with its own.
 */
module Loader {
  import opened Wrappers
  import opened P = LoaderProtocol

  class LoaderBatch<V, E> {
    const id: nat
    var keys: seq<Key>
    var data: seq<V>
    var error: Errors<E>
    var closing: bool
    var done: bool
    ghost var fetches: nat
    ghost var closes: nat

    constructor (id: nat)
      ensures this.id == id && Value() == Batch([], [], NoErrors, false, 0, 0) && !done
    {
      this.id := id;
      keys, data, error, closing, done := [], [], NoErrors, false, false;
      fetches, closes := 0, 0;
    }

    ghost function Value(): Batch<V, E>
      reads this
    {
      Batch(keys, data, error, closing, fetches, closes)
    }
  }

  /** What a thunk captured: a cached value, or the batch it waits for and its position there. */
  datatype Captured<!V, !E> = Cached(value: V) | Waits(batch: LoaderBatch<V, E>, pos: nat)

  ghost function Values<V, E>(heap: seq<LoaderBatch<V, E>>): seq<Batch<V, E>>
    reads heap
  {
    seq(|heap|, i requires 0 <= i < |heap| reads heap => heap[i].Value())
  }

  class DataLoader<V(==, !new), E(!new)> {
    const config: Config<V>
    var cache: map<Key, V>
    var batch: LoaderBatch?<V, E>
    var tasks: multiset<Task>
    var heap: seq<LoaderBatch<V, E>>
    ghost var issued: set<Thunk>
    ghost var primed: set<(Key, V)>

    ghost function Batches(): seq<Batch<V, E>>
      reads this`heap, heap
    {
      Values(heap)
    }

    ghost function State(): P.State<V, E>
      reads this, batch, heap
    {
      P.State(cache, if batch == null then None else Some(batch.id), Batches(), tasks, issued, primed)
    }

    ghost predicate Valid()
      reads this, batch, heap
    {
      && (forall i :: 0 <= i < |heap| ==> heap[i].id == i && heap[i].done == (heap[i].closes > 0))
      && (batch != null ==> batch in heap)
      && Inv(config, State())
    }

    /** Batches are only ever added, and the added ones are new objects. */
    twostate predicate Grown()
      reads this
    {
      old(heap) <= heap && forall i :: |old(heap)| <= i < |heap| ==> fresh(heap[i])
    }

    constructor (config: Config<V>)
      ensures Valid() && State() == Initial() && this.config == config && heap == []
    {
      this.config := config;
      cache, batch, tasks, heap, issued, primed := map[], null, multiset{}, [], {}, {};
    }

    /** The loop of keyIndex: the first position of the key, or the length if it is not there. */
    method Find(b: LoaderBatch<V, E>, key: Key) returns (pos: nat)
      ensures pos == Position(b.keys, key)
    {
      for i := 0 to |b.keys|
        invariant key !in b.keys[..i]
        invariant Position(b.keys, key) == i + Position(b.keys[i..], key)
      {
        if b.keys[i] == key {
          return i;
        }
        assert b.keys[i..][1..] == b.keys[i + 1..];
      }
      return |b.keys|;
    }

    /** keyIndex: the first position of the key, which is appended if it is not there. */
    method KeyIndex(key: Key) returns (pos: nat)
      requires batch != null && batch in heap
      requires forall i :: 0 <= i < |heap| ==> heap[i].id == i
      modifies this`batch, this`tasks, this`issued, batch
      ensures State() == Enqueue(old(State()), config.maxBatch, key)
      ensures pos == Position(old(batch.keys), key)
      ensures old(batch).done == old(batch.done) && old(batch).closes == old(batch.closes)
      ensures batch == old(batch) || batch == null
    {
      var b := batch;
      pos := Find(b, key);
      issued := issued + {Thunk(key, b.id, pos)};
      if pos < |b.keys| {
        assert Batches() == old(Batches());
        return;
      }
      AppendKey(key, pos);
    }

    method AppendKey(key: Key, pos: nat)
      requires batch != null && batch in heap && pos == |batch.keys| == Position(batch.keys, key)
      requires forall i :: 0 <= i < |heap| ==> heap[i].id == i
      modifies this`batch, this`tasks, batch
      ensures State().(issued := {}) == Enqueue(old(State()), config.maxBatch, key).(issued := {}) && issued == old(issued)
      ensures old(batch).done == old(batch.done) && old(batch).closes == old(batch.closes)
      ensures batch == old(batch) || batch == null
    {
      PushKey(key, pos);
      if config.maxBatch != 0 && pos >= config.maxBatch - 1 {
        if !batch.closing {
          DetachFull();
        }
      }
    }

    /** The key goes to the end, and the first one starts the batch's timer. */
    method PushKey(key: Key, pos: nat)
      requires batch != null && batch in heap && pos == |batch.keys|
      requires forall i :: 0 <= i < |heap| ==> heap[i].id == i
      modifies this`tasks, batch`keys
      ensures batch.keys == old(batch.keys) + [key] && State().batches == old(State()).batches[batch.id := batch.Value()]
      ensures State() == old(State()).(batches := Batches(), tasks := tasks)
      ensures tasks == if pos == 0 then old(tasks) + multiset{Sleeping(batch.id)} else old(tasks)
    {
      batch.keys := batch.keys + [key];
      assert Batches() == old(Batches())[batch.id := batch.Value()];
      if pos == 0 {
        tasks := tasks + multiset{Sleeping(batch.id)};
      }
    }

    /** The batch limit is reached: close the batch to new keys and start its end. */
    method DetachFull()
      requires batch != null && batch in heap
      requires forall i :: 0 <= i < |heap| ==> heap[i].id == i
      modifies this`batch, this`tasks, batch`closing
      ensures var b := old(batch).id;
              State() == SetBatch(old(State()), b, old(State()).batches[b].(closing := true))
                         .(current := None, tasks := old(tasks) + multiset{Ending(b)})
      ensures batch == null
    {
      var b := batch;
      ghost var before := Batches();
      b.closing := true;
      assert Batches() == before[b.id := b.Value()];
      batch := null;
      tasks := tasks + multiset{Ending(b.id)};
    }

    /** The lock section of LoadThunk. */
    method LoadThunk(key: Key) returns (t: Captured<V, E>)
      requires Valid()
      modifies this, batch
      ensures Valid() && Grown()
      ensures State() == Load(old(State()), config.maxBatch, key)
      ensures match t
              case Cached(value) => LoadHandle(old(State()), key) == Ready(value)
              case Waits(b, pos) => b in heap && LoadHandle(old(State()), key) == Waiting(Thunk(key, b.id, pos))
                                    && Thunk(key, b.id, pos) in issued
    {
      LoadKeeps(config, State(), key);
      if key in cache {
        return Cached(cache[key]);
      }
      t := Join(key);
    }

    /** The key joins the current batch, or a new one. */
    method Join(key: Key) returns (t: Captured<V, E>)
      requires key !in cache && (batch != null ==> batch in heap)
      requires forall i :: 0 <= i < |heap| ==> heap[i].id == i && heap[i].done == (heap[i].closes > 0)
      modifies this`batch, this`heap, this`tasks, this`issued, batch
      ensures (batch != null ==> batch in heap) && Grown()
      ensures forall i :: 0 <= i < |heap| ==> heap[i].id == i && heap[i].done == (heap[i].closes > 0)
      ensures State() == Load(old(State()), config.maxBatch, key)
      ensures t.Waits? && t.batch in heap && LoadHandle(old(State()), key) == Waiting(Thunk(key, t.batch.id, t.pos))
      ensures Thunk(key, t.batch.id, t.pos) in issued
    {
      EnsureBatch();
      var b := batch;
      ghost var pending := Thunk(key, b.id, Position(b.keys, key));
      assert b.keys == State().batches[b.id].keys;
      var pos := KeyIndex(key);
      assert pending in issued;
      t := Waits(b, pos);
    }

    /** A batch for the next key, if there is none. */
    method EnsureBatch()
      requires batch != null ==> batch in heap
      requires forall i :: 0 <= i < |heap| ==> heap[i].id == i && heap[i].done == (heap[i].closes > 0)
      modifies this`batch, this`heap
      ensures batch != null && batch in heap && State() == OpenBatch(old(State())) && Grown()
      ensures forall i :: 0 <= i < |heap| ==> heap[i].id == i && heap[i].done == (heap[i].closes > 0)
      ensures forall i :: 0 <= i < |old(heap)| ==> unchanged(heap[i])
      ensures old(batch) == null ==> fresh(batch)
      ensures old(batch) != null ==> batch == old(batch)
    {
      if batch == null {
        batch := new LoaderBatch(|heap|);
        heap := heap + [batch];
        assert Batches() == old(Batches()) + [batch.Value()];
      }
    }

    /** startTimer once its sleep is over. */
    method TimerWakes(b: LoaderBatch<V, E>)
      requires Valid() && b in heap && Sleeping(b.id) in tasks
      modifies this`batch, this`tasks
      ensures Valid() && State() == Timer(old(State()), b.id)
      ensures old(batch) != batch ==> old(batch) == b && batch == null
    {
      ghost var after := Timer(State(), b.id);
      TimerKeeps(config, State(), b.id);
      assert Batches()[b.id] == b.Value();
      tasks := tasks - multiset{Sleeping(b.id)};
      if b.closing {
        assert Batches() == old(Batches());
        assert State() == after;
        return;
      }
      batch := null;
      tasks := tasks + multiset{Ending(b.id)};
      assert Batches() == old(Batches());
      assert State() == after;
    }

    /** end reads the keys and calls fetch, both without the mutex. */
    method BeginFetch(b: LoaderBatch<V, E>) returns (keys: seq<Key>)
      requires Valid() && b in heap && Ending(b.id) in tasks
      modifies this`tasks, b`fetches
      ensures Valid() && keys == b.keys && State() == P.BeginFetch(old(State()), b.id)
    {
      BeginFetchKeeps(config, State(), b.id);
      keys := b.keys;
      b.fetches := b.fetches + 1;
      tasks := tasks - multiset{Ending(b.id)} + multiset{Fetching(b.id, keys)};
      assert Batches() == old(Batches())[b.id := b.Value()];
    }

    /** fetch has answered. */
    method EndFetch(b: LoaderBatch<V, E>, keys: seq<Key>, data: seq<V>, error: Errors<E>)
      requires Valid() && b in heap && Fetching(b.id, keys) in tasks && Pointwise(config, keys, data, error)
      modifies this`tasks, b`data, b`error
      ensures Valid() && State() == P.EndFetch(old(State()), b.id, keys, data, error)
      ensures b.data == data && b.error == error
    {
      EndFetchKeeps(config, State(), b.id, keys, data, error);
      StoreAnswer(b, keys, data, error);
    }

    method StoreAnswer(b: LoaderBatch<V, E>, keys: seq<Key>, data: seq<V>, error: Errors<E>)
      requires b in heap && forall i :: 0 <= i < |heap| ==> heap[i].id == i
      modifies this`tasks, b`data, b`error
      ensures State() == P.EndFetch(old(State()), b.id, keys, data, error)
      ensures b.data == data && b.error == error
    {
      b.data, b.error := data, error;
      tasks := tasks - multiset{Fetching(b.id, keys)} + multiset{Fetched(b.id)};
      assert Batches() == old(Batches())[b.id := b.Value()];
    }

    /** close(done), which would panic on a channel that is closed already. */
    method CloseDone(b: LoaderBatch<V, E>)
      requires Valid() && b in heap && Fetched(b.id) in tasks
      modifies this`tasks, b`done, b`closes
      ensures Valid() && !old(b.done) && b.done && State() == Close(old(State()), b.id)
    {
      CloseKeeps(config, State(), b.id);
      assert Batches()[b.id] == b.Value();
      MarkDone(b);
    }

    method MarkDone(b: LoaderBatch<V, E>)
      requires b in heap && forall i :: 0 <= i < |heap| ==> heap[i].id == i
      modifies this`tasks, b`done, b`closes
      ensures b.done && b.closes == old(b.closes) + 1 && State() == Close(old(State()), b.id)
    {
      b.done, b.closes := true, b.closes + 1;
      tasks := tasks - multiset{Fetched(b.id)};
      assert Batches() == old(Batches())[b.id := b.Value()];
    }

    /** The body of a waiting thunk after done is closed. */
    method CallThunk(key: Key, b: LoaderBatch<V, E>, pos: nat) returns (data: V, err: Option<E>)
      requires Valid() && b in heap && b.done && Thunk(key, b.id, pos) in issued
      modifies this`cache
      ensures Valid() && State() == Resolve(old(State()), Thunk(key, b.id, pos), config.absent)
      ensures err.None? ==> data == config.lookup(key)
      ensures cache == if err.None? then old(cache)[key := data] else old(cache)
      ensures data == if pos < |b.data| then b.data[pos] else config.absent
      ensures match b.error
              case NoErrors => err == None
              case Errors(list) => |list| > 0 && if |list| == 1 then err == list[0] else pos < |list| && err == list[pos]
    {
      ghost var t := Thunk(key, b.id, pos);
      ResolveKeeps(config, State(), t);
      assert Batches()[b.id] == b.Value() && ThunkOk(State(), t) && BatchOk(config, State(), b.id);
      assert Read(b.Value(), pos) == Read(Batch(b.keys, b.data, b.error, false, 0, 0), pos);
      data := if pos < |b.data| then b.data[pos] else config.absent;
      err := None;
      match b.error {
        case NoErrors =>
        case Errors(list) =>
          if |list| == 1 {
            err := list[0];
          } else {
            err := list[pos];
          }
      }
      if err.None? {
        cache := cache[key := data];
      }
      assert Batches() == old(Batches());
    }

    /** Prime: the value is a copy its caller no longer shares. */
    method Prime(key: Key, value: V) returns (stored: bool)
      requires Valid()
      modifies this`cache, this`primed
      ensures Valid() && State() == P.Prime(old(State()), key, value) && stored == (key !in old(cache))
      ensures cache == if key in old(cache) then old(cache) else old(cache)[key := value]
    {
      CacheStepKeeps(config, State(), DoPrime(key, value));
      stored := key !in cache;
      if stored {
        cache, primed := cache[key := value], primed + {(key, value)};
      }
      assert Batches() == old(Batches());
    }

    method Clear(key: Key)
      requires Valid()
      modifies this`cache
      ensures Valid() && State() == P.Clear(old(State()), key) && cache == old(cache) - {key}
    {
      CacheStepKeeps(config, State(), DoClear(key));
      cache := cache - {key};
      assert Batches() == old(Batches());
    }

    /**
     Any number of steps of other goroutines: all a caller knows afterwards is that some schedule happened.
     */
    method Interleave()
      requires Valid()
      modifies this, heap
      ensures Valid() && Grown() && Leads(config, old(State()), State())
    {
      LeadsNowhere(config, State());
    }

    /**
     `<-batch.done`. The body drives the batch's own goroutines, so the wait is proved to end; callers are told only
     that some schedule happened at whose end done is closed.
     */
    method Await(b: LoaderBatch<V, E>)
      requires Valid() && b in heap
      modifies this, heap
      ensures Valid() && Grown() && Leads(config, old(State()), State())
      ensures b.done
    {
      LeadsNowhere(config, State());
      while !b.done
        invariant Valid() && heap == old(heap) && Leads(config, old(State()), State())
        decreases Measure(State(), |heap|)
      {
        ghost var before := State();
        Schedule(b);
        LeadsOn(config, old(State()), before, State());
      }
    }

    /** The goroutine that works on a batch that is not done gets its turn. */
    method Schedule(b: LoaderBatch<V, E>)
      requires Valid() && b in heap && !b.done
      modifies this`batch, this`tasks, b
      ensures Valid() && Leads(config, old(State()), State())
      ensures Measure(State(), |heap|) < Measure(old(State()), |heap|)
    {
      assert State().batches[b.id] == b.Value();
      var data := seq(|b.keys|, i requires 0 <= i < |b.keys| reads b => config.lookup(b.keys[i]));
      NextWorkAdvances(config, State(), b.id, data);
      Advance(b, data);
    }

    /** One step of the goroutine that currently works on a batch that is not done. */
    method Advance(b: LoaderBatch<V, E>, data: seq<V>)
      requires Valid() && b in heap && !b.done && Pointwise(config, b.keys, data, Errors<E>.NoErrors)
      modifies this`batch, this`tasks, b
      ensures Valid() && State() == AfterNextWork(old(State()), b.id, data)
    {
      assert State().batches[b.id] == b.Value();
      WaitingBatchHasWork(config, State(), b.id, data, NoErrors);
      if Fetched(b.id) in tasks {
        CloseDone(b);
      } else if Fetching(b.id, b.keys) in tasks {
        EndFetch(b, b.keys, data, NoErrors);
      } else if Ending(b.id) in tasks {
        var _ := BeginFetch(b);
      } else {
        TimerWakes(b);
      }
    }

    ghost predicate AllPromised(keys: seq<Key>, thunks: seq<Captured<V, E>>)
      reads this
    {
      |thunks| <= |keys| && forall i :: 0 <= i < |thunks| ==> Promised(keys[i], thunks[i])
    }

    method RequestNext(keys: seq<Key>, thunks: seq<Captured<V, E>>) returns (more: seq<Captured<V, E>>)
      requires Valid() && AllPromised(keys, thunks) && |thunks| < |keys|
      modifies this, heap
      ensures Valid() && Grown() && Leads(config, old(State()), State())
      ensures old(issued) <= issued && old(primed) <= primed
      ensures AllPromised(keys, more) && |more| == |thunks| + 1
    {
      var t := Request(keys[|thunks|]);
      more := thunks + [t];
    }

    /** The thunks of LoadAll and LoadAllThunk, with other goroutines running before each load. */
    method LoadAllThunk(keys: seq<Key>) returns (thunks: seq<Captured<V, E>>)
      requires Valid()
      modifies this, heap
      ensures Valid() && Grown() && Leads(config, old(State()), State())
      ensures old(issued) <= issued && old(primed) <= primed
      ensures |thunks| == |keys| && AllPromised(keys, thunks)
    {
      thunks := [];
      LeadsNowhere(config, State());
      for n := 0 to |keys|
        invariant Valid() && Grown() && Leads(config, old(State()), State())
        invariant old(issued) <= issued && old(primed) <= primed
        invariant |thunks| == n && AllPromised(keys, thunks)
      {
        ghost var before := State();
        thunks := RequestNext(keys, thunks);
        LeadsOn(config, old(State()), before, State());
      }
    }

    ghost predicate AllAnswered(keys: seq<Key>, results: seq<V>, errors: seq<Option<E>>)
      reads this
    {
      |results| == |errors| <= |keys| && forall i :: 0 <= i < |results| ==> Answers(keys[i], results[i], errors[i])
    }

    method CollectNext(keys: seq<Key>, thunks: seq<Captured<V, E>>, results: seq<V>, errors: seq<Option<E>>)
      returns (results': seq<V>, errors': seq<Option<E>>)
      requires Valid() && |results| < |thunks| == |keys| && AllPromised(keys, thunks) && AllAnswered(keys, results, errors)
      modifies this, heap
      ensures Valid() && Grown() && Leads(config, old(State()), State())
      ensures AllPromised(keys, thunks) && AllAnswered(keys, results', errors') && |results'| == |results| + 1
    {
      var data, err := Collect(keys[|results|], thunks[|results|]);
      results', errors' := results + [data], errors + [err];
    }

    /** Calling the thunks in order, each of which waits while other goroutines run. */
    method CallAll(keys: seq<Key>, thunks: seq<Captured<V, E>>) returns (results: seq<V>, errors: seq<Option<E>>)
      requires Valid() && |thunks| == |keys| && AllPromised(keys, thunks)
      modifies this, heap
      ensures Valid() && Grown() && Leads(config, old(State()), State())
      ensures |results| == |keys| && AllAnswered(keys, results, errors)
    {
      results, errors := [], [];
      LeadsNowhere(config, State());
      for n := 0 to |keys|
        invariant Valid() && Grown() && Leads(config, old(State()), State())
        invariant AllPromised(keys, thunks) && |results| == n && AllAnswered(keys, results, errors)
      {
        ghost var before := State();
        results, errors := CollectNext(keys, thunks, results, errors);
        LeadsOn(config, old(State()), before, State());
      }
    }

    /**
     LoadAll. Whatever other goroutines do meanwhile, a key that comes back without an error comes back with its own
     lookup, or with a value somebody primed for that key.
     */
    method LoadAll(keys: seq<Key>) returns (results: seq<V>, errors: seq<Option<E>>)
      requires Valid()
      modifies this, heap
      ensures Valid() && Grown() && Leads(config, old(State()), State())
      ensures |results| == |keys| && AllAnswered(keys, results, errors)
    {
      var thunks := LoadAllThunk(keys);
      ghost var middle := State();
      results, errors := CallAll(keys, thunks);
      LeadsOn(config, old(State()), middle, State());
    }

    /** LoadThunk for one key, after whatever other goroutines do first. */
    method Request(key: Key) returns (t: Captured<V, E>)
      requires Valid()
      modifies this, heap
      ensures Valid() && Grown() && Leads(config, old(State()), State())
      ensures old(issued) <= issued && old(primed) <= primed
      ensures Promised(key, t)
    {
      Interleave();
      ghost var s := State();
      LeadsKeeps(config, old(State()), s);
      LeadsByStep(config, s, DoLoad(key));
      t := LoadThunk(key);
      LeadsKeeps(config, s, State());
      LeadsOn(config, old(State()), s, State());
    }

    /** A thunk's call: wait for its batch while other goroutines run, then read. */
    method Collect(key: Key, t: Captured<V, E>) returns (data: V, err: Option<E>)
      requires Valid() && Promised(key, t)
      modifies this, heap
      ensures Valid() && Grown() && Leads(config, old(State()), State())
      ensures old(issued) <= issued && old(primed) <= primed
      ensures Answers(key, data, err)
    {
      match t {
        case Cached(value) =>
          data, err := value, None;
          LeadsNowhere(config, State());
        case Waits(b, pos) =>
          Await(b);
          ghost var s := State();
          LeadsKeeps(config, old(State()), s);
          assert s.batches[b.id] == b.Value();
          LeadsByStep(config, s, DoResolve(Thunk(key, b.id, pos)));
          data, err := CallThunk(key, b, pos);
          LeadsOn(config, old(State()), s, State());
      }
    }

    /** An answer without an error is the key's own lookup, or a value primed for that key. */
    ghost predicate Answers(key: Key, data: V, err: Option<E>)
      reads this
    {
      err.None? ==> data == config.lookup(key) || (key, data) in primed
    }

    /** What a thunk LoadThunk handed out for this key is good for, now and later. */
    ghost predicate Promised(key: Key, t: Captured<V, E>)
      reads this
    {
      match t
      case Cached(value) => value == config.lookup(key) || (key, value) in primed
      case Waits(b, pos) => b in heap && Thunk(key, b.id, pos) in issued
    }
  }

  datatype Primed = Panics | Done(stored: bool)

  /**
   Prime of the pointer-valued loader. The value behind the pointer is copied only when it is stored, so a nil pointer panics
   exactly when there is no entry yet.
   */
  method PrimePointer<V(==, !new), E(!new)>(l: DataLoader<Option<V>, E>, key: Key, value: Option<V>) returns (r: Primed)
    requires l.Valid()
    modifies l`cache, l`primed
    ensures l.Valid() && (r.Panics? <==> key !in old(l.cache) && value.None?)
    ensures r.Panics? ==> l.State() == old(l.State())
    ensures r.Done? ==> l.State() == P.Prime(old(l.State()), key, value) && r.stored == (key !in old(l.cache))
  {
    if key !in l.cache && value.None? {
      return Panics;
    }
    var stored := l.Prime(key, value);
    return Done(stored);
  }

  /** Prime of the slice-valued loader: the cached value is copied element by element, and only when it is stored. */
  method PrimeStrings<E(!new)>(l: DataLoader<seq<string>, E>, key: Key, value: array<string>) returns (stored: bool)
    requires l.Valid()
    modifies l`cache, l`primed
    ensures l.Valid() && l.State() == P.Prime(old(l.State()), key, value[..]) && stored == (key !in old(l.cache))
  {
    if key in l.cache {
      return false;
    }
    var cpy: seq<string> := [];
    for i := 0 to value.Length
      invariant cpy == value[..i]
    {
      cpy := cpy + [value[i]];
    }
    assert cpy == value[..];
    stored := l.Prime(key, cpy);
  }
}
