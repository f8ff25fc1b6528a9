/**
 The auth cache as a protocol: two concurrent maps, the goroutines part-way through CacheGet, CacheSet and CacheInvalidate,
 the database reads that are on their way into the cache, and the clock. A step is one operation on one map, together
 with the reading of the clock that forms its argument.
 */
module AuthProtocol {

  import opened Wrappers

  type Id = int

  datatype AuthUser = AuthUser(id: Id, name: string, apiKey: string)

  datatype CachedAuth = CachedAuth(user: AuthUser, roles: seq<string>, expires: int)

  const CACHE_TTL: int := 30_000_000_000
  const TOMBSTONE_TTL: int := 5_000_000_000

  // ----- the two maps and the calls on them

  datatype Tables = Tables(cache: map<Id, CachedAuth>, tombstones: map<Id, int>)

  ghost function Get(t: Tables, id: Id, now: int): (Tables, Option<CachedAuth>) {
    if id !in t.cache then (t, None)
    else if now > t.cache[id].expires then (t.(cache := t.cache - {id}), None)
    else (t, Some(t.cache[id]))
  }

  /** `now` is the clock at the comparison with the tombstone, `later` the clock when the expiry is computed. */
  ghost function Set(t: Tables, user: AuthUser, roles: seq<string>, now: int, later: int): Tables {
    if user.id in t.tombstones && now < t.tombstones[user.id] then t
    else Tables(t.cache[user.id := CachedAuth(user, roles, later + CACHE_TTL)], t.tombstones - {user.id})
  }

  ghost function Invalidate(t: Tables, id: Id, now: int): Tables {
    Tables(t.cache - {id}, t.tombstones[id := now + TOMBSTONE_TTL])
  }

  /** A hit exactly for an entry that has not expired; an expired one is deleted, and nothing else changes. */
  lemma GetIff(t: Tables, id: Id, now: int)
    ensures var (after, hit) := Get(t, id, now);
            && (hit.Some? <==> id in t.cache && now <= t.cache[id].expires)
            && (hit.Some? ==> hit.value == t.cache[id] && after == t)
            && (hit.None? ==> id !in after.cache && after == t.(cache := t.cache - {id}))
  {
    assert id !in t.cache ==> t.cache - {id} == t.cache;
  }

  /** What CacheSet does, in terms of later answers: nothing under a live tombstone, otherwise hits for CACHE_TTL and no longer. */
  lemma SetThenGet(t: Tables, user: AuthUser, roles: seq<string>, now: int, later: int, g: int)
    requires now <= later <= g
    ensures var after := Set(t, user, roles, now, later);
            if user.id in t.tombstones && now < t.tombstones[user.id] then after == t
            else
              && user.id !in after.tombstones
              && Get(after, user.id, g).1 == if g <= later + CACHE_TTL then Some(CachedAuth(user, roles, later + CACHE_TTL)) else None
  {
  }

  /** After CacheInvalidate there is no hit, and fills are turned away for TOMBSTONE_TTL. */
  lemma InvalidateThenGet(t: Tables, id: Id, now: int, user: AuthUser, roles: seq<string>, g: int)
    requires user.id == id
    ensures var after := Invalidate(t, id, now);
            Get(after, id, g).1 == None && (g < now + TOMBSTONE_TTL <==> Set(after, user, roles, g, g) == after)
  {
    var after := Invalidate(t, id, now);
    assert id in after.tombstones && id !in Set(after, user, roles, now + TOMBSTONE_TTL, g).tombstones;
  }

  /** No call touches what belongs to another id. */
  lemma OtherIdsUntouched(t: Tables, user: AuthUser, roles: seq<string>, now: int, later: int, id: Id)
    requires id != user.id
    ensures forall after :: after in {Get(t, user.id, now).0, Set(t, user, roles, now, later), Invalidate(t, user.id, now)} ==>
              && (id in after.cache <==> id in t.cache) && (id in t.cache ==> after.cache[id] == t.cache[id])
              && (id in after.tombstones <==> id in t.tombstones) && (id in t.tombstones ==> after.tombstones[id] == t.tombstones[id])
  {
  }

  // ----- the protocol

  /** A user row as it was read: `version` counts the writes to it, `epoch` the invalidations begun before the read. */
  datatype Row = Row(user: AuthUser, roles: seq<string>, version: nat, epoch: nat, at: int)

  datatype Entry = Entry(auth: CachedAuth, row: Row, stamp: int)

  /** Where a goroutine is. The first four belong to a fill of the cache, the next one to CacheInvalidate. */
  datatype Pc =
    | Read(row: Row)
    | Loaded(row: Row, tombstone: int)
    | Clearing(row: Row)
    | Storing(row: Row)
    | Invalidating(id: Id)
    | Getting(id: Id, entry: Entry)
    | Expiring(id: Id)

  /**
   `versions`, `epochs` and `floors` are history: writes so far, invalidations so far, and the version at the latest
   invalidation. So is `hits`: what calls of CacheGet have returned, and when they looked at the expiry.
   */
  datatype State = State(
    cache: map<Id, Entry>, tombstones: map<Id, int>, threads: map<nat, Pc>, now: int,
    versions: map<Id, nat>, epochs: map<Id, nat>, floors: map<Id, nat>,
    hits: seq<Hit>)

  datatype Hit = Hit(id: Id, entry: Entry, at: int)

  ghost function Initial(now: int): State {
    State(map[], map[], map[], now, map[], map[], map[], [])
  }

  ghost function At(m: map<Id, nat>, id: Id): nat {
    if id in m then m[id] else 0
  }

  /** In the middle of CacheSet for this id. */
  ghost predicate Mid(pc: Pc, id: Id) {
    (pc.Loaded? || pc.Clearing? || pc.Storing?) && pc.row.user.id == id
  }

  datatype Event =
    | DoTick(now: int)
    | DoWrite(id: Id)
    | DoRead(tid: nat, user: AuthUser, roles: seq<string>)
    | DoLoadTombstone(tid: nat)
    | DoCompare(tid: nat)
    | DoDeleteTombstone(tid: nat)
    | DoStore(tid: nat)
    | DoStoreTombstone(tid: nat, id: Id)
    | DoDeleteEntry(tid: nat)
    | DoLoadEntry(tid: nat, id: Id)
    | DoCheckEntry(tid: nat)
    | DoDeleteExpired(tid: nat)

  ghost predicate Enabled(s: State, e: Event) {
    match e
    case DoTick(now) => s.now <= now
    case DoWrite(_) => true
    case DoRead(tid, _, _) => tid !in s.threads
    case DoLoadTombstone(tid) => tid in s.threads && s.threads[tid].Read?
    case DoCompare(tid) => tid in s.threads && s.threads[tid].Loaded?
    case DoDeleteTombstone(tid) => tid in s.threads && s.threads[tid].Clearing?
    case DoStore(tid) => tid in s.threads && s.threads[tid].Storing?
    case DoStoreTombstone(tid, _) => tid !in s.threads
    case DoDeleteEntry(tid) => tid in s.threads && s.threads[tid].Invalidating?
    case DoLoadEntry(tid, _) => tid !in s.threads
    case DoCheckEntry(tid) => tid in s.threads && s.threads[tid].Getting?
    case DoDeleteExpired(tid) => tid in s.threads && s.threads[tid].Expiring?
  }

  ghost function Goto(s: State, tid: nat, pc: Pc): State {
    s.(threads := s.threads[tid := pc])
  }

  ghost function Finish(s: State, tid: nat): State {
    s.(threads := s.threads - {tid})
  }

  /** CacheSet: tombstones.Load. */
  ghost function LoadTombstone(s: State, tid: nat, row: Row): State {
    if row.user.id in s.tombstones then Goto(s, tid, Loaded(row, s.tombstones[row.user.id])) else Goto(s, tid, Storing(row))
  }

  /** CacheSet: the clock against the tombstone. */
  ghost function Compare(s: State, tid: nat, row: Row, tombstone: int): State {
    if s.now < tombstone then Finish(s, tid) else Goto(s, tid, Clearing(row))
  }

  ghost function DeleteTombstone(s: State, tid: nat, row: Row): State {
    Goto(s.(tombstones := s.tombstones - {row.user.id}), tid, Storing(row))
  }

  ghost function NewEntry(row: Row, now: int): Entry {
    Entry(CachedAuth(row.user, row.roles, now + CACHE_TTL), row, now)
  }

  ghost function Store(s: State, tid: nat, row: Row): State {
    Finish(s, tid).(cache := s.cache[row.user.id := NewEntry(row, s.now)])
  }

  ghost predicate SomeMid(s: State, id: Id) {
    exists u :: u in s.threads && Mid(s.threads[u], id)
  }

  ghost function StoreTombstone(s: State, tid: nat, id: Id): State {
    Goto(s, tid, Invalidating(id)).(
      tombstones := s.tombstones[id := s.now + TOMBSTONE_TTL],
      epochs := s.epochs[id := At(s.epochs, id) + 1],
      floors := s.floors[id := At(s.versions, id)])
  }

  ghost function DeleteEntry(s: State, tid: nat, id: Id): State {
    Finish(s, tid).(cache := s.cache - {id})
  }

  ghost function LoadEntry(s: State, tid: nat, id: Id): State {
    if id in s.cache then Goto(s, tid, Getting(id, s.cache[id])) else s
  }

  ghost function CheckEntry(s: State, tid: nat, id: Id, entry: Entry): State {
    if s.now > entry.auth.expires then Goto(s, tid, Expiring(id))
    else Finish(s, tid).(hits := s.hits + [Hit(id, entry, s.now)])
  }

  ghost function ReadRow(s: State, user: AuthUser, roles: seq<string>): Row {
    Row(user, roles, At(s.versions, user.id), At(s.epochs, user.id), s.now)
  }

  ghost function Apply(s: State, e: Event): State
    requires Enabled(s, e)
  {
    match e
    case DoTick(now) => s.(now := now)
    case DoWrite(id) => s.(versions := s.versions[id := At(s.versions, id) + 1])
    case DoRead(tid, user, roles) => Goto(s, tid, Read(ReadRow(s, user, roles)))
    case DoLoadTombstone(tid) => LoadTombstone(s, tid, s.threads[tid].row)
    case DoCompare(tid) => Compare(s, tid, s.threads[tid].row, s.threads[tid].tombstone)
    case DoDeleteTombstone(tid) => DeleteTombstone(s, tid, s.threads[tid].row)
    case DoStore(tid) => Store(s, tid, s.threads[tid].row)
    case DoStoreTombstone(tid, id) => StoreTombstone(s, tid, id)
    case DoDeleteEntry(tid) => DeleteEntry(s, tid, s.threads[tid].id)
    case DoLoadEntry(tid, id) => LoadEntry(s, tid, id)
    case DoCheckEntry(tid) => CheckEntry(s, tid, s.threads[tid].id, s.threads[tid].entry)
    case DoDeleteExpired(tid) => DeleteEntry(s, tid, s.threads[tid].id)
  }

  /** A fill reaches the tombstone, and the comparison with it, less than the tombstone's lifetime after its read. */
  ghost predicate Timely(s: State, e: Event)
    requires Enabled(s, e)
  {
    e.DoLoadTombstone? || e.DoCompare? ==> s.now < s.threads[e.tid].row.at + TOMBSTONE_TTL
  }

  /** No invalidation of this id begins inside a CacheSet of it. */
  ghost predicate Orderly(s: State, e: Event, id: Id) {
    e.DoStoreTombstone? && e.id == id ==> !SomeMid(s, id)
  }

  ghost function Run(s: State, es: seq<Event>): Outcome<State>
    decreases |es|
  {
    if es == [] then Reached(s)
    else if Enabled(s, es[0]) then Run(Apply(s, es[0]), es[1..])
    else Stuck
  }

  ghost predicate TimelyRun(s: State, es: seq<Event>)
    decreases |es|
  {
    es != [] && Enabled(s, es[0]) ==> Timely(s, es[0]) && TimelyRun(Apply(s, es[0]), es[1..])
  }

  ghost predicate OrderlyRun(s: State, es: seq<Event>, id: Id)
    decreases |es|
  {
    es != [] && Enabled(s, es[0]) ==> Orderly(s, es[0], id) && OrderlyRun(Apply(s, es[0]), es[1..], id)
  }

  // ----- what every step keeps

  ghost predicate Stale(s: State, row: Row) {
    row.epoch < At(s.epochs, row.user.id)
  }

  ghost predicate RowOk(s: State, row: Row) {
    && row.at <= s.now
    && row.epoch <= At(s.epochs, row.user.id)
    && row.version <= At(s.versions, row.user.id)
    && (!Stale(s, row) ==> At(s.floors, row.user.id) <= row.version)
  }

  ghost predicate EntryOk(s: State, id: Id, e: Entry) {
    && RowOk(s, e.row)
    && e.auth == CachedAuth(e.row.user, e.row.roles, e.stamp + CACHE_TTL) && e.row.user.id == id
    && e.row.at <= e.stamp <= s.now
  }

  /** A fill that read after the latest invalidation sees the current tombstone, or none. */
  ghost predicate ThreadOk(s: State, pc: Pc) {
    match pc
    case Read(row) => RowOk(s, row)
    case Loaded(row, t) => RowOk(s, row) && (!Stale(s, row) && row.user.id in s.tombstones ==> s.tombstones[row.user.id] == t)
    case Clearing(row) => RowOk(s, row) && (!Stale(s, row) && row.user.id in s.tombstones ==> s.tombstones[row.user.id] <= s.now)
    case Storing(row) => RowOk(s, row)
    case Invalidating(_) => true
    case Getting(id, entry) => EntryOk(s, id, entry)
    case Expiring(_) => true
  }

  ghost predicate HitOk(h: Hit) {
    && h.entry.auth == CachedAuth(h.entry.row.user, h.entry.row.roles, h.entry.stamp + CACHE_TTL) && h.entry.row.user.id == h.id
    && h.entry.row.at <= h.entry.stamp <= h.at <= h.entry.stamp + CACHE_TTL
  }

  ghost predicate Inv(s: State) {
    && (forall h :: h in s.hits ==> HitOk(h))
    && (forall u :: u in s.threads ==> ThreadOk(s, s.threads[u]))
    && (forall id :: id in s.cache ==> EntryOk(s, id, s.cache[id]))
    && (forall id :: At(s.floors, id) <= At(s.versions, id))
  }

  ghost predicate SameBut(s: State, s': State, tid: nat) {
    forall u :: u != tid ==> ((u in s.threads <==> u in s'.threads) && (u in s.threads ==> s'.threads[u] == s.threads[u]))
  }

  lemma TickKeeps(s: State, now: int)
    requires Inv(s) && s.now <= now
    ensures Inv(s.(now := now))
  {
    var s' := s.(now := now);
    forall u | u in s'.threads ensures ThreadOk(s', s'.threads[u]) { assert ThreadOk(s, s.threads[u]); }
    forall id | id in s'.cache ensures EntryOk(s', id, s'.cache[id]) { assert EntryOk(s, id, s.cache[id]); }
  }

  lemma WriteKeeps(s: State, id: Id)
    requires Inv(s)
    ensures Inv(Apply(s, DoWrite(id)))
  {
    var s' := Apply(s, DoWrite(id));
    forall u | u in s'.threads ensures ThreadOk(s', s'.threads[u]) { assert ThreadOk(s, s.threads[u]); }
    forall i | i in s'.cache ensures EntryOk(s', i, s'.cache[i]) { assert EntryOk(s, i, s.cache[i]); }
  }

  /** A goroutine moves on, and of the shared state at most a tombstone and cache entries change. */
  lemma MoveKeeps(s: State, s': State, tid: nat)
    requires Inv(s) && SameBut(s, s', tid)
    requires s' == s.(threads := s'.threads, tombstones := s'.tombstones, cache := s'.cache)
    requires forall i :: i in s'.tombstones ==> i in s.tombstones && s'.tombstones[i] == s.tombstones[i]
    requires tid in s'.threads ==> ThreadOk(s', s'.threads[tid])
    requires forall i :: i in s'.cache ==> (i in s.cache && s'.cache[i] == s.cache[i]) || EntryOk(s', i, s'.cache[i])
    ensures Inv(s')
  {
    forall u | u in s'.threads ensures ThreadOk(s', s'.threads[u]) {
      if u != tid { assert ThreadOk(s, s.threads[u]); }
    }
    forall i | i in s'.cache ensures EntryOk(s', i, s'.cache[i]) {
      assert i in s.cache ==> EntryOk(s, i, s.cache[i]);
    }
  }

  /** Only the goroutine moves. */
  lemma GotoKeeps(s: State, s': State, tid: nat)
    requires Inv(s) && SameBut(s, s', tid) && s' == s.(threads := s'.threads)
    requires tid in s'.threads ==> ThreadOk(s, s'.threads[tid])
    ensures Inv(s')
  {
    forall u | u in s'.threads ensures ThreadOk(s', s'.threads[u]) {
      assert u != tid ==> ThreadOk(s, s.threads[u]);
    }
  }

  /** A new invalidation makes every earlier read of its id stale. */
  lemma InvalidatedRowOk(s: State, tid: nat, id: Id, row: Row)
    requires RowOk(s, row)
    ensures RowOk(StoreTombstone(s, tid, id), row)
    ensures row.user.id == id ==> Stale(StoreTombstone(s, tid, id), row)
    ensures row.user.id != id ==> (Stale(StoreTombstone(s, tid, id), row) <==> Stale(s, row))
  {
  }

  lemma InvalidatedThreadOk(s: State, tid: nat, id: Id, pc: Pc)
    requires ThreadOk(s, pc)
    ensures ThreadOk(StoreTombstone(s, tid, id), pc)
  {
    match pc
    case Read(row) => InvalidatedRowOk(s, tid, id, row);
    case Loaded(row, _) => InvalidatedRowOk(s, tid, id, row);
    case Clearing(row) => InvalidatedRowOk(s, tid, id, row);
    case Storing(row) => InvalidatedRowOk(s, tid, id, row);
    case Getting(_, entry) => InvalidatedRowOk(s, tid, id, entry.row);
    case _ =>
  }

  lemma StoreTombstoneKeeps(s: State, tid: nat, id: Id)
    requires Inv(s) && tid !in s.threads
    ensures Inv(StoreTombstone(s, tid, id))
  {
    var s' := StoreTombstone(s, tid, id);
    forall u | u in s'.threads ensures ThreadOk(s', s'.threads[u]) {
      if u != tid { InvalidatedThreadOk(s, tid, id, s.threads[u]); }
    }
    forall i | i in s'.cache ensures EntryOk(s', i, s'.cache[i]) { InvalidatedRowOk(s, tid, id, s.cache[i].row); }
    assert forall i :: At(s'.floors, i) <= At(s'.versions, i);
  }

  lemma ReadKeeps(s: State, tid: nat, user: AuthUser, roles: seq<string>)
    requires Inv(s) && tid !in s.threads
    ensures Inv(Goto(s, tid, Read(ReadRow(s, user, roles))))
  {
    GotoKeeps(s, Goto(s, tid, Read(ReadRow(s, user, roles))), tid);
  }

  lemma LoadTombstoneKeeps(s: State, tid: nat, row: Row)
    requires Inv(s) && tid in s.threads && s.threads[tid] == Read(row)
    ensures Inv(LoadTombstone(s, tid, row))
  {
    assert ThreadOk(s, Read(row));
    GotoKeeps(s, LoadTombstone(s, tid, row), tid);
  }

  lemma CompareKeeps(s: State, tid: nat, row: Row, t: int)
    requires Inv(s) && tid in s.threads && s.threads[tid] == Loaded(row, t)
    ensures Inv(Compare(s, tid, row, t))
  {
    assert ThreadOk(s, Loaded(row, t));
    GotoKeeps(s, Compare(s, tid, row, t), tid);
  }

  lemma DeleteTombstoneKeeps(s: State, tid: nat, row: Row)
    requires Inv(s) && tid in s.threads && s.threads[tid] == Clearing(row)
    ensures Inv(DeleteTombstone(s, tid, row))
  {
    assert ThreadOk(s, Clearing(row));
    MoveKeeps(s, DeleteTombstone(s, tid, row), tid);
  }

  lemma StoreKeeps(s: State, tid: nat, row: Row)
    requires Inv(s) && tid in s.threads && s.threads[tid] == Storing(row)
    ensures Inv(Store(s, tid, row))
  {
    assert ThreadOk(s, Storing(row));
    assert EntryOk(Store(s, tid, row), row.user.id, NewEntry(row, s.now));
    MoveKeeps(s, Store(s, tid, row), tid);
  }

  lemma DeleteEntryKeeps(s: State, tid: nat, id: Id)
    requires Inv(s) && tid in s.threads
    ensures Inv(DeleteEntry(s, tid, id))
  {
    MoveKeeps(s, DeleteEntry(s, tid, id), tid);
  }

  lemma LoadEntryKeeps(s: State, tid: nat, id: Id)
    requires Inv(s) && tid !in s.threads
    ensures Inv(LoadEntry(s, tid, id))
  {
    if id in s.cache {
      assert EntryOk(s, id, s.cache[id]);
      GotoKeeps(s, LoadEntry(s, tid, id), tid);
    }
  }

  lemma CheckEntryKeeps(s: State, tid: nat, id: Id, entry: Entry)
    requires Inv(s) && tid in s.threads && s.threads[tid] == Getting(id, entry)
    ensures Inv(CheckEntry(s, tid, id, entry))
  {
    assert ThreadOk(s, Getting(id, entry));
    if s.now > entry.auth.expires {
      GotoKeeps(s, CheckEntry(s, tid, id, entry), tid);
    } else {
      GotoKeeps(s, Finish(s, tid), tid);
      HitKeeps(Finish(s, tid), Hit(id, entry, s.now));
    }
  }

  lemma HitKeeps(s: State, h: Hit)
    requires Inv(s) && HitOk(h)
    ensures Inv(s.(hits := s.hits + [h]))
  {
    var s' := s.(hits := s.hits + [h]);
    forall u | u in s'.threads ensures ThreadOk(s', s'.threads[u]) { assert ThreadOk(s, s.threads[u]); }
    forall i | i in s'.cache ensures EntryOk(s', i, s'.cache[i]) { assert EntryOk(s, i, s.cache[i]); }
  }

  lemma StepKeeps(s: State, e: Event)
    requires Inv(s) && Enabled(s, e)
    ensures Inv(Apply(s, e))
  {
    match e
    case DoTick(now) => TickKeeps(s, now);
    case DoWrite(id) => WriteKeeps(s, id);
    case DoRead(tid, user, roles) => ReadKeeps(s, tid, user, roles);
    case DoLoadTombstone(tid) => LoadTombstoneKeeps(s, tid, s.threads[tid].row);
    case DoCompare(tid) => CompareKeeps(s, tid, s.threads[tid].row, s.threads[tid].tombstone);
    case DoDeleteTombstone(tid) => DeleteTombstoneKeeps(s, tid, s.threads[tid].row);
    case DoStore(tid) => StoreKeeps(s, tid, s.threads[tid].row);
    case DoStoreTombstone(tid, id) => StoreTombstoneKeeps(s, tid, id);
    case DoDeleteEntry(tid) => DeleteEntryKeeps(s, tid, s.threads[tid].id);
    case DoLoadEntry(tid, id) => LoadEntryKeeps(s, tid, id);
    case DoCheckEntry(tid) => CheckEntryKeeps(s, tid, s.threads[tid].id, s.threads[tid].entry);
    case DoDeleteExpired(tid) => DeleteEntryKeeps(s, tid, s.threads[tid].id);
  }

  lemma {:induction false} RunKeeps(s: State, es: seq<Event>)
    requires Inv(s) && Run(s, es).Reached?
    ensures Inv(Run(s, es).state)
    decreases |es|
  {
    if es != [] {
      StepKeeps(s, es[0]);
      RunKeeps(Apply(s, es[0]), es[1..]);
    }
  }

  lemma InitialInv(now: int)
    ensures Inv(Initial(now))
  {
  }

  /** The check of the expiry, in time, ends the call with a hit on the entry that was loaded. */
  lemma CheckHits(s: State, tid: nat)
    requires Enabled(s, DoCheckEntry(tid)) && s.now <= s.threads[tid].entry.auth.expires
    ensures var s' := Apply(s, DoCheckEntry(tid));
            && s'.cache == s.cache && s'.tombstones == s.tombstones && tid !in s'.threads
            && s'.hits == s.hits + [Hit(s.threads[tid].id, s.threads[tid].entry, s.now)]
  {
  }

  /** Past the expiry it ends without one, and deletes what is there. */
  lemma CheckMisses(s: State, tid: nat)
    requires Enabled(s, DoCheckEntry(tid)) && s.now > s.threads[tid].entry.auth.expires
    ensures var s' := Apply(s, DoCheckEntry(tid));
            && s'.cache == s.cache && s'.tombstones == s.tombstones && s'.hits == s.hits && Enabled(s', DoDeleteExpired(tid))
            && var s'' := Apply(s', DoDeleteExpired(tid));
               tid !in s''.threads && s''.cache == s.cache - {s.threads[tid].id} && s''.hits == s.hits
  {
  }

  /**
   However the map operations interleave and however long fills take, every hit that CacheGet has returned was of the user and
   roles of a row of that id, stored at most CACHE_TTL before the clock was checked.
   */
  lemma HitIsRecent(start: int, es: seq<Event>, k: nat)
    requires Run(Initial(start), es).Reached? && k < |Run(Initial(start), es).state.hits|
    ensures var h := Run(Initial(start), es).state.hits[k];
            && h.entry.row.at <= h.entry.stamp && h.at - CACHE_TTL <= h.entry.stamp <= h.at
            && h.entry.auth.user == h.entry.row.user && h.entry.auth.roles == h.entry.row.roles && h.entry.auth.user.id == h.id
  {
    InitialInv(start);
    RunKeeps(Initial(start), es);
    var h := Run(Initial(start), es).state.hits[k];
    assert HitOk(h);
  }

  // ----- when a stale row can be served

  /** No CacheInvalidate of this id is between its two operations. */
  ghost predicate Settled(s: State, id: Id) {
    forall u :: u in s.threads ==> s.threads[u] != Invalidating(id)
  }

  /** Nothing read before an invalidation is cached after it. */
  ghost predicate Fresh(s: State, id: Id) {
    id in s.cache && Settled(s, id) ==> !Stale(s, s.cache[id].row)
  }

  /**
   A fill of this id that read before the latest invalidation and can still reach the cache: it is past the comparison, or it
   has time left in which the tombstone it has loaded, or will load, expires.
   */
  ghost predicate Endangered(s: State, id: Id, pc: Pc) {
    match pc
    case Read(row) =>
      && row.user.id == id && Stale(s, row) && s.now < row.at + TOMBSTONE_TTL
      && (id in s.tombstones ==> s.tombstones[id] < row.at + TOMBSTONE_TTL)
    case Loaded(row, t) => row.user.id == id && Stale(s, row) && s.now < row.at + TOMBSTONE_TTL && t < row.at + TOMBSTONE_TTL
    case Clearing(row) => row.user.id == id && Stale(s, row)
    case Storing(row) => row.user.id == id && Stale(s, row)
    case _ => false
  }

  ghost predicate Safe(s: State, id: Id) {
    Fresh(s, id) && forall u :: u in s.threads ==> !Endangered(s, id, s.threads[u])
  }

  /** One goroutine moves on; a tombstone goes at most when its time is over. */
  lemma MoveStaysSafe(s: State, s': State, tid: nat, id: Id)
    requires Safe(s, id) && SameBut(s, s', tid) && s'.epochs == s.epochs && s.now <= s'.now
    requires id in s'.tombstones ==> id in s.tombstones && s'.tombstones[id] == s.tombstones[id]
    requires id in s.tombstones && id !in s'.tombstones ==> s.tombstones[id] <= s.now
    requires tid in s'.threads ==> !Endangered(s', id, s'.threads[tid])
    requires Fresh(s', id)
    ensures Safe(s', id)
  {
    forall u | u in s'.threads ensures !Endangered(s', id, s'.threads[u]) {
      if u != tid { assert !Endangered(s, id, s.threads[u]); }
    }
  }

  lemma SettledBefore(s: State, s': State, tid: nat, id: Id)
    requires SameBut(s, s', tid) && (tid in s.threads ==> s.threads[tid] != Invalidating(id))
    ensures Settled(s', id) ==> Settled(s, id)
  {
  }

  /** A step that leaves the cache, the tombstones and the history alone. */
  lemma GotoStaysSafe(s: State, s': State, tid: nat, id: Id)
    requires Safe(s, id) && SameBut(s, s', tid) && s' == s.(threads := s'.threads)
    requires tid in s'.threads ==> !Endangered(s', id, s'.threads[tid])
    requires tid in s.threads ==> !s.threads[tid].Invalidating?
    ensures Safe(s', id)
  {
    SettledBefore(s, s', tid, id);
    MoveStaysSafe(s, s', tid, id);
  }

  lemma ReadStaysSafe(s: State, tid: nat, user: AuthUser, roles: seq<string>, id: Id)
    requires Safe(s, id) && tid !in s.threads
    ensures Safe(Goto(s, tid, Read(ReadRow(s, user, roles))), id)
  {
    GotoStaysSafe(s, Goto(s, tid, Read(ReadRow(s, user, roles))), tid, id);
  }

  lemma LoadTombstoneStaysSafe(s: State, tid: nat, row: Row, id: Id)
    requires Safe(s, id) && tid in s.threads && s.threads[tid] == Read(row) && s.now < row.at + TOMBSTONE_TTL
    ensures Safe(LoadTombstone(s, tid, row), id)
  {
    assert !Endangered(s, id, Read(row));
    GotoStaysSafe(s, LoadTombstone(s, tid, row), tid, id);
  }

  lemma CompareStaysSafe(s: State, tid: nat, row: Row, t: int, id: Id)
    requires Safe(s, id) && tid in s.threads && s.threads[tid] == Loaded(row, t) && s.now < row.at + TOMBSTONE_TTL
    ensures Safe(Compare(s, tid, row, t), id)
  {
    assert !Endangered(s, id, Loaded(row, t));
    GotoStaysSafe(s, Compare(s, tid, row, t), tid, id);
  }

  /** A fill that clears the tombstone is fresh, so the tombstone's time is over, and that of every stale read. */
  lemma DeleteTombstoneStaysSafe(s: State, tid: nat, id: Id)
    requires Inv(s) && Safe(s, id) && Enabled(s, DoDeleteTombstone(tid))
    ensures Safe(Apply(s, DoDeleteTombstone(tid)), id)
  {
    var s' := Apply(s, DoDeleteTombstone(tid));
    assert ThreadOk(s, s.threads[tid]) && !Endangered(s, id, s.threads[tid]);
    SettledBefore(s, s', tid, id);
    MoveStaysSafe(s, s', tid, id);
  }

  lemma StoreStaysSafe(s: State, tid: nat, id: Id)
    requires Safe(s, id) && Enabled(s, DoStore(tid))
    ensures Safe(Apply(s, DoStore(tid)), id)
  {
    var s' := Apply(s, DoStore(tid));
    assert !Endangered(s, id, s.threads[tid]);
    SettledBefore(s, s', tid, id);
    MoveStaysSafe(s, s', tid, id);
  }

  lemma DeleteEntryStaysSafe(s: State, tid: nat, i: Id, id: Id)
    requires Safe(s, id) && tid in s.threads && (s.threads[tid] == Invalidating(i) || s.threads[tid] == Expiring(i))
    ensures Safe(DeleteEntry(s, tid, i), id)
  {
    var s' := DeleteEntry(s, tid, i);
    if id in s'.cache { SettledBefore(s, s', tid, id); }
    MoveStaysSafe(s, s', tid, id);
  }

  lemma LoadEntryStaysSafe(s: State, tid: nat, i: Id, id: Id)
    requires Safe(s, id) && tid !in s.threads
    ensures Safe(LoadEntry(s, tid, i), id)
  {
    if i in s.cache { GotoStaysSafe(s, LoadEntry(s, tid, i), tid, id); }
  }

  lemma CheckEntryStaysSafe(s: State, tid: nat, i: Id, entry: Entry, id: Id)
    requires Safe(s, id) && tid in s.threads && s.threads[tid] == Getting(i, entry)
    ensures Safe(CheckEntry(s, tid, i, entry), id)
  {
    if s.now > entry.auth.expires {
      GotoStaysSafe(s, CheckEntry(s, tid, i, entry), tid, id);
    } else {
      GotoStaysSafe(s, Finish(s, tid), tid, id);
      HitStaysSafe(Finish(s, tid), CheckEntry(s, tid, i, entry), id);
    }
  }

  lemma HitStaysSafe(s: State, s': State, id: Id)
    requires Safe(s, id) && s' == s.(hits := s'.hits)
    ensures Safe(s', id)
  {
    forall u | u in s'.threads ensures !Endangered(s', id, s'.threads[u]) { assert !Endangered(s, id, s.threads[u]); }
  }

  /** An invalidation with no CacheSet of its id under way guards against every read so far. */
  lemma InvalidationStaysSafe(s: State, tid: nat, i: Id, id: Id)
    requires Inv(s) && Safe(s, id) && tid !in s.threads && Orderly(s, DoStoreTombstone(tid, i), id)
    ensures Safe(StoreTombstone(s, tid, i), id)
  {
    var s' := StoreTombstone(s, tid, i);
    assert s'.threads[tid] == Invalidating(i) && SameBut(s, s', tid);
    forall u | u in s'.threads ensures !Endangered(s', id, s'.threads[u]) {
      if u != tid {
        var pc := s.threads[u];
        assert !Endangered(s, id, pc) && ThreadOk(s, pc);
        assert i == id ==> !Mid(pc, id);
      }
    }
    assert Settled(s', id) ==> Settled(s, id) && i != id;
  }

  lemma TimeStaysSafe(s: State, s': State, id: Id)
    requires Safe(s, id) && s' == s.(now := s'.now, versions := s'.versions) && s.now <= s'.now
    ensures Safe(s', id)
  {
    forall u | u in s'.threads ensures !Endangered(s', id, s'.threads[u]) { assert !Endangered(s, id, s.threads[u]); }
  }

  lemma StepStaysSafe(s: State, e: Event, id: Id)
    requires Inv(s) && Safe(s, id) && Enabled(s, e) && Timely(s, e) && Orderly(s, e, id)
    ensures Safe(Apply(s, e), id)
  {
    match e
    case DoTick(now) => TimeStaysSafe(s, Apply(s, e), id);
    case DoWrite(_) => TimeStaysSafe(s, Apply(s, e), id);
    case DoStoreTombstone(tid, i) => InvalidationStaysSafe(s, tid, i, id);
    case DoDeleteTombstone(tid) => DeleteTombstoneStaysSafe(s, tid, id);
    case DoStore(tid) => StoreStaysSafe(s, tid, id);
    case DoRead(tid, user, roles) => ReadStaysSafe(s, tid, user, roles, id);
    case DoLoadTombstone(tid) => LoadTombstoneStaysSafe(s, tid, s.threads[tid].row, id);
    case DoCompare(tid) => CompareStaysSafe(s, tid, s.threads[tid].row, s.threads[tid].tombstone, id);
    case DoDeleteEntry(tid) => DeleteEntryStaysSafe(s, tid, s.threads[tid].id, id);
    case DoLoadEntry(tid, i) => LoadEntryStaysSafe(s, tid, i, id);
    case DoCheckEntry(tid) => CheckEntryStaysSafe(s, tid, s.threads[tid].id, s.threads[tid].entry, id);
    case DoDeleteExpired(tid) => DeleteEntryStaysSafe(s, tid, s.threads[tid].id, id);
  }

  lemma {:induction false} RunStaysSafe(s: State, es: seq<Event>, id: Id)
    requires Inv(s) && Safe(s, id) && TimelyRun(s, es) && OrderlyRun(s, es, id) && Run(s, es).Reached?
    ensures Safe(Run(s, es).state, id)
    decreases |es|
  {
    if es != [] {
      StepKeeps(s, es[0]);
      StepStaysSafe(s, es[0], id);
      RunStaysSafe(Apply(s, es[0]), es[1..], id);
    }
  }

  /** Put one step in front of a run. */
  lemma Before(s: State, e: Event, es: seq<Event>) returns (all: seq<Event>)
    requires Enabled(s, e) && Timely(s, e) && TimelyRun(Apply(s, e), es)
    ensures all == [e] + es && TimelyRun(s, all) && Run(s, all) == Run(Apply(s, e), es)
    ensures forall id :: OrderlyRun(s, all, id) <==> Orderly(s, e, id) && OrderlyRun(Apply(s, e), es, id)
  {
    all := [e] + es;
    assert all[0] == e && all[1..] == es;
  }

  /** How far an endangered fill is from its store. */
  ghost function Stage(s: State, pc: Pc): nat {
    match pc
    case Read(_) => 4
    case Loaded(_, t) => if s.now < t then 3 else 2
    case Clearing(_) => 1
    case _ => 0
  }

  /** The next step of an endangered fill, or the end of waiting for its tombstone. */
  ghost function NextStep(s: State, u: nat): Event
    requires u in s.threads
  {
    match s.threads[u]
    case Read(_) => DoLoadTombstone(u)
    case Loaded(_, t) => if s.now < t then DoTick(t) else DoCompare(u)
    case Clearing(_) => DoDeleteTombstone(u)
    case _ => DoStore(u)
  }

  lemma StaysEndangered(s: State, id: Id, u: nat)
    requires u in s.threads && Endangered(s, id, s.threads[u]) && !s.threads[u].Storing?
    ensures var e := NextStep(s, u);
            && Enabled(s, e) && Timely(s, e) && Orderly(s, e, id)
            && u in Apply(s, e).threads && Apply(s, e).threads.Keys == s.threads.Keys
            && Endangered(Apply(s, e), id, Apply(s, e).threads[u])
            && Stage(Apply(s, e), Apply(s, e).threads[u]) < Stage(s, s.threads[u])
  {
  }

  /** An endangered fill, left to itself once pending invalidations have finished, stores its stale row. */
  lemma EndangeredIsServed(s: State, id: Id, u: nat) returns (es: seq<Event>)
    requires u in s.threads && Endangered(s, id, s.threads[u])
    ensures TimelyRun(s, es) && OrderlyRun(s, es, id) && Run(s, es).Reached? && !Fresh(Run(s, es).state, id)
    decreases |s.threads.Keys|, Stage(s, s.threads[u])
  {
    if v :| v in s.threads && s.threads[v] == Invalidating(id) {
      var s1 := Apply(s, DoDeleteEntry(v));
      assert s1.threads.Keys == s.threads.Keys - {v} && s1.threads[u] == s.threads[u];
      es := EndangeredIsServed(s1, id, u);
      es := Before(s, DoDeleteEntry(v), es);
    } else if s.threads[u].Storing? {
      var s1 := Apply(s, DoStore(u));
      assert Run(s1, []) == Reached(s1) && s1.cache[id].row == s.threads[u].row;
      es := Before(s, DoStore(u), []);
    } else {
      var e := NextStep(s, u);
      StaysEndangered(s, id, u);
      es := EndangeredIsServed(Apply(s, e), id, u);
      es := Before(s, e, es);
    }
  }

  /**
   Exactly when the tombstones protect an id: from a state that any run has reached, every continuation whose fills are in
   time and whose invalidations of the id do not begin inside a CacheSet of it keeps the cache fresh, if and only if nothing
   stale is cached now and no fill in flight is endangered.
   */
  lemma NeverServesStaleIff(start: int, past: seq<Event>, id: Id)
    requires Run(Initial(start), past).Reached?
    ensures var s := Run(Initial(start), past).state;
            (forall es :: TimelyRun(s, es) && OrderlyRun(s, es, id) && Run(s, es).Reached? ==> Fresh(Run(s, es).state, id))
            <==> Safe(s, id)
  {
    InitialInv(start);
    RunKeeps(Initial(start), past);
    var s := Run(Initial(start), past).state;
    if Safe(s, id) {
      forall es | TimelyRun(s, es) && OrderlyRun(s, es, id) && Run(s, es).Reached? ensures Fresh(Run(s, es).state, id) {
        RunStaysSafe(s, es, id);
      }
    } else {
      var es := StaleIsServed(s, id);
    }
  }

  lemma StaleIsServed(s: State, id: Id) returns (es: seq<Event>)
    requires !Safe(s, id)
    ensures TimelyRun(s, es) && OrderlyRun(s, es, id) && Run(s, es).Reached? && !Fresh(Run(s, es).state, id)
  {
    if Fresh(s, id) {
      var u :| u in s.threads && Endangered(s, id, s.threads[u]);
      es := EndangeredIsServed(s, id, u);
    } else {
      es := [];
    }
  }

  /**
   From the start, then: in every such run an id without a pending invalidation is cached only with a row read after the
   latest one, and so with every write that was committed before it.
   */
  lemma NoReadBeforeInvalidateIsServed(start: int, es: seq<Event>, id: Id)
    requires TimelyRun(Initial(start), es) && OrderlyRun(Initial(start), es, id) && Run(Initial(start), es).Reached?
    ensures var s := Run(Initial(start), es).state;
            id in s.cache && Settled(s, id) ==>
              && s.cache[id].row.epoch == At(s.epochs, id)
              && At(s.floors, id) <= s.cache[id].row.version <= At(s.versions, id)
              && s.cache[id].auth.user.id == id
  {
    InitialInv(start);
    RunKeeps(Initial(start), es);
    RunStaysSafe(Initial(start), es, id);
    var s := Run(Initial(start), es).state;
    if id in s.cache { assert EntryOk(s, id, s.cache[id]); }
  }

  // ----- the two assumptions are needed

  /** An invalidation inside a CacheSet: every step in time, and a row read before it is in the cache after it. */
  lemma RacingFillServesStale(user: AuthUser) returns (es: seq<Event>)
    ensures TimelyRun(Initial(0), es) && Run(Initial(0), es).Reached? && !OrderlyRun(Initial(0), es, user.id)
    ensures !Fresh(Run(Initial(0), es).state, user.id)
  {
    var s0 := Initial(0);
    var s1 := Apply(s0, DoRead(0, user, []));
    var s2 := Apply(s1, DoLoadTombstone(0));
    assert s2.threads[0].Storing? && Mid(s2.threads[0], user.id);
    var s3 := Apply(s2, DoStoreTombstone(1, user.id));
    assert s3.threads[0] == s2.threads[0] && Endangered(s3, user.id, s3.threads[0]);
    es := EndangeredIsServed(s3, user.id, 0);
    es := Before(s2, DoStoreTombstone(1, user.id), es);
    es := Before(s1, DoLoadTombstone(0), es);
    es := Before(s0, DoRead(0, user, []), es);
  }

  /** A race need not do harm: once the invalidation has deleted what the fill stored, the id is safe again. */
  lemma RaceCanPass(user: AuthUser) returns (es: seq<Event>)
    ensures TimelyRun(Initial(0), es) && Run(Initial(0), es).Reached? && !OrderlyRun(Initial(0), es, user.id)
    ensures Safe(Run(Initial(0), es).state, user.id)
  {
    var s0 := Initial(0);
    var s1 := Apply(s0, DoRead(0, user, []));
    var s2 := Apply(s1, DoLoadTombstone(0));
    assert s2.threads[0].Storing? && Mid(s2.threads[0], user.id);
    var s3 := Apply(s2, DoStoreTombstone(1, user.id));
    var s4 := Apply(s3, DoStore(0));
    var s5 := Apply(s4, DoDeleteEntry(1));
    assert s5.threads.Keys == {} && Run(s5, []) == Reached(s5);
    es := Before(s4, DoDeleteEntry(1), []);
    es := Before(s3, DoStore(0), es);
    es := Before(s2, DoStoreTombstone(1, user.id), es);
    es := Before(s1, DoLoadTombstone(0), es);
    es := Before(s0, DoRead(0, user, []), es);
  }

  /**
   The tombstone's lifetime is exactly what protects: a row read at `r` before an invalidation at `i`, set at `t` and asked
   for at `g` while it would still be fresh, is served after the invalidation if and only if the set came at least
   TOMBSTONE_TTL after the invalidation. A fill that takes less than TOMBSTONE_TTL from its read never does.
   */
  lemma StaleServedIff(before: Tables, user: AuthUser, roles: seq<string>, r: int, i: int, t: int, g: int)
    requires r <= i <= t <= g <= t + CACHE_TTL
    ensures var after := Set(Invalidate(before, user.id, i), user, roles, t, t);
            && (Get(after, user.id, g).1.Some? <==> i + TOMBSTONE_TTL <= t)
            && (Get(after, user.id, g).1.Some? ==> Get(after, user.id, g).1.value == CachedAuth(user, roles, t + CACHE_TTL))
            && (t < r + TOMBSTONE_TTL ==> Get(after, user.id, g).1.None?)
  {
  }

  // ----- calls that nothing interrupts

  datatype Call =
    | Tick(now: int)
    | Write(id: Id)
    | FindUser(tid: nat, user: AuthUser, roles: seq<string>)
    | CallSet(tid: nat)
    | CallInvalidate(tid: nat, id: Id)
    | CallGet(tid: nat, id: Id)

  /** No call is part-way through; only rows that have been read and not yet offered to the cache are outstanding. */
  ghost predicate Quiet(s: State) {
    forall u :: u in s.threads ==> s.threads[u].Read?
  }

  ghost predicate CanCall(s: State, c: Call) {
    match c
    case Tick(now) => s.now <= now
    case Write(_) => true
    case FindUser(tid, _, _) => tid !in s.threads
    case CallSet(tid) => tid in s.threads && s.threads[tid].Read? && s.now < s.threads[tid].row.at + TOMBSTONE_TTL
    case CallInvalidate(tid, _) => tid !in s.threads
    case CallGet(tid, _) => tid !in s.threads
  }

  /** The map operations of one call, in order. */
  ghost function Steps(s: State, c: Call): seq<Event>
    requires CanCall(s, c)
  {
    match c
    case Tick(now) => [DoTick(now)]
    case Write(id) => [DoWrite(id)]
    case FindUser(tid, user, roles) => [DoRead(tid, user, roles)]
    case CallSet(tid) =>
      var id := s.threads[tid].row.user.id;
      if id !in s.tombstones then [DoLoadTombstone(tid), DoStore(tid)]
      else if s.now < s.tombstones[id] then [DoLoadTombstone(tid), DoCompare(tid)]
      else [DoLoadTombstone(tid), DoCompare(tid), DoDeleteTombstone(tid), DoStore(tid)]
    case CallInvalidate(tid, id) => [DoStoreTombstone(tid, id), DoDeleteEntry(tid)]
    case CallGet(tid, id) =>
      if id !in s.cache then [DoLoadEntry(tid, id)]
      else if s.now > s.cache[id].auth.expires then [DoLoadEntry(tid, id), DoCheckEntry(tid), DoDeleteExpired(tid)]
      else [DoLoadEntry(tid, id), DoCheckEntry(tid)]
  }

  ghost function Plain(s: State): Tables {
    Tables(map id | id in s.cache :: s.cache[id].auth, s.tombstones)
  }

  /** The effect of one call on the two maps, as CacheGet, CacheSet and CacheInvalidate state it. */
  ghost function Effect(s: State, c: Call): Tables
    requires CanCall(s, c)
  {
    match c
    case CallSet(tid) => Set(Plain(s), s.threads[tid].row.user, s.threads[tid].row.roles, s.now, s.now)
    case CallInvalidate(_, id) => Invalidate(Plain(s), id, s.now)
    case CallGet(_, id) => Get(Plain(s), id, s.now).0
    case _ => Plain(s)
  }

  /** The answers that one call adds. */
  ghost function Answers(s: State, c: Call): seq<Hit>
    requires CanCall(s, c)
  {
    match c
    case CallGet(_, id) => if Get(Plain(s), id, s.now).1.Some? then [Hit(id, s.cache[id], s.now)] else []
    case _ => []
  }

  lemma RunTwo(s: State, e: Event, f: Event)
    requires Enabled(s, e) && Enabled(Apply(s, e), f)
    ensures Run(s, [e, f]) == Reached(Apply(Apply(s, e), f))
    ensures Timely(s, e) && Timely(Apply(s, e), f) ==> TimelyRun(s, [e, f])
    ensures forall id :: Orderly(s, e, id) && Orderly(Apply(s, e), f, id) ==> OrderlyRun(s, [e, f], id)
  {
    var s2 := Apply(Apply(s, e), f);
    assert Run(s2, []) == Reached(s2);
    assert [e, f][1..] == [f];
    assert Run(Apply(s, e), [f]) == Reached(s2);
    assert Timely(Apply(s, e), f) ==> TimelyRun(Apply(s, e), [f]);
    assert forall id :: Orderly(Apply(s, e), f, id) ==> OrderlyRun(Apply(s, e), [f], id);
  }

  /** One call run without interruption: what its steps add up to. */
  ghost predicate Adds(s: State, c: Call)
    requires CanCall(s, c)
  {
    var r := Run(s, Steps(s, c));
    && TimelyRun(s, Steps(s, c)) && (forall id :: OrderlyRun(s, Steps(s, c), id)) && r.Reached?
    && Quiet(r.state) && Plain(r.state) == Effect(s, c) && r.state.hits == s.hits + Answers(s, c)
  }

  lemma InvalidateAdds(s: State, tid: nat, id: Id)
    requires Quiet(s) && CanCall(s, CallInvalidate(tid, id))
    ensures Adds(s, CallInvalidate(tid, id))
  {
    RunTwo(s, DoStoreTombstone(tid, id), DoDeleteEntry(tid));
    assert !SomeMid(s, id);
    var s' := DeleteEntry(StoreTombstone(s, tid, id), tid, id);
    assert Plain(s').cache == Plain(s).cache - {id};
  }

  lemma SetUnmarkedAdds(s: State, tid: nat, row: Row)
    requires Quiet(s) && CanCall(s, CallSet(tid)) && s.threads[tid] == Read(row) && row.user.id !in s.tombstones
    ensures Adds(s, CallSet(tid))
  {
    var s1 := LoadTombstone(s, tid, row);
    assert Apply(s, DoLoadTombstone(tid)) == s1 && s1.threads[tid] == Storing(row);
    RunTwo(s, DoLoadTombstone(tid), DoStore(tid));
    StorePlain(s1, tid, row);
    assert s.tombstones - {row.user.id} == s.tombstones;
    assert Plain(s1) == Plain(s);
  }

  lemma SetBlockedAdds(s: State, tid: nat, row: Row)
    requires Quiet(s) && CanCall(s, CallSet(tid)) && s.threads[tid] == Read(row)
    requires row.user.id in s.tombstones && s.now < s.tombstones[row.user.id]
    ensures Adds(s, CallSet(tid))
  {
    var t := s.tombstones[row.user.id];
    var s1 := LoadTombstone(s, tid, row);
    assert Apply(s, DoLoadTombstone(tid)) == s1 && s1.threads[tid] == Loaded(row, t);
    RunTwo(s, DoLoadTombstone(tid), DoCompare(tid));
    assert Plain(Compare(s1, tid, row, t)) == Plain(s);
  }

  lemma SetExpiredAdds(s: State, tid: nat, row: Row)
    requires Quiet(s) && CanCall(s, CallSet(tid)) && s.threads[tid] == Read(row)
    requires row.user.id in s.tombstones && s.tombstones[row.user.id] <= s.now
    ensures Adds(s, CallSet(tid))
  {
    var t := s.tombstones[row.user.id];
    var s1 := LoadTombstone(s, tid, row);
    assert Apply(s, DoLoadTombstone(tid)) == s1 && s1.threads[tid] == Loaded(row, t);
    var s2 := Compare(s1, tid, row, t);
    assert Apply(s1, DoCompare(tid)) == s2 && s2.threads[tid] == Clearing(row);
    ClearAndStore(s2, tid, row);
    var rest := Before(s1, DoCompare(tid), [DoDeleteTombstone(tid), DoStore(tid)]);
    var all := Before(s, DoLoadTombstone(tid), rest);
    assert all == Steps(s, CallSet(tid));
    assert Plain(s2) == Plain(s);
  }

  lemma ClearAndStore(s: State, tid: nat, row: Row)
    requires tid in s.threads && s.threads[tid] == Clearing(row)
    ensures var es := [DoDeleteTombstone(tid), DoStore(tid)];
            && TimelyRun(s, es) && (forall id :: OrderlyRun(s, es, id)) && Run(s, es).Reached?
            && Run(s, es).state.threads == s.threads - {tid} && Run(s, es).state.hits == s.hits
            && Plain(Run(s, es).state) == Tables(
                 Plain(s).cache[row.user.id := CachedAuth(row.user, row.roles, s.now + CACHE_TTL)], s.tombstones - {row.user.id})
  {
    var s1 := DeleteTombstone(s, tid, row);
    assert Apply(s, DoDeleteTombstone(tid)) == s1 && s1.threads[tid] == Storing(row);
    RunTwo(s, DoDeleteTombstone(tid), DoStore(tid));
    StorePlain(s1, tid, row);
    assert Plain(s1).cache == Plain(s).cache;
  }

  lemma StorePlain(s: State, tid: nat, row: Row)
    ensures Plain(Store(s, tid, row)) == Tables(
              Plain(s).cache[row.user.id := CachedAuth(row.user, row.roles, s.now + CACHE_TTL)], s.tombstones)
  {
  }

  lemma GetHitAdds(s: State, tid: nat, id: Id)
    requires Quiet(s) && CanCall(s, CallGet(tid, id)) && id in s.cache && s.now <= s.cache[id].auth.expires
    ensures Adds(s, CallGet(tid, id))
  {
    var s1 := LoadEntry(s, tid, id);
    assert Apply(s, DoLoadEntry(tid, id)) == s1 && s1.threads[tid] == Getting(id, s.cache[id]);
    RunTwo(s, DoLoadEntry(tid, id), DoCheckEntry(tid));
    assert Plain(CheckEntry(s1, tid, id, s.cache[id])) == Plain(s);
  }

  lemma GetExpiredAdds(s: State, tid: nat, id: Id)
    requires Quiet(s) && CanCall(s, CallGet(tid, id)) && id in s.cache && s.now > s.cache[id].auth.expires
    ensures Adds(s, CallGet(tid, id))
  {
    var s1 := LoadEntry(s, tid, id);
    assert Apply(s, DoLoadEntry(tid, id)) == s1 && s1.threads[tid] == Getting(id, s.cache[id]);
    var s2 := CheckEntry(s1, tid, id, s.cache[id]);
    assert Apply(s1, DoCheckEntry(tid)) == s2 && s2.threads[tid] == Expiring(id);
    RunTwo(s1, DoCheckEntry(tid), DoDeleteExpired(tid));
    var all := Before(s, DoLoadEntry(tid, id), [DoCheckEntry(tid), DoDeleteExpired(tid)]);
    assert all == Steps(s, CallGet(tid, id));
    assert Plain(DeleteEntry(s2, tid, id)).cache == Plain(s).cache - {id};
  }

  lemma GetMissAdds(s: State, tid: nat, id: Id)
    requires Quiet(s) && CanCall(s, CallGet(tid, id)) && id !in s.cache
    ensures Adds(s, CallGet(tid, id))
  {
    var all := Before(s, DoLoadEntry(tid, id), []);
    assert all == Steps(s, CallGet(tid, id));
  }

  lemma OtherAdds(s: State, c: Call)
    requires Quiet(s) && CanCall(s, c) && (c.Tick? || c.Write? || c.FindUser?)
    ensures Adds(s, c)
  {
    var e := Steps(s, c)[0];
    var all := Before(s, e, []);
    assert all == Steps(s, c);
    assert Plain(Apply(s, e)).cache == Plain(s).cache;
  }

  lemma CallAdds(s: State, c: Call)
    requires Quiet(s) && CanCall(s, c)
    ensures Adds(s, c)
  {
    match c
    case CallSet(tid) =>
      var row := s.threads[tid].row;
      if row.user.id !in s.tombstones { SetUnmarkedAdds(s, tid, row); }
      else if s.now < s.tombstones[row.user.id] { SetBlockedAdds(s, tid, row); }
      else { SetExpiredAdds(s, tid, row); }
    case CallInvalidate(tid, id) => InvalidateAdds(s, tid, id);
    case CallGet(tid, id) =>
      if id !in s.cache { GetMissAdds(s, tid, id); }
      else if s.now > s.cache[id].auth.expires { GetExpiredAdds(s, tid, id); }
      else { GetHitAdds(s, tid, id); }
    case _ => OtherAdds(s, c);
  }

  /** A run of whole calls, none of them interrupted and every CacheSet in time. */
  ghost function RunCalls(s: State, cs: seq<Call>): Outcome<State>
    decreases |cs|
  {
    if cs == [] then Reached(s)
    else if CanCall(s, cs[0]) && Run(s, Steps(s, cs[0])).Reached? then RunCalls(Run(s, Steps(s, cs[0])).state, cs[1..])
    else Stuck
  }

  lemma {:induction false} CallsKeep(s: State, cs: seq<Call>)
    requires Inv(s) && Quiet(s) && (forall id :: Safe(s, id)) && RunCalls(s, cs).Reached?
    ensures var s' := RunCalls(s, cs).state; Inv(s') && Quiet(s') && forall id :: Safe(s', id)
    decreases |cs|
  {
    if cs != [] {
      CallAdds(s, cs[0]);
      RunKeeps(s, Steps(s, cs[0]));
      var s1 := Run(s, Steps(s, cs[0])).state;
      forall id ensures Safe(s1, id) { RunStaysSafe(s, Steps(s, cs[0]), id); }
      CallsKeep(s1, cs[1..]);
    }
  }

  /**
   When calls do not interrupt each other and every fill calls CacheSet less than TOMBSTONE_TTL after its database read,
   no row read before a CacheInvalidate of its id is in the cache after it.
   */
  lemma UninterruptedCallsNeverServeStale(start: int, cs: seq<Call>)
    requires RunCalls(Initial(start), cs).Reached?
    ensures var s := RunCalls(Initial(start), cs).state;
            forall id :: id in s.cache ==>
              s.cache[id].row.epoch == At(s.epochs, id) && At(s.floors, id) <= s.cache[id].row.version
  {
    InitialInv(start);
    CallsKeep(Initial(start), cs);
    var s := RunCalls(Initial(start), cs).state;
    forall id | id in s.cache
      ensures s.cache[id].row.epoch == At(s.epochs, id) && At(s.floors, id) <= s.cache[id].row.version
    {
      assert EntryOk(s, id, s.cache[id]) && Safe(s, id);
    }
  }
}
