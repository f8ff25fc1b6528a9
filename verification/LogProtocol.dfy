/**
 The log broadcaster as a protocol: the package variables, the goroutines and timers it starts, and the channels of its
 subscribers. Every step is one section under the package mutex, or the creation of a channel before it.
 */
module LogProtocol {

  import opened Wrappers

  datatype LogItem = LogItem(time: int, kind: string, message: string)

  /** One call of doBroadcastLogItems. */
  datatype Broadcast = Broadcast(time: int, items: seq<LogItem>)

  /**
   A subscriber's channel. The rest is history: every batch put into the channel and the number of its broadcast, how many
   broadcasts found the channel full, and how many broadcasts there had been when it joined the subscribers and when it was
   stopped.
   */
  datatype Channel = Channel(open: bool, queue: seq<seq<LogItem>>, got: seq<seq<LogItem>>, took: seq<nat>, missed: nat,
                             joined: nat, left: nat)

  /**
   `senders` are the goroutines of addLogItem that still have to run broadcastLogItem, `timers` the due times of the
   pending AfterFuncs, `watchers` the goroutines waiting for a stop, `joining` the channels that SubscribeToLog has made
   but not yet appended. `early` (stopped while joining), `added`, `log` and `sent` are history.
   */
  datatype State = State(
    cache: seq<LogItem>, subs: seq<nat>, waiting: bool, last: int, buffer: seq<LogItem>,
    chans: seq<Channel>, senders: multiset<LogItem>, timers: multiset<int>, watchers: set<nat>, joining: set<nat>,
    now: int, early: set<nat>, added: seq<LogItem>, log: seq<LogItem>, sent: seq<Broadcast>)

  const SECOND: int := 1_000_000_000
  const CACHE_SIZE: nat := 30
  const CHANNEL_SIZE: nat := 100

  ghost function Initial(start: int): State {
    State([], [], false, start, [], [], multiset{}, multiset{}, {}, {}, start, {}, [], [], [])
  }

  // ----- the steps

  ghost function AddItem(s: State, item: LogItem, t: int): State {
    var stamped := item.(time := t);
    var longer := [stamped] + s.cache;
    s.(cache := if |longer| > CACHE_SIZE then longer[..|longer| - 1] else longer,
       senders := s.senders + multiset{stamped}, added := s.added + [stamped], now := t)
  }

  /** A send that does not block: the batch is dropped when the channel is full. */
  ghost function Send(c: Channel, items: seq<LogItem>, number: nat): Channel {
    if |c.queue| < CHANNEL_SIZE then c.(queue := c.queue + [items], got := c.got + [items], took := c.took + [number])
    else c.(missed := c.missed + 1)
  }

  ghost function SendAll(chans: seq<Channel>, subs: seq<nat>, items: seq<LogItem>, number: nat): (r: seq<Channel>)
    ensures |r| == |chans|
  {
    seq(|chans|, i requires 0 <= i < |chans| => if i in subs then Send(chans[i], items, number) else chans[i])
  }

  /** One send of the loop over the subscribers. */
  lemma SendAllStep(chans: seq<Channel>, subs: seq<nat>, i: nat, items: seq<LogItem>, number: nat)
    requires i < |subs| && subs[i] < |chans| && subs[i] !in subs[..i]
    ensures SendAll(chans, subs[..i], items, number)[subs[i]] == chans[subs[i]]
    ensures SendAll(chans, subs[..i + 1], items, number) ==
            SendAll(chans, subs[..i], items, number)[subs[i] := Send(chans[subs[i]], items, number)]
  {
    assert subs[..i + 1] == subs[..i] + [subs[i]];
  }

  ghost function DoBroadcast(s: State, t: int): State {
    s.(chans := SendAll(s.chans, s.subs, s.buffer, |s.sent|), buffer := [], waiting := false, last := t, now := t,
       sent := s.sent + [Broadcast(t, s.buffer)])
  }

  /** The item that broadcastLogItem puts into the buffer. */
  ghost function Buffered(s: State, item: LogItem, u: int): State {
    s.(buffer := s.buffer + [item], log := s.log + [item], senders := s.senders - multiset{item}, now := u)
  }

  /** broadcastLogItem; `t` is the clock when the time since the last broadcast is read, `u` when it is read next. */
  ghost function BroadcastItem(s: State, item: LogItem, t: int, u: int): State {
    var s1 := Buffered(s, item, u);
    if s.waiting then s1
    else if t - s.last < SECOND then s1.(waiting := true, timers := s1.timers + multiset{u + SECOND - (t - s.last)})
    else DoBroadcast(s1, u)
  }

  ghost function TimerFires(s: State, due: int, t: int): State {
    DoBroadcast(s.(timers := s.timers - multiset{due}), t)
  }

  /** SubscribeToLog up to the start of the goroutine that waits for stop. */
  ghost function MakeChannel(s: State): State {
    var c := |s.chans|;
    s.(chans := s.chans + [Channel(true, [], [], [], 0, 0, 0)], watchers := s.watchers + {c}, joining := s.joining + {c})
  }

  ghost function Join(s: State, c: nat): State
    requires c < |s.chans|
  {
    s.(subs := s.subs + [c], joining := s.joining - {c},
       chans := s.chans[c := s.chans[c].(joined := |s.sent|)])
  }

  /** The elements other than c, in their order. */
  ghost function Without(subs: seq<nat>, c: nat): (r: seq<nat>)
    ensures forall x :: x in r <==> x in subs && x != c
  {
    if subs == [] then []
    else if subs[0] == c then Without(subs[1..], c)
    else [subs[0]] + Without(subs[1..], c)
  }

  /** stop fired: unsubscribeFromLog. */
  ghost function Stop(s: State, c: nat): State
    requires c < |s.chans|
  {
    s.(subs := Without(s.subs, c), watchers := s.watchers - {c},
       chans := s.chans[c := s.chans[c].(open := false, left := |s.sent|)],
       early := if c in s.joining then s.early + {c} else s.early)
  }

  ghost function Receive(s: State, c: nat): State
    requires c < |s.chans| && s.chans[c].queue != []
  {
    s.(chans := s.chans[c := s.chans[c].(queue := s.chans[c].queue[1..])])
  }

  // ----- runs

  datatype Event =
    | DoAdd(item: LogItem, t: int)
    | DoBroadcastItem(item: LogItem, t: int, u: int)
    | DoTimer(due: int, t: int)
    | DoMake
    | DoJoin(c: nat)
    | DoStop(c: nat)
    | DoReceive(c: nat)

  ghost predicate Enabled(s: State, e: Event) {
    match e
    case DoAdd(_, t) => s.now <= t
    case DoBroadcastItem(item, t, u) => item in s.senders && s.now <= t <= u
    case DoTimer(due, t) => due in s.timers && s.now <= t && due <= t
    case DoMake => true
    case DoJoin(c) => c in s.joining && c < |s.chans|
    case DoStop(c) => c in s.watchers && c < |s.chans|
    case DoReceive(c) => c < |s.chans| && s.chans[c].queue != []
  }

  ghost function Apply(s: State, e: Event): State
    requires Enabled(s, e)
  {
    match e
    case DoAdd(item, t) => AddItem(s, item, t)
    case DoBroadcastItem(item, t, u) => BroadcastItem(s, item, t, u)
    case DoTimer(due, t) => TimerFires(s, due, t)
    case DoMake => MakeChannel(s)
    case DoJoin(c) => Join(s, c)
    case DoStop(c) => Stop(s, c)
    case DoReceive(c) => Receive(s, c)
  }

  ghost predicate Broadcasts(s: State, e: Event) {
    match e
    case DoBroadcastItem(_, t, _) => !s.waiting && t - s.last >= SECOND
    case DoTimer(_, _) => true
    case _ => false
  }

  /** A step panics when it sends on a closed channel, or closes one again. */
  ghost predicate Panics(s: State, e: Event) {
    || (Broadcasts(s, e) && exists c :: c in s.subs && c < |s.chans| && !s.chans[c].open)
    || (e.DoStop? && e.c < |s.chans| && !s.chans[e.c].open)
  }

  /** The state after a schedule of steps, unless some step was not enabled. */
  ghost function Run(s: State, es: seq<Event>): Outcome<State>
    decreases |es|
  {
    if es == [] then Reached(s)
    else if Enabled(s, es[0]) then Run(Apply(s, es[0]), es[1..])
    else Stuck
  }

  // ----- the invariant

  ghost function Flatten(bs: seq<Broadcast>): seq<LogItem> {
    if bs == [] then [] else Flatten(bs[..|bs| - 1]) + bs[|bs| - 1].items
  }

  ghost function Items(bs: seq<Broadcast>): seq<seq<LogItem>> {
    seq(|bs|, i requires 0 <= i < |bs| => bs[i].items)
  }

  ghost predicate CacheOk(s: State) {
    && |s.cache| == (if |s.added| < CACHE_SIZE then |s.added| else CACHE_SIZE)
    && forall i :: 0 <= i < |s.cache| ==> s.cache[i] == s.added[|s.added| - 1 - i]
  }

  ghost predicate ThrottleOk(s: State) {
    && s.waiting == (s.buffer != [])
    && |s.timers| == (if s.waiting then 1 else 0)
    && (forall due :: due in s.timers ==> s.last + SECOND <= due <= s.now + SECOND)
    && s.last <= s.now
  }

  ghost predicate SentOk(s: State) {
    && Flatten(s.sent) + s.buffer == s.log
    && multiset(s.added) == multiset(s.log) + s.senders
    && (s.sent != [] ==> s.last == s.sent[|s.sent| - 1].time)
    && (forall i :: 0 <= i < |s.sent| ==> s.sent[i].items != [])
    && (forall i :: 0 < i < |s.sent| ==> s.sent[i - 1].time + SECOND <= s.sent[i].time)
  }

  ghost predicate Distinct(subs: seq<nat>) {
    forall i, j :: 0 <= i < j < |subs| ==> subs[i] != subs[j]
  }

  /** A channel is open until its stop fires; a subscriber is closed only if that happened while it was joining. */
  ghost predicate ChannelsOk(s: State) {
    && Distinct(s.subs)
    && (forall c :: c in s.subs ==> c < |s.chans| && c !in s.joining)
    && (forall c :: c in s.joining || c in s.watchers || c in s.early ==> c < |s.chans|)
    && (forall c :: 0 <= c < |s.chans| ==> (s.chans[c].open <==> c in s.watchers))
    && (forall c :: c in s.watchers ==> c in s.subs || c in s.joining)
    && (forall c :: c in s.subs || c in s.joining ==> (c in s.watchers <==> c !in s.early))
  }

  /** The broadcasts so far that were, or could have been, for this channel end here. */
  ghost function End(s: State, c: nat): nat
    requires c < |s.chans|
  {
    if c in s.subs then |s.sent| else s.chans[c].left
  }

  /** The k-th batch put into the channel is that of broadcast took[k], and these numbers only grow. */
  ghost predicate TookInOrder(sent: seq<Broadcast>, ch: Channel, end: nat) {
    && |ch.took| == |ch.got| && end <= |sent|
    && (forall k :: 0 <= k < |ch.took| ==> ch.joined <= ch.took[k] < end && ch.got[k] == sent[ch.took[k]].items)
    && (forall j, k :: 0 <= j < k < |ch.took| ==> ch.took[j] < ch.took[k])
  }

  /** From joining to its stop a channel is offered every broadcast, takes some in order, and misses the others. */
  ghost predicate DeliveryOk(s: State, c: nat)
    requires c < |s.chans|
  {
    var ch := s.chans[c];
    && |ch.queue| <= CHANNEL_SIZE
    && |ch.queue| <= |ch.got| && ch.queue == ch.got[|ch.got| - |ch.queue|..]
    && TookInOrder(s.sent, ch, End(s, c))
    && (c in s.joining ==> ch.got == [] && ch.missed == 0)
    && (ch.missed > 0 ==> |ch.took| >= CHANNEL_SIZE)
    && (c !in s.joining ==> ch.joined <= End(s, c) && |ch.took| + ch.missed == End(s, c) - ch.joined)
  }

  ghost predicate Inv(s: State) {
    && CacheOk(s) && ThrottleOk(s) && SentOk(s) && ChannelsOk(s)
    && forall c: nat :: c < |s.chans| ==> DeliveryOk(s, c)
  }

  // ----- every step keeps it

  lemma DeliveryUnchanged(s: State, s': State)
    requires s'.chans == s.chans && s'.subs == s.subs && s'.joining == s.joining && s'.sent == s.sent
    requires forall c: nat :: c < |s.chans| ==> DeliveryOk(s, c)
    ensures forall c: nat :: c < |s'.chans| ==> DeliveryOk(s', c)
  {
    forall c: nat | c < |s'.chans| ensures DeliveryOk(s', c) {
      assert DeliveryOk(s, c);
    }
  }

  lemma AddCaches(s: State, item: LogItem, t: int)
    requires CacheOk(s)
    ensures CacheOk(AddItem(s, item, t))
  {
  }

  lemma AddSends(s: State, item: LogItem, t: int)
    requires SentOk(s)
    ensures SentOk(AddItem(s, item, t))
  {
    assert multiset(AddItem(s, item, t).added) == multiset(s.added) + multiset{item.(time := t)};
  }

  lemma AddKeeps(s: State, item: LogItem, t: int)
    requires Inv(s) && s.now <= t
    ensures Inv(AddItem(s, item, t))
  {
    var s' := AddItem(s, item, t);
    AddCaches(s, item, t);
    AddSends(s, item, t);
    assert ThrottleOk(s') && ChannelsOk(s');
    DeliveryUnchanged(s, s');
  }

  lemma SendInOrder(sent: seq<Broadcast>, b: Broadcast, ch: Channel)
    requires TookInOrder(sent, ch, |sent|) && ch.joined <= |sent|
    ensures TookInOrder(sent + [b], Send(ch, b.items, |sent|), |sent| + 1)
  {
    var longer, ch' := sent + [b], Send(ch, b.items, |sent|);
    forall k | 0 <= k < |ch'.took| ensures ch.joined <= ch'.took[k] < |sent| + 1 && ch'.got[k] == longer[ch'.took[k]].items {
      assert k < |ch.took| ==> longer[ch.took[k]] == sent[ch.took[k]];
    }
  }

  /** Into the queue unless it is full, and one more offer either way; a miss needs CHANNEL_SIZE batches put there before. */
  lemma SendQueues(ch: Channel, items: seq<LogItem>, number: nat)
    requires |ch.queue| <= CHANNEL_SIZE && |ch.queue| <= |ch.got| && ch.queue == ch.got[|ch.got| - |ch.queue|..]
    requires |ch.took| == |ch.got| && (ch.missed > 0 ==> |ch.took| >= CHANNEL_SIZE)
    ensures var ch' := Send(ch, items, number);
            && |ch'.queue| <= CHANNEL_SIZE && |ch'.queue| <= |ch'.got| && ch'.queue == ch'.got[|ch'.got| - |ch'.queue|..]
            && (ch'.missed > 0 ==> |ch'.took| >= CHANNEL_SIZE)
            && |ch'.took| + ch'.missed == |ch.took| + ch.missed + 1 && ch'.joined == ch.joined
  {
  }

  lemma SentToSubscriber(s: State, t: int, c: nat)
    requires c < |s.chans| && c in s.subs
    ensures var s' := DoBroadcast(s, t);
            && s'.chans[c] == Send(s.chans[c], s.buffer, |s.sent|) && s'.sent == s.sent + [Broadcast(t, s.buffer)]
            && s'.subs == s.subs && s'.joining == s.joining && End(s', c) == |s.sent| + 1 && End(s, c) == |s.sent|
  {
  }

  lemma SendDelivers(s: State, t: int, c: nat)
    requires c < |s.chans| && DeliveryOk(s, c) && c in s.subs && c !in s.joining
    ensures DeliveryOk(DoBroadcast(s, t), c)
  {
    SentToSubscriber(s, t, c);
    SendInOrder(s.sent, Broadcast(t, s.buffer), s.chans[c]);
    SendQueues(s.chans[c], s.buffer, |s.sent|);
  }

  lemma BroadcastDelivers(s: State, t: int, c: nat)
    requires c < |s.chans| && DeliveryOk(s, c) && (c in s.subs ==> c !in s.joining)
    ensures DeliveryOk(DoBroadcast(s, t), c)
  {
    if c in s.subs {
      SendDelivers(s, t, c);
    } else {
      assert DoBroadcast(s, t).chans[c] == s.chans[c];
    }
  }

  lemma BroadcastSends(s: State, t: int)
    requires SentOk(s) && s.buffer != [] && s.last + SECOND <= t
    ensures SentOk(DoBroadcast(s, t))
  {
    var s' := DoBroadcast(s, t);
    assert s'.sent[..|s'.sent| - 1] == s.sent;
    assert Flatten(s'.sent) == Flatten(s.sent) + s.buffer;
    assert Flatten(s'.sent) + [] == Flatten(s'.sent);
  }

  lemma BroadcastKeeps(s: State, t: int)
    requires CacheOk(s) && SentOk(s) && ChannelsOk(s) && (forall c: nat :: c < |s.chans| ==> DeliveryOk(s, c))
    requires s.buffer != [] && s.timers == multiset{} && s.last + SECOND <= t
    ensures Inv(DoBroadcast(s, t))
  {
    BroadcastSends(s, t);
    forall c: nat | c < |s.chans| ensures DeliveryOk(DoBroadcast(s, t), c) { BroadcastDelivers(s, t, c); }
    assert ChannelsOk(DoBroadcast(s, t));
  }

  lemma BufferedOk(s: State, item: LogItem, u: int)
    requires Inv(s) && item in s.senders && s.now <= u
    ensures CacheOk(Buffered(s, item, u)) && SentOk(Buffered(s, item, u)) && ChannelsOk(Buffered(s, item, u))
    ensures forall c: nat :: c < |s.chans| ==> DeliveryOk(Buffered(s, item, u), c)
  {
    var s1 := Buffered(s, item, u);
    BufferedSends(s, item, u);
    assert ChannelsOk(s1);
    DeliveryUnchanged(s, s1);
  }

  lemma BufferedSends(s: State, item: LogItem, u: int)
    requires SentOk(s) && item in s.senders
    ensures SentOk(Buffered(s, item, u))
  {
    var s1 := Buffered(s, item, u);
    assert multiset(s1.log) == multiset(s.log) + multiset{item};
    assert s.senders == s1.senders + multiset{item};
    assert Flatten(s1.sent) + s1.buffer == (Flatten(s.sent) + s.buffer) + [item];
  }

  /** Waiting for the rest of the second changes nothing but the flag and the timer. */
  lemma WaitKeeps(s1: State, timers: multiset<int>)
    requires CacheOk(s1) && SentOk(s1) && ChannelsOk(s1) && (forall c: nat :: c < |s1.chans| ==> DeliveryOk(s1, c))
    requires var s' := s1.(waiting := true, timers := timers); ThrottleOk(s')
    ensures Inv(s1.(waiting := true, timers := timers))
  {
    var s' := s1.(waiting := true, timers := timers);
    assert CacheOk(s') && SentOk(s') && ChannelsOk(s');
    DeliveryUnchanged(s1, s');
  }

  lemma BroadcastItemKeeps(s: State, item: LogItem, t: int, u: int)
    requires Inv(s) && Enabled(s, DoBroadcastItem(item, t, u))
    ensures Inv(BroadcastItem(s, item, t, u))
  {
    var s1 := Buffered(s, item, u);
    BufferedOk(s, item, u);
    var s' := BroadcastItem(s, item, t, u);
    if !s.waiting && t - s.last >= SECOND {
      BroadcastKeeps(s1, u);
    } else {
      assert s' == s1.(waiting := true, timers := s'.timers);
      WaitKeeps(s1, s'.timers);
    }
  }

  lemma TimerKeeps(s: State, due: int, t: int)
    requires Inv(s) && Enabled(s, DoTimer(due, t))
    ensures Inv(TimerFires(s, due, t))
  {
    var s1 := s.(timers := s.timers - multiset{due});
    assert s.timers == s1.timers + multiset{due};
    DeliveryUnchanged(s, s1);
    BroadcastKeeps(s1, t);
  }

  lemma MakeKeeps(s: State)
    requires Inv(s)
    ensures Inv(MakeChannel(s))
  {
    var s' := MakeChannel(s);
    MakeChannels(s);
    assert CacheOk(s') && ThrottleOk(s') && SentOk(s');
    forall c: nat | c < |s'.chans| ensures DeliveryOk(s', c) {
      if c < |s.chans| { MakeDelivers(s, c); }
    }
  }

  lemma MakeChannels(s: State)
    requires ChannelsOk(s)
    ensures ChannelsOk(MakeChannel(s))
  {
  }

  lemma MakeDelivers(s: State, c: nat)
    requires c < |s.chans| && DeliveryOk(s, c)
    ensures DeliveryOk(MakeChannel(s), c)
  {
    assert MakeChannel(s).chans[c] == s.chans[c];
  }

  lemma JoinKeeps(s: State, c: nat)
    requires Inv(s) && Enabled(s, DoJoin(c))
    ensures Inv(Join(s, c))
  {
    JoinChannels(s, c);
    forall d: nat | d < |s.chans| ensures DeliveryOk(Join(s, c), d) { JoinDelivers(s, c, d); }
  }

  lemma JoinChannels(s: State, c: nat)
    requires ChannelsOk(s) && Enabled(s, DoJoin(c))
    ensures ChannelsOk(Join(s, c))
  {
    assert c !in s.subs;
    assert forall d :: d in s.subs + [c] <==> d in s.subs || d == c;
  }

  lemma JoinDelivers(s: State, c: nat, d: nat)
    requires Enabled(s, DoJoin(c)) && d < |s.chans| && DeliveryOk(s, d)
    ensures DeliveryOk(Join(s, c), d)
  {
    var s' := Join(s, c);
    if d != c {
      assert s'.chans[d] == s.chans[d];
      assert d in s'.subs <==> d in s.subs;
    }
  }

  lemma {:induction false} WithoutAbsent(subs: seq<nat>, c: nat)
    requires c !in subs
    ensures Without(subs, c) == subs
  {
    if subs != [] { WithoutAbsent(subs[1..], c); }
  }

  lemma {:induction false} WithoutIsDistinct(subs: seq<nat>, c: nat)
    requires Distinct(subs)
    ensures Distinct(Without(subs, c))
  {
    if subs != [] {
      var rest := Without(subs[1..], c);
      WithoutIsDistinct(subs[1..], c);
      assert forall j :: 0 <= j < |rest| ==> rest[j] in rest;
      assert subs[0] !in subs[1..];
    }
  }

  /** Removing the one occurrence of c closes the gap and keeps the order of the rest. */
  lemma {:induction false} WithoutClosesGap(subs: seq<nat>, c: nat, i: nat)
    requires Distinct(subs) && i < |subs| && subs[i] == c
    ensures Without(subs, c) == subs[..i] + subs[i + 1..]
  {
    if i == 0 {
      WithoutAbsent(subs[1..], c);
    } else {
      WithoutClosesGap(subs[1..], c, i - 1);
      assert subs[1..][i..] == subs[i + 1..];
      assert [subs[0]] + subs[1..][..i - 1] == subs[..i];
    }
  }

  lemma StopChannels(s: State, c: nat)
    requires ChannelsOk(s) && Enabled(s, DoStop(c))
    ensures ChannelsOk(Stop(s, c)) && s.chans[c].open
  {
    WithoutIsDistinct(s.subs, c);
  }

  lemma StopDelivers(s: State, c: nat, d: nat)
    requires Enabled(s, DoStop(c)) && (c in s.subs || c in s.joining) && d < |s.chans| && DeliveryOk(s, d)
    ensures DeliveryOk(Stop(s, c), d)
  {
    assert d != c ==> Stop(s, c).chans[d] == s.chans[d] && End(Stop(s, c), d) == End(s, d);
    assert d == c ==> End(Stop(s, c), d) == |s.sent|;
  }

  lemma StopKeeps(s: State, c: nat)
    requires Inv(s) && Enabled(s, DoStop(c))
    ensures Inv(Stop(s, c))
    ensures s.chans[c].open
  {
    var s' := Stop(s, c);
    StopChannels(s, c);
    assert CacheOk(s') && ThrottleOk(s') && SentOk(s');
    forall d: nat | d < |s'.chans| ensures DeliveryOk(s', d) { StopDelivers(s, c, d); }
  }

  lemma ReceiveDelivers(s: State, c: nat, d: nat)
    requires c < |s.chans| && s.chans[c].queue != [] && d < |s.chans| && DeliveryOk(s, d)
    ensures DeliveryOk(Receive(s, c), d)
  {
    if d == c {
      var ch := s.chans[c];
      assert ch.queue[1..] == ch.got[|ch.got| - |ch.queue[1..]|..];
    }
  }

  lemma ReceiveChannels(s: State, c: nat)
    requires ChannelsOk(s) && Enabled(s, DoReceive(c))
    ensures ChannelsOk(Receive(s, c))
  {
  }

  lemma AllDelivered(s: State, c: nat)
    requires Enabled(s, DoReceive(c)) && forall d: nat :: d < |s.chans| ==> DeliveryOk(s, d)
    ensures forall d: nat :: d < |s.chans| ==> DeliveryOk(Receive(s, c), d)
  {
    forall d: nat | d < |s.chans| ensures DeliveryOk(Receive(s, c), d) { ReceiveDelivers(s, c, d); }
  }

  lemma ReceiveKeeps(s: State, c: nat)
    requires Inv(s) && Enabled(s, DoReceive(c))
    ensures Inv(Receive(s, c))
  {
    var s' := Receive(s, c);
    ReceiveChannels(s, c);
    AllDelivered(s, c);
    assert CacheOk(s') && ThrottleOk(s') && SentOk(s');
  }

  lemma StepKeeps(s: State, e: Event)
    requires Inv(s) && Enabled(s, e)
    ensures Inv(Apply(s, e))
  {
    match e
    case DoAdd(item, t) => AddKeeps(s, item, t);
    case DoBroadcastItem(item, t, u) => BroadcastItemKeeps(s, item, t, u);
    case DoTimer(due, t) => TimerKeeps(s, due, t);
    case DoMake => MakeKeeps(s);
    case DoJoin(c) => JoinKeeps(s, c);
    case DoStop(c) => StopKeeps(s, c);
    case DoReceive(c) => ReceiveKeeps(s, c);
  }

  lemma {:induction false} RunKeeps(s: State, es: seq<Event>)
    requires Inv(s) && Run(s, es).Reached?
    ensures Inv(Run(s, es).state)
    decreases |es|
  {
    if es != [] {
      StepKeeps(s, es[0]);
      RunKeeps(Apply(s, es[0]), es[1..]);
    }
  }

  lemma InitialInv(start: int)
    ensures Inv(Initial(start))
  {
    var s := Initial(start);
    assert multiset(s.added) == multiset(s.log) + s.senders;
  }

  ghost predicate Reachable(s: State) {
    exists start, es :: Run(Initial(start), es) == Reached(s)
  }

  lemma ReachableInv(s: State)
    requires Reachable(s)
    ensures Inv(s)
  {
    var start, es :| Run(Initial(start), es) == Reached(s);
    InitialInv(start);
    RunKeeps(Initial(start), es);
  }

  // ----- what the runs guarantee

  /**
   Each item handed to the broadcaster is in exactly one place: its goroutine has not run yet, or it was broadcast once, or
   it is in the buffer; broadcasts and buffer together are the items in the order their goroutines got the lock. The
   log cache is the last 30 items added, newest first.
   */
  lemma EachItemOnce(s: State)
    requires Reachable(s)
    ensures Flatten(s.sent) + s.buffer == s.log
    ensures multiset(s.added) == multiset(Flatten(s.sent)) + multiset(s.buffer) + s.senders
    ensures CacheOk(s)
  {
    ReachableInv(s);
    assert multiset(s.log) == multiset(Flatten(s.sent)) + multiset(s.buffer);
  }

  /** Something waits in the buffer exactly when the flag is set, and exactly when one timer is pending to send it. */
  lemma WaitingIffTimerIffBuffer(s: State)
    requires Reachable(s)
    ensures s.waiting <==> s.buffer != []
    ensures s.waiting <==> |s.timers| == 1
    ensures !s.waiting <==> s.timers == multiset{}
    ensures forall due :: due in s.timers ==> s.last + SECOND <= due <= s.now + SECOND
  {
    ReachableInv(s);
  }

  /** Broadcasts are never empty and never closer than a second: from the i-th to the j-th at least j - i seconds pass. */
  lemma {:induction false} AtMostOncePerSecond(s: State, i: nat, j: nat)
    requires Reachable(s) && i <= j < |s.sent|
    ensures s.sent[i].items != []
    ensures (j - i) * SECOND <= s.sent[j].time - s.sent[i].time
    decreases j
  {
    ReachableInv(s);
    if i < j {
      AtMostOncePerSecond(s, i, j - 1);
      assert s.sent[j - 1].time + SECOND <= s.sent[j].time;
    }
  }

  /**
   A channel is offered every broadcast from the moment it joined to its stop, or until now. What it was given are the batches
   of some of these broadcasts, in their order and each once; it missed the others.
   */
  lemma SubscriberSeesAll(s: State, c: nat)
    requires Reachable(s) && c < |s.chans| && c !in s.joining
    ensures var ch := s.chans[c];
            && TookInOrder(s.sent, ch, End(s, c))
            && ch.joined <= End(s, c) && |ch.took| + ch.missed == End(s, c) - ch.joined
            && |ch.queue| <= CHANNEL_SIZE && |ch.queue| <= |ch.got| && ch.queue == ch.got[|ch.got| - |ch.queue|..]
            && (ch.missed == 0 ==> ch.got == Items(s.sent[ch.joined..End(s, c)]))
  {
    ReachableInv(s);
    assert DeliveryOk(s, c);
    if s.chans[c].missed == 0 { NoneMissed(s.sent, s.chans[c], End(s, c)); }
  }

  lemma {:induction false} AtLeast(took: seq<nat>, first: nat, k: nat)
    requires k < |took| && first <= took[0] && forall i, j :: 0 <= i < j < |took| ==> took[i] < took[j]
    ensures first + k <= took[k]
  {
    if k > 0 { AtLeast(took, first, k - 1); }
  }

  lemma {:induction false} AtMost(took: seq<nat>, end: nat, k: nat)
    requires k < |took| && took[|took| - 1] < end && forall i, j :: 0 <= i < j < |took| ==> took[i] < took[j]
    ensures took[k] + (|took| - k) <= end
    decreases |took| - k
  {
    if k < |took| - 1 { AtMost(took, end, k + 1); }
  }

  /** As many numbers as there are places leave no gap. */
  lemma NoneMissed(sent: seq<Broadcast>, ch: Channel, end: nat)
    requires TookInOrder(sent, ch, end) && ch.joined <= end && |ch.took| == end - ch.joined
    ensures ch.got == Items(sent[ch.joined..end])
  {
    forall k | 0 <= k < |ch.took| ensures ch.took[k] == ch.joined + k {
      AtLeast(ch.took, ch.joined, k);
      AtMost(ch.took, end, k);
    }
  }

  /**
   What one item does when its goroutine gets the mutex: under a second after the last broadcast it arms a timer for the rest of
   that second, later it is broadcast at once with the buffer, and while a timer is pending it waits for that.
   */
  lemma ItemIsThrottled(s: State, item: LogItem, t: int, u: int)
    requires Reachable(s) && Enabled(s, DoBroadcastItem(item, t, u))
    ensures var s' := Apply(s, DoBroadcastItem(item, t, u));
            if s.waiting then s'.sent == s.sent && s'.timers == s.timers && s'.buffer == s.buffer + [item]
            else if t < s.last + SECOND then
              && s'.sent == s.sent && s'.buffer == [item] && s'.waiting
              && s'.timers == multiset{s.last + SECOND + (u - t)}
            else s'.sent == s.sent + [Broadcast(u, [item])] && s'.buffer == [] && s'.timers == multiset{} && s'.last == u
  {
    ReachableInv(s);
    assert s.buffer == [] ==> s.buffer + [item] == [item];
  }

  /** A broadcast puts its batch into every subscriber's channel that is not full, and into no other channel. */
  lemma BroadcastPuts(s: State, e: Event, c: nat)
    requires Enabled(s, e) && Broadcasts(s, e) && c < |s.chans|
    ensures var s' := Apply(s, e);
            && |s'.sent| == |s.sent| + 1
            && s'.chans[c].queue == (if c in s.subs && |s.chans[c].queue| < CHANNEL_SIZE
                                     then s.chans[c].queue + [s'.sent[|s.sent|].items] else s.chans[c].queue)
            && s'.chans[c].missed == s.chans[c].missed + (if c in s.subs && |s.chans[c].queue| >= CHANNEL_SIZE then 1 else 0)
  {
  }

  /** Nothing else but receiving changes what is in a channel. */
  lemma OnlyBroadcastsPut(s: State, e: Event, c: nat)
    requires Enabled(s, e) && !Broadcasts(s, e) && e != DoReceive(c) && c < |s.chans|
    ensures c < |Apply(s, e).chans| && Apply(s, e).chans[c].queue == s.chans[c].queue
    ensures Apply(s, e).chans[c].missed == s.chans[c].missed
  {
  }

  /** In no state of the run does the channel hold CHANNEL_SIZE batches that were not received. */
  ghost predicate NeverFull(s: State, es: seq<Event>, c: nat)
    decreases |es|
  {
    && (c < |s.chans| ==> |s.chans[c].queue| < CHANNEL_SIZE)
    && (es != [] && Enabled(s, es[0]) ==> NeverFull(Apply(s, es[0]), es[1..], c))
  }

  lemma {:induction false} NeverFullMissesNone(s: State, es: seq<Event>, c: nat)
    requires NeverFull(s, es, c) && Run(s, es).Reached? && (c < |s.chans| ==> s.chans[c].missed == 0)
    ensures c < |Run(s, es).state.chans| ==> Run(s, es).state.chans[c].missed == 0
    decreases |es|
  {
    if es != [] {
      if c < |s.chans| {
        MissesOnlyWhenFull(s, es[0], c);
      } else {
        NewMissesNone(s, es[0], c);
      }
      NeverFullMissesNone(Apply(s, es[0]), es[1..], c);
    }
  }

  /** A step adds a miss only to a channel that is full. */
  lemma MissesOnlyWhenFull(s: State, e: Event, c: nat)
    requires Enabled(s, e) && c < |s.chans| && |s.chans[c].queue| < CHANNEL_SIZE
    ensures c < |Apply(s, e).chans| && Apply(s, e).chans[c].missed == s.chans[c].missed
  {
    if Broadcasts(s, e) {
      BroadcastPuts(s, e, c);
    } else if e != DoReceive(c) {
      OnlyBroadcastsPut(s, e, c);
    }
  }

  lemma NewMissesNone(s: State, e: Event, c: nat)
    requires Enabled(s, e) && c >= |s.chans|
    ensures c < |Apply(s, e).chans| ==> Apply(s, e).chans[c].missed == 0
  {
  }

  /** A channel that never fills up is given every broadcast from joining to its stop, or until now. */
  lemma NeverFullSeesAll(start: int, es: seq<Event>, c: nat)
    requires Run(Initial(start), es).Reached? && NeverFull(Initial(start), es, c)
    requires var s := Run(Initial(start), es).state; c < |s.chans| && c !in s.joining
    ensures var s := Run(Initial(start), es).state;
            s.chans[c].missed == 0 && s.chans[c].joined <= End(s, c) <= |s.sent|
            && s.chans[c].got == Items(s.sent[s.chans[c].joined..End(s, c)])
  {
    var s := Run(Initial(start), es).state;
    NeverFullMissesNone(Initial(start), es, c);
    assert Reachable(s);
    SubscriberSeesAll(s, c);
  }

  /** In particular one that was offered at most CHANNEL_SIZE broadcasts, whether it receives any or not. */
  lemma FewBroadcastsAllSeen(s: State, c: nat)
    requires Reachable(s) && c < |s.chans| && c !in s.joining && End(s, c) - s.chans[c].joined <= CHANNEL_SIZE
    ensures s.chans[c].missed == 0 && s.chans[c].joined <= End(s, c) <= |s.sent|
    ensures s.chans[c].got == Items(s.sent[s.chans[c].joined..End(s, c)])
  {
    SubscriberSeesAll(s, c);
    ReachableInv(s);
    assert DeliveryOk(s, c);
  }

  // ----- closed channels

  /** stop fires while SubscribeToLog has not appended the channel yet. */
  ghost predicate EarlyStop(s: State, e: Event) {
    e.DoStop? && e.c in s.joining
  }

  ghost predicate NoEarlyStop(s: State, es: seq<Event>)
    decreases |es|
  {
    es != [] && Enabled(s, es[0]) ==> !EarlyStop(s, es[0]) && NoEarlyStop(Apply(s, es[0]), es[1..])
  }

  ghost predicate NoPanic(s: State, es: seq<Event>)
    decreases |es|
  {
    es != [] && Enabled(s, es[0]) ==> !Panics(s, es[0]) && NoPanic(Apply(s, es[0]), es[1..])
  }

  /** No channel that was stopped too early is, or is about to be, a subscriber. */
  ghost predicate Clean(s: State) {
    forall c :: c in s.early ==> c !in s.subs && c !in s.joining
  }

  /** The subscribers' channels are all open exactly when none of them was stopped before it was appended. */
  lemma SubscribersOpenIff(s: State)
    requires Reachable(s)
    ensures Distinct(s.subs)
    ensures (forall c :: c in s.subs ==> c < |s.chans| && s.chans[c].open) <==> (forall c :: c in s.subs ==> c !in s.early)
  {
    ReachableInv(s);
    if forall c :: c in s.subs ==> c < |s.chans| && s.chans[c].open {
      forall c | c in s.subs ensures c !in s.early { assert s.chans[c].open; }
    }
  }

  lemma CleanStep(s: State, e: Event)
    requires Inv(s) && Clean(s) && Enabled(s, e) && !EarlyStop(s, e)
    ensures !Panics(s, e) && Clean(Apply(s, e))
  {
    if e.DoStop? { StopKeeps(s, e.c); }
    assert forall c :: c in s.subs ==> s.chans[c].open;
  }

  lemma {:induction false} CleanRunNeverPanics(s: State, es: seq<Event>)
    requires Inv(s) && Clean(s) && NoEarlyStop(s, es)
    ensures NoPanic(s, es)
    decreases |es|
  {
    if es != [] && Enabled(s, es[0]) {
      CleanStep(s, es[0]);
      StepKeeps(s, es[0]);
      CleanRunNeverPanics(Apply(s, es[0]), es[1..]);
    }
  }

  lemma SomeTimer(timers: multiset<int>)
    requires |timers| > 0
    ensures exists due :: due in timers
  {
    assert (forall due :: due !in timers) ==> timers == multiset{};
  }

  /** With a closed channel among the subscribers, a broadcast is always possible, and it panics. */
  lemma ClosedSubscriberPanics(s: State, c: nat) returns (es: seq<Event>)
    requires Inv(s) && c in s.subs && c in s.early
    ensures NoEarlyStop(s, es) && !NoPanic(s, es)
  {
    assert !s.chans[c].open;
    if s.waiting {
      SomeTimer(s.timers);
      var due :| due in s.timers;
      var t := if s.now < due then due else s.now;
      var e := DoTimer(due, t);
      es := [e];
      assert Enabled(s, e) && Panics(s, e);
    } else {
      var item := LogItem(s.now + SECOND, "", "");
      var add := DoAdd(item, s.now + SECOND);
      var s1 := Apply(s, add);
      var e := DoBroadcastItem(item, s1.now, s1.now);
      es := [add, e];
      assert es[1..] == [e] && es[0] == add;
      assert Enabled(s1, e) && Broadcasts(s1, e) && !s1.chans[c].open && c in s1.subs;
      assert Panics(s1, e);
      assert [e][0] == e;
      assert !NoPanic(s1, [e]);
    }
  }

  lemma StoppedWhileJoiningPanics(s: State, c: nat) returns (es: seq<Event>)
    requires Inv(s) && c in s.early && (c in s.subs || c in s.joining)
    ensures NoEarlyStop(s, es) && !NoPanic(s, es)
  {
    if c in s.subs {
      es := ClosedSubscriberPanics(s, c);
    } else {
      var join := DoJoin(c);
      JoinKeeps(s, c);
      var rest := ClosedSubscriberPanics(Apply(s, join), c);
      es := [join] + rest;
      assert es[1..] == rest;
    }
  }

  lemma StepIntoPanic(s: State, e: Event, es: seq<Event>)
    requires Enabled(s, e) && !NoPanic(Apply(s, e), es)
    ensures !NoPanic(s, [e] + es)
  {
    var all := [e] + es;
    assert all[0] == e && all[1..] == es;
  }

  lemma TwoStepsIntoPanic(s: State, e: Event, s1: State, f: Event, s2: State, es: seq<Event>)
    requires Enabled(s, e) && s1 == Apply(s, e) && Enabled(s1, f) && s2 == Apply(s1, f) && !NoPanic(s2, es)
    ensures !NoPanic(s, [e, f] + es)
  {
    StepIntoPanic(s1, f, es);
    StepIntoPanic(s, e, [f] + es);
    assert [e] + ([f] + es) == [e, f] + es;
  }

  lemma StopAtOnce(start: int)
    ensures Enabled(MakeChannel(Initial(start)), DoStop(0)) && Inv(Stop(MakeChannel(Initial(start)), 0))
    ensures 0 in Stop(MakeChannel(Initial(start)), 0).early && 0 in Stop(MakeChannel(Initial(start)), 0).joining
  {
    InitialInv(start);
    MakeKeeps(Initial(start));
    var s1 := MakeChannel(Initial(start));
    assert 0 in s1.watchers && 0 in s1.joining && |s1.chans| == 1;
    StopKeeps(s1, 0);
  }

  /** From the start: make a channel, and stop it before it is appended; without another early stop this comes to a panic. */
  lemma EarlyStopPanics(start: int) returns (es: seq<Event>)
    ensures !NoPanic(Initial(start), [DoMake, DoStop(0)] + es)
    ensures Enabled(MakeChannel(Initial(start)), DoStop(0)) && NoEarlyStop(Stop(MakeChannel(Initial(start)), 0), es)
  {
    StopAtOnce(start);
    var s1 := MakeChannel(Initial(start));
    var s2 := Stop(s1, 0);
    es := StoppedWhileJoiningPanics(s2, 0);
    TwoStepsIntoPanic(Initial(start), DoMake, s1, DoStop(0), s2, es);
  }

  /**
   No run from here that stops its subscribers only after SubscribeToLog has returned sends on a closed channel or closes
   one again, exactly when no channel stopped earlier is a subscriber or about to become one. A fresh logger is such
   a state; a stop that fires too early is what leaves it.
   */
  lemma NeverPanicsIff(s: State)
    requires Reachable(s)
    ensures (forall es :: NoEarlyStop(s, es) ==> NoPanic(s, es)) <==> Clean(s)
  {
    ReachableInv(s);
    if Clean(s) {
      forall es | NoEarlyStop(s, es) ensures NoPanic(s, es) { CleanRunNeverPanics(s, es); }
    } else {
      var c :| c in s.early && (c in s.subs || c in s.joining);
      var es := StoppedWhileJoiningPanics(s, c);
    }
  }

  /** Early stops are the only way out: a run without them from a fresh logger stays clean and never panics. */
  lemma OrderlyRunNeverPanics(start: int, es: seq<Event>)
    requires NoEarlyStop(Initial(start), es)
    ensures NoPanic(Initial(start), es)
  {
    InitialInv(start);
    CleanRunNeverPanics(Initial(start), es);
  }
}
