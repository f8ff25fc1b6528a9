/**
 The broadcaster's package variables and channels, updated in place. The subscribers are a slice: an array with room to
 grow and the length in use. Each method is one section under the mutex and is proved to be the protocol's step.
 */
module LogBroadcaster {
  import opened P = LogProtocol

  class LogChannel {
    const id: nat
    var open: bool
    var queue: seq<seq<LogItem>>
    ghost var got: seq<seq<LogItem>>
    ghost var took: seq<nat>
    ghost var missed: nat
    ghost var joined: nat
    ghost var left: nat

    constructor (id: nat)
      ensures this.id == id && Value() == Channel(true, [], [], [], 0, 0, 0)
    {
      this.id := id;
      open, queue := true, [];
      got, took, missed, joined, left := [], [], 0, 0, 0;
    }

    ghost function Value(): Channel
      reads this
    {
      Channel(open, queue, got, took, missed, joined, left)
    }

    /** A non-blocking send; on a closed channel it would panic. */
    method TrySend(items: seq<LogItem>, ghost number: nat)
      requires open
      modifies this`queue, this`got, this`took, this`missed
      ensures Value() == Send(old(Value()), items, number)
      ensures queue == if |old(queue)| < CHANNEL_SIZE then old(queue) + [items] else old(queue)
    {
      if |queue| < CHANNEL_SIZE {
        queue, got, took := queue + [items], got + [items], took + [number];
      } else {
        missed := missed + 1;
      }
    }
  }

  ghost function Ids(subs: seq<LogChannel?>): seq<nat>
    requires forall i :: 0 <= i < |subs| ==> subs[i] != null
  {
    seq(|subs|, i requires 0 <= i < |subs| => subs[i].id)
  }

  ghost predicate AllDifferent(subs: seq<LogChannel?>) {
    forall j, k :: 0 <= j < k < |subs| ==> subs[j] != subs[k]
  }

  ghost function Removed(was: seq<LogChannel?>, at: nat): seq<LogChannel?>
    requires at < |was|
  {
    was[..at] + was[at + 1..]
  }

  lemma IdsAfterRemoval(was: seq<LogChannel?>, at: int, toRemove: LogChannel)
    requires forall i :: 0 <= i < |was| ==> was[i] != null && (was[i] == toRemove <==> was[i].id == toRemove.id)
    requires if at < 0 then toRemove !in was else at < |was| && was[at] == toRemove
    requires Distinct(Ids(was))
    ensures var now := if at < 0 then was else Removed(was, at);
            (forall i :: 0 <= i < |now| ==> now[i] != null) && Ids(now) == Without(Ids(was), toRemove.id)
  {
    if at < 0 {
      WithoutAbsent(Ids(was), toRemove.id);
    } else {
      WithoutClosesGap(Ids(was), toRemove.id, at);
      assert Ids(Removed(was, at)) == Ids(was)[..at] + Ids(was)[at + 1..];
    }
  }

  /** The old slice after its element at `at` has been closed over: the last one is there twice. */
  ghost function Shifted(was: seq<LogChannel?>, at: nat): seq<LogChannel?>
    requires at < |was|
  {
    Removed(was, at) + [was[|was| - 1]]
  }

  /** Going on after the removal, the loop does not meet the removed channel again. */
  lemma ShiftedDiffers(was: seq<LogChannel?>, at: nat, i: nat)
    requires AllDifferent(was) && at < i < |was|
    ensures Shifted(was, at)[i] != was[at]
  {
    assert Shifted(was, at)[i] == if i < |was| - 1 then was[i + 1] else was[|was| - 1];
  }

  ghost function Values(heap: seq<LogChannel>): seq<Channel>
    reads heap
  {
    seq(|heap|, i requires 0 <= i < |heap| reads heap => heap[i].Value())
  }

  class Broadcaster {
    var logCache: seq<LogItem>
    var logSubs: array<LogChannel?>
    var subCount: nat
    var waiting: bool
    var lastBroadcast: int
    var logBuffer: seq<LogItem>
    var senders: multiset<LogItem>
    var timers: multiset<int>
    var watchers: set<nat>
    var joining: set<nat>
    var heap: seq<LogChannel>
    ghost var now: int
    ghost var early: set<nat>
    ghost var added: seq<LogItem>
    ghost var log: seq<LogItem>
    ghost var sent: seq<Broadcast>

    ghost predicate Shape()
      reads this`logSubs, this`subCount, this`heap, logSubs
    {
      && subCount <= logSubs.Length
      && (forall i :: 0 <= i < |heap| ==> heap[i].id == i)
      && (forall i :: 0 <= i < subCount ==> logSubs[i] != null && logSubs[i] in heap)
    }

    ghost function SubIds(): seq<nat>
      requires Shape()
      reads this`logSubs, this`subCount, this`heap, logSubs
    {
      Ids(logSubs[..subCount])
    }

    ghost function Channels(): seq<Channel>
      reads this`heap, heap
    {
      Values(heap)
    }

    ghost function State(): P.State
      requires Shape()
      reads this, logSubs, heap
    {
      P.State(logCache, SubIds(), waiting, lastBroadcast, logBuffer, Channels(), senders, timers, watchers, joining,
              now, early, added, log, sent)
    }

    ghost predicate Valid()
      reads this, logSubs, heap
    {
      Shape() && Inv(State())
    }

    constructor (start: int)
      ensures Valid() && State() == Initial(start) && fresh(logSubs)
    {
      logCache, logBuffer, waiting, lastBroadcast := [], [], false, start;
      logSubs, subCount, heap := new LogChannel?[0], 0, [];
      senders, timers, watchers, joining := multiset{}, multiset{}, {}, {};
      now, early, added, log, sent := start, {}, [], [], [];
      new;
      InitialInv(start);
      assert State() == Initial(start);
    }

    /** addLogItem; `t` is what the clock says. */
    method AddLogItem(item: LogItem, t: int)
      requires Valid() && now <= t
      modifies this`logCache, this`senders, this`added, this`now
      ensures Valid() && State() == AddItem(old(State()), item, t)
    {
      AddKeeps(State(), item, t);
      CacheItem(item, t);
    }

    method CacheItem(item: LogItem, t: int)
      requires Shape()
      modifies this`logCache, this`senders, this`added, this`now
      ensures Shape() && State() == AddItem(old(State()), item, t)
    {
      var stamped := item.(time := t);
      PutFirst(stamped);
      StartSender(stamped, t);
    }

    /** The newest item in front, and at most CACHE_SIZE of them. */
    method PutFirst(stamped: LogItem)
      requires Shape()
      modifies this`logCache
      ensures Shape() && var longer := [stamped] + old(logCache);
              State() == old(State()).(cache := if |longer| > CACHE_SIZE then longer[..|longer| - 1] else longer)
    {
      logCache := [stamped] + logCache;
      if |logCache| > CACHE_SIZE {
        logCache := logCache[..|logCache| - 1];
      }
    }

    method StartSender(stamped: LogItem, t: int)
      requires Shape()
      modifies this`senders, this`added, this`now
      ensures Shape() && State() == old(State()).(senders := old(senders) + multiset{stamped}, added := old(added) + [stamped], now := t)
    {
      senders := senders + multiset{stamped};
      added, now := added + [stamped], t;
    }

    /** The loop of doBroadcastLogItems: one non-blocking send to each subscriber, none of them on a closed channel. */
    method SendToAll()
      requires Shape() && Distinct(SubIds())
      requires forall i :: 0 <= i < subCount ==> logSubs[i].open
      modifies heap
      ensures Channels() == SendAll(old(Channels()), SubIds(), logBuffer, |sent|)
      ensures forall i :: 0 <= i < subCount ==>
                logSubs[i].queue == old(if |logSubs[i].queue| < CHANNEL_SIZE then logSubs[i].queue + [logBuffer] else logSubs[i].queue)
    {
      ghost var subs := SubIds();
      ghost var chans := Channels();
      assert SendAll(chans, subs[..0], logBuffer, |sent|) == chans;
      for i := 0 to subCount
        invariant Channels() == SendAll(chans, subs[..i], logBuffer, |sent|)
        invariant forall j :: i <= j < subCount ==> logSubs[j].open
      {
        assert subs[i] !in subs[..i];
        SendAllStep(chans, subs, i, logBuffer, |sent|);
        SendOne(i);
      }
      assert subs[..subCount] == subs;
      forall i | 0 <= i < subCount
        ensures logSubs[i].queue == old(if |logSubs[i].queue| < CHANNEL_SIZE then logSubs[i].queue + [logBuffer] else logSubs[i].queue)
      {
        assert subs[i] == logSubs[i].id && Channels()[subs[i]] == logSubs[i].Value();
        assert chans[subs[i]] == old(logSubs[i].Value());
      }
    }

    method SendOne(i: nat)
      requires Shape() && Distinct(SubIds()) && i < subCount && logSubs[i].open
      modifies heap
      ensures Channels() == old(Channels())[logSubs[i].id := Send(old(Channels())[logSubs[i].id], logBuffer, |sent|)]
      ensures forall j :: 0 <= j < subCount ==> logSubs[j].open == old(logSubs[j].open)
    {
      ghost var reached := Channels();
      var c := logSubs[i];
      assert reached[c.id] == c.Value();
      c.TrySend(logBuffer, |sent|);
      assert Channels() == reached[c.id := c.Value()];
    }

    method DoBroadcastLogItems(t: int)
      requires Shape() && Distinct(SubIds())
      requires forall i :: 0 <= i < subCount ==> logSubs[i].open
      modifies this`logBuffer, this`waiting, this`lastBroadcast, this`now, this`sent, heap
      ensures Shape() && State() == DoBroadcast(old(State()), t)
    {
      ghost var after := DoBroadcast(State(), t);
      SendToAll();
      sent := sent + [Broadcast(t, logBuffer)];
      logBuffer, waiting, lastBroadcast, now := [], false, t, t;
      assert SubIds() == after.subs && Channels() == after.chans;
      assert State() == after;
    }

    /** Every subscriber's channel is open: what keeps a broadcast from panicking. */
    ghost predicate AllOpen()
      requires Shape()
      reads this, logSubs, heap
    {
      forall i :: 0 <= i < subCount ==> logSubs[i].open
    }

    method BufferItem(item: LogItem, u: int)
      requires Shape()
      modifies this`senders, this`logBuffer, this`log, this`now
      ensures Shape() && State() == Buffered(old(State()), item, u)
    {
      ghost var after := Buffered(State(), item, u);
      senders := senders - multiset{item};
      logBuffer, log, now := logBuffer + [item], log + [item], u;
      assert SubIds() == after.subs && Channels() == after.chans;
    }

    method ArmTimer(due: int)
      requires Shape()
      modifies this`waiting, this`timers
      ensures Shape() && State() == old(State()).(waiting := true, timers := old(timers) + multiset{due})
    {
      ghost var before := State();
      waiting := true;
      timers := timers + multiset{due};
      assert SubIds() == before.subs && Channels() == before.chans;
    }

    /** broadcastLogItem; the clock says `t` when the time since the last broadcast is taken, and `u` afterwards. */
    method BroadcastLogItem(item: LogItem, t: int, u: int)
      requires Valid() && item in senders && now <= t <= u && AllOpen()
      modifies this, heap
      ensures Valid() && State() == BroadcastItem(old(State()), item, t, u)
    {
      BroadcastItemKeeps(State(), item, t, u);
      ThrottleItem(item, t, u);
    }

    /** Its body: send now, or arm the timer, or leave the item to the timer that is pending. */
    method ThrottleItem(item: LogItem, t: int, u: int)
      requires Shape() && Distinct(SubIds()) && AllOpen()
      modifies this`senders, this`logBuffer, this`log, this`now, this`waiting, this`timers, this`lastBroadcast, this`sent, heap
      ensures Shape() && State() == BroadcastItem(old(State()), item, t, u)
    {
      BufferItem(item, u);
      if !waiting {
        var timeSinceBroadcast := t - lastBroadcast;
        if timeSinceBroadcast < SECOND {
          ArmTimer(u + SECOND - timeSinceBroadcast);
        } else {
          DoBroadcastLogItems(u);
        }
      }
    }

    /** The function given to AfterFunc. */
    method TimerFired(due: int, t: int)
      requires Valid() && due in timers && now <= t && due <= t && AllOpen()
      modifies this, heap
      ensures Valid() && State() == TimerFires(old(State()), due, t)
    {
      P.TimerKeeps(State(), due, t);
      DisarmTimer(due);
      DoBroadcastLogItems(t);
    }

    method DisarmTimer(due: int)
      requires Shape()
      modifies this`timers
      ensures Shape() && State() == old(State()).(timers := old(timers) - multiset{due})
    {
      ghost var before := State();
      timers := timers - multiset{due};
      assert SubIds() == before.subs && Channels() == before.chans;
    }

    /** SubscribeToLog, up to the goroutine that waits for stop. */
    method MakeSubscription() returns (ret: LogChannel)
      requires Valid()
      modifies this`heap, this`watchers, this`joining
      ensures fresh(ret) && ret in heap && ret.id in joining
      ensures Valid() && State() == MakeChannel(old(State()))
    {
      ghost var after := MakeChannel(State());
      MakeKeeps(State());
      ret := new LogChannel(|heap|);
      heap, watchers, joining := heap + [ret], watchers + {ret.id}, joining + {ret.id};
      assert Channels() == after.chans && SubIds() == after.subs;
      assert State() == after;
    }

    /** A full slice moves to a larger array. */
    method MakeRoom()
      requires Shape()
      modifies this`logSubs
      ensures Shape() && subCount < logSubs.Length && State() == old(State())
      ensures logSubs == old(logSubs) || fresh(logSubs)
    {
      if subCount == logSubs.Length {
        var larger := new LogChannel?[2 * logSubs.Length + 1](_ => null);
        for i := 0 to subCount
          modifies larger
          invariant larger[..i] == logSubs[..i]
        {
          larger[i] := logSubs[i];
        }
        assert larger[..subCount] == logSubs[..subCount];
        logSubs := larger;
      }
    }

    /** The rest of SubscribeToLog: append to the slice. */
    method AppendSubscription(ret: LogChannel)
      requires Valid() && ret in heap && ret.id in joining
      modifies this`logSubs, this`subCount, this`joining, logSubs, ret`joined
      ensures Valid() && State() == Join(old(State()), ret.id)
      ensures logSubs == old(logSubs) || fresh(logSubs)
    {
      JoinKeeps(State(), ret.id);
      JoinSubscribers(ret);
    }

    method JoinSubscribers(ret: LogChannel)
      requires Shape() && ret in heap
      modifies this`logSubs, this`subCount, this`joining, logSubs, ret`joined
      ensures Shape() && State() == Join(old(State()), ret.id)
      ensures logSubs == old(logSubs) || fresh(logSubs)
    {
      ret.joined := |sent|;
      joining := joining - {ret.id};
      assert Channels() == old(Channels())[ret.id := ret.Value()];
      assert SubIds() == old(SubIds());
      MakeRoom();
      Push(ret);
    }

    method Push(ret: LogChannel)
      requires Shape() && ret in heap && subCount < logSubs.Length
      modifies this`subCount, logSubs
      ensures Shape() && State() == old(State()).(subs := old(SubIds()) + [ret.id])
    {
      ghost var was := logSubs[..subCount];
      logSubs[subCount] := ret;
      subCount := subCount + 1;
      assert logSubs[..subCount] == was + [ret];
    }

    /**
     The loop of unsubscribeFromLog. The range keeps the slice it started with while the body shifts the tail of the same
     array one place down, so after the removal it revisits shifted elements and, at the end, a stale one.
     */
    method RemoveInPlace(toRemove: LogChannel)
      requires Shape() && Distinct(SubIds()) && toRemove in heap
      modifies this`subCount, logSubs
      ensures Shape() && SubIds() == Without(old(SubIds()), toRemove.id)
    {
      ghost var was := logSubs[..subCount];
      ghost var ids := SubIds();
      assert AllDifferent(was) by {
        forall j, k | 0 <= j < k < subCount ensures was[j] != was[k] { assert ids[j] != ids[k]; }
      }
      ghost var at := RangeAndRemove(toRemove);
      assert forall i :: 0 <= i < |was| ==> (was[i] == toRemove <==> ids[i] == toRemove.id);
      IdsAfterRemoval(was, at, toRemove);
      assert forall i :: 0 <= i < subCount ==> logSubs[i] == logSubs[..subCount][i];
    }

    method RangeAndRemove(toRemove: LogChannel) returns (ghost at: int)
      requires subCount <= logSubs.Length && AllDifferent(logSubs[..subCount])
      modifies this`subCount, logSubs
      ensures subCount <= logSubs.Length
      ensures if at < 0 then toRemove !in old(logSubs[..subCount]) else at < old(subCount) && old(logSubs[..subCount])[at] == toRemove
      ensures logSubs[..subCount] == if at < 0 then old(logSubs[..subCount]) else Removed(old(logSubs[..subCount]), at)
    {
      ghost var was := logSubs[..subCount];
      at := -1;
      var n := subCount;
      for i := 0 to n
        modifies this`subCount, logSubs
        invariant n <= logSubs.Length && subCount == (if at >= 0 then n - 1 else n)
        invariant at >= 0 ==> at < i && was[at] == toRemove && logSubs[..n] == Shifted(was, at)
        invariant at < 0 ==> logSubs[..n] == was && toRemove !in was[..i]
      {
        var c := logSubs[i];
        assert c == logSubs[..n][i];
        if at >= 0 {
          ShiftedDiffers(was, at, i);
        }
        if c == toRemove {
          RemoveAt(i);
          at := i;
        }
      }
      if at >= 0 {
        assert logSubs[..subCount] == Shifted(was, at)[..n - 1] == Removed(was, at);
      }
    }

    method RemoveAt(i: nat)
      requires i < subCount <= logSubs.Length
      modifies this`subCount, logSubs
      ensures subCount == old(subCount) - 1
      ensures logSubs[..old(subCount)] == Shifted(old(logSubs[..subCount]), i)
    {
      ShiftDown(i);
      subCount := subCount - 1;
      assert logSubs[..subCount + 1] == logSubs[..subCount] + [logSubs[subCount]];
    }

    /** The copying that append(logSubs[:i], logSubs[i+1:]...) does inside the one array. */
    method ShiftDown(i: nat)
      requires i < subCount <= logSubs.Length
      modifies logSubs
      ensures logSubs[..subCount - 1] == old(logSubs[..i] + logSubs[i + 1..subCount])
      ensures forall j :: subCount - 1 <= j < logSubs.Length ==> logSubs[j] == old(logSubs[j])
    {
      for j := i to subCount - 1
        invariant forall k :: 0 <= k < i ==> logSubs[k] == old(logSubs[k])
        invariant forall k :: i <= k < j ==> logSubs[k] == old(logSubs[k + 1])
        invariant forall k :: j <= k < logSubs.Length ==> logSubs[k] == old(logSubs[k])
      {
        logSubs[j] := logSubs[j + 1];
      }
    }

    /** unsubscribeFromLog, run by the goroutine whose stop fired; the channel it closes is still open. */
    method UnsubscribeFromLog(toRemove: LogChannel)
      requires Valid() && toRemove in heap && toRemove.id in watchers
      modifies this`subCount, this`watchers, this`early, logSubs, toRemove`open, toRemove`left
      ensures Valid() && old(toRemove.open) && State() == Stop(old(State()), toRemove.id)
    {
      StopKeeps(State(), toRemove.id);
      assert Channels()[toRemove.id] == toRemove.Value();
      RemoveAndClose(toRemove);
    }

    method RemoveAndClose(toRemove: LogChannel)
      requires Shape() && Distinct(SubIds()) && toRemove in heap
      modifies this`subCount, this`watchers, this`early, logSubs, toRemove`open, toRemove`left
      ensures Shape() && State() == Stop(old(State()), toRemove.id)
    {
      RemoveSubscriber(toRemove);
      CloseChannel(toRemove);
    }

    method RemoveSubscriber(toRemove: LogChannel)
      requires Shape() && Distinct(SubIds()) && toRemove in heap
      modifies this`subCount, logSubs
      ensures Shape() && State() == old(State()).(subs := Without(old(SubIds()), toRemove.id))
    {
      ghost var chans := Channels();
      RemoveInPlace(toRemove);
      assert Channels() == chans;
    }

    method CloseChannel(toRemove: LogChannel)
      requires Shape() && toRemove in heap
      modifies this`watchers, this`early, toRemove`open, toRemove`left
      ensures Shape() && State().(subs := []) == Stop(old(State()), toRemove.id).(subs := []) && SubIds() == old(SubIds())
    {
      ghost var chans := Channels();
      toRemove.open, toRemove.left := false, |sent|;
      assert Channels() == chans[toRemove.id := toRemove.Value()];
      EndWatcher(toRemove.id);
    }

    method EndWatcher(c: nat)
      requires Shape()
      modifies this`watchers, this`early
      ensures Shape() && State() == old(State()).(watchers := old(watchers) - {c}, early := if c in joining then old(early) + {c} else old(early))
    {
      watchers := watchers - {c};
      if c in joining {
        early := early + {c};
      }
    }
  }
}
