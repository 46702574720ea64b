/** The hub as code that updates its fields, with handlers that receive from their channels at any
    time, also while a publication drains one of them. Every method is proved to move the fields
    along a run of `Hub`: `trace` is that run, so its results are results about these fields. */
module HubStore {
  import opened Basics
  import H = Hub

  class LiveHub {
    var nextId: nat
    var replay: seq<H.Event>
    const limit: nat
    var subscribers: map<nat, H.Subscriber>
    var nextSub: nat
    var dropped: nat
    ghost const capacity: int
    ghost var trace: seq<H.Action>

    ghost function Value(): H.Hub
      reads this
    {
      H.Hub(nextId, replay, limit, subscribers, nextSub, dropped)
    }

    /** Where the run has got to. */
    ghost function State(): H.World
      reads this
    {
      H.Run(H.Begin(capacity), trace)
    }

    /** The fields are those of the run, which may be in the middle of a publication. */
    ghost predicate Traced()
      reads this
    {
      State().hub == Value()
    }

    /** The lock is free. */
    ghost predicate Valid()
      reads this
    {
      Traced() && State().work.Idle?
    }

    constructor (capacity: int)
      ensures Valid() && trace == [] && this.capacity == capacity
    {
      this.capacity := capacity;
      nextId, replay, subscribers, nextSub, dropped, trace := 0, [], map[], 0, 0, [];
      limit := if capacity <= 0 then H.DEFAULT_REPLAY else capacity;
    }

    // -------------------------------------------------------------------------
    // Handlers
    // -------------------------------------------------------------------------

    /** One receive from a channel, by the followed client's handler or another one. */
    method ReceiveFrom(k: nat)
      requires Traced() && k in subscribers && subscribers[k].queue != []
      modifies this`subscribers, this`trace
      ensures Traced() && HandlersMoved(old(State()), State())
      ensures old(trace) <= trace && |subscribers[k].queue| < |old(subscribers)[k].queue|
    {
      ghost var a := if State().client.session == Some(k) then H.Reads else H.OtherReceives(k);
      H.RunOneMore(H.Begin(capacity), trace, a);
      subscribers := subscribers[k := subscribers[k].(queue := subscribers[k].queue[1..])];
      trace := trace + [a];
    }

    /** The followed client goes away; its handler stops receiving. */
    ghost method Disconnect()
      requires Traced()
      modifies this`trace
      ensures Traced() && HandlersMoved(old(State()), State()) && old(trace) <= trace
    {
      H.RunOneMore(H.Begin(capacity), trace, H.Disconnects);
      trace := trace + [H.Disconnects];
    }

    /** Any handlers receive any number of events, and the followed client may go away. */
    method Interfere()
      requires Traced()
      modifies this`subscribers, this`trace
      ensures Traced() && HandlersMoved(old(State()), State()) && old(trace) <= trace
    {
      var todo := subscribers.Keys;
      while todo != {}
        invariant todo <= subscribers.Keys
        invariant Traced() && HandlersMoved(old(State()), State()) && old(trace) <= trace
        decreases todo
      {
        var k :| k in todo;
        var receives: nat := *;
        while receives > 0 && subscribers[k].queue != []
          invariant todo <= subscribers.Keys && k in todo
          invariant Traced() && HandlersMoved(old(State()), State()) && old(trace) <= trace
          decreases receives
        {
          ReceiveFrom(k);
          receives := receives - 1;
        }
        todo := todo - {k};
      }
      if * {
        Disconnect();
      }
    }

    // -------------------------------------------------------------------------
    // Publishing
    // -------------------------------------------------------------------------

    /** `forceResyncLocked`: the drain loop, with handlers receiving between its rounds, and the
        notice. The channel it ends with is empty, so the send finds room and cannot block. */
    method ForceResync(k: nat, e: H.Event)
      requires Traced() && H.IsDrained(State().work, k) && State().work.event == e && k in subscribers
      modifies this`subscribers, this`dropped, this`trace
      ensures Traced() && old(trace) <= trace && subscribers.Keys == old(subscribers).Keys
      ensures State().work == H.Offering(e, old(State()).work.todo) && State().published == old(State()).published
      ensures subscribers[k].queue == [H.Resync(e.id)] && subscribers[k].resync && dropped == old(dropped) + 1
    {
      ghost var todo := State().work.todo;
      Interfere();
      while subscribers[k].queue != []
        invariant Traced() && old(trace) <= trace && subscribers.Keys == old(subscribers).Keys
        invariant State().work == H.Draining(e, todo, k) && State().published == old(State()).published
        invariant dropped == old(dropped)
        decreases |subscribers[k].queue|
      {
        H.RunOneMore(H.Begin(capacity), trace, H.Drains);
        subscribers := subscribers[k := subscribers[k].(queue := subscribers[k].queue[1..])];
        trace := trace + [H.Drains];
        Interfere();
      }
      H.ReplayIsContiguous(capacity, trace);
      assert |subscribers[k].queue| < subscribers[k].capacity;
      H.RunOneMore(H.Begin(capacity), trace, H.Drains);
      var target := subscribers[k].(resync := true);
      dropped := dropped + 1;
      target := target.(queue := target.queue + [H.Resync(e.id)]);
      assert target.queue == [H.Resync(e.id)];
      subscribers := subscribers[k := target];
      trace := trace + [H.Drains];
    }

    /** One round of the loop of `Publish`: skip, send without blocking, or force a resync. */
    method Send(k: nat, e: H.Event)
      requires Traced() && H.CanOffer(State(), k) && State().work.event == e
      modifies this`subscribers, this`dropped, this`trace
      ensures Traced() && old(trace) <= trace && subscribers.Keys == old(subscribers).Keys
      ensures State().work == H.Offering(e, old(State()).work.todo - {k}) && State().published == old(State()).published
      ensures dropped == old(dropped) + if H.Overflows(old(subscribers)[k]) then 1 else 0
      ensures subscribers[k].resync <==> old(subscribers)[k].resync || H.Overflows(old(subscribers)[k])
    {
      H.RunOneMore(H.Begin(capacity), trace, H.OffersTo(k));
      trace := trace + [H.OffersTo(k)];
      var target := subscribers[k];
      if target.resync {
        assert subscribers == subscribers[k := target];
        return;
      }
      if |target.queue| < target.capacity {
        subscribers := subscribers[k := target.(queue := target.queue + [e])];
      } else {
        ForceResync(k, e);
      }
    }

    /** The loop of `Publish`: every subscriber gets its turn, in any order. */
    method Broadcast(e: H.Event)
      requires Traced() && State().work == H.Offering(e, subscribers.Keys)
      modifies this`subscribers, this`dropped, this`trace
      ensures Traced() && old(trace) <= trace
      ensures State().work == H.Offering(e, {}) && State().published == old(State()).published
    {
      var todo := subscribers.Keys;
      while todo != {}
        invariant todo <= subscribers.Keys
        invariant Traced() && old(trace) <= trace
        invariant State().work == H.Offering(e, todo) && State().published == old(State()).published
        decreases todo
      {
        Interfere();
        var k :| k in todo;
        Send(k, e);
        todo := todo - {k};
      }
    }

    /** `Publish`: number the event, remember it, and offer it to every subscriber. Afterwards replay
        is the contiguous last events and `dropped` counts the subscribers forced to resync. */
    method Publish(payload: nat) returns (e: H.Event)
      requires Valid()
      modifies this`nextId, this`replay, this`subscribers, this`dropped, this`trace
      ensures Valid() && old(trace) <= trace && H.Contiguous(State())
      ensures State().published == old(State()).published + [payload]
      ensures e == H.Change(old(nextId) + 1, payload) && nextId == e.id
    {
      H.RunOneMore(H.Begin(capacity), trace, H.PublishNext(payload));
      nextId := nextId + 1;
      e := H.Change(nextId, payload);
      replay := replay + [e];
      if |replay| > limit {
        replay := replay[|replay| - limit..];
      }
      trace := trace + [H.PublishNext(payload)];
      Broadcast(e);
      H.RunOneMore(H.Begin(capacity), trace, H.Unlocks);
      trace := trace + [H.Unlocks];
      H.ReplayIsContiguous(capacity, trace);
    }

    // -------------------------------------------------------------------------
    // Subscribing: nobody receives from the new channel before the method returns
    // -------------------------------------------------------------------------

    /** `forceResyncLocked` on a channel nobody receives from. */
    method ForceUnread(k: nat, cause: nat)
      requires k in subscribers && subscribers[k].capacity >= 1
      modifies this`subscribers, this`dropped
      ensures subscribers == old(subscribers)[k := H.ForceResync(old(subscribers)[k], cause)]
      ensures dropped == old(dropped) + 1
    {
      var target := subscribers[k];
      while target.queue != []
        invariant target == old(subscribers)[k].(queue := target.queue)
        decreases |target.queue|
      {
        target := target.(queue := target.queue[1..]);
      }
      target := target.(resync := true);
      dropped := dropped + 1;
      assert target.queue + [H.Resync(cause)] == [H.Resync(cause)];
      target := target.(queue := target.queue + [H.Resync(cause)]);
      subscribers := subscribers[k := target];
    }

    /** The loop of `Subscribe`: replay the events after the given id until one does not fit. */
    method ReplayInto(k: nat, after: nat)
      requires k in subscribers && subscribers[k].capacity >= 1 && !subscribers[k].resync
      modifies this`subscribers, this`dropped
      ensures subscribers == old(subscribers)[k := H.Fill(old(subscribers)[k], replay, after)]
      ensures dropped == old(dropped) + if subscribers[k].resync then 1 else 0
    {
      ghost var before := subscribers;
      assert before == before[k := before[k]];
      for n := 0 to |replay|
        invariant subscribers == before[k := H.Fill(before[k], replay[..n], after)]
        invariant subscribers[k].capacity == before[k].capacity && !subscribers[k].resync
        invariant dropped == old(dropped)
      {
        assert replay[..n + 1][..n] == replay[..n];
        if replay[n].id > after {
          var target := subscribers[k];
          if |target.queue| < target.capacity {
            subscribers := subscribers[k := target.(queue := target.queue + [replay[n]])];
          } else {
            ForceUnread(k, replay[n].id);
          }
        }
        if subscribers[k].resync {
          FillStops(before[k], replay, n + 1, after);
          return;
        }
      }
      assert replay[..|replay|] == replay;
    }

    /** The body of `Subscribe`: replay after the given id, or one resync when that is not possible. */
    method Enter(after: Option<nat>, size: int) returns (k: nat)
      modifies this`nextSub, this`subscribers, this`dropped
      ensures Value() == H.Subscribe(old(Value()), after, size) && k == nextSub
    {
      nextSub := nextSub + 1;
      k := nextSub;
      subscribers := subscribers[k := H.Subscriber([], H.NormalCapacity(size), false)];
      if after.Some? {
        if after.value > nextId || (replay != [] && after.value + 1 < replay[0].id) {
          ForceUnread(k, nextId);
        } else {
          ReplayInto(k, after.value);
        }
      }
    }

    /** `Subscribe`: a channel of its own, with everything published after the given id in it or one
        notice. `followed` says that the followed client subscribes, with the id it received last. */
    method Subscribe(after: Option<nat>, size: int, ghost followed: bool) returns (k: nat)
      requires Valid()
      requires followed ==> State().client.session.None? && after == State().client.lastEventId
      modifies this`nextSub, this`subscribers, this`dropped, this`trace
      ensures Valid() && k == nextSub && k !in old(subscribers) && k in subscribers
      ensures trace == old(trace) + [if followed then H.Connects(size) else H.OtherSubscribes(after, size)]
      ensures followed ==> State().client.session == Some(k)
      ensures H.ChannelOk(subscribers[k])
      ensures H.Welcome(subscribers[k], State().published, nextId, limit, after, size)
    {
      ghost var a := if followed then H.Connects(size) else H.OtherSubscribes(after, size);
      SubscriptionStep(capacity, trace, a, after, size);
      k := Enter(after, size);
      trace := trace + [a];
    }

    /** `unsubscribe`, by a handler that has returned. */
    method Unsubscribe(k: nat)
      requires Valid() && State().client.session != Some(k)
      modifies this`subscribers, this`trace
      ensures Valid() && subscribers == old(subscribers) - {k} && trace == old(trace) + [H.OtherLeaves(k)]
    {
      H.RunOneMore(H.Begin(capacity), trace, H.OtherLeaves(k));
      if k in subscribers {
        subscribers := subscribers - {k};
      }
      trace := trace + [H.OtherLeaves(k)];
    }
  }

  /** Only handlers moved: channels got shorter, and the client may have received or gone away. */
  ghost predicate HandlersMoved(before: H.World, after: H.World) {
    && after.work == before.work && after.published == before.published && after.forced == before.forced
    && after.hub == before.hub.(subscribers := after.hub.subscribers)
    && after.hub.subscribers.Keys == before.hub.subscribers.Keys
    && (forall k :: k in before.hub.subscribers ==>
          && |after.hub.subscribers[k].queue| <= |before.hub.subscribers[k].queue|
          && after.hub.subscribers[k] == before.hub.subscribers[k].(queue := after.hub.subscribers[k].queue))
  }

  /** What a new subscription finds: a number of its own, and everything published after its
      position, or one notice. */
  ghost predicate Entered(w: H.World, next: H.World, after: Option<nat>, size: int) {
    var k := w.hub.nextSub + 1;
    && next.hub == H.Subscribe(w.hub, after, size) && next.work.Idle? && next.published == w.published
    && k !in w.hub.subscribers && k in next.hub.subscribers
    && var s := next.hub.subscribers[k];
       H.ChannelOk(s) && H.Welcome(s, w.published, w.hub.nextId, w.hub.limit, after, size)
  }

  lemma {:induction false} StepEnters(w: H.World, a: H.Action, after: Option<nat>, size: int)
    requires H.HubOk(w) && w.work.Idle?
    requires a == H.OtherSubscribes(after, size) ||
               (a == H.Connects(size) && w.client.session.None? && after == w.client.lastEventId)
    ensures Entered(w, H.Step(w, a), after, size)
    ensures a.Connects? ==> H.Step(w, a).client.session == Some(w.hub.nextSub + 1)
  {
    H.NewSubscriberOk(w.hub, w.published, after, size);
    H.ResyncIff(w.hub, w.published, after, size);
  }

  lemma {:induction false} SubscriptionStep(
      capacity: int, trace: seq<H.Action>, a: H.Action, after: Option<nat>, size: int)
    requires var w := H.Run(H.Begin(capacity), trace);
             && w.work.Idle?
             && (a == H.OtherSubscribes(after, size) ||
                 (a == H.Connects(size) && w.client.session.None? && after == w.client.lastEventId))
    ensures Entered(H.Run(H.Begin(capacity), trace), H.Run(H.Begin(capacity), trace + [a]), after, size)
    ensures a.Connects? ==>
              H.Run(H.Begin(capacity), trace + [a]).client.session ==
                Some(H.Run(H.Begin(capacity), trace).hub.nextSub + 1)
  {
    H.RunOneMore(H.Begin(capacity), trace, a);
    H.RunKeeps(capacity, trace);
    StepEnters(H.Run(H.Begin(capacity), trace), a, after, size);
  }

  /** Once a replay has forced a resync, the rest of it changes nothing. */
  lemma {:induction false} FillStops(s: H.Subscriber, replay: seq<H.Event>, n: nat, after: nat)
    requires n <= |replay| && H.Fill(s, replay[..n], after).resync
    ensures H.Fill(s, replay, after) == H.Fill(s, replay[..n], after)
  {
    if n < |replay| {
      var rest := replay[..|replay| - 1];
      assert rest[..n] == replay[..n];
      FillStops(s, rest, n, after);
    } else {
      assert replay[..n] == replay;
    }
  }
}
