/** A run in which the live event hub loses an event: a handler receives between two rounds of the
    drain of its channel, and its session ends before the notice is read. */
module HubLoss {
  import opened Basics
  import opened Hub

  /** A client with a channel for two events. */
  const JOINED := World(
    Hub(0, [], 8, map[1 := Subscriber([], 2, false)], 1, 0), Idle, [], {}, Client(Some(1), None, 0, 0, []))

  /** Its channel is full, and nothing has been received. */
  const FULL := World(
    Hub(2, [Change(1, 11), Change(2, 12)], 8, map[1 := Subscriber([Change(1, 11), Change(2, 12)], 2, false)], 1, 0),
    Idle, [11, 12], {}, Client(Some(1), None, 0, 0, []))

  /** The third event overflowed it, one event was discarded, and the handler received the other. */
  const TORN := World(
    Hub(3, [Change(1, 11), Change(2, 12), Change(3, 13)], 8, map[1 := Subscriber([], 2, false)], 1, 0),
    Draining(Change(3, 13), {}, 1), [11, 12, 13], {}, Client(Some(1), Some(2), 0, 2, [Change(2, 12)]))

  lemma {:induction false} Offered(w: World, payload: nat)
    requires w.work.Idle? && w.hub.subscribers.Keys == {1} && !w.hub.subscribers[1].resync
    requires |w.hub.subscribers[1].queue| < w.hub.subscribers[1].capacity
    ensures Run(w, [PublishNext(payload), OffersTo(1), Unlocks]) ==
            Publish(w, payload).(
              work := Idle,
              hub := SetSubscriber(Publish(w, payload).hub, 1,
                                   Offer(w.hub.subscribers[1], Change(w.hub.nextId + 1, payload))))
  {
    var published := Publish(w, payload);
    var offered := OfferTo(published, 1);
    assert offered.work.todo == {};
    RunOneMore(w, [], PublishNext(payload));
    RunOneMore(w, [PublishNext(payload)], OffersTo(1));
    RunOneMore(w, [PublishNext(payload), OffersTo(1)], Unlocks);
    assert [PublishNext(payload)] + [OffersTo(1)] == [PublishNext(payload), OffersTo(1)];
    assert [PublishNext(payload), OffersTo(1)] + [Unlocks] == [PublishNext(payload), OffersTo(1), Unlocks];
  }

  lemma {:induction false} RunsCompose(w: World, first: seq<Action>, second: seq<Action>)
    ensures Run(w, first + second) == Run(Run(w, first), second)
  {
    if second == [] {
      assert first + second == first;
    } else {
      var rest := second[..|second| - 1];
      RunsCompose(w, first, rest);
      assert (first + second)[..|first + second| - 1] == first + rest;
    }
  }

  lemma {:induction false} ClientJoins()
    ensures Run(Begin(8), [Connects(2)]) == JOINED
  {
    RunOneMore(Begin(8), [], Connects(2));
    assert [] + [Connects(2)] == [Connects(2)];
    assert map[][1 := Subscriber([], 2, false)] == map[1 := Subscriber([], 2, false)];
  }

  const ONE := World(
    Hub(1, [Change(1, 11)], 8, map[1 := Subscriber([Change(1, 11)], 2, false)], 1, 0),
    Idle, [11], {}, Client(Some(1), None, 0, 0, []))

  lemma {:induction false} ClientFills()
    ensures Run(JOINED, [PublishNext(11), OffersTo(1), Unlocks]) == ONE
    ensures Run(ONE, [PublishNext(12), OffersTo(1), Unlocks]) == FULL
  {
    Offered(JOINED, 11);
    Offered(ONE, 12);
    assert JOINED.hub.subscribers[1 := Subscriber([Change(1, 11)], 2, false)] == ONE.hub.subscribers;
    assert ONE.hub.subscribers[1 := Subscriber([Change(1, 11), Change(2, 12)], 2, false)] == FULL.hub.subscribers;
    assert JOINED.hub.replay + [Change(1, 11)] == ONE.hub.replay;
    assert ONE.hub.replay + [Change(2, 12)] == FULL.hub.replay;
  }

  /** The channel overflows, the drain discards event 1, and the handler receives event 2. */
  lemma {:induction false} SessionTears()
    ensures Run(FULL, [PublishNext(13), OffersTo(1), Drains, Reads]) == TORN
  {
    var w1 := Publish(FULL, 13);
    var w2 := OfferTo(w1, 1);
    var w3 := Drain(w2);
    var w4 := ClientReads(w3);
    assert w2.work == Draining(Change(3, 13), {}, 1);
    assert w3.hub.subscribers == map[1 := Subscriber([Change(2, 12)], 2, false)];
    assert [Change(2, 12)][1..] == [];
    assert w4.hub.subscribers == TORN.hub.subscribers;
    assert w4.hub.replay == TORN.hub.replay;
    RunFour(FULL, PublishNext(13), OffersTo(1), Drains, Reads);
  }

  lemma {:induction false} RunFour(w: World, a: Action, b: Action, c: Action, d: Action)
    ensures Run(w, [a, b, c, d]) == Step(Step(Step(Step(w, a), b), c), d)
  {
    RunOneMore(w, [], a);
    assert [] + [a] == [a] && [a] + [b] == [a, b];
    RunOneMore(w, [a], b);
    assert [a, b] + [c] == [a, b, c] && [a, b, c] + [d] == [a, b, c, d];
    RunOneMore(w, [a, b], c);
    RunOneMore(w, [a, b, c], d);
  }

  /** The session is over with its notice unread, and the client has reconnected with the last
      event it received. */
  const RECONNECTED := World(
    Hub(3, [Change(1, 11), Change(2, 12), Change(3, 13)], 8,
        map[1 := Subscriber([Resync(3)], 2, true), 2 := Subscriber([Change(3, 13)], 64, false)], 2, 1),
    Idle, [11, 12, 13], {1}, Client(Some(2), Some(2), 0, 2, [Change(2, 12)]))

  lemma {:induction false} ReplayOfThree()
    ensures var h := TORN.hub; !OutsideWindow(h, 2)
    ensures Fill(Subscriber([], 64, false), TORN.hub.replay, 2) == Subscriber([Change(3, 13)], 64, false)
  {
    var blank, replay := Subscriber([], 64, false), TORN.hub.replay;
    FillAppend(blank, [], Change(1, 11), 2);
    FillAppend(blank, [Change(1, 11)], Change(2, 12), 2);
    FillAppend(blank, [Change(1, 11), Change(2, 12)], Change(3, 13), 2);
    assert [] + [Change(1, 11)] == [Change(1, 11)];
    assert [Change(1, 11)] + [Change(2, 12)] == [Change(1, 11), Change(2, 12)];
    assert [Change(1, 11), Change(2, 12)] + [Change(3, 13)] == replay;
  }

  lemma {:induction false} ClientReconnects()
    ensures Run(TORN, [Drains, Unlocks, Disconnects, Connects(64)]) == RECONNECTED
  {
    var w1 := Drain(TORN);
    assert w1.hub.subscribers == map[1 := Subscriber([Resync(3)], 2, true)];
    assert w1.forced == {1};
    ReplayOfThree();
    RunFour(TORN, Drains, Unlocks, Disconnects, Connects(64));
    var w3 := Step(Step(w1, Unlocks), Disconnects);
    assert ClientConnects(w3, 64).hub.subscribers == RECONNECTED.hub.subscribers;
  }

  const CLIENT_FILLS := [Connects(2)] + [PublishNext(11), OffersTo(1), Unlocks] +
    [PublishNext(12), OffersTo(1), Unlocks]
  const SESSION_TEARS := [PublishNext(13), OffersTo(1), Drains, Reads]
  const CLIENT_RECONNECTS := [Drains, Unlocks, Disconnects, Connects(64)]

  lemma {:induction false} FillRun()
    ensures Run(Begin(8), CLIENT_FILLS) == FULL
  {
    ClientJoins();
    ClientFills();
    RunsCompose(Begin(8), [Connects(2)], [PublishNext(11), OffersTo(1), Unlocks]);
    var first := [Connects(2)] + [PublishNext(11), OffersTo(1), Unlocks];
    RunsCompose(Begin(8), first, [PublishNext(12), OffersTo(1), Unlocks]);
  }

  lemma {:induction false} TornRun()
    ensures Run(Begin(8), CLIENT_FILLS + SESSION_TEARS + CLIENT_RECONNECTS) == RECONNECTED
  {
    FillRun();
    SessionTears();
    ClientReconnects();
    RunsCompose(Begin(8), CLIENT_FILLS, SESSION_TEARS);
    RunsCompose(Begin(8), CLIENT_FILLS + SESSION_TEARS, CLIENT_RECONNECTS);
  }

  /** The receive between two rounds of the drain is what loses an event: event 1 is discarded,
      event 2 is received, the notice is not read, and the reconnect goes on with event 3. */
  lemma {:induction false} AbandonedSessionLosesAnEvent()
    ensures var actions := CLIENT_FILLS + SESSION_TEARS + CLIENT_RECONNECTS + [Reads];
            var w := Run(Begin(8), actions);
            && w.client.log == [Change(2, 12), Change(3, 13)] && w.client.start == 0 && w.client.position == 3
            && !Settled(w.client.log, 1) && !NoticePending(w) && PastOf(8, actions).abandoned
  {
    TornRun();
    RunOneMore(Begin(8), CLIENT_FILLS + SESSION_TEARS + CLIENT_RECONNECTS, Reads);
    LastReadLosesOne();
    GapIffAbandoned(8, CLIENT_FILLS + SESSION_TEARS + CLIENT_RECONNECTS + [Reads]);
  }

  lemma {:induction false} LastReadLosesOne()
    ensures ClientCanRead(RECONNECTED)
    ensures var w := ClientReads(RECONNECTED);
            && w.client.log == [Change(2, 12), Change(3, 13)] && w.client.start == 0 && w.client.position == 3
            && !Settled(w.client.log, 1) && !NoticePending(w) && HasGap(0, 3, w.client.log)
  {
    var w := ClientReads(RECONNECTED);
    assert [Change(2, 12)] + [Change(3, 13)] == [Change(2, 12), Change(3, 13)];
    assert !Settled(w.client.log, 1);
  }
}
