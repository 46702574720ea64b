/** The live event hub: bounded replay, bounded subscriber queues, and resync when either bound is
    hit.

    A publication holds the hub's lock while it offers its event to the subscribers one by one and
    drains the channel of one that is full, but the stream handlers receive from their channels
    without that lock, also between two steps of a drain. The model has one step for each channel
    operation, so handlers and publication interleave as they do in the program. The main result,
    `GapIffAbandoned`, follows one client through any number of connections among any other
    subscribers and says exactly when an event is lost without a resync that covers it. */
module Hub {
  import opened Basics

  /** A published change, or the notice that a subscriber must reload. */
  datatype Event = Change(id: nat, payload: nat) | Resync(id: nat)

  /** A subscriber: its channel's buffer and capacity, and whether it was forced to resync. */
  datatype Subscriber = Subscriber(queue: seq<Event>, capacity: nat, resync: bool)

  datatype Hub = Hub(
    nextId: nat,
    replay: seq<Event>,
    limit: nat,
    subscribers: map<nat, Subscriber>,
    nextSub: nat,
    dropped: nat)

  const DEFAULT_REPLAY := 1024
  const DEFAULT_CAPACITY := 64
  const MAX_CAPACITY := 256

  function NewHub(capacity: int): Hub {
    Hub(0, [], if capacity <= 0 then DEFAULT_REPLAY else capacity, map[], 0, 0)
  }

  function NormalCapacity(capacity: int): (r: nat)
    ensures 1 <= r <= MAX_CAPACITY
    ensures 1 <= capacity <= MAX_CAPACITY ==> r == capacity
  {
    if capacity <= 0 then DEFAULT_CAPACITY else if capacity > MAX_CAPACITY then MAX_CAPACITY else capacity
  }

  /** The effect of `forceResyncLocked` on a channel that nobody receives from. */
  function ForceResync(s: Subscriber, cause: nat): Subscriber {
    Subscriber([Resync(cause)], s.capacity, true)
  }

  predicate Overflows(s: Subscriber) {
    !s.resync && |s.queue| >= s.capacity
  }

  /** One event offered to one subscriber. */
  function Offer(s: Subscriber, e: Event): Subscriber {
    if s.resync then s
    else if |s.queue| < s.capacity then s.(queue := s.queue + [e])
    else ForceResync(s, e.id)
  }

  function Trim(replay: seq<Event>, limit: nat): seq<Event> {
    if |replay| > limit then replay[|replay| - limit..] else replay
  }

  /** Replay into a new channel, stopping at the first overflow. */
  function Fill(s: Subscriber, replay: seq<Event>, after: nat): Subscriber {
    if replay == [] then s
    else
      var last := |replay| - 1;
      var filled := Fill(s, replay[..last], after);
      if replay[last].id <= after then filled else Offer(filled, replay[last])
  }

  predicate OutsideWindow(h: Hub, after: nat) {
    after > h.nextId || (h.replay != [] && after + 1 < h.replay[0].id)
  }

  function NewSubscriber(h: Hub, after: Option<nat>, capacity: int): Subscriber {
    var fresh' := Subscriber([], NormalCapacity(capacity), false);
    if after.None? then fresh'
    else if OutsideWindow(h, after.value) then ForceResync(fresh', h.nextId)
    else Fill(fresh', h.replay, after.value)
  }

  /** `Subscribe`; the new subscriber's number is `h.nextSub + 1`. */
  function Subscribe(h: Hub, after: Option<nat>, capacity: int): Hub {
    var s := NewSubscriber(h, after, capacity);
    h.(nextSub := h.nextSub + 1, subscribers := h.subscribers[h.nextSub + 1 := s],
       dropped := h.dropped + if s.resync then 1 else 0)
  }

  function Unsubscribe(h: Hub, k: nat): Hub {
    h.(subscribers := h.subscribers - {k})
  }

  /** A receive from a subscriber's channel. */
  function Receive(h: Hub, k: nat): Hub
    requires k in h.subscribers && h.subscribers[k].queue != []
  {
    h.(subscribers := h.subscribers[k := h.subscribers[k].(queue := h.subscribers[k].queue[1..])])
  }

  // ---------------------------------------------------------------------------
  // A client among other subscribers
  // ---------------------------------------------------------------------------

  /** What the holder of the hub's lock is doing: offering an event to the subscribers that are left,
      or draining the channel of one that was full. */
  datatype Work = Idle | Offering(event: Event, todo: set<nat>) | Draining(event: Event, todo: set<nat>, target: nat)

  /** A client of the event stream. `lastEventId` is the header it reconnects with, `position` the
      event it has got to, and `log` what it received since it connected without that header, at
      `start`. */
  datatype Client = Client(session: Option<nat>, lastEventId: Option<nat>, start: nat, position: nat, log: seq<Event>)

  /** The hub and its lock, everything published in its lifetime, every subscriber ever forced to
      resync, and one client. */
  datatype World = World(hub: Hub, work: Work, published: seq<nat>, forced: set<nat>, client: Client)

  /** The steps of a publication, each under the lock; subscribing and unsubscribing, which wait for
      it; and what handlers do at any time. A handler that has returned is still subscribed until
      it gets the lock, as one of the others. */
  datatype Action =
    | PublishNext(payload: nat)
    | OffersTo(k: nat)
    | Drains
    | Unlocks
    | OtherSubscribes(after: Option<nat>, capacity: int)
    | OtherLeaves(k: nat)
    | Connects(capacity: int)
    | OtherReceives(k: nat)
    | Reads
    | Disconnects

  function Begin(capacity: int): World {
    World(NewHub(capacity), Idle, [], {}, Client(None, None, 0, 0, []))
  }

  function SetSubscriber(h: Hub, k: nat, s: Subscriber): Hub {
    h.(subscribers := h.subscribers[k := s])
  }

  function Publish(w: World, payload: nat): World {
    var e := Change(w.hub.nextId + 1, payload);
    w.(hub := w.hub.(nextId := w.hub.nextId + 1, replay := Trim(w.hub.replay + [e], w.hub.limit)),
       work := Offering(e, w.hub.subscribers.Keys), published := w.published + [payload])
  }

  predicate CanOffer(w: World, k: nat) {
    w.work.Offering? && k in w.work.todo && k in w.hub.subscribers
  }

  /** One round of the loop of `Publish`: skip, send, or find the channel full. */
  function OfferTo(w: World, k: nat): World
    requires CanOffer(w, k)
  {
    var s := w.hub.subscribers[k];
    if Overflows(s) then w.(work := Draining(w.work.event, w.work.todo - {k}, k))
    else w.(hub := SetSubscriber(w.hub, k, Offer(s, w.work.event)), work := Offering(w.work.event, w.work.todo - {k}))
  }

  predicate CanDrain(w: World) {
    w.work.Draining? && w.work.target in w.hub.subscribers
  }

  /** The drain takes one event out of a channel that a handler may be receiving from. */
  predicate Discards(w: World) {
    CanDrain(w) && w.hub.subscribers[w.work.target].queue != []
  }

  /** One round of `forceResyncLocked`: discard one event, or send the notice into the empty channel. */
  function Drain(w: World): World
    requires CanDrain(w)
  {
    var k := w.work.target;
    var s := w.hub.subscribers[k];
    if s.queue != [] then w.(hub := Receive(w.hub, k))
    else
      w.(hub := SetSubscriber(w.hub, k, ForceResync(s, w.work.event.id)).(dropped := w.hub.dropped + 1),
         forced := w.forced + {k}, work := Offering(w.work.event, w.work.todo))
  }

  function Joined(w: World, after: Option<nat>, capacity: int): World {
    var h := Subscribe(w.hub, after, capacity);
    w.(hub := h, forced := if h.subscribers[h.nextSub].resync then w.forced + {h.nextSub} else w.forced)
  }

  predicate ClientCanRead(w: World) {
    && w.client.session.Some? && w.client.session.value in w.hub.subscribers
    && w.hub.subscribers[w.client.session.value].queue != []
  }

  /** The event the client's handler receives next. */
  function NextRead(w: World): Event
    requires ClientCanRead(w)
  {
    w.hub.subscribers[w.client.session.value].queue[0]
  }

  /** The client's handler writes one event; a resync notice ends the stream. */
  function ClientReads(w: World): World
    requires ClientCanRead(w)
  {
    var e := NextRead(w);
    var c := w.client.(lastEventId := Some(e.id), position := e.id, log := w.client.log + [e]);
    w.(hub := Receive(w.hub, w.client.session.value), client := if e.Resync? then c.(session := None) else c)
  }

  predicate CanConnect(w: World) {
    w.client.session.None? && w.work.Idle?
  }

  function ClientConnects(w: World, capacity: int): World {
    var joined := Joined(w, w.client.lastEventId, capacity);
    var c := w.client.(session := Some(joined.hub.nextSub));
    joined.(client := if c.lastEventId.None? then c.(start := w.hub.nextId, position := w.hub.nextId) else c)
  }

  predicate CanReceive(w: World, k: nat) {
    k in w.hub.subscribers && w.client.session != Some(k) && w.hub.subscribers[k].queue != []
  }

  /** One step; a step that is not enabled changes nothing. */
  function Step(w: World, a: Action): World {
    match a
    case PublishNext(payload) => if w.work.Idle? then Publish(w, payload) else w
    case OffersTo(k) => if CanOffer(w, k) then OfferTo(w, k) else w
    case Drains => if CanDrain(w) then Drain(w) else w
    case Unlocks => if w.work.Offering? && w.work.todo == {} then w.(work := Idle) else w
    case OtherSubscribes(after, capacity) => if w.work.Idle? then Joined(w, after, capacity) else w
    case OtherLeaves(k) => if w.work.Idle? && w.client.session != Some(k) then w.(hub := Unsubscribe(w.hub, k)) else w
    case Connects(capacity) => if CanConnect(w) then ClientConnects(w, capacity) else w
    case OtherReceives(k) => if CanReceive(w, k) then w.(hub := Receive(w.hub, k)) else w
    case Reads => if ClientCanRead(w) then ClientReads(w) else w
    case Disconnects => w.(client := w.client.(session := None))
  }

  function Run(w: World, actions: seq<Action>): World {
    if actions == [] then w
    else Step(Run(w, actions[..|actions| - 1]), actions[|actions| - 1])
  }

  lemma {:induction false} RunOneMore(w: World, actions: seq<Action>, a: Action)
    ensures Run(w, actions + [a]) == Step(Run(w, actions), a)
  {
    assert (actions + [a])[..|actions|] == actions;
  }

  // ---------------------------------------------------------------------------
  // What happened to the client's sessions
  // ---------------------------------------------------------------------------

  /** The past of a run, as far as the client is concerned. In its current session: `since` is where
      the session began, `cut` says that a drain has discarded an event from its channel, and `torn`
      that its handler has received an event after that. `abandoned` says that some torn session
      ended before its notice was read, and no session has read a notice since. */
  datatype Past = Past(since: nat, cut: bool, torn: bool, abandoned: bool)

  function Note(p: Past, w: World, a: Action): Past {
    match a
    case Connects(_) =>
      if CanConnect(w) then
        Past(if w.client.lastEventId.Some? then w.client.lastEventId.value else w.hub.nextId, false, false, p.abandoned)
      else p
    case Disconnects => Past(p.since, false, false, p.abandoned || p.torn)
    case Drains => if Discards(w) && w.client.session == Some(w.work.target) then p.(cut := true) else p
    case Reads =>
      if !ClientCanRead(w) then p
      else if NextRead(w).Resync? then Past(p.since, false, false, false)
      else p.(torn := p.torn || p.cut)
    case _ => p
  }

  function PastOf(capacity: int, actions: seq<Action>): Past {
    if actions == [] then Past(0, false, false, false)
    else
      var rest := actions[..|actions| - 1];
      Note(PastOf(capacity, rest), Run(Begin(capacity), rest), actions[|actions| - 1])
  }

  // ---------------------------------------------------------------------------
  // Consecutive events and gaps
  // ---------------------------------------------------------------------------

  /** The published events with numbers above `low` and up to `high`. */
  function Between(published: seq<nat>, low: nat, high: nat): (events: seq<Event>)
    requires low <= high <= |published|
    ensures |events| == high - low
    decreases high
  {
    if low == high then [] else Between(published, low, high - 1) + [Change(high, published[high - 1])]
  }

  lemma {:induction false} BetweenAt(published: seq<nat>, low: nat, high: nat)
    requires low <= high <= |published|
    ensures forall n :: 0 <= n < high - low ==>
              Between(published, low, high)[n] == Change(low + n + 1, published[low + n])
    decreases high
  {
    if low < high {
      BetweenAt(published, low, high - 1);
    }
  }

  lemma {:induction false} BetweenGrows(published: seq<nat>, more: seq<nat>, low: nat, high: nat)
    requires low <= high <= |published|
    ensures Between(published + more, low, high) == Between(published, low, high)
    decreases high
  {
    if low < high {
      BetweenGrows(published, more, low, high - 1);
    }
  }

  lemma {:induction false} BetweenSplits(published: seq<nat>, low: nat, middle: nat, high: nat)
    requires low <= middle <= high <= |published|
    ensures Between(published, low, high) == Between(published, low, middle) + Between(published, middle, high)
    decreases high
  {
    if middle < high {
      BetweenSplits(published, low, middle, high - 1);
    }
  }

  /** The received event is that one, or a notice to reload everything up to it. */
  predicate Settles(e: Event, id: nat) {
    if e.Resync? then e.id >= id else e.id == id
  }

  ghost predicate Settled(log: seq<Event>, id: nat) {
    exists n :: 0 <= n < |log| && Settles(log[n], id)
  }

  /** Some event above `start` and up to `position` was neither received nor covered by a notice. */
  ghost predicate HasGap(start: nat, position: nat, log: seq<Event>) {
    exists id :: start < id <= position && !Settled(log, id)
  }

  /** Changes are received in order, each with the payload it was published with, and the last
      event received is the position. */
  ghost predicate LogOk(published: seq<nat>, start: nat, position: nat, log: seq<Event>) {
    && start <= position <= |published|
    && (if log == [] then position == start else position == log[|log| - 1].id)
    && (forall n :: 0 <= n < |log| ==> start <= log[n].id <= position)
    && (forall m, n :: 0 <= m < n < |log| ==>
          if log[n].Change? then log[m].id < log[n].id else log[m].id <= log[n].id)
    && (forall n :: 0 <= n < |log| && log[n].Change? ==>
          start < log[n].id <= |published| && log[n].payload == published[log[n].id - 1])
  }

  lemma {:induction false} LogGrows(published: seq<nat>, start: nat, position: nat, log: seq<Event>, e: Event)
    requires LogOk(published, start, position, log) && position <= e.id <= |published|
    requires e.Change? ==> position < e.id && e.payload == published[e.id - 1]
    ensures LogOk(published, start, e.id, log + [e])
  {
  }

  lemma {:induction false} SettledGrows(log: seq<Event>, e: Event, id: nat)
    ensures Settled(log + [e], id) <==> Settled(log, id) || Settles(e, id)
  {
    if Settled(log, id) {
      var n :| 0 <= n < |log| && Settles(log[n], id);
      assert (log + [e])[n] == log[n];
    }
    if Settles(e, id) {
      assert (log + [e])[|log|] == e;
    }
    if Settled(log + [e], id) {
      var n :| 0 <= n < |log + [e]| && Settles((log + [e])[n], id);
      assert n < |log| ==> (log + [e])[n] == log[n];
    }
  }

  /** Receiving the next event opens no gap and closes none. */
  lemma {:induction false} NextEventKeepsGaps(start: nat, position: nat, log: seq<Event>, e: Event)
    requires e.Change? && e.id == position + 1 && start <= position
    ensures HasGap(start, e.id, log + [e]) <==> HasGap(start, position, log)
  {
    if HasGap(start, position, log) {
      var id :| start < id <= position && !Settled(log, id);
      SettledGrows(log, e, id);
    }
    if HasGap(start, e.id, log + [e]) {
      var id :| start < id <= e.id && !Settled(log + [e], id);
      SettledGrows(log, e, id);
    }
  }

  /** Receiving an event beyond the next opens a gap, and none is ever closed by a change. */
  lemma {:induction false} SkippingOpensGap(published: seq<nat>, start: nat, position: nat, log: seq<Event>, e: Event)
    requires LogOk(published, start, position, log) && e.Change? && e.id > position + 1
    ensures HasGap(start, e.id, log + [e])
  {
    var id := position + 1;
    SettledGrows(log, e, id);
    assert !Settled(log, id);
  }

  /** A notice closes every gap. */
  lemma {:induction false} NoticeClosesGaps(start: nat, log: seq<Event>, e: Event)
    requires e.Resync?
    ensures !HasGap(start, e.id, log + [e])
  {
    forall id | start < id <= e.id
      ensures Settled(log + [e], id)
    {
      SettledGrows(log, e, id);
    }
  }

  // ---------------------------------------------------------------------------
  // The invariant
  // ---------------------------------------------------------------------------

  /** The replay buffer holds the last `limit` published events, without holes. */
  ghost predicate ReplayOk(h: Hub, published: seq<nat>) {
    && h.nextId == |published|
    && h.limit >= 1
    && |h.replay| == Min(h.nextId, h.limit)
    && h.replay == Between(published, h.nextId - |h.replay|, h.nextId)
  }

  predicate ChannelOk(s: Subscriber) {
    1 <= s.capacity <= MAX_CAPACITY && |s.queue| <= s.capacity
  }

  /** Channels stay within capacity, and `dropped` counts the subscribers ever forced to resync. */
  ghost predicate SubscribersOk(h: Hub, forced: set<nat>) {
    && (forall k :: k in h.subscribers ==>
          ChannelOk(h.subscribers[k]) && k <= h.nextSub && (h.subscribers[k].resync <==> k in forced))
    && (forall k :: k in forced ==> k <= h.nextSub)
    && h.dropped == |forced|
  }

  /** The event under way is the last one published, and its target is not yet told to resync. */
  predicate WorkOk(h: Hub, work: Work, published: seq<nat>) {
    work.Idle? ||
    (&& published != [] && work.event == Change(|published|, published[|published| - 1])
     && work.todo <= h.subscribers.Keys
     && (work.Draining? ==>
           work.target in h.subscribers && work.target !in work.todo && !h.subscribers[work.target].resync))
  }

  predicate IsDrained(work: Work, k: nat) {
    work.Draining? && work.target == k
  }

  /** The event under way has not been sent to this subscriber. */
  predicate Owes(work: Work, k: nat) {
    !work.Idle? && (k in work.todo || IsDrained(work, k))
  }

  /** How far the events sent to a subscriber reach. */
  function SentUpTo(w: World, k: nat): int {
    |w.published| - if Owes(w.work, k) then 1 else 0
  }

  /** What waits in the client's channel: one notice at or beyond its position, or the rest of the
      events sent, which begin right after its position unless a drain has cut them. */
  ghost predicate QueueOk(w: World, p: Past, k: nat)
    requires k in w.hub.subscribers
  {
    var s, position := w.hub.subscribers[k], w.client.position;
    if s.resync then |s.queue| == 1 && s.queue[0].Resync? && position <= s.queue[0].id <= |w.published|
    else
      var low := SentUpTo(w, k) - |s.queue|;
      && 0 <= position <= low <= low + |s.queue| <= |w.published|
      && s.queue == Between(w.published, low, low + |s.queue|)
      && (if p.cut then IsDrained(w.work, k) && (p.torn || position < low) else position == low)
  }

  ghost predicate ClientOk(w: World, p: Past) {
    var c := w.client;
    && LogOk(w.published, c.start, c.position, c.log)
    && (if c.lastEventId.None? then c.log == [] && !p.torn && !p.abandoned else c.lastEventId.value == c.position)
    && (p.torn ==> p.cut)
    && (HasGap(c.start, c.position, c.log) <==> p.torn || p.abandoned)
    && (if c.session.None? then !p.cut
        else
          && c.session.value in w.hub.subscribers && QueueOk(w, p, c.session.value)
          && p.since <= c.position && (HasGap(p.since, c.position, c.log) ==> p.torn))
  }

  ghost predicate HubOk(w: World) {
    ReplayOk(w.hub, w.published) && SubscribersOk(w.hub, w.forced) && WorkOk(w.hub, w.work, w.published)
  }

  ghost predicate Inv(w: World, p: Past) {
    HubOk(w) && ClientOk(w, p)
  }

  // ---------------------------------------------------------------------------
  // Publishing
  // ---------------------------------------------------------------------------

  lemma {:induction false} TrimKeepsReplay(published: seq<nat>, payload: nat, replay: seq<Event>, limit: nat)
    requires limit >= 1 && |replay| == Min(|published|, limit)
    requires replay == Between(published, |published| - |replay|, |published|)
    ensures var all, trimmed := published + [payload], Trim(replay + [Change(|published| + 1, payload)], limit);
            |trimmed| == Min(|all|, limit) && trimmed == Between(all, |all| - |trimmed|, |all|)
  {
    var all, low := published + [payload], |published| - |replay|;
    var trimmed := Trim(replay + [Change(|all|, payload)], limit);
    BetweenGrows(published, [payload], low, |published|);
    assert replay + [Change(|all|, payload)] == Between(all, low, |all|);
    BetweenSplits(all, low, |all| - |trimmed|, |all|);
  }

  lemma {:induction false} PublishKeepsHub(w: World, payload: nat)
    requires HubOk(w) && w.work.Idle?
    ensures HubOk(Publish(w, payload))
  {
    TrimKeepsReplay(w.published, payload, w.hub.replay, w.hub.limit);
  }

  lemma {:induction false} LogStays(published: seq<nat>, more: seq<nat>, start: nat, position: nat, log: seq<Event>)
    requires LogOk(published, start, position, log)
    ensures LogOk(published + more, start, position, log)
  {
  }

  lemma {:induction false} PublishKeepsClient(w: World, p: Past, payload: nat)
    requires Inv(w, p) && w.work.Idle?
    ensures ClientOk(Publish(w, payload), p)
  {
    var c, next := w.client, Publish(w, payload);
    LogStays(w.published, [payload], c.start, c.position, c.log);
    if c.session.Some? && !w.hub.subscribers[c.session.value].resync {
      var k := c.session.value;
      var s := w.hub.subscribers[k];
      BetweenGrows(w.published, [payload], c.position, |w.published|);
      assert SentUpTo(next, k) == |w.published|;
    }
  }

  /** A step that is not about the client's channel. */
  lemma {:induction false} ElsewhereKeepsClient(w: World, p: Past, next: World)
    requires ClientOk(w, p) && next.client == w.client && next.published == w.published
    requires w.client.session.Some? ==>
               var k := w.client.session.value;
               && k in next.hub.subscribers && next.hub.subscribers[k] == w.hub.subscribers[k]
               && Owes(next.work, k) == Owes(w.work, k) && IsDrained(next.work, k) == IsDrained(w.work, k)
    ensures ClientOk(next, p)
  {
  }

  lemma {:induction false} OfferKeepsHub(w: World, k: nat)
    requires HubOk(w) && CanOffer(w, k)
    ensures HubOk(OfferTo(w, k))
  {
    assert ChannelOk(w.hub.subscribers[k]);
  }

  lemma {:induction false} OfferKeepsClient(w: World, p: Past, k: nat)
    requires Inv(w, p) && CanOffer(w, k)
    ensures ClientOk(OfferTo(w, k), p)
  {
    var next := OfferTo(w, k);
    if w.client.session != Some(k) {
      ElsewhereKeepsClient(w, p, next);
    } else if !w.hub.subscribers[k].resync && !Overflows(w.hub.subscribers[k]) {
      var s := w.hub.subscribers[k];
      var low := SentUpTo(w, k) - |s.queue|;
      assert SentUpTo(next, k) == |w.published| == low + |s.queue| + 1;
    }
  }

  /** A receive, by a handler or by the drain. */
  lemma {:induction false} ReceiveKeepsHub(w: World, k: nat, next: World)
    requires HubOk(w) && k in w.hub.subscribers && w.hub.subscribers[k].queue != []
    requires next.hub == Receive(w.hub, k) && next.work == w.work
    requires next.published == w.published && next.forced == w.forced
    ensures HubOk(next)
  {
    assert ChannelOk(w.hub.subscribers[k]);
  }

  lemma {:induction false} NoticeKeepsHub(w: World)
    requires HubOk(w) && CanDrain(w) && !Discards(w)
    ensures HubOk(Drain(w))
  {
    var k := w.work.target;
    assert k !in w.forced && |w.forced + {k}| == |w.forced| + 1;
    assert ChannelOk(w.hub.subscribers[k]);
  }

  lemma {:induction false} DrainKeepsHub(w: World)
    requires HubOk(w) && CanDrain(w)
    ensures HubOk(Drain(w))
  {
    if Discards(w) {
      ReceiveKeepsHub(w, w.work.target, Drain(w));
    } else {
      NoticeKeepsHub(w);
    }
  }

  lemma {:induction false} DiscardKeepsClient(w: World, p: Past)
    requires Inv(w, p) && Discards(w) && w.client.session == Some(w.work.target)
    ensures ClientOk(Drain(w), p.(cut := true))
  {
    var k := w.work.target;
    var s := w.hub.subscribers[k];
    var low := SentUpTo(w, k) - |s.queue|;
    BetweenSplits(w.published, low, low + 1, low + |s.queue|);
    assert Drain(w).hub.subscribers[k].queue == Between(w.published, low + 1, low + |s.queue|);
  }

  lemma {:induction false} DrainKeepsClient(w: World, p: Past)
    requires Inv(w, p) && CanDrain(w)
    ensures ClientOk(Drain(w), Note(p, w, Drains))
  {
    if w.client.session != Some(w.work.target) {
      ElsewhereKeepsClient(w, p, Drain(w));
    } else if Discards(w) {
      DiscardKeepsClient(w, p);
    }
  }

  // ---------------------------------------------------------------------------
  // Subscribing
  // ---------------------------------------------------------------------------

  /** What a replay up to `high` leaves in a channel for a reader at `after`: every event after it, or,
      when they are more than the channel holds, a notice for the first that did not fit. */
  ghost predicate Filled(published: seq<nat>, high: nat, after: nat, capacity: nat, s: Subscriber) {
    && high <= |published| && s.capacity == capacity && |s.queue| <= capacity
    && (s.resync <==> high > after + capacity)
    && s.queue ==
         if s.resync then [Resync(after + capacity + 1)]
         else if after <= high then Between(published, after, high) else []
  }

  lemma {:induction false} FillOne(published: seq<nat>, high: nat, after: nat, capacity: nat, s: Subscriber)
    requires high < |published| && capacity >= 1 && Filled(published, high, after, capacity, s)
    ensures Filled(published, high + 1, after, capacity,
                   if high + 1 <= after then s else Offer(s, Change(high + 1, published[high])))
  {
    if after <= high && !s.resync && |s.queue| < capacity {
      assert s.queue + [Change(high + 1, published[high])] == Between(published, after, high + 1);
    } else if high < after {
      assert after == high + 1 ==> Between(published, after, high + 1) == [];
    }
  }

  lemma {:induction false} FillAppend(s: Subscriber, replay: seq<Event>, e: Event, after: nat)
    ensures Fill(s, replay + [e], after) ==
            if e.id <= after then Fill(s, replay, after) else Offer(Fill(s, replay, after), e)
  {
    assert (replay + [e])[..|replay|] == replay;
  }

  lemma {:induction false} FillBetween(published: seq<nat>, low: nat, high: nat, after: nat, s: Subscriber)
    requires low < high <= |published|
    ensures var before := Fill(s, Between(published, low, high - 1), after);
            Fill(s, Between(published, low, high), after) ==
            if high <= after then before else Offer(before, Change(high, published[high - 1]))
  {
    FillAppend(s, Between(published, low, high - 1), Change(high, published[high - 1]), after);
  }

  /** Replaying a window that reaches back to the cursor delivers every event after it, or forces
      one resync to an event after it. */
  lemma {:induction false} FillDelivers(published: seq<nat>, low: nat, high: nat, after: nat, capacity: nat)
    requires low <= high <= |published| && low <= after && capacity >= 1
    ensures Filled(published, high, after, capacity,
                   Fill(Subscriber([], capacity, false), Between(published, low, high), after))
    decreases high
  {
    var blank := Subscriber([], capacity, false);
    if low == high {
      FillsNothing(published, low, after, capacity);
    } else {
      var before := Fill(blank, Between(published, low, high - 1), after);
      FillDelivers(published, low, high - 1, after, capacity);
      FillOne(published, high - 1, after, capacity, before);
      FillBetween(published, low, high, after, blank);
    }
  }

  lemma {:induction false} FillsNothing(published: seq<nat>, low: nat, after: nat, capacity: nat)
    requires low <= |published| && low <= after
    ensures Filled(published, low, after, capacity,
                   Fill(Subscriber([], capacity, false), Between(published, low, low), after))
  {
    assert after <= low ==> Between(published, after, low) == [];
  }

  lemma {:induction false} NewSubscriberOk(h: Hub, published: seq<nat>, after: Option<nat>, capacity: int)
    requires ReplayOk(h, published)
    ensures ChannelOk(NewSubscriber(h, after, capacity))
    ensures var s := NewSubscriber(h, after, capacity);
            var position := if after.Some? then after.value else h.nextId;
            position <= h.nextId ==>
              if s.resync then |s.queue| == 1 && s.queue[0].Resync? && position <= s.queue[0].id <= h.nextId
              else s.queue == Between(published, position, h.nextId)
  {
    if after.Some? && !OutsideWindow(h, after.value) {
      BetweenAt(published, h.nextId - |h.replay|, h.nextId);
      FillDelivers(published, h.nextId - |h.replay|, h.nextId, after.value, NormalCapacity(capacity));
    }
  }

  /** The hub cannot replay every event after the id: it is beyond the last event, or some of the
      events after it have left the window. */
  predicate BeyondReach(nextId: nat, limit: nat, after: nat) {
    after > nextId || nextId - after > Min(nextId, limit)
  }

  /** What a subscription finds in its channel. */
  ghost predicate Welcome(
      s: Subscriber, published: seq<nat>, nextId: nat, limit: nat, after: Option<nat>, capacity: int) {
    && s.capacity == (if capacity <= 0 then 64 else if capacity > 256 then 256 else capacity)
    && nextId == |published|
    && (s.resync <==>
        after.Some? && (BeyondReach(nextId, limit, after.value) || nextId - after.value > s.capacity))
    && (s.resync ==>
          s.queue == [Resync(if BeyondReach(nextId, limit, after.value) then nextId
                             else after.value + s.capacity + 1)])
    && (!s.resync ==>
          var position := if after.Some? then after.value else nextId;
          position <= nextId && s.queue == Between(published, position, nextId))
  }

  /** A new subscriber is told to resync exactly when it asks for an id that is beyond the last event,
      or before the replay window, or further back than its channel holds; otherwise its channel
      holds exactly the events after that id. */
  lemma {:induction false} ResyncIff(h: Hub, published: seq<nat>, after: Option<nat>, capacity: int)
    requires ReplayOk(h, published)
    ensures h.nextSub + 1 in Subscribe(h, after, capacity).subscribers
    ensures Welcome(Subscribe(h, after, capacity).subscribers[h.nextSub + 1], published, h.nextId, h.limit, after,
                    capacity)
    ensures Subscribe(h, after, capacity).dropped ==
              h.dropped + if Subscribe(h, after, capacity).subscribers[h.nextSub + 1].resync then 1 else 0
  {
    if after.Some? {
      WindowIff(h, published, after.value);
      if !OutsideWindow(h, after.value) {
        FillDelivers(published, h.nextId - |h.replay|, h.nextId, after.value, NormalCapacity(capacity));
      }
    }
  }

  lemma {:induction false} WindowIff(h: Hub, published: seq<nat>, after: nat)
    requires ReplayOk(h, published)
    ensures OutsideWindow(h, after) <==> BeyondReach(h.nextId, h.limit, after)
  {
    BetweenAt(published, h.nextId - |h.replay|, h.nextId);
  }

  lemma {:induction false} JoinedKeepsHub(w: World, after: Option<nat>, capacity: int)
    requires HubOk(w) && w.work.Idle?
    ensures HubOk(Joined(w, after, capacity))
  {
    NewSubscriberOk(w.hub, w.published, after, capacity);
  }

  lemma {:induction false} ConnectKeeps(w: World, p: Past, capacity: int)
    requires Inv(w, p) && CanConnect(w)
    ensures Inv(ClientConnects(w, capacity), Note(p, w, Connects(capacity)))
  {
    JoinedKeepsHub(w, w.client.lastEventId, capacity);
    NewSubscriberOk(w.hub, w.published, w.client.lastEventId, capacity);
  }

  // ---------------------------------------------------------------------------
  // Receiving
  // ---------------------------------------------------------------------------

  lemma {:induction false} ReadsNotice(w: World, p: Past)
    requires Inv(w, p) && ClientCanRead(w) && w.hub.subscribers[w.client.session.value].resync
    ensures ClientOk(ClientReads(w), Note(p, w, Reads))
  {
    var c, e := w.client, NextRead(w);
    LogGrows(w.published, c.start, c.position, c.log, e);
    NoticeClosesGaps(c.start, c.log, e);
  }

  /** The next event is the first of the rest of the events sent. */
  lemma {:induction false} NextChange(w: World, p: Past) returns (low: nat)
    requires Inv(w, p) && ClientCanRead(w) && !w.hub.subscribers[w.client.session.value].resync
    ensures w.client.position <= low < |w.published| && NextRead(w) == Change(low + 1, w.published[low])
    ensures var k := w.client.session.value;
            var s := w.hub.subscribers[k];
            && low == SentUpTo(w, k) - |s.queue|
            && s.queue[1..] == Between(w.published, low + 1, low + |s.queue|)
            && (if p.cut then IsDrained(w.work, k) && (p.torn || w.client.position < low) else w.client.position == low)
  {
    var k := w.client.session.value;
    var s := w.hub.subscribers[k];
    low := SentUpTo(w, k) - |s.queue|;
    BetweenSplits(w.published, low, low + 1, low + |s.queue|);
    assert Between(w.published, low, low + 1) == [Change(low + 1, w.published[low])];
  }

  /** What the read does to the log and its gaps. */
  lemma {:induction false} ReadMovesLog(published: seq<nat>, c: Client, p: Past, low: nat)
    requires LogOk(published, c.start, c.position, c.log) && c.position <= low < |published| && p.since <= c.position
    requires HasGap(c.start, c.position, c.log) <==> p.torn || p.abandoned
    requires HasGap(p.since, c.position, c.log) ==> p.torn
    requires if p.cut then p.torn || c.position < low else c.position == low && !p.torn
    ensures var e := Change(low + 1, published[low]);
            && LogOk(published, c.start, e.id, c.log + [e])
            && (HasGap(c.start, e.id, c.log + [e]) <==> p.torn || p.cut || p.abandoned)
            && (HasGap(p.since, e.id, c.log + [e]) ==> p.torn || p.cut)
  {
    var e := Change(low + 1, published[low]);
    LogGrows(published, c.start, c.position, c.log, e);
    if c.position == low {
      NextEventKeepsGaps(c.start, c.position, c.log, e);
      NextEventKeepsGaps(p.since, c.position, c.log, e);
    } else {
      SkippingOpensGap(published, c.start, c.position, c.log, e);
    }
  }

  lemma {:induction false} ReadsChange(w: World, p: Past)
    requires Inv(w, p) && ClientCanRead(w) && !w.hub.subscribers[w.client.session.value].resync
    ensures ClientOk(ClientReads(w), Note(p, w, Reads))
  {
    var low := NextChange(w, p);
    ReadMovesLog(w.published, w.client, p, low);
    assert SentUpTo(ClientReads(w), w.client.session.value) == SentUpTo(w, w.client.session.value);
  }

  lemma {:induction false} OtherReceivesKeeps(w: World, p: Past, k: nat)
    requires Inv(w, p) && CanReceive(w, k)
    ensures Inv(w.(hub := Receive(w.hub, k)), p)
  {
    ReceiveKeepsHub(w, k, w.(hub := Receive(w.hub, k)));
    ElsewhereKeepsClient(w, p, w.(hub := Receive(w.hub, k)));
  }

  lemma {:induction false} OtherLeavesKeeps(w: World, p: Past, k: nat)
    requires Inv(w, p) && w.work.Idle? && w.client.session != Some(k)
    ensures Inv(w.(hub := Unsubscribe(w.hub, k)), p)
  {
    ElsewhereKeepsClient(w, p, w.(hub := Unsubscribe(w.hub, k)));
  }

  lemma {:induction false} UnlockKeeps(w: World, p: Past)
    requires Inv(w, p) && w.work.Offering? && w.work.todo == {}
    ensures Inv(w.(work := Idle), p)
  {
    ElsewhereKeepsClient(w, p, w.(work := Idle));
  }

  lemma {:induction false} DisconnectKeeps(w: World, p: Past)
    requires Inv(w, p)
    ensures Inv(Step(w, Disconnects), Note(p, w, Disconnects))
  {
  }

  lemma {:induction false} OtherSubscribesKeeps(w: World, p: Past, after: Option<nat>, capacity: int)
    requires Inv(w, p) && w.work.Idle?
    ensures Inv(Joined(w, after, capacity), p)
  {
    JoinedKeepsHub(w, after, capacity);
    ElsewhereKeepsClient(w, p, Joined(w, after, capacity));
  }

  // ---------------------------------------------------------------------------
  // Runs
  // ---------------------------------------------------------------------------

  lemma {:induction false} LockedStepKeeps(w: World, p: Past, a: Action)
    requires Inv(w, p) && (a.PublishNext? || a.OffersTo? || a.Drains? || a.Unlocks?)
    ensures Inv(Step(w, a), Note(p, w, a))
  {
    match a
    case PublishNext(payload) =>
      if w.work.Idle? {
        PublishKeepsHub(w, payload);
        PublishKeepsClient(w, p, payload);
      }
    case OffersTo(k) =>
      if CanOffer(w, k) {
        OfferKeepsHub(w, k);
        OfferKeepsClient(w, p, k);
      }
    case Drains =>
      if CanDrain(w) {
        DrainKeepsHub(w);
        DrainKeepsClient(w, p);
      }
    case Unlocks => if w.work.Offering? && w.work.todo == {} { UnlockKeeps(w, p); }
  }

  lemma {:induction false} ReadKeeps(w: World, p: Past)
    requires Inv(w, p) && ClientCanRead(w)
    ensures Inv(ClientReads(w), Note(p, w, Reads))
  {
    ReceiveKeepsHub(w, w.client.session.value, ClientReads(w));
    if w.hub.subscribers[w.client.session.value].resync {
      ReadsNotice(w, p);
    } else {
      ReadsChange(w, p);
    }
  }

  lemma {:induction false} StepKeeps(w: World, p: Past, a: Action)
    requires Inv(w, p)
    ensures Inv(Step(w, a), Note(p, w, a))
  {
    match a
    case PublishNext(_) => LockedStepKeeps(w, p, a);
    case OffersTo(_) => LockedStepKeeps(w, p, a);
    case Drains => LockedStepKeeps(w, p, a);
    case Unlocks => LockedStepKeeps(w, p, a);
    case OtherSubscribes(after, capacity) => if w.work.Idle? { OtherSubscribesKeeps(w, p, after, capacity); }
    case OtherLeaves(k) => if w.work.Idle? && w.client.session != Some(k) { OtherLeavesKeeps(w, p, k); }
    case Connects(capacity) => if CanConnect(w) { ConnectKeeps(w, p, capacity); }
    case OtherReceives(k) => if CanReceive(w, k) { OtherReceivesKeeps(w, p, k); }
    case Reads => if ClientCanRead(w) { ReadKeeps(w, p); }
    case Disconnects => DisconnectKeeps(w, p);
  }

  /** The invariant holds after every run, with the past of that run. */
  lemma {:induction false} RunKeeps(capacity: int, actions: seq<Action>)
    ensures Inv(Run(Begin(capacity), actions), PastOf(capacity, actions))
  {
    if actions != [] {
      var rest := actions[..|actions| - 1];
      RunKeeps(capacity, rest);
      StepKeeps(Run(Begin(capacity), rest), PastOf(capacity, rest), actions[|actions| - 1]);
    }
  }

  /** The client's channel holds its notice, at or beyond its position, or is being drained for it. */
  predicate NoticePending(w: World) {
    && w.client.session.Some? && w.client.session.value in w.hub.subscribers
    && var k := w.client.session.value;
       var s := w.hub.subscribers[k];
       || IsDrained(w.work, k)
       || (s.resync && |s.queue| == 1 && s.queue[0].Resync? && w.client.position <= s.queue[0].id)
  }

  /** Over every run, with any reconnects by last event id, any other subscribers and handlers that
      receive at any time: unless a notice is pending, some event after the client's start and up
      to its position is neither received nor covered by a notice exactly when some session
      received an event after a drain had discarded an earlier one, and ended before its notice was
      read, and no session has read a notice since. */
  lemma {:induction false} GapIffAbandoned(capacity: int, actions: seq<Action>)
    ensures var w, p := Run(Begin(capacity), actions), PastOf(capacity, actions);
            && (HasGap(w.client.start, w.client.position, w.client.log) <==> p.torn || p.abandoned)
            && (p.torn ==> NoticePending(w))
            && (!NoticePending(w) ==> (HasGap(w.client.start, w.client.position, w.client.log) <==> p.abandoned))
  {
    RunKeeps(capacity, actions);
  }

  /** The log holds changes in the order of their numbers, each with its published payload. */
  lemma {:induction false} DeliveredInOrder(capacity: int, actions: seq<Action>)
    ensures var w := Run(Begin(capacity), actions);
            LogOk(w.published, w.client.start, w.client.position, w.client.log)
  {
    RunKeeps(capacity, actions);
  }

  predicate Waits(s: Subscriber, published: seq<nat>, id: nat)
    requires 1 <= id <= |published|
  {
    Change(id, published[id - 1]) in s.queue
  }

  lemma {:induction false} WaitsBetween(published: seq<nat>, low: nat, high: nat, s: Subscriber, id: nat)
    requires low < id <= high <= |published| && s.queue == Between(published, low, high)
    ensures Waits(s, published, id)
  {
    BetweenAt(published, low, high);
    assert s.queue[id - low - 1] == Change(id, published[id - 1]);
  }

  /** Within one session nothing is lost: every event published since the session began has been
      received or covered, waits in the channel, or is being offered, unless the session's own
      notice is pending; and a notice that is read covers everything before it. */
  lemma {:induction false} NothingLostWithinASession(capacity: int, actions: seq<Action>, id: nat)
    requires Run(Begin(capacity), actions).client.session.Some?
    requires PastOf(capacity, actions).since < id <= |Run(Begin(capacity), actions).published|
    ensures var w := Run(Begin(capacity), actions);
            var k := w.client.session.value;
            && k in w.hub.subscribers
            && (|| Settled(w.client.log, id)
                || Waits(w.hub.subscribers[k], w.published, id)
                || (id == |w.published| && Owes(w.work, k))
                || NoticePending(w))
  {
    RunKeeps(capacity, actions);
    SessionHolds(Run(Begin(capacity), actions), PastOf(capacity, actions), id);
  }

  lemma {:induction false} SessionHolds(w: World, p: Past, id: nat)
    requires Inv(w, p) && w.client.session.Some? && p.since < id <= |w.published|
    ensures var k := w.client.session.value;
            && k in w.hub.subscribers
            && (|| Settled(w.client.log, id)
                || Waits(w.hub.subscribers[k], w.published, id)
                || (id == |w.published| && Owes(w.work, k))
                || NoticePending(w))
  {
    var k := w.client.session.value;
    if !NoticePending(w) {
      if w.client.position < id <= SentUpTo(w, k) {
        WaitsBetween(w.published, w.client.position, SentUpTo(w, k), w.hub.subscribers[k], id);
      } else if id <= w.client.position {
        assert !HasGap(p.since, w.client.position, w.client.log);
      }
    }
  }

  /** A client that is never cut off while its notice is pending misses nothing for good. */
  lemma {:induction false} ReadNoticesLeaveNoGap(capacity: int, actions: seq<Action>)
    requires forall j :: 0 <= j < |actions| && actions[j].Disconnects? ==>
               !NoticePending(Run(Begin(capacity), actions[..j]))
    ensures !PastOf(capacity, actions).abandoned
  {
    if actions != [] {
      var last := |actions| - 1;
      var rest := actions[..last];
      forall j | 0 <= j < |rest| && rest[j].Disconnects?
        ensures !NoticePending(Run(Begin(capacity), rest[..j]))
      {
        assert rest[..j] == actions[..j] && rest[j] == actions[j];
      }
      ReadNoticesLeaveNoGap(capacity, rest);
      assert actions[..last] == rest;
      GapIffAbandoned(capacity, rest);
    }
  }

  /** The replay buffer is the contiguous last `min(nextId, limit)` events, every channel is within
      its capacity, and `dropped` counts the subscribers forced to resync. */
  ghost predicate Contiguous(w: World) {
    && w.hub.nextId == |w.published|
    && |w.hub.replay| == Min(w.hub.nextId, w.hub.limit)
    && (forall n :: 0 <= n < |w.hub.replay| ==>
          var id := w.hub.nextId - |w.hub.replay| + n + 1; w.hub.replay[n] == Change(id, w.published[id - 1]))
    && w.hub.dropped == |w.forced|
    && (forall k :: k in w.hub.subscribers ==> |w.hub.subscribers[k].queue| <= w.hub.subscribers[k].capacity)
  }

  lemma {:induction false} HubIsContiguous(w: World)
    requires HubOk(w)
    ensures Contiguous(w)
  {
    BetweenAt(w.published, w.hub.nextId - |w.hub.replay|, w.hub.nextId);
    forall k | k in w.hub.subscribers
      ensures |w.hub.subscribers[k].queue| <= w.hub.subscribers[k].capacity
    {
      assert ChannelOk(w.hub.subscribers[k]);
    }
  }

  lemma {:induction false} LimitStays(capacity: int, actions: seq<Action>)
    ensures Run(Begin(capacity), actions).hub.limit == if capacity <= 0 then 1024 else capacity
  {
    if actions != [] {
      LimitStays(capacity, actions[..|actions| - 1]);
    }
  }

  /** That holds over every run, with the limit the hub was given, and the notice of a drain always
      finds room. */
  lemma {:induction false} ReplayIsContiguous(capacity: int, actions: seq<Action>)
    ensures var w := Run(Begin(capacity), actions);
            && Contiguous(w) && w.hub.limit == (if capacity <= 0 then 1024 else capacity)
            && (CanDrain(w) && !Discards(w) ==>
                  |w.hub.subscribers[w.work.target].queue| < w.hub.subscribers[w.work.target].capacity)
  {
    RunKeeps(capacity, actions);
    LimitStays(capacity, actions);
    var w := Run(Begin(capacity), actions);
    HubIsContiguous(w);
    if CanDrain(w) {
      assert ChannelOk(w.hub.subscribers[w.work.target]);
    }
  }
}
