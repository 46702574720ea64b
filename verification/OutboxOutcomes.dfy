/** What became of a notification: how a delivery's result decides the intent and its attempt row,
    when each terminal state is reached over whole runs, and who may claim an intent when. */
module OutboxOutcomes {
  import opened Basics
  import opened Outbox

  // ---------------------------------------------------------------------------
  // One completion
  // ---------------------------------------------------------------------------

  /** The state an attempt's result calls for. */
  predicate Calls(state: State, d: Delivery, attempt: nat, o: Options) {
    match state
    case Delivered => d.delivered
    case RetryWait => !d.delivered && d.retryable && attempt < o.maxAttempts
    case DeadLetter => !d.delivered && d.retryable && attempt >= o.maxAttempts
    case Failed => !d.delivered && !d.retryable
    case _ => false
  }

  predicate Matches(outcome: Outcome, state: State) {
    match outcome
    case DeliveredOutcome => state.Delivered?
    case RetryOutcome => state.RetryWait?
    case FailedOutcome => state.Failed?
    case DeadLetterOutcome => state.DeadLetter?
  }

  /** The shortest wait before the next attempt: one second, doubled for each attempt before this one
      but at most eight times, or the delay the endpoint asked for if it is longer, capped. */
  function LeastWait(attempt: nat, retryAfter: int, o: Options): int {
    Min(Max(1_000_000_000 * Pow2(if attempt <= 1 then 0 else Min(attempt - 1, 8)), retryAfter), o.maxRetryDelay)
  }

  /** The random part of a wait: every draw below a quarter of the shortest wait is added to it in
      full, up to the cap, so retries are spread evenly; and no wait is longer. */
  lemma {:induction false} WaitsAreSpread(attempt: nat, retryAfter: int, draw: nat, o: Options)
    requires InRange(o)
    ensures var least, wait := LeastWait(attempt, retryAfter, o), RetryDelay(attempt, retryAfter, draw, o);
            && 0 < least <= wait < least + Max(1, least / 4)
            && (draw < Max(1, least / 4) ==> wait == Min(least + draw, o.maxRetryDelay))
  {
    var least := LeastWait(attempt, retryAfter, o);
    assert least == BaseDelay(attempt, retryAfter, o);
    RetryDelayBounds(attempt, retryAfter, draw, o);
    Reduced(draw, Max(1, least / 4));
  }

  lemma {:induction false} Reduced(draw: nat, bound: nat)
    requires bound > 0
    ensures 0 <= draw % bound < bound
    ensures draw < bound ==> draw % bound == draw
  {
  }

  /** A completed intent: in the state the result calls for, released, with the times of that state. */
  predicate CompletedBy(row: Intent, next: Intent, d: Delivery, attempt: nat, at: Time, o: Options) {
    && Calls(next.state, d, attempt, o)
    && next.claimToken.None? && next.claimedUntil.None? && next.updatedAt == at
    && next.deliveredAt == (if d.delivered then Some(at) else None)
    && next.terminalAt == (if next.state.RetryWait? then None else Some(at))
    && (if next.state.RetryWait?
        then Micro(LeastWait(attempt, d.retryAfter, o)) <= next.availableAt - at <= o.maxRetryDelay
        else next.availableAt == at)
    && next == row.(state := next.state, availableAt := next.availableAt, claimToken := None, claimedUntil := None,
                    deliveredAt := next.deliveredAt, terminalAt := next.terminalAt, updatedAt := at)
  }

  /** The holder's completion puts its intent into the one state the delivery calls for, and records
      one attempt with the outcome of that state; nothing else changes. */
  lemma {:induction false} DeliveryDecides(db: Db, token: nat, d: Delivery, clock: Time, draw: nat, o: Options)
    requires InRange(o) && Holds(db, token)
    ensures var next := Complete(db, token, d, clock, draw, o);
            var claim := db.issued[token];
            && CompletedBy(db.intents[claim.intent], next.intents[claim.intent], d, claim.attempt, Micro(clock), o)
            && |next.attempts| == |db.attempts| + 1
            && var last := next.attempts[|db.attempts|];
               && Matches(last.outcome, next.intents[claim.intent].state)
               && next == Db(db.intents[claim.intent := next.intents[claim.intent]],
                             db.attempts + [Attempt(claim.intent, claim.attempt, last.outcome)], db.issued)
  {
    var attempt := db.issued[token].attempt;
    if !d.delivered && d.retryable && attempt < o.maxAttempts {
      JudgeWaits(attempt, d, Micro(clock), draw, o);
    }
  }

  // ---------------------------------------------------------------------------
  // Terminal states over runs
  // ---------------------------------------------------------------------------

  /** The transaction is the completion of the intent's current claim, by its holder. */
  predicate HolderCompletes(db: Db, e: Event, i: nat) {
    e.Completed? && Holds(db, e.token) && db.issued[e.token].intent == i
  }

  /** What puts an intent into a terminal state: a completion by its holder, the sweep of an expired
      last claim, or being enqueued under a silence. */
  predicate Ends(state: State, db: Db, e: Event, i: nat, o: Options) {
    || (HolderCompletes(db, e, i) && !state.RetryWait? && Calls(state, e.delivery, db.issued[e.token].attempt, o))
    || (state.DeadLetter? && e.Swept? && e.id == i && i < |db.intents| && db.intents[i].state.Attempting? &&
        db.intents[i].attemptCount >= o.maxAttempts && db.intents[i].claimedUntil.Some? &&
        db.intents[i].claimedUntil.value <= e.now)
    || (state.Suppressed? && e.Enqueued? && e.silenced && |db.intents| <= i < |Step(db, e, o).intents|)
  }

  /** Some transaction of the run does. */
  predicate EverEnds(state: State, events: seq<Event>, i: nat, o: Options) {
    events != [] &&
    var rest, e := events[..|events| - 1], events[|events| - 1];
    EverEnds(state, rest, i, o) || Ends(state, Run(EMPTY, rest, o), e, i, o)
  }

  lemma {:induction false} EndingStep(state: State, events: seq<Event>, i: nat, o: Options) returns (j: nat)
    requires EverEnds(state, events, i, o)
    ensures j < |events| && Ends(state, Run(EMPTY, events[..j], o), events[j], i, o)
  {
    var rest := events[..|events| - 1];
    if EverEnds(state, rest, i, o) {
      j := EndingStep(state, rest, i, o);
      assert rest[..j] == events[..j];
    } else {
      j := |rest|;
    }
  }

  lemma {:induction false} EndedOnce(state: State, events: seq<Event>, i: nat, o: Options, j: nat)
    requires j < |events| && Ends(state, Run(EMPTY, events[..j], o), events[j], i, o)
    ensures EverEnds(state, events, i, o)
  {
    if j < |events| - 1 {
      assert events[..|events| - 1][..j] == events[..j];
      EndedOnce(state, events[..|events| - 1], i, o, j);
    }
  }

  /** A new intent waits to be claimed, or is suppressed for good exactly under a silence. */
  predicate NewlyQueued(row: Intent, silenced: bool, now: Time, availableAt: Time) {
    && row.state == (if silenced then Suppressed else Queued)
    && row.terminalAt == (if silenced then Some(now) else None)
    && row.attemptCount == 0 && row.claimToken.None? && row.claimedUntil.None? && row.deliveredAt.None?
    && row.availableAt == availableAt && row.createdAt == now && row.updatedAt == now
  }

  lemma {:induction false} EnqueuedAreNew(
      db: Db, event: nat, destinations: seq<nat>, silenced: bool, now: Time, availableAt: Time)
    ensures var next := Enqueue(db, event, destinations, silenced, now, availableAt);
            && db.intents <= next.intents && next.attempts == db.attempts && next.issued == db.issued
            && (forall i :: |db.intents| <= i < |next.intents| ==>
                  && NewlyQueued(next.intents[i], silenced, now, availableAt)
                  && next.intents[i].event == Some(event) && next.intents[i].destination in destinations)
    decreases |destinations|
  {
    if destinations != [] {
      EnqueuedAreNew(db, event, destinations[..|destinations| - 1], silenced, now, availableAt);
    }
  }

  lemma {:induction false} EndStep(state: State, db: Db, e: Event, i: nat, o: Options)
    requires Inv(db, o) && InRange(o) && i < |db.intents| && Terminal(state)
    ensures i < |Step(db, e, o).intents|
    ensures Step(db, e, o).intents[i].state == state <==> db.intents[i].state == state || Ends(state, db, e, i, o)
  {
    assert IntentOk(db.issued, i, db.intents[i], o);
    match e
    case Enqueued(event, destinations, silenced, now, availableAt) =>
      EnqueuedAreNew(db, event, destinations, silenced, now, availableAt);
      assert Step(db, e, o).intents[i] == db.intents[i];
    case Tested(_, _, _) =>
    case Claimed(_, _) =>
    case Swept(_, _) =>
    case Completed(token, d, clock, draw) =>
      if Holds(db, token) {
        DeliveryDecides(db, token, d, clock, draw, o);
      }
  }

  lemma {:induction false} BirthStep(state: State, db: Db, e: Event, i: nat, o: Options)
    requires Inv(db, o) && InRange(o) && |db.intents| <= i < |Step(db, e, o).intents| && Terminal(state)
    ensures Step(db, e, o).intents[i].state == state <==> Ends(state, db, e, i, o)
  {
    match e
    case Enqueued(event, destinations, silenced, now, availableAt) =>
      EnqueuedAreNew(db, event, destinations, silenced, now, availableAt);
    case Tested(_, _, _) =>
    case Claimed(_, _) =>
    case Swept(_, _) =>
    case Completed(token, d, clock, draw) =>
      if Holds(db, token) {
        DeliveryDecides(db, token, d, clock, draw, o);
      }
  }

  lemma {:induction false} NotBornNotEnded(state: State, events: seq<Event>, i: nat, o: Options)
    requires InRange(o) && i >= |Run(EMPTY, events, o).intents|
    ensures !EverEnds(state, events, i, o)
  {
    if events != [] {
      var rest, e := events[..|events| - 1], events[|events| - 1];
      RunKeeps(EMPTY, rest, o);
      if i < |Run(EMPTY, rest, o).intents| {
        RowStep(Run(EMPTY, rest, o), e, i, o);
      }
      NotBornNotEnded(state, rest, i, o);
    }
  }

  /** Over every run an intent is in a terminal state exactly when something put it there. */
  lemma {:induction false} EndedExactlyWhen(state: State, events: seq<Event>, i: nat, o: Options)
    requires InRange(o) && Terminal(state) && i < |Run(EMPTY, events, o).intents|
    ensures Run(EMPTY, events, o).intents[i].state == state <==> EverEnds(state, events, i, o)
  {
    var rest, e := events[..|events| - 1], events[|events| - 1];
    var before := Run(EMPTY, rest, o);
    RunKeeps(EMPTY, rest, o);
    if i < |before.intents| {
      EndedExactlyWhen(state, rest, i, o);
      EndStep(state, before, e, i, o);
    } else {
      NotBornNotEnded(state, rest, i, o);
      BirthStep(state, before, e, i, o);
    }
  }

  /** The completion of the intent's claim, by its holder, reported a delivery. */
  predicate ReportsDelivery(db: Db, e: Event, i: nat) {
    HolderCompletes(db, e, i) && e.delivery.delivered
  }

  /** A notification is delivered exactly when some completion by its holder reported delivery. */
  lemma {:induction false} DeliveredIffReported(events: seq<Event>, i: nat, o: Options)
    requires InRange(o) && i < |Run(EMPTY, events, o).intents|
    ensures Run(EMPTY, events, o).intents[i].state.Delivered? <==>
            exists j :: 0 <= j < |events| && ReportsDelivery(Run(EMPTY, events[..j], o), events[j], i)
  {
    EndedExactlyWhen(Delivered, events, i, o);
    if EverEnds(Delivered, events, i, o) {
      var j := EndingStep(Delivered, events, i, o);
      assert ReportsDelivery(Run(EMPTY, events[..j], o), events[j], i);
    }
    forall j | 0 <= j < |events| && ReportsDelivery(Run(EMPTY, events[..j], o), events[j], i)
      ensures EverEnds(Delivered, events, i, o)
    {
      EndedOnce(Delivered, events, i, o, j);
    }
  }

  // ---------------------------------------------------------------------------
  // Claims
  // ---------------------------------------------------------------------------

  /** When an intent is free to be claimed: the end of its lease, or the time it becomes available. */
  function FreeAt(row: Intent): Time {
    if row.claimedUntil.Some? then row.claimedUntil.value else row.availableAt
  }

  /** A claim takes an intent exactly when the intent is not terminal, is free and has attempts left;
      it then counts one attempt and leases the intent under a token never used before. */
  lemma {:induction false} ClaimTakesIff(events: seq<Event>, i: nat, now: Time, o: Options)
    requires InRange(o) && i < |Run(EMPTY, events, o).intents|
    ensures var db := Run(EMPTY, events, o);
            var row, next := db.intents[i], ClaimIntent(db, i, now, o);
            if !Terminal(row.state) && FreeAt(row) <= now && row.attemptCount < o.maxAttempts then
              && next == Db(db.intents[i := next.intents[i]], db.attempts,
                            db.issued + [Claim(i, row.attemptCount + 1)])
              && next.intents[i] == row.(state := Attempting, attemptCount := row.attemptCount + 1,
                                         claimToken := Some(|db.issued|), claimedUntil := Some(now + o.lease),
                                         updatedAt := now)
            else next == db
  {
    RunKeeps(EMPTY, events, o);
    var db := Run(EMPTY, events, o);
    assert IntentOk(db.issued, i, db.intents[i], o);
  }

  /** A sweep gives an intent up exactly when its last claim has expired. */
  lemma {:induction false} SweepTakesIff(events: seq<Event>, i: nat, now: Time, o: Options)
    requires InRange(o) && i < |Run(EMPTY, events, o).intents|
    ensures var db := Run(EMPTY, events, o);
            var row, next := db.intents[i], Sweep(db, i, now, o);
            if row.state.Attempting? && FreeAt(row) <= now && row.attemptCount == o.maxAttempts then
              && next == Db(db.intents[i := next.intents[i]],
                            db.attempts + [Attempt(i, row.attemptCount, DeadLetterOutcome)], db.issued)
              && next.intents[i] == row.(state := DeadLetter, claimToken := None, claimedUntil := None,
                                         terminalAt := Some(now), updatedAt := now)
            else next == db
  {
    RunKeeps(EMPTY, events, o);
    var db := Run(EMPTY, events, o);
    assert IntentOk(db.issued, i, db.intents[i], o);
  }

  lemma {:induction false} HeldStep(db: Db, e: Event, token: nat, o: Options)
    requires Inv(db, o) && InRange(o) && Holds(db, token) && Holds(Step(db, e, o), token)
    ensures var i := db.issued[token].intent;
            i < |Step(db, e, o).intents| && Step(db, e, o).intents[i] == db.intents[i] &&
            token < |Step(db, e, o).issued| && Step(db, e, o).issued[token] == db.issued[token]
  {
    if e.Enqueued? {
      EnqueueSpares(db, e.event, e.destinations, e.silenced, e.now, e.availableAt);
    }
  }

  lemma {:induction false} HeldAlong(db: Db, events: seq<Event>, token: nat, o: Options)
    requires Inv(db, o) && InRange(o) && Holds(db, token) && Holds(Run(db, events, o), token)
    ensures var i := db.issued[token].intent;
            && i < |Run(db, events, o).intents| && Run(db, events, o).intents[i] == db.intents[i]
            && token < |Run(db, events, o).issued| && Run(db, events, o).issued[token] == db.issued[token]
  {
    if events != [] {
      var rest := events[..|events| - 1];
      RunKeeps(db, rest, o);
      if !Holds(Run(db, rest, o), token) {
        HeldBefore(db, rest, events[|events| - 1], token, o);
      }
      HeldAlong(db, rest, token, o);
      HeldStep(Run(db, rest, o), events[|events| - 1], token, o);
    }
  }

  /** A claim once lost is not regained, so a claim that holds has held all along. */
  lemma {:induction false} HeldBefore(db: Db, events: seq<Event>, e: Event, token: nat, o: Options)
    requires Inv(db, o) && InRange(o) && Holds(db, token) && Holds(Step(Run(db, events, o), e, o), token)
    ensures Holds(Run(db, events, o), token)
  {
    IssuedStay(db, events, token, o);
    RunKeeps(db, events, o);
    var before := Run(db, events, o);
    var i := before.issued[token].intent;
    assert ClaimOk(before.intents, before.issued[token]);
    assert IntentOk(before.issued, i, before.intents[i], o);
    if Lost(before, token) {
      LostStays(before, e, token, o);
    }
  }

  lemma {:induction false} IssuedStay(db: Db, events: seq<Event>, token: nat, o: Options)
    requires token < |db.issued|
    ensures token < |Run(db, events, o).issued| && Run(db, events, o).issued[token] == db.issued[token]
  {
    if events != [] {
      IssuedStay(db, events[..|events| - 1], token, o);
      var e := events[|events| - 1];
      if e.Enqueued? {
        EnqueueSpares(Run(db, events[..|events| - 1], o), e.event, e.destinations, e.silenced, e.now, e.availableAt);
      }
    }
  }

  /** A lease is exclusive: while a claim made at `at` still holds its intent, whatever the other
      workers do, neither a second claim nor the sweep can take the intent before `at` plus the lease. */
  lemma {:induction false} LeaseIsExclusive(
      before: seq<Event>, i: nat, at: Time, between: seq<Event>, now: Time, o: Options)
    requires InRange(o) && ClaimsRow(Run(EMPTY, before, o), Claimed(i, at), i, o)
    requires var claimed := ClaimIntent(Run(EMPTY, before, o), i, at, o);
             && Holds(Run(claimed, between, o), |Run(EMPTY, before, o).issued|)
             && (ClaimIntent(Run(claimed, between, o), i, now, o) != Run(claimed, between, o) ||
                 Sweep(Run(claimed, between, o), i, now, o) != Run(claimed, between, o))
    ensures now >= at + o.lease
  {
    var db := Run(EMPTY, before, o);
    var claimed := ClaimIntent(db, i, at, o);
    RunKeeps(EMPTY, before, o);
    ClaimKeeps(db, i, at, o);
    HeldAlong(claimed, between, |db.issued|, o);
  }
}
