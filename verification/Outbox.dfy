/** The notification outbox: intents claimed under a lease with a fresh token, bounded retries,
    takeover of expired claims and dead-lettering, for any number of workers.

    Times are nanoseconds; a stored time is truncated to whole microseconds. The sequence `issued`
    records every claim handed to a worker; the position of a claim in it is its token. A worker
    may complete a claim at any later time, however stale. */
module Outbox {
  import opened Basics

  datatype State = Queued | Attempting | Delivered | RetryWait | Failed | DeadLetter | Suppressed

  datatype Intent = Intent(
    event: Option<nat>,
    destination: nat,
    state: State,
    attemptCount: nat,
    availableAt: Time,
    claimedUntil: Option<Time>,
    claimToken: Option<nat>,
    deliveredAt: Option<Time>,
    terminalAt: Option<Time>,
    createdAt: Time,
    updatedAt: Time)

  datatype Outcome = DeliveredOutcome | RetryOutcome | FailedOutcome | DeadLetterOutcome

  /** A row of the append-only attempts table. */
  datatype Attempt = Attempt(intent: nat, number: nat, outcome: Outcome)

  /** What a worker holds after a claim. */
  datatype Claim = Claim(intent: nat, attempt: nat)

  datatype Db = Db(intents: seq<Intent>, attempts: seq<Attempt>, issued: seq<Claim>)

  const EMPTY := Db([], [], [])

  /** Worker options after `NewWorker` has put them in range. */
  datatype Options = Options(lease: int, maxAttempts: nat, maxRetryDelay: int)

  predicate InRange(o: Options) {
    o.lease > 0 && 1 <= o.maxAttempts <= 6 && o.maxRetryDelay > 0
  }

  const SECOND := 1_000_000_000

  function NormalizeOptions(lease: int, maxAttempts: int, maxRetryDelay: int): (o: Options)
    ensures InRange(o)
    ensures lease > 0 && 1 <= maxAttempts <= 6 && maxRetryDelay > 0 ==> o == Options(lease, maxAttempts, maxRetryDelay)
    ensures lease <= 0 ==> o.lease == 30_000_000_000
    ensures !(1 <= maxAttempts <= 6) ==> o.maxAttempts == 6
    ensures maxRetryDelay <= 0 ==> o.maxRetryDelay == 300_000_000_000
  {
    Options(if lease <= 0 then 30 * SECOND else lease,
            if maxAttempts <= 0 || maxAttempts > 6 then 6 else maxAttempts,
            if maxRetryDelay <= 0 then 300 * SECOND else maxRetryDelay)
  }

  // ---------------------------------------------------------------------------
  // Retry delays
  // ---------------------------------------------------------------------------

  function Backoff(attempt: int): int {
    SECOND * Pow2(if attempt <= 1 then 0 else Min(attempt - 1, 8))
  }

  /** The wait before jitter: the backoff or the requested delay, whichever is longer, capped. */
  function BaseDelay(attempt: int, retryAfter: int, o: Options): int {
    Min(Max(Backoff(attempt), retryAfter), o.maxRetryDelay)
  }

  /** `retryDelay`; `draw` is the random source, reduced to the range it is asked for. */
  function RetryDelay(attempt: int, retryAfter: int, draw: nat, o: Options): int {
    var delay := BaseDelay(attempt, retryAfter, o);
    Min(delay + draw % Max(1, delay / 4), o.maxRetryDelay)
  }

  /** Every retry waits at least the capped backoff or requested delay, at most a quarter more, and
      never above the cap. */
  lemma {:induction false} RetryDelayBounds(attempt: int, retryAfter: int, draw: nat, o: Options)
    requires InRange(o)
    ensures 0 < BaseDelay(attempt, retryAfter, o) <= RetryDelay(attempt, retryAfter, draw, o) <= o.maxRetryDelay
    ensures 4 * RetryDelay(attempt, retryAfter, draw, o) <= 5 * BaseDelay(attempt, retryAfter, o)
  {
    var delay := BaseDelay(attempt, retryAfter, o);
    var bound := Max(1, delay / 4);
    assert 0 <= draw % bound < bound;
  }

  /** Later attempts never wait less than earlier ones are guaranteed to. */
  lemma {:induction false} BackoffGrows(a: int, b: int)
    requires 1 <= a <= b
    ensures Backoff(a) <= Backoff(b)
  {
    Pow2Grows(Min(a - 1, 8), Min(b - 1, 8));
  }

  // ---------------------------------------------------------------------------
  // Transactions
  // ---------------------------------------------------------------------------

  predicate Terminal(state: State) {
    state.Delivered? || state.Failed? || state.DeadLetter? || state.Suppressed?
  }

  predicate HasIntent(intents: seq<Intent>, event: nat, destination: nat) {
    exists j :: 0 <= j < |intents| && intents[j].event == Some(event) && intents[j].destination == destination
  }

  function NewIntent(event: Option<nat>, destination: nat, silenced: bool, now: Time, availableAt: Time): Intent {
    Intent(event, destination, if silenced then Suppressed else Queued, 0, availableAt, None, None, None,
           if silenced then Some(now) else None, now, now)
  }

  /** `EnqueueIncidentEvent`: one intent per enabled destination, unless the pair exists. */
  function Enqueue(db: Db, event: nat, destinations: seq<nat>, silenced: bool, now: Time, availableAt: Time): Db {
    if destinations == [] then db
    else
      var last := |destinations| - 1;
      var before := Enqueue(db, event, destinations[..last], silenced, now, availableAt);
      if HasIntent(before.intents, event, destinations[last]) then before
      else before.(intents := before.intents + [NewIntent(Some(event), destinations[last], silenced, now, availableAt)])
  }

  /** A test delivery requested by an administrator. */
  function EnqueueTest(db: Db, destination: nat, now: Time, availableAt: Time): Db {
    db.(intents := db.intents + [NewIntent(None, destination, false, now, availableAt)])
  }

  predicate Claimable(row: Intent, now: Time, o: Options) {
    row.attemptCount < o.maxAttempts &&
    (((row.state.Queued? || row.state.RetryWait?) && row.availableAt <= now) ||
     (row.state.Attempting? && row.claimedUntil.Some? && row.claimedUntil.value <= now))
  }

  function ClaimedRow(row: Intent, token: nat, now: Time, o: Options): Intent {
    row.(state := Attempting, attemptCount := row.attemptCount + 1, claimToken := Some(token),
         claimedUntil := Some(now + o.lease), updatedAt := now)
  }

  /** `claim` of the row its query selected. */
  function ClaimIntent(db: Db, id: nat, now: Time, o: Options): Db {
    if id < |db.intents| && Claimable(db.intents[id], now, o) then
      var row := ClaimedRow(db.intents[id], |db.issued|, now, o);
      db.(intents := db.intents[id := row], issued := db.issued + [Claim(id, row.attemptCount)])
    else db
  }

  predicate Exhausted(row: Intent, now: Time, o: Options) {
    row.state.Attempting? && row.claimedUntil.Some? && row.claimedUntil.value <= now &&
      row.attemptCount >= o.maxAttempts
  }

  /** `deadLetterExpiredClaim` of the row its query selected. */
  function Sweep(db: Db, id: nat, now: Time, o: Options): Db {
    if id < |db.intents| && Exhausted(db.intents[id], now, o) then
      var row := db.intents[id];
      db.(intents := db.intents[id := row.(state := DeadLetter, claimedUntil := None, claimToken := None,
                                           terminalAt := Some(now), updatedAt := now)],
          attempts := db.attempts + [Attempt(id, row.attemptCount, DeadLetterOutcome)])
    else db
  }

  datatype Delivery = Delivery(delivered: bool, retryable: bool, retryAfter: int)

  datatype Verdict = Verdict(state: State, outcome: Outcome, availableAt: Time)

  /** The state a finished delivery leads to. */
  function Judge(attempt: nat, d: Delivery, completedAt: Time, draw: nat, o: Options): Verdict {
    if d.delivered then Verdict(Delivered, DeliveredOutcome, completedAt)
    else if d.retryable && attempt < o.maxAttempts then
      Verdict(RetryWait, RetryOutcome, Micro(completedAt + RetryDelay(attempt, d.retryAfter, draw, o)))
    else if d.retryable then Verdict(DeadLetter, DeadLetterOutcome, completedAt)
    else Verdict(Failed, FailedOutcome, completedAt)
  }

  function CompletedRow(row: Intent, v: Verdict, completedAt: Time): Intent {
    row.(state := v.state, availableAt := v.availableAt, claimedUntil := None, claimToken := None,
         deliveredAt := if v.state.Delivered? then Some(completedAt) else None,
         terminalAt := if v.state.RetryWait? then None else Some(completedAt), updatedAt := completedAt)
  }

  /** The claim with this token still owns its row. */
  predicate Holds(db: Db, token: nat) {
    token < |db.issued| && db.issued[token].intent < |db.intents| &&
    var row := db.intents[db.issued[token].intent];
    row.state.Attempting? && row.claimToken == Some(token) && row.attemptCount == db.issued[token].attempt
  }

  /** `complete`: only the current holder's claim changes anything. */
  function Complete(db: Db, token: nat, d: Delivery, clock: Time, draw: nat, o: Options): Db {
    if Holds(db, token) then
      var claim := db.issued[token];
      var completedAt := Micro(clock);
      var v := Judge(claim.attempt, d, completedAt, draw, o);
      db.(intents := db.intents[claim.intent := CompletedRow(db.intents[claim.intent], v, completedAt)],
          attempts := db.attempts + [Attempt(claim.intent, claim.attempt, v.outcome)])
    else db
  }

  // ---------------------------------------------------------------------------
  // The invariant
  // ---------------------------------------------------------------------------

  predicate IntentOk(issued: seq<Claim>, id: nat, row: Intent, o: Options) {
    && (row.state.Attempting? <==> row.claimToken.Some?)
    && (row.claimToken.Some? <==> row.claimedUntil.Some?)
    && (row.claimToken.Some? ==>
          row.claimToken.value < |issued| && issued[row.claimToken.value] == Claim(id, row.attemptCount))
    && row.attemptCount <= o.maxAttempts
    && (row.state.Queued? ==> row.attemptCount == 0)
    && (row.state.RetryWait? ==>
          && 1 <= row.attemptCount < o.maxAttempts
          && Micro(BaseDelay(row.attemptCount, 0, o)) <= row.availableAt - row.updatedAt <= o.maxRetryDelay)
    && (Terminal(row.state) <==> row.terminalAt.Some?)
    && (row.state.Delivered? <==> row.deliveredAt.Some?)
  }

  ghost predicate IntentsOk(db: Db, o: Options) {
    forall i :: 0 <= i < |db.intents| ==> IntentOk(db.issued, i, db.intents[i], o)
  }

  /** An attempt row records a finished attempt of its intent. */
  predicate AttemptOk(intents: seq<Intent>, a: Attempt) {
    && a.intent < |intents|
    && 1 <= a.number <= intents[a.intent].attemptCount
    && (intents[a.intent].state.Attempting? ==> a.number < intents[a.intent].attemptCount)
  }

  ghost predicate AttemptsOk(db: Db) {
    && (forall a :: 0 <= a < |db.attempts| ==> AttemptOk(db.intents, db.attempts[a]))
    && (forall a, b :: 0 <= a < b < |db.attempts| && db.attempts[a].intent == db.attempts[b].intent ==>
          db.attempts[a].number != db.attempts[b].number)
  }

  predicate ClaimOk(intents: seq<Intent>, c: Claim) {
    c.intent < |intents| && 1 <= c.attempt <= intents[c.intent].attemptCount
  }

  ghost predicate ClaimsOk(db: Db) {
    && (forall t :: 0 <= t < |db.issued| ==> ClaimOk(db.intents, db.issued[t]))
    && (forall s, t :: 0 <= s < t < |db.issued| && db.issued[s].intent == db.issued[t].intent ==>
          db.issued[s].attempt < db.issued[t].attempt)
  }

  /** One intent per event and destination. */
  ghost predicate PairsUnique(db: Db) {
    forall i, j ::
      0 <= i < j < |db.intents| && db.intents[i].event.Some? && db.intents[i].event == db.intents[j].event ==>
      db.intents[i].destination != db.intents[j].destination
  }

  ghost predicate Inv(db: Db, o: Options) {
    IntentsOk(db, o) && AttemptsOk(db) && ClaimsOk(db) && PairsUnique(db)
  }

  // ---------------------------------------------------------------------------
  // Preservation
  // ---------------------------------------------------------------------------

  lemma {:induction false} AddIntentKeeps(db: Db, row: Intent, o: Options)
    requires Inv(db, o) && InRange(o) && IntentOk(db.issued, |db.intents|, row, o)
    requires row.event.Some? ==> !HasIntent(db.intents, row.event.value, row.destination)
    ensures Inv(db.(intents := db.intents + [row]), o)
  {
    var next := db.(intents := db.intents + [row]);
    forall a | 0 <= a < |next.attempts|
      ensures AttemptOk(next.intents, next.attempts[a])
    {
      assert AttemptOk(db.intents, db.attempts[a]);
    }
    forall t | 0 <= t < |next.issued|
      ensures ClaimOk(next.intents, next.issued[t])
    {
      assert ClaimOk(db.intents, db.issued[t]);
    }
  }

  lemma {:induction false} EnqueueKeeps(
      db: Db, event: nat, destinations: seq<nat>, silenced: bool, now: Time, availableAt: Time, o: Options)
    requires Inv(db, o) && InRange(o)
    ensures Inv(Enqueue(db, event, destinations, silenced, now, availableAt), o)
    decreases |destinations|
  {
    if destinations != [] {
      var last := |destinations| - 1;
      EnqueueKeeps(db, event, destinations[..last], silenced, now, availableAt, o);
      var before := Enqueue(db, event, destinations[..last], silenced, now, availableAt);
      if !HasIntent(before.intents, event, destinations[last]) {
        AddIntentKeeps(before, NewIntent(Some(event), destinations[last], silenced, now, availableAt), o);
      }
    }
  }

  lemma {:induction false} ClaimKeeps(db: Db, id: nat, now: Time, o: Options)
    requires Inv(db, o) && InRange(o)
    ensures Inv(ClaimIntent(db, id, now, o), o)
  {
    var next := ClaimIntent(db, id, now, o);
    if id < |db.intents| && Claimable(db.intents[id], now, o) {
      forall i | 0 <= i < |next.intents|
        ensures IntentOk(next.issued, i, next.intents[i], o)
      {
        assert IntentOk(db.issued, i, db.intents[i], o);
      }
      forall a | 0 <= a < |next.attempts|
        ensures AttemptOk(next.intents, next.attempts[a])
      {
        assert AttemptOk(db.intents, db.attempts[a]);
      }
      forall t | 0 <= t < |next.issued|
        ensures ClaimOk(next.intents, next.issued[t])
      {
        if t < |db.issued| {
          assert ClaimOk(db.intents, db.issued[t]);
        }
      }
    }
  }

  /** Ending the current attempt of a row, with one attempt row, keeps the invariant. */
  lemma {:induction false} FinishKeeps(db: Db, id: nat, row: Intent, outcome: Outcome, o: Options)
    requires Inv(db, o) && id < |db.intents| && db.intents[id].state.Attempting? && !row.state.Attempting?
    requires IntentOk(db.issued, id, row, o) && row.attemptCount == db.intents[id].attemptCount
    requires row.event == db.intents[id].event && row.destination == db.intents[id].destination
    ensures Inv(db.(intents := db.intents[id := row],
                    attempts := db.attempts + [Attempt(id, row.attemptCount, outcome)]), o)
  {
    var next :=
      db.(intents := db.intents[id := row], attempts := db.attempts + [Attempt(id, row.attemptCount, outcome)]);
    assert IntentOk(db.issued, id, db.intents[id], o);
    assert ClaimOk(db.intents, db.issued[db.intents[id].claimToken.value]);
    forall i | 0 <= i < |next.intents|
      ensures IntentOk(next.issued, i, next.intents[i], o)
    {
      assert IntentOk(db.issued, i, db.intents[i], o);
    }
    forall a | 0 <= a < |next.attempts|
      ensures AttemptOk(next.intents, next.attempts[a])
      ensures a < |db.attempts| && db.attempts[a].intent == id ==> db.attempts[a].number < row.attemptCount
    {
      if a < |db.attempts| {
        assert AttemptOk(db.intents, db.attempts[a]);
      }
    }
    forall t | 0 <= t < |next.issued|
      ensures ClaimOk(next.intents, next.issued[t])
    {
      assert ClaimOk(db.intents, db.issued[t]);
    }
  }

  lemma {:induction false} SweepKeeps(db: Db, id: nat, now: Time, o: Options)
    requires Inv(db, o) && InRange(o)
    ensures Inv(Sweep(db, id, now, o), o)
  {
    if id < |db.intents| && Exhausted(db.intents[id], now, o) {
      assert IntentOk(db.issued, id, db.intents[id], o);
      FinishKeeps(db, id, Sweep(db, id, now, o).intents[id], DeadLetterOutcome, o);
    }
  }

  lemma {:induction false} MicroIsMonotone(a: Time, b: Time)
    requires a <= b
    ensures Micro(a) <= Micro(b)
  {
  }

  lemma {:induction false} MicroShifts(whole: Time, t: Time)
    requires whole % 1000 == 0
    ensures Micro(whole + t) == whole + Micro(t)
  {
    assert (whole + t) % 1000 == t % 1000;
  }

  /** A retry becomes available after the guaranteed wait and before the cap. */
  lemma {:induction false} JudgeWaits(attempt: nat, d: Delivery, completedAt: Time, draw: nat, o: Options)
    requires InRange(o) && completedAt % 1000 == 0 && Judge(attempt, d, completedAt, draw, o).state.RetryWait?
    ensures var wait := Judge(attempt, d, completedAt, draw, o).availableAt - completedAt;
            Micro(BaseDelay(attempt, d.retryAfter, o)) <= wait <= o.maxRetryDelay &&
            Micro(BaseDelay(attempt, 0, o)) <= wait
  {
    var delay, base, least :=
      RetryDelay(attempt, d.retryAfter, draw, o), BaseDelay(attempt, d.retryAfter, o), BaseDelay(attempt, 0, o);
    assert least <= base;
    assert base <= delay <= o.maxRetryDelay by {
      RetryDelayBounds(attempt, d.retryAfter, draw, o);
    }
    MicroShifts(completedAt, delay);
    MicroIsMonotone(least, base);
    MicroIsMonotone(base, delay);
  }

  lemma {:induction false} CompleteKeeps(db: Db, token: nat, d: Delivery, clock: Time, draw: nat, o: Options)
    requires Inv(db, o) && InRange(o)
    ensures Inv(Complete(db, token, d, clock, draw, o), o)
  {
    if Holds(db, token) {
      var claim := db.issued[token];
      var row := db.intents[claim.intent];
      assert IntentOk(db.issued, claim.intent, row, o);
      assert ClaimOk(db.intents, claim);
      var v := Judge(claim.attempt, d, Micro(clock), draw, o);
      if v.state.RetryWait? {
        JudgeWaits(claim.attempt, d, Micro(clock), draw, o);
      }
      FinishKeeps(db, claim.intent, CompletedRow(row, v, Micro(clock)), v.outcome, o);
    }
  }

  // ---------------------------------------------------------------------------
  // Runs
  // ---------------------------------------------------------------------------

  datatype Event =
    | Enqueued(event: nat, destinations: seq<nat>, silenced: bool, now: Time, availableAt: Time)
    | Tested(destination: nat, now: Time, availableAt: Time)
    | Claimed(id: nat, now: Time)
    | Swept(id: nat, now: Time)
    | Completed(token: nat, delivery: Delivery, clock: Time, draw: nat)

  function Step(db: Db, e: Event, o: Options): Db {
    match e
    case Enqueued(event, destinations, silenced, now, availableAt) =>
      Enqueue(db, event, destinations, silenced, now, availableAt)
    case Tested(destination, now, availableAt) => EnqueueTest(db, destination, now, availableAt)
    case Claimed(id, now) => ClaimIntent(db, id, now, o)
    case Swept(id, now) => Sweep(db, id, now, o)
    case Completed(token, delivery, clock, draw) => Complete(db, token, delivery, clock, draw, o)
  }

  function Run(db: Db, events: seq<Event>, o: Options): Db {
    if events == [] then db
    else Step(Run(db, events[..|events| - 1], o), events[|events| - 1], o)
  }

  lemma {:induction false} StepKeeps(db: Db, e: Event, o: Options)
    requires Inv(db, o) && InRange(o)
    ensures Inv(Step(db, e, o), o)
  {
    match e
    case Enqueued(event, destinations, silenced, now, availableAt) =>
      EnqueueKeeps(db, event, destinations, silenced, now, availableAt, o);
    case Tested(destination, now, availableAt) =>
      AddIntentKeeps(db, NewIntent(None, destination, false, now, availableAt), o);
    case Claimed(id, now) => ClaimKeeps(db, id, now, o);
    case Swept(id, now) => SweepKeeps(db, id, now, o);
    case Completed(token, delivery, clock, draw) => CompleteKeeps(db, token, delivery, clock, draw, o);
  }

  /** For any number of workers and any lease expiries the invariant holds. */
  lemma {:induction false} RunKeeps(db: Db, events: seq<Event>, o: Options)
    requires Inv(db, o) && InRange(o)
    ensures Inv(Run(db, events, o), o)
  {
    if events != [] {
      RunKeeps(db, events[..|events| - 1], o);
      StepKeeps(Run(db, events[..|events| - 1], o), events[|events| - 1], o);
    }
  }

  /** Over every run from an empty outbox: attempting means holding a token, attempt numbers are
      distinct and never above the count, and the count never exceeds the maximum. */
  lemma {:induction false} OutboxStaysConsistent(events: seq<Event>, o: Options)
    requires InRange(o)
    ensures var db := Run(EMPTY, events, o);
            && (forall i :: 0 <= i < |db.intents| ==>
                  (db.intents[i].state.Attempting? <==> db.intents[i].claimToken.Some?) &&
                    db.intents[i].attemptCount <= o.maxAttempts)
            && (forall a :: 0 <= a < |db.attempts| ==>
                  db.attempts[a].intent < |db.intents| &&
                    1 <= db.attempts[a].number <= db.intents[db.attempts[a].intent].attemptCount)
            && (forall a, b :: 0 <= a < b < |db.attempts| && db.attempts[a].intent == db.attempts[b].intent ==>
                  db.attempts[a].number != db.attempts[b].number)
            && PairsUnique(db)
  {
    RunKeeps(EMPTY, events, o);
    var db := Run(EMPTY, events, o);
    forall i | 0 <= i < |db.intents|
      ensures (db.intents[i].state.Attempting? <==> db.intents[i].claimToken.Some?) &&
                db.intents[i].attemptCount <= o.maxAttempts
    {
      assert IntentOk(db.issued, i, db.intents[i], o);
    }
    forall a | 0 <= a < |db.attempts|
      ensures db.attempts[a].intent < |db.intents| &&
                1 <= db.attempts[a].number <= db.intents[db.attempts[a].intent].attemptCount
    {
      assert AttemptOk(db.intents, db.attempts[a]);
    }
  }

  // ---------------------------------------------------------------------------
  // What one transaction does to one row
  // ---------------------------------------------------------------------------

  lemma {:induction false} EnqueueSpares(
      db: Db, event: nat, destinations: seq<nat>, silenced: bool, now: Time, availableAt: Time)
    ensures var next := Enqueue(db, event, destinations, silenced, now, availableAt);
            && db.intents <= next.intents && next.attempts == db.attempts && next.issued == db.issued
    decreases |destinations|
  {
    if destinations != [] {
      EnqueueSpares(db, event, destinations[..|destinations| - 1], silenced, now, availableAt);
    }
  }

  /** Distance of a row from a terminal state: two for each attempt left, one to be
      finished, and one more while an attempt is under way. */
  function Rank(row: Intent, o: Options): nat
    requires row.attemptCount <= o.maxAttempts
  {
    if Terminal(row.state) then 0
    else 2 * (o.maxAttempts - row.attemptCount) + (if row.state.Attempting? then 2 else 1)
  }

  predicate ClaimsRow(db: Db, e: Event, i: nat, o: Options) {
    e.Claimed? && e.id == i && i < |db.intents| && Claimable(db.intents[i], e.now, o)
  }

  /** A transaction leaves a row alone or brings it strictly closer to a terminal state; a terminal
      row never changes, and only a claim adds to the attempt count. */
  lemma {:induction false} RowStep(db: Db, e: Event, i: nat, o: Options)
    requires Inv(db, o) && InRange(o) && i < |db.intents|
    ensures i < |Step(db, e, o).intents|
    ensures Step(db, e, o).intents[i].attemptCount ==
              db.intents[i].attemptCount + (if ClaimsRow(db, e, i, o) then 1 else 0)
    ensures db.intents[i].attemptCount <= o.maxAttempts && Step(db, e, o).intents[i].attemptCount <= o.maxAttempts
    ensures Step(db, e, o).intents[i] == db.intents[i] || Rank(Step(db, e, o).intents[i], o) < Rank(db.intents[i], o)
  {
    assert IntentOk(db.issued, i, db.intents[i], o);
    if e.Enqueued? {
      EnqueueSpares(db, e.event, e.destinations, e.silenced, e.now, e.availableAt);
      assert Step(db, e, o).intents[i] == db.intents[i];
    }
  }

  function Changes(db: Db, events: seq<Event>, i: nat, o: Options): nat {
    if events == [] then 0
    else
      var rest := events[..|events| - 1];
      var before, after := Run(db, rest, o), Run(db, events, o);
      Changes(db, rest, i, o) +
      (if i < |before.intents| && i < |after.intents| && before.intents[i] != after.intents[i] then 1 else 0)
  }

  function Claims(db: Db, events: seq<Event>, i: nat, o: Options): nat {
    if events == [] then 0
    else
      var rest := events[..|events| - 1];
      Claims(db, rest, i, o) + if ClaimsRow(Run(db, rest, o), events[|events| - 1], i, o) then 1 else 0
  }

  /** Every change spends rank: a run changes an intent at most `Rank` times, claims it at most
      `maxAttempts` times in all, and an intent that spent its rank is terminal. */
  lemma {:induction false} RunsSpendRank(db: Db, events: seq<Event>, i: nat, o: Options)
    requires Inv(db, o) && InRange(o) && i < |db.intents|
    ensures i < |Run(db, events, o).intents|
    ensures var row, last := db.intents[i], Run(db, events, o).intents[i];
            && row.attemptCount <= o.maxAttempts && last.attemptCount <= o.maxAttempts
            && Changes(db, events, i, o) + Rank(last, o) <= Rank(row, o)
            && last.attemptCount == row.attemptCount + Claims(db, events, i, o)
            && (Changes(db, events, i, o) >= Rank(row, o) ==> Terminal(last.state))
            && (Terminal(row.state) ==> last == row)
  {
    assert IntentOk(db.issued, i, db.intents[i], o);
    if events != [] {
      var rest := events[..|events| - 1];
      RunsSpendRank(db, rest, i, o);
      RunKeeps(db, rest, o);
      RowStep(Run(db, rest, o), events[|events| - 1], i, o);
    }
  }

  /** No intent is stuck: from some instant on, a claim or the dead-letter step is enabled for it
      until it becomes terminal. */
  lemma {:induction false} NeverStuck(events: seq<Event>, i: nat, o: Options)
    requires InRange(o) && i < |Run(EMPTY, events, o).intents| && !Terminal(Run(EMPTY, events, o).intents[i].state)
    ensures var row := Run(EMPTY, events, o).intents[i];
            var ready := if row.claimedUntil.Some? then row.claimedUntil.value else row.availableAt;
            forall now :: now >= ready ==> Claimable(row, now, o) || Exhausted(row, now, o)
  {
    RunKeeps(EMPTY, events, o);
    var db := Run(EMPTY, events, o);
    assert IntentOk(db.issued, i, db.intents[i], o);
  }

  // ---------------------------------------------------------------------------
  // Retries wait
  // ---------------------------------------------------------------------------

  lemma {:induction false} RetryStays(db: Db, e: Event, i: nat, o: Options)
    requires i < |db.intents| && db.intents[i].state.RetryWait? && db.intents[i].claimToken.None?
    ensures i < |Step(db, e, o).intents|
    ensures ClaimsRow(db, e, i, o) || Step(db, e, o).intents[i] == db.intents[i]
  {
    if e.Enqueued? {
      EnqueueSpares(db, e.event, e.destinations, e.silenced, e.now, e.availableAt);
    }
  }

  /** A waiting intent stays as it is until it is claimed, and that is not before it is available. */
  lemma {:induction false} RetryWaitsOut(db: Db, events: seq<Event>, i: nat, o: Options)
    requires i < |db.intents| && db.intents[i].state.RetryWait? && db.intents[i].claimToken.None?
    requires Claims(db, events, i, o) == 0
    ensures i < |Run(db, events, o).intents| && Run(db, events, o).intents[i] == db.intents[i]
  {
    if events != [] {
      var rest := events[..|events| - 1];
      RetryWaitsOut(db, rest, i, o);
      RetryStays(Run(db, rest, o), events[|events| - 1], i, o);
    }
  }

  /** Over every run: when a delivery fails for now, the intent's next claim, whatever happens in
      between and whichever worker makes it, comes no earlier than the completion plus the back-off
      or the delay the endpoint asked for, whichever is longer, capped and in whole microseconds. */
  lemma {:induction false} NextClaimWaits(
      before: seq<Event>, token: nat, d: Delivery, clock: Time, draw: nat, between: seq<Event>, now: Time, o: Options)
    requires InRange(o) && Holds(Run(EMPTY, before, o), token)
    requires var claim := Run(EMPTY, before, o).issued[token];
             && Judge(claim.attempt, d, Micro(clock), draw, o).state.RetryWait?
             && var failed := Complete(Run(EMPTY, before, o), token, d, clock, draw, o);
                && Claims(failed, between, claim.intent, o) == 0
                && ClaimsRow(Run(failed, between, o), Claimed(claim.intent, now), claim.intent, o)
    ensures now >= Micro(clock) + Micro(BaseDelay(Run(EMPTY, before, o).issued[token].attempt, d.retryAfter, o))
  {
    var db := Run(EMPTY, before, o);
    var claim := db.issued[token];
    var failed := Complete(db, token, d, clock, draw, o);
    JudgeWaits(claim.attempt, d, Micro(clock), draw, o);
    RetryWaitsOut(failed, between, claim.intent, o);
  }

  // ---------------------------------------------------------------------------
  // Stale claims
  // ---------------------------------------------------------------------------

  /** A claim that lost its row. */
  predicate Lost(db: Db, token: nat) {
    token < |db.issued| && db.issued[token].intent < |db.intents| &&
    db.intents[db.issued[token].intent].claimToken != Some(token)
  }

  lemma {:induction false} LostStays(db: Db, e: Event, token: nat, o: Options)
    requires Lost(db, token)
    ensures Lost(Step(db, e, o), token) && db.issued <= Step(db, e, o).issued
  {
    if e.Enqueued? {
      EnqueueSpares(db, e.event, e.destinations, e.silenced, e.now, e.availableAt);
    }
  }

  /** A worker whose claim was taken over, completed or swept changes nothing, now or ever after. */
  lemma {:induction false} StaleClaimIsPowerless(
      db: Db, events: seq<Event>, token: nat, d: Delivery, clock: Time, draw: nat, o: Options)
    requires Lost(db, token)
    ensures Lost(Run(db, events, o), token)
    ensures Complete(Run(db, events, o), token, d, clock, draw, o) == Run(db, events, o)
  {
    if events != [] {
      StaleClaimIsPowerless(db, events[..|events| - 1], token, d, clock, draw, o);
      LostStays(Run(db, events[..|events| - 1], o), events[|events| - 1], token, o);
    }
  }

  /** A takeover loses every earlier claim on the row, and completing loses the claim itself. */
  lemma {:induction false} TakeoverLosesClaims(db: Db, id: nat, now: Time, token: nat, o: Options)
    requires Inv(db, o) && id < |db.intents| && Claimable(db.intents[id], now, o)
    requires token < |db.issued| && db.issued[token].intent == id
    ensures Lost(ClaimIntent(db, id, now, o), token)
  {
  }

  lemma {:induction false} CompletionLosesClaim(db: Db, token: nat, d: Delivery, clock: Time, draw: nat, o: Options)
    requires Holds(db, token)
    ensures Lost(Complete(db, token, d, clock, draw, o), token)
    ensures |Complete(db, token, d, clock, draw, o).attempts| == |db.attempts| + 1
  {
  }

  function Recorded(db: Db, events: seq<Event>, token: nat, o: Options): nat {
    if events == [] then 0
    else
      var rest := events[..|events| - 1];
      var e := events[|events| - 1];
      Recorded(db, rest, token, o) + if e.Completed? && e.token == token && Holds(Run(db, rest, o), token) then 1 else 0
  }

  /** Each claim records its result at most once, however often it is completed. */
  lemma {:induction false} ClaimRecordsOnce(db: Db, events: seq<Event>, token: nat, o: Options)
    requires Inv(db, o) && InRange(o)
    ensures Recorded(db, events, token, o) <= 1
    ensures Recorded(db, events, token, o) == 1 ==> Lost(Run(db, events, o), token)
  {
    if events != [] {
      var rest := events[..|events| - 1];
      var before, e := Run(db, rest, o), events[|events| - 1];
      ClaimRecordsOnce(db, rest, token, o);
      if Recorded(db, rest, token, o) == 1 {
        LostStays(before, e, token, o);
      } else if e.Completed? && e.token == token && Holds(before, token) {
        CompletionLosesClaim(before, token, e.delivery, e.clock, e.draw, o);
      }
    }
  }

  // ---------------------------------------------------------------------------
  // Enqueueing
  // ---------------------------------------------------------------------------

  lemma {:induction false} EnqueueCovers(
      db: Db, event: nat, destinations: seq<nat>, silenced: bool, now: Time, availableAt: Time)
    ensures forall d :: d in destinations ==>
              HasIntent(Enqueue(db, event, destinations, silenced, now, availableAt).intents, event, d)
    decreases |destinations|
  {
    if destinations != [] {
      var last := |destinations| - 1;
      var before := Enqueue(db, event, destinations[..last], silenced, now, availableAt);
      var after := Enqueue(db, event, destinations, silenced, now, availableAt);
      EnqueueCovers(db, event, destinations[..last], silenced, now, availableAt);
      forall d | d in destinations
        ensures HasIntent(after.intents, event, d)
      {
        if d in destinations[..last] {
          assert HasIntent(before.intents, event, d);
          var j :| 0 <= j < |before.intents| && before.intents[j].event == Some(event) &&
            before.intents[j].destination == d;
          assert after.intents[j] == before.intents[j];
        } else if !HasIntent(before.intents, event, d) {
          assert after.intents[|before.intents|].destination == d;
        }
      }
    }
  }

  /** Enqueueing the same event again, for destinations that are already covered, adds nothing. */
  lemma {:induction false} EnqueueTwiceAddsNothing(
      db: Db, event: nat, destinations: seq<nat>, silenced: bool, now: Time, availableAt: Time)
    requires forall d :: d in destinations ==> HasIntent(db.intents, event, d)
    ensures Enqueue(db, event, destinations, silenced, now, availableAt) == db
    decreases |destinations|
  {
    if destinations != [] {
      EnqueueTwiceAddsNothing(db, event, destinations[..|destinations| - 1], silenced, now, availableAt);
    }
  }
}
