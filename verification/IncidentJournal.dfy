/** The signal journal over runs: who may take a signal and when, when it is given up, and what is
    recorded of its evaluation. */
module IncidentJournal {
  import opened Basics
  import opened Debounce
  import opened IncidentModel
  import opened IncidentInvariants
  import opened IncidentRuns

  predicate Pending(db: Db, id: nat) {
    id < |db.signals| && db.signals[id].processedAt.None? && db.signals[id].deadLetteredAt.None?
  }

  /** A new signal waits to be claimed from its time on, with no attempt used; a source key that is
      already there adds nothing. */
  lemma {:induction false} AppendAddsOne(db: Db, e: Event)
    requires e.Append?
    ensures var next := Step(db, e);
            if exists j :: 0 <= j < |db.signals| && db.signals[j].sourceKey == e.sourceKey then next == db
            else
              && |next.signals| == |db.signals| + 1 && next == db.(signals := next.signals)
              && db.signals <= next.signals && Pending(next, |db.signals|)
              && var row := next.signals[|db.signals|];
                 && row.sourceKey == e.sourceKey && row.signal == e.signal && row.availableAt == e.availableAt
                 && row.claimedUntil.None? && row.attempts == 0
  {
    assert HasSource(db.signals, e.sourceKey) <==>
        exists j :: 0 <= j < |db.signals| && db.signals[j].sourceKey == e.sourceKey;
  }

  // ---------------------------------------------------------------------------
  // Leases
  // ---------------------------------------------------------------------------

  /** The transaction leases the signal to a worker. */
  predicate Leases(db: Db, e: Event, id: nat) {
    e.Claim? && e.claimed == id && id < |db.signals| && Step(db, e) != db
  }

  /** A claim takes a signal exactly when it is pending and available, its last lease is over and it
      has attempts left; it then counts one attempt and lasts for the lease. */
  lemma {:induction false} LeasesIff(db: Db, e: Event)
    requires e.Claim? && e.claimed < |db.signals|
    ensures var row, next := db.signals[e.claimed], Step(db, e).signals[e.claimed];
            && (Leases(db, e, e.claimed) <==>
                && Pending(db, e.claimed) && row.availableAt <= e.now && row.attempts < e.maxAttempts
                && (row.claimedUntil.Some? ==> row.claimedUntil.value <= e.now))
            && next == (if Leases(db, e, e.claimed)
                        then row.(claimedUntil := Some(e.now + e.lease), attempts := row.attempts + 1) else row)
  {
    var next := Step(db, e);
    assert next.signals[e.claimed].attempts == db.signals[e.claimed].attempts ==> next.signals == db.signals;
  }

  /** A failure leaves a settled signal alone; a pending one loses its lease, becomes available after
      the delay, and is given up exactly when it has used its attempts. */
  lemma {:induction false} FailureRetriesOrGivesUp(db: Db, e: Event)
    requires e.Fail? && e.failed < |db.signals|
    ensures var row, next := db.signals[e.failed], Step(db, e).signals[e.failed];
            if !Pending(db, e.failed) then Step(db, e) == db
            else
              && next.claimedUntil.None? && next.availableAt == e.now + Max(e.retryAfter, 0)
              && (next.deadLetteredAt.Some? <==> row.attempts >= e.maxAttempts)
              && (next.deadLetteredAt.Some? ==> next.deadLetteredAt.value == e.now)
              && next == row.(claimedUntil := None, availableAt := next.availableAt,
                              deadLetteredAt := next.deadLetteredAt)
  {
  }

  /** The transaction leases, fails or processes the signal. */
  predicate Handles(db: Db, e: Event, id: nat) {
    Leases(db, e, id) || (e.Fail? && e.failed == id) || (e.Process? && e.id == id)
  }

  lemma {:induction false} UnhandledStays(db: Db, e: Event, id: nat)
    requires id < |db.signals| && !Handles(db, e, id)
    ensures id < |Step(db, e).signals| && Step(db, e).signals[id] == db.signals[id]
  {
  }

  ghost predicate NobodyHandles(db: Db, events: seq<Event>, id: nat) {
    forall j :: 0 <= j < |events| ==> !Handles(Run(db, events[..j]), events[j], id)
  }

  lemma {:induction false} NobodyHandlesPrefix(db: Db, events: seq<Event>, id: nat)
    requires events != [] && NobodyHandles(db, events, id)
    ensures NobodyHandles(db, events[..|events| - 1], id)
    ensures !Handles(Run(db, events[..|events| - 1]), events[|events| - 1], id)
  {
    var rest := events[..|events| - 1];
    forall j | 0 <= j < |rest|
      ensures !Handles(Run(db, rest[..j]), rest[j], id)
    {
      assert rest[..j] == events[..j];
    }
  }

  lemma {:induction false} UnhandledRunStays(db: Db, events: seq<Event>, id: nat)
    requires id < |db.signals| && NobodyHandles(db, events, id)
    ensures id < |Run(db, events).signals| && Run(db, events).signals[id] == db.signals[id]
  {
    if events != [] {
      NobodyHandlesPrefix(db, events, id);
      UnhandledRunStays(db, events[..|events| - 1], id);
      UnhandledStays(Run(db, events[..|events| - 1]), events[|events| - 1], id);
    }
  }

  /** A leased signal is nobody else's until the lease is over, and a failed one until its delay has
      passed: the next worker to lease it, whatever happens in between, does so no earlier. */
  lemma {:induction false} LeaseIsExclusive(db: Db, first: Event, between: seq<Event>, next: Event, id: nat)
    requires Leases(db, first, id) || (first.Fail? && first.failed == id && Pending(db, id))
    requires NobodyHandles(Step(db, first), between, id) && Leases(Run(Step(db, first), between), next, id)
    ensures next.now >= first.now + if first.Claim? then first.lease else Max(first.retryAfter, 0)
  {
    if first.Claim? {
      LeasesIff(db, first);
    } else {
      FailureRetriesOrGivesUp(db, first);
    }
    UnhandledRunStays(Step(db, first), between, id);
    LeasesIff(Run(Step(db, first), between), next);
  }

  // ---------------------------------------------------------------------------
  // Giving up
  // ---------------------------------------------------------------------------

  /** The transaction reports the failure of a pending signal's last attempt. */
  predicate GivesUp(db: Db, e: Event, id: nat) {
    e.Fail? && e.failed == id && Pending(db, id) && db.signals[id].attempts >= e.maxAttempts
  }

  /** Some transaction of the run does. */
  predicate EverGaveUp(db: Db, events: seq<Event>, id: nat) {
    events != [] &&
    var rest, e := events[..|events| - 1], events[|events| - 1];
    EverGaveUp(db, rest, id) || GivesUp(Run(db, rest), e, id)
  }

  /** Some transaction of the run evaluates the signal. */
  predicate EverProcessed(db: Db, events: seq<Event>, id: nat) {
    events != [] &&
    var rest, e := events[..|events| - 1], events[|events| - 1];
    EverProcessed(db, rest, id) || TakesEffect(Run(db, rest), e, id)
  }

  lemma {:induction false} SettlingStep(db: Db, e: Event, id: nat)
    requires id < |db.signals|
    ensures id < |Step(db, e).signals|
    ensures var row, next := db.signals[id], Step(db, e).signals[id];
            && (next.deadLetteredAt.Some? <==> row.deadLetteredAt.Some? || GivesUp(db, e, id))
            && (next.processedAt.Some? <==> row.processedAt.Some? || TakesEffect(db, e, id))
  {
    if Handles(db, e, id) {
      match e
      case Claim(_, _, _, _) => LeasesIff(db, e);
      case Fail(_, _, _, _) => FailureRetriesOrGivesUp(db, e);
      case Process(_, _, _, _) => ProcessingSettles(db, e);
    } else {
      UnhandledStays(db, e, id);
    }
  }

  /** Processing a pending signal ends its lease and dates it, and changes nothing else in its row. */
  lemma {:induction false} ProcessingSettles(db: Db, e: Event)
    requires e.Process? && e.id < |db.signals|
    ensures var row, next := db.signals[e.id], Step(db, e).signals[e.id];
            && next == (if Pending(db, e.id) then row.(processedAt := Some(e.now), claimedUntil := None) else row)
            && |Step(db, e).signals| == |db.signals|
  {
  }

  lemma {:induction false} NewSignalIsPending(db: Db, e: Event, id: nat)
    requires |db.signals| <= id < |Step(db, e).signals|
    ensures Pending(Step(db, e), id) && !GivesUp(db, e, id) && !TakesEffect(db, e, id)
  {
  }

  /** Over every run a signal is dead-lettered exactly when the failure of its last attempt was
      reported while it was pending, and processed exactly when a worker evaluated it. */
  lemma {:induction false} SettledExactlyWhen(events: seq<Event>, id: nat)
    requires id < |Run(EMPTY, events).signals|
    ensures var row := Run(EMPTY, events).signals[id];
            && (row.deadLetteredAt.Some? <==> EverGaveUp(EMPTY, events, id))
            && (row.processedAt.Some? <==> EverProcessed(EMPTY, events, id))
  {
    var rest, e := events[..|events| - 1], events[|events| - 1];
    if id < |Run(EMPTY, rest).signals| {
      SettledExactlyWhen(rest, id);
      SettlingStep(Run(EMPTY, rest), e, id);
    } else {
      NewSignalIsPending(Run(EMPTY, rest), e, id);
      NothingBefore(rest, id);
    }
  }

  lemma {:induction false} NothingBefore(events: seq<Event>, id: nat)
    requires id >= |Run(EMPTY, events).signals|
    ensures !EverGaveUp(EMPTY, events, id) && !EverProcessed(EMPTY, events, id)
  {
    if events != [] {
      var rest, e := events[..|events| - 1], events[|events| - 1];
      if id < |Run(EMPTY, rest).signals| {
        SettlingStep(Run(EMPTY, rest), e, id);
      }
      NothingBefore(rest, id);
    }
  }

  // ---------------------------------------------------------------------------
  // Recorded outcomes
  // ---------------------------------------------------------------------------

  /** The outcome recorded for an evaluated signal says what became of it: no rule took it; it was
      too old for its rule state; maintenance was on; the incidents changed; or they did not, with or
      without a condition of the rule for its state. */
  ghost predicate Records(db: Db, e: Event, outcome: Outcome)
    requires e.Process? && e.id < |db.signals|
  {
    var signal := db.signals[e.id].signal;
    var old' := e.rule.Some? && Older(StateOf(db, KeyFor(e.rule.value, signal)).counters.lastAt, signal.occurredAt);
    var evaluated := e.rule.Some? && !old' && !e.maintenance;
    && (outcome.NoRule? <==> e.rule.None?)
    && (outcome.UnderMaintenance? <==> e.rule.Some? && !old' && e.maintenance)
    && (outcome.IncidentChanged? <==> Step(db, e).ledger != db.ledger)
    && (outcome.NoCondition? <==>
        evaluated && Step(db, e).ledger == db.ledger && signal.state !in e.rule.value.conditions)
    && (outcome.Debounced? <==>
        old' || (evaluated && Step(db, e).ledger == db.ledger && signal.state in e.rule.value.conditions))
  }

  lemma {:induction false} OutcomeIsRecorded(db: Db, e: Event)
    requires Inv(db) && e.Process? && Pending(db, e.id)
    ensures e.id in Step(db, e).evidence && Records(db, e, Step(db, e).evidence[e.id])
  {
    if e.rule.Some? {
      var signal := db.signals[e.id].signal;
      var s := Subject(e.id, signal, KeyFor(e.rule.value, signal));
      var state := StateOf(db, s.key);
      if !Older(state.counters.lastAt, signal.occurredAt) && !e.maintenance {
        ReadyFor(db, s);
        var v := Evaluate(e.rule.value, state.counters, signal.state, signal.occurredAt, e.now, false);
        ActHasEffect(db.ledger, state, v.decision, s, e.now);
      }
    }
  }

  lemma {:induction false} OutcomeStep(db: Db, e: Event, id: nat)
    requires JournalOk(db) && id in db.evidence
    ensures id in Step(db, e).evidence && Step(db, e).evidence[id] == db.evidence[id]
  {
  }

  lemma {:induction false} OutcomeAppears(db: Db, e: Event, id: nat)
    requires Inv(db) && id !in db.evidence && id in Step(db, e).evidence
    ensures e.Process? && e.id == id && Pending(db, id) && Records(db, e, Step(db, e).evidence[id])
  {
    assert e.Process? && e.id == id && Pending(db, id);
    OutcomeIsRecorded(db, e);
  }

  /** Over every run the recorded outcome of a signal is what became of it at its one evaluation. */
  lemma {:induction false} OutcomeTellsEvaluation(events: seq<Event>, id: nat) returns (j: nat)
    requires id in Run(EMPTY, events).evidence
    ensures j < |events| && events[j].Process? && events[j].id == id && Pending(Run(EMPTY, events[..j]), id)
    ensures Records(Run(EMPTY, events[..j]), events[j], Run(EMPTY, events).evidence[id])
  {
    EmptyIsValid();
    var rest, e := events[..|events| - 1], events[|events| - 1];
    var before := Run(EMPTY, rest);
    RunKeeps(EMPTY, rest);
    if id in before.evidence {
      j := OutcomeTellsEvaluation(rest, id);
      assert rest[..j] == events[..j] && rest[j] == events[j];
      OutcomeStep(before, e, id);
    } else {
      j := |rest|;
      assert events[..j] == rest;
      OutcomeAppears(before, e, id);
    }
  }
}
