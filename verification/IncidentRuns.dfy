/** Whole-run results of the incident engine: every statement is about every interleaving of
    signal, deadline, operator, journal and notification transactions. */
module IncidentRuns {
  import opened Basics
  import opened Debounce
  import opened IncidentModel
  import opened IncidentInvariants

  // ---------------------------------------------------------------------------
  // One unresolved incident per fingerprint
  // ---------------------------------------------------------------------------

  /** A rule state names an incident exactly when that incident has its key and is not resolved;
      so two unresolved incidents never share a fingerprint. */
  lemma {:induction false} OneUnresolvedPerKey(events: seq<Event>)
    ensures var db := Run(EMPTY, events);
            && (forall k, i :: 0 <= i < |db.ledger.incidents| && k in db.states ==>
                  (db.states[k].active == Some(i) <==>
                   db.ledger.incidents[i].key == k && !db.ledger.incidents[i].status.Resolved?))
            && (forall k :: k in db.states && db.states[k].active.Some? ==>
                  db.states[k].active.value < |db.ledger.incidents|)
            && (forall i, j |
                  0 <= i < j < |db.ledger.incidents| && db.ledger.incidents[i].key == db.ledger.incidents[j].key ::
                  db.ledger.incidents[i].status.Resolved? || db.ledger.incidents[j].status.Resolved?)
  {
    EmptyIsValid();
    RunKeeps(EMPTY, events);
    var db := Run(EMPTY, events);
    forall k, i | 0 <= i < |db.ledger.incidents| && k in db.states
      ensures db.states[k].active == Some(i) <==>
              db.ledger.incidents[i].key == k && !db.ledger.incidents[i].status.Resolved?
    {
      assert NamesActive(db.ledger, k, db.states[k]);
    }
    forall k | k in db.states && db.states[k].active.Some?
      ensures db.states[k].active.value < |db.ledger.incidents|
    {
      assert NamesActive(db.ledger, k, db.states[k]);
    }
  }

  /** The timeline replays to the current row of every incident: it starts with its only
      detection, chains phase to phase by legal transitions, and ends at the stored status and
      severity. The stored recovery and resolution times agree with that status. */
  lemma {:induction false} TimelineTellsEveryIncident(events: seq<Event>, i: nat)
    requires i < |Run(EMPTY, events).ledger.incidents|
    ensures var l := Run(EMPTY, events).ledger;
            && Replay(l.timeline, i) == Living(PhaseOf(l.incidents[i]))
            && (exists d :: 0 <= d < |l.timeline| && IsDetection(l.timeline[d], i))
            && (forall d, e ::
                  0 <= d < |l.timeline| && 0 <= e < |l.timeline| && IsDetection(l.timeline[d], i) &&
                    TellsOf(l.timeline[e], i) ==>
                                 d <= e && (l.timeline[e].kind.Detected? ==> d == e))
            && RowOk(l.incidents[i])
  {
    EmptyIsValid();
    RunKeeps(EMPTY, events);
    DetectedOnceAndFirst(Run(EMPTY, events).ledger.timeline, i);
  }

  // ---------------------------------------------------------------------------
  // Versions count writes, and resolution is final
  // ---------------------------------------------------------------------------

  lemma {:induction false} LedgerStepRow(l: Ledger, m: Ledger, i: nat)
    requires LedgerStep(l, m) && i < |l.incidents|
    ensures i < |m.incidents|
    ensures m.incidents[i].key == l.incidents[i].key
    ensures m.incidents[i] == l.incidents[i] || m.incidents[i].version == l.incidents[i].version + 1
    ensures l.incidents[i].status.Resolved? ==> m.incidents[i].status.Resolved?
  {
    if m == l {
    } else if j, next, entry :| WroteRow(l, m, j, next, entry) {
      if j == i && entry.Some? {
        assert Legal(entry.value.kind, PhaseOf(l.incidents[i]), PhaseOf(next));
      }
    } else if row, entry :| InsertedRow(l, m, row, entry) {
    } else {
    }
  }

  /** One transaction writes an incident row at most once, and its version counts that write. */
  lemma {:induction false} RowStep(db: Db, e: Event, i: nat)
    requires Inv(db) && i < |db.ledger.incidents|
    ensures i < |Step(db, e).ledger.incidents|
    ensures var row, next := db.ledger.incidents[i], Step(db, e).ledger.incidents[i];
            && next.key == row.key
            && (next == row || next.version == row.version + 1)
            && (row.status.Resolved? ==> next.status.Resolved?)
  {
    StepKeeps(db, e);
    LedgerStepRow(db.ledger, Step(db, e).ledger, i);
  }

  function Writes(db: Db, events: seq<Event>, i: nat): nat {
    if events == [] then 0
    else
      var rest := events[..|events| - 1];
      var before, after := Run(db, rest), Run(db, events);
      Writes(db, rest, i) +
      (if i < |before.ledger.incidents| && i < |after.ledger.incidents| &&
       before.ledger.incidents[i] != after.ledger.incidents[i]
       then 1 else 0)
  }

  /** Over any run the version of an incident grows by the number of transactions that wrote it,
      an unwritten incident is unchanged, and a resolved incident stays resolved. */
  lemma {:induction false} VersionCountsWrites(db: Db, events: seq<Event>, i: nat)
    requires Inv(db) && i < |db.ledger.incidents|
    ensures i < |Run(db, events).ledger.incidents|
    ensures var row, last := db.ledger.incidents[i], Run(db, events).ledger.incidents[i];
            && last.version == row.version + Writes(db, events, i)
            && last.key == row.key
            && (Writes(db, events, i) == 0 ==> last == row)
            && (row.status.Resolved? ==> last.status.Resolved?)
  {
    if events != [] {
      var rest := events[..|events| - 1];
      VersionCountsWrites(db, rest, i);
      RunKeeps(db, rest);
      RowStep(Run(db, rest), events[|events| - 1], i);
    }
  }

  predicate ByEvaluator(e: Event) {
    e.Process? || e.Due?
  }

  /** A ledger change that writes an unresolved incident or inserts a new one. */
  ghost predicate SparesResolved(l: Ledger, m: Ledger) {
    || m == l
    || (exists j: nat, next, entry :: WroteRow(l, m, j, next, entry) && !l.incidents[j].status.Resolved?)
    || (exists row, entry :: InsertedRow(l, m, row, entry))
  }

  lemma {:induction false} SparedRowIsUntouched(l: Ledger, m: Ledger, i: nat)
    requires SparesResolved(l, m) && i < |l.incidents| && l.incidents[i].status.Resolved?
    ensures i < |m.incidents| && m.incidents[i] == l.incidents[i]
    ensures forall d :: |l.timeline| <= d < |m.timeline| ==> m.timeline[d].incident != i
  {
    if m == l {
    } else if j: nat, next, entry :| WroteRow(l, m, j, next, entry) && !l.incidents[j].status.Resolved? {
    } else {
      var row, entry :| InsertedRow(l, m, row, entry);
    }
  }

  lemma {:induction false} EffectSparesResolved(l: Ledger, active: Option<nat>, s: Subject, acted: Acted)
    requires ActEffect(l, active, s, acted) && ReadyToAct(l, active, s)
    ensures SparesResolved(l, acted.ledger)
  {
  }

  lemma {:induction false} ProcessSparesResolved(db: Db, id: nat, rule: Option<Rule>, maintenance: bool, now: Time)
    requires Inv(db)
    ensures SparesResolved(db.ledger, ProcessSignal(db, id, rule, maintenance, now).ledger)
  {
    if ProcessSignal(db, id, rule, maintenance, now).ledger != db.ledger {
      var signal := db.signals[id].signal;
      var s := Subject(id, signal, KeyFor(rule.value, signal));
      var state := StateOf(db, s.key);
      ReadyFor(db, s);
      var v := Evaluate(rule.value, state.counters, signal.state, signal.occurredAt, now, false);
      ActHasEffect(db.ledger, state, v.decision, s, now);
      EffectSparesResolved(db.ledger, state.active, s, Act(db.ledger, state, v.decision, s, now));
    }
  }

  lemma {:induction false} DueSparesResolved(db: Db, key: Key, rule: Option<Rule>, maintenance: bool, now: Time)
    requires Inv(db)
    ensures SparesResolved(db.ledger, ProcessDue(db, key, rule, maintenance, now).ledger)
  {
    if ProcessDue(db, key, rule, maintenance, now).ledger != db.ledger {
      var state := db.states[key];
      assert RemembersSignal(db.signals, key, state);
      assert NamesActive(db.ledger, key, state);
      var signal := db.signals[state.lastSignal.value].signal;
      var s := Subject(state.lastSignal.value, signal, KeyFor(rule.value, signal));
      ReadyFor(db, s);
      var v := Evaluate(rule.value, state.counters, signal.state, signal.occurredAt, now, true);
      ActHasEffect(db.ledger, state, v.decision, s, now);
      EffectSparesResolved(db.ledger, state.active, s, Act(db.ledger, state, v.decision, s, now));
    }
  }

  /** The evaluator never writes a resolved incident, nor its timeline. */
  lemma {:induction false} EvaluatorSparesResolved(events: seq<Event>, e: Event, i: nat)
    requires ByEvaluator(e) && i < |Run(EMPTY, events).ledger.incidents|
    requires Run(EMPTY, events).ledger.incidents[i].status.Resolved?
    ensures var before, after := Run(EMPTY, events).ledger, Step(Run(EMPTY, events), e).ledger;
            && i < |after.incidents| && after.incidents[i] == before.incidents[i]
            && forall d :: |before.timeline| <= d < |after.timeline| ==> after.timeline[d].incident != i
  {
    EmptyIsValid();
    RunKeeps(EMPTY, events);
    var db := Run(EMPTY, events);
    if e.Process? {
      ProcessSparesResolved(db, e.id, e.rule, e.maintenance, e.now);
    } else {
      DueSparesResolved(db, e.key, e.rule, e.maintenance, e.now);
    }
    SparedRowIsUntouched(db.ledger, Step(db, e).ledger, i);
  }

  // ---------------------------------------------------------------------------
  // Optimistic concurrency and idempotent retries
  // ---------------------------------------------------------------------------

  /** A first-time request that names the version its caller read passes the version check exactly
      when no transaction wrote the incident in between; then the row is still the one that was read. */
  lemma {:induction false} VersionCheckDetectsWrites(
      db: Db, between: seq<Event>, m: Mutation, eligible: set<nat>, clock: Time)
    requires Inv(db) && m.incident < |db.ledger.incidents| &&
               m.expectedVersion == db.ledger.incidents[m.incident].version
    requires Validate(m).None? && ReceiptKeyOf(m) !in Run(db, between).receipts
    ensures var later := Run(db, between);
            var reply := Mutate(later, m, eligible, clock).1;
            && m.incident < |later.ledger.incidents|
            && (Writes(db, between, m.incident) > 0 <==> reply.Refused? && reply.error.VersionConflict?)
            && (reply.Done? ==> later.ledger.incidents[m.incident] == db.ledger.incidents[m.incident] &&
                                reply.result.version == m.expectedVersion + 1)
  {
    VersionCountsWrites(db, between, m.incident);
  }

  /** The entry kind an operator action is told with. */
  predicate TellsAction(kind: Kind, action: Action) {
    match action
    case Acknowledge => kind.AcknowledgedKind?
    case Investigate => kind.InvestigatingKind?
    case Assign => kind.Assigned?
    case AddNote => kind.NoteKind?
    case Resolve => kind.ResolvedKind?
  }

  /** What a committed operator action leaves of the incident: the status by a legal transition, the
      columns of its action, and nothing else; its time is the clock, moved past the last write. */
  ghost predicate CommittedRow(row: Incident, last: Incident, m: Mutation, eligible: set<nat>, clock: Time) {
    && last.version == row.version + 1
    && last.updatedAt == Max(clock, row.updatedAt + 1)
    && (if m.action.Assign? then last.owner == m.owner && last.owner.Some? && last.owner.value in eligible
        else last.owner == row.owner)
    && last.acknowledgedAt == (if m.action.Acknowledge? then Some(last.updatedAt) else row.acknowledgedAt)
    && last.resolvedAt == (if m.action.Resolve? then Some(last.updatedAt) else row.resolvedAt)
    && last == row.(status := last.status, version := last.version, updatedAt := last.updatedAt, owner := last.owner,
                    acknowledgedAt := last.acknowledgedAt, resolvedAt := last.resolvedAt)
  }

  /** What it leaves of the rule states: a resolution releases those that name the incident. */
  ghost predicate CommittedStates(before: map<Key, RuleState>, after: map<Key, RuleState>, m: Mutation) {
    && after.Keys == before.Keys
    && forall k :: k in before ==>
         && after[k] == before[k].(active := after[k].active)
         && after[k].active ==
              if m.action.Resolve? && before[k].active == Some(m.incident) then None else before[k].active
  }

  /** What a committed operator action leaves behind. */
  ghost predicate Committed(
      db: Db, next: Db, m: Mutation, result: MutationResult, eligible: set<nat>, clock: Time)
    requires m.incident < |db.ledger.incidents|
  {
    && |next.ledger.incidents| == |db.ledger.incidents| && |next.ledger.timeline| == |db.ledger.timeline| + 1
    && result.timelineEvent == |db.ledger.timeline| && db.ledger.timeline <= next.ledger.timeline
    && (forall j :: 0 <= j < |db.ledger.incidents| && j != m.incident ==>
          next.ledger.incidents[j] == db.ledger.incidents[j])
    && next.signals == db.signals && next.evidence == db.evidence
    && CommittedStates(db.states, next.states, m)
    && var row, last, entry :=
         db.ledger.incidents[m.incident], next.ledger.incidents[m.incident], next.ledger.timeline[result.timelineEvent];
       && CommittedRow(row, last, m, eligible, clock)
       && TellsAction(entry.kind, m.action) && Legal(entry.kind, PhaseOf(row), PhaseOf(last))
       && result ==
            MutationResult(m.incident, last.status, last.version, |db.ledger.timeline|, m.correlation, false)
       && entry == Entry(m.incident, entry.kind, Some(PhaseOf(row)), Some(PhaseOf(last)), None, Some(m.actor),
                         last.updatedAt)
  }

  /** A request commits exactly when it succeeds for the first time; a replayed or refused one
      changes nothing. */
  lemma {:induction false} MutationCommitsOrChangesNothing(db: Db, m: Mutation, eligible: set<nat>, clock: Time)
    ensures var (next, reply) := Mutate(db, m, eligible, clock);
            if reply.Done? && !reply.result.replayed then
              m.incident < |db.ledger.incidents| && Committed(db, next, m, reply.result, eligible, clock)
            else next == db
  {
    if Accepted(db, m, eligible, clock) {
      CommitLeaves(db, m, eligible, clock);
    }
  }

  lemma {:induction false} CommitLeaves(db: Db, m: Mutation, eligible: set<nat>, clock: Time)
    requires Accepted(db, m, eligible, clock)
    ensures var next := Commit(db, m, clock);
            Committed(db, next, m, ReplayOf(m, next.receipts[ReceiptKeyOf(m)]).(replayed := false), eligible, clock)
  {
  }

  /** A recovered incident can be resolved at the version it has exactly when its recovery is not
      dated after the resolution: `resolved_at >= recovered_at` is a constraint of the table. */
  lemma {:induction false} RecoveredResolvesIff(db: Db, m: Mutation, eligible: set<nat>, clock: Time)
    requires Inv(db) && m.action.Resolve? && Validate(m).None? && ReceiptKeyOf(m) !in db.receipts
    requires m.incident < |db.ledger.incidents|
    requires var row := db.ledger.incidents[m.incident]; row.status.Recovered? && row.version == m.expectedVersion
    ensures var row := db.ledger.incidents[m.incident];
            && row.recoveredAt.Some?
            && (Mutate(db, m, eligible, clock).1.Done? <==> row.recoveredAt.value <= Max(clock, row.updatedAt + 1))
            && (!Mutate(db, m, eligible, clock).1.Done? ==>
                  Mutate(db, m, eligible, clock) == (db, Refused(CheckViolation)))
  {
    assert RowOk(db.ledger.incidents[m.incident]);
  }

  lemma {:induction false} ReceiptStays(db: Db, events: seq<Event>, key: ReceiptKey)
    requires key in db.receipts
    ensures key in Run(db, events).receipts && Run(db, events).receipts[key] == db.receipts[key]
  {
    if events != [] {
      ReceiptStays(db, events[..|events| - 1], key);
    }
  }

  /** After a success, a retry under the same key at any later time changes nothing: it gets the
      same version, status and event if its payload is the same, and is refused if it is not. */
  lemma {:induction false} RetriesAgree(db: Db, first: Mutation, eligible: set<nat>, clock: Time, between: seq<Event>,
                     retry: Mutation, eligible': set<nat>, clock': Time)
    requires Mutate(db, first, eligible, clock).1.Done?
    requires ReceiptKeyOf(retry) == ReceiptKeyOf(first) && Validate(retry).None?
    ensures var (after, reply) := Mutate(db, first, eligible, clock);
            var later := Run(after, between);
            var (last, answer) := Mutate(later, retry, eligible', clock');
            && last == later
            && answer == if PayloadOf(retry) == PayloadOf(first) then Done(reply.result.(replayed := true))
                         else Refused(IdempotencyConflict)
  {
    ReceiptStays(Mutate(db, first, eligible, clock).0, between, ReceiptKeyOf(first));
  }

  predicate CommitsUnder(db: Db, e: Event, key: ReceiptKey) {
    e.Operate? && ReceiptKeyOf(e.mutation) == key && Accepted(db, e.mutation, e.eligible, e.clock)
  }

  function Commits(db: Db, events: seq<Event>, key: ReceiptKey): nat {
    if events == [] then 0
    else
      var rest := events[..|events| - 1];
      Commits(db, rest, key) + if CommitsUnder(Run(db, rest), events[|events| - 1], key) then 1 else 0
  }

  /** Each (actor, incident, action, key) commits at most once in a run, and exactly when a receipt exists. */
  lemma {:induction false} CommitsAtMostOnce(db: Db, events: seq<Event>, key: ReceiptKey)
    ensures Commits(db, events, key) <= 1
    ensures key in Run(db, events).receipts <==> key in db.receipts || Commits(db, events, key) == 1
    ensures key in db.receipts ==> Commits(db, events, key) == 0
  {
    if events != [] {
      var rest := events[..|events| - 1];
      CommitsAtMostOnce(db, rest, key);
      ReceiptAppearsOnCommit(Run(db, rest), events[|events| - 1], key);
    }
  }

  lemma {:induction false} ReceiptAppearsOnCommit(db: Db, e: Event, key: ReceiptKey)
    ensures key in Step(db, e).receipts <==> key in db.receipts || CommitsUnder(db, e, key)
  {
  }

  // ---------------------------------------------------------------------------
  // The signal journal
  // ---------------------------------------------------------------------------

  /** A settled signal row never changes again; processing it again changes nothing at all. */
  lemma {:induction false} SettledIsFinal(db: Db, e: Event, id: nat)
    requires id < |db.signals| && Settled(db.signals[id])
    ensures id < |Step(db, e).signals| && Step(db, e).signals[id] == db.signals[id]
    ensures e.Process? && e.id == id ==> Step(db, e) == db
  {
  }

  predicate TakesEffect(db: Db, e: Event, id: nat) {
    e.Process? && e.id == id && id < |db.signals| && !Settled(db.signals[id])
  }

  function Effects(db: Db, events: seq<Event>, id: nat): nat {
    if events == [] then 0
    else
      var rest := events[..|events| - 1];
      Effects(db, rest, id) + if TakesEffect(Run(db, rest), events[|events| - 1], id) then 1 else 0
  }

  predicate SignalSettled(db: Db, id: nat) {
    id < |db.signals| && Settled(db.signals[id])
  }

  /** Whatever claims expire and whichever workers run late, a signal is evaluated at most once. */
  lemma {:induction false} SignalTakesEffectOnce(db: Db, events: seq<Event>, id: nat)
    ensures Effects(db, events, id) <= 1
    ensures Effects(db, events, id) == 1 ==>
              SignalSettled(Run(db, events), id) && Run(db, events).signals[id].processedAt.Some?
    ensures SignalSettled(db, id) ==> Effects(db, events, id) == 0 && SignalSettled(Run(db, events), id) &&
                                      Run(db, events).signals[id] == db.signals[id]
  {
    if events != [] {
      var rest := events[..|events| - 1];
      var before, e := Run(db, rest), events[|events| - 1];
      SignalTakesEffectOnce(db, rest, id);
      if SignalSettled(before, id) {
        SettledIsFinal(before, e, id);
      } else if TakesEffect(before, e, id) {
        ProcessSettles(before, e);
      }
    }
  }

  lemma {:induction false} ProcessSettles(db: Db, e: Event)
    requires e.Process? && TakesEffect(db, e, e.id)
    ensures SignalSettled(Step(db, e), e.id) && Step(db, e).signals[e.id].processedAt.Some?
  {
  }

  /** Processed and dead-lettered exclude each other, and exactly the processed signals have an outcome. */
  lemma {:induction false} JournalStaysConsistent(events: seq<Event>)
    ensures var db := Run(EMPTY, events);
            && (forall j :: 0 <= j < |db.signals| ==>
                  !(db.signals[j].processedAt.Some? && db.signals[j].deadLetteredAt.Some?))
            && (forall j: nat :: j in db.evidence <==> j < |db.signals| && db.signals[j].processedAt.Some?)
            && (forall a, b :: 0 <= a < b < |db.signals| ==> db.signals[a].sourceKey != db.signals[b].sourceKey)
  {
    EmptyIsValid();
    RunKeeps(EMPTY, events);
  }

  ghost predicate ClaimsWith(events: seq<Event>, maxAttempts: nat) {
    forall j :: 0 <= j < |events| && events[j].Claim? ==> events[j].maxAttempts == maxAttempts
  }

  /** Attempts never exceed the maximum every claim uses. */
  lemma {:induction false} AttemptsAreBounded(events: seq<Event>, maxAttempts: nat)
    requires ClaimsWith(events, maxAttempts)
    ensures forall j :: 0 <= j < |Run(EMPTY, events).signals| ==> Run(EMPTY, events).signals[j].attempts <= maxAttempts
  {
    if events != [] {
      var last := |events| - 1;
      AttemptsAreBounded(events[..last], maxAttempts);
      AttemptsStep(Run(EMPTY, events[..last]), events[last], maxAttempts);
    }
  }

  lemma {:induction false} AttemptsStep(db: Db, e: Event, maxAttempts: nat)
    requires e.Claim? ==> e.maxAttempts == maxAttempts
    requires forall j :: 0 <= j < |db.signals| ==> db.signals[j].attempts <= maxAttempts
    ensures forall j :: 0 <= j < |Step(db, e).signals| ==> Step(db, e).signals[j].attempts <= maxAttempts
  {
  }

  // ---------------------------------------------------------------------------
  // Debouncing inside a run
  // ---------------------------------------------------------------------------

  /** The transaction treats the rule state at `k` with rule `r`. */
  predicate UsesRule(e: Event, k: Key, r: Rule) {
    match e
    case Process(_, rule, _, _) => rule.Some? && rule.value.id == k.rule ==> rule.value == r
    case Due(key, rule, _, _) => key == k ==> rule == Some(r)
    case _ => true
  }

  /** What a transaction feeds to the rule state at `k`. */
  function InputOf(db: Db, e: Event, k: Key): Option<Input> {
    match e
    case Process(id, rule, maintenance, now) =>
      if id < |db.signals| && !Settled(db.signals[id]) && rule.Some? &&
         KeyFor(rule.value, db.signals[id].signal) == k
      then
        var signal := db.signals[id].signal;
        Some(if maintenance then SuppressedIn(signal.occurredAt) else SignalIn(signal.state, signal.occurredAt, now))
      else None
    case Due(key, rule, maintenance, now) =>
      if key == k then Some(if maintenance then SuppressedDueIn(now) else DueIn(now)) else None
    case _ => None
  }

  function Inputs(db: Db, events: seq<Event>, k: Key): seq<Input> {
    if events == [] then []
    else
      var rest := events[..|events| - 1];
      var input := InputOf(Run(db, rest), events[|events| - 1], k);
      Inputs(db, rest, k) + if input.Some? then [input.value] else []
  }

  /** The row `next` follows from `before` by what the transaction feeds it. */
  predicate Follows(r: Rule, before: Counters, input: Option<Input>, next: Counters) {
    next == if input.None? then before else StreamStep(r, before, input.value).counters
  }

  lemma {:induction false} ProcessProjects(db: Db, e: Event, k: Key, r: Rule)
    requires e.Process? && UsesRule(e, k, r) && r.id == k.rule
    ensures Follows(r, StateOf(db, k).counters, InputOf(db, e, k),
                    StateOf(ProcessSignal(db, e.id, e.rule, e.maintenance, e.now), k).counters)
  {
    var next := ProcessSignal(db, e.id, e.rule, e.maintenance, e.now);
    if InputOf(db, e, k).None? {
      assert k in db.states ==> next.states[k] == db.states[k];
    }
  }

  lemma {:induction false} DueProjects(db: Db, e: Event, k: Key, r: Rule)
    requires StatesRememberSignals(db) && e.Due? && UsesRule(e, k, r) && r.id == k.rule
    ensures Follows(r, StateOf(db, k).counters, InputOf(db, e, k),
                    StateOf(ProcessDue(db, e.key, e.rule, e.maintenance, e.now), k).counters)
  {
    if e.key == k && k in db.states {
      assert RemembersSignal(db.signals, k, db.states[k]);
    } else {
      assert StateOf(ProcessDue(db, e.key, e.rule, e.maintenance, e.now), k) == StateOf(db, k);
    }
  }

  lemma {:induction false} OperateProjects(db: Db, m: Mutation, eligible: set<nat>, clock: Time, k: Key)
    ensures StateOf(Mutate(db, m, eligible, clock).0, k).counters == StateOf(db, k).counters
  {
  }

  lemma {:induction false} StepProjects(db: Db, e: Event, k: Key, r: Rule)
    requires StatesRememberSignals(db) && r.id == k.rule && UsesRule(e, k, r)
    ensures Follows(r, StateOf(db, k).counters, InputOf(db, e, k), StateOf(Step(db, e), k).counters)
  {
    match e
    case Process(_, _, _, _) => ProcessProjects(db, e, k, r);
    case Due(_, _, _, _) => DueProjects(db, e, k, r);
    case Operate(m, eligible, clock) => OperateProjects(db, m, eligible, clock, k);
    case Append(_, _, _) =>
    case Claim(_, _, _, _) =>
    case Fail(_, _, _, _) =>
    case Notify(_, _) =>
  }

  ghost predicate FixedRule(events: seq<Event>, k: Key, r: Rule) {
    r.id == k.rule && forall j :: 0 <= j < |events| ==> UsesRule(events[j], k, r)
  }

  /** While a rule is unchanged, the debounce columns stored for a key are, after every run, the
      ones derived from the history of signals the rule won for that key. */
  lemma {:induction false} StoredCountersRefineHistory(events: seq<Event>, k: Key, r: Rule)
    requires FixedRule(events, k, r)
    ensures Inv(Run(EMPTY, events))
    ensures StateOf(Run(EMPTY, events), k).counters == Stream(r, Inputs(EMPTY, events, k))
    ensures StateOf(Run(EMPTY, events), k).counters == Derive(r, HistoryOf(r, Inputs(EMPTY, events, k)))
  {
    EmptyIsValid();
    if events != [] {
      var rest := events[..|events| - 1];
      var before, e := Run(EMPTY, rest), events[|events| - 1];
      assert UsesRule(e, k, r);
      assert FixedRule(rest, k, r);
      StoredCountersRefineHistory(rest, k, r);
      StepProjects(before, e, k, r);
      StepKeeps(before, e);
      var input := InputOf(before, e, k);
      if input.Some? {
        var inputs := Inputs(EMPTY, rest, k);
        assert (inputs + [input.value])[..|inputs|] == inputs;
      } else {
        assert Inputs(EMPTY, rest, k) + [] == Inputs(EMPTY, rest, k);
      }
    }
    StreamRefinesHistory(r, Inputs(EMPTY, events, k));
  }

  /** The incident table changes on a signal by exactly the decision its history calls for: an
      incident opens or recovers precisely when the trailing run meets count and duration. */
  lemma {:induction false} SignalsActByHistory(events: seq<Event>, id: nat, r: Rule, now: Time)
    requires var db := Run(EMPTY, events); id < |db.signals| && !Settled(db.signals[id])
    requires FixedRule(events, KeyFor(r, Run(EMPTY, events).signals[id].signal), r)
    ensures var db := Run(EMPTY, events);
            var signal := db.signals[id].signal;
            var k := KeyFor(r, signal);
            var h := HistoryOf(r, Inputs(EMPTY, events, k));
            var decision := HistoryDecision(r, h, SignalIn(signal.state, signal.occurredAt, now));
            ProcessSignal(db, id, Some(r), false, now).ledger ==
            Act(db.ledger, StateOf(db, k), decision, Subject(id, signal, k), now).ledger
  {
    var db := Run(EMPTY, events);
    var signal := db.signals[id].signal;
    var k := KeyFor(r, signal);
    StoredCountersRefineHistory(events, k, r);
    DecisionsFollowHistory(r, Inputs(EMPTY, events, k), SignalIn(signal.state, signal.occurredAt, now));
  }

  /** A stored deadline belongs to a run that met its count but not yet its duration, and its last
      signal still has the run's state. Polled when reached and outside maintenance, it acts by the
      run's own decision and clears; it never defers again. */
  lemma {:induction false} ReachedDeadlineActs(events: seq<Event>, k: Key, r: Rule, now: Time)
    requires FixedRule(events, k, r)
    requires k in Run(EMPTY, events).states && DeadlineReached(Run(EMPTY, events).states[k].counters.deadline, now)
    ensures var db := Run(EMPTY, events);
            var items := HistoryOf(r, Inputs(EMPTY, events, k)).items;
            var state := db.states[k];
            && CountMet(r, items)
            && state.counters.deadline == Some(DueAt(r, items))
            && state.lastSignal.Some? && state.lastSignal.value < |db.signals|
            && db.signals[state.lastSignal.value].signal.state == LastOf(items)
            && var decision := ThresholdFor(r, LastOf(items)).value.decision;
               var next := ProcessDue(db, k, Some(r), false, now);
            && !decision.Wait?
            && next.ledger == Act(db.ledger, state, decision,
                                  Subject(state.lastSignal.value, db.signals[state.lastSignal.value].signal, k),
                                  now).ledger
            && next.states[k].counters.deadline.None?
  {
    var db := Run(EMPTY, events);
    var state := db.states[k];
    StoredCountersRefineHistory(events, k, r);
    assert RemembersSignal(db.signals, k, state);
    ReachedDeadlineFires(r, Inputs(EMPTY, events, k), now);
    var signal := db.signals[state.lastSignal.value].signal;
    assert KeyFor(r, signal) == k;
  }

  /** So a signal that completes a run leaves its key with an active incident of the condition's
      severity, or with no active incident; any other signal leaves the incidents alone. */
  lemma {:induction false} SignalsTakeHold(events: seq<Event>, id: nat, r: Rule, now: Time)
    requires var db := Run(EMPTY, events); id < |db.signals| && !Settled(db.signals[id])
    requires FixedRule(events, KeyFor(r, Run(EMPTY, events).signals[id].signal), r)
    ensures var db := Run(EMPTY, events);
            var signal := db.signals[id].signal;
            var k := KeyFor(r, signal);
            var decision :=
              HistoryDecision(r, HistoryOf(r, Inputs(EMPTY, events, k)),
                              SignalIn(signal.state, signal.occurredAt, now));
            var next := ProcessSignal(db, id, Some(r), false, now);
            Holds(decision, db.ledger, next.ledger, StateOf(next, k).active, Subject(id, signal, k))
  {
    var db := Run(EMPTY, events);
    var signal := db.signals[id].signal;
    var s := Subject(id, signal, KeyFor(r, signal));
    StoredCountersRefineHistory(events, s.key, r);
    var input := SignalIn(signal.state, signal.occurredAt, now);
    DecisionsFollowHistory(r, Inputs(EMPTY, events, s.key), input);
    SignalTakesHold(db, s, r, now);
  }

  lemma {:induction false} SignalTakesHold(db: Db, s: Subject, r: Rule, now: Time)
    requires Inv(db) && s.id < |db.signals| && !Settled(db.signals[s.id]) && s.signal == db.signals[s.id].signal &&
               s.key == KeyFor(r, s.signal)
    ensures var decision :=
              StreamStep(r, StateOf(db, s.key).counters, SignalIn(s.signal.state, s.signal.occurredAt, now)).decision;
            var next := ProcessSignal(db, s.id, Some(r), false, now);
            Holds(decision, db.ledger, next.ledger, StateOf(next, s.key).active, s)
  {
    var state := StateOf(db, s.key);
    if !Older(state.counters.lastAt, s.signal.occurredAt) {
      ReadyFor(db, s);
      var v := Evaluate(r, state.counters, s.signal.state, s.signal.occurredAt, now, false);
      ActTakesHold(db.ledger, state, v.decision, s, now);
    }
  }

  /** The same for a deadline polled when it is reached. */
  lemma {:induction false} DeadlinesTakeHold(events: seq<Event>, k: Key, r: Rule, now: Time)
    requires FixedRule(events, k, r)
    requires k in Run(EMPTY, events).states && DeadlineReached(Run(EMPTY, events).states[k].counters.deadline, now)
    ensures var db := Run(EMPTY, events);
            var items := HistoryOf(r, Inputs(EMPTY, events, k)).items;
            var state := db.states[k];
            && CountMet(r, items) && state.lastSignal.Some? && state.lastSignal.value < |db.signals|
            && var next := ProcessDue(db, k, Some(r), false, now);
               Holds(ThresholdFor(r, LastOf(items)).value.decision, db.ledger, next.ledger, StateOf(next, k).active,
                     Subject(state.lastSignal.value, db.signals[state.lastSignal.value].signal, k))
  {
    var db := Run(EMPTY, events);
    StoredCountersRefineHistory(events, k, r);
    ReachedDeadlineActs(events, k, r, now);
    ReachedDeadlineFires(r, Inputs(EMPTY, events, k), now);
    DeadlineTakesHold(db, k, r, now);
  }

  lemma {:induction false} DeadlineTakesHold(db: Db, k: Key, r: Rule, now: Time)
    requires Inv(db) && r.id == k.rule && k in db.states && DeadlineReached(db.states[k].counters.deadline, now)
    ensures var state := db.states[k];
            && state.lastSignal.Some? && state.lastSignal.value < |db.signals|
            && var decision := StreamStep(r, state.counters, DueIn(now)).decision;
               var next := ProcessDue(db, k, Some(r), false, now);
               Holds(decision, db.ledger, next.ledger, StateOf(next, k).active,
                     Subject(state.lastSignal.value, db.signals[state.lastSignal.value].signal, k))
  {
    var state := db.states[k];
    assert RemembersSignal(db.signals, k, state);
    DueIsReady(db, k);
    var s := Subject(state.lastSignal.value, db.signals[state.lastSignal.value].signal, k);
    assert KeyFor(r, s.signal) == k;
    var v := Evaluate(r, state.counters, s.signal.state, s.signal.occurredAt, now, true);
    ActTakesHold(db.ledger, state, v.decision, s, now);
  }
}
