/** The tables of the incident engine and one transition function per transaction.

    Every transaction takes its row locks before it decides anything, so each one is a function
    from the tables before it to the tables after it. Which rule wins for a signal, whether a
    maintenance window is active, who may own an incident and the clock are parameters: the
    results hold for every choice of them. Identifiers are positions in append-only tables, so a
    generated identifier is fresh. */
module IncidentModel {
  import opened Basics
  import opened Debounce

  datatype Status = Opened | Acknowledged | Investigating | Recovered | Resolved

  // ---------------------------------------------------------------------------
  // Rows
  // ---------------------------------------------------------------------------

  datatype Signal = Signal(
    resource: nat, checkType: string, state: HealthState, reasonCode: string, occurredAt: Time)

  /** A row of the signal journal. */
  datatype JournalRow = JournalRow(
    sourceKey: string,
    signal: Signal,
    availableAt: Time,
    claimedUntil: Option<Time>,
    attempts: nat,
    processedAt: Option<Time>,
    deadLetteredAt: Option<Time>)

  /** Primary key of a rule state, and fingerprint of the incidents it opens. */
  datatype Key = Key(rule: nat, resource: nat, checkType: string)

  datatype RuleState = RuleState(
    active: Option<nat>, lastSignal: Option<nat>, lastReasonCode: string, counters: Counters)

  const NEW_STATE := RuleState(None, None, "", FRESH)

  datatype Incident = Incident(
    key: Key,
    severity: Severity,
    status: Status,
    owner: Option<nat>,
    detectedAt: Time,
    latestSignalAt: Time,
    acknowledgedAt: Option<Time>,
    recoveredAt: Option<Time>,
    resolvedAt: Option<Time>,
    version: int,
    createdAt: Time,
    updatedAt: Time)

  datatype Kind =
    | Detected | SeverityChanged | ConditionChanged | Recurrence | RecoveredKind
    | AcknowledgedKind | InvestigatingKind | Assigned | NoteKind | ResolvedKind | Notification

  /** The status and severity an incident has at one point of its timeline. */
  datatype Phase = Phase(status: Status, severity: Severity)

  /** A timeline row. Notification evidence carries no phases. */
  datatype Entry = Entry(
    incident: nat, kind: Kind, before: Option<Phase>, after: Option<Phase>,
    signal: Option<nat>, actor: Option<nat>, occurredAt: Time)

  /** The incidents table and its append-only timeline. */
  datatype Ledger = Ledger(incidents: seq<Incident>, timeline: seq<Entry>)

  datatype Outcome = NoRule | NoCondition | Debounced | IncidentChanged | UnderMaintenance

  datatype Action = Acknowledge | Investigate | Assign | AddNote | Resolve

  datatype ReceiptKey = ReceiptKey(actor: nat, incident: nat, action: Action, idempotencyKey: string)

  /** The fields covered by the request hash; the hash is modelled as injective. */
  datatype Payload = Payload(action: Action, expectedVersion: int, owner: Option<nat>, note: string)

  datatype Receipt = Receipt(payload: Payload, version: int, status: Status, timelineEvent: nat, correlation: string)

  datatype Db = Db(
    signals: seq<JournalRow>,
    states: map<Key, RuleState>,
    ledger: Ledger,
    receipts: map<ReceiptKey, Receipt>,
    evidence: map<nat, Outcome>)

  const EMPTY := Db([], map[], Ledger([], []), map[], map[])

  // ---------------------------------------------------------------------------
  // Ledger writes
  // ---------------------------------------------------------------------------

  function PhaseOf(row: Incident): Phase {
    Phase(row.status, row.severity)
  }

  function WithEntry(timeline: seq<Entry>, entry: Option<Entry>): seq<Entry> {
    if entry.Some? then timeline + [entry.value] else timeline
  }

  function UpdateRow(l: Ledger, i: nat, row: Incident, entry: Option<Entry>): Ledger
    requires i < |l.incidents|
  {
    Ledger(l.incidents[i := row], WithEntry(l.timeline, entry))
  }

  function InsertRow(l: Ledger, row: Incident, entry: Entry): Ledger {
    Ledger(l.incidents + [row], l.timeline + [entry])
  }

  /** The row that blocks an insert: an unresolved incident with the same fingerprint. */
  function FindUnresolved(incidents: seq<Incident>, key: Key): (found: Option<nat>)
    ensures found.Some? ==>
              found.value < |incidents| && incidents[found.value].key == key && !incidents[found.value].status.Resolved?
    ensures found.None? ==>
              forall j :: 0 <= j < |incidents| && incidents[j].key == key ==> incidents[j].status.Resolved?
  {
    if incidents == [] then None
    else
      var last := |incidents| - 1;
      if incidents[last].key == key && !incidents[last].status.Resolved? then Some(last)
      else FindUnresolved(incidents[..last], key)
  }

  // ---------------------------------------------------------------------------
  // The evaluator
  // ---------------------------------------------------------------------------

  /** A signal as the evaluator sees it: its identifier, its content and the key of its rule state. */
  datatype Subject = Subject(id: nat, signal: Signal, key: Key)

  /** Result of acting on the incident table. */
  datatype Acted = Acted(ledger: Ledger, active: Option<nat>, changed: bool)

  function SignalEntry(i: nat, kind: Kind, before: Option<Phase>, after: Phase, s: Subject): Entry {
    Entry(i, kind, before, Some(after), Some(s.id), None, s.signal.occurredAt)
  }

  function NewIncident(s: Subject, severity: Severity, now: Time): Incident {
    var at := s.signal.occurredAt;
    Incident(s.key, severity, Opened, None, at, at, None, None, None, 1, now, now)
  }

  /** Fields every evaluator update writes. */
  function Touch(row: Incident, s: Subject, now: Time): Incident {
    row.(latestSignalAt := Max(row.latestSignalAt, s.signal.occurredAt), version := row.version + 1, updatedAt := now)
  }

  /** Insert a new incident unless an unresolved one with this fingerprint exists. */
  function OpenIncident(l: Ledger, s: Subject, severity: Severity, now: Time): Acted {
    match FindUnresolved(l.incidents, s.key)
    case None =>
      var i := |l.incidents|;
      Acted(InsertRow(l, NewIncident(s, severity, now),
                      SignalEntry(i, Detected, None, Phase(Opened, severity), s)), Some(i), true)
    case Some(i) =>
      if l.incidents[i].createdAt == now then
        Acted(l.(timeline := l.timeline + [SignalEntry(i, Detected, None, Phase(Opened, severity), s)]), Some(i), true)
      else
        Acted(l, Some(i), false)
  }

  function Reopen(row: Incident, s: Subject, severity: Severity, now: Time): Incident {
    Touch(row, s, now).(status := Opened, severity := severity, recoveredAt := None)
  }

  predicate CertificateConditionChanged(s: Subject, lastReasonCode: string) {
    s.signal.checkType == "certificate.validity" && s.signal.reasonCode != "" && lastReasonCode != "" &&
    s.signal.reasonCode != lastReasonCode
  }

  function OpenOrUpdate(
      l: Ledger, active: Option<nat>, s: Subject, severity: Severity, lastReasonCode: string, now: Time): Acted {
    if active.None? || active.value >= |l.incidents| then
      OpenIncident(l, s, severity, now)
    else
      var i := active.value;
      var row := l.incidents[i];
      if row.status.Recovered? then
        Acted(UpdateRow(l, i, Reopen(row, s, severity, now),
                        Some(SignalEntry(i, Recurrence, Some(PhaseOf(row)), Phase(Opened, severity), s))), active, true)
      else if row.severity != severity then
        Acted(UpdateRow(l, i, Touch(row, s, now).(severity := severity),
                        Some(SignalEntry(i, SeverityChanged, Some(PhaseOf(row)), Phase(row.status, severity), s))),
              active, true)
      else if CertificateConditionChanged(s, lastReasonCode) then
        Acted(UpdateRow(l, i, Touch(row, s, now),
                        Some(SignalEntry(i, ConditionChanged, Some(PhaseOf(row)), PhaseOf(row), s))), active, true)
      else
        Acted(UpdateRow(l, i, Touch(row, s, now), None), active, true)
  }

  function RecoverRow(row: Incident, s: Subject, now: Time): Incident {
    Touch(row, s, now).(status := Recovered, recoveredAt := Some(s.signal.occurredAt))
  }

  function RecoverActive(l: Ledger, active: Option<nat>, s: Subject, now: Time): Acted {
    if active.None? then Acted(l, active, false)
    else if active.value >= |l.incidents| then Acted(l, None, false)
    else
      var i := active.value;
      var row := l.incidents[i];
      if row.status.Recovered? || row.status.Resolved? then Acted(l, active, false)
      else
        Acted(UpdateRow(l, i, RecoverRow(row, s, now),
                        Some(SignalEntry(i, RecoveredKind, Some(PhaseOf(row)), Phase(Recovered, row.severity), s))),
              active, true)
  }

  function Act(l: Ledger, state: RuleState, decision: Decision, s: Subject, now: Time): Acted {
    match decision
    case Wait => Acted(l, state.active, false)
    case Open(condition) => OpenOrUpdate(l, state.active, s, condition.severity, state.lastReasonCode, now)
    case Recover => RecoverActive(l, state.active, s, now)
  }

  predicate Settled(row: JournalRow) {
    row.processedAt.Some? || row.deadLetteredAt.Some?
  }

  function Processed(row: JournalRow, now: Time): JournalRow {
    row.(processedAt := Some(now), claimedUntil := None)
  }

  function StateOf(db: Db, key: Key): RuleState {
    if key in db.states then db.states[key] else NEW_STATE
  }

  function KeyFor(rule: Rule, signal: Signal): Key {
    Key(rule.id, signal.resource, signal.checkType)
  }

  /** The winning rule's evaluation of a pending signal, outside maintenance. */
  function EvaluateSignal(db: Db, s: Subject, rule: Rule, now: Time): (Acted, RuleState) {
    var state := StateOf(db, s.key);
    var e := Evaluate(rule, state.counters, s.signal.state, s.signal.occurredAt, now, false);
    var acted := Act(db.ledger, state, e.decision, s, now);
    (acted, RuleState(acted.active, Some(s.id), s.signal.reasonCode,
                      e.counters.(lastState := Some(s.signal.state), lastAt := Some(s.signal.occurredAt))))
  }

  /** `processSignal`: at most one effect per signal, whoever holds or lost its lease. */
  function ProcessSignal(db: Db, id: nat, rule: Option<Rule>, maintenance: bool, now: Time): Db {
    if id >= |db.signals| || Settled(db.signals[id]) then db
    else
      var signal := db.signals[id].signal;
      var signals := db.signals[id := Processed(db.signals[id], now)];
      if rule.None? then
        db.(signals := signals, evidence := db.evidence[id := NoRule])
      else
        var key := KeyFor(rule.value, signal);
        var state := StateOf(db, key);
        if Older(state.counters.lastAt, signal.occurredAt) then
          db.(signals := signals, states := db.states[key := state], evidence := db.evidence[id := Debounced])
        else if maintenance then
          var suppressed :=
            state.(lastSignal := Some(id), counters := Suppress(state.counters).(lastAt := Some(signal.occurredAt)));
          db.(signals := signals, states := db.states[key := suppressed],
              evidence := db.evidence[id := UnderMaintenance])
        else
          var (acted, next) := EvaluateSignal(db, Subject(id, signal, key), rule.value, now);
          var outcome := if acted.changed then IncidentChanged
                         else if signal.state !in rule.value.conditions then NoCondition else Debounced;
          Db(signals, db.states[key := next], acted.ledger, db.receipts, db.evidence[id := outcome])
  }

  /** The evaluation of a reached deadline, outside maintenance: the last signal again, without counting it. */
  function EvaluateDue(db: Db, state: RuleState, s: Subject, rule: Rule, now: Time): (Acted, RuleState) {
    var e := Evaluate(rule, state.counters, s.signal.state, s.signal.occurredAt, now, true);
    var acted := Act(db.ledger, state, e.decision, s, now);
    (acted, state.(active := acted.active, counters := e.counters.(deadline := None)))
  }

  /** `processOneDue` on the row it selected; `rule` is the row's own rule when it is still enabled
      and matches the last signal. */
  function ProcessDue(db: Db, key: Key, rule: Option<Rule>, maintenance: bool, now: Time): Db {
    if key !in db.states || !DeadlineReached(db.states[key].counters.deadline, now) then db
    else
      var state := db.states[key];
      if state.lastSignal.None? || state.lastSignal.value >= |db.signals| then db
      else if rule.None? || rule.value.id != key.rule then
        db.(states := db.states[key := state.(counters := state.counters.(deadline := None))])
      else if maintenance then
        db.(states := db.states[key := state.(counters := Suppress(state.counters))])
      else
        var id := state.lastSignal.value;
        var signal := db.signals[id].signal;
        var (acted, next) := EvaluateDue(db, state, Subject(id, signal, KeyFor(rule.value, signal)), rule.value, now);
        db.(ledger := acted.ledger, states := db.states[key := next])
  }

  // ---------------------------------------------------------------------------
  // The signal journal
  // ---------------------------------------------------------------------------

  predicate HasSource(signals: seq<JournalRow>, sourceKey: string) {
    exists j :: 0 <= j < |signals| && signals[j].sourceKey == sourceKey
  }

  /** `Writer.Append`: one row per source key. */
  function AppendSignal(db: Db, sourceKey: string, signal: Signal, availableAt: Time): Db {
    if HasSource(db.signals, sourceKey) then db
    else db.(signals := db.signals + [JournalRow(sourceKey, signal, availableAt, None, 0, None, None)])
  }

  predicate Claimable(row: JournalRow, now: Time, maxAttempts: nat) {
    !Settled(row) && row.availableAt <= now &&
    (row.claimedUntil.None? || row.claimedUntil.value <= now) && row.attempts < maxAttempts
  }

  /** `Store.Claim` on one row of its batch. */
  function ClaimSignal(db: Db, id: nat, now: Time, lease: int, maxAttempts: nat): Db {
    if id < |db.signals| && Claimable(db.signals[id], now, maxAttempts) then
      var row := db.signals[id];
      db.(signals := db.signals[id := row.(claimedUntil := Some(now + lease), attempts := row.attempts + 1)])
    else db
  }

  function FailedRow(row: JournalRow, now: Time, retryAfter: int, maxAttempts: nat): JournalRow {
    row.(claimedUntil := None, availableAt := now + Max(retryAfter, 0),
         deadLetteredAt := if row.attempts >= maxAttempts then Some(now) else None)
  }

  /** `Store.Fail`, possibly from a worker whose lease is long gone. */
  function FailSignal(db: Db, id: nat, now: Time, retryAfter: int, maxAttempts: nat): Db {
    if id < |db.signals| && !Settled(db.signals[id]) then
      db.(signals := db.signals[id := FailedRow(db.signals[id], now, retryAfter, maxAttempts)])
    else db
  }

  // ---------------------------------------------------------------------------
  // The operator workflow
  // ---------------------------------------------------------------------------

  /** A mutation request. `wellFormed` stands for the checks on identifier syntax, names, the
      correlation identifier and the idempotency key. */
  datatype Mutation = Mutation(
    actor: nat, incident: nat, action: Action, owner: Option<nat>, note: string,
    expectedVersion: int, idempotencyKey: string, correlation: string, wellFormed: bool)

  datatype MutationResult = MutationResult(
    incident: nat, status: Status, version: int, timelineEvent: nat, correlation: string, replayed: bool)

  datatype MutationError =
    | InvalidMutation | InvalidNote | IdempotencyConflict | NotFound | VersionConflict(current: int)
    | InvalidTransition | OwnerNotEligible | CheckViolation

  datatype Reply = Done(result: MutationResult) | Refused(error: MutationError)

  const MAX_NOTE := 2000

  function Validate(m: Mutation): Option<MutationError> {
    if !m.wellFormed || m.expectedVersion < 1 then Some(InvalidMutation)
    else
      match m.action
      case Assign => if m.owner.None? || m.note != "" then Some(InvalidMutation) else None
      case AddNote => if m.owner.Some? || m.note == "" || |m.note| > MAX_NOTE then Some(InvalidNote) else None
      case Resolve => if m.owner.Some? || m.note == "" || |m.note| > MAX_NOTE then Some(InvalidNote) else None
      case Acknowledge => if m.owner.Some? || m.note != "" then Some(InvalidMutation) else None
      case Investigate => if m.owner.Some? || m.note != "" then Some(InvalidMutation) else None
  }

  function ReceiptKeyOf(m: Mutation): ReceiptKey {
    ReceiptKey(m.actor, m.incident, m.action, m.idempotencyKey)
  }

  function PayloadOf(m: Mutation): Payload {
    Payload(m.action, m.expectedVersion, m.owner, m.note)
  }

  function ReplayOf(m: Mutation, r: Receipt): MutationResult {
    MutationResult(m.incident, r.status, r.version, r.timelineEvent, r.correlation, true)
  }

  /** The status an action leads to, if the action is allowed from `status`. */
  function Transition(action: Action, status: Status): Option<Status> {
    match action
    case Acknowledge => if status.Opened? then Some(Acknowledged) else None
    case Investigate => if status.Acknowledged? then Some(Investigating) else None
    case Assign => if status.Resolved? then None else Some(status)
    case AddNote => Some(status)
    case Resolve => if status.Recovered? then Some(Resolved) else None
  }

  function KindOf(action: Action): Kind {
    match action
    case Acknowledge => AcknowledgedKind
    case Investigate => InvestigatingKind
    case Assign => Assigned
    case AddNote => NoteKind
    case Resolve => ResolvedKind
  }

  /** The clock, moved past the row's last update. */
  function MutationTime(row: Incident, clock: Time): Time {
    if clock > row.updatedAt then clock else row.updatedAt + 1
  }

  /** `updateIncident`. */
  function MutatedRow(row: Incident, m: Mutation, status: Status, now: Time): Incident {
    var base := row.(version := row.version + 1, updatedAt := now);
    match m.action
    case Acknowledge => base.(status := status, acknowledgedAt := Some(now))
    case Assign => base.(owner := m.owner)
    case Resolve => base.(status := status, resolvedAt := Some(now))
    case Investigate => base.(status := status)
    case AddNote => base.(status := status)
  }

  /** Resolving releases every rule state that names the incident. */
  function Release(states: map<Key, RuleState>, i: nat): map<Key, RuleState> {
    map k | k in states :: if states[k].active == Some(i) then states[k].(active := None) else states[k]
  }

  /** Why a first-time request is refused, in the order of the checks. */
  function Refusal(db: Db, m: Mutation, eligible: set<nat>, clock: Time): Option<MutationError> {
    if m.incident >= |db.ledger.incidents| then Some(NotFound)
    else
      var row := db.ledger.incidents[m.incident];
      if row.version != m.expectedVersion then Some(VersionConflict(row.version))
      else if Transition(m.action, row.status).None? then Some(InvalidTransition)
      else if m.action.Assign? && (m.owner.None? || m.owner.value !in eligible) then Some(OwnerNotEligible)
      else if m.action.Resolve? && (row.recoveredAt.None? || row.recoveredAt.value > MutationTime(row, clock)) then
        Some(CheckViolation)
      else None
  }

  /** The committed effect of an accepted first-time request. */
  function Commit(db: Db, m: Mutation, clock: Time): Db
    requires m.incident < |db.ledger.incidents|
    requires Transition(m.action, db.ledger.incidents[m.incident].status).Some?
  {
    var i := m.incident;
    var row := db.ledger.incidents[i];
    var status := Transition(m.action, row.status).value;
    var now := MutationTime(row, clock);
    var entry :=
      Entry(i, KindOf(m.action), Some(PhaseOf(row)), Some(Phase(status, row.severity)), None, Some(m.actor), now);
    var receipt := Receipt(PayloadOf(m), row.version + 1, status, |db.ledger.timeline|, m.correlation);
    db.(ledger := UpdateRow(db.ledger, i, MutatedRow(row, m, status, now), Some(entry)),
        states := if m.action.Resolve? then Release(db.states, i) else db.states,
        receipts := db.receipts[ReceiptKeyOf(m) := receipt])
  }

  /** `Workflow.Mutate`. */
  function Mutate(db: Db, m: Mutation, eligible: set<nat>, clock: Time): (Db, Reply) {
    var invalid := Validate(m);
    if invalid.Some? then (db, Refused(invalid.value))
    else
      var key := ReceiptKeyOf(m);
      if key in db.receipts then
        var receipt := db.receipts[key];
        if receipt.payload != PayloadOf(m) then (db, Refused(IdempotencyConflict))
        else (db, Done(ReplayOf(m, receipt)))
      else
        var refusal := Refusal(db, m, eligible, clock);
        if refusal.Some? then (db, Refused(refusal.value))
        else
          var next := Commit(db, m, clock);
          var receipt := next.receipts[key];
          (next, Done(ReplayOf(m, receipt).(replayed := false)))
  }

  /** Delivery evidence written by the notification writer and worker. */
  function RecordNotification(db: Db, i: nat, now: Time): Db {
    if i < |db.ledger.incidents| then
      db.(ledger := db.ledger.(timeline := db.ledger.timeline + [Entry(i, Notification, None, None, None, None, now)]))
    else db
  }

  // ---------------------------------------------------------------------------
  // Runs
  // ---------------------------------------------------------------------------

  datatype Event =
    | Append(sourceKey: string, signal: Signal, availableAt: Time)
    | Claim(claimed: nat, now: Time, lease: int, maxAttempts: nat)
    | Fail(failed: nat, now: Time, retryAfter: int, maxAttempts: nat)
    | Process(id: nat, rule: Option<Rule>, maintenance: bool, now: Time)
    | Due(key: Key, rule: Option<Rule>, maintenance: bool, now: Time)
    | Operate(mutation: Mutation, eligible: set<nat>, clock: Time)
    | Notify(incident: nat, now: Time)

  function Step(db: Db, e: Event): Db {
    match e
    case Append(sourceKey, signal, availableAt) => AppendSignal(db, sourceKey, signal, availableAt)
    case Claim(id, now, lease, maxAttempts) => ClaimSignal(db, id, now, lease, maxAttempts)
    case Fail(id, now, retryAfter, maxAttempts) => FailSignal(db, id, now, retryAfter, maxAttempts)
    case Process(id, rule, maintenance, now) => ProcessSignal(db, id, rule, maintenance, now)
    case Due(key, rule, maintenance, now) => ProcessDue(db, key, rule, maintenance, now)
    case Operate(m, eligible, clock) => Mutate(db, m, eligible, clock).0
    case Notify(i, now) => RecordNotification(db, i, now)
  }

  /** Any interleaving of transactions, in commit order. */
  function Run(db: Db, events: seq<Event>): Db {
    if events == [] then db
    else Step(Run(db, events[..|events| - 1]), events[|events| - 1])
  }
}
