/** Who writes which column. An evaluation writes the columns its signal is about and leaves the
    operators' columns alone; over every run an incident's owner, acknowledgement and resolution are
    those of its last committed operator actions, and a rule state remembers its last signals. */
module IncidentColumns {
  import opened Basics
  import opened Debounce
  import opened IncidentModel
  import opened IncidentInvariants
  import opened IncidentRuns

  // ---------------------------------------------------------------------------
  // What an evaluation writes
  // ---------------------------------------------------------------------------

  /** The columns no evaluation writes: the fingerprint, the operators' columns and the birth. */
  predicate SameForOperators(row: Incident, next: Incident) {
    && next.key == row.key && next.detectedAt == row.detectedAt && next.createdAt == row.createdAt
    && next.owner == row.owner && next.acknowledgedAt == row.acknowledgedAt && next.resolvedAt == row.resolvedAt
  }

  /** A row written by evaluating a signal dated `at` with the reading `now`. */
  predicate WrittenFor(row: Incident, next: Incident, at: Time, now: Time) {
    && SameForOperators(row, next)
    && next.version == row.version + 1 && next.updatedAt == now
    && next.latestSignalAt == (if at > row.latestSignalAt then at else row.latestSignalAt)
    && next.recoveredAt ==
         (if next.status == row.status then row.recoveredAt else if next.status.Recovered? then Some(at) else None)
  }

  /** The incident a decision opens: open and nobody's, detected when its signal occurred. */
  predicate BornFor(row: Incident, s: Subject, severity: Severity, now: Time) {
    && row.key == s.key && row.severity == severity && row.status.Opened? && row.version == 1
    && row.detectedAt == s.signal.occurredAt && row.latestSignalAt == s.signal.occurredAt
    && row.createdAt == now && row.updatedAt == now
    && row.owner.None? && row.acknowledgedAt.None? && row.recoveredAt.None? && row.resolvedAt.None?
  }

  /** A decision writes only the incident it is about, in these columns, or adds one incident. */
  ghost predicate WritesFor(l: Ledger, m: Ledger, state: RuleState, decision: Decision, s: Subject, now: Time) {
    && |l.incidents| <= |m.incidents| <= |l.incidents| + 1
    && (forall i :: 0 <= i < |l.incidents| ==>
          m.incidents[i] == l.incidents[i] ||
          (state.active == Some(i) && WrittenFor(l.incidents[i], m.incidents[i], s.signal.occurredAt, now)))
    && (|m.incidents| > |l.incidents| ==>
          decision.Open? && BornFor(m.incidents[|l.incidents|], s, decision.condition.severity, now))
  }

  lemma {:induction false} ActWrites(l: Ledger, state: RuleState, decision: Decision, s: Subject, now: Time)
    ensures WritesFor(l, Act(l, state, decision, s, now).ledger, state, decision, s, now)
  {
    match decision
    case Wait =>
    case Open(condition) =>
    case Recover =>
  }

  /** Opening names the one unresolved incident of its key: a new one, or one somebody else inserted
      first, and then no incident changes. It reports a change, and tells the detection, exactly when
      the incident it names was inserted at its own reading of the clock. */
  lemma {:induction false} OpeningYields(l: Ledger, s: Subject, severity: Severity, now: Time)
    ensures var acted := OpenIncident(l, s, severity, now);
            var m := acted.ledger;
            && acted.active.Some? && acted.active.value < |m.incidents| && l.incidents <= m.incidents
            && var i := acted.active.value;
               && m.incidents[i].key == s.key && !m.incidents[i].status.Resolved?
               && (|m.incidents| == |l.incidents| || (i == |l.incidents| && |m.incidents| == i + 1))
               && (i == |l.incidents| <==>
                   forall j :: 0 <= j < |l.incidents| && l.incidents[j].key == s.key ==>
                     l.incidents[j].status.Resolved?)
               && (acted.changed <==> m.incidents[i].createdAt == now)
               && m.timeline == l.timeline +
                    if m.incidents[i].createdAt == now
                    then [Entry(i, Detected, None, Some(Phase(Opened, severity)), Some(s.id), None,
                                s.signal.occurredAt)]
                    else []
  {
    assert l.timeline + [] == l.timeline;
  }

  // ---------------------------------------------------------------------------
  // What the timeline is told
  // ---------------------------------------------------------------------------

  /** A certificate signal with another reason code than the last one. */
  predicate OtherReason(s: Subject, lastReasonCode: string) {
    s.signal.checkType == "certificate.validity" && |s.signal.reasonCode| > 0 && |lastReasonCode| > 0 &&
    s.signal.reasonCode != lastReasonCode
  }

  /** The kind of entry a decision adds for an incident in this phase; `None` stands for no incident. */
  predicate CallsFor(kind: Kind, decision: Decision, phase: Option<Phase>, s: Subject, lastReasonCode: string) {
    match kind
    case Detected => decision.Open? && phase.None?
    case Recurrence => decision.Open? && phase.Some? && phase.value.status.Recovered?
    case SeverityChanged =>
      decision.Open? && phase.Some? && !phase.value.status.Recovered? &&
        phase.value.severity != decision.condition.severity
    case ConditionChanged =>
      decision.Open? && phase.Some? && !phase.value.status.Recovered? &&
        phase.value.severity == decision.condition.severity && OtherReason(s, lastReasonCode)
    case RecoveredKind => decision.Recover? && phase.Some? && !phase.value.status.Recovered?
    case _ => false
  }

  /** The phase of the incident a rule state names. */
  function NamedPhase(l: Ledger, state: RuleState): Option<Phase> {
    if state.active.Some? && state.active.value < |l.incidents| then Some(PhaseOf(l.incidents[state.active.value]))
    else None
  }

  /** One entry is added exactly when the decision calls for its kind; it is about the named or the
      new incident, tells its phases before and after, and is dated and caused by the signal. */
  ghost predicate Told(l: Ledger, m: Ledger, state: RuleState, decision: Decision, s: Subject) {
    var phase := NamedPhase(l, state);
    var i := if phase.Some? then state.active.value else |l.incidents|;
    && (m.timeline == l.timeline <==> forall kind :: !CallsFor(kind, decision, phase, s, state.lastReasonCode))
    && (m.timeline != l.timeline ==>
          && |m.timeline| == |l.timeline| + 1 && l.timeline <= m.timeline && i < |m.incidents|
          && var entry := m.timeline[|l.timeline|];
             && CallsFor(entry.kind, decision, phase, s, state.lastReasonCode)
             && entry == Entry(i, entry.kind, phase, Some(PhaseOf(m.incidents[i])), Some(s.id), None,
                               s.signal.occurredAt))
  }

  lemma {:induction false} ActTells(l: Ledger, state: RuleState, decision: Decision, s: Subject, now: Time)
    requires ReadyToAct(l, state.active, s)
    ensures Told(l, Act(l, state, decision, s, now).ledger, state, decision, s)
  {
    var phase := NamedPhase(l, state);
    match decision
    case Wait =>
    case Open(condition) =>
      assert state.active.None? ==> CallsFor(Detected, decision, phase, s, state.lastReasonCode);
      if state.active.Some? {
        var row := l.incidents[state.active.value];
        assert row.status.Recovered? ==> CallsFor(Recurrence, decision, phase, s, state.lastReasonCode);
        assert !row.status.Recovered? && row.severity != condition.severity ==>
            CallsFor(SeverityChanged, decision, phase, s, state.lastReasonCode);
        assert !row.status.Recovered? && row.severity == condition.severity && OtherReason(s, state.lastReasonCode) ==>
            CallsFor(ConditionChanged, decision, phase, s, state.lastReasonCode);
      }
    case Recover =>
      assert state.active.Some? && !l.incidents[state.active.value].status.Recovered? ==>
          CallsFor(RecoveredKind, decision, phase, s, state.lastReasonCode);
  }

  /** Over every run under an unchanged rule, a signal writes exactly the columns, and tells exactly
      the entry, that the decision of its history calls for. */
  lemma {:induction false} SignalsWriteAndTell(events: seq<Event>, id: nat, r: Rule, now: Time)
    requires var db := Run(EMPTY, events); id < |db.signals| && !Settled(db.signals[id])
    requires FixedRule(events, KeyFor(r, Run(EMPTY, events).signals[id].signal), r)
    ensures var db := Run(EMPTY, events);
            var signal := db.signals[id].signal;
            var k := KeyFor(r, signal);
            var decision :=
              HistoryDecision(r, HistoryOf(r, Inputs(EMPTY, events, k)),
                              SignalIn(signal.state, signal.occurredAt, now));
            var next := ProcessSignal(db, id, Some(r), false, now);
            && WritesFor(db.ledger, next.ledger, StateOf(db, k), decision, Subject(id, signal, k), now)
            && Told(db.ledger, next.ledger, StateOf(db, k), decision, Subject(id, signal, k))
  {
    var db := Run(EMPTY, events);
    var signal := db.signals[id].signal;
    var s := Subject(id, signal, KeyFor(r, signal));
    var state := StateOf(db, s.key);
    var h := HistoryOf(r, Inputs(EMPTY, events, s.key));
    var decision := HistoryDecision(r, h, SignalIn(signal.state, signal.occurredAt, now));
    SignalsActByHistory(events, id, r, now);
    StoredCountersRefineHistory(events, s.key, r);
    assert Older(state.counters.lastAt, signal.occurredAt) ==> decision.Wait?;
    ActWritesAndTells(db, decision, s, now);
  }

  lemma {:induction false} ActWritesAndTells(db: Db, decision: Decision, s: Subject, now: Time)
    requires Inv(db)
    requires Older(StateOf(db, s.key).counters.lastAt, s.signal.occurredAt) ==> decision.Wait?
    ensures var state := StateOf(db, s.key);
            var next := Act(db.ledger, state, decision, s, now).ledger;
            WritesFor(db.ledger, next, state, decision, s, now) && Told(db.ledger, next, state, decision, s)
  {
    var state := StateOf(db, s.key);
    ActWrites(db.ledger, state, decision, s, now);
    if decision.Wait? {
      WaitingTellsNothing(db.ledger, state, s);
    } else {
      ReadyFor(db, s);
      ActTells(db.ledger, state, decision, s, now);
    }
  }

  lemma {:induction false} WaitingTellsNothing(l: Ledger, state: RuleState, s: Subject)
    ensures Told(l, l, state, Wait, s)
  {
  }

  /** The same for a deadline polled when it is reached. */
  lemma {:induction false} DeadlinesWriteAndTell(events: seq<Event>, k: Key, r: Rule, now: Time)
    requires FixedRule(events, k, r)
    requires k in Run(EMPTY, events).states && DeadlineReached(Run(EMPTY, events).states[k].counters.deadline, now)
    ensures var db := Run(EMPTY, events);
            var items := HistoryOf(r, Inputs(EMPTY, events, k)).items;
            var state := db.states[k];
            && CountMet(r, items) && state.lastSignal.Some? && state.lastSignal.value < |db.signals|
            && var decision := ThresholdFor(r, LastOf(items)).value.decision;
               var s := Subject(state.lastSignal.value, db.signals[state.lastSignal.value].signal, k);
               var next := ProcessDue(db, k, Some(r), false, now);
               && WritesFor(db.ledger, next.ledger, state, decision, s, now)
               && Told(db.ledger, next.ledger, state, decision, s)
  {
    var db := Run(EMPTY, events);
    var state := db.states[k];
    StoredCountersRefineHistory(events, k, r);
    ReachedDeadlineActs(events, k, r, now);
    DueIsReady(db, k);
    var s := Subject(state.lastSignal.value, db.signals[state.lastSignal.value].signal, k);
    var decision := ThresholdFor(r, LastOf(HistoryOf(r, Inputs(EMPTY, events, k)).items)).value.decision;
    ActWrites(db.ledger, state, decision, s, now);
    ActTells(db.ledger, state, decision, s, now);
  }

  // ---------------------------------------------------------------------------
  // Every evaluation, whatever the rules
  // ---------------------------------------------------------------------------

  /** The signal an evaluator transaction evaluates. */
  function Evaluated(db: Db, e: Event): Option<nat> {
    match e
    case Process(id, _, _, _) => if id < |db.signals| then Some(id) else None
    case Due(key, _, _, _) =>
      if key in db.states && db.states[key].lastSignal.Some? && db.states[key].lastSignal.value < |db.signals|
      then db.states[key].lastSignal else None
    case _ => None
  }

  /** An incident after a transaction of the evaluator: as it was, or written for the signal. */
  ghost predicate LeftBy(db: Db, e: Event, i: nat) {
    && ByEvaluator(e) && i < |db.ledger.incidents| && i < |Step(db, e).ledger.incidents|
    && var row, next := db.ledger.incidents[i], Step(db, e).ledger.incidents[i];
       next == row ||
       (Evaluated(db, e).Some? && WrittenFor(row, next, db.signals[Evaluated(db, e).value].signal.occurredAt, e.now))
  }

  lemma {:induction false} ProcessLeaves(db: Db, e: Event, i: nat)
    requires e.Process? && i < |db.ledger.incidents|
    ensures LeftBy(db, e, i)
  {
    if e.id < |db.signals| && e.rule.Some? {
      var signal := db.signals[e.id].signal;
      var s := Subject(e.id, signal, KeyFor(e.rule.value, signal));
      var state := StateOf(db, s.key);
      var v := Evaluate(e.rule.value, state.counters, signal.state, signal.occurredAt, e.now, false);
      ActWrites(db.ledger, state, v.decision, s, e.now);
    }
  }

  lemma {:induction false} DueLeaves(db: Db, e: Event, i: nat)
    requires e.Due? && i < |db.ledger.incidents|
    ensures LeftBy(db, e, i)
  {
    if Evaluated(db, e).Some? && e.rule.Some? {
      var state := db.states[e.key];
      var signal := db.signals[state.lastSignal.value].signal;
      var s := Subject(state.lastSignal.value, signal, KeyFor(e.rule.value, signal));
      var v := Evaluate(e.rule.value, state.counters, signal.state, signal.occurredAt, e.now, true);
      ActWrites(db.ledger, state, v.decision, s, e.now);
    }
  }

  /** Whatever rules win and however they change, the evaluator writes no operator column and dates
      what it writes by its signal: the latest signal time never moves back. */
  lemma {:induction false} EvaluatorSparesOperatorColumns(db: Db, e: Event, i: nat)
    requires ByEvaluator(e) && i < |db.ledger.incidents|
    ensures LeftBy(db, e, i) && SameForOperators(db.ledger.incidents[i], Step(db, e).ledger.incidents[i])
    ensures db.ledger.incidents[i].latestSignalAt <= Step(db, e).ledger.incidents[i].latestSignalAt
  {
    if e.Process? {
      ProcessLeaves(db, e, i);
    } else {
      DueLeaves(db, e, i);
    }
  }

  /** An incident a transaction of the evaluator adds. */
  lemma {:induction false} EvaluatorAddsUnowned(db: Db, e: Event, i: nat)
    requires ByEvaluator(e) && |db.ledger.incidents| <= i < |Step(db, e).ledger.incidents|
    ensures var row := Step(db, e).ledger.incidents[i];
            row.owner.None? && row.acknowledgedAt.None? && row.resolvedAt.None? && row.createdAt == e.now
  {
    if e.Process? {
      var signal := db.signals[e.id].signal;
      var s := Subject(e.id, signal, KeyFor(e.rule.value, signal));
      var state := StateOf(db, s.key);
      var v := Evaluate(e.rule.value, state.counters, signal.state, signal.occurredAt, e.now, false);
      ActWrites(db.ledger, state, v.decision, s, e.now);
    } else {
      var state := db.states[e.key];
      var signal := db.signals[state.lastSignal.value].signal;
      var s := Subject(state.lastSignal.value, signal, KeyFor(e.rule.value, signal));
      var v := Evaluate(e.rule.value, state.counters, signal.state, signal.occurredAt, e.now, true);
      ActWrites(db.ledger, state, v.decision, s, e.now);
    }
  }

  /** The counters a deadline leaves when it does not evaluate: those there were while it is not
      reached; without the deadline when the rule is gone, disabled or no longer about its signal; and
      a wiped run under maintenance. */
  function Dropped(c: Counters, e: Event): Counters
    requires e.Due?
  {
    if c.deadline.None? || e.now < c.deadline.value then c
    else if e.rule.None? || e.rule.value.id != e.key.rule then
      Counters(c.lastState, c.lastAt, c.matchingSince, c.matching, c.recoverySince, c.recovery, None)
    else Counters(Some(Maintenance), c.lastAt, None, 0, None, 0, None)
  }

  /** Such a deadline changes the counters of its own rule state and nothing else. */
  lemma {:induction false} DeadlineIsDropped(db: Db, e: Event)
    requires Inv(db) && e.Due?
    requires e.key in db.states ==>
               || e.rule.None? || e.rule.value.id != e.key.rule || e.maintenance
               || db.states[e.key].counters.deadline.None? || e.now < db.states[e.key].counters.deadline.value
    ensures Step(db, e) ==
            if e.key !in db.states then db
            else
              var state := db.states[e.key];
              db.(states := db.states[e.key := state.(counters := Dropped(state.counters, e))])
  {
    if e.key in db.states {
      var state := db.states[e.key];
      assert RemembersSignal(db.signals, e.key, state);
      assert db.states[e.key := state] == db.states;
      assert Suppress(state.counters) == Counters(Some(Maintenance), state.counters.lastAt, None, 0, None, 0, None);
    }
  }

  /** Delivery evidence is one more timeline entry of its incident, without a phase, and nothing else. */
  lemma {:induction false} NotificationIsEvidence(db: Db, e: Event)
    requires e.Notify?
    ensures var next := Step(db, e);
            && next == db.(ledger := db.ledger.(timeline := next.ledger.timeline))
            && next.ledger.timeline == db.ledger.timeline +
                 if e.incident < |db.ledger.incidents|
                 then [Entry(e.incident, Notification, None, None, None, None, e.now)] else []
  {
    assert db.ledger.timeline + [] == db.ledger.timeline;
  }

  // ---------------------------------------------------------------------------
  // The operators' columns over runs
  // ---------------------------------------------------------------------------

  /** The transaction commits an operator action on the incident. */
  predicate CommitsOn(db: Db, e: Event, i: nat) {
    && e.Operate? && e.mutation.incident == i
    && var reply := Mutate(db, e.mutation, e.eligible, e.clock).1; reply.Done? && !reply.result.replayed
  }

  datatype OperatorColumns = OperatorColumns(
    owner: Option<nat>, acknowledgedAt: Option<Time>, resolvedAt: Option<Time>)

  function ColumnsOf(row: Incident): OperatorColumns {
    OperatorColumns(row.owner, row.acknowledgedAt, row.resolvedAt)
  }

  /** What a transaction adds to what was said before: the owner of a committed assignment, the time
      of a committed acknowledgement or resolution. */
  function AlsoSaid(said: OperatorColumns, db: Db, e: Event, i: nat): OperatorColumns {
    if CommitsOn(db, e, i) && i < |db.ledger.incidents| then
      var at := Max(e.clock, db.ledger.incidents[i].updatedAt + 1);
      match e.mutation.action
      case Assign => said.(owner := e.mutation.owner)
      case Acknowledge => said.(acknowledgedAt := Some(at))
      case Resolve => said.(resolvedAt := Some(at))
      case _ => said
    else said
  }

  /** What the committed operator actions of a run say: the owner of the last assignment, and the
      times of the last acknowledgement and of the resolution. */
  function Operated(events: seq<Event>, i: nat): OperatorColumns {
    if events == [] then OperatorColumns(None, None, None)
    else
      var rest, e := events[..|events| - 1], events[|events| - 1];
      AlsoSaid(Operated(rest, i), Run(EMPTY, rest), e, i)
  }

  lemma {:induction false} OperatorStep(db: Db, e: Event, i: nat)
    requires e.Operate?
    ensures |Step(db, e).ledger.incidents| == |db.ledger.incidents|
    ensures i < |db.ledger.incidents| ==>
              var row, next := db.ledger.incidents[i], Step(db, e).ledger.incidents[i];
              if CommitsOn(db, e, i) then CommittedRow(row, next, e.mutation, e.eligible, e.clock) else next == row
  {
    MutationCommitsOrChangesNothing(db, e.mutation, e.eligible, e.clock);
  }

  lemma {:induction false} OtherStepSparesIncidents(db: Db, e: Event)
    requires !e.Operate? && !ByEvaluator(e)
    ensures Step(db, e).ledger.incidents == db.ledger.incidents
  {
  }

  lemma {:induction false} ColumnsStep(db: Db, e: Event, i: nat)
    requires i < |db.ledger.incidents|
    ensures i < |Step(db, e).ledger.incidents|
    ensures ColumnsOf(Step(db, e).ledger.incidents[i]) == AlsoSaid(ColumnsOf(db.ledger.incidents[i]), db, e, i)
  {
    if e.Operate? {
      OperatorStep(db, e, i);
    } else if ByEvaluator(e) {
      EvaluatorSparesOperatorColumns(db, e, i);
    } else {
      OtherStepSparesIncidents(db, e);
    }
  }

  lemma {:induction false} OnlyEvaluatorAdds(db: Db, e: Event, i: nat)
    requires |db.ledger.incidents| <= i < |Step(db, e).ledger.incidents|
    ensures ColumnsOf(Step(db, e).ledger.incidents[i]) == OperatorColumns(None, None, None) && !CommitsOn(db, e, i)
  {
    if e.Operate? {
      OperatorStep(db, e, i);
    } else if !ByEvaluator(e) {
      OtherStepSparesIncidents(db, e);
    } else {
      EvaluatorAddsUnowned(db, e, i);
    }
  }

  /** After every run an incident's owner is that of its last committed assignment, its
      acknowledgement that of its last committed acknowledgement, its resolution that of its
      committed resolution; nothing else ever writes these columns. */
  lemma {:induction false} OperatorColumnsTellOperators(events: seq<Event>, i: nat)
    requires i < |Run(EMPTY, events).ledger.incidents|
    ensures ColumnsOf(Run(EMPTY, events).ledger.incidents[i]) == Operated(events, i)
  {
    var rest, e := events[..|events| - 1], events[|events| - 1];
    if i < |Run(EMPTY, rest).ledger.incidents| {
      OperatorColumnsTellOperators(rest, i);
      ColumnsStep(Run(EMPTY, rest), e, i);
    } else {
      OnlyEvaluatorAdds(Run(EMPTY, rest), e, i);
      NothingOperatedYet(rest, i);
    }
  }

  lemma {:induction false} NothingOperatedYet(events: seq<Event>, i: nat)
    requires i >= |Run(EMPTY, events).ledger.incidents|
    ensures Operated(events, i) == OperatorColumns(None, None, None)
  {
    if events != [] {
      var rest, e := events[..|events| - 1], events[|events| - 1];
      var before := Run(EMPTY, rest);
      EmptyIsValid();
      RunKeeps(EMPTY, rest);
      if i < |before.ledger.incidents| {
        RowStep(before, e, i);
      }
      NothingOperatedYet(rest, i);
    }
  }

  // ---------------------------------------------------------------------------
  // What a rule state remembers
  // ---------------------------------------------------------------------------

  /** The transaction feeds the rule state a signal that is not older than its last one. */
  predicate Accepts(db: Db, e: Event, k: Key) {
    && e.Process? && e.id < |db.signals| && InputOf(db, e, k).Some?
    && !Older(StateOf(db, k).counters.lastAt, db.signals[e.id].signal.occurredAt)
  }

  /** The last signal a run fed to a rule state. */
  function LastFed(events: seq<Event>, k: Key): Option<nat> {
    if events == [] then None
    else
      var rest, e := events[..|events| - 1], events[|events| - 1];
      if Accepts(Run(EMPTY, rest), e, k) then Some(e.id) else LastFed(rest, k)
  }

  /** The reason code of the last signal a run fed to a rule state outside maintenance. */
  function LastReason(events: seq<Event>, k: Key): string {
    if events == [] then ""
    else
      var rest, e := events[..|events| - 1], events[|events| - 1];
      if Accepts(Run(EMPTY, rest), e, k) && !e.maintenance then Run(EMPTY, rest).signals[e.id].signal.reasonCode
      else LastReason(rest, k)
  }

  lemma {:induction false} ProcessRemembers(db: Db, e: Event, k: Key)
    requires e.Process?
    ensures var before, after := StateOf(db, k), StateOf(Step(db, e), k);
            && after.lastSignal == (if Accepts(db, e, k) then Some(e.id) else before.lastSignal)
            && after.lastReasonCode ==
                 (if Accepts(db, e, k) && !e.maintenance then db.signals[e.id].signal.reasonCode
                  else before.lastReasonCode)
  {
    if InputOf(db, e, k).None? {
      assert k in db.states ==> Step(db, e).states[k] == db.states[k];
    }
  }

  lemma {:induction false} OthersRemember(db: Db, e: Event, k: Key)
    requires !e.Process?
    ensures StateOf(Step(db, e), k).lastSignal == StateOf(db, k).lastSignal
    ensures StateOf(Step(db, e), k).lastReasonCode == StateOf(db, k).lastReasonCode
  {
  }

  /** After every run a rule state names the last signal it accepted and the reason code of the last
      one it evaluated: the code a certificate signal is compared with. */
  lemma {:induction false} RuleStateRemembers(events: seq<Event>, k: Key)
    ensures StateOf(Run(EMPTY, events), k).lastSignal == LastFed(events, k)
    ensures StateOf(Run(EMPTY, events), k).lastReasonCode == LastReason(events, k)
  {
    if events != [] {
      var rest, e := events[..|events| - 1], events[|events| - 1];
      RuleStateRemembers(rest, k);
      if e.Process? {
        ProcessRemembers(Run(EMPTY, rest), e, k);
      } else {
        OthersRemember(Run(EMPTY, rest), e, k);
      }
    }
  }
}
