/** What every transaction of the incident engine keeps. */
module IncidentInvariants {
  import opened Basics
  import opened Debounce
  import opened IncidentModel

  // ---------------------------------------------------------------------------
  // Timelines as stories
  // ---------------------------------------------------------------------------

  /** What the timeline says about one incident so far. */
  datatype Story = Unborn | Living(phase: Phase) | Broken

  predicate IsActive(status: Status) {
    status.Opened? || status.Acknowledged? || status.Investigating?
  }

  /** The transitions the design allows, entry kind by entry kind. */
  predicate Legal(kind: Kind, before: Phase, after: Phase) {
    match kind
    case Detected => false
    case SeverityChanged =>
      IsActive(before.status) && after.status == before.status && after.severity != before.severity
    case ConditionChanged => IsActive(before.status) && after == before
    case Recurrence => before.status.Recovered? && after.status.Opened?
    case RecoveredKind => IsActive(before.status) && after == before.(status := Recovered)
    case AcknowledgedKind => before.status.Opened? && after == before.(status := Acknowledged)
    case InvestigatingKind => before.status.Acknowledged? && after == before.(status := Investigating)
    case Assigned => !before.status.Resolved? && after == before
    case NoteKind => after == before
    case ResolvedKind => before.status.Recovered? && after == before.(status := Resolved)
    case Notification => false
  }

  /** Fold one entry: the first phase-bearing entry must be the detection, and every later one
      must start where the previous one ended. */
  function Advance(story: Story, e: Entry): Story {
    if e.after.None? then (if e.before.None? && e.kind.Notification? then story else Broken)
    else
      match story
      case Unborn =>
        if e.kind.Detected? && e.before.None? && e.after.value.status.Opened? then Living(e.after.value) else Broken
      case Living(phase) =>
        if e.before == Some(phase) && Legal(e.kind, phase, e.after.value) then Living(e.after.value) else Broken
      case Broken => Broken
  }

  function Replay(timeline: seq<Entry>, i: nat): Story {
    if timeline == [] then Unborn
    else
      var last := |timeline| - 1;
      var before := Replay(timeline[..last], i);
      if timeline[last].incident == i then Advance(before, timeline[last]) else before
  }

  lemma {:induction false} ReplayAppend(timeline: seq<Entry>, e: Entry, i: nat)
    ensures Replay(timeline + [e], i) ==
            if e.incident == i then Advance(Replay(timeline, i), e) else Replay(timeline, i)
  {
    assert (timeline + [e])[..|timeline|] == timeline;
  }

  predicate IsDetection(e: Entry, i: nat) {
    e.incident == i && e.kind.Detected?
  }

  predicate TellsOf(e: Entry, i: nat) {
    e.incident == i && !e.kind.Notification?
  }

  /** An unbroken story has exactly one detection, and nothing but notifications before it. */
  lemma {:induction false} DetectedOnceAndFirst(timeline: seq<Entry>, i: nat)
    requires Replay(timeline, i) != Broken
    ensures Replay(timeline, i).Living? <==>
            exists d :: 0 <= d < |timeline| && IsDetection(timeline[d], i)
    ensures forall d, e ::
              0 <= d < |timeline| && 0 <= e < |timeline| && IsDetection(timeline[d], i) && TellsOf(timeline[e], i) ==>
                             d <= e && (timeline[e].kind.Detected? ==> d == e)
  {
    if timeline != [] {
      var last := |timeline| - 1;
      var rest := timeline[..last];
      assert Replay(rest, i) != Broken;
      DetectedOnceAndFirst(rest, i);
      assert timeline == rest + [timeline[last]];
      if Replay(rest, i).Living? {
        var d :| 0 <= d < |rest| && IsDetection(rest[d], i);
        assert IsDetection(timeline[d], i);
      } else {
        UnbornHasOnlyNotifications(rest, i);
        if TellsOf(timeline[last], i) {
          assert IsDetection(timeline[last], i);
        }
      }
    }
  }

  lemma {:induction false} UnbornHasOnlyNotifications(timeline: seq<Entry>, i: nat)
    requires Replay(timeline, i) == Unborn
    ensures forall e :: 0 <= e < |timeline| ==> !TellsOf(timeline[e], i)
  {
    if timeline != [] {
      UnbornHasOnlyNotifications(timeline[..|timeline| - 1], i);
    }
  }

  // ---------------------------------------------------------------------------
  // The invariant
  // ---------------------------------------------------------------------------

  /** A row agrees with its status and meets the table's CHECK constraints. */
  predicate RowOk(row: Incident) {
    && (row.recoveredAt.Some? <==> row.status.Recovered? || row.status.Resolved?)
    && (row.resolvedAt.Some? <==> row.status.Resolved?)
    && row.version >= 1
    && row.latestSignalAt >= row.detectedAt
    && (row.recoveredAt.Some? ==> row.recoveredAt.value >= row.detectedAt)
    && (row.resolvedAt.Some? && row.recoveredAt.Some? ==> row.resolvedAt.value >= row.recoveredAt.value)
  }

  ghost predicate RowsOk(l: Ledger) {
    forall i :: 0 <= i < |l.incidents| ==> RowOk(l.incidents[i])
  }

  /** Replaying the timeline gives every incident's current status and severity. */
  ghost predicate StoriesOk(l: Ledger) {
    forall i: nat :: Replay(l.timeline, i) == if i < |l.incidents| then Living(PhaseOf(l.incidents[i])) else Unborn
  }

  ghost predicate LedgerOk(l: Ledger) {
    RowsOk(l) && StoriesOk(l)
  }

  /** What a rule state says about the incident it names. */
  predicate NamesActive(l: Ledger, key: Key, state: RuleState) {
    state.active.Some? ==>
      && state.active.value < |l.incidents|
      && l.incidents[state.active.value].key == key
      && !l.incidents[state.active.value].status.Resolved?
      && state.counters.lastAt.Some?
      && l.incidents[state.active.value].detectedAt <= state.counters.lastAt.value
  }

  ghost predicate StatesNameActive(db: Db) {
    forall k :: k in db.states ==> NamesActive(db.ledger, k, db.states[k])
  }

  /** Every unresolved incident is named by the rule state with its key. */
  ghost predicate ActiveAreNamed(db: Db) {
    forall i :: 0 <= i < |db.ledger.incidents| && !db.ledger.incidents[i].status.Resolved? ==>
      db.ledger.incidents[i].key in db.states && db.states[db.ledger.incidents[i].key].active == Some(i)
  }

  /** What a rule state remembers about its last signal. */
  predicate RemembersSignal(signals: seq<JournalRow>, key: Key, state: RuleState) {
    if state.lastSignal.None? then state.counters == FRESH && state.active.None?
    else
      && state.lastSignal.value < |signals|
      && signals[state.lastSignal.value].signal.resource == key.resource
      && signals[state.lastSignal.value].signal.checkType == key.checkType
      && state.counters.lastAt == Some(signals[state.lastSignal.value].signal.occurredAt)
      && (state.counters.deadline.Some? ==>
            state.counters.lastState == Some(signals[state.lastSignal.value].signal.state))
  }

  ghost predicate StatesRememberSignals(db: Db) {
    forall k :: k in db.states ==> RemembersSignal(db.signals, k, db.states[k])
  }

  /** No row is both processed and dead-lettered, source keys are unique, and exactly the
      processed signals have a recorded outcome. */
  ghost predicate JournalOk(db: Db) {
    && (forall j :: 0 <= j < |db.signals| ==> !(db.signals[j].processedAt.Some? && db.signals[j].deadLetteredAt.Some?))
    && (forall a, b :: 0 <= a < b < |db.signals| ==> db.signals[a].sourceKey != db.signals[b].sourceKey)
    && (forall j: nat :: j in db.evidence <==> j < |db.signals| && db.signals[j].processedAt.Some?)
  }

  /** A receipt points at the one timeline event it wrote and at a version the incident reached. */
  predicate ReceiptOk(l: Ledger, key: ReceiptKey, r: Receipt) {
    && key.incident < |l.incidents|
    && r.timelineEvent < |l.timeline|
    && l.timeline[r.timelineEvent].incident == key.incident
    && l.timeline[r.timelineEvent].actor == Some(key.actor)
    && l.timeline[r.timelineEvent].kind == KindOf(key.action)
    && l.timeline[r.timelineEvent].after.Some?
    && l.timeline[r.timelineEvent].after.value.status == r.status
    && r.payload.action == key.action
    && r.version == r.payload.expectedVersion + 1
    && r.version <= l.incidents[key.incident].version
  }

  ghost predicate ReceiptsOk(db: Db) {
    && (forall k :: k in db.receipts ==> ReceiptOk(db.ledger, k, db.receipts[k]))
    && (forall a, b :: a in db.receipts && b in db.receipts && a != b ==>
          db.receipts[a].timelineEvent != db.receipts[b].timelineEvent)
  }

  ghost predicate Inv(db: Db) {
    && LedgerOk(db.ledger)
    && StatesNameActive(db)
    && ActiveAreNamed(db)
    && StatesRememberSignals(db)
    && JournalOk(db)
    && ReceiptsOk(db)
  }

  // ---------------------------------------------------------------------------
  // Ledger writes
  // ---------------------------------------------------------------------------

  /** One write to incident `i`: the version grows by one, and the entry, if any, tells the change. */
  predicate LegalWrite(row: Incident, next: Incident, i: nat, entry: Option<Entry>) {
    && next.key == row.key
    && next.version == row.version + 1
    && next.detectedAt == row.detectedAt
    && RowOk(next)
    && (if entry.None? then PhaseOf(next) == PhaseOf(row)
        else
          && entry.value.incident == i
          && entry.value.before == Some(PhaseOf(row))
          && entry.value.after == Some(PhaseOf(next))
          && Legal(entry.value.kind, PhaseOf(row), PhaseOf(next)))
  }

  /** The ledger after a transaction: the same, one row written, one row inserted, or one notification noted. */
  ghost predicate LedgerStep(l: Ledger, m: Ledger) {
    || m == l
    || (exists i, next, entry :: WroteRow(l, m, i, next, entry))
    || (exists row, entry :: InsertedRow(l, m, row, entry))
    || (exists entry :: NotedEvidence(l, m, entry))
  }

  ghost predicate WroteRow(l: Ledger, m: Ledger, i: nat, next: Incident, entry: Option<Entry>) {
    i < |l.incidents| && LegalWrite(l.incidents[i], next, i, entry) && m == UpdateRow(l, i, next, entry)
  }

  ghost predicate InsertedRow(l: Ledger, m: Ledger, row: Incident, entry: Entry) {
    && m == InsertRow(l, row, entry)
    && RowOk(row) && row.status.Opened? && row.version == 1
    && entry.incident == |l.incidents| && entry.kind.Detected? && entry.before.None? &&
         entry.after == Some(PhaseOf(row))
  }

  ghost predicate NotedEvidence(l: Ledger, m: Ledger, entry: Entry) {
    m == l.(timeline := l.timeline + [entry]) && entry.kind.Notification? && entry.before.None? && entry.after.None?
  }

  lemma {:induction false} WriteKeepsLedger(l: Ledger, i: nat, next: Incident, entry: Option<Entry>)
    requires LedgerOk(l) && i < |l.incidents| && LegalWrite(l.incidents[i], next, i, entry)
    ensures LedgerOk(UpdateRow(l, i, next, entry))
  {
    var m := UpdateRow(l, i, next, entry);
    forall j: nat
      ensures Replay(m.timeline, j) == if j < |m.incidents| then Living(PhaseOf(m.incidents[j])) else Unborn
    {
      assert Replay(l.timeline, j) == if j < |l.incidents| then Living(PhaseOf(l.incidents[j])) else Unborn;
      if entry.Some? {
        ReplayAppend(l.timeline, entry.value, j);
      }
    }
  }

  lemma {:induction false} InsertKeepsLedger(l: Ledger, row: Incident, entry: Entry)
    requires LedgerOk(l) && InsertedRow(l, InsertRow(l, row, entry), row, entry)
    ensures LedgerOk(InsertRow(l, row, entry))
  {
    var m := InsertRow(l, row, entry);
    forall j: nat
      ensures Replay(m.timeline, j) == if j < |m.incidents| then Living(PhaseOf(m.incidents[j])) else Unborn
    {
      assert Replay(l.timeline, j) == if j < |l.incidents| then Living(PhaseOf(l.incidents[j])) else Unborn;
      ReplayAppend(l.timeline, entry, j);
    }
  }

  lemma {:induction false} NoteKeepsLedger(l: Ledger, m: Ledger, entry: Entry)
    requires LedgerOk(l) && NotedEvidence(l, m, entry)
    ensures LedgerOk(m)
  {
    forall j: nat
      ensures Replay(m.timeline, j) == if j < |m.incidents| then Living(PhaseOf(m.incidents[j])) else Unborn
    {
      assert Replay(l.timeline, j) == if j < |l.incidents| then Living(PhaseOf(l.incidents[j])) else Unborn;
      ReplayAppend(l.timeline, entry, j);
    }
  }

  lemma {:induction false} LedgerStepKeeps(l: Ledger, m: Ledger)
    requires LedgerOk(l) && LedgerStep(l, m)
    ensures LedgerOk(m)
  {
    if m == l {
    } else if i, next, entry :| WroteRow(l, m, i, next, entry) {
      WriteKeepsLedger(l, i, next, entry);
    } else if row, entry :| InsertedRow(l, m, row, entry) {
      InsertKeepsLedger(l, row, entry);
    } else {
      var entry :| NotedEvidence(l, m, entry);
      NoteKeepsLedger(l, m, entry);
    }
  }

  // ---------------------------------------------------------------------------
  // The evaluator's action on the ledger
  // ---------------------------------------------------------------------------

  /** The rule state names the key's unresolved incident, and the subject's signal is not older than its detection. */
  ghost predicate ReadyToAct(l: Ledger, active: Option<nat>, s: Subject) {
    && (active.Some? ==>
          && active.value < |l.incidents|
          && l.incidents[active.value].key == s.key
          && !l.incidents[active.value].status.Resolved?
          && l.incidents[active.value].detectedAt <= s.signal.occurredAt)
    && (active.None? ==>
          forall j :: 0 <= j < |l.incidents| && l.incidents[j].key == s.key ==> l.incidents[j].status.Resolved?)
  }

  /** What an action does: nothing, one write to the named incident, or one new incident. */
  ghost predicate ActEffect(l: Ledger, active: Option<nat>, s: Subject, acted: Acted) {
    || (acted.ledger == l && acted.active == active && !acted.changed)
    || (active.Some? && acted.active == active && acted.changed &&
        exists next, entry :: WroteRow(l, acted.ledger, active.value, next, entry) && !next.status.Resolved?)
    || (active.None? && acted.active == Some(|l.incidents|) && acted.changed &&
        exists row, entry ::
          InsertedRow(l, acted.ledger, row, entry) && row.key == s.key && row.detectedAt == s.signal.occurredAt)
  }

  lemma {:induction false} OpenOrUpdateEffect(
      l: Ledger, active: Option<nat>, s: Subject, severity: Severity, lastReasonCode: string, now: Time)
    requires RowsOk(l) && ReadyToAct(l, active, s)
    ensures ActEffect(l, active, s, OpenOrUpdate(l, active, s, severity, lastReasonCode, now))
  {
    var acted := OpenOrUpdate(l, active, s, severity, lastReasonCode, now);
    if active.None? {
      var row := NewIncident(s, severity, now);
      assert FindUnresolved(l.incidents, s.key).None?;
      assert InsertedRow(l, acted.ledger, row, SignalEntry(|l.incidents|, Detected, None, Phase(Opened, severity), s));
    } else {
      var i := active.value;
      var row := l.incidents[i];
      assert RowOk(row);
      if row.status.Recovered? {
        assert WroteRow(l, acted.ledger, i, Reopen(row, s, severity, now),
            Some(SignalEntry(i, Recurrence, Some(Phase(Recovered, row.severity)), Phase(Opened, severity), s)));
      } else if row.severity != severity {
        assert WroteRow(l, acted.ledger, i, Touch(row, s, now).(severity := severity),
            Some(SignalEntry(i, SeverityChanged, Some(PhaseOf(row)), Phase(row.status, severity), s)));
      } else if CertificateConditionChanged(s, lastReasonCode) {
        assert WroteRow(l, acted.ledger, i, Touch(row, s, now),
            Some(SignalEntry(i, ConditionChanged, Some(PhaseOf(row)), PhaseOf(row), s)));
      } else {
        assert WroteRow(l, acted.ledger, i, Touch(row, s, now), None);
      }
    }
  }

  lemma {:induction false} RecoverEffect(l: Ledger, active: Option<nat>, s: Subject, now: Time)
    requires RowsOk(l) && ReadyToAct(l, active, s)
    ensures ActEffect(l, active, s, RecoverActive(l, active, s, now))
  {
    if active.Some? && !l.incidents[active.value].status.Recovered? {
      var i := active.value;
      var row := l.incidents[i];
      assert RowOk(row);
      assert WroteRow(l, RecoverActive(l, active, s, now).ledger, i, RecoverRow(row, s, now),
          Some(SignalEntry(i, RecoveredKind, Some(PhaseOf(row)), Phase(Recovered, row.severity), s)));
    }
  }

  /** A decision touches only the incident its rule state names, and reports a change exactly when it made one. */
  lemma {:induction false} ActHasEffect(l: Ledger, state: RuleState, decision: Decision, s: Subject, now: Time)
    requires RowsOk(l) && ReadyToAct(l, state.active, s)
    ensures ActEffect(l, state.active, s, Act(l, state, decision, s, now))
    ensures Act(l, state, decision, s, now).changed <==> Act(l, state, decision, s, now).ledger != l
  {
    match decision
    case Wait =>
    case Open(condition) => OpenOrUpdateEffect(l, state.active, s, condition.severity, state.lastReasonCode, now);
    case Recover => RecoverEffect(l, state.active, s, now);
  }

  /** What a decision leaves behind for its key: waiting nothing; opening an active incident of the
      condition's severity; recovering no active incident. */
  ghost predicate Holds(decision: Decision, before: Ledger, after: Ledger, active: Option<nat>, s: Subject) {
    match decision
    case Wait => after == before
    case Open(condition) =>
      && active.Some? && active.value < |after.incidents|
      && var row := after.incidents[active.value];
         row.key == s.key && IsActive(row.status) && row.severity == condition.severity &&
           row.latestSignalAt >= s.signal.occurredAt
    case Recover =>
      active.Some? ==>
        && active.value < |after.incidents| && active.value < |before.incidents|
        && var row, old' := after.incidents[active.value], before.incidents[active.value];
           row.key == s.key && row.status.Recovered? && row.severity == old'.severity &&
           row.recoveredAt == if old'.status.Recovered? then old'.recoveredAt else Some(s.signal.occurredAt)
  }

  lemma {:induction false} ActTakesHold(l: Ledger, state: RuleState, decision: Decision, s: Subject, now: Time)
    requires ReadyToAct(l, state.active, s)
    ensures var acted := Act(l, state, decision, s, now); Holds(decision, l, acted.ledger, acted.active, s)
  {
  }

  lemma {:induction false} EffectIsLedgerStep(l: Ledger, active: Option<nat>, s: Subject, acted: Acted)
    requires ActEffect(l, active, s, acted)
    ensures LedgerStep(l, acted.ledger)
  {
  }

  // ---------------------------------------------------------------------------
  // Receipts survive ledger steps
  // ---------------------------------------------------------------------------

  lemma {:induction false} ReceiptSurvives(l: Ledger, m: Ledger, key: ReceiptKey, r: Receipt)
    requires ReceiptOk(l, key, r) && LedgerStep(l, m)
    ensures ReceiptOk(m, key, r)
  {
  }

  lemma {:induction false} ReceiptsSurvive(db: Db, next: Db)
    requires ReceiptsOk(db) && next.receipts == db.receipts && LedgerStep(db.ledger, next.ledger)
    ensures ReceiptsOk(next)
  {
    forall k | k in next.receipts
      ensures ReceiptOk(next.ledger, k, next.receipts[k])
    {
      ReceiptSurvives(db.ledger, next.ledger, k, db.receipts[k]);
    }
  }

  // ---------------------------------------------------------------------------
  // Linking rule states and incidents
  // ---------------------------------------------------------------------------

  /** Saving the acting rule state after its action keeps the link in both directions. */
  lemma {:induction false} LinkAfterAct(db: Db, s: Subject, acted: Acted, saved: RuleState, next: Db)
    requires StatesNameActive(db) && ActiveAreNamed(db)
    requires ActEffect(db.ledger, StateOf(db, s.key).active, s, acted)
    requires saved.active == acted.active
    requires saved.counters.lastAt.Some? && s.signal.occurredAt <= saved.counters.lastAt.value
    requires StateOf(db, s.key).active.Some? ==>
               db.ledger.incidents[StateOf(db, s.key).active.value].detectedAt <= s.signal.occurredAt
    requires next.states == db.states[s.key := saved] && next.ledger == acted.ledger
    ensures StatesNameActive(next) && ActiveAreNamed(next)
  {
    var active := StateOf(db, s.key).active;
    forall k | k in next.states
      ensures NamesActive(next.ledger, k, next.states[k])
    {
      if k != s.key {
        assert NamesActive(db.ledger, k, db.states[k]);
      } else if s.key in db.states {
        assert NamesActive(db.ledger, s.key, db.states[s.key]);
      }
    }
    forall i | 0 <= i < |next.ledger.incidents| && !next.ledger.incidents[i].status.Resolved?
      ensures next.ledger.incidents[i].key in next.states && next.states[next.ledger.incidents[i].key].active == Some(i)
    {
      if i < |db.ledger.incidents| {
        assert next.ledger.incidents[i].key == db.ledger.incidents[i].key;
        assert Some(i) != active ==> next.ledger.incidents[i] == db.ledger.incidents[i];
      }
    }
  }

  /** The rule state that wins for a pending signal is ready to act on it. */
  lemma {:induction false} ReadyFor(db: Db, s: Subject)
    requires StatesNameActive(db) && ActiveAreNamed(db)
    requires !Older(StateOf(db, s.key).counters.lastAt, s.signal.occurredAt)
    ensures ReadyToAct(db.ledger, StateOf(db, s.key).active, s)
  {
    if s.key in db.states {
      assert NamesActive(db.ledger, s.key, db.states[s.key]);
    }
  }

  // ---------------------------------------------------------------------------
  // Preservation, transaction by transaction
  // ---------------------------------------------------------------------------

  lemma {:induction false} ProcessedKeepsJournal(db: Db, id: nat, now: Time, outcome: Outcome, next: Db)
    requires JournalOk(db) && id < |db.signals| && !Settled(db.signals[id])
    requires next.signals == db.signals[id := Processed(db.signals[id], now)] &&
               next.evidence == db.evidence[id := outcome]
    ensures JournalOk(next)
  {
  }

  /** Saving one rule state and marking one signal processed leaves the other memories intact. */
  lemma {:induction false} MemoriesAfterSave(db: Db, id: nat, row: JournalRow, key: Key, saved: RuleState, next: Db)
    requires StatesRememberSignals(db) && id < |db.signals| && row.signal == db.signals[id].signal
    requires next.signals == db.signals[id := row] && next.states == db.states[key := saved]
    requires RemembersSignal(next.signals, key, saved)
    ensures StatesRememberSignals(next)
  {
    forall k | k in next.states
      ensures RemembersSignal(next.signals, k, next.states[k])
    {
      if k != key {
        assert RemembersSignal(db.signals, k, db.states[k]);
      }
    }
  }

  lemma {:induction false} MemoriesAfterMark(db: Db, id: nat, row: JournalRow, next: Db)
    requires StatesRememberSignals(db) && id < |db.signals| && row.signal == db.signals[id].signal
    requires next.signals == db.signals[id := row] && next.states == db.states
    ensures StatesRememberSignals(next)
  {
    forall k | k in next.states
      ensures RemembersSignal(next.signals, k, next.states[k])
    {
      assert RemembersSignal(db.signals, k, db.states[k]);
    }
  }

  /** Any action on the rule state of a signal, saved together with that signal's journal row. */
  lemma {:induction false} SaveKeeps(db: Db, s: Subject, row: JournalRow, acted: Acted, saved: RuleState, next: Db)
    requires Inv(db) && s.id < |db.signals| && row.signal == db.signals[s.id].signal
    requires !Older(StateOf(db, s.key).counters.lastAt, s.signal.occurredAt)
    requires ActEffect(db.ledger, StateOf(db, s.key).active, s, acted)
    requires saved.active == acted.active && saved.counters.lastAt == Some(s.signal.occurredAt)
    requires next.signals == db.signals[s.id := row] && next.states == db.states[s.key := saved]
    requires next.ledger == acted.ledger && next.receipts == db.receipts
    requires RemembersSignal(next.signals, s.key, saved) && JournalOk(next)
    ensures Inv(next) && LedgerStep(db.ledger, next.ledger)
  {
    ReadyFor(db, s);
    EffectIsLedgerStep(db.ledger, StateOf(db, s.key).active, s, acted);
    LedgerStepKeeps(db.ledger, acted.ledger);
    LinkAfterAct(db, s, acted, saved, next);
    MemoriesAfterSave(db, s.id, row, s.key, saved, next);
    ReceiptsSurvive(db, next);
  }

  /** Evaluation leaves a deadline only with the state it evaluated. */
  lemma {:induction false} EvaluatedProcessKeeps(db: Db, id: nat, rule: Rule, now: Time, outcome: Outcome)
    requires Inv(db) && id < |db.signals| && !Settled(db.signals[id])
    requires !Older(StateOf(db, KeyFor(rule, db.signals[id].signal)).counters.lastAt, db.signals[id].signal.occurredAt)
    ensures var s := Subject(id, db.signals[id].signal, KeyFor(rule, db.signals[id].signal));
            var (acted, saved) := EvaluateSignal(db, s, rule, now);
            && LedgerStep(db.ledger, acted.ledger)
            && Inv(Db(db.signals[id := Processed(db.signals[id], now)], db.states[s.key := saved], acted.ledger,
                      db.receipts, db.evidence[id := outcome]))
  {
    var s := Subject(id, db.signals[id].signal, KeyFor(rule, db.signals[id].signal));
    var state := StateOf(db, s.key);
    var (acted, saved) := EvaluateSignal(db, s, rule, now);
    var e := Evaluate(rule, state.counters, s.signal.state, s.signal.occurredAt, now, false);
    var row := Processed(db.signals[id], now);
    var next :=
      Db(db.signals[id := row], db.states[s.key := saved], acted.ledger, db.receipts, db.evidence[id := outcome]);
    ReadyFor(db, s);
    ActHasEffect(db.ledger, state, e.decision, s, now);
    ProcessedKeepsJournal(db, id, now, outcome, next);
    SaveKeeps(db, s, row, acted, saved, next);
  }

  lemma {:induction false} SuppressedProcessKeeps(db: Db, id: nat, key: Key, now: Time)
    requires Inv(db) && id < |db.signals| && !Settled(db.signals[id])
    requires key.resource == db.signals[id].signal.resource && key.checkType == db.signals[id].signal.checkType
    requires !Older(StateOf(db, key).counters.lastAt, db.signals[id].signal.occurredAt)
    ensures var state := StateOf(db, key);
            var saved := state.(lastSignal := Some(id),
                                counters :=
                Suppress(state.counters).(lastAt := Some(db.signals[id].signal.occurredAt)));
            Inv(db.(signals := db.signals[id := Processed(db.signals[id], now)], states := db.states[key := saved],
                    evidence := db.evidence[id := UnderMaintenance]))
  {
    var state := StateOf(db, key);
    var saved := state.(lastSignal := Some(id),
                        counters := Suppress(state.counters).(lastAt := Some(db.signals[id].signal.occurredAt)));
    var row := Processed(db.signals[id], now);
    var next := db.(signals := db.signals[id := row], states := db.states[key := saved],
                    evidence := db.evidence[id := UnderMaintenance]);
    ProcessedKeepsJournal(db, id, now, UnderMaintenance, next);
    SaveKeeps(db, Subject(id, db.signals[id].signal, key), row, Acted(db.ledger, state.active, false), saved, next);
  }

  /** A signal that no rule takes, or that is older than the last accepted one, is only marked. */
  lemma {:induction false} IgnoredProcessKeeps(db: Db, id: nat, now: Time, outcome: Outcome)
    requires Inv(db) && id < |db.signals| && !Settled(db.signals[id])
    ensures Inv(db.(signals := db.signals[id := Processed(db.signals[id], now)],
                    evidence := db.evidence[id := outcome]))
  {
    var next :=
      db.(signals := db.signals[id := Processed(db.signals[id], now)], evidence := db.evidence[id := outcome]);
    MemoriesAfterMark(db, id, Processed(db.signals[id], now), next);
    ProcessedKeepsJournal(db, id, now, outcome, next);
  }

  lemma {:induction false} ProcessKeeps(db: Db, id: nat, rule: Option<Rule>, maintenance: bool, now: Time)
    requires Inv(db)
    ensures Inv(ProcessSignal(db, id, rule, maintenance, now))
    ensures LedgerStep(db.ledger, ProcessSignal(db, id, rule, maintenance, now).ledger)
  {
    var next := ProcessSignal(db, id, rule, maintenance, now);
    if id < |db.signals| && !Settled(db.signals[id]) {
      if rule.None? {
        IgnoredProcessKeeps(db, id, now, NoRule);
      } else {
        var signal := db.signals[id].signal;
        var key := KeyFor(rule.value, signal);
        if Older(StateOf(db, key).counters.lastAt, signal.occurredAt) {
          assert next.states == db.states;
          IgnoredProcessKeeps(db, id, now, Debounced);
        } else if maintenance {
          SuppressedProcessKeeps(db, id, key, now);
        } else {
          EvaluatedProcessKeeps(db, id, rule.value, now, next.evidence[id]);
        }
      }
    }
  }

  /** A due rule state can act on its last signal again. */
  lemma {:induction false} DueIsReady(db: Db, key: Key)
    requires Inv(db) && key in db.states && db.states[key].lastSignal.Some?
    ensures var state := db.states[key];
            && state.lastSignal.value < |db.signals|
            && var s := Subject(state.lastSignal.value, db.signals[state.lastSignal.value].signal, key);
               && state.counters.lastAt == Some(s.signal.occurredAt)
               && !Older(state.counters.lastAt, s.signal.occurredAt)
               && s.signal.resource == key.resource && s.signal.checkType == key.checkType
               && ReadyToAct(db.ledger, state.active, s)
  {
    var state := db.states[key];
    assert RemembersSignal(db.signals, key, state);
    ReadyFor(db, Subject(state.lastSignal.value, db.signals[state.lastSignal.value].signal, key));
  }

  /** Saving a due rule state leaves the journal alone. */
  lemma {:induction false} DueSaveKeeps(db: Db, key: Key, acted: Acted, saved: RuleState)
    requires Inv(db) && key in db.states && db.states[key].lastSignal.Some? &&
               db.states[key].lastSignal.value < |db.signals|
    requires saved.active == acted.active && saved.lastSignal == db.states[key].lastSignal
    requires saved.counters.lastAt == db.states[key].counters.lastAt && saved.counters.deadline.None?
    requires ActEffect(db.ledger, db.states[key].active,
                       Subject(saved.lastSignal.value, db.signals[saved.lastSignal.value].signal, key), acted)
    ensures Inv(db.(ledger := acted.ledger, states := db.states[key := saved]))
    ensures LedgerStep(db.ledger, acted.ledger)
  {
    DueIsReady(db, key);
    var id := saved.lastSignal.value;
    assert db.signals[id := db.signals[id]] == db.signals;
    assert RemembersSignal(db.signals, key, saved);
    SaveKeeps(db, Subject(id, db.signals[id].signal, key), db.signals[id], acted, saved,
              db.(ledger := acted.ledger, states := db.states[key := saved]));
  }

  lemma {:induction false} DueEvaluationKeeps(db: Db, key: Key, rule: Rule, now: Time)
    requires Inv(db) && key in db.states && db.states[key].lastSignal.Some? &&
               db.states[key].lastSignal.value < |db.signals|
    ensures var state := db.states[key];
            var s := Subject(state.lastSignal.value, db.signals[state.lastSignal.value].signal, key);
            var (acted, saved) := EvaluateDue(db, state, s, rule, now);
            && LedgerStep(db.ledger, acted.ledger)
            && Inv(db.(ledger := acted.ledger, states := db.states[key := saved]))
  {
    var state := db.states[key];
    var s := Subject(state.lastSignal.value, db.signals[state.lastSignal.value].signal, key);
    DueIsReady(db, key);
    var (acted, saved) := EvaluateDue(db, state, s, rule, now);
    var e := Evaluate(rule, state.counters, s.signal.state, s.signal.occurredAt, now, true);
    ActHasEffect(db.ledger, state, e.decision, s, now);
    DueSaveKeeps(db, key, acted, saved);
  }

  lemma {:induction false} DueKeeps(db: Db, key: Key, rule: Option<Rule>, maintenance: bool, now: Time)
    requires Inv(db)
    ensures Inv(ProcessDue(db, key, rule, maintenance, now))
    ensures LedgerStep(db.ledger, ProcessDue(db, key, rule, maintenance, now).ledger)
  {
    var next := ProcessDue(db, key, rule, maintenance, now);
    if next != db {
      var state := db.states[key];
      if rule.None? || rule.value.id != key.rule || maintenance {
        var acted := Acted(db.ledger, state.active, false);
        DueSaveKeeps(db, key, acted, next.states[key]);
        assert next == db.(ledger := acted.ledger, states := db.states[key := next.states[key]]);
      } else {
        DueIsReady(db, key);
        assert KeyFor(rule.value, db.signals[state.lastSignal.value].signal) == key;
        DueEvaluationKeeps(db, key, rule.value, now);
      }
    }
  }

  lemma {:induction false} AppendKeeps(db: Db, sourceKey: string, signal: Signal, availableAt: Time)
    requires Inv(db)
    ensures Inv(AppendSignal(db, sourceKey, signal, availableAt))
  {
    var next := AppendSignal(db, sourceKey, signal, availableAt);
    forall k | k in next.states
      ensures RemembersSignal(next.signals, k, next.states[k])
    {
      assert RemembersSignal(db.signals, k, db.states[k]);
    }
  }

  lemma {:induction false} ClaimKeeps(db: Db, id: nat, now: Time, lease: int, maxAttempts: nat)
    requires Inv(db)
    ensures Inv(ClaimSignal(db, id, now, lease, maxAttempts))
  {
    var next := ClaimSignal(db, id, now, lease, maxAttempts);
    if next != db {
      MemoriesAfterMark(db, id, next.signals[id], next);
    }
  }

  lemma {:induction false} FailKeeps(db: Db, id: nat, now: Time, retryAfter: int, maxAttempts: nat)
    requires Inv(db)
    ensures Inv(FailSignal(db, id, now, retryAfter, maxAttempts))
  {
    var next := FailSignal(db, id, now, retryAfter, maxAttempts);
    if id < |db.signals| && !Settled(db.signals[id]) {
      MemoriesAfterMark(db, id, next.signals[id], next);
    }
  }

  predicate Accepted(db: Db, m: Mutation, eligible: set<nat>, clock: Time) {
    Validate(m).None? && ReceiptKeyOf(m) !in db.receipts && Refusal(db, m, eligible, clock).None?
  }

  lemma {:induction false} CommitWrites(db: Db, m: Mutation, eligible: set<nat>, clock: Time)
    requires LedgerOk(db.ledger) && Accepted(db, m, eligible, clock)
    ensures LedgerStep(db.ledger, Commit(db, m, clock).ledger)
    ensures LedgerOk(Commit(db, m, clock).ledger)
  {
    var i := m.incident;
    var row := db.ledger.incidents[i];
    var status := Transition(m.action, row.status).value;
    var now := MutationTime(row, clock);
    var entry :=
      Entry(i, KindOf(m.action), Some(PhaseOf(row)), Some(Phase(status, row.severity)), None, Some(m.actor), now);
    assert RowOk(row);
    assert WroteRow(db.ledger, Commit(db, m, clock).ledger, i, MutatedRow(row, m, status, now), Some(entry));
    LedgerStepKeeps(db.ledger, Commit(db, m, clock).ledger);
  }

  lemma {:induction false} CommitKeepsLink(db: Db, m: Mutation, eligible: set<nat>, clock: Time)
    requires StatesNameActive(db) && ActiveAreNamed(db) && StatesRememberSignals(db) && Accepted(db, m, eligible, clock)
    ensures var next := Commit(db, m, clock);
            StatesNameActive(next) && ActiveAreNamed(next) && StatesRememberSignals(next)
  {
    var next := Commit(db, m, clock);
    forall k | k in next.states
      ensures NamesActive(next.ledger, k, next.states[k]) && RemembersSignal(next.signals, k, next.states[k])
    {
      assert NamesActive(db.ledger, k, db.states[k]);
      assert RemembersSignal(db.signals, k, db.states[k]);
    }
  }

  lemma {:induction false} CommitKeepsReceipts(db: Db, m: Mutation, eligible: set<nat>, clock: Time)
    requires LedgerOk(db.ledger) && ReceiptsOk(db) && Accepted(db, m, eligible, clock)
    ensures ReceiptsOk(Commit(db, m, clock))
  {
    var next := Commit(db, m, clock);
    CommitWrites(db, m, eligible, clock);
    forall k | k in next.receipts
      ensures ReceiptOk(next.ledger, k, next.receipts[k])
    {
      if k != ReceiptKeyOf(m) {
        ReceiptSurvives(db.ledger, next.ledger, k, db.receipts[k]);
      }
    }
    forall k | k in db.receipts
      ensures db.receipts[k].timelineEvent < |db.ledger.timeline|
    {
      assert ReceiptOk(db.ledger, k, db.receipts[k]);
    }
  }

  lemma {:induction false} OperateKeeps(db: Db, m: Mutation, eligible: set<nat>, clock: Time)
    requires Inv(db)
    ensures Inv(Mutate(db, m, eligible, clock).0)
    ensures LedgerStep(db.ledger, Mutate(db, m, eligible, clock).0.ledger)
  {
    if Accepted(db, m, eligible, clock) {
      CommitWrites(db, m, eligible, clock);
      CommitKeepsLink(db, m, eligible, clock);
      CommitKeepsReceipts(db, m, eligible, clock);
    }
  }

  lemma {:induction false} NotifyKeeps(db: Db, i: nat, now: Time)
    requires Inv(db)
    ensures Inv(RecordNotification(db, i, now))
    ensures LedgerStep(db.ledger, RecordNotification(db, i, now).ledger)
  {
    var next := RecordNotification(db, i, now);
    if i < |db.ledger.incidents| {
      var entry := Entry(i, Notification, None, None, None, None, now);
      assert NotedEvidence(db.ledger, next.ledger, entry);
      NoteKeepsLedger(db.ledger, next.ledger, entry);
      forall k | k in next.states
        ensures NamesActive(next.ledger, k, next.states[k])
      {
        assert NamesActive(db.ledger, k, db.states[k]);
      }
      ReceiptsSurvive(db, next);
    }
  }

  /** Every transaction keeps the invariant, and changes the ledger by at most one legal step. */
  lemma {:induction false} StepKeeps(db: Db, e: Event)
    requires Inv(db)
    ensures Inv(Step(db, e))
    ensures LedgerStep(db.ledger, Step(db, e).ledger)
  {
    match e
    case Append(sourceKey, signal, availableAt) => AppendKeeps(db, sourceKey, signal, availableAt);
    case Claim(id, now, lease, maxAttempts) => ClaimKeeps(db, id, now, lease, maxAttempts);
    case Fail(id, now, retryAfter, maxAttempts) => FailKeeps(db, id, now, retryAfter, maxAttempts);
    case Process(id, rule, maintenance, now) => ProcessKeeps(db, id, rule, maintenance, now);
    case Due(key, rule, maintenance, now) => DueKeeps(db, key, rule, maintenance, now);
    case Operate(m, eligible, clock) => OperateKeeps(db, m, eligible, clock);
    case Notify(i, now) => NotifyKeeps(db, i, now);
  }

  /** Every interleaving of transactions keeps the invariant. */
  lemma {:induction false} RunKeeps(db: Db, events: seq<Event>)
    requires Inv(db)
    ensures Inv(Run(db, events))
  {
    if events != [] {
      RunKeeps(db, events[..|events| - 1]);
      StepKeeps(Run(db, events[..|events| - 1]), events[|events| - 1]);
    }
  }

  lemma {:induction false} EmptyIsValid()
    ensures Inv(EMPTY)
  {
  }
}
