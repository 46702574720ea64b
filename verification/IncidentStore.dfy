/** The incident engine as code that updates its tables in place. Every method is one transaction
    and is proved to move the tables exactly as the transition function of `IncidentModel` says
    and to keep the invariant; the whole-run results of `IncidentRuns` are about those functions. */
module IncidentStore {
  import opened Basics
  import opened Debounce
  import opened IncidentModel
  import opened IncidentInvariants
  import opened IncidentAnswers
  import C = IncidentColumns
  import J = IncidentJournal

  class Store {
    var signals: seq<JournalRow>
    var states: map<Key, RuleState>
    var incidents: seq<Incident>
    var timeline: seq<Entry>
    var receipts: map<ReceiptKey, Receipt>
    var evidence: map<nat, Outcome>

    ghost function Books(): Ledger
      reads this
    {
      Ledger(incidents, timeline)
    }

    ghost function Tables(): Db
      reads this
    {
      Db(signals, states, Books(), receipts, evidence)
    }

    constructor ()
      ensures Tables() == EMPTY && Inv(Tables())
    {
      signals, states, incidents, timeline, receipts, evidence := [], map[], [], [], map[], map[];
      new;
      EmptyIsValid();
    }

    // -------------------------------------------------------------------------
    // The journal
    // -------------------------------------------------------------------------

    method Append(sourceKey: string, signal: Signal, availableAt: Time)
      requires Inv(Tables())
      modifies this`signals
      ensures Tables() == AppendSignal(old(Tables()), sourceKey, signal, availableAt) && Inv(Tables())
    {
      AppendKeeps(Tables(), sourceKey, signal, availableAt);
      if !HasSource(signals, sourceKey) {
        signals := signals + [JournalRow(sourceKey, signal, availableAt, None, 0, None, None)];
      }
    }

    /** The first claimable row that no other worker has locked, in the order of the claim query. */
    method FirstClaimable(now: Time, maxAttempts: nat, locked: set<nat>) returns (best: Option<nat>)
      ensures best.Some? ==>
                && best.value < |signals| && best.value !in locked && Claimable(signals[best.value], now, maxAttempts)
                && forall j :: 0 <= j < |signals| && j !in locked && Claimable(signals[j], now, maxAttempts) ==>
                     ClaimsBefore(signals, best.value, j)
      ensures best.None? ==> forall j :: 0 <= j < |signals| && j !in locked ==> !Claimable(signals[j], now, maxAttempts)
    {
      best := None;
      for n := 0 to |signals|
        invariant best.Some? ==>
                    && best.value < n && best.value !in locked && Claimable(signals[best.value], now, maxAttempts)
                    && forall j :: 0 <= j < n && j !in locked && Claimable(signals[j], now, maxAttempts) ==>
                         ClaimsBefore(signals, best.value, j)
        invariant best.None? ==> forall j :: 0 <= j < n && j !in locked ==> !Claimable(signals[j], now, maxAttempts)
      {
        if n !in locked && Claimable(signals[n], now, maxAttempts) {
          if best.None? || signals[n].signal.occurredAt < signals[best.value].signal.occurredAt {
            best := Some(n);
          }
        }
      }
    }

    /** The rows of one batch, leased one after the other until the limit or until none is left. */
    method LeaseFirst(now: Time, o: BatchOptions, locked: set<nat>) returns (claimed: seq<nat>)
      requires o.lease > 0
      modifies this`signals
      ensures Batch(old(Tables()), Tables(), claimed, now, o, locked) && |claimed| <= o.limit
      ensures |claimed| == o.limit ||
              forall j :: 0 <= j < |signals| && j !in locked ==> !Claimable(signals[j], now, o.maxAttempts)
    {
      claimed := [];
      EmptyBatch(Tables(), now, o, locked);
      while |claimed| < o.limit
        invariant |claimed| <= o.limit && Batch(old(Tables()), Tables(), claimed, now, o, locked)
        decreases o.limit - |claimed|
      {
        var best := FirstClaimable(now, o.maxAttempts, locked);
        if best.None? {
          return;
        }
        LeaseRow(best.value, now, o, locked, old(Tables()), claimed);
        claimed := claimed + [best.value];
      }
    }

    /** The update of the claim query on the first claimable row. */
    method LeaseRow(id: nat, now: Time, o: BatchOptions, locked: set<nat>, ghost before: Db, ghost claimed: seq<nat>)
      requires o.lease > 0 && Batch(before, Tables(), claimed, now, o, locked)
      requires id < |signals| && id !in locked && Claimable(signals[id], now, o.maxAttempts)
      requires forall j :: 0 <= j < |signals| && j !in locked && Claimable(signals[j], now, o.maxAttempts) ==>
                 ClaimsBefore(signals, id, j)
      modifies this`signals
      ensures Batch(before, Tables(), claimed + [id], now, o, locked)
    {
      BatchGrows(before, Tables(), claimed, id, now, o, locked);
      signals := signals[id := signals[id].(claimedUntil := Some(now + o.lease), attempts := signals[id].attempts + 1)];
    }

    /** `Claim`: lease one batch, the first rows up to the limit that are claimable and not locked by
        another worker. Options out of range get their defaults. */
    method Claim(now: Time, limit: int, lease: int, maxAttempts: int, locked: set<nat>) returns (claimed: seq<nat>)
      requires Inv(Tables())
      modifies this`signals
      ensures Inv(Tables())
      ensures var o := ClaimOptions(limit, lease, maxAttempts);
              Batch(old(Tables()), Tables(), claimed, now, o, locked) &&
                FullBatch(old(signals), signals, claimed, now, o, locked)
      ensures forall n, j ::
                0 <= n < |claimed| && 0 <= j < |signals| && j !in claimed && j !in locked &&
                  Claimable(old(signals)[j], now, ClaimOptions(limit, lease, maxAttempts).maxAttempts) ==>
                  claimed[n] < |signals| &&
                  var at, other := signals[claimed[n]].signal.occurredAt, signals[j].signal.occurredAt;
                  at < other || (at == other && claimed[n] < j)
    {
      var o := ClaimOptions(limit, lease, maxAttempts);
      claimed := LeaseFirst(now, o, locked);
      RunKeeps(old(Tables()), ClaimEvents(claimed, now, o.lease, o.maxAttempts));
      BatchIsFull(old(Tables()), Tables(), claimed, now, o, locked);
    }

    /** `Fail`: a pending signal loses its lease, and is given up exactly when it has used its
        attempts; a maximum out of range gets its default. */
    method Fail(id: nat, now: Time, retryAfter: int, maxAttempts: int)
      requires Inv(Tables())
      modifies this`signals
      ensures var maximum := if maxAttempts <= 0 then 8 else maxAttempts;
              && Tables() == FailSignal(old(Tables()), id, now, retryAfter, maximum) && Inv(Tables())
              && (old(J.Pending(Tables(), id)) ==>
                    && (signals[id].deadLetteredAt.Some? <==> old(signals)[id].attempts >= maximum)
                    && signals[id].availableAt == now + Max(retryAfter, 0) && signals[id].claimedUntil.None?)
    {
      var maximum := maxAttempts;
      if maximum <= 0 {
        maximum := 8;
      }
      FailKeeps(Tables(), id, now, retryAfter, maximum);
      if id < |signals| && !Settled(signals[id]) {
        var row := signals[id];
        var wait := if retryAfter < 0 then 0 else retryAfter;
        row := row.(claimedUntil := None, availableAt := now + wait);
        if row.attempts >= maximum {
          row := row.(deadLetteredAt := Some(now));
        }
        signals := signals[id := row];
      }
    }

    // -------------------------------------------------------------------------
    // The evaluator
    // -------------------------------------------------------------------------

    /** `openOrUpdateIncident`. */
    method OpenOrUpdateIncident(
        s: Subject, severity: Severity, state: RuleState, now: Time) returns (active: Option<nat>, changed: bool)
      modifies this`incidents, this`timeline
      ensures Acted(Books(), active, changed) ==
                OpenOrUpdate(old(Books()), state.active, s, severity, state.lastReasonCode, now)
      ensures |old(incidents)| <= |incidents|
      ensures forall i :: 0 <= i < |old(incidents)| ==>
                incidents[i] == old(incidents)[i] ||
                (state.active == Some(i) && C.WrittenFor(old(incidents)[i], incidents[i], s.signal.occurredAt, now))
    {
      active := state.active;
      if active.None? || active.value >= |incidents| {
        active, changed := OpenNewIncident(s, severity, now);
        return;
      }
      changed := true;
      var i := active.value;
      var row := incidents[i];
      var latest := Max(row.latestSignalAt, s.signal.occurredAt);
      var next := row.(latestSignalAt := latest, version := row.version + 1, updatedAt := now);
      if row.status.Recovered? {
        next := next.(status := Opened, severity := severity, recoveredAt := None);
        timeline := timeline + [SignalEntry(i, Recurrence, Some(PhaseOf(row)), Phase(Opened, severity), s)];
      } else if row.severity != severity {
        next := next.(severity := severity);
        timeline := timeline + [SignalEntry(i, SeverityChanged, Some(PhaseOf(row)), Phase(row.status, severity), s)];
      } else if CertificateConditionChanged(s, state.lastReasonCode) {
        timeline := timeline + [SignalEntry(i, ConditionChanged, Some(PhaseOf(row)), PhaseOf(row), s)];
      }
      incidents := incidents[i := next];
    }

    /** The insert that yields to an unresolved incident with the same fingerprint. */
    method OpenNewIncident(s: Subject, severity: Severity, now: Time) returns (active: Option<nat>, changed: bool)
      modifies this`incidents, this`timeline
      ensures Acted(Books(), active, changed) == OpenIncident(old(Books()), s, severity, now)
      ensures old(incidents) <= incidents && |incidents| <= |old(incidents)| + 1
      ensures |incidents| == |old(incidents)| <==>
              exists j :: 0 <= j < |old(incidents)| && old(incidents)[j].key == s.key &&
                          !old(incidents)[j].status.Resolved?
      ensures |incidents| > |old(incidents)| ==>
                active == Some(|old(incidents)|) && C.BornFor(incidents[|old(incidents)|], s, severity, now)
      ensures active.Some? && active.value < |incidents| && incidents[active.value].key == s.key
      ensures changed <==> incidents[active.value].createdAt == now
      ensures |timeline| == |old(timeline)| + if changed then 1 else 0
    {
      var existing := FindUnresolved(incidents, s.key);
      var i := |incidents|;
      if existing.Some? {
        i := existing.value;
      } else {
        var at := s.signal.occurredAt;
        incidents := incidents + [Incident(s.key, severity, Opened, None, at, at, None, None, None, 1, now, now)];
      }
      active, changed := Some(i), false;
      if incidents[i].createdAt == now {
        timeline := timeline + [SignalEntry(i, Detected, None, Phase(Opened, severity), s)];
        changed := true;
      }
    }

    /** `recoverIncident`. */
    method RecoverIncident(s: Subject, state: RuleState, now: Time) returns (active: Option<nat>, changed: bool)
      modifies this`incidents, this`timeline
      ensures Acted(Books(), active, changed) == RecoverActive(old(Books()), state.active, s, now)
      ensures |incidents| == |old(incidents)|
      ensures forall i :: 0 <= i < |incidents| ==>
                incidents[i] == old(incidents)[i] ||
                (state.active == Some(i) && C.WrittenFor(old(incidents)[i], incidents[i], s.signal.occurredAt, now))
    {
      active, changed := state.active, false;
      if active.None? {
        return;
      }
      if active.value >= |incidents| {
        active := None;
        return;
      }
      var i := active.value;
      var row := incidents[i];
      if row.status.Recovered? || row.status.Resolved? {
        return;
      }
      incidents := incidents[i := row.(status := Recovered, recoveredAt := Some(s.signal.occurredAt),
                                       latestSignalAt := Max(row.latestSignalAt, s.signal.occurredAt),
                                       version := row.version + 1, updatedAt := now)];
      timeline := timeline + [SignalEntry(i, RecoveredKind, Some(PhaseOf(row)), Phase(Recovered, row.severity), s)];
      changed := true;
    }

    /** `evaluate`: count the signal, then wait, open or recover. */
    method EvaluateState(s: Subject, rule: Rule, before: RuleState, now: Time, deadline: bool)
      returns (state: RuleState, changed: bool)
      modifies this`incidents, this`timeline
      ensures var e := Evaluate(rule, before.counters, s.signal.state, s.signal.occurredAt, now, deadline);
              var acted := Act(old(Books()), before, e.decision, s, now);
              Books() == acted.ledger && changed == acted.changed &&
              state == before.(active := acted.active, counters := e.counters)
    {
      var c := before.counters;
      state, changed := before, false;
      if s.signal.state == rule.recoveryState {
        c := c.(matchingSince := None, matching := 0, deadline := None);
        if !deadline {
          if c.lastState == Some(s.signal.state) && c.recoverySince.Some? {
            c := c.(recovery := c.recovery + 1);
          } else {
            c := c.(recoverySince := Some(s.signal.occurredAt), recovery := 1);
          }
        }
        if c.recoverySince.Some? && c.recovery >= rule.recoveryMinOccurrences {
          var due := c.recoverySince.value + rule.recoveryFor;
          if now >= due {
            var active;
            active, changed := RecoverIncident(s, before, now);
            state := before.(active := active, counters := c);
            return;
          }
          c := c.(deadline := Some(due));
        }
        state := before.(counters := c);
        return;
      }
      c := c.(recoverySince := None, recovery := 0);
      if s.signal.state !in rule.conditions {
        state := before.(counters := c.(matchingSince := None, matching := 0, deadline := None));
        return;
      }
      var condition := rule.conditions[s.signal.state];
      if !deadline {
        if c.lastState == Some(s.signal.state) && c.matchingSince.Some? {
          c := c.(matching := c.matching + 1);
        } else {
          c := c.(matchingSince := Some(s.signal.occurredAt), matching := 1);
        }
      }
      if c.matchingSince.None? || c.matching < condition.minOccurrences {
        state := before.(counters := c.(deadline := None));
        return;
      }
      var due := c.matchingSince.value + condition.lasting;
      if now < due {
        state := before.(counters := c.(deadline := Some(due)));
        return;
      }
      var active;
      active, changed := OpenOrUpdateIncident(s, condition.severity, before, now);
      state := before.(active := active, counters := c.(deadline := None));
    }

    /** The winning rule's part of `processSignal`. */
    method ApplyRule(id: nat, rule: Rule, maintenance: bool, now: Time) returns (outcome: Outcome)
      requires id < |signals| && !Settled(signals[id])
      modifies this`states, this`incidents, this`timeline
      ensures var next := ProcessSignal(old(Tables()), id, Some(rule), maintenance, now);
              states == next.states && Books() == next.ledger && evidence[id := outcome] == next.evidence
    {
      var signal := signals[id].signal;
      var key := KeyFor(rule, signal);
      if key !in states {
        states := states[key := NEW_STATE];
      }
      var state := states[key];
      if Older(state.counters.lastAt, signal.occurredAt) {
        return Debounced;
      }
      if maintenance {
        var wiped := Counters(Some(Maintenance), Some(signal.occurredAt), None, 0, None, 0, None);
        states := states[key := state.(lastSignal := Some(id), counters := wiped)];
        return UnderMaintenance;
      }
      var changed;
      state, changed := EvaluateState(Subject(id, signal, key), rule, state, now, false);
      state := state.(lastSignal := Some(id), lastReasonCode := signal.reasonCode,
                      counters := state.counters.(lastState := Some(signal.state), lastAt := Some(signal.occurredAt)));
      states := states[key := state];
      outcome := if changed then IncidentChanged
                 else if signal.state !in rule.conditions then NoCondition else Debounced;
    }

    /** `processSignal`. */
    method Process(id: nat, rule: Option<Rule>, maintenance: bool, now: Time)
      requires Inv(Tables())
      modifies this
      ensures Tables() == ProcessSignal(old(Tables()), id, rule, maintenance, now) && Inv(Tables())
      ensures old(J.Pending(Tables(), id)) ==>
                id in evidence && J.Records(old(Tables()), Event.Process(id, rule, maintenance, now), evidence[id])
    {
      ProcessKeeps(Tables(), id, rule, maintenance, now);
      if J.Pending(Tables(), id) {
        J.OutcomeIsRecorded(Tables(), Event.Process(id, rule, maintenance, now));
      }
      if id >= |signals| || Settled(signals[id]) {
        return;
      }
      var outcome := NoRule;
      if rule.Some? {
        outcome := ApplyRule(id, rule.value, maintenance, now);
      }
      evidence := evidence[id := outcome];
      signals := signals[id := signals[id].(processedAt := Some(now), claimedUntil := None)];
    }

    /** `processOneDue` on the row its query selected. */
    method ProcessDueState(key: Key, rule: Option<Rule>, maintenance: bool, now: Time) returns (found: bool)
      requires Inv(Tables())
      modifies this`states, this`incidents, this`timeline
      ensures Tables() == ProcessDue(old(Tables()), key, rule, maintenance, now) && Inv(Tables())
      ensures found <==> key in old(states) && DeadlineReached(old(states)[key].counters.deadline, now)
      ensures found ==> key in states && states[key].counters.deadline.None?
    {
      DueKeeps(Tables(), key, rule, maintenance, now);
      found := key in states && DeadlineReached(states[key].counters.deadline, now);
      if !found {
        return;
      }
      var state := states[key];
      assert RemembersSignal(signals, key, state);
      var id := state.lastSignal.value;
      var signal := signals[id].signal;
      if rule.None? || rule.value.id != key.rule {
        state := state.(counters := state.counters.(deadline := None));
      } else if maintenance {
        state := state.(counters := Counters(Some(Maintenance), state.counters.lastAt, None, 0, None, 0, None));
      } else {
        var changed;
        state, changed := EvaluateState(Subject(id, signal, KeyFor(rule.value, signal)), rule.value, state, now, true);
        state := state.(counters := state.counters.(deadline := None));
      }
      states := states[key := state];
    }

    /** The first due rule state that no other worker has locked: by deadline, then rule, then
        resource. Which of two check types of one resource comes first is left open. */
    method FirstDue(now: Time, locked: set<Key>) returns (best: Option<Key>)
      ensures best.Some? ==>
                && IsDue(states, best.value, now) && best.value !in locked
                && forall k :: IsDue(states, k, now) && k !in locked ==> DueBefore(states, best.value, k)
      ensures best.None? ==> forall k :: IsDue(states, k, now) ==> k in locked
    {
      best := None;
      var todo := states.Keys;
      while todo != {}
        invariant todo <= states.Keys
        invariant best.Some? ==>
                    && IsDue(states, best.value, now) && best.value !in locked
                    && forall k :: IsDue(states, k, now) && k !in locked && k !in todo ==>
                         DueBefore(states, best.value, k)
        invariant best.None? ==> forall k :: IsDue(states, k, now) && k !in todo ==> k in locked
        decreases todo
      {
        var k :| k in todo;
        if k !in locked && IsDue(states, k, now) {
          if best.None? {
            best := Some(k);
          } else {
            var mine, least := states[k].counters.deadline.value, states[best.value].counters.deadline.value;
            if mine < least || (mine == least && (k.rule < best.value.rule ||
                                                  (k.rule == best.value.rule && k.resource < best.value.resource))) {
              best := Some(k);
            }
          }
        }
        todo := todo - {k};
      }
    }

    /** `processOneDue`: the first due rule state is processed, under whatever its rule and its
        maintenance windows are. */
    method ProcessOneDue(now: Time, locked: set<Key>, rules: Key -> Option<Rule>, maintenance: Key -> bool)
        returns (processed: Option<Key>)
      requires Inv(Tables())
      modifies this`states, this`incidents, this`timeline
      ensures Inv(Tables())
      ensures processed.None? ==> Tables() == old(Tables()) && forall k :: IsDue(states, k, now) ==> k in locked
      ensures processed.Some? ==>
                && processed.value !in locked && IsDue(old(states), processed.value, now)
                && (forall k :: IsDue(old(states), k, now) && k !in locked ==>
                      var at, other := old(states)[processed.value].counters.deadline, old(states)[k].counters.deadline;
                      && at.Some? && other.Some? && at.value <= other.value <= now
                      && (at.value == other.value ==>
                            && processed.value.rule <= k.rule
                            && (processed.value.rule == k.rule ==> processed.value.resource <= k.resource)))
                && Tables() ==
                     ProcessDue(old(Tables()), processed.value, rules(processed.value), maintenance(processed.value),
                                now)
                && !IsDue(states, processed.value, now)
    {
      processed := FirstDue(now, locked);
      if processed.Some? {
        var key := processed.value;
        var found := ProcessDueState(key, rules(key), maintenance(key), now);
      }
    }

    // -------------------------------------------------------------------------
    // The operator workflow
    // -------------------------------------------------------------------------

    /** The checks of `Mutate` after the receipt lookup; they write nothing. */
    method CheckMutation(m: Mutation, eligible: set<nat>, clock: Time) returns (refusal: Option<MutationError>)
      ensures refusal == Refusal(Tables(), m, eligible, clock)
      ensures m.incident < |incidents| && incidents[m.incident].version == m.expectedVersion ==>
                (refusal.None? <==> Grants(incidents[m.incident], m, eligible, clock))
    {
      if m.incident >= |incidents| {
        return Some(NotFound);
      }
      var row := incidents[m.incident];
      if row.version != m.expectedVersion {
        return Some(VersionConflict(row.version));
      }
      if Transition(m.action, row.status).None? {
        return Some(InvalidTransition);
      }
      if m.action.Assign? && (m.owner.None? || m.owner.value !in eligible) {
        return Some(OwnerNotEligible);
      }
      if m.action.Resolve? && (row.recoveredAt.None? || row.recoveredAt.value > MutationTime(row, clock)) {
        return Some(CheckViolation);
      }
      return None;
    }

    /** The writes of an accepted `Mutate`. */
    method CommitMutation(m: Mutation, clock: Time) returns (result: MutationResult)
      requires m.incident < |incidents| && Transition(m.action, incidents[m.incident].status).Some?
      modifies this`states, this`incidents, this`timeline, this`receipts
      ensures Tables() == Commit(old(Tables()), m, clock)
      ensures result == ReplayOf(m, receipts[ReceiptKeyOf(m)]).(replayed := false)
    {
      var i := m.incident;
      var row := incidents[i];
      var status := Transition(m.action, row.status).value;
      var now := clock;
      if now <= row.updatedAt {
        now := row.updatedAt + 1;
      }
      incidents := incidents[i := MutatedRow(row, m, status, now)];
      if m.action.Resolve? {
        states := map k | k in states :: if states[k].active == Some(i) then states[k].(active := None) else states[k];
      }
      var event := |timeline|;
      timeline := timeline +
        [Entry(i, KindOf(m.action), Some(PhaseOf(row)), Some(Phase(status, row.severity)), None, Some(m.actor), now)];
      receipts := receipts[ReceiptKeyOf(m) := Receipt(PayloadOf(m), row.version + 1, status, event, m.correlation)];
      result := MutationResult(i, status, row.version + 1, event, m.correlation, false);
    }

    /** `Workflow.Mutate`. */
    method Mutate(m: Mutation, eligible: set<nat>, clock: Time) returns (reply: Reply)
      requires Inv(Tables())
      modifies this`states, this`incidents, this`timeline, this`receipts
      ensures (Tables(), reply) == IncidentModel.Mutate(old(Tables()), m, eligible, clock) && Inv(Tables())
      ensures Answers(old(Tables()), m, eligible, clock, reply)
    {
      EveryRequestIsAnswered(Tables(), m, eligible, clock);
      OperateKeeps(Tables(), m, eligible, clock);
      var invalid := Validate(m);
      if invalid.Some? {
        return Refused(invalid.value);
      }
      var key := ReceiptKeyOf(m);
      if key in receipts {
        var stored := receipts[key];
        if stored.payload != PayloadOf(m) {
          return Refused(IdempotencyConflict);
        }
        return Done(MutationResult(m.incident, stored.status, stored.version, stored.timelineEvent, stored.correlation,
                                   true));
      }
      var refusal := CheckMutation(m, eligible, clock);
      if refusal.Some? {
        return Refused(refusal.value);
      }
      var result := CommitMutation(m, clock);
      return Done(result);
    }
  }

  datatype BatchOptions = BatchOptions(limit: nat, lease: int, maxAttempts: nat)

  const SECOND := 1_000_000

  function ClaimOptions(limit: int, lease: int, maxAttempts: int): (o: BatchOptions)
    ensures o.limit >= 1 && o.lease > 0 && o.maxAttempts >= 1
    ensures o.limit == limit || (limit <= 0 && o.limit == 50)
    ensures o.lease == lease || (lease <= 0 && o.lease == 30_000_000)
    ensures o.maxAttempts == maxAttempts || (maxAttempts <= 0 && o.maxAttempts == 8)
  {
    BatchOptions(if limit <= 0 then 50 else limit, if lease <= 0 then 30 * SECOND else lease,
                 if maxAttempts <= 0 then 8 else maxAttempts)
  }

  /** Order of the claim query: by the signal's time, then in the order the rows were written. */
  predicate ClaimsBefore(signals: seq<JournalRow>, i: nat, j: nat)
    requires i < |signals| && j < |signals|
  {
    signals[i].signal.occurredAt < signals[j].signal.occurredAt ||
    (signals[i].signal.occurredAt == signals[j].signal.occurredAt && i <= j)
  }

  /** The claimed rows are claimable and unlocked, in order, and come before every such row that was
      not claimed. */
  ghost predicate FirstOf(claimed: seq<nat>, signals: seq<JournalRow>, now: Time, maxAttempts: nat, locked: set<nat>) {
    && (forall n :: 0 <= n < |claimed| ==>
          claimed[n] < |signals| && claimed[n] !in locked && Claimable(signals[claimed[n]], now, maxAttempts))
    && (forall m, n :: 0 <= m < n < |claimed| ==>
          claimed[m] != claimed[n] && ClaimsBefore(signals, claimed[m], claimed[n]))
    && (forall n, j ::
          0 <= n < |claimed| && 0 <= j < |signals| && j !in locked && j !in claimed &&
            Claimable(signals[j], now, maxAttempts) ==>
            ClaimsBefore(signals, claimed[n], j))
  }

  /** The claimed rows are leased, the others as they were. */
  ghost predicate Leased(
      before: seq<JournalRow>, after: seq<JournalRow>, claimed: seq<nat>, now: Time, o: BatchOptions) {
    && |after| == |before|
    && forall j :: 0 <= j < |before| ==>
         after[j] ==
           if j in claimed then before[j].(claimedUntil := Some(now + o.lease), attempts := before[j].attempts + 1)
                     else before[j]
  }

  lemma {:induction false} ClaimsOneMore(
      before: seq<JournalRow>, after: seq<JournalRow>, claimed: seq<nat>, id: nat, now: Time, o: BatchOptions,
      locked: set<nat>)
    requires o.lease > 0 && Leased(before, after, claimed, now, o) &&
               FirstOf(claimed, before, now, o.maxAttempts, locked)
    requires id < |after| && id !in locked && Claimable(after[id], now, o.maxAttempts)
    requires forall j :: 0 <= j < |after| && j !in locked && Claimable(after[j], now, o.maxAttempts) ==>
               ClaimsBefore(after, id, j)
    ensures id !in claimed && FirstOf(claimed + [id], before, now, o.maxAttempts, locked)
    ensures Leased(before,
                   after[id := after[id].(claimedUntil := Some(now + o.lease), attempts := after[id].attempts + 1)],
                   claimed + [id], now, o)
  {
    assert id !in claimed;
    forall j | 0 <= j < |before| && j !in locked && j !in claimed + [id] && Claimable(before[j], now, o.maxAttempts)
      ensures ClaimsBefore(before, id, j)
    {
      assert after[j] == before[j];
      assert ClaimsBefore(after, id, j);
    }
  }

  /** A batch in progress: a run of claims of the first rows, and nothing else. */
  ghost predicate Batch(before: Db, after: Db, claimed: seq<nat>, now: Time, o: BatchOptions, locked: set<nat>) {
    && after == Run(before, ClaimEvents(claimed, now, o.lease, o.maxAttempts))
    && after == before.(signals := after.signals)
    && Leased(before.signals, after.signals, claimed, now, o)
    && FirstOf(claimed, before.signals, now, o.maxAttempts, locked)
  }

  lemma {:induction false} EmptyBatch(db: Db, now: Time, o: BatchOptions, locked: set<nat>)
    ensures Batch(db, db, [], now, o, locked)
  {
  }

  lemma {:induction false} BatchGrows(
      before: Db, after: Db, claimed: seq<nat>, id: nat, now: Time, o: BatchOptions, locked: set<nat>)
    requires o.lease > 0 && Batch(before, after, claimed, now, o, locked)
    requires id < |after.signals| && id !in locked && Claimable(after.signals[id], now, o.maxAttempts)
    requires forall j :: 0 <= j < |after.signals| && j !in locked && Claimable(after.signals[j], now, o.maxAttempts) ==>
               ClaimsBefore(after.signals, id, j)
    ensures Batch(before, ClaimSignal(after, id, now, o.lease, o.maxAttempts), claimed + [id], now, o, locked)
  {
    ClaimsOneMore(before.signals, after.signals, claimed, id, now, o, locked);
    ClaimedNext(before, claimed, id, now, o);
    var next, row := ClaimSignal(after, id, now, o.lease, o.maxAttempts), after.signals[id];
    assert next.signals ==
      after.signals[id := row.(claimedUntil := Some(now + o.lease), attempts := row.attempts + 1)];
    assert next == before.(signals := next.signals);
  }

  lemma {:induction false} ClaimedNext(before: Db, claimed: seq<nat>, id: nat, now: Time, o: BatchOptions)
    ensures Run(before, ClaimEvents(claimed + [id], now, o.lease, o.maxAttempts)) ==
            ClaimSignal(Run(before, ClaimEvents(claimed, now, o.lease, o.maxAttempts)), id, now, o.lease, o.maxAttempts)
  {
    ClaimEventsGrow(claimed, id, now, o.lease, o.maxAttempts);
    RunOneMore(before, ClaimEvents(claimed, now, o.lease, o.maxAttempts), Event.Claim(id, now, o.lease, o.maxAttempts));
  }

  /** A batch is as large as its limit and the claimable rows allow, and each row of it is pending,
      leased and within its attempts. */
  ghost predicate FullBatch(
      before: seq<JournalRow>, after: seq<JournalRow>, claimed: seq<nat>, now: Time, o: BatchOptions, locked: set<nat>)
  {
    && |claimed| <= o.limit
    && (|claimed| < o.limit ==>
          forall j :: 0 <= j < |before| && j !in locked && Claimable(before[j], now, o.maxAttempts) ==> j in claimed)
    && (forall n :: 0 <= n < |claimed| ==>
          && claimed[n] < |after| && !Settled(after[claimed[n]]) &&
               after[claimed[n]].claimedUntil == Some(now + o.lease)
          && 1 <= after[claimed[n]].attempts <= o.maxAttempts)
  }

  lemma {:induction false} BatchIsFull(
      before: Db, after: Db, claimed: seq<nat>, now: Time, o: BatchOptions, locked: set<nat>)
    requires Batch(before, after, claimed, now, o, locked) && |claimed| <= o.limit
    requires |claimed| == o.limit ||
             forall j :: 0 <= j < |after.signals| && j !in locked ==> !Claimable(after.signals[j], now, o.maxAttempts)
    ensures FullBatch(before.signals, after.signals, claimed, now, o, locked)
  {
    forall j | 0 <= j < |before.signals| && j !in claimed
      ensures after.signals[j] == before.signals[j]
    {
    }
  }

  predicate IsDue(states: map<Key, RuleState>, k: Key, now: Time) {
    k in states && DeadlineReached(states[k].counters.deadline, now)
  }

  /** Order of the due query, up to the check type. */
  predicate DueBefore(states: map<Key, RuleState>, a: Key, b: Key) {
    && a in states && b in states && states[a].counters.deadline.Some? && states[b].counters.deadline.Some?
    && var x, y := states[a].counters.deadline.value, states[b].counters.deadline.value;
       x < y || (x == y && (a.rule < b.rule || (a.rule == b.rule && a.resource <= b.resource)))
  }

  /** The claims of one batch, one row after the other. */
  function ClaimEvents(claimed: seq<nat>, now: Time, lease: int, maxAttempts: nat): seq<Event> {
    seq(|claimed|, n requires 0 <= n < |claimed| => Event.Claim(claimed[n], now, lease, maxAttempts))
  }

  lemma {:induction false} ClaimEventsGrow(claimed: seq<nat>, id: nat, now: Time, lease: int, maxAttempts: nat)
    ensures ClaimEvents(claimed + [id], now, lease, maxAttempts) ==
            ClaimEvents(claimed, now, lease, maxAttempts) + [Event.Claim(id, now, lease, maxAttempts)]
  {
  }

  lemma {:induction false} RunOneMore(db: Db, events: seq<Event>, e: Event)
    ensures Run(db, events + [e]) == Step(Run(db, events), e)
  {
    assert (events + [e])[..|events|] == events;
  }
}
