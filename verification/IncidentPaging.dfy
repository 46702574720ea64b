/** Pages of incidents fetched while the incident engine runs. The results of `Paging` ask that no
    row's time moves back; operators never move it back, and the evaluator does exactly when its
    clock reading is earlier than the last write of the incident it writes. */
module IncidentPaging {
  import opened Basics
  import opened Debounce
  import opened IncidentModel
  import opened IncidentInvariants
  import R = IncidentRuns
  import P = Paging

  /** The incidents table as a list query with the given filter sees it. */
  function View(l: Ledger, filter: Incident -> bool): (rows: seq<P.Row>)
    ensures |rows| == |l.incidents|
    ensures forall i :: 0 <= i < |rows| ==>
              rows[i] == P.Row(i, l.incidents[i].updatedAt, l.incidents[i].updatedAt, filter(l.incidents[i]))
  {
    seq(|l.incidents|, i requires 0 <= i < |l.incidents| =>
      P.Row(i, l.incidents[i].updatedAt, l.incidents[i].updatedAt, filter(l.incidents[i])))
  }

  /** Incidents are only added, and none is stamped earlier than before. */
  predicate Later(l: Ledger, m: Ledger) {
    |l.incidents| <= |m.incidents| &&
    forall i :: 0 <= i < |l.incidents| ==> l.incidents[i].updatedAt <= m.incidents[i].updatedAt
  }

  lemma {:induction false} LaterIsForward(l: Ledger, m: Ledger, filter: Incident -> bool)
    requires |l.incidents| <= |m.incidents|
    ensures Later(l, m) <==> P.MovesForward(View(l, filter), View(m, filter))
  {
    if Later(l, m) {
      LaterMovesForward(l, m, filter);
    }
    if P.MovesForward(View(l, filter), View(m, filter)) {
      ForwardIsLater(l, m, filter);
    }
  }

  lemma {:induction false} LaterMovesForward(l: Ledger, m: Ledger, filter: Incident -> bool)
    requires Later(l, m)
    ensures P.MovesForward(View(l, filter), View(m, filter))
  {
    var before, after := View(l, filter), View(m, filter);
    forall i | 0 <= i < |before|
      ensures P.KeptSince(before[i], after)
    {
      assert after[i].id == before[i].id && after[i].at >= before[i].at;
    }
  }

  lemma {:induction false} ForwardIsLater(l: Ledger, m: Ledger, filter: Incident -> bool)
    requires |l.incidents| <= |m.incidents| && P.MovesForward(View(l, filter), View(m, filter))
    ensures Later(l, m)
  {
    var before, after := View(l, filter), View(m, filter);
    forall i | 0 <= i < |l.incidents|
      ensures l.incidents[i].updatedAt <= m.incidents[i].updatedAt
    {
      assert before[i].id == i;
      assert P.KeptSince(before[i], after);
      var j :| 0 <= j < |after| && after[j].id == before[i].id && after[j].at >= before[i].at;
      assert after[j].id == j;
    }
  }

  // ---------------------------------------------------------------------------
  // Which transactions move rows forward
  // ---------------------------------------------------------------------------

  /** The evaluator stamps what it writes with its own reading. */
  ghost predicate Stamped(l: Ledger, m: Ledger, now: Time) {
    |l.incidents| <= |m.incidents| &&
    forall i :: 0 <= i < |l.incidents| ==> m.incidents[i] == l.incidents[i] || m.incidents[i].updatedAt == now
  }

  lemma {:induction false} ActStamps(l: Ledger, state: RuleState, decision: Decision, s: Subject, now: Time)
    ensures Stamped(l, Act(l, state, decision, s, now).ledger, now)
  {
  }

  lemma {:induction false} ProcessStamps(db: Db, id: nat, rule: Option<Rule>, maintenance: bool, now: Time)
    ensures Stamped(db.ledger, ProcessSignal(db, id, rule, maintenance, now).ledger, now)
  {
    if id < |db.signals| && rule.Some? {
      var signal := db.signals[id].signal;
      var s := Subject(id, signal, KeyFor(rule.value, signal));
      var state := StateOf(db, s.key);
      var e := Evaluate(rule.value, state.counters, signal.state, signal.occurredAt, now, false);
      ActStamps(db.ledger, state, e.decision, s, now);
    }
  }

  lemma {:induction false} DueStamps(db: Db, key: Key, rule: Option<Rule>, maintenance: bool, now: Time)
    ensures Stamped(db.ledger, ProcessDue(db, key, rule, maintenance, now).ledger, now)
  {
    if key in db.states && rule.Some? && db.states[key].lastSignal.Some? &&
       db.states[key].lastSignal.value < |db.signals|
    {
      var state := db.states[key];
      var signal := db.signals[state.lastSignal.value].signal;
      var s := Subject(state.lastSignal.value, signal, KeyFor(rule.value, signal));
      var e := Evaluate(rule.value, state.counters, signal.state, signal.occurredAt, now, true);
      ActStamps(db.ledger, state, e.decision, s, now);
    }
  }

  /** The transaction writes an incident whose last write is later than the reading it is made with. */
  ghost predicate WritesBack(db: Db, e: Event) {
    && R.ByEvaluator(e) && |db.ledger.incidents| <= |Step(db, e).ledger.incidents|
    && exists i :: 0 <= i < |db.ledger.incidents| && Step(db, e).ledger.incidents[i] != db.ledger.incidents[i] &&
                   e.now < db.ledger.incidents[i].updatedAt
  }

  lemma {:induction false} EvaluatorStep(db: Db, e: Event)
    requires R.ByEvaluator(e)
    ensures Stamped(db.ledger, Step(db, e).ledger, e.now)
    ensures Later(db.ledger, Step(db, e).ledger) <==> !WritesBack(db, e)
  {
    if e.Process? {
      ProcessStamps(db, e.id, e.rule, e.maintenance, e.now);
    } else {
      DueStamps(db, e.key, e.rule, e.maintenance, e.now);
    }
  }

  lemma {:induction false} OtherStep(db: Db, e: Event)
    requires !R.ByEvaluator(e)
    ensures Later(db.ledger, Step(db, e).ledger)
  {
  }

  /** Operators and everything else move the list forward; the evaluator does exactly when it does
      not write an incident with an earlier reading than that incident's last write. */
  lemma {:induction false} MovesForwardIff(db: Db, e: Event, filter: Incident -> bool)
    ensures P.MovesForward(View(db.ledger, filter), View(Step(db, e).ledger, filter)) <==> !WritesBack(db, e)
  {
    if R.ByEvaluator(e) {
      EvaluatorStep(db, e);
    } else {
      OtherStep(db, e);
    }
    LaterIsForward(db.ledger, Step(db, e).ledger, filter);
  }

  // ---------------------------------------------------------------------------
  // Pages along a run
  // ---------------------------------------------------------------------------

  ghost predicate NeverWritesBack(events: seq<Event>) {
    forall j :: 0 <= j < |events| ==> !WritesBack(Run(EMPTY, events[..j]), events[j])
  }

  lemma {:induction false} StepIsLater(db: Db, e: Event)
    requires !WritesBack(db, e)
    ensures Later(db.ledger, Step(db, e).ledger)
  {
    if R.ByEvaluator(e) {
      EvaluatorStep(db, e);
    } else {
      OtherStep(db, e);
    }
  }

  lemma {:induction false} RunIsLater(events: seq<Event>, a: nat, b: nat)
    requires NeverWritesBack(events) && a <= b <= |events|
    ensures Later(Run(EMPTY, events[..a]).ledger, Run(EMPTY, events[..b]).ledger)
  {
    if a < b {
      RunIsLater(events, a, b - 1);
      assert events[..b][..b - 1] == events[..b - 1];
      StepIsLater(Run(EMPTY, events[..b - 1]), events[b - 1]);
    }
  }

  /** The tables that pages fetched after `cuts[0]`, `cuts[1]`, ... transactions see. */
  function Views(events: seq<Event>, cuts: seq<nat>, filter: Incident -> bool): (tables: seq<seq<P.Row>>)
    requires forall n :: 0 <= n < |cuts| ==> cuts[n] <= |events|
    ensures |tables| == |cuts|
    ensures forall n :: 0 <= n < |tables| ==> tables[n] == View(Run(EMPTY, events[..cuts[n]]).ledger, filter)
  {
    seq(|cuts|, n requires 0 <= n < |cuts| => View(Run(EMPTY, events[..cuts[n]]).ledger, filter))
  }

  lemma {:induction false} RunsEvolve(events: seq<Event>, cuts: seq<nat>, filter: Incident -> bool)
    requires NeverWritesBack(events)
    requires forall n :: 0 <= n < |cuts| ==> cuts[n] <= |events|
    requires forall m, n :: 0 <= m < n < |cuts| ==> cuts[m] <= cuts[n]
    ensures P.Evolving(Views(events, cuts, filter))
  {
    var tables := Views(events, cuts, filter);
    forall a, b | 0 <= a < b < |tables| && b == a + 1
      ensures P.MovesForward(tables[a], tables[b])
    {
      RunIsLater(events, cuts[a], cuts[b]);
      LaterIsForward(Run(EMPTY, events[..cuts[a]]).ledger, Run(EMPTY, events[..cuts[b]]).ledger, filter);
    }
  }

  /** Pages fetched at any points of a run of the engine that never writes back show no incident twice. */
  lemma {:induction false} PagesOfARunNeverRepeat(
      events: seq<Event>, cuts: seq<nat>, filter: Incident -> bool, snapshot: Time, limit: nat)
    requires NeverWritesBack(events) && cuts != [] && limit >= 1
    requires forall n :: 0 <= n < |cuts| ==> cuts[n] <= |events|
    requires forall m, n :: 0 <= m < n < |cuts| ==> cuts[m] <= cuts[n]
    ensures P.NoRepeats(P.Walk(Views(events, cuts, filter), snapshot, limit).items)
  {
    RunsEvolve(events, cuts, filter);
    P.WalkNeverRepeats(Views(events, cuts, filter), snapshot, limit);
  }
}
