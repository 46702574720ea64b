/** The debounce columns of one incident rule state, as `evaluate` streams them, and the proof
    that they refine a definition over the whole history of signals.

    The streaming machine keeps counters, run start times and one deadline. The history machine
    keeps the list of accepted signals (with a `Break` for each maintenance suppression) and the
    instant of the last evaluation, and derives everything else from the trailing run of equal
    states. `StreamRefinesHistory` says that both agree after every input sequence. */
module Debounce {
  import opened Basics

  datatype Severity = WarningSeverity | CriticalSeverity

  datatype Condition = Condition(severity: Severity, minOccurrences: int, lasting: int)

  /** One incident rule. The row `conditions[s]` is the condition the rule has for state `s`. */
  datatype Rule = Rule(
    id: nat,
    recoveryState: HealthState,
    recoveryMinOccurrences: int,
    recoveryFor: int,
    conditions: map<HealthState, Condition>)

  /** The debounce columns of a rule-state row. */
  datatype Counters = Counters(
    lastState: Option<HealthState>,
    lastAt: Option<Time>,
    matchingSince: Option<Time>,
    matching: nat,
    recoverySince: Option<Time>,
    recovery: nat,
    deadline: Option<Time>)

  const FRESH := Counters(None, None, None, 0, None, 0, None)

  /** What `evaluate` asks of the incident table. */
  datatype Decision = Wait | Open(condition: Condition) | Recover

  datatype Evaluation = Evaluation(counters: Counters, decision: Decision)

  /** The counter part of `evaluate` for a signal that reports the rule's recovery state. */
  function EvaluateRecovery(
      rule: Rule, c: Counters, state: HealthState, at: Time, now: Time, deadline: bool): Evaluation {
    var cleared := c.(matchingSince := None, matching := 0, deadline := None);
    var counted :=
      if deadline then cleared
      else if c.lastState == Some(state) && c.recoverySince.Some? then cleared.(recovery := c.recovery + 1)
      else cleared.(recoverySince := Some(at), recovery := 1);
    if counted.recoverySince.Some? && counted.recovery >= rule.recoveryMinOccurrences then
      var due := counted.recoverySince.value + rule.recoveryFor;
      if now >= due then Evaluation(counted, Recover)
      else Evaluation(counted.(deadline := Some(due)), Wait)
    else
      Evaluation(counted, Wait)
  }

  /** The counter part of `evaluate` for a signal in any other state. */
  function EvaluateMatching(
      rule: Rule, c: Counters, state: HealthState, at: Time, now: Time, deadline: bool): Evaluation {
    var cleared := c.(recoverySince := None, recovery := 0);
    if state !in rule.conditions then
      Evaluation(cleared.(matchingSince := None, matching := 0, deadline := None), Wait)
    else
      var condition := rule.conditions[state];
      var counted :=
        if deadline then cleared
        else if c.lastState == Some(state) && c.matchingSince.Some? then cleared.(matching := c.matching + 1)
        else cleared.(matchingSince := Some(at), matching := 1);
      if counted.matchingSince.None? || counted.matching < condition.minOccurrences then
        Evaluation(counted.(deadline := None), Wait)
      else
        var due := counted.matchingSince.value + condition.lasting;
        if now < due then Evaluation(counted.(deadline := Some(due)), Wait)
        else Evaluation(counted.(deadline := None), Open(condition))
  }

  function Evaluate(rule: Rule, c: Counters, state: HealthState, at: Time, now: Time, deadline: bool): Evaluation {
    if state == rule.recoveryState then EvaluateRecovery(rule, c, state, at, now, deadline)
    else EvaluateMatching(rule, c, state, at, now, deadline)
  }

  /** What can happen to one rule state while its rule is unchanged. */
  datatype Input =
    | SignalIn(state: HealthState, at: Time, now: Time)
    | SuppressedIn(at: Time)
    | DueIn(now: Time)
    | SuppressedDueIn(now: Time)

  predicate Older(lastAt: Option<Time>, at: Time) {
    lastAt.Some? && lastAt.value > at
  }

  predicate DeadlineReached(deadline: Option<Time>, now: Time) {
    deadline.Some? && deadline.value <= now
  }

  /** Maintenance wipes the run and marks the row, whatever the raw state was. */
  function Suppress(c: Counters): Counters {
    Counters(Some(Maintenance), c.lastAt, None, 0, None, 0, None)
  }

  /** One transaction on the row. A due poll only selects rows whose deadline is reached. */
  function StreamStep(rule: Rule, c: Counters, input: Input): Evaluation {
    match input
    case SignalIn(state, at, now) =>
      if Older(c.lastAt, at) then Evaluation(c, Wait)
      else
        var e := Evaluate(rule, c, state, at, now, false);
        Evaluation(e.counters.(lastState := Some(state), lastAt := Some(at)), e.decision)
    case SuppressedIn(at) =>
      if Older(c.lastAt, at) then Evaluation(c, Wait)
      else Evaluation(Suppress(c).(lastAt := Some(at)), Wait)
    case DueIn(now) =>
      if DeadlineReached(c.deadline, now) && c.lastState.Some? && c.lastAt.Some? then
        var e := Evaluate(rule, c, c.lastState.value, c.lastAt.value, now, true);
        Evaluation(e.counters.(deadline := None), e.decision)
      else
        Evaluation(c, Wait)
    case SuppressedDueIn(now) =>
      if DeadlineReached(c.deadline, now) then Evaluation(Suppress(c), Wait)
      else Evaluation(c, Wait)
  }

  function Stream(rule: Rule, inputs: seq<Input>): Counters {
    if inputs == [] then FRESH
    else StreamStep(rule, Stream(rule, inputs[..|inputs| - 1]), inputs[|inputs| - 1]).counters
  }

  // ---------------------------------------------------------------------------
  // The history the counters stand for
  // ---------------------------------------------------------------------------

  datatype Item = Seen(state: HealthState, at: Time) | Break

  datatype History = History(items: seq<Item>, lastAt: Option<Time>, evaluatedAt: Time)

  const BLANK := History([], None, 0)

  predicate SameRun(a: Item, b: Item) {
    a.Seen? && b.Seen? && a.state == b.state
  }

  /** Length of the trailing run of signals that share the last signal's state. */
  function RunLength(items: seq<Item>): nat {
    var n := |items|;
    if n == 0 || items[n - 1].Break? then 0
    else if n >= 2 && SameRun(items[n - 2], items[n - 1]) then RunLength(items[..n - 1]) + 1
    else 1
  }

  /** Time of the first signal of the trailing run. */
  function RunStart(items: seq<Item>): Time
    requires items != [] && items[|items| - 1].Seen?
  {
    var n := |items|;
    if n >= 2 && SameRun(items[n - 2], items[n - 1]) then RunStart(items[..n - 1])
    else items[n - 1].at
  }

  /** `RunLength` is the longest block at the end of the history whose items are all signals of
      one state, and `RunStart` is the time of that block's first item. */
  lemma {:induction false} TrailingRunIsMaximal(items: seq<Item>)
    ensures RunLength(items) <= |items|
    ensures RunLength(items) == 0 <==> items == [] || items[|items| - 1].Break?
    ensures forall j :: |items| - RunLength(items) <= j < |items| ==> SameRun(items[j], items[|items| - 1])
    ensures 0 < RunLength(items) < |items| ==> !SameRun(items[|items| - RunLength(items) - 1], items[|items| - 1])
    ensures RunLength(items) > 0 ==>
              var first := items[|items| - RunLength(items)]; first.Seen? && RunStart(items) == first.at
  {
    var n := |items|;
    if n >= 2 && items[n - 1].Seen? && SameRun(items[n - 2], items[n - 1]) {
      TrailingRunIsMaximal(items[..n - 1]);
    }
  }

  datatype Threshold = Threshold(minOccurrences: int, lasting: int, decision: Decision)

  /** What a run of state `state` has to reach, and what happens then. */
  function ThresholdFor(rule: Rule, state: HealthState): Option<Threshold> {
    if state == rule.recoveryState then Some(Threshold(rule.recoveryMinOccurrences, rule.recoveryFor, Recover))
    else if state in rule.conditions then
      var c := rule.conditions[state];
      Some(Threshold(c.minOccurrences, c.lasting, Open(c)))
    else None
  }

  predicate InRun(items: seq<Item>) {
    items != [] && items[|items| - 1].Seen?
  }

  function LastOf(items: seq<Item>): HealthState
    requires InRun(items)
  {
    items[|items| - 1].state
  }

  /** The trailing run is long enough for its threshold. */
  predicate CountMet(rule: Rule, items: seq<Item>) {
    InRun(items) && ThresholdFor(rule, LastOf(items)).Some? &&
    RunLength(items) >= ThresholdFor(rule, LastOf(items)).value.minOccurrences
  }

  function DueAt(rule: Rule, items: seq<Item>): Time
    requires CountMet(rule, items)
  {
    RunStart(items) + ThresholdFor(rule, LastOf(items)).value.lasting
  }

  /** The decision a history calls for at `now`. */
  function DecisionAt(rule: Rule, items: seq<Item>, now: Time): Decision {
    if CountMet(rule, items) && now >= DueAt(rule, items) then ThresholdFor(rule, LastOf(items)).value.decision
    else Wait
  }

  /** A deadline is pending exactly when the run is long enough and was not yet old enough. */
  function PendingDeadline(rule: Rule, h: History): Option<Time> {
    if CountMet(rule, h.items) && h.evaluatedAt < DueAt(rule, h.items) then Some(DueAt(rule, h.items))
    else None
  }

  /** The signal is dated before the last one that was accepted. */
  predicate Late(h: History, at: Time) {
    h.lastAt.Some? && at < h.lastAt.value
  }

  /** The trailing run had met its count but not its duration when it was last evaluated, and has met
      both now. */
  predicate RunsOut(rule: Rule, h: History, now: Time) {
    CountMet(rule, h.items) && h.evaluatedAt < DueAt(rule, h.items) <= now
  }

  function HistoryStep(rule: Rule, h: History, input: Input): History {
    match input
    case SignalIn(state, at, now) =>
      if Late(h, at) then h else History(h.items + [Seen(state, at)], Some(at), now)
    case SuppressedIn(at) =>
      if Late(h, at) then h else History(h.items + [Break], Some(at), h.evaluatedAt)
    case DueIn(now) =>
      if RunsOut(rule, h, now) then h.(evaluatedAt := now) else h
    case SuppressedDueIn(now) =>
      if RunsOut(rule, h, now) then h.(items := h.items + [Break]) else h
  }

  function HistoryOf(rule: Rule, inputs: seq<Input>): History {
    if inputs == [] then BLANK
    else HistoryStep(rule, HistoryOf(rule, inputs[..|inputs| - 1]), inputs[|inputs| - 1])
  }

  /** The decision the history calls for when `input` arrives. */
  function HistoryDecision(rule: Rule, h: History, input: Input): Decision {
    match input
    case SignalIn(state, at, now) =>
      if Late(h, at) then Wait else DecisionAt(rule, h.items + [Seen(state, at)], now)
    case DueIn(now) =>
      if RunsOut(rule, h, now) then DecisionAt(rule, h.items, now) else Wait
    case SuppressedIn(_) => Wait
    case SuppressedDueIn(_) => Wait
  }

  /** The row a history stands for: at most one of the two runs is live. */
  function Derive(rule: Rule, h: History): Counters {
    if h.items == [] then Counters(None, h.lastAt, None, 0, None, 0, None)
    else if h.items[|h.items| - 1].Break? then Counters(Some(Maintenance), h.lastAt, None, 0, None, 0, None)
    else
      var state := LastOf(h.items);
      var deadline := PendingDeadline(rule, h);
      if state == rule.recoveryState then
        Counters(Some(state), h.lastAt, None, 0, Some(RunStart(h.items)), RunLength(h.items), deadline)
      else if state in rule.conditions then
        Counters(Some(state), h.lastAt, Some(RunStart(h.items)), RunLength(h.items), None, 0, deadline)
      else
        Counters(Some(state), h.lastAt, None, 0, None, 0, None)
  }

  ghost predicate WellTimed(h: History) {
    h.items != [] ==> h.lastAt.Some?
  }

  lemma {:induction false} AppendSeen(items: seq<Item>, state: HealthState, at: Time)
    ensures RunLength(items + [Seen(state, at)]) ==
            if InRun(items) && LastOf(items) == state then RunLength(items) + 1 else 1
    ensures RunStart(items + [Seen(state, at)]) ==
            if InRun(items) && LastOf(items) == state then RunStart(items) else at
  {
    assert (items + [Seen(state, at)])[..|items|] == items;
  }

  lemma {:induction false} RecoverySignalRefines(rule: Rule, h: History, at: Time, now: Time)
    requires WellTimed(h) && !Late(h, at)
    ensures var input := SignalIn(rule.recoveryState, at, now);
            StreamStep(rule, Derive(rule, h), input) ==
            Evaluation(Derive(rule, HistoryStep(rule, h, input)), HistoryDecision(rule, h, input))
  {
    AppendSeen(h.items, rule.recoveryState, at);
    var items := h.items + [Seen(rule.recoveryState, at)];
    assert InRun(items) && LastOf(items) == rule.recoveryState;
    var c := Derive(rule, h);
    assert c.lastState == Some(rule.recoveryState) && c.recoverySince.Some? <==>
             InRun(h.items) && LastOf(h.items) == rule.recoveryState;
  }

  lemma {:induction false} MatchingSignalRefines(rule: Rule, h: History, state: HealthState, at: Time, now: Time)
    requires WellTimed(h) && !Late(h, at) && state != rule.recoveryState && state in rule.conditions
    ensures var input := SignalIn(state, at, now);
            StreamStep(rule, Derive(rule, h), input) ==
            Evaluation(Derive(rule, HistoryStep(rule, h, input)), HistoryDecision(rule, h, input))
  {
    AppendSeen(h.items, state, at);
    var items := h.items + [Seen(state, at)];
    assert InRun(items) && LastOf(items) == state;
    var c := Derive(rule, h);
    assert c.lastState == Some(state) && c.matchingSince.Some? <==> InRun(h.items) && LastOf(h.items) == state;
  }

  lemma {:induction false} SignalRefines(rule: Rule, h: History, state: HealthState, at: Time, now: Time)
    requires WellTimed(h)
    ensures var input := SignalIn(state, at, now);
            StreamStep(rule, Derive(rule, h), input) ==
            Evaluation(Derive(rule, HistoryStep(rule, h, input)), HistoryDecision(rule, h, input))
  {
    if !Late(h, at) && state == rule.recoveryState {
      RecoverySignalRefines(rule, h, at, now);
    } else if !Late(h, at) && state in rule.conditions {
      MatchingSignalRefines(rule, h, state, at, now);
    }
  }

  lemma {:induction false} DueRefines(rule: Rule, h: History, now: Time)
    requires WellTimed(h)
    ensures StreamStep(rule, Derive(rule, h), DueIn(now)) ==
            Evaluation(Derive(rule, HistoryStep(rule, h, DueIn(now))), HistoryDecision(rule, h, DueIn(now)))
  {
  }

  /** One transaction: the streamed row and its decision are those of the history. */
  lemma {:induction false} StepRefinesHistory(rule: Rule, h: History, input: Input)
    requires WellTimed(h)
    ensures WellTimed(HistoryStep(rule, h, input))
    ensures StreamStep(rule, Derive(rule, h), input) ==
            Evaluation(Derive(rule, HistoryStep(rule, h, input)), HistoryDecision(rule, h, input))
  {
    match input
    case SignalIn(state, at, now) => SignalRefines(rule, h, state, at, now);
    case DueIn(now) => DueRefines(rule, h, now);
    case SuppressedIn(at) =>
    case SuppressedDueIn(now) =>
  }

  /** Over every input sequence the streamed row equals the row derived from the history. */
  lemma {:induction false} StreamRefinesHistory(rule: Rule, inputs: seq<Input>)
    ensures WellTimed(HistoryOf(rule, inputs))
    ensures Stream(rule, inputs) == Derive(rule, HistoryOf(rule, inputs))
  {
    if inputs != [] {
      var rest := inputs[..|inputs| - 1];
      StreamRefinesHistory(rule, rest);
      StepRefinesHistory(rule, HistoryOf(rule, rest), inputs[|inputs| - 1]);
    }
  }

  /** The decision taken on any further input is the one the history calls for. */
  lemma {:induction false} DecisionsFollowHistory(rule: Rule, inputs: seq<Input>, next: Input)
    ensures StreamStep(rule, Stream(rule, inputs), next).decision ==
              HistoryDecision(rule, HistoryOf(rule, inputs), next)
  {
    StreamRefinesHistory(rule, inputs);
    StepRefinesHistory(rule, HistoryOf(rule, inputs), next);
  }

  /** A stored deadline is the end of the current run's waiting time; polling it when reached and
      outside maintenance opens or recovers, and never defers again. */
  lemma {:induction false} ReachedDeadlineFires(rule: Rule, inputs: seq<Input>, now: Time)
    requires DeadlineReached(Stream(rule, inputs).deadline, now)
    ensures var items := HistoryOf(rule, inputs).items;
            && CountMet(rule, items)
            && Stream(rule, inputs).deadline == Some(DueAt(rule, items))
            && Stream(rule, inputs).lastState == Some(LastOf(items))
            && StreamStep(rule, Stream(rule, inputs), DueIn(now)).decision ==
                 ThresholdFor(rule, LastOf(items)).value.decision
    ensures !StreamStep(rule, Stream(rule, inputs), DueIn(now)).decision.Wait?
    ensures StreamStep(rule, Stream(rule, inputs), DueIn(now)).counters.deadline.None?
  {
    StreamRefinesHistory(rule, inputs);
    DecisionsFollowHistory(rule, inputs, DueIn(now));
  }

  lemma {:induction false} DerivedRunsExclude(rule: Rule, h: History)
    ensures var c := Derive(rule, h);
            && (c.matchingSince.Some? <==> c.matching > 0)
            && (c.recoverySince.Some? <==> c.recovery > 0)
            && !(c.matching > 0 && c.recovery > 0)
  {
    TrailingRunIsMaximal(h.items);
  }

  /** The two runs are never live together, and a live run counts at least one signal. */
  lemma {:induction false} OneLiveRun(rule: Rule, inputs: seq<Input>)
    ensures var c := Stream(rule, inputs);
            && (c.matchingSince.Some? <==> c.matching > 0)
            && (c.recoverySince.Some? <==> c.recovery > 0)
            && !(c.matching > 0 && c.recovery > 0)
  {
    StreamRefinesHistory(rule, inputs);
    DerivedRunsExclude(rule, HistoryOf(rule, inputs));
  }
}
