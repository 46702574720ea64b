/** Coalescing collection dispatch under a global token limit. Any number of scheduler runs (one
    per adapter generation), their timers, manual requests, collection goroutines and
    cancellations interleave step by step. */
module Scheduler {
  import opened Basics

  /** A collection goroutine of a run: waiting for a token, collecting, or with its result in `done`. */
  datatype Worker = AwaitToken | Collecting | Finished(ok: bool)

  datatype Loop = Looping | Draining | Ended

  /** One scheduler run. `tick` and `trigger` are its one-slot channels; `active` and `pending` its
      loop variables; `workers` the collection goroutines it has in existence. `owed` says that a
      tick was consumed or a request accepted since a collection last started. */
  datatype Run = Run(
    integration: nat, loop: Loop, tick: bool, trigger: bool, cancelled: bool,
    active: bool, pending: bool, workers: seq<Worker>, owed: bool)

  /** The scheduler: tokens in use, its runs, and which run takes an integration's requests. */
  datatype State = State(limit: nat, tokens: nat, runs: seq<Run>, triggers: map<nat, nat>)

  function New(concurrency: int): State {
    State(if concurrency <= 0 then 4 else concurrency, 0, [], map[])
  }

  datatype Action =
    | Starts(integration: nat)
    | Fires(r: nat)
    | Cancels(r: nat)
    | Requests(integration: nat)
    | Sends(r: nat)
    | TakesTick(r: nat)
    | TakesTrigger(r: nat)
    | TakesDone(r: nat)
    | TakesCancel(r: nat)
    | Acquires(r: nat)
    | GivesUp(r: nat)
    | Collected(r: nat, ok: bool)

  function SetRun(s: State, r: nat, run: Run): State
    requires r < |s.runs|
  {
    s.(runs := s.runs[r := run])
  }

  /** The closure `start`. */
  function Start(run: Run): Run {
    run.(active := true, workers := run.workers + [AwaitToken])
  }

  /** A consumed tick or trigger: collect now, or remember it behind the collection under way. */
  function Wake(run: Run): Run {
    if run.active then run.(pending := true, owed := true) else Start(run.(owed := true))
  }

  /** The run returns, and stops taking requests unless a later run took over. */
  function End(s: State, r: nat, run: Run): State
    requires r < |s.runs|
  {
    var ended := SetRun(s, r, run.(loop := Ended));
    if run.integration in s.triggers && s.triggers[run.integration] == r
    then ended.(triggers := s.triggers - {run.integration})
    else ended
  }

  function TakeDone(s: State, r: nat): State
    requires r < |s.runs| && s.runs[r].workers != [] && s.runs[r].workers[0].Finished?
  {
    var run := s.runs[r];
    var idle := run.(active := false, workers := run.workers[1..]);
    if run.loop.Draining? || !run.workers[0].ok then End(s, r, idle)
    else SetRun(s, r, if run.pending then Start(idle.(pending := false)) else idle)
  }

  function Request(s: State, integration: nat): State {
    if integration in s.triggers && s.triggers[integration] < |s.runs| then
      Send(s, s.triggers[integration])
    else s
  }

  /** The second half of a request that looked its run up earlier, perhaps before the run ended. */
  function Send(s: State, r: nat): State
    requires r < |s.runs|
  {
    SetRun(s, r, s.runs[r].(trigger := true, owed := true))
  }

  predicate HasWorker(s: State, r: nat, worker: Worker) {
    r < |s.runs| && s.runs[r].workers != [] && s.runs[r].workers[0] == worker
  }

  predicate IsLooping(s: State, r: nat) {
    r < |s.runs| && s.runs[r].loop.Looping?
  }

  /** One step; a step that is not enabled changes nothing. */
  function Step(s: State, a: Action): State {
    match a
    case Starts(integration) =>
      s.(runs := s.runs + [Run(integration, Looping, false, false, false, false, false, [], false)],
         triggers := s.triggers[integration := |s.runs|])
    case Fires(r) => if r < |s.runs| then SetRun(s, r, s.runs[r].(tick := true)) else s
    case Cancels(r) => if r < |s.runs| then SetRun(s, r, s.runs[r].(cancelled := true)) else s
    case Requests(integration) => Request(s, integration)
    case Sends(r) => if r < |s.runs| then Send(s, r) else s
    case TakesTick(r) => if IsLooping(s, r) && s.runs[r].tick then SetRun(s, r, Wake(s.runs[r].(tick := false))) else s
    case TakesTrigger(r) =>
      if IsLooping(s, r) && s.runs[r].trigger then SetRun(s, r, Wake(s.runs[r].(trigger := false))) else s
    case TakesDone(r) =>
      if r < |s.runs| && !s.runs[r].loop.Ended? && s.runs[r].workers != [] && s.runs[r].workers[0].Finished?
      then TakeDone(s, r)
      else s
    case TakesCancel(r) =>
      if IsLooping(s, r) && s.runs[r].cancelled then
        if s.runs[r].active then SetRun(s, r, s.runs[r].(loop := Draining)) else End(s, r, s.runs[r])
      else s
    case Acquires(r) =>
      if HasWorker(s, r, AwaitToken) && s.tokens < s.limit then
        var run := s.runs[r].(workers := [Collecting] + s.runs[r].workers[1..], owed := false);
        SetRun(s, r, run).(tokens := s.tokens + 1)
      else s
    case GivesUp(r) =>
      if HasWorker(s, r, AwaitToken) && s.runs[r].cancelled then
        SetRun(s, r, s.runs[r].(workers := [Finished(false)] + s.runs[r].workers[1..])) else s
    case Collected(r, ok) =>
      if HasWorker(s, r, Collecting) && s.tokens > 0 then
        SetRun(s, r, s.runs[r].(workers := [Finished(ok)] + s.runs[r].workers[1..])).(tokens := s.tokens - 1)
      else s
  }

  function After(s: State, actions: seq<Action>): State {
    if actions == [] then s
    else Step(After(s, actions[..|actions| - 1]), actions[|actions| - 1])
  }

  // ---------------------------------------------------------------------------
  // The invariant
  // ---------------------------------------------------------------------------

  function Busy(run: Run): nat {
    if run.workers != [] && run.workers[0].Collecting? then 1 else 0
  }

  /** Collections executing now, over all runs. */
  function Executing(runs: seq<Run>): nat {
    if runs == [] then 0 else Executing(runs[..|runs| - 1]) + Busy(runs[|runs| - 1])
  }

  /** A run has a goroutine exactly while it is active, remembers a wake-up only then, and while it
      loops every wake-up it owes is still in its trigger, remembered, or about to collect. */
  predicate RunOk(run: Run) {
    && (run.loop.Ended? ==> run.workers == [])
    && (!run.loop.Ended? ==> |run.workers| == if run.active then 1 else 0)
    && (run.loop.Draining? ==> run.active)
    && (run.loop.Looping? && run.pending ==> run.active)
    && (run.loop.Looping? && run.owed ==>
          run.trigger || run.pending || (run.workers != [] && run.workers[0].AwaitToken?) ||
          (run.workers != [] && run.workers[0] == Finished(false)))
  }

  ghost predicate Inv(s: State) {
    && s.limit >= 1 && s.tokens <= s.limit
    && s.tokens == Executing(s.runs)
    && (forall r :: 0 <= r < |s.runs| ==> RunOk(s.runs[r]))
    && (forall i :: i in s.triggers ==>
          s.triggers[i] < |s.runs| && s.runs[s.triggers[i]].integration == i && !s.runs[s.triggers[i]].loop.Ended?)
  }

  lemma {:induction false} ExecutingUpdate(runs: seq<Run>, r: nat, run: Run)
    requires r < |runs|
    ensures Executing(runs[r := run]) == Executing(runs) - Busy(runs[r]) + Busy(run)
  {
    var last := |runs| - 1;
    if r < last {
      ExecutingUpdate(runs[..last], r, run);
      assert runs[r := run][..last] == runs[..last][r := run];
    } else {
      assert runs[r := run][..last] == runs[..last];
    }
  }

  /** A step that changes one run and keeps its integration. */
  lemma {:induction false} OneRunKeeps(s: State, next: State, r: nat)
    requires Inv(s) && r < |s.runs| && |next.runs| == |s.runs| && next.runs == s.runs[r := next.runs[r]]
    requires next.limit == s.limit && next.tokens == s.tokens + Busy(next.runs[r]) - Busy(s.runs[r]) &&
               next.tokens <= next.limit
    requires RunOk(next.runs[r]) && next.runs[r].integration == s.runs[r].integration
    requires if next.runs[r].loop.Ended? then
               next.triggers == (if s.runs[r].integration in s.triggers && s.triggers[s.runs[r].integration] == r
                                 then s.triggers - {s.runs[r].integration} else s.triggers)
             else next.triggers == s.triggers && !s.runs[r].loop.Ended?
    ensures Inv(next)
  {
    ExecutingUpdate(s.runs, r, next.runs[r]);
  }

  lemma {:induction false} StartsKeeps(s: State, integration: nat)
    requires Inv(s)
    ensures Inv(Step(s, Starts(integration)))
  {
    var next := Step(s, Starts(integration));
    var last := |s.runs|;
    assert next.runs[..last] == s.runs && Executing(next.runs) == Executing(s.runs) + Busy(next.runs[last]);
    assert RunOk(next.runs[last]);
    forall r | 0 <= r < last
      ensures RunOk(next.runs[r])
    {
      assert next.runs[r] == s.runs[r];
    }
  }

  /** The run an action is about. */
  function Subject(s: State, a: Action): Option<nat> {
    match a
    case Starts(_) => None
    case Requests(i) => if i in s.triggers then Some(s.triggers[i]) else None
    case Sends(r) => Some(r)
    case Fires(r) => Some(r)
    case Cancels(r) => Some(r)
    case TakesTick(r) => Some(r)
    case TakesTrigger(r) => Some(r)
    case TakesDone(r) => Some(r)
    case TakesCancel(r) => Some(r)
    case Acquires(r) => Some(r)
    case GivesUp(r) => Some(r)
    case Collected(r, _) => Some(r)
  }

  lemma {:induction false} WakeKeeps(s: State, a: Action, r: nat)
    requires Inv(s) && r < |s.runs| && Subject(s, a) == Some(r) && (a.TakesTick? || a.TakesTrigger?)
    ensures Inv(Step(s, a))
  {
    assert RunOk(s.runs[r]);
    if Step(s, a) != s {
      OneRunKeeps(s, Step(s, a), r);
    }
  }

  lemma {:induction false} DoneKeeps(s: State, r: nat)
    requires Inv(s) && r < |s.runs|
    ensures Inv(Step(s, TakesDone(r)))
  {
    assert RunOk(s.runs[r]);
    if Step(s, TakesDone(r)) != s {
      OneRunKeeps(s, Step(s, TakesDone(r)), r);
    }
  }

  lemma {:induction false} CancelKeeps(s: State, r: nat)
    requires Inv(s) && r < |s.runs|
    ensures Inv(Step(s, TakesCancel(r)))
  {
    assert RunOk(s.runs[r]);
    if Step(s, TakesCancel(r)) != s {
      OneRunKeeps(s, Step(s, TakesCancel(r)), r);
    }
  }

  lemma {:induction false} WorkerKeeps(s: State, a: Action, r: nat)
    requires Inv(s) && r < |s.runs| && Subject(s, a) == Some(r)
    requires a.Acquires? || a.GivesUp? || a.Collected?
    ensures Inv(Step(s, a))
  {
    assert RunOk(s.runs[r]);
    if Step(s, a) != s {
      OneRunKeeps(s, Step(s, a), r);
    }
  }

  lemma {:induction false} SignalKeeps(s: State, a: Action, r: nat)
    requires Inv(s) && r < |s.runs| && Subject(s, a) == Some(r)
    requires a.Fires? || a.Cancels? || a.Requests? || a.Sends?
    ensures Inv(Step(s, a))
  {
    assert RunOk(s.runs[r]);
    var next := Step(s, a);
    ExecutingUpdate(s.runs, r, next.runs[r]);
  }

  lemma {:induction false} StepKeeps(s: State, a: Action)
    requires Inv(s)
    ensures Inv(Step(s, a))
  {
    var subject := Subject(s, a);
    if a.Starts? {
      StartsKeeps(s, a.integration);
    } else if subject.Some? && subject.value < |s.runs| {
      if a.TakesTick? || a.TakesTrigger? {
        WakeKeeps(s, a, subject.value);
      } else if a.TakesDone? {
        DoneKeeps(s, subject.value);
      } else if a.TakesCancel? {
        CancelKeeps(s, subject.value);
      } else if a.Acquires? || a.GivesUp? || a.Collected? {
        WorkerKeeps(s, a, subject.value);
      } else {
        SignalKeeps(s, a, subject.value);
      }
    }
  }

  lemma {:induction false} RunsKeep(s: State, actions: seq<Action>)
    requires Inv(s)
    ensures Inv(After(s, actions))
  {
    if actions != [] {
      RunsKeep(s, actions[..|actions| - 1]);
      StepKeeps(After(s, actions[..|actions| - 1]), actions[|actions| - 1]);
    }
  }

  // ---------------------------------------------------------------------------
  // Whole runs
  // ---------------------------------------------------------------------------

  lemma {:induction false} LimitStays(concurrency: int, actions: seq<Action>)
    ensures After(New(concurrency), actions).limit == if concurrency <= 0 then 4 else concurrency
  {
    if actions != [] {
      LimitStays(concurrency, actions[..|actions| - 1]);
    }
  }

  /** Over all interleavings at most the configured number of collections execute at once, four if
      none is configured, and every run has at most one collection goroutine. */
  lemma {:induction false} ConcurrencyIsBounded(concurrency: int, actions: seq<Action>)
    ensures var s := After(New(concurrency), actions);
            && Executing(s.runs) == s.tokens <= s.limit == (if concurrency <= 0 then 4 else concurrency)
            && forall r :: 0 <= r < |s.runs| ==> |s.runs[r].workers| <= 1
  {
    RunsKeep(New(concurrency), actions);
    LimitStays(concurrency, actions);
    var s := After(New(concurrency), actions);
    forall r | 0 <= r < |s.runs|
      ensures |s.runs[r].workers| <= 1
    {
      assert RunOk(s.runs[r]);
    }
  }

  predicate Idle(run: Run) {
    run.loop.Looping? && !run.active && !run.trigger
  }

  /** A live run that is neither collecting nor about to, with nothing in its trigger, owes nothing. */
  lemma {:induction false} IdleRunOwesNothing(concurrency: int, actions: seq<Action>, r: nat)
    requires r < |After(New(concurrency), actions).runs| && Idle(After(New(concurrency), actions).runs[r])
    ensures !After(New(concurrency), actions).runs[r].owed
  {
    RunsKeep(New(concurrency), actions);
    assert RunOk(After(New(concurrency), actions).runs[r]);
  }

  /** The step consumes a tick or a trigger of the run, or accepts a request for it. */
  predicate Wakes(s: State, a: Action, r: nat) {
    match a
    case TakesTick(q) => q == r && IsLooping(s, r) && s.runs[r].tick
    case TakesTrigger(q) => q == r && IsLooping(s, r) && s.runs[r].trigger
    case Requests(i) => i in s.triggers && s.triggers[i] == r && r < |s.runs|
    case Sends(q) => q == r && r < |s.runs|
    case _ => false
  }

  /** The step starts a collection of the run. */
  predicate StartsCollection(s: State, a: Action, r: nat) {
    a == Acquires(r) && HasWorker(s, r, AwaitToken) && s.tokens < s.limit
  }

  lemma {:induction false} OwedStep(s: State, a: Action, r: nat)
    requires r < |s.runs|
    ensures r < |Step(s, a).runs|
    ensures Wakes(s, a, r) ==> Step(s, a).runs[r].owed
    ensures s.runs[r].owed && !StartsCollection(s, a, r) ==> Step(s, a).runs[r].owed
  {
  }

  /** A collection of the run starts after step `j`. */
  predicate StartedAfter(s: State, actions: seq<Action>, j: nat, r: nat) {
    j + 1 < |actions| &&
    var rest, a := actions[..|actions| - 1], actions[|actions| - 1];
    StartedAfter(s, rest, j, r) || StartsCollection(After(s, rest), a, r)
  }

  lemma {:induction false} StartingStep(s: State, actions: seq<Action>, j: nat, r: nat) returns (k: nat)
    requires StartedAfter(s, actions, j, r)
    ensures j < k < |actions| && StartsCollection(After(s, actions[..k]), actions[k], r)
  {
    var rest := actions[..|actions| - 1];
    if StartedAfter(s, rest, j, r) {
      k := StartingStep(s, rest, j, r);
      assert rest[..k] == actions[..k];
    } else {
      k := |rest|;
    }
  }

  /** A wake-up is owed until a collection of its run starts. */
  lemma {:induction false} OwedUntilStarted(s: State, actions: seq<Action>, j: nat, r: nat)
    requires j < |actions| && r < |After(s, actions[..j]).runs| && Wakes(After(s, actions[..j]), actions[j], r)
    ensures r < |After(s, actions).runs| && (After(s, actions).runs[r].owed || StartedAfter(s, actions, j, r))
  {
    var rest, a := actions[..|actions| - 1], actions[|actions| - 1];
    var before := After(s, rest);
    if j < |rest| {
      assert rest[..j] == actions[..j] && rest[j] == actions[j];
      OwedUntilStarted(s, rest, j, r);
      if StartedAfter(s, rest, j, r) || StartsCollection(before, a, r) {
        RunsStay(before, a);
        assert StartedAfter(s, actions, j, r);
      } else {
        OwedStep(before, a, r);
      }
    } else {
      assert actions[..j] == rest;
      OwedStep(before, a, r);
    }
  }

  lemma {:induction false} RunsStay(s: State, a: Action)
    ensures |Step(s, a).runs| >= |s.runs| && Step(s, a).limit == s.limit
  {
  }

  /** Coalescing loses no wake-up: when a live run is idle again, a collection has started after
      every tick it consumed and every request it accepted. */
  lemma {:induction false} NoWakeUpIsLost(concurrency: int, actions: seq<Action>, j: nat, r: nat)
    requires j < |actions| && r < |After(New(concurrency), actions[..j]).runs|
    requires Wakes(After(New(concurrency), actions[..j]), actions[j], r)
    requires r < |After(New(concurrency), actions).runs| && Idle(After(New(concurrency), actions).runs[r])
    ensures exists k :: j < k < |actions| && StartsCollection(After(New(concurrency), actions[..k]), actions[k], r)
  {
    IdleRunOwesNothing(concurrency, actions, r);
    OwedUntilStarted(New(concurrency), actions, j, r);
    var k := StartingStep(New(concurrency), actions, j, r);
  }

  /** How many of its own steps a live run is from starting the collection it owes. */
  function Distance(run: Run): nat {
    if !run.owed then 0
    else if run.workers != [] && run.workers[0].AwaitToken? then 1
    else if run.pending then (if run.workers != [] && run.workers[0].Collecting? then 3 else 2)
    else 4
  }

  /** The run's own next step towards that collection. */
  function NextStep(run: Run, r: nat): Action {
    if run.workers != [] && run.workers[0].AwaitToken? then Acquires(r)
    else if run.pending then
      (if run.workers != [] && run.workers[0].Collecting? then Collected(r, true) else TakesDone(r))
    else TakesTrigger(r)
  }

  lemma {:induction false} BusyRunHoldsAToken(runs: seq<Run>, r: nat)
    requires r < |runs|
    ensures Executing(runs) >= Busy(runs[r])
  {
    if r < |runs| - 1 {
      BusyRunHoldsAToken(runs[..|runs| - 1], r);
    }
  }

  /** The run's collection failed or gave up, so the run is about to return. */
  predicate AboutToEnd(run: Run) {
    run.workers != [] && run.workers[0] == Finished(false)
  }

  lemma {:induction false} NextStepApproaches(s: State, r: nat)
    requires Inv(s) && r < |s.runs| && s.runs[r].loop.Looping? && s.runs[r].owed && !AboutToEnd(s.runs[r])
    ensures var next := Step(s, NextStep(s.runs[r], r));
            || (r < |next.runs| && Distance(next.runs[r]) < Distance(s.runs[r]))
            || (NextStep(s.runs[r], r) == Acquires(r) && Executing(s.runs) == s.limit)
  {
    var run := s.runs[r];
    assert RunOk(run);
    BusyRunHoldsAToken(s.runs, r);
    if run.workers != [] && run.workers[0].AwaitToken? {
    } else if run.pending {
      assert |run.workers| == 1;
    } else {
      assert Step(s, TakesTrigger(r)).runs[r] == Wake(run.(trigger := false));
    }
  }

  /** A live run that owes a collection and is not about to end can always move towards it: its next
      step brings the collection closer or starts it, unless the run waits for a token while all
      tokens are held by collections that are executing. */
  lemma {:induction false} OwedCollectionApproaches(concurrency: int, actions: seq<Action>, r: nat)
    requires r < |After(New(concurrency), actions).runs|
    requires var run := After(New(concurrency), actions).runs[r]; run.loop.Looping? && run.owed && !AboutToEnd(run)
    ensures var s := After(New(concurrency), actions);
            var next := Step(s, NextStep(s.runs[r], r));
            || (r < |next.runs| && Distance(next.runs[r]) < Distance(s.runs[r]))
            || (NextStep(s.runs[r], r) == Acquires(r) && Executing(s.runs) == s.limit)
  {
    RunsKeep(New(concurrency), actions);
    NextStepApproaches(After(New(concurrency), actions), r);
  }
}
