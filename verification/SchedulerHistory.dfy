/** What the scheduler's state says about its past: which wake-ups are waiting, which runs have ended
    and why, where each run's collection has got to, and which run a request reaches. */
module SchedulerHistory {
  import opened Basics
  import opened Scheduler

  // ---------------------------------------------------------------------------
  // One step
  // ---------------------------------------------------------------------------

  /** The step takes a tick or a trigger out of the run's channels. */
  predicate Consumes(s: State, a: Action, r: nat) {
    && r < |s.runs| && s.runs[r].loop.Looping?
    && ((a == TakesTick(r) && s.runs[r].tick) || (a == TakesTrigger(r) && s.runs[r].trigger))
  }

  /** The step takes the result of the run's collection. */
  predicate TakesResult(s: State, a: Action, r: nat, ok: bool) {
    a == TakesDone(r) && r < |s.runs| && !s.runs[r].loop.Ended? && HasWorker(s, r, Finished(ok))
  }

  /** The step ends the run: a failed collection, the result of any collection after a cancellation
      was seen, or a cancellation seen without a collection. */
  predicate EndsRun(s: State, a: Action, r: nat) {
    || TakesResult(s, a, r, false)
    || (TakesResult(s, a, r, true) && s.runs[r].loop.Draining?)
    || (a == TakesCancel(r) && IsLooping(s, r) && s.runs[r].cancelled && s.runs[r].workers == [])
  }

  /** The run's collection after a step: a goroutine starts for a wake-up consumed while there is none
      and for a remembered one when a good result is taken; it starts collecting when fewer than the
      limit are, reports what it collected, or gives up waiting after a cancellation. */
  function NextWorkers(s: State, a: Action, r: nat): seq<Worker>
    requires r < |s.runs|
  {
    var run := s.runs[r];
    if Consumes(s, a, r) && run.workers == [] then [AwaitToken]
    else if TakesResult(s, a, r, true) && run.pending && run.loop.Looping? then [AwaitToken]
    else if TakesResult(s, a, r, true) || TakesResult(s, a, r, false) then []
    else if a == Acquires(r) && run.workers == [AwaitToken] && Executing(s.runs) < s.limit then [Collecting]
    else if a == GivesUp(r) && run.workers == [AwaitToken] && run.cancelled then [Finished(false)]
    else if a.Collected? && a.r == r && run.workers == [Collecting] then [Finished(a.ok)]
    else run.workers
  }

  /** A step leaves the runs it is not about alone. */
  lemma {:induction false} OthersStay(s: State, a: Action, r: nat)
    requires r < |s.runs| && Subject(s, a) != Some(r)
    ensures r < |Step(s, a).runs| && Step(s, a).runs[r] == s.runs[r]
  {
    match a
    case Starts(_) =>
    case Requests(_) =>
    case TakesDone(_) =>
    case _ =>
  }

  lemma {:induction false} WorkersMove(s: State, a: Action, r: nat)
    requires Inv(s) && r < |s.runs|
    ensures r < |Step(s, a).runs| && Step(s, a).runs[r].workers == NextWorkers(s, a, r)
  {
    if Subject(s, a) != Some(r) {
      OthersStay(s, a, r);
    } else if a.Acquires? || a.GivesUp? || a.Collected? {
      GoroutineMoves(s, a, r);
    } else if a.TakesDone? || a.TakesCancel? {
      ResultMoves(s, a, r);
    } else {
      WakeUpMoves(s, a, r);
    }
  }

  lemma {:induction false} GoroutineMoves(s: State, a: Action, r: nat)
    requires Inv(s) && r < |s.runs| && Subject(s, a) == Some(r) && (a.Acquires? || a.GivesUp? || a.Collected?)
    ensures r < |Step(s, a).runs| && Step(s, a).runs[r].workers == NextWorkers(s, a, r)
  {
    assert RunOk(s.runs[r]);
    BusyRunHoldsAToken(s.runs, r);
  }

  lemma {:induction false} ResultMoves(s: State, a: Action, r: nat)
    requires Inv(s) && r < |s.runs| && Subject(s, a) == Some(r) && (a.TakesDone? || a.TakesCancel?)
    ensures r < |Step(s, a).runs| && Step(s, a).runs[r].workers == NextWorkers(s, a, r)
  {
    assert RunOk(s.runs[r]);
  }

  lemma {:induction false} WakeUpMoves(s: State, a: Action, r: nat)
    requires Inv(s) && r < |s.runs| && Subject(s, a) == Some(r)
    requires a.TakesTick? || a.TakesTrigger? || a.Fires? || a.Cancels? || a.Requests? || a.Sends?
    ensures r < |Step(s, a).runs| && Step(s, a).runs[r].workers == NextWorkers(s, a, r)
  {
    assert RunOk(s.runs[r]);
  }

  /** A fact about a run that some steps make true and some make false. */
  datatype Fact = TickWaits | TriggerWaits | IsCancelled | WakeUpKept | IsDraining | HasEnded

  predicate Says(run: Run, fact: Fact) {
    match fact
    case TickWaits => run.tick
    case TriggerWaits => run.trigger
    case IsCancelled => run.cancelled
    case WakeUpKept => run.pending
    case IsDraining => run.loop.Draining?
    case HasEnded => run.loop.Ended?
  }

  predicate Sets(fact: Fact, s: State, a: Action, r: nat) {
    r < |s.runs| &&
    match fact
    case TickWaits => a == Fires(r)
    case TriggerWaits =>
      a == Sends(r) || (a.Requests? && a.integration in s.triggers && s.triggers[a.integration] == r)
    case IsCancelled => a == Cancels(r)
    case WakeUpKept => Consumes(s, a, r) && s.runs[r].workers != []
    case IsDraining =>
      a == TakesCancel(r) && IsLooping(s, r) && s.runs[r].cancelled && s.runs[r].workers != []
    case HasEnded => EndsRun(s, a, r)
  }

  predicate Clears(fact: Fact, s: State, a: Action, r: nat) {
    match fact
    case TickWaits => Consumes(s, a, r) && a.TakesTick?
    case TriggerWaits => Consumes(s, a, r) && a.TakesTrigger?
    case IsCancelled => false
    case WakeUpKept => TakesResult(s, a, r, true) && s.runs[r].loop.Looping?
    case IsDraining => EndsRun(s, a, r)
    case HasEnded => false
  }

  /** The fact holds after the step exactly when the step makes it true, or it held and is not made
      false. */
  ghost predicate FactFollows(s: State, a: Action, r: nat, fact: Fact)
    requires r < |s.runs|
  {
    && r < |Step(s, a).runs|
    && (Says(Step(s, a).runs[r], fact) <==>
        Sets(fact, s, a, r) || (Says(s.runs[r], fact) && !Clears(fact, s, a, r)))
  }

  lemma {:induction false} FactStep(s: State, a: Action, r: nat, fact: Fact)
    requires Inv(s) && r < |s.runs|
    ensures FactFollows(s, a, r, fact)
  {
    if Subject(s, a) != Some(r) {
      OthersStay(s, a, r);
    } else if a.TakesDone? {
      ResultFact(s, a, r, fact);
    } else if a.TakesCancel? {
      CancelFact(s, a, r, fact);
    } else if a.TakesTick? || a.TakesTrigger? {
      WakeUpFact(s, a, r, fact);
    } else {
      SignalFact(s, a, r, fact);
    }
  }

  lemma {:induction false} ResultFact(s: State, a: Action, r: nat, fact: Fact)
    requires Inv(s) && r < |s.runs| && a == TakesDone(r)
    ensures FactFollows(s, a, r, fact)
  {
    assert RunOk(s.runs[r]);
  }

  lemma {:induction false} CancelFact(s: State, a: Action, r: nat, fact: Fact)
    requires Inv(s) && r < |s.runs| && a == TakesCancel(r)
    ensures FactFollows(s, a, r, fact)
  {
    assert RunOk(s.runs[r]);
  }

  lemma {:induction false} WakeUpFact(s: State, a: Action, r: nat, fact: Fact)
    requires Inv(s) && r < |s.runs| && Subject(s, a) == Some(r) && (a.TakesTick? || a.TakesTrigger?)
    ensures FactFollows(s, a, r, fact)
  {
    assert RunOk(s.runs[r]);
  }

  lemma {:induction false} SignalFact(s: State, a: Action, r: nat, fact: Fact)
    requires Inv(s) && r < |s.runs| && Subject(s, a) == Some(r)
    requires !(a.TakesDone? || a.TakesCancel? || a.TakesTick? || a.TakesTrigger?)
    ensures FactFollows(s, a, r, fact)
  {
  }

  // ---------------------------------------------------------------------------
  // Whole interleavings
  // ---------------------------------------------------------------------------

  /** Some step has made the fact true of the run, and none since has made it false. */
  function Since(fact: Fact, concurrency: int, actions: seq<Action>, r: nat): bool {
    if actions == [] then false
    else
      var rest, a := actions[..|actions| - 1], actions[|actions| - 1];
      var s := After(New(concurrency), rest);
      Sets(fact, s, a, r) || (Since(fact, concurrency, rest, r) && !Clears(fact, s, a, r))
  }

  lemma {:induction false} NewRunSaysNothing(s: State, a: Action, fact: Fact)
    requires Inv(s) && |s.runs| < |Step(s, a).runs|
    ensures |Step(s, a).runs| == |s.runs| + 1 && !Says(Step(s, a).runs[|s.runs|], fact)
    ensures a.Starts? && Step(s, a).runs[|s.runs|].integration == a.integration
    ensures Step(s, a).runs[|s.runs|].workers == [] && !Step(s, a).runs[|s.runs|].owed
  {
  }

  lemma {:induction false} NothingSince(concurrency: int, actions: seq<Action>, r: nat, fact: Fact)
    requires r >= |After(New(concurrency), actions).runs|
    ensures !Since(fact, concurrency, actions, r)
  {
    if actions != [] {
      var rest, a := actions[..|actions| - 1], actions[|actions| - 1];
      var s := After(New(concurrency), rest);
      RunsKeep(New(concurrency), rest);
      RunsStay(s, a);
      NothingSince(concurrency, rest, r, fact);
    }
  }

  /** In every interleaving the state of a run tells its past: a tick or a trigger waits since it was
      sent and until it is consumed, a wake-up is kept while the collection it found is not done, and
      the run has ended exactly when a step ended it. */
  lemma {:induction false} FactsTellPast(concurrency: int, actions: seq<Action>, r: nat, fact: Fact)
    requires r < |After(New(concurrency), actions).runs|
    ensures Says(After(New(concurrency), actions).runs[r], fact) <==> Since(fact, concurrency, actions, r)
  {
    var rest, a := actions[..|actions| - 1], actions[|actions| - 1];
    var s := After(New(concurrency), rest);
    RunsKeep(New(concurrency), rest);
    if r < |s.runs| {
      FactsTellPast(concurrency, rest, r, fact);
      FactStep(s, a, r, fact);
    } else {
      NewRunSaysNothing(s, a, fact);
      NothingSince(concurrency, rest, r, fact);
    }
  }

  // ---------------------------------------------------------------------------
  // Which run a request reaches
  // ---------------------------------------------------------------------------

  /** The run is the newest of its integration and has not ended. */
  ghost predicate TakesRequests(runs: seq<Run>, integration: nat, r: nat) {
    && r < |runs| && runs[r].integration == integration && !runs[r].loop.Ended?
    && forall q :: r < q < |runs| ==> runs[q].integration != integration
  }

  ghost predicate Registered(s: State) {
    forall i, r: nat :: i in s.triggers && s.triggers[i] == r <==> TakesRequests(s.runs, i, r)
  }

  lemma {:induction false} SameRun(s: State, a: Action, r: nat)
    requires Inv(s) && r < |s.runs|
    ensures r < |Step(s, a).runs| && Step(s, a).runs[r].integration == s.runs[r].integration
    ensures Step(s, a).runs[r].loop.Ended? <==> s.runs[r].loop.Ended? || EndsRun(s, a, r)
  {
    FactStep(s, a, r, HasEnded);
    if Subject(s, a) != Some(r) {
      OthersStay(s, a, r);
    }
  }

  lemma {:induction false} SameRuns(s: State, a: Action)
    requires Inv(s) && !a.Starts?
    ensures |Step(s, a).runs| == |s.runs|
    ensures forall r :: 0 <= r < |s.runs| ==>
              && Step(s, a).runs[r].integration == s.runs[r].integration
              && (Step(s, a).runs[r].loop.Ended? <==> s.runs[r].loop.Ended? || EndsRun(s, a, r))
  {
    NobodyStarts(s, a);
    forall r | 0 <= r < |s.runs|
      ensures Step(s, a).runs[r].integration == s.runs[r].integration
      ensures Step(s, a).runs[r].loop.Ended? <==> s.runs[r].loop.Ended? || EndsRun(s, a, r)
    {
      SameRun(s, a, r);
    }
  }

  lemma {:induction false} NobodyStarts(s: State, a: Action)
    requires !a.Starts?
    ensures |Step(s, a).runs| == |s.runs|
  {
  }

  lemma {:induction false} TriggersStep(s: State, a: Action, i: nat)
    requires Inv(s) && !a.Starts?
    ensures i in Step(s, a).triggers <==> i in s.triggers && !EndsRun(s, a, s.triggers[i])
    ensures i in Step(s, a).triggers ==> Step(s, a).triggers[i] == s.triggers[i]
  {
    if i in s.triggers {
      assert RunOk(s.runs[s.triggers[i]]);
    }
    match a
    case TakesDone(r) => if r < |s.runs| { assert RunOk(s.runs[r]); }
    case TakesCancel(r) => if r < |s.runs| { assert RunOk(s.runs[r]); }
    case _ =>
  }

  lemma {:induction false} RegisteredStep(s: State, a: Action)
    requires Inv(s) && Registered(s)
    ensures Registered(Step(s, a))
  {
    var next := Step(s, a);
    forall i, r: nat
      ensures i in next.triggers && next.triggers[i] == r <==> TakesRequests(next.runs, i, r)
    {
      assert i in s.triggers && s.triggers[i] == r <==> TakesRequests(s.runs, i, r);
      if a.Starts? {
        StartTakesOver(s, a.integration, i, r);
      } else {
        SameRuns(s, a);
        TriggersStep(s, a, i);
        assert r < |s.runs| ==> (next.runs[r].integration == i <==> s.runs[r].integration == i);
        assert (forall q :: r < q < |next.runs| ==> next.runs[q].integration != i) <==>
               (forall q :: r < q < |s.runs| ==> s.runs[q].integration != i);
      }
    }
  }

  lemma {:induction false} StartTakesOver(s: State, integration: nat, i: nat, r: nat)
    requires Inv(s) && (i in s.triggers && s.triggers[i] == r <==> TakesRequests(s.runs, i, r))
    ensures var next := Step(s, Starts(integration));
            i in next.triggers && next.triggers[i] == r <==> TakesRequests(next.runs, i, r)
  {
    var next, last := Step(s, Starts(integration)), |s.runs|;
    assert next.runs[last].integration == integration;
    if r < last && integration != i {
      assert next.runs[r] == s.runs[r];
      if TakesRequests(s.runs, i, r) {
        assert TakesRequests(next.runs, i, r);
      } else if TakesRequests(next.runs, i, r) {
        forall q | r < q < last
          ensures s.runs[q].integration != i
        {
          assert next.runs[q] == s.runs[q];
        }
      }
    }
  }

  /** In every interleaving a request reaches the newest run of its integration, and there is none to
      reach exactly when that run has ended. */
  lemma {:induction false} RequestsReachNewest(concurrency: int, actions: seq<Action>)
    ensures Registered(After(New(concurrency), actions))
  {
    if actions != [] {
      RequestsReachNewest(concurrency, actions[..|actions| - 1]);
      RunsKeep(New(concurrency), actions[..|actions| - 1]);
      RegisteredStep(After(New(concurrency), actions[..|actions| - 1]), actions[|actions| - 1]);
    }
  }
}
