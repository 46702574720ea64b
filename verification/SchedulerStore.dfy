/** The scheduler as its event loops and collection goroutines update it. `trace` is what has happened
    so far, to all runs together; every method keeps the fields those of that interleaving, so the
    results of `Scheduler` about every interleaving hold of them. */
module SchedulerStore {
  import opened Basics
  import S = Scheduler

  /** What a select statement of a run finds ready. */
  datatype Arm = Tick | Trigger | Result | Cancellation

  class Dispatcher {
    const limit: nat
    var tokens: nat
    var runs: seq<S.Run>
    var triggers: map<nat, nat>
    ghost const concurrency: int
    ghost var trace: seq<S.Action>

    ghost function Snapshot(): S.State
      reads this
    {
      S.State(limit, tokens, runs, triggers)
    }

    ghost predicate Valid()
      reads this
    {
      Snapshot() == S.After(S.New(concurrency), trace) && S.Inv(Snapshot())
    }

    constructor (concurrency: int)
      ensures Valid() && trace == []
    {
      this.concurrency := concurrency;
      limit := if concurrency <= 0 then 4 else concurrency;
      tokens, runs, triggers, trace := 0, [], map[], [];
      new;
      S.RunsKeep(S.New(concurrency), []);
    }

    /** A new run takes its integration's requests over from an older one. */
    method Register(integration: nat) returns (r: nat)
      requires Valid()
      modifies this
      ensures Valid() && trace == old(trace) + [S.Starts(integration)]
      ensures r == |old(runs)| < |runs| && runs[r].integration == integration && S.Idle(runs[r]) && !runs[r].owed
      ensures integration in triggers && triggers[integration] == r
    {
      Recorded(concurrency, trace, S.Starts(integration));
      r := |runs|;
      runs := runs + [S.Run(integration, S.Looping, false, false, false, false, false, [], false)];
      triggers := triggers[integration := r];
      trace := trace + [S.Starts(integration)];
    }

    /** A manual request: refused without a run, otherwise put into the one-slot trigger of a run
        that has not ended and now owes a collection. */
    method Request(integration: nat) returns (accepted: bool)
      requires Valid()
      modifies this`runs, this`trace
      ensures Valid() && trace == old(trace) + [S.Requests(integration)]
      ensures accepted <==> integration in triggers
      ensures accepted ==>
                var r := triggers[integration];
                r < |runs| && runs[r].integration == integration && !runs[r].loop.Ended? && runs[r].trigger &&
                  runs[r].owed
    {
      Recorded(concurrency, trace, S.Requests(integration));
      accepted := integration in triggers;
      if accepted {
        var r := triggers[integration];
        if !runs[r].trigger {
          runs := runs[r := runs[r].(trigger := true)];
        }
        runs := runs[r := runs[r].(owed := true)];
      }
      trace := trace + [S.Requests(integration)];
    }

    /** The timer arm and the trigger arm of the loop: the run has its one collection goroutine, and
        the wake-up waits behind it or is what it was started for. */
    method Wake(r: nat, byTimer: bool)
      requires Valid() && r < |runs| && runs[r].loop.Looping? && if byTimer then runs[r].tick else runs[r].trigger
      modifies this`runs, this`trace
      ensures Valid() && trace == old(trace) + [if byTimer then S.TakesTick(r) else S.TakesTrigger(r)]
      ensures |runs| == |old(runs)| && |runs[r].workers| == 1 && runs[r].owed
      ensures runs[r].pending || runs[r].workers == [S.AwaitToken]
    {
      ghost var a := if byTimer then S.TakesTick(r) else S.TakesTrigger(r);
      Recorded(concurrency, trace, a);
      var run := if byTimer then runs[r].(tick := false) else runs[r].(trigger := false);
      run := run.(owed := true);
      if run.active {
        if !run.pending {
          run := run.(pending := true);
        }
      } else {
        run := run.(active := true, workers := run.workers + [S.AwaitToken]);
      }
      runs := runs[r := run];
      trace := trace + [a];
      assert S.RunOk(runs[r]);
    }

    /** The arm that receives a collection's result, in the loop or while a cancelled run drains: a
        failed or cancelled run has ended with no goroutine left and takes no more requests; one
        that remembered a wake-up is collecting for it; any other is idle. */
    method Finish(r: nat)
      requires Valid() && r < |runs| && !runs[r].loop.Ended? && runs[r].workers != [] && runs[r].workers[0].Finished?
      modifies this`runs, this`triggers, this`trace
      ensures Valid() && trace == old(trace) + [S.TakesDone(r)] && |runs| == |old(runs)|
      ensures runs[r].loop.Ended? <==> old(runs)[r].loop.Draining? || !old(runs)[r].workers[0].ok
      ensures runs[r].loop.Ended? ==> runs[r].workers == [] && forall i :: i in triggers ==> triggers[i] != r
      ensures !runs[r].loop.Ended? ==>
                if old(runs)[r].pending then runs[r].workers == [S.AwaitToken] && !runs[r].pending
                else runs[r].workers == [] && !runs[r].active
    {
      Recorded(concurrency, trace, S.TakesDone(r));
      assert S.RunOk(runs[r]);
      var ok, run := runs[r].workers[0].ok, runs[r].(active := false, workers := runs[r].workers[1..]);
      if run.loop.Draining? || !ok {
        runs := runs[r := run.(loop := S.Ended)];
        Unregister(r);
      } else if run.pending {
        runs := runs[r := run.(pending := false, active := true, workers := run.workers + [S.AwaitToken])];
      } else {
        runs := runs[r := run];
      }
      trace := trace + [S.TakesDone(r)];
    }

    /** The deferred removal from the trigger map: only the run's own entry goes. */
    method Unregister(r: nat)
      requires r < |runs|
      modifies this`triggers
      ensures triggers == if runs[r].integration in old(triggers) && old(triggers)[runs[r].integration] == r
                          then old(triggers) - {runs[r].integration} else old(triggers)
    {
      var integration := runs[r].integration;
      if integration in triggers && triggers[integration] == r {
        triggers := triggers - {integration};
      }
    }

    /** The cancellation arm: a run without a collection ends, another waits for it. */
    method Cancel(r: nat)
      requires Valid() && r < |runs| && runs[r].loop.Looping? && runs[r].cancelled
      modifies this`runs, this`triggers, this`trace
      ensures Valid() && trace == old(trace) + [S.TakesCancel(r)] && |runs| == |old(runs)|
      ensures if old(runs)[r].workers == [] then runs[r].loop.Ended?
              else runs[r].loop.Draining? && |runs[r].workers| == 1
    {
      Recorded(concurrency, trace, S.TakesCancel(r));
      assert S.RunOk(runs[r]);
      if runs[r].active {
        runs := runs[r := runs[r].(loop := S.Draining)];
      } else {
        runs := runs[r := runs[r].(loop := S.Ended)];
        Unregister(r);
      }
      trace := trace + [S.TakesCancel(r)];
    }

    /** A collection goroutine takes a token or, without a free one, keeps waiting; it waits only
        while the limit of collections is executing. */
    method Acquire(r: nat) returns (started: bool)
      requires Valid() && r < |runs| && runs[r].workers != [] && runs[r].workers[0].AwaitToken?
      modifies this`runs, this`tokens, this`trace
      ensures Valid() && trace == old(trace) + [S.Acquires(r)]
      ensures started <==> S.StartsCollection(old(Snapshot()), S.Acquires(r), r)
      ensures !started ==> S.Executing(runs) == limit
    {
      Recorded(concurrency, trace, S.Acquires(r));
      started := tokens < limit;
      if started {
        tokens := tokens + 1;
        runs := runs[r := runs[r].(workers := [S.Collecting] + runs[r].workers[1..], owed := false)];
      }
      trace := trace + [S.Acquires(r)];
    }

    /** A collection gives its token back, which it holds because it is executing, and reports its
        result: one collection fewer is executing. */
    method Report(r: nat, ok: bool)
      requires Valid() && r < |runs| && runs[r].workers != [] && runs[r].workers[0].Collecting?
      modifies this`runs, this`tokens, this`trace
      ensures Valid() && trace == old(trace) + [S.Collected(r, ok)]
      ensures S.Executing(runs) == S.Executing(old(runs)) - 1 && S.Executing(runs) < limit
    {
      Recorded(concurrency, trace, S.Collected(r, ok));
      S.BusyRunHoldsAToken(runs, r);
      tokens := tokens - 1;
      runs := runs[r := runs[r].(workers := [S.Finished(ok)] + runs[r].workers[1..])];
      trace := trace + [S.Collected(r, ok)];
    }

    /** One step of something else. */
    method Happen(a: S.Action)
      requires Valid()
      modifies this`tokens, this`runs, this`triggers, this`trace
      ensures Valid() && trace == old(trace) + [a] && |runs| >= |old(runs)|
    {
      ghost var before := Snapshot();
      Recorded(concurrency, trace, a);
      S.RunsStay(before, a);
      var next := S.Step(S.State(limit, tokens, runs, triggers), a);
      tokens, runs, triggers := next.tokens, next.runs, next.triggers;
      assert Snapshot() == S.Step(before, a);
      trace := trace + [a];
    }

    /** What goes on outside a run's loop: timers, requests, cancellations, goroutines, other runs. */
    method Interfere(actions: seq<S.Action>)
      requires Valid()
      modifies this`tokens, this`runs, this`triggers, this`trace
      ensures Valid() && old(trace) <= trace && |runs| >= |old(runs)|
    {
      for n := 0 to |actions|
        invariant Valid() && old(trace) <= trace && |runs| >= |old(runs)|
      {
        Happen(actions[n]);
      }
    }

    /** The loop of `Run` for one run, driven by what its select statements find ready, with anything
        happening around it before each. While it goes on, never more than the limit of collections
        execute; when it has stopped for want of anything ready, an idle run owes no collection. */
    method Loop(r: nat, arms: seq<Arm>, around: seq<seq<S.Action>>)
      requires Valid() && r < |runs| && |around| == |arms|
      modifies this`tokens, this`runs, this`triggers, this`trace
      ensures Valid() && old(trace) <= trace && r < |runs|
      ensures S.Executing(runs) == tokens <= limit && |runs[r].workers| <= 1
      ensures S.Idle(runs[r]) ==> !runs[r].owed
    {
      var n := 0;
      while n < |arms| && !runs[r].loop.Ended?
        invariant 0 <= n <= |arms| && Valid() && old(trace) <= trace && r < |runs|
        decreases |arms| - n
      {
        Interfere(around[n]);
        var arm := arms[n];
        n := n + 1;
        if runs[r].loop.Looping? && arm.Tick? && runs[r].tick {
          Wake(r, true);
        } else if runs[r].loop.Looping? && arm.Trigger? && runs[r].trigger {
          Wake(r, false);
        } else if !runs[r].loop.Ended? && arm.Result? && runs[r].workers != [] && runs[r].workers[0].Finished? {
          Finish(r);
        } else if runs[r].loop.Looping? && arm.Cancellation? && runs[r].cancelled {
          Cancel(r);
        }
      }
      assert S.RunOk(runs[r]);
    }
  }

  /** One more step: the interleaving takes it, and the invariant holds after it. */
  lemma {:induction false} Recorded(concurrency: int, trace: seq<S.Action>, a: S.Action)
    ensures S.After(S.New(concurrency), trace + [a]) == S.Step(S.After(S.New(concurrency), trace), a)
    ensures S.Inv(S.After(S.New(concurrency), trace + [a]))
  {
    assert (trace + [a])[..|trace|] == trace;
    S.RunsKeep(S.New(concurrency), trace + [a]);
  }
}
