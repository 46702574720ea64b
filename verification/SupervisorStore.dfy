/** The persisted adapter instance and the supervisor loop around it, updated statement by statement.
    `trace` is what has happened so far; every method keeps the fields those of that run, so that
    the stored counter and restart time are what the whole past says they should be. */
module SupervisorStore {
  import opened Basics
  import S = Supervisor

  class Supervised {
    var control: S.Control
    var row: Option<S.Instance>
    ghost var trace: seq<S.Event>

    ghost function Snapshot(): S.World
      reads this
    {
      S.World(control, row)
    }

    ghost predicate Valid()
      reads this
    {
      Snapshot() == S.Run(S.INIT, trace)
    }

    /** The stored columns are what the whole past says: failures since the last healthy period, and
        the restart time of the last failure unless a stop or a healthy session came after it. */
    ghost predicate TellsPast()
      reads this
    {
      && (if row.Some? then row.value.failures else 0) == S.FailuresSinceReset(trace)
      && (if row.Some? then row.value.nextRestartAt else None) == S.PendingRestart(trace)
    }

    constructor ()
      ensures Valid() && trace == []
    {
      control, row, trace := S.Down, None, [];
    }

    /** The wait for the stored restart time, then the start of the next session. It starts exactly
        when the time is reached, and so waits as `Supervisor.StartsWaitForBackoff` says. */
    method Launch(now: Time) returns (started: bool)
      requires Valid()
      modifies this
      ensures Valid() && trace == old(trace) + [S.Launches(now)] && TellsPast()
      ensures started <==> old(control).Loading? && S.ReachedBy(S.PendingRestart(old(trace)), now)
      ensures started ==> control.Launching? && row.Some? && row.value.state.Starting?
      ensures !started ==> Snapshot() == old(Snapshot())
    {
      ghost var w := Snapshot();
      S.RowKeepsPendingRestart(trace);
      Recorded(trace, S.Launches(now));
      started := control.Loading?;
      if row.Some? && row.value.nextRestartAt.Some? && row.value.nextRestartAt.value > now {
        started := false;
      }
      assert started <==> S.MayLaunch(w, now);
      if started {
        var starting := S.Instance(S.Starting, 0, None);
        if row.Some? {
          starting := row.value.(state := S.Starting);
        }
        row, control := Some(starting), S.Launching;
      }
      assert Snapshot() == S.Step(w, S.Launches(now));
      trace := trace + [S.Launches(now)];
    }

    /** `MarkFailed`: the counter rises and the next start is put off. */
    method MarkFailed(now: Time, jitter: real) returns (found: bool)
      modifies this`row
      ensures found <==> old(row).Some?
      ensures row == if found then Some(S.MarkFailed(old(row).value, now, jitter)) else None
      ensures found ==> row.value.state.Unhealthy? && row.value.failures == old(row).value.failures + 1
    {
      found := row.Some?;
      if found {
        var failures := row.value.failures + 1;
        var delay := S.ComputeRestartDelay(failures, jitter);
        var at := now - now % 1000 + delay;
        row := Some(S.Instance(S.Unhealthy, failures, Some(at - at % 1000)));
      }
    }

    /** A session that failed to start or ended: there is a row to mark, its counter is one more
        than the failures before, and the loop goes back to waiting. */
    method EndSession(now: Time, jitter: real)
      requires Valid() && (control.Launching? || control.Working?)
      modifies this
      ensures Valid() && TellsPast() && control.Loading? && row.Some?
      ensures trace ==
                old(trace) + [if old(control).Launching? then S.LaunchFails(now, jitter) else S.Dies(now, jitter)]
      ensures row.value.state.Unhealthy? && row.value.failures == S.FailuresSinceReset(old(trace)) + 1
      ensures row.value.nextRestartAt == Some(S.NextRestart(row.value.failures, now, jitter))
    {
      ghost var e := if control.Launching? then S.LaunchFails(now, jitter) else S.Dies(now, jitter);
      Recorded(trace, e);
      S.WorkingRowIsHealthy(trace);
      S.CounterCountsFailures(trace);
      var found := MarkFailed(now, jitter);
      control := S.Loading;
      trace := trace + [e];
    }

    /** The session is up: the restart time is cleared, the counter is kept, the timer is armed. */
    method BecomeHealthy(now: Time)
      requires Valid() && control.Launching?
      modifies this
      ensures Valid() && TellsPast() && control == S.Working(Some(now + 300_000_000_000)) && row.Some?
      ensures trace == old(trace) + [S.BecomesHealthy(now)]
      ensures row.value.state.Running? && row.value.failures == S.FailuresSinceReset(old(trace))
    {
      Recorded(trace, S.BecomesHealthy(now));
      S.WorkingRowIsHealthy(trace);
      S.CounterCountsFailures(trace);
      row := Some(row.value.(state := S.Running, nextRestartAt := None));
      control := S.Working(Some(now + S.HEALTHY_RESET));
      trace := trace + [S.BecomesHealthy(now)];
    }

    /** The healthy-period timer: the counter is cleared, and only after a period of unbroken health. */
    method FireReset(now: Time) returns (fired: bool)
      requires Valid() && control.Working?
      modifies this
      ensures Valid() && TellsPast() && control.Working? && trace == old(trace) + [S.ResetFires(now)]
      ensures fired ==> row.Some? && row.value.failures == 0
      ensures fired <==> exists i: nat :: S.BecameHealthy(old(trace), i) && S.Unbroken(old(trace), i) &&
                                          old(trace)[i].now + 300_000_000_000 <= now
      ensures !fired ==> Snapshot() == old(Snapshot())
    {
      Recorded(trace, S.ResetFires(now));
      S.WorkingRowIsHealthy(trace);
      fired := control.resetAt.Some? && control.resetAt.value <= now;
      S.ResetNeedsHealthyPeriod(trace, S.ResetFires(now));
      if fired {
        row := Some(row.value.(failures := 0, nextRestartAt := None));
        control := S.Working(None);
      }
      trace := trace + [S.ResetFires(now)];
    }

    /** `MarkStopped` on the way out. */
    method Stop()
      requires Valid() && !control.Down?
      modifies this
      ensures Valid() && TellsPast() && control.Down? && trace == old(trace) + [S.Stops]
      ensures row.Some? ==> row.value.state.Stopped? && row.value.nextRestartAt.None?
    {
      Recorded(trace, S.Stops);
      if row.Some? {
        row := Some(row.value.(state := S.Stopped, nextRestartAt := None));
      }
      control := S.Down;
      trace := trace + [S.Stops];
    }

    /** The supervisor begins, after a boot or a crash. */
    method Boot()
      requires Valid() && control.Down?
      modifies this
      ensures Valid() && TellsPast() && control.Loading? && trace == old(trace) + [S.Boots]
    {
      Recorded(trace, S.Boots);
      control := S.Loading;
      trace := trace + [S.Boots];
    }

    /** `Supervisor.Run`, driven by what happens: the outer loop waits, starts a session and records
        its failure, and the inner loop waits for the session's end, the reset timer or a stop. An
        event the loop is not waiting for is passed over. However many sessions it goes through,
        the stored columns tell the whole past. */
    method Supervise(script: seq<S.Event>)
      requires Valid() && control.Down?
      modifies this
      ensures Valid() && TellsPast() && old(trace) <= trace
    {
      Boot();
      var n := 0;
      while n < |script| && !control.Down?
        invariant 0 <= n <= |script| && Valid() && TellsPast() && old(trace) <= trace
        invariant control.Loading? || control.Launching? || control.Down?
      {
        var e := script[n];
        n := n + 1;
        if e.Stops? {
          Stop();
        } else if e.Launches? && control.Loading? {
          var started := Launch(e.now);
        } else if e.LaunchFails? && control.Launching? {
          EndSession(e.now, e.jitter);
        } else if e.BecomesHealthy? && control.Launching? {
          BecomeHealthy(e.now);
          n := Attend(script, n);
          if control.Working? {
            return;
          }
        }
      }
    }

    /** The inner loop: a session that is up. */
    method Attend(script: seq<S.Event>, from: nat) returns (n: nat)
      requires Valid() && TellsPast() && control.Working? && from <= |script|
      modifies this
      ensures Valid() && TellsPast() && old(trace) <= trace && from <= n <= |script|
      ensures control.Loading? || control.Down? || (control.Working? && n == |script|)
    {
      n := from;
      while n < |script| && control.Working?
        invariant from <= n <= |script| && Valid() && TellsPast() && old(trace) <= trace
        invariant control.Loading? || control.Down? || control.Working?
      {
        var e := script[n];
        n := n + 1;
        if e.Stops? {
          Stop();
        } else if e.Dies? {
          EndSession(e.now, e.jitter);
        } else if e.ResetFires? {
          var fired := FireReset(e.now);
        }
      }
    }
  }

  /** One more event: the run takes its step, and its columns tell the longer past. */
  lemma {:induction false} Recorded(trace: seq<S.Event>, e: S.Event)
    ensures S.Run(S.INIT, trace + [e]) == S.Step(S.Run(S.INIT, trace), e)
    ensures var w := S.Run(S.INIT, trace + [e]);
            && (if w.row.Some? then w.row.value.failures else 0) == S.FailuresSinceReset(trace + [e])
            && (if w.row.Some? then w.row.value.nextRestartAt else None) == S.PendingRestart(trace + [e])
  {
    assert (trace + [e])[..|trace|] == trace;
    S.CounterCountsFailures(trace + [e]);
    S.RowKeepsPendingRestart(trace + [e]);
  }
}
