/** Persisted restart back-off of an adapter instance. Times are nanoseconds; a stored time is
    truncated to whole microseconds. Jitter factors are real numbers: rounding of the factor is
    not modelled. */
module Supervisor {
  import opened Basics

  const SECOND := 1_000_000_000
  const BASE_DELAY := SECOND
  const MAX_DELAY := 60 * SECOND
  const HEALTHY_RESET := 300 * SECOND

  /** The delay before jitter: doubling from one second, capped at one minute. */
  function Backoff(failures: int): int {
    Min(BASE_DELAY * Pow2(if failures < 1 then 0 else failures - 1), MAX_DELAY)
  }

  function ClampJitter(jitter: real): real {
    if jitter < 0.8 then 0.8 else if jitter > 1.2 then 1.2 else jitter
  }

  function Scaled(delay: int, factor: real): int {
    (delay as real * factor).Floor
  }

  function RestartDelay(failures: int, jitter: real): int {
    Scaled(Backoff(failures), ClampJitter(jitter))
  }

  /** The loop that doubles and caps computes `min(2^(n-1), 60)` seconds. */
  method DoubleAndCap(n: int) returns (delay: int)
    requires n >= 1
    ensures delay == Backoff(n) == Min(1_000_000_000 * Pow2(n - 1), 60_000_000_000)
  {
    delay := BASE_DELAY;
    var count := 1;
    while count < n && delay < MAX_DELAY
      invariant 1 <= count <= n
      invariant delay == Min(BASE_DELAY * Pow2(count - 1), MAX_DELAY)
    {
      delay := delay * 2;
      if delay > MAX_DELAY {
        delay := MAX_DELAY;
      }
      count := count + 1;
    }
    BackoffIsCapped(count, n);
  }

  /** The delay in nanoseconds: one second for the first failure, twice as long for each further one,
      at most a minute; times the jitter factor, taken between 0.8 and 1.2; rounded down. */
  ghost predicate IsRestartDelay(delay: int, failures: int, jitter: real) {
    var exponent: nat := if failures <= 1 then 0 else failures - 1;
    var before := if 1_000_000_000 * Pow2(exponent) <= 60_000_000_000 then 1_000_000_000 * Pow2(exponent)
                  else 60_000_000_000;
    var factor := if jitter < 0.8 then 0.8 else if jitter > 1.2 then 1.2 else jitter;
    delay as real <= before as real * factor < (delay + 1) as real
  }

  lemma {:induction false} DelayFormula(failures: int, jitter: real)
    ensures IsRestartDelay(RestartDelay(failures, jitter), failures, jitter)
  {
    var exact := Backoff(failures) as real * ClampJitter(jitter);
    assert exact.Floor as real <= exact < (exact.Floor + 1) as real;
  }

  /** `RestartDelay`: the arguments clamped, the capped doubling scaled by the jitter; the result
      lies between 0.8 and 72 seconds. */
  method ComputeRestartDelay(failures: int, jitter: real) returns (result: int)
    ensures result == RestartDelay(failures, jitter)
    ensures IsRestartDelay(result, failures, jitter)
    ensures 800_000_000 <= result <= 72_000_000_000
  {
    var n, factor := failures, jitter;
    if n < 1 {
      n := 1;
    }
    if factor < 0.8 {
      factor := 0.8;
    }
    if factor > 1.2 {
      factor := 1.2;
    }
    var delay := DoubleAndCap(n);
    DelayBounds(failures, jitter);
    DelayFormula(failures, jitter);
    result := Scaled(delay, factor);
  }

  /** Once the cap is reached, more failures change nothing. */
  lemma {:induction false} BackoffIsCapped(count: int, n: int)
    requires 1 <= count <= n
    ensures count == n || BASE_DELAY * Pow2(count - 1) >= MAX_DELAY ==>
              Backoff(n) == Min(BASE_DELAY * Pow2(count - 1), MAX_DELAY)
  {
    Pow2Grows(count - 1, n - 1);
  }

  lemma {:induction false} ProductGrows(x: real, a: real, b: real)
    requires x >= 0.0 && a <= b
    ensures x * a <= x * b
  {
    assert x * (b - a) >= 0.0;
    assert x * b == x * a + x * (b - a);
  }

  lemma {:induction false} ScaledGrows(x: int, y: int, factor: real)
    requires x <= y && factor >= 0.0
    ensures Scaled(x, factor) <= Scaled(y, factor)
  {
    ProductGrows(factor, x as real, y as real);
  }

  lemma {:induction false} FloorWithin(exact: real, q: int, p: int)
    requires q as real <= exact < (p + 1) as real
    ensures q <= exact.Floor <= p
  {
  }

  /** A delay of one second to one minute, scaled by a clamped factor. */
  lemma {:induction false} ProductWithin(delay: real, factor: real)
    requires 1_000_000_000.0 <= delay <= 60_000_000_000.0 && 0.8 <= factor <= 1.2
    ensures 800_000_000.0 <= delay * factor <= 72_000_000_000.0
  {
    var low, product, high := delay * 0.8, delay * factor, delay * 1.2;
    assert 800_000_000.0 <= low && high <= 72_000_000_000.0;
    assert low <= product by {
      ProductGrows(delay, 0.8, factor);
    }
    assert product <= high by {
      ProductGrows(delay, factor, 1.2);
    }
  }

  lemma {:induction false} DelayBounds(failures: int, jitter: real)
    ensures 8 * SECOND / 10 <= RestartDelay(failures, jitter) <= 72 * SECOND
  {
    var delay, factor := Backoff(failures), ClampJitter(jitter);
    assert SECOND <= delay <= MAX_DELAY;
    ProductWithin(delay as real, factor);
    FloorWithin(delay as real * factor, 800_000_000, 72_000_000_000);
  }

  lemma {:induction false} BackoffGrows(a: int, b: int)
    requires a <= b
    ensures Backoff(a) <= Backoff(b)
  {
    Pow2Grows(if a < 1 then 0 else a - 1, if b < 1 then 0 else b - 1);
  }

  /** More failures never shorten the delay, at equal jitter. */
  lemma {:induction false} DelayGrows(a: int, b: int, jitter: real)
    requires a <= b
    ensures RestartDelay(a, jitter) <= RestartDelay(b, jitter)
  {
    BackoffGrows(a, b);
    ScaledGrows(Backoff(a), Backoff(b), ClampJitter(jitter));
  }

  // ---------------------------------------------------------------------------
  // The persisted instance
  // ---------------------------------------------------------------------------

  datatype InstanceState = Starting | Running | Unhealthy | Stopped

  datatype Instance = Instance(state: InstanceState, failures: nat, nextRestartAt: Option<Time>)

  /** Where the supervisor's loop is; a crash or a return leaves the persisted row alone. */
  datatype Control = Down | Loading | Launching | Working(resetAt: Option<Time>)

  datatype World = World(control: Control, row: Option<Instance>)

  datatype Event =
    | Boots
    | Crashes
    | Launches(now: Time)
    | LaunchFails(now: Time, jitter: real)
    | BecomesHealthy(now: Time)
    | Dies(now: Time, jitter: real)
    | ResetFires(now: Time)
    | Stops

  /** `waitUntil` has returned: the stored restart time, if any, is reached. */
  predicate MayLaunch(w: World, now: Time) {
    w.control.Loading? && (w.row.Some? && w.row.value.nextRestartAt.Some? ==> w.row.value.nextRestartAt.value <= now)
  }

  /** `MarkStarting`. */
  function MarkStarting(row: Option<Instance>): Instance {
    if row.None? then Instance(Starting, 0, None) else row.value.(state := Starting)
  }

  function NextRestart(failures: nat, now: Time, jitter: real): Time {
    Micro(Micro(now) + RestartDelay(failures, jitter))
  }

  /** `MarkFailed`. */
  function MarkFailed(row: Instance, now: Time, jitter: real): Instance {
    Instance(Unhealthy, row.failures + 1, Some(NextRestart(row.failures + 1, now, jitter)))
  }

  function MarkHealthy(row: Instance): Instance {
    row.(state := Running, nextRestartAt := None)
  }

  function ResetFailures(row: Instance): Instance {
    row.(failures := 0, nextRestartAt := None)
  }

  function MarkStopped(row: Instance): Instance {
    row.(state := Stopped, nextRestartAt := None)
  }

  /** The reset timer of the working session has run out. */
  predicate TimerFired(w: World, now: Time) {
    w.control.Working? && w.control.resetAt.Some? && w.control.resetAt.value <= now
  }

  /** One event of `Supervisor.Run`; an event that is not possible changes nothing. */
  function Step(w: World, e: Event): World {
    match e
    case Boots => if w.control.Down? then w.(control := Loading) else w
    case Crashes => w.(control := Down)
    case Launches(now) => if MayLaunch(w, now) then World(Launching, Some(MarkStarting(w.row))) else w
    case LaunchFails(now, jitter) =>
      if w.control.Launching? && w.row.Some? then World(Loading, Some(MarkFailed(w.row.value, now, jitter))) else w
    case BecomesHealthy(now) =>
      if w.control.Launching? && w.row.Some?
      then World(Working(Some(now + HEALTHY_RESET)), Some(MarkHealthy(w.row.value)))
      else w
    case Dies(now, jitter) =>
      if w.control.Working? && w.row.Some? then World(Loading, Some(MarkFailed(w.row.value, now, jitter))) else w
    case ResetFires(now) =>
      if !TimerFired(w, now) then w
      else if w.row.Some? && w.row.value.state.Running? then World(Working(None), Some(ResetFailures(w.row.value)))
      else w.(control := Down)
    case Stops =>
      if !w.control.Down? then World(Down, if w.row.Some? then Some(MarkStopped(w.row.value)) else None) else w
  }

  const INIT := World(Down, None)

  function Run(w: World, events: seq<Event>): World {
    if events == [] then w
    else Step(Run(w, events[..|events| - 1]), events[|events| - 1])
  }

  // ---------------------------------------------------------------------------
  // Failures since the last healthy reset
  // ---------------------------------------------------------------------------

  predicate IsFailure(w: World, e: Event) {
    (e.LaunchFails? && w.control.Launching? && w.row.Some?) || (e.Dies? && w.control.Working? && w.row.Some?)
  }

  predicate IsReset(w: World, e: Event) {
    e.ResetFires? && TimerFired(w, e.now) && w.row.Some? && w.row.value.state.Running?
  }

  /** Failures in a run since its last healthy-period reset, counted from the events alone. */
  function FailuresSinceReset(events: seq<Event>): nat {
    if events == [] then 0
    else
      var rest, e := events[..|events| - 1], events[|events| - 1];
      if IsReset(Run(INIT, rest), e) then 0
      else FailuresSinceReset(rest) + if IsFailure(Run(INIT, rest), e) then 1 else 0
  }

  /** The persisted counter is the number of failures since the last healthy reset; stops, crashes
      and reboots in between do not disturb it. */
  lemma {:induction false} CounterCountsFailures(events: seq<Event>)
    ensures var w := Run(INIT, events);
            (if w.row.Some? then w.row.value.failures else 0) == FailuresSinceReset(events)
  {
    if events != [] {
      CounterCountsFailures(events[..|events| - 1]);
    }
  }

  predicate BecameHealthy(events: seq<Event>, i: nat) {
    i < |events| && events[i].BecomesHealthy? && Run(INIT, events[..i]).control.Launching? &&
      Run(INIT, events[..i]).row.Some?
  }

  /** The event ends a session or its healthy period. */
  predicate Breaks(w: World, e: Event) {
    IsFailure(w, e) || IsReset(w, e) || e.Crashes? || e.Stops?
  }

  /** Nothing failed, stopped, crashed or was reset between event `i` and the end. */
  predicate Unbroken(events: seq<Event>, i: nat) {
    i + 1 >= |events| ||
    var rest, e := events[..|events| - 1], events[|events| - 1];
    Unbroken(rest, i) && !Breaks(Run(INIT, rest), e)
  }

  lemma {:induction false} ArmedTimerSince(events: seq<Event>) returns (i: nat)
    requires var c := Run(INIT, events).control; c.Working? && c.resetAt.Some?
    ensures BecameHealthy(events, i) && Unbroken(events, i)
    ensures Run(INIT, events).control.resetAt.value == events[i].now + 300_000_000_000
  {
    var last := |events| - 1;
    if BecameHealthy(events, last) {
      i := last;
    } else {
      i := ArmedTimerSince(events[..last]);
      assert events[..last][..i] == events[..i];
    }
  }

  lemma {:induction false} UnbrokenIsArmed(events: seq<Event>, i: nat)
    requires BecameHealthy(events, i) && Unbroken(events, i)
    ensures Run(INIT, events).control == Working(Some(events[i].now + 300_000_000_000))
  {
    var last := |events| - 1;
    WorkingRowIsHealthy(events[..last]);
    if i < last {
      assert events[..last][..i] == events[..i];
      UnbrokenIsArmed(events[..last], i);
      SessionStays(Run(INIT, events[..last]), events[last]);
    }
  }

  lemma {:induction false} SessionStays(w: World, e: Event)
    requires w.control.Working? && w.row.Some? && w.row.value.state.Running? && !Breaks(w, e)
    ensures Step(w, e).control == w.control
  {
  }

  /** The timer resets the counter exactly when a session has been healthy, without a break, for five
      minutes. */
  lemma {:induction false} ResetNeedsHealthyPeriod(events: seq<Event>, e: Event)
    requires e.ResetFires?
    ensures IsReset(Run(INIT, events), e) <==>
              exists i: nat ::
                BecameHealthy(events, i) && Unbroken(events, i) && events[i].now + 300_000_000_000 <= e.now
  {
    WorkingRowIsHealthy(events);
    if IsReset(Run(INIT, events), e) {
      var i := ArmedTimerSince(events);
    }
    forall i: nat | BecameHealthy(events, i) && Unbroken(events, i) && events[i].now + 300_000_000_000 <= e.now
      ensures IsReset(Run(INIT, events), e)
    {
      UnbrokenIsArmed(events, i);
    }
  }

  /** A working session's row is healthy, so the timer never finds another state to reset. */
  lemma {:induction false} WorkingRowIsHealthy(events: seq<Event>)
    ensures var w := Run(INIT, events);
            && (w.control.Working? ==> w.row.Some? && w.row.value.state.Running?)
            && (w.control.Launching? ==> w.row.Some? && w.row.value.state.Starting?)
  {
    if events != [] {
      WorkingRowIsHealthy(events[..|events| - 1]);
    }
  }

  /** The supervisor is not up: it never booted, or has stopped or crashed since. */
  function Halted(events: seq<Event>): bool {
    if events == [] then true
    else
      var e := events[|events| - 1];
      if e.Boots? then false else if e.Crashes? || e.Stops? then true else Halted(events[..|events| - 1])
  }

  /** What the last event that marked the row said of it. */
  function LastMark(events: seq<Event>): Option<InstanceState> {
    if events == [] then None
    else
      var rest, e := events[..|events| - 1], events[|events| - 1];
      var w := Run(INIT, rest);
      if IsFailure(w, e) then Some(Unhealthy)
      else if e.Launches? && w.control.Loading? && ReachedBy(PendingRestart(rest), e.now) then Some(Starting)
      else if BecameHealthy(events, |rest|) then Some(Running)
      else if e.Stops? && !Halted(rest) && LastMark(rest).Some? then Some(Stopped)
      else LastMark(rest)
  }

  predicate ReachedBy(at: Option<Time>, now: Time) {
    at.None? || at.value <= now
  }

  /** Over every run the stored state is what the last failure, start, healthy session or stop says. */
  lemma {:induction false} RowTellsMark(events: seq<Event>)
    ensures var w := Run(INIT, events);
            && (if w.row.Some? then Some(w.row.value.state) else None) == LastMark(events)
            && (w.control.Down? <==> Halted(events))
  {
    if events != [] {
      var rest, e := events[..|events| - 1], events[|events| - 1];
      RowTellsMark(rest);
      RowKeepsPendingRestart(rest);
      WorkingRowIsHealthy(rest);
      assert events[..|rest|] == rest;
    }
  }

  /** A session starts exactly when the loop waits and the restart time of the last failure, unless a
      stop or a healthy session has cleared it, is reached. */
  lemma {:induction false} LaunchesIff(events: seq<Event>, now: Time)
    ensures var w := Run(INIT, events);
            Step(w, Launches(now)) != w <==> w.control.Loading? && ReachedBy(PendingRestart(events), now)
  {
    RowKeepsPendingRestart(events);
  }

  // ---------------------------------------------------------------------------
  // Starts wait for the back-off
  // ---------------------------------------------------------------------------

  /** The restart time a run's last failure set, if nothing started, stopped or recovered since. */
  function PendingRestart(events: seq<Event>): Option<Time> {
    if events == [] then None
    else
      var rest, e := events[..|events| - 1], events[|events| - 1];
      var w := Run(INIT, rest);
      if IsFailure(w, e) then Some(NextRestart(FailuresSinceReset(events), e.now, e.jitter))
      else if e.Boots? || e.Crashes? || Step(w, e) == w then PendingRestart(rest)
      else if e.Launches? then PendingRestart(rest)
      else None
  }

  lemma {:induction false} RowKeepsPendingRestart(events: seq<Event>)
    ensures var w := Run(INIT, events);
            (if w.row.Some? then w.row.value.nextRestartAt else None) == PendingRestart(events)
  {
    if events != [] {
      RowKeepsPendingRestart(events[..|events| - 1]);
      CounterCountsFailures(events);
      WorkingRowIsHealthy(events[..|events| - 1]);
    }
  }

  /** The event is a stop of a running supervisor, or a session that becomes healthy. */
  predicate Settles(w: World, e: Event) {
    (e.Stops? && !w.control.Down?) || (e.BecomesHealthy? && w.control.Launching? && w.row.Some?)
  }

  /** After the failure at `j` the run saw no further failure, no stop and no healthy session. */
  ghost predicate LastFailure(events: seq<Event>, j: nat) {
    && j < |events| && IsFailure(Run(INIT, events[..j]), events[j])
    && forall k :: j < k < |events| ==>
         !IsFailure(Run(INIT, events[..k]), events[k]) && !Settles(Run(INIT, events[..k]), events[k])
  }

  lemma {:induction false} LastFailureOfPrefix(events: seq<Event>, j: nat)
    requires LastFailure(events, j) && j < |events| - 1
    ensures LastFailure(events[..|events| - 1], j)
  {
    var rest := events[..|events| - 1];
    assert rest[..j] == events[..j];
    forall k | j < k < |rest|
      ensures !IsFailure(Run(INIT, rest[..k]), rest[k]) && !Settles(Run(INIT, rest[..k]), rest[k])
    {
      assert rest[..k] == events[..k] && rest[k] == events[k];
    }
  }

  /** An event that is no failure, no stop and no healthy session leaves the pending time alone. */
  lemma {:induction false} QuietEventKeepsPending(events: seq<Event>)
    requires events != []
    requires var w, e := Run(INIT, events[..|events| - 1]), events[|events| - 1];
             !w.control.Working? && !IsFailure(w, e) && !Settles(w, e)
    ensures PendingRestart(events) == PendingRestart(events[..|events| - 1])
    ensures !Run(INIT, events).control.Working?
  {
  }

  lemma {:induction false} PendingRestartIsFromLastFailure(events: seq<Event>, j: nat)
    requires LastFailure(events, j)
    ensures PendingRestart(events) ==
              Some(NextRestart(FailuresSinceReset(events[..j + 1]), events[j].now, events[j].jitter))
    ensures !Run(INIT, events).control.Working?
  {
    var last := |events| - 1;
    if j < last {
      LastFailureOfPrefix(events, j);
      PendingRestartIsFromLastFailure(events[..last], j);
      assert events[..last][..j + 1] == events[..j + 1];
      QuietEventKeepsPending(events);
    } else {
      assert events[..j + 1] == events;
    }
  }

  /** Whatever crashes, reboots and abandoned launches lie in between, every start after a failure
      waits for the stored failure time plus the delay for the number of failures since the last
      healthy period. */
  lemma {:induction false} StartsWaitForBackoff(events: seq<Event>, j: nat, now: Time)
    requires LastFailure(events, j) && MayLaunch(Run(INIT, events), now)
    ensures now >= Micro(Micro(events[j].now) + RestartDelay(FailuresSinceReset(events[..j + 1]), events[j].jitter))
  {
    PendingRestartIsFromLastFailure(events, j);
    RowKeepsPendingRestart(events);
  }

  lemma {:induction false} TruncationIsExactOnWholeMicroseconds(t: Time, d: int)
    ensures t + d - 2000 < Micro(Micro(t) + d) <= t + d
    ensures Micro(Micro(t) + d) >= t + d <==> t % 1000 == 0 && d % 1000 == 0
  {
    assert (Micro(t) + d) % 1000 == d % 1000;
  }

  /** Truncation may bring the stored restart time forward by less than two microseconds; it is not
      earlier than the failure plus the delay exactly when both are whole microseconds. */
  lemma {:induction false} TruncationOfRestartTime(failures: nat, failedAt: Time, jitter: real)
    ensures var exact := failedAt + RestartDelay(failures, jitter);
            && exact - 2000 < NextRestart(failures, failedAt, jitter) <= exact
            && (NextRestart(failures, failedAt, jitter) >= exact <==>
                failedAt % 1000 == 0 && RestartDelay(failures, jitter) % 1000 == 0)
  {
    TruncationIsExactOnWholeMicroseconds(failedAt, RestartDelay(failures, jitter));
  }
}
