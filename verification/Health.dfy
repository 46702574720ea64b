/** The pure freshness decisions: what an observation says about health at an instant, the order
    that picks the newest observation, and the stored-row predicate that stands in for evaluation. */
module Health {
  import opened Basics

  const SECOND := 1_000_000
  const MINIMUM_GRACE := 30 * SECOND

  /** Texts are opaque numbers; `content` stands for measurements and metadata. */
  datatype Observation = Observation(
    id: nat, integration: nat, resource: nat, checkType: string,
    state: HealthState, summary: nat, observedAt: Time, receivedAt: Time, refresh: int, content: nat)

  datatype Reason = Reported(summary: nat) | ExceededRefresh | ExceededUnknown

  /** A row of current health; its resource and check are its key. */
  datatype Current = Current(
    state: HealthState, reason: Reason, observation: nat, observedAt: Time,
    lastSuccessAt: Option<Time>, staleAt: Option<Time>, unknownAt: Option<Time>, updatedAt: Time)

  /** Stale is never reported: only freshness derives it. */
  predicate ValidObserved(state: HealthState) {
    !state.Stale?
  }

  predicate PositiveDetermination(state: HealthState) {
    ValidObserved(state) && !state.Unknown?
  }

  function Half(refresh: int): int {
    if refresh >= 0 then refresh / 2 else -(-refresh / 2)
  }

  function StaleTime(o: Observation): Time {
    o.observedAt + o.refresh + Max(Half(o.refresh), MINIMUM_GRACE)
  }

  function UnknownTime(o: Observation): Time {
    Max(o.observedAt + 3 * o.refresh, StaleTime(o))
  }

  /** Observations whose state ages. */
  predicate Ages(o: Observation) {
    !o.state.Disabled? && !o.state.Unknown?
  }

  function LastSuccess(o: Observation, previous: Option<Time>): Option<Time> {
    if PositiveDetermination(o.state) && (previous.None? || o.observedAt > previous.value) then Some(o.observedAt)
    else previous
  }

  /** `Evaluate`: current health from one observation at one instant. */
  function Evaluate(o: Observation, previous: Option<Current>, now: Time): Current {
    var success := LastSuccess(o, if previous.Some? then previous.value.lastSuccessAt else None);
    var base := Current(o.state, Reported(o.summary), o.id, o.observedAt, success, None, None, now);
    if o.state.Disabled? then base
    else
      var timed := base.(staleAt := Some(StaleTime(o)), unknownAt := Some(UnknownTime(o)));
      if o.state.Unknown? then timed
      else if now >= UnknownTime(o) then timed.(state := Unknown, reason := ExceededUnknown)
      else if now >= StaleTime(o) then timed.(state := Stale, reason := ExceededRefresh)
      else timed
  }

  function StateAt(o: Observation, now: Time): HealthState {
    Evaluate(o, None, now).state
  }

  /** The schedule of an aging observation with a refresh interval of `refresh`: its own state for the
      interval and a grace of half of it, but at least 30 seconds; then stale; and unknown from three
      intervals on, or from the end of the grace when the interval is shorter than 15 seconds. An
      observation that is disabled or unknown stays so. */
  lemma {:induction false} FreshnessSchedule(o: Observation, now: Time)
    requires o.refresh >= 0
    ensures var age, refresh := now - o.observedAt, o.refresh;
            var grace := if refresh < 60 * 1_000_000 then 30 * 1_000_000 else refresh / 2;
            StateAt(o, now) ==
            if o.state.Disabled? || o.state.Unknown? || age < refresh + grace then o.state
            else if age >= (if refresh < 15 * 1_000_000 then refresh + grace else 3 * refresh) then Unknown
            else Stale
  {
  }

  /** The reason a row is given, the observation it names and its times follow its state. */
  lemma {:induction false} EvaluationTells(o: Observation, previous: Option<Current>, now: Time)
    requires ValidObserved(o.state)
    ensures var row := Evaluate(o, previous, now);
            && row.state == StateAt(o, now) && row.observation == o.id && row.observedAt == o.observedAt &&
                 row.updatedAt == now
            && (row.staleAt.Some? <==> !o.state.Disabled?) && (row.unknownAt.Some? <==> !o.state.Disabled?)
            && row.reason == (if row.state == o.state then Reported(o.summary)
                              else if row.state.Stale? then ExceededRefresh else ExceededUnknown)
            && (Ages(o) ==> (now >= row.staleAt.value <==> row.state != o.state) &&
                            (now >= row.unknownAt.value <==> row.state.Unknown?))
            && row.lastSuccessAt ==
                 (var before := if previous.Some? then previous.value.lastSuccessAt else None;
                  if !o.state.Unknown? && !o.state.Stale? && (before.None? || o.observedAt > before.value)
                  then Some(o.observedAt) else before)
  {
  }

  /** How far an aging observation has aged. */
  function Age(o: Observation, now: Time): nat {
    if !Ages(o) || now < StaleTime(o) then 0 else if now < UnknownTime(o) then 1 else 2
  }

  /** The WHERE clause that claims rows for a freshness transition. */
  predicate Due(row: Current, now: Time) {
    !row.state.Disabled? &&
    ((!row.state.Stale? && !row.state.Unknown? && row.staleAt.Some? && row.staleAt.value <= now) ||
     (row.state.Stale? && row.unknownAt.Some? && row.unknownAt.value <= now))
  }

  /** The row could have been written by evaluating `o` at its update time. */
  predicate Reflects(row: Current, o: Observation) {
    row == Evaluate(o, None, row.updatedAt).(lastSuccessAt := row.lastSuccessAt)
  }

  /** The stored-row predicate agrees with evaluation exactly unless the clock has gone back past a
      transition: it holds just when evaluation would age the row further. */
  lemma {:induction false} DueIsAging(o: Observation, row: Current, now: Time)
    requires ValidObserved(o.state) && Reflects(row, o)
    ensures Due(row, now) <==> Age(o, now) > Age(o, row.updatedAt)
    ensures StateAt(o, now) != row.state <==> Age(o, now) != Age(o, row.updatedAt)
    ensures (Due(row, now) <==> StateAt(o, now) != row.state) <==> Age(o, now) >= Age(o, row.updatedAt)
  {
  }

  /** Under a clock that does not go back, a row is due exactly when evaluation gives another state. */
  lemma {:induction false} DueIffStateChanges(o: Observation, row: Current, now: Time)
    requires ValidObserved(o.state) && Reflects(row, o) && row.updatedAt <= now
    ensures Due(row, now) <==> StateAt(o, now) != row.state
  {
    DueIsAging(o, row, now);
  }

  /** The clock condition is needed: a row written late and polled early differs but is not due. */
  lemma {:induction false} BackwardClockHidesAChange()
    ensures var o := Observation(1, 1, 1, "ping", Healthy, 0, 0, 0, 60 * SECOND, 0);
            var row := Evaluate(o, None, 100 * SECOND);
            Reflects(row, o) && StateAt(o, 10 * SECOND) != row.state && !Due(row, 10 * SECOND)
  {
  }

  /** Evaluation is settled: a row just written at `now` is not due at `now`. */
  lemma {:induction false} EvaluatedIsNotDue(o: Observation, previous: Option<Current>, now: Time)
    requires ValidObserved(o.state)
    ensures !Due(Evaluate(o, previous, now), now)
    ensures Reflects(Evaluate(o, previous, now), o)
  {
  }

  // ---------------------------------------------------------------------------
  // The order on observations
  // ---------------------------------------------------------------------------

  /** `CompareObservations`: 1 when the left one wins. */
  function CompareObservations(left: Observation, right: Observation): int {
    if left.observedAt > right.observedAt then 1
    else if left.observedAt < right.observedAt then -1
    else if left.receivedAt > right.receivedAt then 1
    else if left.receivedAt < right.receivedAt then -1
    else if left.id > right.id then 1
    else if left.id < right.id then -1
    else 0
  }

  /** `b` is not newer than `a`: it was not observed later; if observed at the same time, not received
      later; and if received at the same time too, its identifier is not greater. */
  predicate NotNewer(b: Observation, a: Observation) {
    b.observedAt <= a.observedAt &&
    (b.observedAt == a.observedAt ==> b.receivedAt <= a.receivedAt && (b.receivedAt == a.receivedAt ==> b.id <= a.id))
  }

  /** The comparison says which of two observations is newer, and is a total order on observations
      with distinct identifiers. */
  lemma {:induction false} ComparisonIsTotal(a: Observation, b: Observation, c: Observation)
    ensures CompareObservations(a, b) >= 0 <==> NotNewer(b, a)
    ensures CompareObservations(a, b) == -CompareObservations(b, a)
    ensures a.id != b.id ==> CompareObservations(a, b) != 0
    ensures CompareObservations(a, b) >= 0 && CompareObservations(b, c) >= 0 ==> CompareObservations(a, c) >= 0
  {
  }
}
