/** Observation ingest, the current-health cache and its freshness worker. The cache must always
    be what evaluating each check's newest stored observation from scratch would give. */
module HealthCache {
  import opened Basics
  import opened Health

  datatype CheckKey = CheckKey(resource: nat, checkType: string)

  /** A freshness signal, identified by its source key: what changed, to which state, and when. */
  datatype Transition = Transition(key: CheckKey, state: HealthState, at: Time)

  /** `observations` and `signals` are append-only; `signals` holds the observation each signal
      was written for. `transitions` are the freshness signals; a repeated source key adds none. */
  datatype Db = Db(observations: seq<Observation>, signals: seq<nat>, current: map<CheckKey, Current>,
                   transitions: set<Transition>)

  const EMPTY := Db([], [], map[], {})

  function KeyOf(o: Observation): CheckKey {
    CheckKey(o.resource, o.checkType)
  }

  // ---------------------------------------------------------------------------
  // Inserting one observation
  // ---------------------------------------------------------------------------

  datatype Input = Input(
    id: Option<nat>, resource: nat, checkType: string, state: HealthState, summary: nat,
    observedAt: Time, refreshSeconds: int, content: nat)

  const MAX_FUTURE_SKEW := 300 * SECOND
  const MAX_BATCH := 1000

  predicate ValidInput(i: Input, receivedAt: Time) {
    ValidObserved(i.state) && 1 <= i.refreshSeconds <= 86400 && i.observedAt <= receivedAt + MAX_FUTURE_SKEW
  }

  predicate ValidBatch(batch: seq<Input>, receivedAt: Time) {
    |batch| <= MAX_BATCH && forall n :: 0 <= n < |batch| ==> ValidInput(batch[n], receivedAt)
  }

  /** The row an input becomes; `draw` is the identifier generated when the source gave none. */
  function Stored(integration: nat, i: Input, draw: nat, receivedAt: Time): Observation {
    Observation(if i.id.Some? then i.id.value else draw, integration, i.resource, i.checkType, i.state, i.summary,
                i.observedAt, receivedAt, i.refreshSeconds * SECOND, i.content)
  }

  predicate SameDelivery(a: Observation, b: Observation) {
    a.integration == b.integration && a.resource == b.resource && a.checkType == b.checkType &&
      a.observedAt == b.observedAt
  }

  /** The unique keys an insert may hit. */
  predicate Collides(a: Observation, b: Observation) {
    a.id == b.id || SameDelivery(a, b)
  }

  predicate HasCollision(table: seq<Observation>, o: Observation) {
    exists n :: 0 <= n < |table| && Collides(table[n], o)
  }

  function FindById(table: seq<Observation>, integration: nat, id: nat): Option<nat> {
    if table == [] then None
    else
      var last := |table| - 1;
      if table[last].integration == integration && table[last].id == id then Some(last)
      else FindById(table[..last], integration, id)
  }

  function FindByDelivery(table: seq<Observation>, integration: nat, i: Input): Option<nat> {
    if table == [] then None
    else
      var last := |table| - 1;
      var o := table[last];
      if o.integration == integration && o.resource == i.resource && o.checkType == i.checkType &&
         o.observedAt == i.observedAt
      then Some(last)
      else FindByDelivery(table[..last], integration, i)
  }

  /** `findConflictingObservation`: the row with the given identifier first, else the same delivery. */
  function FindConflicting(table: seq<Observation>, integration: nat, i: Input): Option<nat> {
    var byId := if i.id.Some? then FindById(table, integration, i.id.value) else None;
    if byId.Some? then byId else FindByDelivery(table, integration, i)
  }

  /** `sameObservationContent`: it compares neither the resource nor the check. */
  predicate SameContent(o: Observation, i: Input) {
    (i.id.Some? ==> o.id == i.id.value) && o.state == i.state && o.summary == i.summary &&
      o.observedAt == i.observedAt &&
    o.refresh == i.refreshSeconds * SECOND && o.content == i.content
  }

  datatype Insertion = Inserted(row: Observation) | Duplicate(existing: nat) | Conflict

  /** `insertObservation`. */
  function Insert(table: seq<Observation>, integration: nat, i: Input, draw: nat, receivedAt: Time): Insertion {
    var row := Stored(integration, i, draw, receivedAt);
    if !HasCollision(table, row) then Inserted(row)
    else
      var found := FindConflicting(table, integration, i);
      if found.Some? && found.value < |table| && SameContent(table[found.value], i) then Duplicate(found.value)
      else Conflict
  }

  // ---------------------------------------------------------------------------
  // Ingesting a batch
  // ---------------------------------------------------------------------------

  /** The tables and counts part-way through a batch. */
  datatype Progress = Progress(observations: seq<Observation>, signals: seq<nat>, inserted: nat, duplicates: nat,
                               ok: bool)

  function Absorb(p: Progress, integration: nat, i: Input, draw: nat, receivedAt: Time): Progress {
    match Insert(p.observations, integration, i, draw, receivedAt)
    case Inserted(row) =>
      p.(observations := p.observations + [row],
         signals := if row.id in p.signals then p.signals else p.signals + [row.id], inserted := p.inserted + 1)
    case Duplicate(_) => p.(duplicates := p.duplicates + 1)
    case Conflict => p.(ok := false)
  }

  function AbsorbAll(db: Db, integration: nat, batch: seq<Input>, draws: seq<nat>, receivedAt: Time): Progress
    requires |draws| == |batch|
  {
    if batch == [] then Progress(db.observations, db.signals, 0, 0, true)
    else
      var last := |batch| - 1;
      var p := AbsorbAll(db, integration, batch[..last], draws[..last], receivedAt);
      if p.ok then Absorb(p, integration, batch[last], draws[last], receivedAt) else p
  }

  /** `latestObservation`: the greatest stored observation of a check. */
  function Latest(table: seq<Observation>, key: CheckKey): Option<Observation> {
    if table == [] then None
    else
      var last := table[|table| - 1];
      var before := Latest(table[..|table| - 1], key);
      if KeyOf(last) == key && (before.None? || CompareObservations(last, before.value) > 0) then Some(last) else before
  }

  /** `currentEquivalent`: everything but the update time. */
  predicate Equivalent(a: Current, b: Current) {
    a == b.(updatedAt := a.updatedAt)
  }

  function RowFor(current: map<CheckKey, Current>, key: CheckKey): Option<Current> {
    if key in current then Some(current[key]) else None
  }

  /** The row a check gets from its newest observation. */
  function Recompute(previous: Option<Current>, newest: Observation, now: Time): Current {
    var desired := Evaluate(newest, previous, now);
    if previous.Some? && Equivalent(previous.value, desired) then previous.value else desired
  }

  function AffectedKeys(batch: seq<Input>): set<CheckKey> {
    set i | i in batch :: CheckKey(i.resource, i.checkType)
  }

  /** Recompute every affected check that has an observation. */
  function RecomputeAll(
      current: map<CheckKey, Current>, table: seq<Observation>, keys: set<CheckKey>, now: Time): map<CheckKey, Current>
  {
    map k | k in current.Keys + keys && (k in current || Latest(table, k).Some?) ::
      if k in keys && Latest(table, k).Some? then Recompute(RowFor(current, k), Latest(table, k).value, now)
      else current[k]
  }

  datatype Result = Accepted(db: Db, inserted: nat, duplicates: nat) | Rejected

  /** `IngestWithCommit` after resource resolution: all of the batch, or nothing. */
  function Ingest(db: Db, integration: nat, batch: seq<Input>, draws: seq<nat>, receivedAt: Time): Result
    requires |draws| == |batch|
  {
    if !ValidBatch(batch, receivedAt) then Rejected
    else
      var p := AbsorbAll(db, integration, batch, draws, receivedAt);
      if !p.ok then Rejected
      else Accepted(Db(p.observations, p.signals,
                       RecomputeAll(db.current, p.observations, AffectedKeys(batch), receivedAt), db.transitions),
                    p.inserted, p.duplicates)
  }

  // ---------------------------------------------------------------------------
  // The freshness worker
  // ---------------------------------------------------------------------------

  predicate IsDue(db: Db, key: CheckKey, now: Time) {
    key in db.current && Due(db.current[key], now)
  }

  function Find(table: seq<Observation>, id: nat): Option<Observation> {
    if table == [] then None
    else if table[|table| - 1].id == id then Some(table[|table| - 1])
    else Find(table[..|table| - 1], id)
  }

  /** The transition of one claimed row. */
  function Refreshed(table: seq<Observation>, row: Current, now: Time): Current {
    var o := Find(table, row.observation);
    if o.None? then row
    else
      var desired := Evaluate(o.value, Some(row), now);
      if desired.state == row.state then row else desired
  }

  function RefreshRows(db: Db, keys: set<CheckKey>, now: Time): map<CheckKey, Current> {
    map k | k in db.current ::
      if k in keys && Due(db.current[k], now) then Refreshed(db.observations, db.current[k], now) else db.current[k]
  }

  /** `RefreshDue` on the rows it claimed: each changed row also leaves a freshness signal. */
  function Refresh(db: Db, keys: set<CheckKey>, now: Time): Db {
    var rows := RefreshRows(db, keys, now);
    db.(current := rows,
        transitions := db.transitions +
                       set k | k in keys && k in db.current && rows[k].state != db.current[k].state ::
                         Transition(k, rows[k].state, now))
  }

  // ---------------------------------------------------------------------------
  // The invariant
  // ---------------------------------------------------------------------------

  ghost predicate TableOk(table: seq<Observation>) {
    && (forall a, b :: 0 <= a < b < |table| ==> !Collides(table[a], table[b]))
    && (forall a :: 0 <= a < |table| ==> ValidObserved(table[a].state))
  }

  /** One signal for each stored observation, in order. */
  ghost predicate SignalsOk(table: seq<Observation>, signals: seq<nat>) {
    |signals| == |table| && forall n :: 0 <= n < |table| ==> signals[n] == table[n].id
  }

  /** A row references its check's greatest observation and reflects it at the reading it was
      written with. Readings need not be in order: a transaction reads its clock before its locks. */
  ghost predicate RowOk(table: seq<Observation>, key: CheckKey, row: Current) {
    Latest(table, key).Some? && Reflects(row, Latest(table, key).value)
  }

  ghost predicate RowsOk(db: Db) {
    forall k :: k in db.current ==> RowOk(db.observations, k, db.current[k])
  }

  /** Every check with an observation has a row. */
  ghost predicate Complete(db: Db) {
    forall n :: 0 <= n < |db.observations| ==> KeyOf(db.observations[n]) in db.current
  }

  ghost predicate Inv(db: Db) {
    TableOk(db.observations) && SignalsOk(db.observations, db.signals) && RowsOk(db) && Complete(db)
  }

  // ---------------------------------------------------------------------------
  // The newest observation
  // ---------------------------------------------------------------------------

  /** `Latest` is the newest observation of its check: none was observed later, received later at the
      same time, or has a greater identifier at the same times. */
  lemma {:induction false} LatestIsMaximum(table: seq<Observation>, key: CheckKey)
    ensures Latest(table, key).None? <==> forall n :: 0 <= n < |table| ==> KeyOf(table[n]) != key
    ensures Latest(table, key).Some? ==> Latest(table, key).value in table && KeyOf(Latest(table, key).value) == key
    ensures Latest(table, key).Some? ==>
              forall n :: 0 <= n < |table| && KeyOf(table[n]) == key ==> NotNewer(table[n], Latest(table, key).value)
  {
    if table != [] {
      var last := |table| - 1;
      LatestIsMaximum(table[..last], key);
      var before := Latest(table[..last], key);
      if before.Some? {
        forall n | 0 <= n < |table| && KeyOf(table[n]) == key
          ensures NotNewer(table[n], Latest(table, key).value)
        {
          ComparisonIsTotal(table[last], before.value, table[n]);
          ComparisonIsTotal(before.value, table[last], table[n]);
          if n < last {
            assert table[..last][n] == table[n];
          }
        }
      }
    }
  }

  lemma {:induction false} FindFinds(table: seq<Observation>, n: nat)
    requires TableOk(table) && n < |table|
    ensures Find(table, table[n].id) == Some(table[n])
  {
    var last := |table| - 1;
    if n < last {
      assert !Collides(table[n], table[last]);
      FindFinds(table[..last], n);
    }
  }

  // ---------------------------------------------------------------------------
  // Ingest keeps the invariant
  // ---------------------------------------------------------------------------

  lemma {:induction false} AbsorbKeeps(p: Progress, integration: nat, i: Input, draw: nat, receivedAt: Time)
    requires TableOk(p.observations) && SignalsOk(p.observations, p.signals) && ValidInput(i, receivedAt)
    ensures var q := Absorb(p, integration, i, draw, receivedAt);
            && TableOk(q.observations) && SignalsOk(q.observations, q.signals)
            && p.observations <= q.observations
            && |q.observations| - |p.observations| == q.inserted - p.inserted
            && (q.ok ==> q.inserted + q.duplicates == p.inserted + p.duplicates + 1)
  {
    var insertion := Insert(p.observations, integration, i, draw, receivedAt);
    if insertion.Inserted? {
      assert insertion.row.id !in p.signals;
    }
  }

  /** A batch in progress: the table only grows, by affected checks, and every input was counted once. */
  lemma {:induction false} AbsorbAllKeeps(
      db: Db, integration: nat, batch: seq<Input>, draws: seq<nat>, receivedAt: Time)
    requires |draws| == |batch| && TableOk(db.observations) && SignalsOk(db.observations, db.signals)
    requires forall n :: 0 <= n < |batch| ==> ValidInput(batch[n], receivedAt)
    ensures var p := AbsorbAll(db, integration, batch, draws, receivedAt);
            && TableOk(p.observations) && SignalsOk(p.observations, p.signals)
            && db.observations <= p.observations
            && |p.observations| == |db.observations| + p.inserted
            && (p.ok ==> p.inserted + p.duplicates == |batch|)
            && (forall n :: |db.observations| <= n < |p.observations| ==>
                  KeyOf(p.observations[n]) in AffectedKeys(batch))
  {
    if batch != [] {
      var last := |batch| - 1;
      AbsorbAllKeeps(db, integration, batch[..last], draws[..last], receivedAt);
      var p := AbsorbAll(db, integration, batch[..last], draws[..last], receivedAt);
      var q := AbsorbAll(db, integration, batch, draws, receivedAt);
      if p.ok {
        AbsorbKeeps(p, integration, batch[last], draws[last], receivedAt);
      }
      forall n | |db.observations| <= n < |q.observations|
        ensures KeyOf(q.observations[n]) in AffectedKeys(batch)
      {
        if n < |p.observations| {
          assert KeyOf(p.observations[n]) in AffectedKeys(batch[..last]);
        } else {
          assert batch[last] in batch;
        }
      }
    }
  }

  lemma {:induction false} LatestOfUnaffected(table: seq<Observation>, more: seq<Observation>, key: CheckKey)
    requires table <= more && forall n :: |table| <= n < |more| ==> KeyOf(more[n]) != key
    ensures Latest(more, key) == Latest(table, key)
    decreases |more|
  {
    if |table| < |more| {
      LatestOfUnaffected(table, more[..|more| - 1], key);
    } else {
      assert more == table;
    }
  }

  lemma {:induction false} RecomputedReflects(previous: Option<Current>, newest: Observation, now: Time)
    requires ValidObserved(newest.state)
    requires previous.Some? && previous.value.observation == newest.id ==> Reflects(previous.value, newest)
    ensures Reflects(Recompute(previous, newest, now), newest)
    ensures Recompute(previous, newest, now).state == StateAt(newest, now)
  {
  }

  lemma {:induction false} IdsAreUnique(table: seq<Observation>, a: nat, b: nat)
    requires TableOk(table) && a < |table| && b < |table| && table[a].id == table[b].id
    ensures a == b
  {
  }

  /** Recomputing an affected check gives a row for its newest observation. */
  lemma {:induction false} RecomputedRowOk(db: Db, table: seq<Observation>, key: CheckKey, now: Time)
    requires Inv(db) && TableOk(table) && db.observations <= table && Latest(table, key).Some?
    ensures RowOk(table, key, Recompute(RowFor(db.current, key), Latest(table, key).value, now))
    ensures Recompute(RowFor(db.current, key), Latest(table, key).value, now).state ==
              StateAt(Latest(table, key).value, now)
  {
    var newest := Latest(table, key).value;
    LatestIsMaximum(table, key);
    if key in db.current {
      var row := db.current[key];
      assert RowOk(db.observations, key, row);
      LatestIsMaximum(db.observations, key);
      var old' := Latest(db.observations, key).value;
      var a :| 0 <= a < |db.observations| && db.observations[a] == old';
      var b :| 0 <= b < |table| && table[b] == newest;
      assert table[a] == old';
      if old'.id == newest.id {
        IdsAreUnique(table, a, b);
      }
    }
    RecomputedReflects(RowFor(db.current, key), newest, now);
  }

  /** An accepted batch keeps the invariant, counts every input once, and leaves every affected
      check's row agreeing with a fresh evaluation of its newest observation. */
  lemma {:induction false} IngestKeeps(db: Db, integration: nat, batch: seq<Input>, draws: seq<nat>, receivedAt: Time)
    requires |draws| == |batch| && Inv(db) && Ingest(db, integration, batch, draws, receivedAt).Accepted?
    ensures var r := Ingest(db, integration, batch, draws, receivedAt);
            && Inv(r.db)
            && r.inserted + r.duplicates == |batch|
            && |r.db.observations| == |db.observations| + r.inserted
            && |r.db.signals| == |db.signals| + r.inserted
            && db.observations <= r.db.observations
            && (forall k :: k in AffectedKeys(batch) && Latest(r.db.observations, k).Some? ==>
                  k in r.db.current && r.db.current[k].state == StateAt(Latest(r.db.observations, k).value, receivedAt))
  {
    var r := Ingest(db, integration, batch, draws, receivedAt);
    var keys := AffectedKeys(batch);
    AbsorbAllKeeps(db, integration, batch, draws, receivedAt);
    forall k | k in keys && Latest(r.db.observations, k).Some?
      ensures RowOk(r.db.observations, k, r.db.current[k])
      ensures r.db.current[k].state == StateAt(Latest(r.db.observations, k).value, receivedAt)
    {
      RecomputedRowOk(db, r.db.observations, k, receivedAt);
    }
    forall k | k in r.db.current
      ensures RowOk(r.db.observations, k, r.db.current[k])
    {
      if k !in keys {
        assert RowOk(db.observations, k, db.current[k]);
        LatestOfUnaffected(db.observations, r.db.observations, k);
      } else if Latest(r.db.observations, k).None? {
        assert RowOk(db.observations, k, db.current[k]);
        LatestIsMaximum(db.observations, k);
        LatestIsMaximum(r.db.observations, k);
      }
    }
    forall n | 0 <= n < |r.db.observations|
      ensures KeyOf(r.db.observations[n]) in r.db.current
    {
      LatestIsMaximum(r.db.observations, KeyOf(r.db.observations[n]));
      if n < |db.observations| {
        assert KeyOf(db.observations[n]) in db.current;
      }
    }
  }

  // ---------------------------------------------------------------------------
  // Re-sending a batch
  // ---------------------------------------------------------------------------

  /** The row that answers an input that was stored before. */
  ghost predicate Covered(table: seq<Observation>, integration: nat, i: Input) {
    exists n :: 0 <= n < |table| && Answers(table[n], integration, i)
  }

  /** The row holds the input's content under the identifier or the delivery the lookup will use. */
  predicate Answers(o: Observation, integration: nat, i: Input) {
    o.integration == integration && SameContent(o, i) &&
    (if i.id.Some? then o.id == i.id.value
     else o.resource == i.resource && o.checkType == i.checkType && o.observedAt == i.observedAt)
  }

  lemma {:induction false} FindByIdFinds(table: seq<Observation>, integration: nat, n: nat)
    requires TableOk(table) && n < |table| && table[n].integration == integration
    ensures FindById(table, integration, table[n].id) == Some(n)
  {
    var last := |table| - 1;
    if n < last {
      assert !Collides(table[n], table[last]);
      FindByIdFinds(table[..last], integration, n);
    }
  }

  lemma {:induction false} FindByDeliveryFinds(table: seq<Observation>, integration: nat, i: Input, n: nat)
    requires TableOk(table) && n < |table| && table[n].integration == integration
    requires table[n].resource == i.resource && table[n].checkType == i.checkType && table[n].observedAt == i.observedAt
    ensures FindByDelivery(table, integration, i) == Some(n)
  {
    var last := |table| - 1;
    if n < last {
      assert !Collides(table[n], table[last]);
      FindByDeliveryFinds(table[..last], integration, i, n);
    }
  }

  /** A covered input is a duplicate, whatever identifier would be generated for it now. */
  lemma {:induction false} CoveredIsDuplicate(
      table: seq<Observation>, integration: nat, i: Input, draw: nat, receivedAt: Time)
    requires TableOk(table) && Covered(table, integration, i)
    ensures Insert(table, integration, i, draw, receivedAt).Duplicate?
  {
    var n :| 0 <= n < |table| && Answers(table[n], integration, i);
    assert Collides(table[n], Stored(integration, i, draw, receivedAt));
    if i.id.Some? {
      FindByIdFinds(table, integration, n);
    } else {
      FindByDeliveryFinds(table, integration, i, n);
    }
  }

  lemma {:induction false} FindsAreMatches(table: seq<Observation>, integration: nat, i: Input)
    ensures var f := FindByDelivery(table, integration, i);
            f.Some? ==>
              f.value < |table| && table[f.value].integration == integration && table[f.value].resource == i.resource &&
                        table[f.value].checkType == i.checkType && table[f.value].observedAt == i.observedAt
    ensures i.id.Some? ==> var f := FindById(table, integration, i.id.value);
            f.Some? ==>
              f.value < |table| && table[f.value].integration == integration && table[f.value].id == i.id.value
  {
    if table != [] {
      FindsAreMatches(table[..|table| - 1], integration, i);
    }
  }

  /** An input that did not conflict is covered afterwards. */
  lemma {:induction false} AbsorbCovers(p: Progress, integration: nat, i: Input, draw: nat, receivedAt: Time)
    requires Absorb(p, integration, i, draw, receivedAt).ok
    ensures Covered(Absorb(p, integration, i, draw, receivedAt).observations, integration, i)
  {
    var q := Absorb(p, integration, i, draw, receivedAt);
    var insertion := Insert(p.observations, integration, i, draw, receivedAt);
    match insertion {
      case Inserted(row) =>
        assert Answers(q.observations[|p.observations|], integration, i);
      case Duplicate(n) =>
        FindsAreMatches(p.observations, integration, i);
        assert Answers(q.observations[n], integration, i);
      case Conflict =>
    }
  }

  lemma {:induction false} AbsorbGrows(p: Progress, integration: nat, i: Input, draw: nat, receivedAt: Time)
    ensures p.observations <= Absorb(p, integration, i, draw, receivedAt).observations
  {
  }

  lemma {:induction false} CoveredStays(table: seq<Observation>, more: seq<Observation>, integration: nat, i: Input)
    requires table <= more && Covered(table, integration, i)
    ensures Covered(more, integration, i)
  {
    var n :| 0 <= n < |table| && Answers(table[n], integration, i);
    assert Answers(more[n], integration, i);
  }

  lemma {:induction false} AbsorbAllCovers(
      db: Db, integration: nat, batch: seq<Input>, draws: seq<nat>, receivedAt: Time)
    requires |draws| == |batch|
    requires AbsorbAll(db, integration, batch, draws, receivedAt).ok
    ensures forall n :: 0 <= n < |batch| ==>
              Covered(AbsorbAll(db, integration, batch, draws, receivedAt).observations, integration, batch[n])
  {
    if batch != [] {
      var last := |batch| - 1;
      var p := AbsorbAll(db, integration, batch[..last], draws[..last], receivedAt);
      var q := AbsorbAll(db, integration, batch, draws, receivedAt);
      AbsorbAllCovers(db, integration, batch[..last], draws[..last], receivedAt);
      AbsorbGrows(p, integration, batch[last], draws[last], receivedAt);
      AbsorbCovers(p, integration, batch[last], draws[last], receivedAt);
      forall n | 0 <= n < |batch|
        ensures Covered(q.observations, integration, batch[n])
      {
        if n < last {
          assert batch[..last][n] == batch[n];
          CoveredStays(p.observations, q.observations, integration, batch[n]);
        }
      }
    }
  }

  lemma {:induction false} CoveredBatchAddsNothing(
      db: Db, integration: nat, batch: seq<Input>, draws: seq<nat>, receivedAt: Time)
    requires |draws| == |batch| && TableOk(db.observations)
    requires forall n :: 0 <= n < |batch| ==> Covered(db.observations, integration, batch[n])
    ensures AbsorbAll(db, integration, batch, draws, receivedAt) ==
              Progress(db.observations, db.signals, 0, |batch|, true)
  {
    if batch != [] {
      var last := |batch| - 1;
      CoveredBatchAddsNothing(db, integration, batch[..last], draws[..last], receivedAt);
      CoveredIsDuplicate(db.observations, integration, batch[last], draws[last], receivedAt);
    }
  }

  // ---------------------------------------------------------------------------
  // Freshness transitions
  // ---------------------------------------------------------------------------

  /** A claimed row always changes, to what a fresh evaluation gives, and is then no longer due. */
  lemma {:induction false} ClaimedRowChanges(db: Db, key: CheckKey, now: Time)
    requires Inv(db) && IsDue(db, key, now)
    ensures var newest := Latest(db.observations, key).value;
            var next := Refreshed(db.observations, db.current[key], now);
            && next == Evaluate(newest, Some(db.current[key]), now)
            && next.state == StateAt(newest, now) && next.state != db.current[key].state
            && !Due(next, now) && RowOk(db.observations, key, next)
            && (if db.current[key].state.Stale? then next.state.Unknown? else next.state.Stale? || next.state.Unknown?)
  {
    var row := db.current[key];
    assert RowOk(db.observations, key, row);
    LatestIsMaximum(db.observations, key);
    var newest := Latest(db.observations, key).value;
    var n :| 0 <= n < |db.observations| && db.observations[n] == newest;
    FindFinds(db.observations, n);
    DueIsAging(newest, row, now);
    EvaluatedIsNotDue(newest, Some(row), now);
  }

  lemma {:induction false} RefreshKeeps(db: Db, keys: set<CheckKey>, now: Time)
    requires Inv(db)
    ensures Inv(Refresh(db, keys, now))
  {
    var next := Refresh(db, keys, now);
    forall k | k in next.current
      ensures RowOk(next.observations, k, next.current[k])
    {
      assert RowOk(db.observations, k, db.current[k]);
      if k in keys && Due(db.current[k], now) {
        ClaimedRowChanges(db, k, now);
      }
    }
  }

  function DueKeys(db: Db, now: Time): set<CheckKey> {
    set k | k in db.current && Due(db.current[k], now)
  }

  /** A refresh takes exactly its claimed rows off the due list, each with its signal, and touches
      nothing else. */
  lemma {:induction false} RefreshShrinksDue(db: Db, keys: set<CheckKey>, now: Time)
    requires Inv(db) && keys <= DueKeys(db, now)
    ensures DueKeys(Refresh(db, keys, now), now) == DueKeys(db, now) - keys
    ensures var next := Refresh(db, keys, now);
            forall k :: k in keys ==>
              && next.current[k].state != db.current[k].state
              && Transition(k, next.current[k].state, now) in next.transitions
    ensures var next := Refresh(db, keys, now);
            && next == db.(current := next.current, transitions := next.transitions)
            && db.transitions <= next.transitions && next.current.Keys == db.current.Keys
            && (forall t :: t in next.transitions && t !in db.transitions ==>
                  t.key in keys && t.state == next.current[t.key].state && t.at == now)
            && (forall k :: k in db.current && k !in keys ==> next.current[k] == db.current[k])
  {
    forall k | k in keys
      ensures Refresh(db, keys, now).current[k].state != db.current[k].state &&
                !Due(Refresh(db, keys, now).current[k], now)
    {
      ClaimedRowChanges(db, k, now);
    }
  }

  /** A row that is not due agrees with a fresh evaluation exactly when the instant is not before a
      transition the row was written after. */
  lemma {:induction false} NotDueIsFreshIff(db: Db, key: CheckKey, now: Time)
    requires Inv(db) && key in db.current && !Due(db.current[key], now)
    ensures Latest(db.observations, key).Some?
    ensures var newest := Latest(db.observations, key).value;
            db.current[key].state == StateAt(newest, now) <==>
              Age(newest, now) >= Age(newest, db.current[key].updatedAt)
  {
    assert RowOk(db.observations, key, db.current[key]);
    LatestIsMaximum(db.observations, key);
    DueIsAging(Latest(db.observations, key).value, db.current[key], now);
  }

  /** Every row was written with a reading that is not after `now`. */
  ghost predicate WrittenBy(db: Db, now: Time) {
    forall k :: k in db.current ==> db.current[k].updatedAt <= now
  }

  /** When no row is due and no row was written with a later reading, every row agrees with a fresh
      evaluation of its newest observation. */
  lemma {:induction false} DrainedCacheIsFresh(db: Db, now: Time)
    requires Inv(db) && WrittenBy(db, now) && DueKeys(db, now) == {}
    ensures forall k :: k in db.current ==>
              Latest(db.observations, k).Some? && db.current[k].state == StateAt(Latest(db.observations, k).value, now)
  {
    forall k | k in db.current
      ensures Latest(db.observations, k).Some? && db.current[k].state == StateAt(Latest(db.observations, k).value, now)
    {
      assert k !in DueKeys(db, now);
      NotDueIsFreshIff(db, k, now);
    }
  }

  // ---------------------------------------------------------------------------
  // Runs, with readings in any order
  // ---------------------------------------------------------------------------

  datatype Event =
    | Ingested(integration: nat, batch: seq<Input>, draws: seq<nat>, at: Time)
    | RefreshedBatch(keys: set<CheckKey>, at: Time)

  function Step(db: Db, e: Event): Db {
    match e
    case Ingested(integration, batch, draws, at) =>
      if |draws| == |batch| then
        var r := Ingest(db, integration, batch, draws, at);
        if r.Accepted? then r.db else db
      else db
    case RefreshedBatch(keys, at) => Refresh(db, keys, at)
  }

  function Run(db: Db, events: seq<Event>): Db {
    if events == [] then db
    else Step(Run(db, events[..|events| - 1]), events[|events| - 1])
  }

  lemma {:induction false} StepKeeps(db: Db, e: Event)
    requires Inv(db)
    ensures Inv(Step(db, e))
    ensures db.observations <= Step(db, e).observations
  {
    match e
    case Ingested(integration, batch, draws, at) =>
      if |draws| == |batch| && Ingest(db, integration, batch, draws, at).Accepted? {
        IngestKeeps(db, integration, batch, draws, at);
      }
    case RefreshedBatch(keys, at) => RefreshKeeps(db, keys, at);
  }

  /** After any sequence of batches and refreshes, committed in any order of their readings, the
      cache is sound: each row references and reflects the maximum of its check, every check has a
      row, and every stored observation has its one signal. */
  lemma {:induction false} RunKeeps(db: Db, events: seq<Event>)
    requires Inv(db)
    ensures Inv(Run(db, events))
    ensures db.observations <= Run(db, events).observations
  {
    if events != [] {
      RunKeeps(db, events[..|events| - 1]);
      StepKeeps(Run(db, events[..|events| - 1]), events[|events| - 1]);
    }
  }

  ghost predicate ReadBy(events: seq<Event>, now: Time) {
    forall i :: 0 <= i < |events| ==> events[i].at <= now
  }

  lemma {:induction false} WrittenStep(db: Db, e: Event, now: Time)
    requires WrittenBy(db, now) && e.at <= now
    ensures WrittenBy(Step(db, e), now)
  {
  }

  lemma {:induction false} RunWrittenBy(events: seq<Event>, now: Time)
    requires ReadBy(events, now)
    ensures WrittenBy(Run(EMPTY, events), now)
  {
    if events != [] {
      RunWrittenBy(events[..|events| - 1], now);
      WrittenStep(Run(EMPTY, events[..|events| - 1]), events[|events| - 1], now);
    }
  }

  /** After every run whose readings are not after `now`, in whatever order they committed, a cache
      with nothing due at `now` is fresh at `now`. */
  lemma {:induction false} DrainedRunIsFresh(events: seq<Event>, now: Time, key: CheckKey)
    requires ReadBy(events, now) && DueKeys(Run(EMPTY, events), now) == {} && key in Run(EMPTY, events).current
    ensures var db := Run(EMPTY, events);
            Latest(db.observations, key).Some? &&
              db.current[key].state == StateAt(Latest(db.observations, key).value, now)
  {
    RunKeeps(EMPTY, events);
    RunWrittenBy(events, now);
    DrainedCacheIsFresh(Run(EMPTY, events), now);
  }

  /** Position `n` holds the newest observation of a check: no other was observed later, received
      later among those observed at the same time, or has a greater identifier among those. */
  ghost predicate IsMaximum(table: seq<Observation>, key: CheckKey, n: nat) {
    && n < |table| && KeyOf(table[n]) == key
    && forall m :: 0 <= m < |table| && KeyOf(table[m]) == key ==> NotNewer(table[m], table[n])
  }

  lemma {:induction false} MaximumExists(table: seq<Observation>, key: CheckKey) returns (n: nat)
    requires Latest(table, key).Some?
    ensures IsMaximum(table, key, n) && table[n] == Latest(table, key).value
  {
    LatestIsMaximum(table, key);
    n :| n < |table| && table[n] == Latest(table, key).value;
  }

  lemma {:induction false} RowTracksMaximum(db: Db, key: CheckKey)
    requires RowsOk(db) && Complete(db)
    ensures key in db.current <==> exists n :: 0 <= n < |db.observations| && KeyOf(db.observations[n]) == key
    ensures key in db.current ==>
              exists n: nat ::
                IsMaximum(db.observations, key, n) && db.current[key].observation == db.observations[n].id &&
                          Reflects(db.current[key], db.observations[n])
  {
    if key in db.current {
      assert RowOk(db.observations, key, db.current[key]);
      var n := MaximumExists(db.observations, key);
      assert KeyOf(db.observations[n]) == key;
    }
  }

  /** After every run a check has a row exactly when it has an observation, the row references and
      reflects the greatest one, and each stored observation has its one signal. */
  lemma {:induction false} CacheTracksMaximum(events: seq<Event>, key: CheckKey)
    ensures var db := Run(EMPTY, events);
            && (key in db.current <==> exists n :: 0 <= n < |db.observations| && KeyOf(db.observations[n]) == key)
            && (key in db.current ==>
                  exists n: nat ::
                    IsMaximum(db.observations, key, n) && db.current[key].observation == db.observations[n].id &&
                              Reflects(db.current[key], db.observations[n]))
            && SignalsOk(db.observations, db.signals)
  {
    RunKeeps(EMPTY, events);
    RowTracksMaximum(Run(EMPTY, events), key);
  }

  /** Sending an accepted batch again, at any later point of any run, inserts nothing, adds no
      signal and counts every observation as a duplicate; only a clock that went back by more than
      the allowed skew makes the batch invalid, and then nothing happens at all. */
  lemma {:induction false} ResendAddsNothing(
      db: Db, integration: nat, batch: seq<Input>, draws: seq<nat>, at: Time,
      between: seq<Event>, draws': seq<nat>, at': Time)
    requires Inv(db) && |draws| == |batch| == |draws'|
    requires Ingest(db, integration, batch, draws, at).Accepted?
    ensures at <= at' ==> ValidBatch(batch, at')
    ensures var later := Run(Ingest(db, integration, batch, draws, at).db, between);
            var again := Ingest(later, integration, batch, draws', at');
            if ValidBatch(batch, at') then
              && again.Accepted? && again.inserted == 0 && again.duplicates == |batch|
              && again.db.observations == later.observations && again.db.signals == later.signals
            else again.Rejected?
  {
    var first := Ingest(db, integration, batch, draws, at).db;
    IngestKeeps(db, integration, batch, draws, at);
    AbsorbAllCovers(db, integration, batch, draws, at);
    RunKeeps(first, between);
    var later := Run(first, between);
    forall n | 0 <= n < |batch|
      ensures Covered(later.observations, integration, batch[n]) && (at <= at' ==> ValidInput(batch[n], at'))
    {
      assert ValidInput(batch[n], at);
      CoveredStays(first.observations, later.observations, integration, batch[n]);
    }
    CoveredBatchAddsNothing(later, integration, batch, draws', at');
  }

  predicate NotBefore(a: Option<Time>, b: Option<Time>) {
    b.None? || (a.Some? && a.value >= b.value)
  }

  lemma {:induction false} LastSuccessStep(db: Db, e: Event, key: CheckKey)
    requires key in db.current
    ensures key in Step(db, e).current
    ensures NotBefore(Step(db, e).current[key].lastSuccessAt, db.current[key].lastSuccessAt)
  {
  }

  /** A check's last success never moves back, and its row never disappears. */
  lemma {:induction false} LastSuccessNeverDecreases(db: Db, events: seq<Event>, key: CheckKey)
    requires key in db.current
    ensures key in Run(db, events).current
    ensures NotBefore(Run(db, events).current[key].lastSuccessAt, db.current[key].lastSuccessAt)
  {
    if events != [] {
      LastSuccessNeverDecreases(db, events[..|events| - 1], key);
      LastSuccessStep(Run(db, events[..|events| - 1]), events[|events| - 1], key);
    }
  }
}
