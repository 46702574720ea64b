/** What becomes of an input: which batches are accepted, which inputs are stored, recognised or
    refused, and what the stored observation and the row of current health then hold. */
module HealthIngest {
  import opened Basics
  import opened Health
  import opened HealthCache

  // ---------------------------------------------------------------------------
  // One input
  // ---------------------------------------------------------------------------

  /** The input may be stored: nothing has its identifier, and nothing was observed of this check by
      this integration at its time. */
  ghost predicate Fits(table: seq<Observation>, integration: nat, i: Input, draw: nat) {
    forall n :: 0 <= n < |table| ==>
      && table[n].id != (if i.id.Some? then i.id.value else draw)
      && !(table[n].integration == integration && table[n].resource == i.resource &&
           table[n].checkType == i.checkType && table[n].observedAt == i.observedAt)
  }

  /** The stored observation is this input again: of this integration, with its identifier or else of
      its check, and with its time, state, summary, refresh interval, measurements and metadata. */
  predicate Repeats(o: Observation, integration: nat, i: Input) {
    && o.integration == integration && o.observedAt == i.observedAt && o.state == i.state && o.summary == i.summary
    && o.refresh == i.refreshSeconds * 1_000_000 && o.content == i.content
    && (if i.id.Some? then o.id == i.id.value else o.resource == i.resource && o.checkType == i.checkType)
  }

  ghost predicate Repeated(table: seq<Observation>, integration: nat, i: Input) {
    exists n :: 0 <= n < |table| && Repeats(table[n], integration, i)
  }

  /** The observation holds what the input says, as of its receipt. */
  predicate Tells(o: Observation, integration: nat, i: Input, draw: nat, receivedAt: Time) {
    && o.integration == integration && o.resource == i.resource && o.checkType == i.checkType
    && o.state == i.state && o.summary == i.summary && o.content == i.content
    && o.observedAt == i.observedAt && o.receivedAt == receivedAt && o.refresh == i.refreshSeconds * 1_000_000
    && o.id == (if i.id.Some? then i.id.value else draw)
  }

  lemma {:induction false} RepeatsIsAnswer(o: Observation, integration: nat, i: Input)
    ensures Repeats(o, integration, i) <==> Answers(o, integration, i)
  {
  }

  /** An input is stored exactly when it fits, and then as it is; it is a duplicate exactly when it
      was stored before; otherwise it conflicts. */
  lemma {:induction false} InputIsStoredOrRecognised(
      table: seq<Observation>, integration: nat, i: Input, draw: nat, receivedAt: Time)
    requires TableOk(table)
    ensures var insertion := Insert(table, integration, i, draw, receivedAt);
            && (insertion.Inserted? <==> Fits(table, integration, i, draw))
            && (insertion.Inserted? ==> Tells(insertion.row, integration, i, draw, receivedAt))
            && (insertion.Duplicate? <==> Repeated(table, integration, i))
  {
    var row := Stored(integration, i, draw, receivedAt);
    assert Fits(table, integration, i, draw) ==> !HasCollision(table, row);
    forall n | 0 <= n < |table| && !HasCollision(table, row)
      ensures !Collides(table[n], row)
    {
    }
    if Repeated(table, integration, i) {
      var n :| 0 <= n < |table| && Repeats(table[n], integration, i);
      RepeatsIsAnswer(table[n], integration, i);
      CoveredIsDuplicate(table, integration, i, draw, receivedAt);
    }
    FindsAreMatches(table, integration, i);
  }

  // ---------------------------------------------------------------------------
  // A batch
  // ---------------------------------------------------------------------------

  /** A source may report any state but stale, of at most five minutes ahead of its receipt, with a
      refresh interval between one second and one day. */
  predicate Proper(i: Input, receivedAt: Time) {
    !i.state.Stale? && 1 <= i.refreshSeconds <= 86_400 && i.observedAt <= receivedAt + 300_000_000
  }

  /** The observations stored when the first `n` inputs of a batch have been taken. */
  function TableAfter(
      db: Db, integration: nat, batch: seq<Input>, draws: seq<nat>, receivedAt: Time, n: nat): seq<Observation>
    requires |draws| == |batch| && n <= |batch|
  {
    AbsorbAll(db, integration, batch[..n], draws[..n], receivedAt).observations
  }

  /** The input at this position fits what is stored by then, or repeats it. */
  ghost predicate Goes(db: Db, integration: nat, batch: seq<Input>, draws: seq<nat>, receivedAt: Time, n: nat)
    requires |draws| == |batch| && n < |batch|
  {
    var table := TableAfter(db, integration, batch, draws, receivedAt, n);
    Fits(table, integration, batch[n], draws[n]) || Repeated(table, integration, batch[n])
  }

  /** Every input does. */
  ghost predicate NoConflict(db: Db, integration: nat, batch: seq<Input>, draws: seq<nat>, receivedAt: Time)
    requires |draws| == |batch|
  {
    forall n :: 0 <= n < |batch| ==> Goes(db, integration, batch, draws, receivedAt, n)
  }

  lemma {:induction false} GoesAsInPrefix(
      db: Db, integration: nat, batch: seq<Input>, draws: seq<nat>, receivedAt: Time, last: nat, n: nat)
    requires |draws| == |batch| && n < last < |batch|
    ensures Goes(db, integration, batch[..last], draws[..last], receivedAt, n) <==>
              Goes(db, integration, batch, draws, receivedAt, n)
  {
    assert batch[..last][..n] == batch[..n] && draws[..last][..n] == draws[..n];
  }

  lemma {:induction false} LastGoes(
      db: Db, integration: nat, batch: seq<Input>, draws: seq<nat>, receivedAt: Time)
    requires |draws| == |batch| && batch != [] && Inv(db)
    requires forall n :: 0 <= n < |batch| ==> ValidInput(batch[n], receivedAt)
    ensures var last := |batch| - 1;
            AbsorbAll(db, integration, batch, draws, receivedAt).ok <==>
              && AbsorbAll(db, integration, batch[..last], draws[..last], receivedAt).ok
              && Goes(db, integration, batch, draws, receivedAt, last)
  {
    var last := |batch| - 1;
    AbsorbAllKeeps(db, integration, batch[..last], draws[..last], receivedAt);
    var p := AbsorbAll(db, integration, batch[..last], draws[..last], receivedAt);
    InputIsStoredOrRecognised(p.observations, integration, batch[last], draws[last], receivedAt);
  }

  lemma {:induction false} TakenUnlessConflict(
      db: Db, integration: nat, batch: seq<Input>, draws: seq<nat>, receivedAt: Time)
    requires |draws| == |batch| && Inv(db) && forall n :: 0 <= n < |batch| ==> ValidInput(batch[n], receivedAt)
    ensures AbsorbAll(db, integration, batch, draws, receivedAt).ok <==>
              NoConflict(db, integration, batch, draws, receivedAt)
  {
    if batch != [] {
      var last := |batch| - 1;
      TakenUnlessConflict(db, integration, batch[..last], draws[..last], receivedAt);
      LastGoes(db, integration, batch, draws, receivedAt);
      forall n | 0 <= n < last
        ensures Goes(db, integration, batch[..last], draws[..last], receivedAt, n) <==>
                  Goes(db, integration, batch, draws, receivedAt, n)
      {
        GoesAsInPrefix(db, integration, batch, draws, receivedAt, last, n);
      }
    }
  }

  /** A batch is accepted exactly when it has at most a thousand inputs, each is proper, and none
      conflicts with what is stored by its turn. */
  lemma {:induction false} BatchIsAcceptedIff(
      db: Db, integration: nat, batch: seq<Input>, draws: seq<nat>, receivedAt: Time)
    requires |draws| == |batch| && Inv(db)
    ensures Ingest(db, integration, batch, draws, receivedAt).Accepted? <==>
              && |batch| <= 1000 && (forall n :: 0 <= n < |batch| ==> Proper(batch[n], receivedAt))
              && NoConflict(db, integration, batch, draws, receivedAt)
  {
    if forall n :: 0 <= n < |batch| ==> Proper(batch[n], receivedAt) {
      TakenUnlessConflict(db, integration, batch, draws, receivedAt);
    } else {
      var n :| 0 <= n < |batch| && !Proper(batch[n], receivedAt);
      assert !ValidInput(batch[n], receivedAt);
    }
  }

  /** The observation was stored for one of the inputs. */
  ghost predicate ToldBy(o: Observation, integration: nat, batch: seq<Input>, draws: seq<nat>, receivedAt: Time)
    requires |draws| == |batch|
  {
    exists n :: 0 <= n < |batch| && Tells(o, integration, batch[n], draws[n], receivedAt)
  }

  /** Every observation a batch adds is what one of its inputs says. */
  lemma {:induction false} AddedAreInputs(
      db: Db, integration: nat, batch: seq<Input>, draws: seq<nat>, receivedAt: Time)
    requires |draws| == |batch| && Inv(db) && forall n :: 0 <= n < |batch| ==> ValidInput(batch[n], receivedAt)
    ensures var table := AbsorbAll(db, integration, batch, draws, receivedAt).observations;
            && db.observations <= table
            && forall m :: |db.observations| <= m < |table| ==> ToldBy(table[m], integration, batch, draws, receivedAt)
  {
    AbsorbAllKeeps(db, integration, batch, draws, receivedAt);
    if batch != [] {
      var last := |batch| - 1;
      var some, drawn := batch[..last], draws[..last];
      AddedAreInputs(db, integration, some, drawn, receivedAt);
      AbsorbAllKeeps(db, integration, some, drawn, receivedAt);
      var p := AbsorbAll(db, integration, some, drawn, receivedAt);
      var q := AbsorbAll(db, integration, batch, draws, receivedAt);
      InputIsStoredOrRecognised(p.observations, integration, batch[last], draws[last], receivedAt);
      AbsorbGrows(p, integration, batch[last], draws[last], receivedAt);
      forall m | |db.observations| <= m < |q.observations|
        ensures ToldBy(q.observations[m], integration, batch, draws, receivedAt)
      {
        if m < |p.observations| {
          var n :| 0 <= n < last && Tells(p.observations[m], integration, some[n], drawn[n], receivedAt);
          assert Tells(q.observations[m], integration, batch[n], draws[n], receivedAt);
        } else {
          assert Tells(q.observations[m], integration, batch[last], draws[last], receivedAt);
        }
      }
    }
  }

  /** What an accepted batch leaves: the observations before it, one more for each input that was not
      stored before and none else, and every input among them. */
  lemma {:induction false} AcceptedBatchIsStored(
      db: Db, integration: nat, batch: seq<Input>, draws: seq<nat>, receivedAt: Time)
    requires |draws| == |batch| && Inv(db) && Ingest(db, integration, batch, draws, receivedAt).Accepted?
    ensures var r := Ingest(db, integration, batch, draws, receivedAt);
            && db.observations <= r.db.observations && |r.db.observations| == |db.observations| + r.inserted
            && (forall m :: |db.observations| <= m < |r.db.observations| ==>
                  ToldBy(r.db.observations[m], integration, batch, draws, receivedAt))
            && (forall n :: 0 <= n < |batch| ==> Repeated(r.db.observations, integration, batch[n]))
  {
    var r := Ingest(db, integration, batch, draws, receivedAt);
    AddedAreInputs(db, integration, batch, draws, receivedAt);
    AbsorbAllKeeps(db, integration, batch, draws, receivedAt);
    AbsorbAllCovers(db, integration, batch, draws, receivedAt);
    forall n | 0 <= n < |batch|
      ensures Repeated(r.db.observations, integration, batch[n])
    {
      assert Covered(r.db.observations, integration, batch[n]);
      var m :| 0 <= m < |r.db.observations| && Answers(r.db.observations[m], integration, batch[n]);
      RepeatsIsAnswer(r.db.observations[m], integration, batch[n]);
    }
  }

  // ---------------------------------------------------------------------------
  // Rows of current health
  // ---------------------------------------------------------------------------

  /** Two rows say the same, whenever they were written. */
  predicate SaySame(a: Current, b: Current) {
    && a.state == b.state && a.reason == b.reason && a.observation == b.observation && a.observedAt == b.observedAt
    && a.lastSuccessAt == b.lastSuccessAt && a.staleAt == b.staleAt && a.unknownAt == b.unknownAt
  }

  /** A row recomputed from its newest observation says what that says now, and is rewritten exactly
      when it did not say so before. */
  lemma {:induction false} RowIsRewrittenIff(previous: Option<Current>, newest: Observation, now: Time)
    ensures var said, row := Evaluate(newest, previous, now), Recompute(previous, newest, now);
            && SaySame(row, said)
            && row == (if previous.Some? && SaySame(previous.value, said) then previous.value
                       else row.(updatedAt := now))
  {
  }

  predicate About(i: Input, key: CheckKey) {
    i.resource == key.resource && i.checkType == key.checkType
  }

  /** After an accepted batch the row of a check it is about says what the newest observation says at
      the receipt, and is rewritten exactly when it did not say so before; other rows stay. */
  lemma {:induction false} BatchWritesRows(
      db: Db, integration: nat, batch: seq<Input>, draws: seq<nat>, receivedAt: Time, key: CheckKey)
    requires |draws| == |batch| && Inv(db) && Ingest(db, integration, batch, draws, receivedAt).Accepted?
    requires key in Ingest(db, integration, batch, draws, receivedAt).db.current
    ensures var r := Ingest(db, integration, batch, draws, receivedAt).db;
            var row := r.current[key];
            if exists i :: i in batch && About(i, key) then
              && Latest(r.observations, key).Some?
              && var said := Evaluate(Latest(r.observations, key).value, RowFor(db.current, key), receivedAt);
                 && SaySame(row, said)
                 && (if key in db.current && SaySame(db.current[key], said) then row == db.current[key]
                     else row.updatedAt == receivedAt)
            else key in db.current && row == db.current[key]
  {
    var r := Ingest(db, integration, batch, draws, receivedAt).db;
    BatchKeepsRowOk(db, integration, batch, draws, receivedAt, key);
    AffectedIff(batch, key);
    if key in AffectedKeys(batch) {
      RowIsRewrittenIff(RowFor(db.current, key), Latest(r.observations, key).value, receivedAt);
    }
  }

  lemma {:induction false} BatchKeepsRowOk(
      db: Db, integration: nat, batch: seq<Input>, draws: seq<nat>, receivedAt: Time, key: CheckKey)
    requires |draws| == |batch| && Inv(db) && Ingest(db, integration, batch, draws, receivedAt).Accepted?
    requires key in Ingest(db, integration, batch, draws, receivedAt).db.current
    ensures Latest(Ingest(db, integration, batch, draws, receivedAt).db.observations, key).Some?
  {
    var r := Ingest(db, integration, batch, draws, receivedAt).db;
    IngestKeeps(db, integration, batch, draws, receivedAt);
    assert RowOk(r.observations, key, r.current[key]);
  }

  lemma {:induction false} AffectedIff(batch: seq<Input>, key: CheckKey)
    ensures key in AffectedKeys(batch) <==> exists i :: i in batch && About(i, key)
  {
    if i :| i in batch && About(i, key) {
      assert CheckKey(i.resource, i.checkType) == key;
    }
  }
}
