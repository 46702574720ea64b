/** Observation ingest and the freshness worker as code that updates its tables in place, proved
    against the functions of `HealthCache`. */
module HealthStore {
  import opened Basics
  import opened Health
  import opened HealthCache
  import I = HealthIngest

  class Store {
    var observations: seq<Observation>
    var signals: seq<nat>
    var current: map<CheckKey, Current>
    var transitions: set<Transition>
    /** The latest clock reading so far. */
    ghost var clock: Time

    ghost function Tables(): Db
      reads this
    {
      Db(observations, signals, current, transitions)
    }

    ghost predicate Valid()
      reads this
    {
      Inv(Tables()) && WrittenBy(Tables(), clock)
    }

    constructor ()
      ensures Valid() && Tables() == EMPTY && clock == 0
    {
      observations, signals, current, transitions, clock := [], [], map[], {}, 0;
    }

    /** The insert loop of `IngestWithCommit`, on the transaction's own copy of the tables. */
    method InsertBatch(integration: nat, batch: seq<Input>, draws: seq<nat>, receivedAt: Time) returns (p: Progress)
      requires |draws| == |batch|
      ensures p == AbsorbAll(Tables(), integration, batch, draws, receivedAt)
    {
      p := Progress(observations, signals, 0, 0, true);
      var n := 0;
      while n < |batch| && p.ok
        invariant 0 <= n <= |batch|
        invariant p == AbsorbAll(Tables(), integration, batch[..n], draws[..n], receivedAt)
      {
        assert batch[..n + 1][..n] == batch[..n] && draws[..n + 1][..n] == draws[..n];
        var insertion := Insert(p.observations, integration, batch[n], draws[n], receivedAt);
        match insertion {
          case Inserted(row) =>
            p := p.(observations := p.observations + [row], inserted := p.inserted + 1);
            if row.id !in p.signals {
              p := p.(signals := p.signals + [row.id]);
            }
          case Duplicate(_) => p := p.(duplicates := p.duplicates + 1);
          case Conflict => p := p.(ok := false);
        }
        n := n + 1;
      }
      if p.ok {
        assert batch[..n] == batch && draws[..n] == draws;
      } else {
        FailureSticks(Tables(), integration, batch, draws, n, receivedAt);
      }
    }

    /** The recompute loop of `IngestWithCommit`, in any order of the affected checks. */
    method RecomputeChecks(
        table: seq<Observation>, keys: set<CheckKey>, now: Time) returns (rows: map<CheckKey, Current>)
      ensures rows == RecomputeAll(current, table, keys, now)
    {
      rows := current;
      var todo := keys;
      while todo != {}
        invariant todo <= keys
        invariant rows == RecomputeAll(current, table, keys - todo, now)
        decreases todo
      {
        var key :| key in todo;
        RecomputeOne(current, table, keys - todo, key, now);
        assert keys - todo + {key} == keys - (todo - {key});
        var newest := Latest(table, key);
        if newest.Some? {
          var desired := Evaluate(newest.value, RowFor(current, key), now);
          if !(key in current && Equivalent(current[key], desired)) {
            rows := rows[key := desired];
          }
        }
        todo := todo - {key};
      }
      assert keys - todo == keys;
    }

    /** `IngestWithCommit`: the whole batch or nothing. */
    method IngestBatch(integration: nat, batch: seq<Input>, draws: seq<nat>, receivedAt: Time) returns (r: Result)
      requires Valid() && |draws| == |batch|
      modifies this
      ensures Valid() && clock == Max(old(clock), receivedAt)
      ensures r == Ingest(old(Tables()), integration, batch, draws, receivedAt)
      ensures Tables() == if r.Accepted? then r.db else old(Tables())
      ensures r.Accepted? ==> r.inserted + r.duplicates == |batch| && |signals| == |old(signals)| + r.inserted
      ensures r.Accepted? <==>
              && |batch| <= 1000 && (forall n :: 0 <= n < |batch| ==> I.Proper(batch[n], receivedAt))
              && I.NoConflict(old(Tables()), integration, batch, draws, receivedAt)
    {
      I.BatchIsAcceptedIff(Tables(), integration, batch, draws, receivedAt);
      StepKeeps(Tables(), Ingested(integration, batch, draws, receivedAt));
      clock := Max(clock, receivedAt);
      WrittenStep(Tables(), Ingested(integration, batch, draws, receivedAt), clock);
      if !ValidBatch(batch, receivedAt) {
        return Rejected;
      }
      var p := InsertBatch(integration, batch, draws, receivedAt);
      if !p.ok {
        return Rejected;
      }
      IngestKeeps(old(Tables()), integration, batch, draws, receivedAt);
      var rows := RecomputeChecks(p.observations, AffectedKeys(batch), receivedAt);
      observations, signals, current := p.observations, p.signals, rows;
      r := Accepted(Db(observations, signals, current, transitions), p.inserted, p.duplicates);
    }

    /** The row of the given ones that falls due first. */
    method FirstDue(left: set<CheckKey>) returns (first: CheckKey)
      requires left != {} && left <= current.Keys
      ensures first in left && forall k :: k in left ==> FallsDueBefore(current, first, k)
    {
      first :| first in left;
      var todo := left - {first};
      while todo != {}
        invariant first in left && todo <= left
        invariant forall k :: k in left && k !in todo ==> FallsDueBefore(current, first, k)
        decreases todo
      {
        var k :| k in todo;
        var at, least := DueTime(current[k]), DueTime(current[first]);
        if at < least || (at == least && k.resource < first.resource) {
          first := k;
        }
        todo := todo - {k};
      }
    }

    /** The claim of `RefreshDue`: of the due rows that no other instance has locked, the first ones
        up to the limit. */
    method SelectDue(now: Time, limit: nat, locked: set<CheckKey>) returns (claimed: set<CheckKey>)
      ensures claimed <= DueKeys(Tables(), now) - locked
      ensures |claimed| == Min(limit, |DueKeys(Tables(), now) - locked|)
      ensures forall a, b :: a in claimed && b in DueKeys(Tables(), now) - locked - claimed ==>
                OverdueLonger(current[a], a.resource, current[b], b.resource, now)
    {
      claimed := {};
      var left := (set k | k in current && Due(current[k], now)) - locked;
      ghost var due := left;
      assert due == DueKeys(Tables(), now) - locked;
      while |claimed| < limit && left != {}
        invariant claimed !! left && claimed + left == due
        invariant |claimed| + |left| == |due| && |claimed| <= limit
        invariant forall a, b :: a in claimed && b in left ==> FallsDueBefore(current, a, b)
        decreases left
      {
        var k := FirstDue(left);
        claimed, left := claimed + {k}, left - {k};
      }
      assert left == due - claimed;
      forall a, b | a in claimed && b in due - claimed
        ensures OverdueLonger(current[a], a.resource, current[b], b.resource, now)
      {
        assert FallsDueBefore(current, a, b) && Due(current[a], now) && Due(current[b], now);
      }
    }

    /** The update loop of `RefreshDue`: evaluate each claimed row, write it and its signal. */
    method ApplyTransitions(claimed: set<CheckKey>, now: Time)
      requires claimed <= DueKeys(Tables(), now)
      modifies this`current, this`transitions
      ensures Tables() == Refresh(old(Tables()), claimed, now)
    {
      ghost var start := Tables();
      ghost var done: set<CheckKey> := {};
      var todo, table, rows, notes := claimed, observations, current, transitions;
      RefreshNone(start, now);
      while todo != {}
        invariant done + todo == claimed && done !! todo
        invariant start.(current := rows, transitions := notes) == Refresh(start, done, now)
        decreases todo
      {
        var k :| k in todo;
        RefreshOne(start, done, k, now);
        var row := rows[k];
        var next := Refreshed(table, row, now);
        if next.state != row.state {
          rows, notes := rows[k := next], notes + {Transition(k, next.state, now)};
        }
        todo, done := todo - {k}, done + {k};
      }
      assert done == claimed;
      current, transitions := rows, notes;
    }

    /** `RefreshDue`: every claimed row changes state and leaves the due list. */
    method RefreshDue(now: Time, limit: nat, locked: set<CheckKey>) returns (changes: set<CheckKey>)
      requires Valid()
      modifies this`current, this`transitions, this`clock
      ensures Valid() && clock == Max(old(clock), now)
      ensures Tables() == Refresh(old(Tables()), changes, now)
      ensures changes <= DueKeys(old(Tables()), now) - locked
      ensures |changes| == Min(limit, |DueKeys(old(Tables()), now) - locked|)
      ensures |DueKeys(Tables(), now)| == |DueKeys(old(Tables()), now)| - |changes|
    {
      changes := SelectDue(now, limit, locked);
      clock := Max(clock, now);
      RefreshKeeps(Tables(), changes, now);
      WrittenStep(Tables(), RefreshedBatch(changes, now), clock);
      RefreshShrinksDue(Tables(), changes, now);
      TakeAway(DueKeys(Tables(), now), changes);
      ApplyTransitions(changes, now);
    }

    /** The batch loop of `Run` at one instant: it ends with nothing due, and if no earlier reading
        was later than `now`, every row agrees with a fresh evaluation of its newest observation. */
    method Drain(now: Time, limit: nat)
      requires Valid() && limit >= 1
      modifies this`current, this`transitions, this`clock
      ensures Valid() && clock == Max(old(clock), now)
      ensures DueKeys(Tables(), now) == {}
      ensures old(clock) <= now ==>
                forall k :: k in current ==>
                  Latest(observations, k).Some? && current[k].state == StateAt(Latest(observations, k).value, now)
    {
      var changes := RefreshDue(now, limit, {});
      while |changes| >= limit
        invariant Valid() && clock == Max(old(clock), now)
        invariant |changes| < limit ==> |DueKeys(Tables(), now)| == 0
        decreases |DueKeys(Tables(), now)|, |changes|
      {
        changes := RefreshDue(now, limit, {});
      }
      assert DueKeys(Tables(), now) == {};
      if old(clock) <= now {
        DrainedCacheIsFresh(Tables(), now);
      }
    }
  }

  /** When a row falls due. */
  function DueTime(row: Current): Time {
    var at := if row.state.Stale? then row.unknownAt else row.staleAt;
    if at.Some? then at.value else 0
  }

  /** Order of the claim query: by due time, then by resource. */
  predicate FallsDueBefore(current: map<CheckKey, Current>, a: CheckKey, b: CheckKey) {
    a in current && b in current &&
    (DueTime(current[a]) < DueTime(current[b]) ||
     (DueTime(current[a]) == DueTime(current[b]) && a.resource <= b.resource))
  }

  /** Both rows are due; the first one's transition was due first, or at the same time and its
      resource comes first: a stale row is due at its unknown time, any other at its stale time. */
  predicate OverdueLonger(a: Current, resource: nat, b: Current, other: nat, now: Time) {
    var x, y := if a.state.Stale? then a.unknownAt else a.staleAt, if b.state.Stale? then b.unknownAt else b.staleAt;
    x.Some? && y.Some? && x.value <= y.value <= now && (x.value == y.value ==> resource <= other)
  }

  lemma {:induction false} TakeAway(all: set<CheckKey>, some: set<CheckKey>)
    requires some <= all
    ensures |all - some| == |all| - |some|
  {
    assert all == some + (all - some);
  }

  lemma {:induction false} RefreshNone(db: Db, now: Time)
    ensures Refresh(db, {}, now) == db
  {
    assert RefreshRows(db, {}, now) == db.current;
    assert Refresh(db, {}, now).transitions == db.transitions;
  }

  /** Refreshing one more claimed row. */
  lemma {:induction false} RefreshOne(db: Db, keys: set<CheckKey>, key: CheckKey, now: Time)
    requires key !in keys && key in DueKeys(db, now)
    ensures key in Refresh(db, keys, now).current && Refresh(db, keys, now).current[key] == db.current[key]
    ensures var row, next := db.current[key], Refreshed(db.observations, db.current[key], now);
            Refresh(db, keys + {key}, now) ==
            if next.state == row.state then Refresh(db, keys, now)
            else Refresh(db, keys, now).(current := Refresh(db, keys, now).current[key := next],
                                         transitions := Refresh(db, keys, now).transitions +
                                           {Transition(key, next.state, now)})
  {
    var row, next := db.current[key], Refreshed(db.observations, db.current[key], now);
    assert next.state == row.state ==> next == row;
    assert RefreshRows(db, keys + {key}, now) == RefreshRows(db, keys, now)[key := next];
    assert next.state == row.state ==> Refresh(db, keys + {key}, now).transitions == Refresh(db, keys, now).transitions;
    assert next.state != row.state ==>
      Refresh(db, keys + {key}, now).transitions ==
        Refresh(db, keys, now).transitions + {Transition(key, next.state, now)};
  }

  lemma {:induction false} FailureSticks(
      db: Db, integration: nat, batch: seq<Input>, draws: seq<nat>, n: nat, receivedAt: Time)
    requires |draws| == |batch| && n <= |batch| && !AbsorbAll(db, integration, batch[..n], draws[..n], receivedAt).ok
    ensures AbsorbAll(db, integration, batch, draws, receivedAt) ==
              AbsorbAll(db, integration, batch[..n], draws[..n], receivedAt)
  {
    if n < |batch| {
      var last := |batch| - 1;
      assert batch[..last][..n] == batch[..n] && draws[..last][..n] == draws[..n];
      FailureSticks(db, integration, batch[..last], draws[..last], n, receivedAt);
    } else {
      assert batch[..n] == batch && draws[..n] == draws;
    }
  }

  /** Recomputing one more check. */
  lemma {:induction false} RecomputeOne(
      current: map<CheckKey, Current>, table: seq<Observation>, keys: set<CheckKey>, key: CheckKey, now: Time)
    ensures RecomputeAll(current, table, keys + {key}, now) ==
            var rows := RecomputeAll(current, table, keys, now);
            if Latest(table, key).Some? then rows[key := Recompute(RowFor(current, key), Latest(table, key).value, now)]
            else rows
    ensures key !in keys && key in current ==>
              key in RecomputeAll(current, table, keys, now) &&
                RecomputeAll(current, table, keys, now)[key] == current[key]
  {
  }
}
