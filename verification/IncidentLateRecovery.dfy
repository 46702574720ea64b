/** A run of the incident engine in which a recovered incident cannot be resolved: the signal that
    completes its recovery is dated ahead of the clock. */
module IncidentLateRecovery {
  import opened Basics
  import opened Debounce
  import opened IncidentModel
  import opened IncidentInvariants

  const TWO_TO_RECOVER := Rule(1, Healthy, 2, 0, map[Critical := Condition(CriticalSeverity, 1, 0)])
  const DOWN := Signal(7, "c", Critical, "", 0)
  const UP := Signal(7, "c", Healthy, "", 5)
  const UP_AHEAD := Signal(7, "c", Healthy, "", 100)
  const OUTAGE := Key(1, 7, "c")

  /** One failure and two recovery signals are written, claimed and processed; the last signal is
      dated seventy ahead of the reading it is processed with. */
  const LATE_RECOVERY: seq<Event> := [
    Append("a", DOWN, 0), Append("b", UP, 0), Append("c", UP_AHEAD, 0),
    Claim(0, 8, 30, 5), Claim(1, 8, 30, 5), Claim(2, 8, 30, 5),
    Process(0, Some(TWO_TO_RECOVER), false, 10),
    Process(1, Some(TWO_TO_RECOVER), false, 20),
    Process(2, Some(TWO_TO_RECOVER), false, 30)]

  function After(n: nat): Db
    requires n <= |LATE_RECOVERY|
  {
    Run(EMPTY, LATE_RECOVERY[..n])
  }

  lemma {:induction false} AfterNext(n: nat)
    requires n < |LATE_RECOVERY|
    ensures After(n + 1) == Step(After(n), LATE_RECOVERY[n])
  {
    assert LATE_RECOVERY[..n + 1][..n] == LATE_RECOVERY[..n];
  }

  function Pending(sourceKey: string, signal: Signal): JournalRow {
    JournalRow(sourceKey, signal, 0, None, 0, None, None)
  }

  function Claimed(sourceKey: string, signal: Signal): JournalRow {
    JournalRow(sourceKey, signal, 0, Some(38), 1, None, None)
  }

  lemma {:induction false} SignalsAppended()
    ensures After(3) == EMPTY.(signals := [Pending("a", DOWN), Pending("b", UP), Pending("c", UP_AHEAD)])
  {
    assert After(0) == EMPTY;
    AfterNext(0);
    AfterNext(1);
    AfterNext(2);
    assert "a"[0] != "b"[0] && "a"[0] != "c"[0] && "b"[0] != "c"[0];
    assert After(1).signals == [Pending("a", DOWN)];
    assert After(2).signals == [Pending("a", DOWN), Pending("b", UP)];
  }

  lemma {:induction false} ClaimsOne(db: Db, id: nat, sourceKey: string, signal: Signal)
    requires id < |db.signals| && db.signals[id] == Pending(sourceKey, signal)
    ensures Step(db, Claim(id, 8, 30, 5)) == db.(signals := db.signals[id := Claimed(sourceKey, signal)])
  {
  }

  lemma {:induction false} SignalsClaimed()
    ensures After(6) == EMPTY.(signals := [Claimed("a", DOWN), Claimed("b", UP), Claimed("c", UP_AHEAD)])
  {
    SignalsAppended();
    AfterNext(3);
    ClaimsOne(After(3), 0, "a", DOWN);
    AfterNext(4);
    ClaimsOne(After(4), 1, "b", UP);
    AfterNext(5);
    ClaimsOne(After(5), 2, "c", UP_AHEAD);
  }

  lemma {:induction false} OutageOpens()
    ensures var db := After(7);
            && |db.signals| == 3 && db.signals[1] == Claimed("b", UP) && db.signals[2] == Claimed("c", UP_AHEAD) &&
                 db.receipts == map[]
            && db.ledger.incidents == [NewIncident(Subject(0, DOWN, OUTAGE), CriticalSeverity, 10)]
            && db.states ==
                 map[OUTAGE :=
                     RuleState(Some(0), Some(0), "", Counters(Some(Critical), Some(0), Some(0), 1, None, 0, None))]
  {
    SignalsClaimed();
    AfterNext(6);
  }

  lemma {:induction false} FirstRecoveryWaits()
    ensures var db := After(8);
            && |db.signals| == 3 && db.signals[2] == Claimed("c", UP_AHEAD) && db.receipts == map[]
            && db.ledger == After(7).ledger
            && db.states ==
                 map[OUTAGE :=
                     RuleState(Some(0), Some(1), "", Counters(Some(Healthy), Some(5), None, 0, Some(5), 1, None))]
  {
    SignalsClaimed();
    OutageOpens();
    AfterNext(7);
  }

  /** The incident is recovered as of the later date, and the operator who resolves it is refused. */
  lemma {:induction false} FutureRecoveryBlocksResolve()
    ensures var db := Run(EMPTY, LATE_RECOVERY);
            && |db.ledger.incidents| == 1 && db.ledger.incidents[0].status.Recovered?
            && db.ledger.incidents[0].recoveredAt == Some(100) && db.ledger.incidents[0].version == 2
            && Mutate(db, Mutation(3, 0, Resolve, None, "done", 2, "k", "r", true), {}, 40).1 == Refused(CheckViolation)
  {
    SignalsClaimed();
    OutageOpens();
    FirstRecoveryWaits();
    AfterNext(8);
    assert LATE_RECOVERY[..9] == LATE_RECOVERY;
    assert |"done"| == 4;
  }
}
