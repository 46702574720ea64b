/** What the operator workflow answers to every request, stated on the fields of the request and the
    columns of its incident alone. */
module IncidentAnswers {
  import opened Basics
  import opened IncidentModel

  /** The request carries what its action takes and nothing else: an owner for an assignment, and for
      a note or a resolution a text of 1 to 2000 characters. */
  predicate ProperFields(m: Mutation) {
    if m.action.AddNote? || m.action.Resolve? then m.owner.None? && 1 <= |m.note| <= 2000
    else |m.note| == 0 && (m.owner.Some? <==> m.action.Assign?)
  }

  predicate Proper(m: Mutation) {
    m.wellFormed && m.expectedVersion >= 1 && ProperFields(m)
  }

  /** The actor has used the idempotency key for this action on this incident before. */
  predicate SeenBefore(db: Db, m: Mutation) {
    ReceiptKey(m.actor, m.incident, m.action, m.idempotencyKey) in db.receipts
  }

  function ReceiptFor(db: Db, m: Mutation): Receipt
    requires SeenBefore(db, m)
  {
    db.receipts[ReceiptKey(m.actor, m.incident, m.action, m.idempotencyKey)]
  }

  /** The status an incident must have for the action. */
  predicate Allows(status: Status, action: Action) {
    match action
    case Acknowledge => status.Opened?
    case Investigate => status.Acknowledged?
    case Assign => !status.Resolved?
    case AddNote => true
    case Resolve => status.Recovered?
  }

  /** The incident can be changed as requested at the reading `clock`: its status allows the action,
      the new owner may own incidents, and a resolution is not dated before the recovery. */
  predicate Grants(row: Incident, m: Mutation, eligible: set<nat>, clock: Time) {
    && Allows(row.status, m.action)
    && (m.action.Assign? ==> m.owner.Some? && m.owner.value in eligible)
    && (m.action.Resolve? ==> row.recoveredAt.Some? && row.recoveredAt.value <= Max(clock, row.updatedAt + 1))
  }

  /** The answer to a proper first-time request that names the version the incident has. */
  predicate Decides(row: Incident, m: Mutation, eligible: set<nat>, clock: Time, reply: Reply) {
    && (reply.Done? <==> Grants(row, m, eligible, clock))
    && (reply == Refused(InvalidTransition) <==> !Allows(row.status, m.action))
    && (reply == Refused(OwnerNotEligible) <==>
        m.action.Assign? && !row.status.Resolved? && (m.owner.None? || m.owner.value !in eligible))
    && (reply == Refused(CheckViolation) <==>
        m.action.Resolve? && row.status.Recovered? &&
          (row.recoveredAt.None? || row.recoveredAt.value > Max(clock, row.updatedAt + 1)))
    && (reply.Done? ==>
          reply.result.version == row.version + 1 && !reply.result.replayed && reply.result.incident == m.incident &&
          reply.result.correlation == m.correlation && reply.result.status == StatusAfter(row.status, m.action))
  }

  /** The status an action leaves. */
  function StatusAfter(status: Status, action: Action): Status {
    match action
    case Acknowledge => Acknowledged
    case Investigate => Investigating
    case Resolve => Resolved
    case Assign => status
    case AddNote => status
  }

  /** The answer to any request. */
  predicate Answers(db: Db, m: Mutation, eligible: set<nat>, clock: Time, reply: Reply) {
    if !Proper(m) then
      reply == Refused(if m.wellFormed && m.expectedVersion >= 1 && (m.action.AddNote? || m.action.Resolve?)
                       then InvalidNote else InvalidMutation)
    else if SeenBefore(db, m) then
      var r := ReceiptFor(db, m);
      reply == if r.payload == Payload(m.action, m.expectedVersion, m.owner, m.note)
               then Done(MutationResult(m.incident, r.status, r.version, r.timelineEvent, r.correlation, true))
               else Refused(IdempotencyConflict)
    else if m.incident >= |db.ledger.incidents| then reply == Refused(NotFound)
    else if db.ledger.incidents[m.incident].version != m.expectedVersion then
      reply == Refused(VersionConflict(db.ledger.incidents[m.incident].version))
    else Decides(db.ledger.incidents[m.incident], m, eligible, clock, reply)
  }

  lemma {:induction false} FirstRequestIsDecided(db: Db, m: Mutation, eligible: set<nat>, clock: Time)
    requires Proper(m) && !SeenBefore(db, m) && m.incident < |db.ledger.incidents|
    requires db.ledger.incidents[m.incident].version == m.expectedVersion
    ensures Decides(db.ledger.incidents[m.incident], m, eligible, clock, Mutate(db, m, eligible, clock).1)
  {
    match m.action
    case Acknowledge =>
    case Investigate =>
    case Assign =>
    case AddNote =>
    case Resolve =>
  }

  /** Every request, in every state of the tables, gets exactly that answer; in particular a proper
      first-time request at the incident's version succeeds exactly when the incident's status
      allows the action, the owner is eligible and the resolution is not dated before the recovery. */
  lemma {:induction false} EveryRequestIsAnswered(db: Db, m: Mutation, eligible: set<nat>, clock: Time)
    ensures Answers(db, m, eligible, clock, Mutate(db, m, eligible, clock).1)
  {
    if Proper(m) && !SeenBefore(db, m) && m.incident < |db.ledger.incidents| &&
       db.ledger.incidents[m.incident].version == m.expectedVersion
    {
      FirstRequestIsDecided(db, m, eligible, clock);
    }
  }
}
