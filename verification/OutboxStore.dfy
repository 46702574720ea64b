/** The outbox writer and worker as code that updates the tables in place, proved against the
    transition functions of `Outbox`. */
module OutboxStore {
  import opened Basics
  import opened Outbox
  import opened OutboxOutcomes

  /** Order of the claim query. */
  predicate ClaimsBefore(intents: seq<Intent>, i: nat, j: nat)
    requires i < |intents| && j < |intents|
  {
    var a, b := intents[i], intents[j];
    a.availableAt < b.availableAt ||
    (a.availableAt == b.availableAt && (a.createdAt < b.createdAt || (a.createdAt == b.createdAt && i <= j)))
  }

  /** `retryDelay` as the worker computes it. */
  method ComputeRetryDelay(attempt: int, retryAfter: int, draw: nat, o: Options) returns (wait: int)
    requires InRange(o) && attempt >= 1
    ensures wait == RetryDelay(attempt, retryAfter, draw, o)
    ensures LeastWait(attempt, retryAfter, o) <= wait <= o.maxRetryDelay
  {
    RetryDelayBounds(attempt, retryAfter, draw, o);
    var delay := SECOND;
    var shift := Min(attempt - 1, 8);
    for n := 0 to shift
      invariant delay == SECOND * Pow2(n)
    {
      delay := delay * 2;
    }
    if retryAfter > delay {
      delay := retryAfter;
    }
    if delay > o.maxRetryDelay {
      delay := o.maxRetryDelay;
    }
    var jitter := draw % Max(1, delay / 4);
    if delay + jitter > o.maxRetryDelay {
      return o.maxRetryDelay;
    }
    return delay + jitter;
  }

  class Worker {
    const options: Options
    var intents: seq<Intent>
    var attempts: seq<Attempt>
    var issued: seq<Claim>

    ghost function Tables(): Db
      reads this
    {
      Db(intents, attempts, issued)
    }

    ghost predicate Valid()
      reads this
    {
      InRange(options) && Inv(Tables(), options)
    }

    constructor (lease: int, maxAttempts: int, maxRetryDelay: int)
      ensures Valid() && Tables() == EMPTY
    {
      options := NormalizeOptions(lease, maxAttempts, maxRetryDelay);
      intents, attempts, issued := [], [], [];
    }

    /** The row the claim query returns: the first claimable one that no other worker has locked. */
    method SelectClaimable(now: Time, locked: set<nat>) returns (best: Option<nat>)
      ensures best.Some? ==>
                && best.value < |intents| && best.value !in locked && Claimable(intents[best.value], now, options)
                && forall j :: 0 <= j < |intents| && j !in locked && Claimable(intents[j], now, options) ==>
                     ClaimsBefore(intents, best.value, j)
      ensures best.None? ==> forall j :: 0 <= j < |intents| && j !in locked ==> !Claimable(intents[j], now, options)
    {
      best := None;
      for n := 0 to |intents|
        invariant best.Some? ==>
                    && best.value < n && best.value !in locked && Claimable(intents[best.value], now, options)
                    && forall j :: 0 <= j < n && j !in locked && Claimable(intents[j], now, options) ==>
                         ClaimsBefore(intents, best.value, j)
        invariant best.None? ==> forall j :: 0 <= j < n && j !in locked ==> !Claimable(intents[j], now, options)
      {
        if n !in locked && Claimable(intents[n], now, options) {
          if best.None? {
            best := Some(n);
          } else {
            var row, least := intents[n], intents[best.value];
            if row.availableAt < least.availableAt ||
               (row.availableAt == least.availableAt && row.createdAt < least.createdAt) {
              best := Some(n);
            }
          }
        }
      }
    }

    /** The update of `claim`: lease one row under a fresh token. */
    method Lease(id: nat, now: Time) returns (token: nat)
      requires Valid() && id < |intents| && Claimable(intents[id], now, options)
      modifies this`intents, this`issued
      ensures Valid() && Tables() == ClaimIntent(old(Tables()), id, now, options)
      ensures token == |old(issued)| && Holds(Tables(), token) && issued[token].intent == id
    {
      ClaimKeeps(Tables(), id, now, options);
      token := |issued|;
      var row := intents[id];
      row := row.(state := Attempting, attemptCount := row.attemptCount + 1, claimToken := Some(token),
                  claimedUntil := Some(now + options.lease), updatedAt := now);
      intents := intents[id := row];
      issued := issued + [Claim(id, row.attemptCount)];
    }

    /** `claim`: lease the first claimable intent, or find none. */
    method ClaimNext(now: Time, locked: set<nat>) returns (token: Option<nat>)
      requires Valid()
      modifies this`intents, this`issued
      ensures Valid()
      ensures token.None? ==> Tables() == old(Tables())
      ensures token.None? <==>
              forall j :: 0 <= j < |old(intents)| && j !in locked ==> !Claimable(old(intents)[j], now, options)
      ensures token.Some? ==>
                token.value < |issued| &&
                  Tables() == ClaimIntent(old(Tables()), issued[token.value].intent, now, options)
      ensures token.Some? ==> Holds(Tables(), token.value) && issued[token.value].intent !in locked
      ensures token.Some? ==>
                forall j :: 0 <= j < |old(intents)| && j !in locked && Claimable(old(intents)[j], now, options) ==>
                  var i := issued[token.value].intent;
                  var row, other := old(intents)[i], old(intents)[j];
                  && row.availableAt <= other.availableAt
                  && (row.availableAt == other.availableAt ==> row.createdAt <= other.createdAt)
                  && (row.availableAt == other.availableAt && row.createdAt == other.createdAt ==> i <= j)
    {
      var best := SelectClaimable(now, locked);
      if best.None? {
        return None;
      }
      var issuedToken := Lease(best.value, now);
      return Some(issuedToken);
    }

    /** `complete`: record a delivery under the claim with this token. */
    method CompleteClaim(token: nat, d: Delivery, clock: Time, draw: nat)
      requires Valid() && token < |issued|
      modifies this`intents, this`attempts
      ensures Valid() && Tables() == Complete(old(Tables()), token, d, clock, draw, options)
      ensures !old(Holds(Tables(), token)) ==> Tables() == old(Tables())
      ensures old(Holds(Tables(), token)) ==>
                var i := issued[token].intent;
                && |intents| == |old(intents)| && |attempts| == |old(attempts)| + 1
                && CompletedBy(old(intents)[i], intents[i], d, issued[token].attempt, Micro(clock), options)
                && Matches(attempts[|old(attempts)|].outcome, intents[i].state)
    {
      CompleteKeeps(Tables(), token, d, clock, draw, options);
      if Holds(Tables(), token) {
        DeliveryDecides(Tables(), token, d, clock, draw, options);
      }
      var claim := issued[token];
      assert ClaimOk(intents, claim);
      var completedAt := Micro(clock);
      var state, outcome, availableAt := Delivered, DeliveredOutcome, completedAt;
      var deliveredAt, terminalAt := Some(completedAt), Some(completedAt);
      if !d.delivered {
        deliveredAt := None;
        if d.retryable && claim.attempt < options.maxAttempts {
          state, outcome, terminalAt := RetryWait, RetryOutcome, None;
          var wait := ComputeRetryDelay(claim.attempt, d.retryAfter, draw, options);
          availableAt := Micro(completedAt + wait);
        } else if d.retryable {
          state, outcome := DeadLetter, DeadLetterOutcome;
        } else {
          state, outcome := Failed, FailedOutcome;
        }
      }
      var row := intents[claim.intent];
      if !row.state.Attempting? || row.claimToken != Some(token) || row.attemptCount != claim.attempt {
        return;
      }
      row := row.(state := state, availableAt := availableAt, claimedUntil := None, claimToken := None,
                  deliveredAt := deliveredAt, terminalAt := terminalAt, updatedAt := completedAt);
      intents := intents[claim.intent := row];
      attempts := attempts + [Attempt(claim.intent, claim.attempt, outcome)];
    }

    /** `deadLetterExpiredClaim` on the row its query selected. */
    method SweepExpired(id: nat, now: Time) returns (finalized: bool)
      requires Valid()
      modifies this`intents, this`attempts
      ensures Valid() && Tables() == Sweep(old(Tables()), id, now, options)
      ensures finalized <==> id < |old(intents)| && Exhausted(old(intents)[id], now, options)
    {
      SweepKeeps(Tables(), id, now, options);
      finalized := id < |intents| && Exhausted(intents[id], now, options);
      if finalized {
        var row := intents[id];
        intents := intents[id := row.(state := DeadLetter, claimedUntil := None, claimToken := None,
                                      terminalAt := Some(now), updatedAt := now)];
        attempts := attempts + [Attempt(id, row.attemptCount, DeadLetterOutcome)];
      }
    }

    /** `EnqueueIncidentEvent`: afterwards every enabled destination has exactly one intent for the event. */
    method EnqueueEvent(event: nat, destinations: seq<nat>, silenced: bool, now: Time, availableAt: Time)
      requires Valid()
      modifies this`intents
      ensures Valid() && Tables() == Enqueue(old(Tables()), event, destinations, silenced, now, availableAt)
      ensures forall d :: d in destinations ==> HasIntent(intents, event, d)
      ensures old(intents) <= intents
      ensures forall i :: |old(intents)| <= i < |intents| ==> NewlyQueued(intents[i], silenced, now, availableAt)
    {
      EnqueuedAreNew(Tables(), event, destinations, silenced, now, availableAt);
      EnqueueCovers(Tables(), event, destinations, silenced, now, availableAt);
      ghost var start := Tables();
      EnqueueKeeps(start, event, destinations, silenced, now, availableAt, options);
      for n := 0 to |destinations|
        invariant Tables() == Enqueue(start, event, destinations[..n], silenced, now, availableAt)
      {
        assert destinations[..n + 1][..n] == destinations[..n];
        var destination := destinations[n];
        if !HasIntent(intents, event, destination) {
          var state, terminalAt := Queued, None;
          if silenced {
            state, terminalAt := Suppressed, Some(now);
          }
          intents := intents +
            [Intent(Some(event), destination, state, 0, availableAt, None, None, None, terminalAt, now, now)];
        }
      }
      assert destinations[..|destinations|] == destinations;
    }
  }
}
