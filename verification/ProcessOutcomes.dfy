/** What became of each call and of the process: the result of a call is that of the one step that
    ended it, the recorded failure is the first one any step reported, and the flags tell which of
    stopping, exit and version changes the run has seen. */
module ProcessOutcomes {
  import opened Basics
  import opened Process

  // ---------------------------------------------------------------------------
  // The result of a call
  // ---------------------------------------------------------------------------

  /** The step refuses the new call: the process has failed, is stopping, or has a request pending. */
  predicate Refuses(s: State, a: Action, c: nat, code: Code) {
    && (a.Begin? || (a.BeginShutdown? && s.shared.stopper)) && c == |s.calls|
    && (if s.failure.Some? then code == s.failure.value
        else if s.shared.stopping && a.Begin? then code == ProcessStopping
        else s.shared.pending.Some? && code == RequestInFlight)
  }

  /** The step ends the call with this result. A call that is still writing ends when the write
      breaks; one that waits ends with its response, the process's failure or exit, or its context. */
  predicate Ends(s: State, a: Action, c: nat, r: Result) {
    || (r.Error? && Refuses(s, a, c, r.code))
    || (a.InCall? && a.c == c && c < |s.calls| && s.calls[c].phase.Writing? && a.move.WriteBreaks? &&
        r == Error(WriteFailed))
    || (a.InCall? && a.c == c && c < |s.calls| && s.calls[c].phase.Waiting? && WaitEnds(s, s.calls[c], a.move, r))
  }

  predicate WaitEnds(s: State, call: Call, move: Move, r: Result) {
    match move
    case Takes(true) => call.waiting && call.answer.Some? && r == Error(ResponseAfterDeadline)
    case Takes(false) =>
      call.waiting && call.answer.Some? &&
        r == if call.answer.value.hasError then Error(AdapterError) else Payload(call.answer.value)
    case SeesFailure => s.failure.Some? && r == Error(s.failure.value)
    case SeesExit => s.done && r == Error(ProcessExit)
    case Expires(true) => r == Error(RequestCanceled)
    case Expires(false) => r == Error(RequestTimeout)
    case Written => false
    case WriteBreaks => false
  }

  function ResultIn(s: State, c: nat): Option<Result> {
    if c < |s.calls| then ResultOf(s.calls[c]) else None
  }

  lemma {:induction false} DispatchSparesPhases(s: State, e: Envelope)
    ensures var next := Step(s, Arrives(e));
            |next.calls| == |s.calls| && forall c :: 0 <= c < |s.calls| ==> next.calls[c].phase == s.calls[c].phase
  {
  }

  lemma {:induction false} SendSparesPhases(s: State)
    ensures var next := Step(s, ReaderContinues);
            |next.calls| == |s.calls| && forall c :: 0 <= c < |s.calls| ==> next.calls[c].phase == s.calls[c].phase
  {
  }

  lemma {:induction false} AroundSparesPhases(s: State, event: Around)
    ensures var next := Step(s, Around(event));
            |next.calls| == |s.calls| && forall c :: 0 <= c < |s.calls| ==> next.calls[c].phase == s.calls[c].phase
  {
  }

  lemma {:induction false} ReaderSparesResults(s: State, a: Action, c: nat)
    requires a.Arrives? || a.ReaderContinues? || a.Around?
    ensures ResultIn(Step(s, a), c) == ResultIn(s, c)
  {
    match a
    case Arrives(e) => DispatchSparesPhases(s, e);
    case ReaderContinues => SendSparesPhases(s);
    case Around(event) => AroundSparesPhases(s, event);
  }

  lemma {:induction false} MoveGivesResult(s: State, a: Action, c: nat, r: Result)
    requires a.InCall?
    ensures ResultIn(Step(s, a), c) == Some(r) <==> ResultIn(s, c) == Some(r) || Ends(s, a, c, r)
  {
    if a.c < |s.calls| && a.c == c && Enabled(s.calls[c], a.move, s.failure, s.done) {
      match a.move
      case Written =>
      case WriteBreaks =>
      case Takes(late) =>
      case SeesFailure =>
      case SeesExit =>
      case Expires(cancelled) =>
    }
  }

  lemma {:induction false} StepGivesResult(s: State, a: Action, c: nat, r: Result)
    ensures ResultIn(Step(s, a), c) == Some(r) <==> ResultIn(s, c) == Some(r) || Ends(s, a, c, r)
  {
    match a
    case InCall(_, _) => MoveGivesResult(s, a, c, r);
    case Begin(_) =>
    case BeginShutdown(_) =>
    case Returns(_) =>
    case Arrives(_) => ReaderSparesResults(s, a, c);
    case ReaderContinues => ReaderSparesResults(s, a, c);
    case Around(_) => ReaderSparesResults(s, a, c);
  }

  /** Some step of the run ends the call with this result. */
  predicate EverEnds(version: nat, actions: seq<Action>, c: nat, r: Result) {
    actions != [] &&
    var rest, a := actions[..|actions| - 1], actions[|actions| - 1];
    EverEnds(version, rest, c, r) || Ends(Run(Init(version), rest), a, c, r)
  }

  /** Over every run a call has a result exactly when a step ended it with that result. */
  lemma {:induction false} ResultTellsEnding(version: nat, actions: seq<Action>, c: nat, r: Result)
    ensures ResultIn(Run(Init(version), actions), c) == Some(r) <==> EverEnds(version, actions, c, r)
  {
    if actions != [] {
      var rest, a := actions[..|actions| - 1], actions[|actions| - 1];
      ResultTellsEnding(version, rest, c, r);
      StepGivesResult(Run(Init(version), rest), a, c, r);
    }
  }

  /** Where a call is after a step: it waits once its request is written, until a step ends it, and
      returns what it ended with. */
  ghost predicate PhaseFollows(s: State, a: Action, c: nat, phase: Phase)
    requires c < |s.calls|
  {
    match s.calls[c].phase
    case Writing =>
      phase == (if a == InCall(c, Written) then Waiting
                else if a == InCall(c, WriteBreaks) then Leaving(Error(WriteFailed)) else Writing)
    case Waiting =>
      if phase.Leaving? then Ends(s, a, c, phase.result) else phase.Waiting? && forall r :: !Ends(s, a, c, r)
    case Leaving(result) => phase == if a == Returns(c) then Returned(result) else Leaving(result)
    case Returned(result) => phase == Returned(result)
  }

  lemma {:induction false} PhaseMoves(s: State, a: Action, c: nat)
    requires c < |s.calls|
    ensures c < |Step(s, a).calls| && PhaseFollows(s, a, c, Step(s, a).calls[c].phase)
  {
    match a
    case InCall(_, _) => CallMoves(s, a, c);
    case Returns(_) => ReturnMoves(s, a, c);
    case _ => OthersSparePhases(s, a, c);
  }

  /** A new call writes its request exactly when it is not refused. */
  lemma {:induction false} NewCallWrites(s: State, a: Action)
    requires a.Begin? || (a.BeginShutdown? && s.shared.stopper)
    ensures var next, c := Step(s, a), |s.calls|;
            && |next.calls| == c + 1 && next.calls[c].operation == a.operation
            && next.calls[c].version == s.shared.version && next.calls[c].allowStopping == a.BeginShutdown?
            && (next.calls[c].phase.Writing? <==>
                  s.failure.None? && !(s.shared.stopping && a.Begin?) && s.shared.pending.None?)
            && (next.calls[c].phase.Writing? ==> next.shared.pending == Some(c))
            && (!next.calls[c].phase.Writing? ==> next.shared == s.shared)
  {
  }

  lemma {:induction false} OthersSparePhases(s: State, a: Action, c: nat)
    requires c < |s.calls| && !a.InCall? && !a.Returns?
    ensures c < |Step(s, a).calls| && Step(s, a).calls[c].phase == s.calls[c].phase
    ensures forall r :: !Ends(s, a, c, r)
  {
    match a
    case Arrives(e) => DispatchSparesPhases(s, e);
    case ReaderContinues => SendSparesPhases(s);
    case Around(event) => AroundSparesPhases(s, event);
    case _ =>
  }

  lemma {:induction false} ReturnMoves(s: State, a: Action, c: nat)
    requires c < |s.calls| && a.Returns?
    ensures c < |Step(s, a).calls| && PhaseFollows(s, a, c, Step(s, a).calls[c].phase)
  {
  }

  lemma {:induction false} CallMoves(s: State, a: Action, c: nat)
    requires c < |s.calls| && a.InCall?
    ensures c < |Step(s, a).calls| && PhaseFollows(s, a, c, Step(s, a).calls[c].phase)
  {
    if a.c == c && Enabled(s.calls[c], a.move, s.failure, s.done) {
      match a.move
      case Written =>
      case WriteBreaks =>
      case Takes(late) =>
      case SeesFailure =>
      case SeesExit =>
      case Expires(cancelled) =>
    }
  }

  // ---------------------------------------------------------------------------
  // What the reader makes of an envelope
  // ---------------------------------------------------------------------------

  /** What is wrong with an envelope, if the process has not failed before it. */
  predicate Complains(s: State, e: Envelope, code: Code) {
    match code
    case DuplicateReady => e.kind.Ready? && (s.readySeen || s.shared.pending.Some?)
    case InvalidLog => e.kind == Log(false)
    case UnsupportedNotification => e.kind.OtherNotification?
    case UnexpectedRequest => e.kind.Request?
    case UnsolicitedResponse => e.kind.Response? && s.shared.pending.None?
    case ResponseMismatch => e.kind.Response? && s.shared.pending.Some? && !ForPending(s, e)
    case DuplicateResponse => e.kind.Response? && ForPending(s, e) && s.calls[s.shared.pending.value].delivered
    case _ => false
  }

  /** The response has the pending request's identifier and operation and the current version. */
  predicate ForPending(s: State, e: Envelope) {
    && s.shared.pending.Some? && s.shared.pending.value < |s.calls|
    && e.version == s.shared.version && e.requestId == s.shared.pending.value
    && e.operation == s.calls[s.shared.pending.value].operation
  }

  /** What the locked section of `dispatch` leaves: the complaint there is; the first response for the
      pending call, on its way to that call, which then takes no other; the first ready notification,
      on its way to the starter; or nothing, for a log line. */
  ghost predicate Dispatched(s: State, e: Envelope, next: State) {
    && (next.reader.Failing? ==> Complains(s, e, next.reader.code))
    && (next.reader.Reading? <==> e.kind == Log(true))
    && (next.reader.SendingReady? <==> e.kind.Ready? && !s.readySeen && s.shared.pending.None?)
    && (next.reader.Sending? <==>
          e.kind.Response? && ForPending(s, e) && !s.calls[s.shared.pending.value].delivered)
    && (next.reader.Sending? ==> next.reader == Sending(e.requestId, e))
    && next.readySeen == (s.readySeen || next.reader.SendingReady?)
    && next == s.(reader := next.reader, readySeen := next.readySeen, calls := next.calls)
    && next.calls == (if next.reader.Sending? && e.requestId < |s.calls|
                      then s.calls[e.requestId := s.calls[e.requestId].(delivered := true)] else s.calls)
  }

  lemma {:induction false} ResponseArrives(s: State, e: Envelope)
    requires Inv(s) && s.reader.Reading? && e.kind.Response?
    ensures Dispatched(s, e, DispatchResponse(s, e))
  {
  }

  /** An envelope read from a process that has failed is ignored; any other is dispatched. */
  lemma {:induction false} ArrivalDecides(s: State, e: Envelope)
    requires Inv(s) && s.reader.Reading?
    ensures if s.failure.Some? then Step(s, Arrives(e)) == s else Dispatched(s, e, Step(s, Arrives(e)))
  {
    match e.kind
    case Ready =>
    case Log(valid) =>
    case OtherNotification =>
    case Request =>
    case Response => ResponseArrives(s, e);
  }

  /** What the reader then does with a response: its call, and no other, finds it in its channel. */
  lemma {:induction false} ResponseIsSent(s: State)
    requires Inv(s) && s.reader.Sending?
    ensures s.reader.call < |s.calls|
    ensures var c, answer := s.reader.call, Some(s.reader.envelope);
            Step(s, ReaderContinues) ==
            s.(reader := Reading, calls := s.calls[c := s.calls[c].(sent := 1, answer := answer, waiting := true)])
  {
    assert CallOk(s.reader.call, s.calls[s.reader.call], s.shared, true);
  }

  /** The ready notification is passed on at most once, so its channel is never full. */
  predicate ReadyOnce(s: State) {
    (s.reader.SendingReady? ==> !s.readyWaiting) && (s.reader.SendingReady? || s.readyWaiting ==> s.readySeen)
  }

  lemma {:induction false} ReadyStep(s: State, a: Action)
    requires ReadyOnce(s)
    ensures ReadyOnce(Step(s, a))
  {
  }

  lemma {:induction false} ReadyIsPassedOnOnce(version: nat, actions: seq<Action>)
    ensures ReadyOnce(Run(Init(version), actions))
  {
    if actions != [] {
      ReadyIsPassedOnOnce(version, actions[..|actions| - 1]);
      ReadyStep(Run(Init(version), actions[..|actions| - 1]), actions[|actions| - 1]);
    }
  }

  // ---------------------------------------------------------------------------
  // The failure of the process
  // ---------------------------------------------------------------------------

  /** The failure a step reports: a broken write; a response after the deadline, a missed deadline or
      a caller that gave up, unless the call is the stop's own; a complaint of the reader; or an exit
      nobody asked for. */
  function Reported(s: State, a: Action): Option<Code> {
    match a
    case InCall(c, move) =>
      if c >= |s.calls| then None
      else if s.calls[c].phase.Writing? then (if move.WriteBreaks? then Some(WriteFailed) else None)
      else if !s.calls[c].phase.Waiting? || s.calls[c].allowStopping then None
      else if move == Takes(true) && s.calls[c].waiting then Some(ResponseAfterDeadline)
      else if move == Expires(true) then Some(RequestCanceled)
      else if move == Expires(false) then Some(RequestTimeout)
      else None
    case ReaderContinues => if s.reader.Failing? then Some(s.reader.code) else None
    case Around(Exits) => if s.shared.stopping then None else Some(ProcessExit)
    case _ => None
  }

  /** The first failure reported in a run. */
  function FirstReport(version: nat, actions: seq<Action>): Option<Code> {
    if actions == [] then None
    else
      var rest := actions[..|actions| - 1];
      var before := FirstReport(version, rest);
      if before.Some? then before else Reported(Run(Init(version), rest), actions[|actions| - 1])
  }

  lemma {:induction false} StepReports(s: State, a: Action)
    requires Inv(s) && ReadyOnce(s)
    ensures Step(s, a).failure == if s.failure.Some? then s.failure else Reported(s, a)
  {
    match a
    case InCall(c, move) =>
      if c < |s.calls| {
        assert CallOk(c, s.calls[c], s.shared, IsSending(s.reader, c));
      }
    case ReaderContinues =>
      if s.reader.Sending? {
        ResponseIsSent(s);
      }
    case Arrives(e) =>
    case Around(event) =>
    case Begin(_) =>
    case BeginShutdown(_) =>
    case Returns(_) =>
  }

  /** Over every run the recorded failure is the first one reported. */
  lemma {:induction false} FailureIsFirstReport(version: nat, actions: seq<Action>)
    ensures Run(Init(version), actions).failure == FirstReport(version, actions)
  {
    if actions != [] {
      var rest := actions[..|actions| - 1];
      FailureIsFirstReport(version, rest);
      RunKeeps(Init(version), rest);
      ReadyIsPassedOnOnce(version, rest);
      StepReports(Run(Init(version), rest), actions[|actions| - 1]);
    }
  }

  // ---------------------------------------------------------------------------
  // Stopping, exit and version
  // ---------------------------------------------------------------------------

  function LastVersion(version: nat, actions: seq<Action>): nat {
    if actions == [] then version
    else
      var a := actions[|actions| - 1];
      if a.Around? && a.event.VersionSet? then a.event.version else LastVersion(version, actions[..|actions| - 1])
  }

  predicate Seen(actions: seq<Action>, event: Around) {
    exists j :: 0 <= j < |actions| && actions[j] == Around(event)
  }

  lemma {:induction false} SeenSplits(actions: seq<Action>, event: Around)
    requires actions != []
    ensures Seen(actions, event) <==>
              Seen(actions[..|actions| - 1], event) || actions[|actions| - 1] == Around(event)
  {
    var last := |actions| - 1;
    if Seen(actions, event) && actions[last] != Around(event) {
      var j :| 0 <= j < |actions| && actions[j] == Around(event);
      assert actions[..last][j] == Around(event);
    }
  }

  /** The process stops from the first request to stop on, has exited from its exit on, speaks the
      version set last, and counts as stopped only when it was asked to stop and has exited. */
  lemma {:induction false} FlagsTellRun(version: nat, actions: seq<Action>)
    ensures var s := Run(Init(version), actions);
            && (s.shared.stopping <==> Seen(actions, StopBegins))
            && (s.done <==> Seen(actions, Exits))
            && s.shared.version == LastVersion(version, actions)
            && (s.shared.stopped ==> s.shared.stopping && s.done && s.shared.pending.None?)
  {
    RunKeeps(Init(version), actions);
    if actions != [] {
      var rest, a := actions[..|actions| - 1], actions[|actions| - 1];
      FlagsTellRun(version, rest);
      RunKeeps(Init(version), rest);
      SeenSplits(actions, StopBegins);
      SeenSplits(actions, Exits);
      FlagsStep(Run(Init(version), rest), a);
    }
  }

  lemma {:induction false} FlagsStep(s: State, a: Action)
    requires Inv(s)
    ensures var next := Step(s, a);
            && (next.shared.stopping <==> s.shared.stopping || a == Around(StopBegins))
            && (next.done <==> s.done || a == Around(Exits))
            && next.shared.version == (if a.Around? && a.event.VersionSet? then a.event.version else s.shared.version)
            && (next.shared.stopped ==> s.shared.stopped || s.done)
  {
    match a
    case InCall(c, move) => CallSparesFlags(s, c, move);
    case ReaderContinues => ReaderSparesFlags(s);
    case Arrives(e) =>
    case Around(event) =>
    case Begin(_) =>
    case BeginShutdown(_) =>
    case Returns(_) =>
  }

  lemma {:induction false} CallSparesFlags(s: State, c: nat, move: Move)
    ensures var next := Step(s, InCall(c, move)); next.shared == s.shared && next.done == s.done
  {
  }

  lemma {:induction false} ReaderSparesFlags(s: State)
    ensures var next := Step(s, ReaderContinues); next.shared == s.shared && next.done == s.done
  {
  }
}
