/** The single-flight request/response protocol with an adapter process. Callers, the stdout
    reader, the process exit, stopping and version changes interleave at the granularity of the
    mutex sections and channel operations; `Step` is one of them. */
module Process {
  import opened Basics

  /** Failure and refusal codes. */
  datatype Code =
    | ProcessStopping | RequestInFlight | WriteFailed | ResponseAfterDeadline | AdapterError | ProcessExit
    | RequestTimeout | RequestCanceled | DuplicateReady | InvalidLog | UnsupportedNotification
    | UnexpectedRequest | UnsolicitedResponse | ResponseMismatch | DuplicateResponse | ReadFailed

  datatype Kind = Response | Ready | Log(valid: bool) | OtherNotification | Request

  datatype Envelope = Envelope(kind: Kind, version: nat, requestId: nat, operation: nat, payload: nat, hasError: bool)

  datatype Result = Payload(envelope: Envelope) | Error(code: Code)

  datatype Phase = Writing | Waiting | Leaving(result: Result) | Returned(result: Result)

  /** One call. Its position is its request identifier. `sent` counts the envelopes put on its
      response channel, `answer` is the last of them, and `waiting` says it is still in the channel.
      `steady` says that the last version set while the call was pending and no response was
      accepted, if any was, is the request's. */
  datatype Call = Call(
    operation: nat, allowStopping: bool, version: nat, phase: Phase,
    delivered: bool, sent: nat, answer: Option<Envelope>, waiting: bool, steady: bool)

  /** The reader goroutine between its critical sections. */
  datatype Reader = Reading | Sending(call: nat, envelope: Envelope) | SendingReady | Failing(code: Code)

  /** The fields the mutex guards that calls depend on. `flight` is the call between registration
      and return; it stays when a stop clears `pending` under it. */
  datatype Shared = Shared(pending: Option<nat>, flight: Option<nat>, version: nat, stopping: bool, stopped: bool,
                           stopper: bool)

  datatype State = State(
    calls: seq<Call>,
    shared: Shared,
    reader: Reader,
    readySeen: bool,
    readyWaiting: bool,
    failure: Option<Code>,
    done: bool)

  function Init(version: nat): State {
    State([], Shared(None, None, version, false, false, false), Reading, false, false, None, false)
  }

  /** `fail`: only the first failure is recorded. */
  function Fail(s: State, code: Code): State {
    if s.failure.None? then s.(failure := Some(code)) else s
  }

  function NewCall(s: State, operation: nat, allowStopping: bool, phase: Phase): Call {
    Call(operation, allowStopping, s.shared.version, phase, false, 0, None, false, true)
  }

  /** Why `call` refuses to register a request. */
  function RegisterRefusal(s: State, allowStopping: bool): Option<Code> {
    if s.failure.Some? then s.failure
    else if s.shared.stopping && !allowStopping then Some(ProcessStopping)
    else if s.shared.pending.Some? then Some(RequestInFlight)
    else None
  }

  /** The critical section at the start of `call`. */
  function Register(s: State, operation: nat, allowStopping: bool): State {
    var refusal := RegisterRefusal(s, allowStopping);
    if refusal.Some? then
      s.(calls := s.calls + [NewCall(s, operation, allowStopping, Returned(Error(refusal.value)))])
    else
      s.(calls := s.calls + [NewCall(s, operation, allowStopping, Writing)],
         shared := s.shared.(pending := Some(|s.calls|), flight := Some(|s.calls|)))
  }

  function SetCall(s: State, c: nat, call: Call): State
    requires c < |s.calls|
  {
    s.(calls := s.calls[c := call])
  }

  /** What a registered call can do next, short of returning. */
  datatype Move = Written | WriteBreaks | Takes(late: bool) | SeesFailure | SeesExit | Expires(cancelled: bool)

  predicate Enabled(call: Call, move: Move, failure: Option<Code>, done: bool) {
    match move
    case Written => call.phase.Writing?
    case WriteBreaks => call.phase.Writing?
    case Takes(_) => call.phase.Waiting? && call.waiting && call.answer.Some?
    case SeesFailure => call.phase.Waiting? && failure.Some?
    case SeesExit => call.phase.Waiting? && done
    case Expires(_) => call.phase.Waiting?
  }

  /** The write and the select of `call`: the call's record after the move. */
  function Moved(call: Call, move: Move, failure: Option<Code>): Call {
    match move
    case Written => call.(phase := Waiting)
    case WriteBreaks => call.(phase := Leaving(Error(WriteFailed)))
    case Takes(late) =>
      if call.answer.None? then call
      else
        var e := call.answer.value;
        call.(waiting := false,
              phase := Leaving(if late then Error(ResponseAfterDeadline)
                               else if e.hasError then Error(AdapterError) else Payload(e)))
    case SeesFailure => if failure.Some? then call.(phase := Leaving(Error(failure.value))) else call
    case SeesExit => call.(phase := Leaving(Error(ProcessExit)))
    case Expires(cancelled) => call.(phase := Leaving(Error(if cancelled then RequestCanceled else RequestTimeout)))
  }

  /** The failure a move records: a broken write always, a missed deadline or a caller that gave up
      unless a stop made the call. */
  function MoveFailure(call: Call, move: Move): Option<Code> {
    match move
    case WriteBreaks => Some(WriteFailed)
    case Takes(late) => if late && !call.allowStopping then Some(ResponseAfterDeadline) else None
    case Expires(cancelled) =>
      if call.allowStopping then None else Some(if cancelled then RequestCanceled else RequestTimeout)
    case _ => None
  }

  function StepCall(s: State, c: nat, move: Move): State
    requires c < |s.calls|
  {
    if Enabled(s.calls[c], move, s.failure, s.done) then
      var moved := SetCall(s, c, Moved(s.calls[c], move, s.failure));
      var code := MoveFailure(s.calls[c], move);
      if code.Some? then Fail(moved, code.value) else moved
    else s
  }

  /** The return of `call`, with its deferred `clearPending`. */
  function Return(s: State, c: nat): State
    requires c < |s.calls| && s.calls[c].phase.Leaving?
  {
    var left := SetCall(s, c, s.calls[c].(phase := Returned(s.calls[c].phase.result)));
    left.(shared := s.shared.(pending := if s.shared.pending == Some(c) then None else s.shared.pending,
                              flight := if s.shared.flight == Some(c) then None else s.shared.flight))
  }

  /** The response answers the pending request under the process's current version. */
  predicate Matches(s: State, e: Envelope) {
    s.shared.pending.Some? && s.shared.pending.value < |s.calls| &&
    e.version == s.shared.version && e.requestId == s.shared.pending.value &&
      e.operation == s.calls[s.shared.pending.value].operation
  }

  function DispatchResponse(s: State, e: Envelope): State {
    if s.shared.pending.None? then s.(reader := Failing(UnsolicitedResponse))
    else if !Matches(s, e) then s.(reader := Failing(ResponseMismatch))
    else
      var c := s.shared.pending.value;
      if s.calls[c].delivered then s.(reader := Failing(DuplicateResponse))
      else SetCall(s, c, s.calls[c].(delivered := true)).(reader := Sending(c, e))
  }

  /** The critical section of `dispatch`; what follows it outside the lock is the reader's next step. */
  function Dispatch(s: State, e: Envelope): State {
    if s.failure.Some? then s
    else
      match e.kind
      case Ready => if s.readySeen || s.shared.pending.Some? then s.(reader := Failing(DuplicateReady))
                    else s.(readySeen := true, reader := SendingReady)
      case Log(valid) => if valid then s else s.(reader := Failing(InvalidLog))
      case OtherNotification => s.(reader := Failing(UnsupportedNotification))
      case Request => s.(reader := Failing(UnexpectedRequest))
      case Response => DispatchResponse(s, e)
  }

  /** The channel send after an accepted response; the channel holds one value. */
  function SendResponse(s: State, c: nat, e: Envelope): State {
    var idle := s.(reader := Reading);
    if c >= |s.calls| then idle
    else if s.calls[c].waiting then Fail(idle, DuplicateResponse)
    else SetCall(idle, c, s.calls[c].(sent := s.calls[c].sent + 1, answer := Some(e), waiting := true))
  }

  /** The reader's channel send or failure after `dispatch`. */
  function FinishDispatch(s: State): State {
    match s.reader
    case Reading => s
    case Failing(code) => Fail(s.(reader := Reading), code)
    case SendingReady =>
      if s.readyWaiting then Fail(s.(reader := Reading), DuplicateReady)
      else s.(reader := Reading, readyWaiting := true)
    case Sending(c, e) => SendResponse(s, c, e)
  }

  function SetVersion(s: State, version: nat): State {
    var moved := s.(shared := s.shared.(version := version));
    var p := s.shared.pending;
    if p.Some? && p.value < |s.calls| && !s.calls[p.value].delivered
    then SetCall(moved, p.value, s.calls[p.value].(steady := s.calls[p.value].version == version))
    else moved
  }

  // ---------------------------------------------------------------------------
  // Interleavings
  // ---------------------------------------------------------------------------

  datatype Action =
    | Begin(operation: nat)
    | BeginShutdown(operation: nat)
    | InCall(c: nat, move: Move)
    | Returns(c: nat)
    | Arrives(envelope: Envelope)
    | ReaderContinues
    | Around(event: Around)

  /** What can happen around calls and the reader. */
  datatype Around =
    | ReadBreaks | TakesReady | StopBegins | StopFinishes | StopGivesUp | Exits | VersionSet(version: nat)

  function StepAround(s: State, event: Around): State {
    match event
    case ReadBreaks => if s.reader.Reading? then s.(reader := Failing(ReadFailed)) else s
    case TakesReady => s.(readyWaiting := false)
    case StopBegins => if s.shared.stopped || s.shared.stopper then s
                       else s.(shared := s.shared.(stopping := true, stopper := true))
    case StopFinishes =>
      if s.shared.stopper && s.done then s.(shared := s.shared.(stopped := true, pending := None, stopper := false))
      else s
    case StopGivesUp => s.(shared := s.shared.(stopper := false))
    case Exits => (if s.shared.stopping then s else Fail(s, ProcessExit)).(done := true)
    case VersionSet(version) => SetVersion(s, version)
  }

  /** One step; a step that is not enabled changes nothing. Only the holder of the stop lock calls
      with permission to run while stopping. */
  function Step(s: State, a: Action): State {
    match a
    case Begin(operation) => Register(s, operation, false)
    case BeginShutdown(operation) => if s.shared.stopper then Register(s, operation, true) else s
    case InCall(c, move) => if c < |s.calls| then StepCall(s, c, move) else s
    case Returns(c) => if c < |s.calls| && s.calls[c].phase.Leaving? then Return(s, c) else s
    case Arrives(e) => if s.reader.Reading? then Dispatch(s, e) else s
    case ReaderContinues => FinishDispatch(s)
    case Around(event) => StepAround(s, event)
  }

  function Run(s: State, actions: seq<Action>): State {
    if actions == [] then s
    else Step(Run(s, actions[..|actions| - 1]), actions[|actions| - 1])
  }

  // ---------------------------------------------------------------------------
  // The invariant
  // ---------------------------------------------------------------------------

  predicate InFlight(call: Call) {
    !call.phase.Returned?
  }

  function ResultOf(call: Call): Option<Result> {
    match call.phase
    case Leaving(result) => Some(result)
    case Returned(result) => Some(result)
    case Writing => None
    case Waiting => None
  }

  /** The envelope answers the call's own request. */
  predicate AnswersCall(e: Envelope, c: nat, call: Call) {
    e.kind.Response? && e.requestId == c && e.operation == call.operation &&
      (call.steady <==> e.version == call.version)
  }

  /** One call's record; `sending` says the reader holds an accepted response for it. */
  predicate CallOk(c: nat, call: Call, sh: Shared, sending: bool) {
    && call.sent + (if sending then 1 else 0) == (if call.delivered then 1 else 0)
    && (call.answer.Some? <==> call.sent == 1)
    && (call.waiting ==> call.answer.Some?)
    && (call.answer.Some? ==> AnswersCall(call.answer.value, c, call))
    && (sh.pending == Some(c) && !call.delivered ==> (call.steady <==> sh.version == call.version))
    && (InFlight(call) <==> sh.flight == Some(c))
    && (ResultOf(call).Some? && ResultOf(call).value.Payload? ==>
          call.answer == Some(ResultOf(call).value.envelope) && !ResultOf(call).value.envelope.hasError)
  }

  predicate IsSending(r: Reader, c: nat) {
    r.Sending? && r.call == c
  }

  ghost predicate CallsOk(s: State) {
    forall c :: 0 <= c < |s.calls| ==> CallOk(c, s.calls[c], s.shared, IsSending(s.reader, c))
  }

  predicate SharedOk(sh: Shared, count: nat) {
    && (sh.pending.Some? ==> sh.flight == sh.pending)
    && (sh.flight.Some? ==> sh.flight.value < count && (sh.pending.None? ==> sh.stopped))
    && (sh.stopped ==> sh.stopping && !sh.stopper && sh.pending.None?)
    && (sh.stopper ==> sh.stopping)
  }

  predicate ReaderOk(s: State) {
    s.reader.Sending? ==>
      s.reader.call < |s.calls| && AnswersCall(s.reader.envelope, s.reader.call, s.calls[s.reader.call])
  }

  ghost predicate Inv(s: State) {
    CallsOk(s) && SharedOk(s.shared, |s.calls|) && ReaderOk(s)
  }

  lemma {:induction false} RefusalKeeps(s: State, call: Call)
    requires Inv(s) && call.phase.Returned? && call.phase.result.Error? && !call.delivered && call.sent == 0 &&
               call.answer.None? && !call.waiting
    ensures Inv(s.(calls := s.calls + [call]))
  {
    var next := s.(calls := s.calls + [call]);
    forall c | 0 <= c < |next.calls|
      ensures CallOk(c, next.calls[c], next.shared, IsSending(next.reader, c))
    {
      if c < |s.calls| {
        assert CallOk(c, s.calls[c], s.shared, IsSending(s.reader, c));
      }
    }
  }

  lemma {:induction false} RegistrationKeeps(s: State, operation: nat, allowStopping: bool)
    requires Inv(s) && (allowStopping ==> s.shared.stopper) && RegisterRefusal(s, allowStopping).None?
    ensures Inv(Register(s, operation, allowStopping))
  {
    var next := Register(s, operation, allowStopping);
    assert s.shared.flight.None?;
    forall c | 0 <= c < |next.calls|
      ensures CallOk(c, next.calls[c], next.shared, IsSending(next.reader, c))
    {
      if c < |s.calls| {
        assert CallOk(c, s.calls[c], s.shared, IsSending(s.reader, c));
      }
    }
  }

  lemma {:induction false} RegisterKeeps(s: State, operation: nat, allowStopping: bool)
    requires Inv(s) && (allowStopping ==> s.shared.stopper)
    ensures Inv(Register(s, operation, allowStopping))
  {
    var refusal := RegisterRefusal(s, allowStopping);
    if refusal.Some? {
      RefusalKeeps(s, NewCall(s, operation, allowStopping, Returned(Error(refusal.value))));
    } else {
      RegistrationKeeps(s, operation, allowStopping);
    }
  }

  /** Changing one call, and nothing the other calls depend on. */
  lemma {:induction false} OneCallKeeps(s: State, next: State, c: nat)
    requires Inv(s) && c < |s.calls| && |next.calls| == |s.calls| && next.calls == s.calls[c := next.calls[c]]
    requires next.shared == s.shared && next.reader == s.reader
    requires CallOk(c, next.calls[c], s.shared, IsSending(s.reader, c))
    requires next.calls[c].operation == s.calls[c].operation && next.calls[c].version == s.calls[c].version
    requires next.calls[c].steady == s.calls[c].steady
    ensures Inv(next)
  {
  }

  lemma {:induction false} ReturnKeeps(s: State, c: nat)
    requires Inv(s) && c < |s.calls| && s.calls[c].phase.Leaving?
    ensures Inv(Return(s, c))
  {
    var next := Return(s, c);
    forall i | 0 <= i < |next.calls|
      ensures CallOk(i, next.calls[i], next.shared, IsSending(next.reader, i))
    {
      assert CallOk(i, s.calls[i], s.shared, IsSending(s.reader, i));
      assert CallOk(c, s.calls[c], s.shared, IsSending(s.reader, c));
    }
  }

  lemma {:induction false} MovedOk(
      c: nat, call: Call, sh: Shared, sending: bool, move: Move, failure: Option<Code>, done: bool)
    requires CallOk(c, call, sh, sending) && Enabled(call, move, failure, done)
    ensures CallOk(c, Moved(call, move, failure), sh, sending)
  {
  }

  lemma {:induction false} StepCallKeeps(s: State, c: nat, move: Move)
    requires Inv(s) && c < |s.calls|
    ensures Inv(StepCall(s, c, move))
  {
    if Enabled(s.calls[c], move, s.failure, s.done) {
      assert CallOk(c, s.calls[c], s.shared, IsSending(s.reader, c));
      MovedOk(c, s.calls[c], s.shared, IsSending(s.reader, c), move, s.failure, s.done);
      OneCallKeeps(s, StepCall(s, c, move), c);
    }
  }

  lemma {:induction false} DispatchResponseKeeps(s: State, e: Envelope)
    requires Inv(s) && s.reader.Reading? && e.kind.Response?
    ensures Inv(DispatchResponse(s, e))
  {
    var next := DispatchResponse(s, e);
    forall c | 0 <= c < |next.calls|
      ensures CallOk(c, next.calls[c], next.shared, IsSending(next.reader, c))
    {
      assert CallOk(c, s.calls[c], s.shared, IsSending(s.reader, c));
    }
  }

  /** The reader moving between steps in which it holds no response. */
  lemma {:induction false} ReaderMoveKeeps(s: State, next: State)
    requires Inv(s) && !s.reader.Sending? && !next.reader.Sending? && next.calls == s.calls && next.shared == s.shared
    ensures Inv(next)
  {
    forall c | 0 <= c < |next.calls|
      ensures CallOk(c, next.calls[c], next.shared, IsSending(next.reader, c))
    {
      assert CallOk(c, s.calls[c], s.shared, IsSending(s.reader, c));
    }
  }

  lemma {:induction false} SendResponseKeeps(s: State)
    requires Inv(s) && s.reader.Sending?
    ensures Inv(SendResponse(s, s.reader.call, s.reader.envelope))
  {
    var next := SendResponse(s, s.reader.call, s.reader.envelope);
    forall c | 0 <= c < |next.calls|
      ensures CallOk(c, next.calls[c], next.shared, IsSending(next.reader, c))
    {
      assert CallOk(c, s.calls[c], s.shared, IsSending(s.reader, c));
      assert CallOk(s.reader.call, s.calls[s.reader.call], s.shared, true);
    }
  }

  lemma {:induction false} ReaderKeeps(s: State, a: Action)
    requires Inv(s) && (a.Arrives? || a.ReaderContinues?)
    ensures Inv(Step(s, a))
  {
    if a.ReaderContinues? {
      if s.reader.Sending? {
        SendResponseKeeps(s);
      } else {
        ReaderMoveKeeps(s, FinishDispatch(s));
      }
    } else if s.reader.Reading? {
      if s.failure.None? && a.envelope.kind.Response? {
        DispatchResponseKeeps(s, a.envelope);
      } else {
        ReaderMoveKeeps(s, Dispatch(s, a.envelope));
      }
    }
  }

  /** A call that does not wait for a response keeps its record; one that does is marked anew. */
  lemma {:induction false} VersionMoveOk(c: nat, call: Call, sh: Shared, sending: bool, version: nat)
    requires CallOk(c, call, sh, sending)
    ensures sh.pending != Some(c) || call.delivered ==> CallOk(c, call, sh.(version := version), sending)
    ensures !call.delivered ==> CallOk(c, call.(steady := call.version == version), sh.(version := version), sending)
  {
  }

  lemma {:induction false} SetVersionKeeps(s: State, version: nat)
    requires Inv(s)
    ensures Inv(SetVersion(s, version))
  {
    var next := SetVersion(s, version);
    forall c | 0 <= c < |next.calls|
      ensures CallOk(c, next.calls[c], next.shared, IsSending(next.reader, c))
    {
      VersionMoveOk(c, s.calls[c], s.shared, IsSending(s.reader, c), version);
    }
    assert ReaderOk(next);
  }

  lemma {:induction false} StepAroundKeeps(s: State, event: Around)
    requires Inv(s)
    ensures Inv(StepAround(s, event))
  {
    if event.VersionSet? {
      SetVersionKeeps(s, event.version);
    } else {
      var next := StepAround(s, event);
      forall c | 0 <= c < |next.calls|
        ensures CallOk(c, next.calls[c], next.shared, IsSending(next.reader, c))
      {
        assert CallOk(c, s.calls[c], s.shared, IsSending(s.reader, c));
      }
    }
  }

  lemma {:induction false} StepKeeps(s: State, a: Action)
    requires Inv(s)
    ensures Inv(Step(s, a))
  {
    match a
    case Begin(operation) => RegisterKeeps(s, operation, false);
    case BeginShutdown(operation) => if s.shared.stopper { RegisterKeeps(s, operation, true); }
    case InCall(c, move) => if c < |s.calls| { StepCallKeeps(s, c, move); }
    case Returns(c) => if c < |s.calls| && s.calls[c].phase.Leaving? { ReturnKeeps(s, c); }
    case Arrives(_) => ReaderKeeps(s, a);
    case ReaderContinues => ReaderKeeps(s, a);
    case Around(event) => StepAroundKeeps(s, event);
  }

  lemma {:induction false} RunKeeps(s: State, actions: seq<Action>)
    requires Inv(s)
    ensures Inv(Run(s, actions))
  {
    if actions != [] {
      RunKeeps(s, actions[..|actions| - 1]);
      StepKeeps(Run(s, actions[..|actions| - 1]), actions[|actions| - 1]);
    }
  }

  // ---------------------------------------------------------------------------
  // Whole runs
  // ---------------------------------------------------------------------------

  /** In every interleaving at most one call is between registration and return. */
  lemma {:induction false} AtMostOneCallInFlight(version: nat, actions: seq<Action>, a: nat, b: nat)
    requires a < b < |Run(Init(version), actions).calls|
    ensures !(InFlight(Run(Init(version), actions).calls[a]) && InFlight(Run(Init(version), actions).calls[b]))
  {
    RunKeeps(Init(version), actions);
    var s := Run(Init(version), actions);
    assert CallOk(a, s.calls[a], s.shared, IsSending(s.reader, a)) &&
             CallOk(b, s.calls[b], s.shared, IsSending(s.reader, b));
  }

  /** Every call that returns a payload returns that of the one response ever sent to it; the
      response carries the call's own request identifier and operation, and it carries the request's
      version exactly when the last version set while the call waited, if any, is that version. */
  lemma {:induction false} CallsGetTheirOwnResponse(version: nat, actions: seq<Action>, c: nat)
    requires c < |Run(Init(version), actions).calls|
    ensures var call := Run(Init(version), actions).calls[c];
            && call.sent <= 1
            && (ResultOf(call).Some? && ResultOf(call).value.Payload? ==>
                  var e := ResultOf(call).value.envelope;
                  call.answer == Some(e) && e.requestId == c && e.operation == call.operation && !e.hasError &&
                  (call.steady <==> e.version == call.version))
  {
    RunKeeps(Init(version), actions);
    var s := Run(Init(version), actions);
    assert CallOk(c, s.calls[c], s.shared, IsSending(s.reader, c));
  }

  /** No response reaches two calls. */
  lemma {:induction false} NoResponseReachesTwoCalls(version: nat, actions: seq<Action>, a: nat, b: nat)
    requires var s := Run(Init(version), actions); a < |s.calls| && b < |s.calls| && a != b && s.calls[a].answer.Some?
    ensures var s := Run(Init(version), actions); s.calls[a].answer != s.calls[b].answer
  {
    RunKeeps(Init(version), actions);
    var s := Run(Init(version), actions);
    assert CallOk(a, s.calls[a], s.shared, IsSending(s.reader, a)) &&
             CallOk(b, s.calls[b], s.shared, IsSending(s.reader, b));
  }

  /** What a failed process leaves as it is: the failure, every acceptance, and every returned call. */
  ghost predicate Frozen(s: State, t: State) {
    && t.failure == s.failure && |s.calls| <= |t.calls|
    && (forall c :: 0 <= c < |s.calls| ==>
          t.calls[c].delivered == s.calls[c].delivered &&
            (s.calls[c].phase.Returned? ==> t.calls[c].phase == s.calls[c].phase))
    && (forall c :: |s.calls| <= c < |t.calls| && s.failure.Some? ==>
          t.calls[c].phase == Returned(Error(s.failure.value)) && !t.calls[c].delivered)
  }

  lemma {:induction false} CallStepFreezes(s: State, c: nat, move: Move)
    requires s.failure.Some? && c < |s.calls|
    ensures Frozen(s, StepCall(s, c, move))
  {
  }

  lemma {:induction false} ReaderFreezes(s: State)
    requires s.failure.Some?
    ensures Frozen(s, FinishDispatch(s))
  {
  }

  lemma {:induction false} AroundFreezes(s: State, event: Around)
    requires s.failure.Some?
    ensures Frozen(s, StepAround(s, event))
  {
  }

  lemma {:induction false} FailureStep(s: State, a: Action)
    requires s.failure.Some?
    ensures Frozen(s, Step(s, a))
  {
    match a
    case InCall(c, move) => if c < |s.calls| { CallStepFreezes(s, c, move); }
    case Returns(_) =>
    case Begin(_) =>
    case BeginShutdown(_) =>
    case Arrives(_) =>
    case ReaderContinues => ReaderFreezes(s);
    case Around(event) => AroundFreezes(s, event);
  }

  lemma {:induction false} FrozenTransitive(s: State, t: State, u: State)
    requires s.failure.Some? && Frozen(s, t) && Frozen(t, u)
    ensures Frozen(s, u)
  {
  }

  /** The first recorded failure is never replaced; from then on no response is accepted for any
      call, returned results stay, and every new call is refused with that failure. */
  lemma {:induction false} FirstFailureIsFinal(s: State, actions: seq<Action>)
    requires s.failure.Some?
    ensures Frozen(s, Run(s, actions))
  {
    if actions != [] {
      var rest := actions[..|actions| - 1];
      FirstFailureIsFinal(s, rest);
      FailureStep(Run(s, rest), actions[|actions| - 1]);
      FrozenTransitive(s, Run(s, rest), Run(s, actions));
    }
  }

  /** Versions are set only while no call is pending. */
  ghost predicate VersionsSetBetweenCalls(version: nat, actions: seq<Action>) {
    forall j :: 0 <= j < |actions| && actions[j].Around? && actions[j].event.VersionSet? ==>
      Run(Init(version), actions[..j]).shared.pending.None?
  }

  ghost predicate AllSteady(s: State) {
    forall c :: 0 <= c < |s.calls| ==> s.calls[c].steady
  }

  lemma {:induction false} SteadyCall(s: State, c: nat, move: Move)
    requires AllSteady(s) && c < |s.calls|
    ensures AllSteady(StepCall(s, c, move))
  {
  }

  lemma {:induction false} SteadyReader(s: State, e: Envelope)
    requires AllSteady(s)
    ensures AllSteady(Dispatch(s, e)) && AllSteady(FinishDispatch(s))
  {
  }

  lemma {:induction false} SteadyAround(s: State, event: Around)
    requires AllSteady(s) && (event.VersionSet? ==> s.shared.pending.None?)
    ensures AllSteady(StepAround(s, event))
  {
  }

  lemma {:induction false} SteadyStep(s: State, a: Action)
    requires AllSteady(s) && (a.Around? && a.event.VersionSet? ==> s.shared.pending.None?)
    ensures AllSteady(Step(s, a))
  {
    match a
    case InCall(c, move) => if c < |s.calls| { SteadyCall(s, c, move); }
    case Arrives(e) => SteadyReader(s, e);
    case ReaderContinues => SteadyReader(s, Envelope(Request, 0, 0, 0, 0, false));
    case Around(event) => SteadyAround(s, event);
    case Begin(_) =>
    case BeginShutdown(_) =>
    case Returns(_) =>
  }

  lemma {:induction false} CallsStaySteady(version: nat, actions: seq<Action>)
    requires VersionsSetBetweenCalls(version, actions)
    ensures AllSteady(Run(Init(version), actions))
  {
    if actions != [] {
      var last := |actions| - 1;
      var rest := actions[..last];
      forall j | 0 <= j < |rest| && rest[j].Around? && rest[j].event.VersionSet?
        ensures Run(Init(version), rest[..j]).shared.pending.None?
      {
        assert rest[..j] == actions[..j] && rest[j] == actions[j];
      }
      CallsStaySteady(version, rest);
      assert actions[..last] == rest;
      SteadyStep(Run(Init(version), rest), actions[last]);
    }
  }

  /** While versions are set only between calls, every payload carries its own request's version. */
  lemma {:induction false} PayloadHasRequestVersion(version: nat, actions: seq<Action>, c: nat)
    requires VersionsSetBetweenCalls(version, actions) && c < |Run(Init(version), actions).calls|
    ensures var call := Run(Init(version), actions).calls[c];
            ResultOf(call).Some? && ResultOf(call).value.Payload? ==>
              ResultOf(call).value.envelope.version == call.version
  {
    CallsStaySteady(version, actions);
    CallsGetTheirOwnResponse(version, actions, c);
  }

  /** The version condition is needed: a version set during a call is what its response is checked
      against, and the call then returns a response of another version than its request. */
  lemma {:induction false} VersionMayMoveDuringACall()
    ensures var e := Envelope(Response, 2, 0, 7, 5, false);
            var begun := Step(Step(Init(1), Begin(7)), InCall(0, Written));
            var sent := Step(Step(Step(begun, Around(VersionSet(2))), Arrives(e)), ReaderContinues);
            var s := Step(sent, InCall(0, Takes(false)));
            |s.calls| == 1 && s.calls[0].phase == Leaving(Payload(e)) && s.calls[0].version == 1 && !s.calls[0].steady
  {
    var begun := Step(Step(Init(1), Begin(7)), InCall(0, Written));
    assert begun.calls == [Call(7, false, 1, Waiting, false, 0, None, false, true)];
  }

  // ---------------------------------------------------------------------------
  // The critical sections as code
  // ---------------------------------------------------------------------------

  class Control {
    var calls: seq<Call>
    var shared: Shared
    var reader: Reader
    var readySeen: bool
    var readyWaiting: bool
    var failure: Option<Code>
    var done: bool

    ghost function Value(): State
      reads this
    {
      State(calls, shared, reader, readySeen, readyWaiting, failure, done)
    }

    constructor (version: nat)
      ensures Value() == Init(version) && Inv(Value())
    {
      calls, shared, reader := [], Shared(None, None, version, false, false, false), Reading;
      readySeen, readyWaiting, failure, done := false, false, None, false;
    }

    /** `fail`: a later failure does not replace the first. */
    method RecordFailure(code: Code)
      requires Inv(Value())
      modifies this`failure
      ensures Inv(Value()) && failure.Some? && (old(failure).Some? ==> failure == old(failure))
      ensures Value() == Fail(old(Value()), code)
    {
      if failure.None? {
        failure := Some(code);
      }
    }

    /** What the reader does after the locked section of `dispatch`: the one send on the call's
        channel, which never finds it full, or a failure. */
    method ContinueReader()
      requires Inv(Value())
      modifies this`calls, this`reader, this`readyWaiting, this`failure
      ensures Inv(Value()) && Value() == FinishDispatch(old(Value()))
      ensures old(reader).Sending? ==>
                var c := old(reader).call;
                c < |calls| && calls[c].sent == 1 && calls[c].answer == Some(old(reader).envelope) &&
                  failure == old(failure)
      ensures old(failure).Some? ==> failure == old(failure)
    {
      ReaderKeeps(Value(), ReaderContinues);
      var step := reader;
      match step {
        case Reading =>
        case Failing(code) =>
          StopReading();
          RecordFailure(code);
        case SendingReady =>
          StopReading();
          if readyWaiting {
            RecordFailure(DuplicateReady);
          } else {
            readyWaiting := true;
          }
        case Sending(c, e) => SendAnswer(c, e);
      }
    }

    /** The send of an accepted response: its call's channel is empty. */
    method SendAnswer(c: nat, e: Envelope)
      requires Inv(Value()) && reader == Sending(c, e)
      modifies this`calls, this`reader
      ensures Inv(Value()) && Value() == SendResponse(old(Value()), c, e) && failure == old(failure)
      ensures c < |calls| && calls[c].sent == 1 && calls[c].answer == Some(e)
    {
      SendResponseKeeps(Value());
      assert CallOk(c, calls[c], shared, true);
      calls := calls[c := calls[c].(sent := calls[c].sent + 1, answer := Some(e), waiting := true)];
      reader := Reading;
    }

    method StopReading()
      requires Inv(Value()) && !reader.Sending?
      modifies this`reader
      ensures Inv(Value()) && reader == Reading
    {
      ReaderMoveKeeps(Value(), Value().(reader := Reading));
      reader := Reading;
    }

    /** The locked section of `call`: register, or refuse with the reason. */
    method RegisterCall(operation: nat, allowStopping: bool) returns (c: nat, refusal: Option<Code>)
      requires Inv(Value()) && (allowStopping ==> shared.stopper)
      modifies this`calls, this`shared
      ensures Inv(Value()) && Value() == Register(old(Value()), operation, allowStopping)
      ensures c == |old(calls)| && refusal == RegisterRefusal(old(Value()), allowStopping)
      ensures refusal.None? ==> shared.pending == Some(c) && old(shared.pending).None?
      ensures refusal.None? <==>
              old(failure).None? && !(old(shared.stopping) && !allowStopping) && old(shared.pending).None?
      ensures refusal.Some? ==>
                refusal.value == if old(failure).Some? then old(failure).value
                                 else if old(shared.stopping) && !allowStopping then ProcessStopping
                                 else RequestInFlight
    {
      RegisterKeeps(Value(), operation, allowStopping);
      c := |calls|;
      refusal := None;
      if failure.Some? {
        refusal := failure;
      } else if shared.stopping && !allowStopping {
        refusal := Some(ProcessStopping);
      } else if shared.pending.Some? {
        refusal := Some(RequestInFlight);
      }
      var phase := if refusal.Some? then Returned(Error(refusal.value)) else Writing;
      calls := calls + [Call(operation, allowStopping, shared.version, phase, false, 0, None, false, true)];
      if refusal.None? {
        shared := shared.(pending := Some(c), flight := Some(c));
      }
    }

    /** The response part of `dispatch`. */
    method DispatchToPending(e: Envelope)
      requires Inv(Value()) && reader.Reading? && e.kind.Response?
      modifies this`calls, this`reader
      ensures Inv(Value()) && Value() == DispatchResponse(old(Value()), e)
    {
      DispatchResponseKeeps(Value(), e);
      if shared.pending.None? {
        reader := Failing(UnsolicitedResponse);
        return;
      }
      var c := shared.pending.value;
      if e.version != shared.version || e.requestId != c || e.operation != calls[c].operation {
        reader := Failing(ResponseMismatch);
      } else if calls[c].delivered {
        reader := Failing(DuplicateResponse);
      } else {
        calls := calls[c := calls[c].(delivered := true)];
        reader := Sending(c, e);
      }
    }

    /** The return of `call` with `clearPending`: only the call's own registration is cleared. */
    method ReturnCall(c: nat) returns (result: Result)
      requires Inv(Value()) && c < |calls| && calls[c].phase.Leaving?
      modifies this`calls, this`shared
      ensures Inv(Value()) && Value() == Return(old(Value()), c)
      ensures result == old(calls)[c].phase.result
    {
      ReturnKeeps(Value(), c);
      result := calls[c].phase.result;
      calls := calls[c := calls[c].(phase := Returned(result))];
      if shared.pending == Some(c) {
        shared := shared.(pending := None);
      }
      if shared.flight == Some(c) {
        shared := shared.(flight := None);
      }
    }
  }
}
