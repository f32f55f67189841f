/**
 * What the evacuation protocol promises, proved about the reference
 * definition in `EvacuationSpec` (which the handlers are proved to follow).
 */
module EvacuationProperties {
  import opened Models
  import opened Effects
  import opened EvacuationSpec

  /** What a one-request trace shows: the controller invocation if any, one written response, one check on its error. */
  lemma HandlerTraceObservations(controller: ControllerRef, exitChan: ExitChan, c: Call, convert: ErrorConverter)
    ensures ControllerCalls(HandlerTrace(controller, exitChan, c, convert))
         == (match ControllerInvocation(c) case Some(args) => [(controller, args)] case None => [])
    ensures WrittenBodies(HandlerTrace(controller, exitChan, c, convert)) == [Response(c, convert)]
    ensures EscalationChecks(HandlerTrace(controller, exitChan, c, convert)) == [Response(c, convert).error]
  {
    var body := Response(c, convert);
    var prefix := match ControllerInvocation(c) case Some(args) => [ControllerCalled(controller, args)] case None => [];
    var tail := [Written(body), EscalationChecked(exitChan, body.error)];
    assert HandlerTrace(controller, exitChan, c, convert) == prefix + tail;
    ControllerCallsAppend(prefix, tail);
    WrittenBodiesAppend(prefix, tail);
    EscalationChecksAppend(prefix, tail);
    assert tail[1..][1..] == [];
    assert prefix != [] ==> prefix[1..] == [];
  }

  /** A request that fails to parse never reaches the controller, and its response carries the converted parse error. */
  lemma ParseFailureSkipsController(controller: ControllerRef, exitChan: ExitChan, c: Call, convert: ErrorConverter)
    requires ParseFailure(c).Some?
    ensures ControllerCalls(HandlerTrace(controller, exitChan, c, convert)) == []
    ensures Response(c, convert).error == convert(ParseFailure(c))
  {
    HandlerTraceObservations(controller, exitChan, c, convert);
  }

  /**
   * A request that parses reaches the handler's controller exactly once, with the parsed
   * keys, plus the crash reason for Crashed and the network info for Running;
   * the response carries the converted controller error.
   */
  lemma ParsedRequestReachesController(controller: ControllerRef, exitChan: ExitChan, c: Call, convert: ErrorConverter)
    requires ParseFailure(c).None?
    ensures |ControllerCalls(HandlerTrace(controller, exitChan, c, convert))| == 1
    ensures match c
      case RemoveEvacuatingCall(Parsed(r), _) =>
        ControllerCalls(HandlerTrace(controller, exitChan, c, convert))[0]
        == (controller, RemoveEvacuatingArgs(r.actualLrpKey, r.actualLrpInstanceKey))
      case ClaimedCall(Parsed(r), _) =>
        ControllerCalls(HandlerTrace(controller, exitChan, c, convert))[0]
        == (controller, EvacuateClaimedArgs(r.actualLrpKey, r.actualLrpInstanceKey))
      case CrashedCall(Parsed(r), _) =>
        ControllerCalls(HandlerTrace(controller, exitChan, c, convert))[0]
        == (controller, EvacuateCrashedArgs(r.actualLrpKey, r.actualLrpInstanceKey, r.errorMessage))
      case RunningCall(Parsed(r), _) =>
        ControllerCalls(HandlerTrace(controller, exitChan, c, convert))[0]
        == (controller, EvacuateRunningArgs(r.actualLrpKey, r.actualLrpInstanceKey, r.actualLrpNetInfo))
      case StoppedCall(Parsed(r), _) =>
        ControllerCalls(HandlerTrace(controller, exitChan, c, convert))[0]
        == (controller, EvacuateStoppedArgs(r.actualLrpKey, r.actualLrpInstanceKey))
      case _ => false
    ensures Response(c, convert).error == convert(ControllerError(c))
  {
    HandlerTraceObservations(controller, exitChan, c, convert);
  }

  /** Claimed, parse failure: the container is kept whatever the error. */
  lemma ClaimedKeepsContainerOnParseFailure(p: ParseResult<EvacuateClaimedActualLRPRequest>, answer: Decision,
                                            convert: ErrorConverter)
    requires p.ParseFailed?
    ensures Response(ClaimedCall(p, answer), convert) == EvacuationBody(convert(Some(p.err)), true)
  {
  }

  /** Claimed, parsed: the response is exactly the controller's error and keep decision. */
  lemma ClaimedAdoptsControllerDecision(p: ParseResult<EvacuateClaimedActualLRPRequest>, answer: Decision,
                                        convert: ErrorConverter)
    requires p.Parsed?
    ensures Response(ClaimedCall(p, answer), convert) == EvacuationBody(convert(answer.err), answer.keepContainer)
  {
  }

  /**
   * Running: the flag is preset to keep, stays so when parsing fails, and is
   * replaced by the controller's decision, false included, once it is called.
   */
  lemma RunningKeepsContainerUntilControllerDecides(p: ParseResult<EvacuateRunningActualLRPRequest>,
                                                    answer: Decision, convert: ErrorConverter)
    ensures p.ParseFailed? ==> Response(RunningCall(p, answer), convert) == EvacuationBody(convert(Some(p.err)), true)
    ensures p.Parsed? ==>
      Response(RunningCall(p, answer), convert) == EvacuationBody(convert(answer.err), answer.keepContainer)
  {
  }

  /**
   * Running, parsed, controller failing with a "do not keep" answer: the flag
   * follows the controller, it does not fall back to keep.
   */
  lemma RunningControllerFailureFollowsDecision(p: ParseResult<EvacuateRunningActualLRPRequest>, answer: Decision,
                                                convert: ErrorConverter)
    requires p.Parsed? && answer.err.Some? && !answer.keepContainer
    ensures Response(RunningCall(p, answer), convert) == EvacuationBody(convert(answer.err), false)
  {
  }

  /** Crashed never sets the flag: it stays at its zero value, false, on every path. */
  lemma CrashedNeverKeepsContainer(p: ParseResult<EvacuateCrashedActualLRPRequest>, answer: Option<GoError>,
                                   convert: ErrorConverter)
    ensures Response(CrashedCall(p, answer), convert)
         == EvacuationBody(convert(if p.ParseFailed? then Some(p.err) else answer), false)
  {
  }

  /** Stopped never sets the flag: it stays at its zero value, false, on every path. */
  lemma StoppedNeverKeepsContainer(p: ParseResult<EvacuateStoppedActualLRPRequest>, answer: Option<GoError>,
                                   convert: ErrorConverter)
    ensures Response(StoppedCall(p, answer), convert)
         == EvacuationBody(convert(if p.ParseFailed? then Some(p.err) else answer), false)
  {
  }

  /** RemoveEvacuating's response has no flag at all. */
  lemma RemoveEvacuatingHasNoKeepFlag(p: ParseResult<RemoveEvacuatingActualLRPRequest>, answer: Option<GoError>,
                                      convert: ErrorConverter)
    ensures Response(RemoveEvacuatingCall(p, answer), convert)
         == RemoveEvacuatingBody(convert(if p.ParseFailed? then Some(p.err) else answer))
  {
  }

  /**
   * On every path the response is written exactly once, then the
   * unrecoverable check runs exactly once on the response's final error; the
   * write comes first and the check is the last effect.
   */
  lemma WritesOnceThenChecksOnce(controller: ControllerRef, exitChan: ExitChan, c: Call, convert: ErrorConverter)
    ensures var t := HandlerTrace(controller, exitChan, c, convert);
      && |t| >= 2
      && WrittenBodies(t) == [Response(c, convert)]
      && EscalationChecks(t) == [Response(c, convert).error]
      && t[|t| - 2] == Written(Response(c, convert))
      && t[|t| - 1] == EscalationChecked(exitChan, Response(c, convert).error)
  {
    HandlerTraceObservations(controller, exitChan, c, convert);
  }

  /** One request sends one shutdown signal when its final error is unrecoverable, and none otherwise. */
  lemma SignalsOnlyWhenUnrecoverable(controller: ControllerRef, exitChan: ExitChan, c: Call, convert: ErrorConverter,
                                     isUnrecoverable: Option<ModelError> -> bool)
    ensures Signals(HandlerTrace(controller, exitChan, c, convert), isUnrecoverable)
         == if isUnrecoverable(Response(c, convert).error) then 1 else 0
  {
    HandlerTraceObservations(controller, exitChan, c, convert);
    var errors := [Response(c, convert).error];
    assert errors[1..] == [];
    assert CountUnrecoverable(errors, isUnrecoverable)
        == (if isUnrecoverable(errors[0]) then 1 else 0) + CountUnrecoverable(errors[1..], isUnrecoverable);
  }

  /**
   * Requests served one after another do not affect each other: the i-th
   * response written is the one the i-th request alone determines.
   */
  lemma {:induction false} ServeAllResponses(controller: ControllerRef, exitChan: ExitChan, calls: seq<Call>,
                                             convert: ErrorConverter)
    ensures |WrittenBodies(ServeAll(controller, exitChan, calls, convert))| == |calls|
    ensures forall i :: 0 <= i < |calls| ==>
      WrittenBodies(ServeAll(controller, exitChan, calls, convert))[i] == Response(calls[i], convert)
  {
    if calls != [] {
      var head := HandlerTrace(controller, exitChan, calls[0], convert);
      var rest := ServeAll(controller, exitChan, calls[1..], convert);
      HandlerTraceObservations(controller, exitChan, calls[0], convert);
      WrittenBodiesAppend(head, rest);
      ServeAllResponses(controller, exitChan, calls[1..], convert);
      forall i | 0 < i < |calls|
        ensures WrittenBodies(ServeAll(controller, exitChan, calls, convert))[i] == Response(calls[i], convert)
      {
        assert calls[1..][i - 1] == calls[i];
      }
    }
  }

  /** Requests served one after another: the unrecoverable check runs once per request, on its own response's error. */
  lemma {:induction false} ServeAllEscalationChecks(controller: ControllerRef, exitChan: ExitChan, calls: seq<Call>,
                                                    convert: ErrorConverter)
    ensures EscalationChecks(ServeAll(controller, exitChan, calls, convert)) == ResponseErrors(calls, convert)
  {
    if calls != [] {
      var head := HandlerTrace(controller, exitChan, calls[0], convert);
      var rest := ServeAll(controller, exitChan, calls[1..], convert);
      HandlerTraceObservations(controller, exitChan, calls[0], convert);
      EscalationChecksAppend(head, rest);
      ServeAllEscalationChecks(controller, exitChan, calls[1..], convert);
    }
  }

  /** N requests that all end in an unrecoverable error send exactly N shutdown signals. */
  lemma AllUnrecoverableSignalEach(controller: ControllerRef, exitChan: ExitChan, calls: seq<Call>,
                                   convert: ErrorConverter, isUnrecoverable: Option<ModelError> -> bool)
    requires forall i :: 0 <= i < |calls| ==> isUnrecoverable(Response(calls[i], convert).error)
    ensures Signals(ServeAll(controller, exitChan, calls, convert), isUnrecoverable) == |calls|
  {
    ServeAllEscalationChecks(controller, exitChan, calls, convert);
    CountAllUnrecoverable(ResponseErrors(calls, convert), isUnrecoverable);
  }

  /** Requests none of which ends in an unrecoverable error send no shutdown signal. */
  lemma {:induction false} RecoverableErrorsSignalNothing(controller: ControllerRef, exitChan: ExitChan,
                                                          calls: seq<Call>, convert: ErrorConverter,
                                                          isUnrecoverable: Option<ModelError> -> bool)
    requires forall i :: 0 <= i < |calls| ==> !isUnrecoverable(Response(calls[i], convert).error)
    ensures Signals(ServeAll(controller, exitChan, calls, convert), isUnrecoverable) == 0
  {
    if calls != [] {
      var head := HandlerTrace(controller, exitChan, calls[0], convert);
      var rest := ServeAll(controller, exitChan, calls[1..], convert);
      HandlerTraceObservations(controller, exitChan, calls[0], convert);
      SignalsOnlyWhenUnrecoverable(controller, exitChan, calls[0], convert, isUnrecoverable);
      EscalationChecksAppend(head, rest);
      CountUnrecoverableAppend(EscalationChecks(head), EscalationChecks(rest), isUnrecoverable);
      RecoverableErrorsSignalNothing(controller, exitChan, calls[1..], convert, isUnrecoverable);
    }
  }

  /**
   * The same valid RemoveEvacuating request sent twice, the controller
   * answering `first` and then `second`: the controller is called twice with
   * the same keys, and the two responses differ only as the two answers do.
   */
  lemma RepeatedRemoveEvacuating(controller: ControllerRef, exitChan: ExitChan,
                                 request: RemoveEvacuatingActualLRPRequest, first: Option<GoError>,
                                 second: Option<GoError>, convert: ErrorConverter)
    ensures var t := ServeAll(controller, exitChan, [RemoveEvacuatingCall(Parsed(request), first),
                                                     RemoveEvacuatingCall(Parsed(request), second)], convert);
      && ControllerCalls(t) == [(controller, RemoveEvacuatingArgs(request.actualLrpKey, request.actualLrpInstanceKey)),
                                (controller, RemoveEvacuatingArgs(request.actualLrpKey, request.actualLrpInstanceKey))]
      && WrittenBodies(t) == [RemoveEvacuatingBody(convert(first)), RemoveEvacuatingBody(convert(second))]
  {
    var c1 := RemoveEvacuatingCall(Parsed(request), first);
    var c2 := RemoveEvacuatingCall(Parsed(request), second);
    var calls := [c1, c2];
    var t1 := HandlerTrace(controller, exitChan, c1, convert);
    var t2 := HandlerTrace(controller, exitChan, c2, convert);
    assert calls[1..] == [c2];
    assert [c2][1..] == [];
    assert ServeAll(controller, exitChan, [c2], convert) == t2 + [];
    assert t2 + [] == t2;
    assert ServeAll(controller, exitChan, calls, convert) == t1 + t2;
    HandlerTraceObservations(controller, exitChan, c1, convert);
    HandlerTraceObservations(controller, exitChan, c2, convert);
    ControllerCallsAppend(t1, t2);
    WrittenBodiesAppend(t1, t2);
  }
}
