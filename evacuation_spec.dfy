/**
 * The evacuation protocol as a reference definition, independent of how the
 * handlers are written: what a request leads to, given how parsing turned out
 * and what the controller answers.
 *
 * Each request runs the same pipeline: parse; on success call the controller
 * once; fill the response with the converted error and, per the retention
 * table below, the KeepContainer flag; write the response; then run the
 * unrecoverable-error check on the response's final error.
 */
module EvacuationSpec {
  import opened Models
  import opened Effects

  datatype Endpoint =
    | RemoveEvacuating
    | EvacuateClaimed
    | EvacuateCrashed
    | EvacuateRunning
    | EvacuateStopped

  /** The answer of a controller operation that also decides on the container: `(error, keepContainer)`. */
  datatype Decision = Decision(err: Option<GoError>, keepContainer: bool)

  /**
   * One request as a handler sees it: the outcome of parsing, and what the
   * controller answers if it is called. The answer is ignored when parsing
   * failed.
   */
  datatype Call =
    | RemoveEvacuatingCall(removeParse: ParseResult<RemoveEvacuatingActualLRPRequest>, removeAnswer: Option<GoError>)
    | ClaimedCall(claimedParse: ParseResult<EvacuateClaimedActualLRPRequest>, claimedAnswer: Decision)
    | CrashedCall(crashedParse: ParseResult<EvacuateCrashedActualLRPRequest>, crashedAnswer: Option<GoError>)
    | RunningCall(runningParse: ParseResult<EvacuateRunningActualLRPRequest>, runningAnswer: Decision)
    | StoppedCall(stoppedParse: ParseResult<EvacuateStoppedActualLRPRequest>, stoppedAnswer: Option<GoError>)

  function EndpointOf(c: Call): Endpoint
  {
    match c
    case RemoveEvacuatingCall(_, _) => RemoveEvacuating
    case ClaimedCall(_, _) => EvacuateClaimed
    case CrashedCall(_, _) => EvacuateCrashed
    case RunningCall(_, _) => EvacuateRunning
    case StoppedCall(_, _) => EvacuateStopped
  }

  function FailureOf<R>(p: ParseResult<R>): Option<GoError>
  {
    match p
    case ParseFailed(err) => Some(err)
    case Parsed(_) => None
  }

  /** The parse error of a request, `None` when it parsed. */
  function ParseFailure(c: Call): Option<GoError>
  {
    match c
    case RemoveEvacuatingCall(p, _) => FailureOf(p)
    case ClaimedCall(p, _) => FailureOf(p)
    case CrashedCall(p, _) => FailureOf(p)
    case RunningCall(p, _) => FailureOf(p)
    case StoppedCall(p, _) => FailureOf(p)
  }

  /** The arguments the controller receives: the parsed keys, plus the extra field Crashed and Running carry. */
  function ControllerInvocation(c: Call): Option<ControllerArgs>
  {
    match c
    case RemoveEvacuatingCall(Parsed(r), _) => Some(RemoveEvacuatingArgs(r.actualLrpKey, r.actualLrpInstanceKey))
    case ClaimedCall(Parsed(r), _) => Some(EvacuateClaimedArgs(r.actualLrpKey, r.actualLrpInstanceKey))
    case CrashedCall(Parsed(r), _) =>
      Some(EvacuateCrashedArgs(r.actualLrpKey, r.actualLrpInstanceKey, r.errorMessage))
    case RunningCall(Parsed(r), _) =>
      Some(EvacuateRunningArgs(r.actualLrpKey, r.actualLrpInstanceKey, r.actualLrpNetInfo))
    case StoppedCall(Parsed(r), _) => Some(EvacuateStoppedArgs(r.actualLrpKey, r.actualLrpInstanceKey))
    case _ => None
  }

  /** The error the controller returns when it is called. */
  function ControllerError(c: Call): Option<GoError>
  {
    match c
    case RemoveEvacuatingCall(_, e) => e
    case ClaimedCall(_, d) => d.err
    case CrashedCall(_, e) => e
    case RunningCall(_, d) => d.err
    case StoppedCall(_, e) => e
  }

  /** The Go error the response's error field is converted from: the parse error, else the controller's. */
  function FinalGoError(c: Call): Option<GoError>
  {
    if ParseFailure(c).Some? then ParseFailure(c) else ControllerError(c)
  }

  // The retention table. The policy is deliberately irregular, so it is
  // stated per endpoint rather than derived from one rule.

  /** Whether the endpoint's response carries a KeepContainer flag at all. */
  predicate HasKeepFlag(e: Endpoint)
  {
    e != RemoveEvacuating
  }

  /** The flag's value before parsing: Running presets it to keep. */
  predicate PresetKeep(e: Endpoint)
  {
    e == EvacuateRunning
  }

  /** The flag's value when parsing failed: Claimed forces keep, the others leave the preset. */
  predicate KeepAfterParseFailure(e: Endpoint)
  {
    e == EvacuateClaimed || PresetKeep(e)
  }

  /** Whether the controller's own keep decision replaces the flag after a call. */
  predicate AdoptsControllerDecision(e: Endpoint)
  {
    e == EvacuateClaimed || e == EvacuateRunning
  }

  /** The flag in the response, read off the retention table. */
  predicate KeepContainer(c: Call)
  {
    var e := EndpointOf(c);
    if ParseFailure(c).Some? then KeepAfterParseFailure(e)
    else if AdoptsControllerDecision(e) then
      (match c
       case ClaimedCall(_, d) => d.keepContainer
       case RunningCall(_, d) => d.keepContainer
       case _ => PresetKeep(e))
    else PresetKeep(e)
  }

  /** The response the handler writes for a request. */
  function Response(c: Call, convert: ErrorConverter): ResponseBody
  {
    var error := convert(FinalGoError(c));
    if HasKeepFlag(EndpointOf(c)) then EvacuationBody(error, KeepContainer(c))
    else RemoveEvacuatingBody(error)
  }

  /**
   * The effects of handling one request: the controller call when parsing
   * succeeded, then the response write, then the unrecoverable check on the
   * response's error.
   */
  function HandlerTrace(controller: ControllerRef, exitChan: ExitChan, c: Call, convert: ErrorConverter): seq<Effect>
  {
    var body := Response(c, convert);
    (match ControllerInvocation(c)
     case Some(args) => [ControllerCalled(controller, args)]
     case None => [])
    + [Written(body), EscalationChecked(exitChan, body.error)]
  }

  /** The effects of one handler serving several requests, one after the other. */
  function ServeAll(controller: ControllerRef, exitChan: ExitChan, calls: seq<Call>, convert: ErrorConverter): seq<Effect>
  {
    if calls == [] then []
    else HandlerTrace(controller, exitChan, calls[0], convert) + ServeAll(controller, exitChan, calls[1..], convert)
  }

  /** The error field of each request's response, in request order. */
  function ResponseErrors(calls: seq<Call>, convert: ErrorConverter): (errors: seq<Option<ModelError>>)
    ensures |errors| == |calls|
    ensures forall i :: 0 <= i < |calls| ==> errors[i] == Response(calls[i], convert).error
  {
    if calls == [] then [] else [Response(calls[0], convert).error] + ResponseErrors(calls[1..], convert)
  }
}
