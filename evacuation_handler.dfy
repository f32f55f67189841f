/**
 * `EvacuationHandler`: the five HTTP handlers a cell calls while it drains.
 *
 * Each handler allocates its own response object, registers two deferred
 * calls (the unrecoverable check, then the response write), parses the
 * request, calls the controller only when parsing succeeded, and fills the
 * response field by field. At exit the deferred calls run last-registered
 * first, on every path.
 *
 * The methods have no `modifies` clause: a handler changes none of its own
 * fields and nothing that existed before the call. Each returns the effects
 * it produced, and its postcondition ties them to the reference definition
 * `EvacuationSpec.HandlerTrace`.
 */
module Handlers {
  import opened Models
  import opened Effects
  import opened EvacuationSpec

  class EvacuationHandler {
    var controller: ControllerRef
    var exitChan: ExitChan

    /** `NewEvacuationHandler`. */
    constructor (controller: ControllerRef, exitChan: ExitChan)
      ensures this.controller == controller && this.exitChan == exitChan
    {
      this.controller := controller;
      this.exitChan := exitChan;
    }

    method RemoveEvacuatingActualLRP(parsed: ParseResult<RemoveEvacuatingActualLRPRequest>,
                                     answer: Option<GoError>, convert: ErrorConverter)
      returns (effects: seq<Effect>)
      ensures effects == HandlerTrace(controller, exitChan, RemoveEvacuatingCall(parsed, answer), convert)
    {
      effects := [];
      var response := new RemoveEvacuatingActualLRPResponse();
      var deferred: seq<Deferred> := [];
      deferred := deferred + [DeferExitIfUnrecoverable];
      deferred := deferred + [DeferWriteResponse];

      match parsed {
        case ParseFailed(err) =>
          response.error := convert(Some(err));
        case Parsed(request) =>
          effects := effects + [ControllerCalled(controller, RemoveEvacuatingArgs(request.actualLrpKey,
                                                                                 request.actualLrpInstanceKey))];
          response.error := convert(answer);
      }

      effects := effects + Unwind(deferred, response.Body(), exitChan);
    }

    method EvacuateClaimedActualLRP(parsed: ParseResult<EvacuateClaimedActualLRPRequest>,
                                    answer: Decision, convert: ErrorConverter)
      returns (effects: seq<Effect>)
      ensures effects == HandlerTrace(controller, exitChan, ClaimedCall(parsed, answer), convert)
    {
      effects := [];
      var response := new EvacuationResponse();
      var deferred: seq<Deferred> := [];
      deferred := deferred + [DeferExitIfUnrecoverable];
      deferred := deferred + [DeferWriteResponse];

      match parsed {
        case ParseFailed(err) =>
          response.error := convert(Some(err));
          response.keepContainer := true;
        case Parsed(request) =>
          effects := effects + [ControllerCalled(controller, EvacuateClaimedArgs(request.actualLrpKey,
                                                                                request.actualLrpInstanceKey))];
          response.error := convert(answer.err);
          response.keepContainer := answer.keepContainer;
      }

      effects := effects + Unwind(deferred, response.Body(), exitChan);
    }

    method EvacuateCrashedActualLRP(parsed: ParseResult<EvacuateCrashedActualLRPRequest>,
                                    answer: Option<GoError>, convert: ErrorConverter)
      returns (effects: seq<Effect>)
      ensures effects == HandlerTrace(controller, exitChan, CrashedCall(parsed, answer), convert)
    {
      effects := [];
      var response := new EvacuationResponse();
      var deferred: seq<Deferred> := [];
      deferred := deferred + [DeferExitIfUnrecoverable];
      deferred := deferred + [DeferWriteResponse];

      match parsed {
        case ParseFailed(err) =>
          response.error := convert(Some(err));
        case Parsed(request) =>
          effects := effects + [ControllerCalled(controller, EvacuateCrashedArgs(request.actualLrpKey,
                                                                                request.actualLrpInstanceKey,
                                                                                request.errorMessage))];
          response.error := convert(answer);
      }

      effects := effects + Unwind(deferred, response.Body(), exitChan);
    }

    method EvacuateRunningActualLRP(parsed: ParseResult<EvacuateRunningActualLRPRequest>,
                                    answer: Decision, convert: ErrorConverter)
      returns (effects: seq<Effect>)
      ensures effects == HandlerTrace(controller, exitChan, RunningCall(parsed, answer), convert)
    {
      effects := [];
      var response := new EvacuationResponse();
      response.keepContainer := true;
      var deferred: seq<Deferred> := [];
      deferred := deferred + [DeferExitIfUnrecoverable];
      deferred := deferred + [DeferWriteResponse];

      match parsed {
        case ParseFailed(err) =>
          response.error := convert(Some(err));
        case Parsed(request) =>
          effects := effects + [ControllerCalled(controller, EvacuateRunningArgs(request.actualLrpKey,
                                                                                request.actualLrpInstanceKey,
                                                                                request.actualLrpNetInfo))];
          response.error := convert(answer.err);
          response.keepContainer := answer.keepContainer;
      }

      effects := effects + Unwind(deferred, response.Body(), exitChan);
    }

    method EvacuateStoppedActualLRP(parsed: ParseResult<EvacuateStoppedActualLRPRequest>,
                                    answer: Option<GoError>, convert: ErrorConverter)
      returns (effects: seq<Effect>)
      ensures effects == HandlerTrace(controller, exitChan, StoppedCall(parsed, answer), convert)
    {
      effects := [];
      var response := new EvacuationResponse();
      var deferred: seq<Deferred> := [];
      deferred := deferred + [DeferExitIfUnrecoverable];
      deferred := deferred + [DeferWriteResponse];

      match parsed {
        case ParseFailed(err) =>
          response.error := convert(Some(err));
        case Parsed(request) =>
          effects := effects + [ControllerCalled(controller, EvacuateStoppedArgs(request.actualLrpKey,
                                                                                request.actualLrpInstanceKey))];
          response.error := convert(answer);
      }

      effects := effects + Unwind(deferred, response.Body(), exitChan);
    }
  }
}
