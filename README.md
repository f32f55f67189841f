# Evacuation handlers of the bulletin-board system

This project models the evacuation handlers of the BBS (the bulletin-board
system that tracks actual LRPs, the running instances of long-running
processes). A cell that drains evacuates each instance it hosts by calling
one of five handlers: `RemoveEvacuatingActualLRP`, `EvacuateClaimedActualLRP`,
`EvacuateCrashedActualLRP`, `EvacuateRunningActualLRP` and
`EvacuateStoppedActualLRP`.

Every handler runs the same pipeline. It parses the request. It calls the
evacuation controller once if parsing succeeded, and skips it otherwise. It
fills the response with the converted error and, for four of the five, the
`KeepContainer` flag. At exit, Go's `defer` stack runs last-registered first,
so the response is written and then the unrecoverable-error check runs on the
response's final error. This happens exactly once each, on every path on
which the handler returns.

The retention flag follows an irregular per-endpoint policy:

| endpoint | preset | on parse failure | after the controller call |
|---|---|---|---|
| RemoveEvacuating | no flag | no flag | no flag |
| Claimed | false | true | the controller's answer |
| Crashed | false | false | false |
| Running | true | true | the controller's answer, false included |
| Stopped | false | false | false |

Modules:

- `Models` (models.dfy): request records, the parse outcome, and the two
  response objects, which are classes because the handlers set their fields
  one at a time. Keys, network info and error values are opaque types.
- `Effects` (effects.dfy): the effect trace (`ControllerCalled`, `Written`,
  `EscalationChecked`), Go's defer stack and its last-first `Unwind`, and
  observers over traces.
- `EvacuationSpec` (evacuation_spec.dfy): the reference definition. It holds
  the retention table above, the response for one request (`Response`), its
  trace (`HandlerTrace`), and requests served one after another (`ServeAll`).
- `Handlers` (evacuation_handler.dfy): the class `EvacuationHandler`. Its five
  methods are written the way the Go code is: a fresh response object set field
  by field, a defer stack, and a match on the parse outcome. Each is proved to
  produce exactly `HandlerTrace`. The methods have no `modifies` clause. So the
  handler's `controller` and `exitChan` fields, and every object that existed
  before the call, are unchanged by construction.
- `EvacuationProperties` (evacuation_properties.dfy): the promised properties,
  proved about the reference definition.

Abstract inputs, all passed in as parameters:

- the parse outcome (`ParseResult`: a request, or the Go error);
- what the controller answers when it is called (an error, or an error and a
  keep decision);
- `models.ConvertError`, as a function `ErrorConverter`; it is not assumed to
  map nil to nil;
- the "is unrecoverable" test on the final error, as a function.

Details of the code that the model keeps:

- Order of effects: each handler registers the unrecoverable check first and
  the write second, so at exit the write runs first
  (handlers/evacuation_handler.go:51-52).
- Running assigns the controller's boolean even when the controller returns
  an error, so the preset `true` does not survive a call (line 127;
  `RunningControllerFailureFollowsDecision`).
- The `EvacuationController` interface at handlers/evacuation_handler.go:13-19
  declares `(error, bool)` for Crashed and Stopped. The handler actually calls
  the concrete controller, which returns a single error for these two. The
  model follows the call sites.

## Model

| member | source | states |
|---|---|---|
| `Handlers.EvacuationHandler.constructor` | handlers/evacuation_handler.go:26-34 | the handler stores exactly the controller and exit channel it is given |
| `Handlers.EvacuationHandler.RemoveEvacuatingActualLRP` | handlers/evacuation_handler.go:42-62 | the effects are exactly `HandlerTrace` for the request: a controller call with the parsed keys only when parsing succeeded, then one write of a flag-less response carrying the converted parse or controller error, then one check on that error; no field of the handler changes |
| `Handlers.EvacuationHandler.EvacuateClaimedActualLRP` | handlers/evacuation_handler.go:64-85 | the effects are exactly `HandlerTrace`: on parse failure no controller call and KeepContainer true; otherwise one call and the controller's error and keep decision; then write, then check |
| `Handlers.EvacuationHandler.EvacuateCrashedActualLRP` | handlers/evacuation_handler.go:87-106 | the effects are exactly `HandlerTrace`: the controller is called with the keys and the crash message only after a successful parse; KeepContainer stays false; then write, then check |
| `Handlers.EvacuationHandler.EvacuateRunningActualLRP` | handlers/evacuation_handler.go:108-128 | the effects are exactly `HandlerTrace`: KeepContainer preset true and kept on parse failure; after a call it is the controller's answer; the call carries the keys and the net info; then write, then check |
| `Handlers.EvacuationHandler.EvacuateStoppedActualLRP` | handlers/evacuation_handler.go:130-148 | the effects are exactly `HandlerTrace`: a controller call with the keys only after a successful parse; KeepContainer stays false; then write, then check |
| `Effects.Unwind` | handlers/evacuation_handler.go:51-52 | deferred calls run exactly once each, the one registered last first: the k-th effect at exit comes from the (n-1-k)-th registered call |
| `EvacuationProperties.HandlerTraceObservations` | handlers/evacuation_handler.go:42-148 | a one-request trace holds the controller invocation if there is one, exactly one written response, and exactly one check on that response's error |
| `EvacuationProperties.ParseFailureSkipsController` | handlers/evacuation_handler.go:54-58 | for all five endpoints, when parsing fails the controller is never called and the response error is the converted parse error |
| `EvacuationProperties.ParsedRequestReachesController` | handlers/evacuation_handler.go:42-148 | for all five endpoints, when parsing succeeds the handler's own controller is called exactly once, with the parsed keys plus the crash message for Crashed and the net info for Running; the response error is the converted controller error |
| `EvacuationProperties.ClaimedKeepsContainerOnParseFailure` | handlers/evacuation_handler.go:74-80 | Claimed with a parse failure answers KeepContainer true and the converted parse error |
| `EvacuationProperties.ClaimedAdoptsControllerDecision` | handlers/evacuation_handler.go:82-84 | Claimed after a successful parse answers exactly the controller's keep decision and its converted error |
| `EvacuationProperties.RunningKeepsContainerUntilControllerDecides` | handlers/evacuation_handler.go:113-127 | Running answers KeepContainer true on parse failure, and exactly the controller's decision, false included, after a call |
| `EvacuationProperties.RunningControllerFailureFollowsDecision` | handlers/evacuation_handler.go:125-127 | Running with a failing controller that says "do not keep" answers KeepContainer false; the preset does not survive the call |
| `EvacuationProperties.CrashedNeverKeepsContainer` | handlers/evacuation_handler.go:92-106 | Crashed answers KeepContainer false on every path |
| `EvacuationProperties.StoppedNeverKeepsContainer` | handlers/evacuation_handler.go:133-148 | Stopped answers KeepContainer false on every path |
| `EvacuationProperties.RemoveEvacuatingHasNoKeepFlag` | handlers/evacuation_handler.go:48-61 | RemoveEvacuating's response has no retention flag, only the converted error |
| `EvacuationProperties.WritesOnceThenChecksOnce` | handlers/evacuation_handler.go:51-52 | on every path the response is written exactly once and checked exactly once; the write is the second-to-last effect and the check of the final error is the last |
| `EvacuationProperties.SignalsOnlyWhenUnrecoverable` | handlers/evacuation_handler.go:51 | one request sends one shutdown signal if its final error is unrecoverable and none otherwise |
| `EvacuationProperties.ServeAllResponses` | handlers/evacuation_handler.go:42-148 | over any sequence of requests, the i-th written response is the one request i alone determines |
| `EvacuationProperties.ServeAllEscalationChecks` | handlers/evacuation_handler.go:42-148 | over any sequence of requests, the checks run once per request, in order, each on its own response's error |
| `EvacuationProperties.AllUnrecoverableSignalEach` | handlers/evacuation_handler.go:42-148 | N requests that all end in an unrecoverable error send exactly N shutdown signals |
| `EvacuationProperties.RecoverableErrorsSignalNothing` | handlers/evacuation_handler.go:42-148 | requests none of which ends in an unrecoverable error send no shutdown signal |
| `EvacuationProperties.RepeatedRemoveEvacuating` | handlers/evacuation_handler.go:42-62 | the same valid RemoveEvacuating request sent twice calls the handler's controller twice with the same keys; the two responses differ only as the controller's two answers do |

## Left out

- HTTP plumbing: the `http.ResponseWriter`, the `*http.Request`, and the internals of `writeResponse` and `parseRequest` (unmarshal and `Validate`). Parsing is an abstract outcome, and a write is a trace event carrying the response body.
- `models.ConvertError` and the error taxonomy: an uninterpreted function parameter.
- `exitIfUnrecoverable`: its test is an abstract predicate and the send on `exitChan` is counted from the trace. Channel blocking and buffering are not modelled.
- Logging through `lager` (sessions, `started`/`completed`, error logs): output only.
- The `EvacuationController` interface and its counterfeiter directive (handlers/evacuation_handler.go:12-19): the handler does not use them.
- The controller's business logic (state-store transitions) is not part of this model. Its answer is a parameter of each call.
- Concurrency: concurrent requests are modelled one after another (`ServeAll`). Each request only touches its own freshly allocated response, so interleaving does not change any response.
- Panics in `parseRequest` or the controller: Go still runs both deferred calls on the partly filled response (for Running, error nil and KeepContainer true from the preset); not modelled, every modelled path returns normally.
- `MessageValidator` (handlers/evacuation_handler.go:36-40) is part of the parsing contract and is not modelled.
