/**
 * The observable effects of one handler invocation, recorded in the order
 * they happen: the controller call, the response write and the
 * unrecoverable-error check. Also Go's `defer` stack, which fixes the order
 * of the last two.
 */
module Effects {
  import opened Models

  /** The handler's `*controllers.EvacuationController`, compared by identity only. */
  type ControllerRef
  /** The handler's `exitChan chan<- struct{}`, compared by identity only. */
  type ExitChan

  /** The arguments of one controller call, one shape per evacuation operation. */
  datatype ControllerArgs =
    | RemoveEvacuatingArgs(actualLrpKey: ActualLRPKey, actualLrpInstanceKey: ActualLRPInstanceKey)
    | EvacuateClaimedArgs(actualLrpKey: ActualLRPKey, actualLrpInstanceKey: ActualLRPInstanceKey)
    | EvacuateCrashedArgs(actualLrpKey: ActualLRPKey, actualLrpInstanceKey: ActualLRPInstanceKey,
                          errorMessage: string)
    | EvacuateRunningArgs(actualLrpKey: ActualLRPKey, actualLrpInstanceKey: ActualLRPInstanceKey,
                          actualLrpNetInfo: ActualLRPNetInfo)
    | EvacuateStoppedArgs(actualLrpKey: ActualLRPKey, actualLrpInstanceKey: ActualLRPInstanceKey)

  datatype Effect =
    | ControllerCalled(controller: ControllerRef, args: ControllerArgs)
    | Written(body: ResponseBody)
    /** `exitIfUnrecoverable(logger, exitChan, err)`: sends on `exitChan` when `err` is unrecoverable. */
    | EscalationChecked(exitChan: ExitChan, error: Option<ModelError>)

  /** A call registered with `defer`. Both capture the response object, not its fields. */
  datatype Deferred = DeferExitIfUnrecoverable | DeferWriteResponse

  /** The effect of running one deferred call on the response as it is at function exit. */
  function Perform(d: Deferred, body: ResponseBody, exitChan: ExitChan): Effect
  {
    match d
    case DeferWriteResponse => Written(body)
    case DeferExitIfUnrecoverable => EscalationChecked(exitChan, body.error)
  }

  /**
   * Runs a function's deferred calls at exit: the one registered last runs
   * first, each exactly once.
   */
  function Unwind(stack: seq<Deferred>, body: ResponseBody, exitChan: ExitChan): (r: seq<Effect>)
    ensures |r| == |stack|
    ensures forall k :: 0 <= k < |stack| ==> r[k] == Perform(stack[|stack| - 1 - k], body, exitChan)
  {
    if stack == [] then []
    else [Perform(stack[|stack| - 1], body, exitChan)] + Unwind(stack[..|stack| - 1], body, exitChan)
  }

  /** The controller calls in a trace, in order: which controller was called, and with what. */
  function ControllerCalls(t: seq<Effect>): seq<(ControllerRef, ControllerArgs)>
  {
    if t == [] then []
    else (if t[0].ControllerCalled? then [(t[0].controller, t[0].args)] else []) + ControllerCalls(t[1..])
  }

  /** The responses written in a trace, in order. */
  function WrittenBodies(t: seq<Effect>): seq<ResponseBody>
  {
    if t == [] then []
    else (if t[0].Written? then [t[0].body] else []) + WrittenBodies(t[1..])
  }

  /** The errors the unrecoverable check was run on in a trace, in order. */
  function EscalationChecks(t: seq<Effect>): seq<Option<ModelError>>
  {
    if t == [] then []
    else (if t[0].EscalationChecked? then [t[0].error] else []) + EscalationChecks(t[1..])
  }

  /** How many of `errors` the unrecoverable test accepts. */
  function CountUnrecoverable(errors: seq<Option<ModelError>>, isUnrecoverable: Option<ModelError> -> bool): nat
  {
    if errors == [] then 0
    else (if isUnrecoverable(errors[0]) then 1 else 0) + CountUnrecoverable(errors[1..], isUnrecoverable)
  }

  /** The shutdown signals a trace sends on the exit channel. */
  function Signals(t: seq<Effect>, isUnrecoverable: Option<ModelError> -> bool): nat
  {
    CountUnrecoverable(EscalationChecks(t), isUnrecoverable)
  }

  lemma {:induction false} ControllerCallsAppend(a: seq<Effect>, b: seq<Effect>)
    ensures ControllerCalls(a + b) == ControllerCalls(a) + ControllerCalls(b)
  {
    if a != [] {
      assert (a + b)[1..] == a[1..] + b;
      ControllerCallsAppend(a[1..], b);
    } else {
      assert a + b == b;
    }
  }

  lemma {:induction false} WrittenBodiesAppend(a: seq<Effect>, b: seq<Effect>)
    ensures WrittenBodies(a + b) == WrittenBodies(a) + WrittenBodies(b)
  {
    if a != [] {
      assert (a + b)[1..] == a[1..] + b;
      WrittenBodiesAppend(a[1..], b);
    } else {
      assert a + b == b;
    }
  }

  lemma {:induction false} EscalationChecksAppend(a: seq<Effect>, b: seq<Effect>)
    ensures EscalationChecks(a + b) == EscalationChecks(a) + EscalationChecks(b)
  {
    if a != [] {
      assert (a + b)[1..] == a[1..] + b;
      EscalationChecksAppend(a[1..], b);
    } else {
      assert a + b == b;
    }
  }

  lemma {:induction false} CountUnrecoverableAppend(a: seq<Option<ModelError>>, b: seq<Option<ModelError>>,
                                                    isUnrecoverable: Option<ModelError> -> bool)
    ensures CountUnrecoverable(a + b, isUnrecoverable)
         == CountUnrecoverable(a, isUnrecoverable) + CountUnrecoverable(b, isUnrecoverable)
  {
    if a != [] {
      assert (a + b)[1..] == a[1..] + b;
      CountUnrecoverableAppend(a[1..], b, isUnrecoverable);
    } else {
      assert a + b == b;
    }
  }

  /** Every error accepted by the test: one signal per error, none lost, none duplicated. */
  lemma {:induction false} CountAllUnrecoverable(errors: seq<Option<ModelError>>,
                                                 isUnrecoverable: Option<ModelError> -> bool)
    requires forall i :: 0 <= i < |errors| ==> isUnrecoverable(errors[i])
    ensures CountUnrecoverable(errors, isUnrecoverable) == |errors|
  {
    if errors != [] {
      CountAllUnrecoverable(errors[1..], isUnrecoverable);
    }
  }
}
