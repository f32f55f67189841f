/**
 * The request and response records the evacuation handlers exchange with
 * their callers, as far as the handlers look into them.
 *
 * Keys, network information and error values are passed through unchanged by
 * the handlers, so they are opaque types here: the model may compare them,
 * nothing more.
 */
module Models {

  /** A value that Go holds in a pointer or interface that may be nil. */
  datatype Option<+T> = None | Some(value: T)

  /** Identifies a logical instance (process GUID and index). */
  type ActualLRPKey
  /** Identifies one incarnation of an instance (instance GUID and cell ID). */
  type ActualLRPInstanceKey
  /** Address and port information of a running instance. */
  type ActualLRPNetInfo
  /** A non-nil Go `error`, as returned by request parsing or by the controller. */
  type GoError
  /** A non-nil classified error (`*models.Error`), the shape a response carries. */
  type ModelError

  /** `models.ConvertError`: turns a Go error, possibly nil, into the response's error field. */
  type ErrorConverter = Option<GoError> -> Option<ModelError>

  datatype RemoveEvacuatingActualLRPRequest =
    RemoveEvacuatingActualLRPRequest(actualLrpKey: ActualLRPKey, actualLrpInstanceKey: ActualLRPInstanceKey)

  datatype EvacuateClaimedActualLRPRequest =
    EvacuateClaimedActualLRPRequest(actualLrpKey: ActualLRPKey, actualLrpInstanceKey: ActualLRPInstanceKey)

  datatype EvacuateCrashedActualLRPRequest =
    EvacuateCrashedActualLRPRequest(actualLrpKey: ActualLRPKey, actualLrpInstanceKey: ActualLRPInstanceKey,
                                    errorMessage: string)

  datatype EvacuateRunningActualLRPRequest =
    EvacuateRunningActualLRPRequest(actualLrpKey: ActualLRPKey, actualLrpInstanceKey: ActualLRPInstanceKey,
                                    actualLrpNetInfo: ActualLRPNetInfo)

  datatype EvacuateStoppedActualLRPRequest =
    EvacuateStoppedActualLRPRequest(actualLrpKey: ActualLRPKey, actualLrpInstanceKey: ActualLRPInstanceKey)

  /**
   * What `parseRequest` (unmarshal, then `Validate`) made of the HTTP request:
   * the decoded request, or the error it returned.
   */
  datatype ParseResult<R> = Parsed(request: R) | ParseFailed(err: GoError)

  /** The contents of a response at the moment it is serialized. */
  datatype ResponseBody =
    | RemoveEvacuatingBody(error: Option<ModelError>)
    | EvacuationBody(error: Option<ModelError>, keepContainer: bool)

  /** `models.RemoveEvacuatingActualLRPResponse`: an error field and no retention flag. */
  class RemoveEvacuatingActualLRPResponse {
    var error: Option<ModelError>

    /** The zero value `&models.RemoveEvacuatingActualLRPResponse{}`. */
    constructor ()
      ensures error == None
    {
      error := None;
    }

    /** What `writeResponse` serializes from this object. */
    function Body(): ResponseBody
      reads this
    {
      RemoveEvacuatingBody(error)
    }
  }

  /** `models.EvacuationResponse`: an error field and the KeepContainer flag. */
  class EvacuationResponse {
    var error: Option<ModelError>
    var keepContainer: bool

    /** The zero value `&models.EvacuationResponse{}`: no error, KeepContainer false. */
    constructor ()
      ensures error == None && !keepContainer
    {
      error := None;
      keepContainer := false;
    }

    /** What `writeResponse` serializes from this object. */
    function Body(): ResponseBody
      reads this
    {
      EvacuationBody(error, keepContainer)
    }
  }
}
