/** Results shared by every handler: the failure kinds the server answers with,
    each carrying the HTTP status code the handler sends. */
module Outcomes {

  datatype Option<+T> = None | Some(value: T)

  /** One message a validator pushes onto its error list. */
  datatype Problem =
    // registration and login bodies
    | UserNameTooShort | EmailInvalid | PasswordTooShort | PasswordRequired
    // route creation body
    | RouteNameTooShort | BusNumberRequired | CapacityNotPositive
    // point creation body
    | PointNameTooShort | LatitudeOutOfRange | LongitudeOutOfRange
    // route status body
    | PassengersInvalid | ActiveNotBoolean | PointIndexInvalid

  datatype Error =
    // authentication and authorization middleware
    | TokenRequired | InvalidToken | UserNotFoundOrInactive | AuthenticationRequired
    | AdminOnly | DriverOnly | RouteIdRequired | NotRouteOwner
    // input validation middleware
    | InvalidData(problems: seq<Problem>) | AdminKeyRequired | InvalidAdminKey
    // route handlers
    | RouteNotFound | BusNotFound | BusNumberInUse | DriverNotFound | NotADriver | CapacityExceeded
    // point handlers
    | PointNotFound | AlreadyOnRoute | OrderInUse | LinkNotFound
    // account handlers
    | EmailInUse | InvalidCredentials | AccountDisabled | UserNotFound
    // a write the record constraints or indexes refuse; the handler's catch answers 500
    | RecordRejected
  {
    /** The HTTP status sent with this failure. */
    function Code(): int {
      match this
      case TokenRequired | InvalidToken | UserNotFoundOrInactive | AuthenticationRequired => 401
      case InvalidCredentials | AccountDisabled => 401
      case AdminOnly | DriverOnly | NotRouteOwner | InvalidAdminKey => 403
      case RouteIdRequired | InvalidData(_) | AdminKeyRequired => 400
      case BusNumberInUse | NotADriver | CapacityExceeded | AlreadyOnRoute | OrderInUse | EmailInUse => 400
      case RouteNotFound | BusNotFound | DriverNotFound | PointNotFound | LinkNotFound | UserNotFound => 404
      case RecordRejected => 500
    }
  }

  /** The result of a handler: the record it answers with, or a failure. */
  datatype Outcome<+T> = Ok(value: T) | Err(error: Error)

  /** The result of a middleware: pass the request on (`next()`) or answer with a failure. */
  datatype Step = Next | Reject(error: Error)
}
