/** The responses the request handlers give, stripped of rendering. */
module Outcomes {

  datatype Option<+T> = None | Some(value: T)

  /** The ways a handler stops short of its normal redirect. */
  datatype Error =
    | NotFound       // db.get_or_404 found no row: HTTP 404
    | LoginRequired  // @login_required refused an anonymous visitor (HTTP 401; no login_view is configured)
    | EmailTaken     // register: "You've already signed up with that email"
    | UnknownEmail   // login: "That email does not exist"
    | WrongPassword  // login: "Password incorrect"
    | BadToken       // jwt.decode refused the signed token
    | ServerError    // an unhandled exception ended the request: HTTP 500

  /** A handler's response when its redirect names a list to show next. */
  datatype Result<+T> = Success(value: T) | Failure(error: Error)

  /** A handler's response when its redirect carries nothing the model tracks. */
  datatype Status = Done | Failed(error: Error)
}
