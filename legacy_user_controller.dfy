/**
 * UserController of the earlier version: the decision logic of each action, without
 * logging. An action answers from its own checks or from the service; the service's
 * outcome is a parameter, and `called` says whether (and how) the service was asked.
 */
module LegacyController {
  import opened Wrappers
  import opened Http
  import opened Dates
  import opened Responses
  import opened UserResponseErrors
  import opened UserRequests

  /** The service call an action makes, with its arguments. */
  datatype ServiceCall =
    | RetrieveUserCall(userId: int)
    | CreateUserCall(user: UserRequest)
    | UpdateUserCall(userId: int, user: UserRequest)
    | DeleteUserCall(userId: int)

  /** What an action returns, and the service call it made, if any. */
  datatype Handled = Handled(result: ActionResult<UserResponse>, called: Option<ServiceCall>)

  /** The short answer to a non-positive id. */
  const InvalidIdResult: ActionResult<UserResponse> := StatusCode(InvalidUserId.responseCode.Code(), InvalidUserId)

  /** The catch block: any exception becomes the fixed 500 envelope. */
  const InternalErrorResult: ActionResult<UserResponse> := StatusCode(UserResponseErrors.InternalServerError.responseCode.Code(), UserResponseErrors.InternalServerError)

  /** `return response;` (implicit conversion) for a returned response, the catch block for an exception. */
  function Answer(service: Outcome<UserResponse>): (r: ActionResult<UserResponse>)
    ensures service.Threw? ==> r == InternalErrorResult
    ensures service.Returned? ==> r == Value(service.value) && r.Status() == 200
  {
    match service
    case Threw(_) => InternalErrorResult
    case Returned(response) => Value(response)
  }

  function Details(userId: int, service: Outcome<UserResponse>): (h: Handled)
    ensures h.called.None? <==> userId <= 0
    ensures h.called.Some? ==> h.called.value == RetrieveUserCall(userId)
    ensures userId <= 0 ==> h.result == InvalidIdResult
    ensures userId > 0 ==> h.result == Answer(service)
  {
    if userId <= 0 then Handled(InvalidIdResult, None)
    else Handled(Answer(service), Some(RetrieveUserCall(userId)))
  }

  function Create(user: UserRequest, now: DateTime, service: Outcome<UserResponse>): (h: Handled)
    ensures var validation := IsValid(user, now);
      && (h.called.None? <==> validation.responseCode != Continue)
      && (h.called.Some? ==> h.called.value == CreateUserCall(user) && h.result == Answer(service))
      && (h.called.None? ==> h.result == StatusCode(validation.responseCode.Code(), validation))
  {
    var validation := IsValid(user, now);
    if validation.responseCode != Continue then Handled(StatusCode(validation.responseCode.Code(), validation), None)
    else Handled(Answer(service), Some(CreateUserCall(user)))
  }

  function Edit(userId: int, user: UserRequest, now: DateTime, service: Outcome<UserResponse>): (h: Handled)
    ensures var validation := IsValid(user, now);
      && (userId <= 0 ==> h.result == InvalidIdResult && h.called.None?)
      && (userId > 0 && validation.responseCode != Continue ==>
            h.result == StatusCode(validation.responseCode.Code(), validation) && h.called.None?)
      && (userId > 0 && validation.responseCode == Continue ==>
            h.result == Answer(service) && h.called == Some(UpdateUserCall(userId, user)))
  {
    if userId <= 0 then Handled(InvalidIdResult, None)
    else
      var validation := IsValid(user, now);
      if validation.responseCode != Continue then Handled(StatusCode(validation.responseCode.Code(), validation), None)
      else Handled(Answer(service), Some(UpdateUserCall(userId, user)))
  }

  /** Delete wraps the service's response in Ok(...). */
  function Delete(userId: int, service: Outcome<UserResponse>): (h: Handled)
    ensures h.called.None? <==> userId <= 0
    ensures h.called.Some? ==> h.called.value == DeleteUserCall(userId)
    ensures userId <= 0 ==> h.result == InvalidIdResult
    ensures userId > 0 && service.Threw? ==> h.result == InternalErrorResult
    ensures userId > 0 && service.Returned? ==> h.result == Ok(service.value)
  {
    if userId <= 0 then Handled(InvalidIdResult, None)
    else Handled(match service case Threw(_) => InternalErrorResult case Returned(r) => Ok(r), Some(DeleteUserCall(userId)))
  }

  /**
   * Whatever the service does, an action that did not call it answers the same; and
   * when it did call it, every body is either the service's response or the fixed 500.
   */
  lemma ServiceMattersOnlyWhenCalled(userId: int, user: UserRequest, now: DateTime, s1: Outcome<UserResponse>, s2: Outcome<UserResponse>)
    ensures Details(userId, s1).called.None? ==> Details(userId, s1) == Details(userId, s2)
    ensures Create(user, now, s1).called.None? ==> Create(user, now, s1) == Create(user, now, s2)
    ensures Edit(userId, user, now, s1).called.None? ==> Edit(userId, user, now, s1) == Edit(userId, user, now, s2)
    ensures Delete(userId, s1).called.None? ==> Delete(userId, s1) == Delete(userId, s2)
  {
  }

  /**
   * When the action answers on its own (bad id, failed validation, exception), the
   * outer HTTP status is the body's code.
   */
  lemma {:induction false} OwnAnswersCarryTheirCode(userId: int, user: UserRequest, now: DateTime, service: Outcome<UserResponse>)
    requires userId <= 0 || service.Threw? || IsValid(user, now).responseCode != Continue
    ensures var h := Edit(userId, user, now, service); h.result.Status() == h.result.Body().responseCode.Code()
  {
    IsValidOutcomes(user, now);
  }

  /**
   * A response passed through unchanged is sent with outer status 200, whatever its own
   * code: a missing user reaches the client as a 200 whose body says 404.
   */
  lemma PassThroughIsAlways200(userId: int)
    requires userId > 0
    ensures Details(userId, Returned(UserNotFound)).result.Status() == 200
    ensures Details(userId, Returned(UserNotFound)).result.Body().responseCode.Code() == 404
    ensures Delete(userId, Returned(UserNotFound)).result.Status() == 200
  {
  }

  /** Every body an action can send is the service's response, the validation result or one of two fixed errors. */
  lemma BodiesAreKnown(userId: int, user: UserRequest, now: DateTime, service: Outcome<UserResponse>)
    ensures var b := Edit(userId, user, now, service).result.Body();
      b == InvalidUserId || b == IsValid(user, now) || b == UserResponseErrors.InternalServerError || (service.Returned? && b == service.value)
    ensures var b := Delete(userId, service).result.Body();
      b == InvalidUserId || b == UserResponseErrors.InternalServerError || (service.Returned? && b == service.value)
  {
  }
}
