/**
 * UserController of the current version: the earlier version's decision logic, wrapped
 * in the request log lifecycle. Each action creates the base log, records the request,
 * registers and times its own step, stores the response and a level, and writes the
 * log exactly once on every path.
 */
module Controller {
  import opened Wrappers
  import opened Http
  import opened Dates
  import opened Database
  import opened Responses
  import opened UserResponseErrors
  import opened UserRequests
  import opened UserEntity
  import opened Logging
  import Services
  import LegacyController
  import Repository

  /**
   * The level an action logs: WARN when it answered on its own, ERROR when the service
   * threw, otherwise INFO exactly when the service answered with the action's success code.
   */
  function Level(called: bool, service: Outcome<UserResponse>, success: HttpStatusCode): (l: LogLevel)
    ensures l == ERROR <==> called && service.Threw?
    ensures l == INFO <==> called && service.Returned? && service.value.responseCode == success
  {
    if !called then WARN
    else match service
      case Threw(_) => ERROR
      case Returned(r) => if r.responseCode == success then INFO else WARN
  }

  /** The exception the action's own sub-log holds: the service's, when it was called and threw. */
  function Captured(called: bool, service: Outcome<UserResponse>): (e: Option<Exception>)
    ensures e.Some? <==> called && service.Threw?
    ensures e.Some? ==> e.value == service.error
  {
    if called && service.Threw? then Some(service.error) else None
  }

  class UserController {
    const services: Services.UserServices
    const log: SingleLog

    /** The controller, the services and the repository share one request-scoped log. */
    predicate Valid() {
      services.Valid() && services.log == log
    }

    constructor (services: Services.UserServices, log: SingleLog)
      ensures this.services == services && this.log == log
    {
      this.services := services;
      this.log := log;
    }

    /** The constructor's null checks: `?? throw new ArgumentNullException(nameof(...))`. */
    static method New(services: Services.UserServices?, log: SingleLog?) returns (o: Outcome<UserController>)
      ensures services == null ==> o == Threw(ArgumentNullException("userServices"))
      ensures services != null && log == null ==> o == Threw(ArgumentNullException("singleLog"))
      ensures services != null && log != null ==> o.Returned? && fresh(o.value) && o.value.services == services && o.value.log == log
    {
      if services == null {
        o := Threw(ArgumentNullException("userServices"));
      } else if log == null {
        o := Threw(ArgumentNullException("singleLog"));
      } else {
        var c := new UserController(services, log);
        o := Returned(c);
      }
    }

    /**
     * Details: a non-positive id is answered on the spot with InvalidUserId (WARN);
     * otherwise the service's answer is passed through (INFO exactly when it is OK), and
     * an exception is caught into the action's own sub-log and answered with 500 (ERROR).
     * `service` is what the service returns when it is called.
     */
    method Details(userId: int, db: DbResult<Users>)
      returns (result: ActionResult<UserResponse>, ghost service: Outcome<UserResponse>, ghost own: SubLog, ghost serviceLog: SubLog, ghost dbLog: SubLog)
      requires Valid()
      modifies log, services.repository.context
      ensures service == Services.RetrieveOutcome(userId, db)
      ensures result == LegacyController.Details(userId, service).result
      ensures log.current != null && fresh(log.current) && log.written == old(log.written) + [log.current]
      ensures log.current.request == Some(UserIdRequest(userId)) && log.current.response == Some(UserResponseLogged(result.Body()))
      ensures log.current.level == Some(Level(userId > 0, service, OK))
      ensures |log.current.steps| == (if userId > 0 then 3 else 1) && log.current.steps[0] == Step(GET_USER_BY_ID, own)
      ensures fresh(own) && own.starts == 1 && own.stops == 1 && own.exception == Captured(userId > 0, service)
      ensures userId > 0 ==>
        && log.current.steps[1] == Step(USER_SERVICE_RETRIEVE_USER_PROCESSING, serviceLog) && log.current.steps[2] == Step(USER_DATABASE_RETRIEVE_DATA, dbLog)
        && fresh(serviceLog) && serviceLog.starts == 1 && serviceLog.stops == 1 && serviceLog.exception == None
        && fresh(dbLog) && dbLog.starts == 1 && dbLog.stops == 1 && dbLog.exception == None
      ensures services.repository.context.disposals == old(services.repository.context.disposals) + (if userId > 0 then 1 else 0)
    {
      var baseLog, sublog := BeginRequest(log, UserIdRequest(userId), GET_USER_BY_ID);
      own, serviceLog, dbLog := sublog, sublog, sublog;
      service := Services.RetrieveOutcome(userId, db);
      var exception: Option<Exception>, response: UserResponse, level: LogLevel;
      if userId <= 0 {
        result, exception, response, level := LegacyController.InvalidIdResult, None, InvalidUserId, WARN;
      } else {
        var outcome;
        outcome, serviceLog, dbLog := services.RetrieveUser(userId, db);
        service := outcome;
        match outcome {
          case Returned(r) =>
            result, exception, response, level := Value(r), None, r, if r.responseCode == OK then INFO else WARN;
          case Threw(ex) =>
            result, exception, response, level := LegacyController.InternalErrorResult, Some(ex), UserResponseErrors.InternalServerError, ERROR;
        }
      }
      EndRequest(log, baseLog, sublog, exception, UserResponseLogged(response), level);
    }

    /**
     * Create: a request that fails validation is answered with the validation result
     * (WARN); otherwise the service's answer is passed through (INFO exactly when it is
     * Created), and an exception becomes the fixed 500 (ERROR). `now` is the clock
     * reading both the validation and the service see.
     */
    method Create(user: UserRequest, now: DateTime, db: DbResult<int>)
      returns (result: ActionResult<UserResponse>, ghost service: Outcome<UserResponse>, ghost own: SubLog, ghost serviceLog: SubLog, ghost dbLog: SubLog)
      requires Valid()
      modifies log, services.repository.context
      ensures service == Services.CreateOutcome(user, now, db)
      ensures var h := LegacyController.Create(user, now, service);
        && result == h.result
        && log.current != null && fresh(log.current) && log.written == old(log.written) + [log.current]
        && log.current.request == Some(UserBodyRequest(user)) && log.current.response == Some(UserResponseLogged(result.Body()))
        && log.current.level == Some(Level(h.called.Some?, service, Created))
        && |log.current.steps| == (if h.called.Some? then 3 else 1) && log.current.steps[0] == Step(CREATE_NEW_USER, own)
        && fresh(own) && own.starts == 1 && own.stops == 1 && own.exception == Captured(h.called.Some?, service)
        && (h.called.Some? ==>
          && log.current.steps[1] == Step(USER_SERVICE_CREATE_USER_PROCESSING, serviceLog) && log.current.steps[2] == Step(USER_DATABASE_CREATE_DATA, dbLog)
          && fresh(serviceLog) && serviceLog.starts == 1 && serviceLog.stops == 1 && serviceLog.exception == None
          && fresh(dbLog) && dbLog.starts == 1 && dbLog.stops == 1 && dbLog.exception == None)
        && services.repository.context.disposals == old(services.repository.context.disposals) + (if h.called.Some? then 1 else 0)
    {
      var baseLog, sublog := BeginRequest(log, UserBodyRequest(user), CREATE_NEW_USER);
      own, serviceLog, dbLog := sublog, sublog, sublog;
      service := Services.CreateOutcome(user, now, db);
      var exception: Option<Exception>, response: UserResponse, level: LogLevel;
      var validation := IsValid(user, now);
      if validation.responseCode != Continue {
        result, exception, response, level := StatusCode(validation.responseCode.Code(), validation), None, validation, WARN;
      } else {
        var outcome;
        outcome, serviceLog, dbLog := services.CreateUser(user, now, db);
        service := outcome;
        match outcome {
          case Returned(r) =>
            result, exception, response, level := Value(r), None, r, if r.responseCode == Created then INFO else WARN;
          case Threw(ex) =>
            result, exception, response, level := LegacyController.InternalErrorResult, Some(ex), UserResponseErrors.InternalServerError, ERROR;
        }
      }
      EndRequest(log, baseLog, sublog, exception, UserResponseLogged(response), level);
    }

    /**
     * Edit: the id check first, then validation, then the service (INFO exactly when it
     * answers OK); an exception becomes the fixed 500 (ERROR).
     */
    method Edit(userId: int, user: UserRequest, now: DateTime, db: DbResult<int>)
      returns (result: ActionResult<UserResponse>, ghost service: Outcome<UserResponse>, ghost own: SubLog, ghost serviceLog: SubLog, ghost dbLog: SubLog)
      requires Valid()
      modifies log, services.repository.context
      ensures service == Services.UpdateOutcome(userId, user, now, db)
      ensures var h := LegacyController.Edit(userId, user, now, service);
        && result == h.result
        && log.current != null && fresh(log.current) && log.written == old(log.written) + [log.current]
        && log.current.request == Some(UserEditRequest(userId, user)) && log.current.response == Some(UserResponseLogged(result.Body()))
        && log.current.level == Some(Level(h.called.Some?, service, OK))
        && |log.current.steps| == (if h.called.Some? then 3 else 1) && log.current.steps[0] == Step(EDIT_USER_BY_ID, own)
        && fresh(own) && own.starts == 1 && own.stops == 1 && own.exception == Captured(h.called.Some?, service)
        && (h.called.Some? ==>
          && log.current.steps[1] == Step(USER_SERVICE_UPDATE_USER_PROCESSING, serviceLog) && log.current.steps[2] == Step(USER_DATABASE_UPDATE_DATA, dbLog)
          && fresh(serviceLog) && serviceLog.starts == 1 && serviceLog.stops == 1 && serviceLog.exception == None
          && fresh(dbLog) && dbLog.starts == 1 && dbLog.stops == 1 && dbLog.exception == None)
        && services.repository.context.disposals == old(services.repository.context.disposals) + (if h.called.Some? then 1 else 0)
    {
      var baseLog, sublog := BeginRequest(log, UserEditRequest(userId, user), EDIT_USER_BY_ID);
      own, serviceLog, dbLog := sublog, sublog, sublog;
      service := Services.UpdateOutcome(userId, user, now, db);
      var exception: Option<Exception>, response: UserResponse, level: LogLevel;
      if userId <= 0 {
        result, exception, response, level := LegacyController.InvalidIdResult, None, InvalidUserId, WARN;
      } else {
        var validation := IsValid(user, now);
        if validation.responseCode != Continue {
          result, exception, response, level := StatusCode(validation.responseCode.Code(), validation), None, validation, WARN;
        } else {
          var outcome;
          outcome, serviceLog, dbLog := services.UpdateUser(userId, user, now, db);
          service := outcome;
          match outcome {
            case Returned(r) =>
              result, exception, response, level := Value(r), None, r, if r.responseCode == OK then INFO else WARN;
            case Threw(ex) =>
              result, exception, response, level := LegacyController.InternalErrorResult, Some(ex), UserResponseErrors.InternalServerError, ERROR;
          }
        }
      }
      EndRequest(log, baseLog, sublog, exception, UserResponseLogged(response), level);
    }

    /**
     * Delete: like Details, but the service's answer is wrapped in Ok(...), and the
     * database step keeps the exception the repository caught.
     */
    method Delete(userId: int, db: DbResult<int>)
      returns (result: ActionResult<UserResponse>, ghost service: Outcome<UserResponse>, ghost own: SubLog, ghost serviceLog: SubLog, ghost dbLog: SubLog)
      requires Valid()
      modifies log, services.repository.context
      ensures service == Services.DeleteOutcome(userId, db)
      ensures result == LegacyController.Delete(userId, service).result
      ensures log.current != null && fresh(log.current) && log.written == old(log.written) + [log.current]
      ensures log.current.request == Some(UserIdRequest(userId)) && log.current.response == Some(UserResponseLogged(result.Body()))
      ensures log.current.level == Some(Level(userId > 0, service, OK))
      ensures |log.current.steps| == (if userId > 0 then 3 else 1) && log.current.steps[0] == Step(DELETE_USER_BY_ID, own)
      ensures fresh(own) && own.starts == 1 && own.stops == 1 && own.exception == Captured(userId > 0, service)
      ensures userId > 0 ==>
        && log.current.steps[1] == Step(USER_SERVICE_DELETE_USER_PROCESSING, serviceLog) && log.current.steps[2] == Step(USER_DATABASE_DELETE_DATA, dbLog)
        && fresh(serviceLog) && serviceLog.starts == 1 && serviceLog.stops == 1 && serviceLog.exception == None
        && fresh(dbLog) && dbLog.starts == 1 && dbLog.stops == 1 && dbLog.exception == Repository.DeleteCaptures(db)
      ensures services.repository.context.disposals == old(services.repository.context.disposals) + (if userId > 0 then 1 else 0)
    {
      var baseLog, sublog := BeginRequest(log, UserIdRequest(userId), DELETE_USER_BY_ID);
      own, serviceLog, dbLog := sublog, sublog, sublog;
      service := Services.DeleteOutcome(userId, db);
      var exception: Option<Exception>, response: UserResponse, level: LogLevel;
      if userId <= 0 {
        result, exception, response, level := LegacyController.InvalidIdResult, None, InvalidUserId, WARN;
      } else {
        var outcome;
        outcome, serviceLog, dbLog := services.DeleteUser(userId, db);
        service := outcome;
        match outcome {
          case Returned(r) =>
            result, exception, response, level := Ok(r), None, r, if r.responseCode == OK then INFO else WARN;
          case Threw(ex) =>
            result, exception, response, level := LegacyController.InternalErrorResult, Some(ex), UserResponseErrors.InternalServerError, ERROR;
        }
      }
      EndRequest(log, baseLog, sublog, exception, UserResponseLogged(response), level);
    }
  }
}
