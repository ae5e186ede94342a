/**
 * The per-request log record that every layer of the current version writes into
 * (the SingleLog library, reduced to the operations the code uses), and the step
 * names of Observer/Constants/LogSteps.cs.
 */
module Logging {
  import opened Wrappers
  import opened UserRequests
  import opened ProductRequests
  import opened Responses

  // Controller steps.
  const GET_USER_BY_ID := "GET_USER_BY_ID"
  const CREATE_NEW_USER := "CREATE_NEW_USER"
  const EDIT_USER_BY_ID := "EDIT_USER_BY_ID"
  const DELETE_USER_BY_ID := "DELETE_USER_BY_ID"

  // Service steps.
  const USER_SERVICE_CREATE_USER_PROCESSING := "USER_SERVICE_CREATE_USER_PROCESSING"
  const USER_SERVICE_RETRIEVE_USER_PROCESSING := "USER_SERVICE_RETRIEVE_USER_PROCESSING"
  const USER_SERVICE_DELETE_USER_PROCESSING := "USER_SERVICE_DELETE_USER_PROCESSING"
  const USER_SERVICE_UPDATE_USER_PROCESSING := "USER_SERVICE_UPDATE_USER_PROCESSING"

  // Database steps.
  const USER_DATABASE_RETRIEVE_DATA := "USER_DATABASE_RETRIEVE_DATA"
  const USER_DATABASE_CREATE_DATA := "USER_DATABASE_CREATE_DATA"
  const USER_DATABASE_UPDATE_DATA := "USER_DATABASE_UPDATE_DATA"
  const USER_DATABASE_DELETE_DATA := "USER_DATABASE_DELETE_DATA"

  /** LogTypes. */
  datatype LogLevel = INFO | WARN | ERROR

  /** The request payloads the controllers store: `new { userId }`, the body, `new { userId, user }`. */
  datatype LogRequest =
    | UserIdRequest(userId: int)
    | UserBodyRequest(user: UserRequest)
    | UserEditRequest(userId: int, user: UserRequest)
    | ProductIdRequest(productId: int)
    | ProductBodyRequest(product: ProductRequest)
    | ProductEditRequest(productId: int, product: ProductRequest)

  /** The response payloads the controllers store. */
  datatype LogResponse = UserResponseLogged(user: UserResponse) | EnvelopeLogged(envelope: ResponseEnvelope)

  /** SubLog: a stopwatch (how often it was started and stopped) and the captured exception. */
  class SubLog {
    var starts: nat
    var stops: nat
    var exception: Option<Exception>

    constructor ()
      ensures starts == 0 && stops == 0 && exception == None
    {
      starts, stops, exception := 0, 0, None;
    }

    method StopwatchStart()
      modifies this
      ensures starts == old(starts) + 1 && stops == old(stops) && exception == old(exception)
    {
      starts := starts + 1;
    }

    method StopwatchStop()
      modifies this
      ensures stops == old(stops) + 1 && starts == old(starts) && exception == old(exception)
    {
      stops := stops + 1;
    }
  }

  /** One entry of the step list: the step name and its sub-log. */
  datatype Step = Step(name: string, sublog: SubLog)

  /** BaseLog: Request, Response and Level (null until set), and a step list that only grows. */
  class BaseLog {
    var request: Option<LogRequest>
    var response: Option<LogResponse>
    var level: Option<LogLevel>
    var steps: seq<Step>

    constructor ()
      ensures request == None && response == None && level == None && steps == []
    {
      request, response, level, steps := None, None, None, [];
    }

    /** AddStepAsync: appends, never deduplicates. */
    method AddStep(name: string, sublog: SubLog)
      modifies this
      ensures steps == old(steps) + [Step(name, sublog)]
      ensures request == old(request) && response == old(response) && level == old(level)
    {
      steps := steps + [Step(name, sublog)];
    }
  }

  /**
   * ISingleLog: the base log bound to the current request (`current`) and the
   * sequence of base logs handed to the sink so far.
   */
  class SingleLog {
    var current: BaseLog?
    var written: seq<BaseLog>

    constructor ()
      ensures current == null && written == []
    {
      current, written := null, [];
    }

    /** CreateBaseLogAsync: a new, empty base log, bound to the request. */
    method CreateBaseLog() returns (b: BaseLog)
      modifies this
      ensures fresh(b) && current == b && written == old(written)
      ensures b.request == None && b.response == None && b.level == None && b.steps == []
    {
      b := new BaseLog();
      current := b;
    }

    /** GetBaseLogAsync: the base log of the current request; only called inside one. */
    method GetBaseLog() returns (b: BaseLog)
      requires current != null
      ensures b == current
    {
      b := current;
    }

    /** WriteLogAsync: hands the base log to the sink. */
    method WriteLog(b: BaseLog)
      modifies this
      ensures written == old(written) + [b] && current == old(current)
    {
      written := written + [b];
    }
  }

  /**
   * The opening every controller action shares: a new base log bound to the request,
   * the request recorded, and the action's own step registered with its timer running.
   */
  method BeginRequest(log: SingleLog, request: LogRequest, action: string) returns (baseLog: BaseLog, sublog: SubLog)
    modifies log
    ensures fresh(baseLog) && fresh(sublog) && log.current == baseLog && log.written == old(log.written)
    ensures baseLog.request == Some(request) && baseLog.response == None && baseLog.level == None
    ensures baseLog.steps == [Step(action, sublog)]
    ensures sublog.starts == 1 && sublog.stops == 0 && sublog.exception == None
  {
    baseLog := log.CreateBaseLog();
    baseLog.request := Some(request);
    sublog := new SubLog();
    baseLog.AddStep(action, sublog);
    sublog.StopwatchStart();
  }

  /**
   * What every controller action does once its answer is known: the caught exception (if
   * any) goes to the action's sub-log, the response and level to the base log, and the
   * finally block stops the action's timer and writes the log.
   */
  method EndRequest(log: SingleLog, baseLog: BaseLog, sublog: SubLog, exception: Option<Exception>, response: LogResponse, level: LogLevel)
    modifies log, baseLog, sublog
    ensures sublog.starts == old(sublog.starts) && sublog.stops == old(sublog.stops) + 1
    ensures sublog.exception == if exception.Some? then exception else old(sublog.exception)
    ensures baseLog.request == old(baseLog.request) && baseLog.steps == old(baseLog.steps)
    ensures baseLog.response == Some(response) && baseLog.level == Some(level)
    ensures log.written == old(log.written) + [baseLog] && log.current == old(log.current)
  {
    if exception.Some? {
      sublog.exception := exception;
    }
    baseLog.response := Some(response);
    baseLog.level := Some(level);
    sublog.StopwatchStop();
    log.WriteLog(baseLog);
  }
}
