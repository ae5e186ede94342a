/**
 * UserRepository of the current version: every call registers a database step, runs
 * the query, maps "no elements" to a failure result, and disposes the context.
 */
module Repository {
  import opened Wrappers
  import opened Database
  import opened DomainResponses
  import opened UserEntity
  import opened Logging

  const NoDataFound := "No data found."

  /**
   * DeleteUser/UpdateUser: n affected rows give success with Data = (n > 0); the
   * no-elements exception gives a failure with Data false; anything else propagates.
   */
  function AffectedRows(db: DbResult<int>): (o: Outcome<Response<bool>>)
    ensures o.Threw? <==> !db.Done? && !IsNoElements(db.error)
    ensures o.Threw? ==> o.error == db.error
    ensures o.Returned? ==> (o.value.isSuccess <==> db.Done?)
    ensures o.Returned? ==> (o.value.data <==> db.Done? && db.value > 0)
    ensures o.Returned? ==> o.value.details == if db.Done? then None else Some(NoDataFound)
  {
    match db
    case Done(n) => Returned(ResponseOkData(n > 0))
    case ConnectionFailed(e) => if IsNoElements(e) then Returned(ResponseError(false, NoDataFound)) else Threw(e)
    case QueryFailed(e) => if IsNoElements(e) then Returned(ResponseError(false, NoDataFound)) else Threw(e)
  }

  /**
   * SelectUser: the row gives success with the row; the no-elements exception gives a
   * failure with null data; anything else propagates.
   */
  function Selected(db: DbResult<Users>): (o: Outcome<Response<Option<Users>>>)
    ensures o.Threw? <==> !db.Done? && !IsNoElements(db.error)
    ensures o.Threw? ==> o.error == db.error
    ensures o.Returned? ==> (o.value.isSuccess <==> db.Done?)
    ensures o.Returned? ==> o.value.data == if db.Done? then Some(db.value) else None
    ensures o.Returned? ==> o.value.details == if db.Done? then None else Some(NoDataFound)
  {
    match db
    case Done(u) => Returned(ResponseOkData(Some(u)))
    case ConnectionFailed(e) => if IsNoElements(e) then Returned(ResponseError(None, NoDataFound)) else Threw(e)
    case QueryFailed(e) => if IsNoElements(e) then Returned(ResponseError(None, NoDataFound)) else Threw(e)
  }

  /**
   * InsertUser: no catch, so every failure propagates; the generated identity becomes
   * the Id of the returned user, every other field is the inserted data.
   */
  function Inserted(userData: Users, db: DbResult<int>): (o: Outcome<Response<Users>>)
    ensures o.Threw? <==> !db.Done?
    ensures o.Threw? ==> o.error == db.error
    ensures o.Returned? ==> o.value.isSuccess && o.value.data.id == db.value
    ensures o.Returned? ==> o.value.data.(id := userData.id) == userData
  {
    match db
    case Done(id) => Returned(ResponseOkData(userData.(id := id)))
    case ConnectionFailed(e) => Threw(e)
    case QueryFailed(e) => Threw(e)
  }

  /** What DeleteUser records on its sub-log: every exception it catches, "no elements" included. */
  function DeleteCaptures(db: DbResult<int>): (e: Option<Exception>)
    ensures e.Some? <==> !db.Done?
    ensures e.Some? ==> e.value == db.error
  {
    if db.Done? then None else Some(db.error)
  }

  class UserRepository {
    const context: SqlServerContext
    const log: SingleLog

    constructor (context: SqlServerContext, log: SingleLog)
      ensures this.context == context && this.log == log
    {
      this.context := context;
      this.log := log;
    }

    /** DeleteUser: the only method that records the caught exception on its sub-log. */
    method DeleteUser(userId: int, db: DbResult<int>) returns (o: Outcome<Response<bool>>, ghost dbLog: SubLog)
      requires log.current != null
      modifies log.current, context
      ensures o == AffectedRows(db)
      ensures context.disposals == old(context.disposals) + 1
      ensures log.current.steps == old(log.current.steps) + [Step(USER_DATABASE_DELETE_DATA, dbLog)]
      ensures log.current.request == old(log.current.request) && log.current.response == old(log.current.response) && log.current.level == old(log.current.level) && fresh(dbLog) && dbLog.starts == 1 && dbLog.stops == 1 && dbLog.exception == DeleteCaptures(db)
    {
      var baseLog := log.GetBaseLog();
      var sublog := new SubLog();
      dbLog := sublog;
      baseLog.AddStep(USER_DATABASE_DELETE_DATA, sublog);
      sublog.StopwatchStart();
      match db {
        case Done(n) =>
          o := Returned(ResponseOkData(n > 0));
        case ConnectionFailed(ex) =>
          sublog.exception := Some(ex);
          o := if ex.Message() == NoElementsMessage then Returned(ResponseError(false, NoDataFound)) else Threw(ex);
        case QueryFailed(ex) =>
          sublog.exception := Some(ex);
          o := if ex.Message() == NoElementsMessage then Returned(ResponseError(false, NoDataFound)) else Threw(ex);
      }
      sublog.StopwatchStop();
      context.DisposeAsync();
    }

    /** InsertUser: no catch; the finally block still stops the timer and disposes. */
    method InsertUser(userData: Users, db: DbResult<int>) returns (o: Outcome<Response<Users>>, ghost dbLog: SubLog)
      requires log.current != null
      modifies log.current, context
      ensures o == Inserted(userData, db)
      ensures context.disposals == old(context.disposals) + 1
      ensures log.current.steps == old(log.current.steps) + [Step(USER_DATABASE_CREATE_DATA, dbLog)]
      ensures log.current.request == old(log.current.request) && log.current.response == old(log.current.response) && log.current.level == old(log.current.level) && fresh(dbLog) && dbLog.starts == 1 && dbLog.stops == 1 && dbLog.exception == None
    {
      var baseLog := log.GetBaseLog();
      var sublog := new SubLog();
      dbLog := sublog;
      baseLog.AddStep(USER_DATABASE_CREATE_DATA, sublog);
      sublog.StopwatchStart();
      match db {
        case Done(id) => o := Returned(ResponseOkData(userData.(id := id)));
        case ConnectionFailed(ex) => o := Threw(ex);
        case QueryFailed(ex) => o := Threw(ex);
      }
      sublog.StopwatchStop();
      context.DisposeAsync();
    }

    /** SelectUser: catches like DeleteUser but leaves the sub-log's exception unset. */
    method SelectUser(userId: int, db: DbResult<Users>) returns (o: Outcome<Response<Option<Users>>>, ghost dbLog: SubLog)
      requires log.current != null
      modifies log.current, context
      ensures o == Selected(db)
      ensures context.disposals == old(context.disposals) + 1
      ensures log.current.steps == old(log.current.steps) + [Step(USER_DATABASE_RETRIEVE_DATA, dbLog)]
      ensures log.current.request == old(log.current.request) && log.current.response == old(log.current.response) && log.current.level == old(log.current.level) && fresh(dbLog) && dbLog.starts == 1 && dbLog.stops == 1 && dbLog.exception == None
    {
      var baseLog := log.GetBaseLog();
      var sublog := new SubLog();
      dbLog := sublog;
      baseLog.AddStep(USER_DATABASE_RETRIEVE_DATA, sublog);
      sublog.StopwatchStart();
      match db {
        case Done(u) =>
          o := Returned(ResponseOkData(Some(u)));
        case ConnectionFailed(ex) =>
          o := if ex.Message() == NoElementsMessage then Returned(ResponseError(None, NoDataFound)) else Threw(ex);
        case QueryFailed(ex) =>
          o := if ex.Message() == NoElementsMessage then Returned(ResponseError(None, NoDataFound)) else Threw(ex);
      }
      sublog.StopwatchStop();
      context.DisposeAsync();
    }

    /** UpdateUser: same mapping as DeleteUser, sub-log exception left unset. */
    method UpdateUser(userData: Users, db: DbResult<int>) returns (o: Outcome<Response<bool>>, ghost dbLog: SubLog)
      requires log.current != null
      modifies log.current, context
      ensures o == AffectedRows(db)
      ensures context.disposals == old(context.disposals) + 1
      ensures log.current.steps == old(log.current.steps) + [Step(USER_DATABASE_UPDATE_DATA, dbLog)]
      ensures log.current.request == old(log.current.request) && log.current.response == old(log.current.response) && log.current.level == old(log.current.level) && fresh(dbLog) && dbLog.starts == 1 && dbLog.stops == 1 && dbLog.exception == None
    {
      var baseLog := log.GetBaseLog();
      var sublog := new SubLog();
      dbLog := sublog;
      baseLog.AddStep(USER_DATABASE_UPDATE_DATA, sublog);
      sublog.StopwatchStart();
      match db {
        case Done(n) =>
          o := Returned(ResponseOkData(n > 0));
        case ConnectionFailed(ex) =>
          o := if ex.Message() == NoElementsMessage then Returned(ResponseError(false, NoDataFound)) else Threw(ex);
        case QueryFailed(ex) =>
          o := if ex.Message() == NoElementsMessage then Returned(ResponseError(false, NoDataFound)) else Threw(ex);
      }
      sublog.StopwatchStop();
      context.DisposeAsync();
    }
  }
}
