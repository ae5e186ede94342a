/**
 * UserServices of the current version: each call registers and times a service step,
 * asks the repository, and turns its result into a UserResponse. There is no catch,
 * so whatever the repository throws reaches the controller.
 */
module Services {
  import opened Wrappers
  import opened Http
  import opened Dates
  import opened Text
  import opened Database
  import opened DomainResponses
  import opened Responses
  import opened UserResponseErrors
  import opened UserRequests
  import opened UserEntity
  import opened UsersEnvelopes
  import opened Logging
  import Repository

  /** String interpolation of a possibly null string: null renders as nothing. */
  function Interpolated(s: Option<string>): string {
    if s.None? then "" else s.value
  }

  function CreatedMessage(user: UserRequest): string {
    "Usuário " + Interpolated(user.name) + " criado com sucesso."
  }

  const RetrievedMessage := "Usuário recuperado com sucesso."

  function DeletedMessage(userId: int): string {
    "Usuário " + IntToString(userId) + " foi deletado com sucesso."
  }

  function UpdatedMessage(user: UserRequest): string {
    "Dados do usuário " + Interpolated(user.name) + " foram alterados com sucesso."
  }

  /** A deletion message names exactly one id: distinct ids give distinct messages. */
  lemma DeletedMessageNamesTheId(a: int, b: int)
    requires DeletedMessage(a) == DeletedMessage(b)
    ensures a == b
  {
    var prefix, suffix := "Usuário ", " foi deletado com sucesso.";
    var m := DeletedMessage(a);
    assert IntToString(a) == m[|prefix|..|m| - |suffix|];
    assert IntToString(b) == m[|prefix|..|m| - |suffix|];
    IntToStringInjective(a, b);
  }

  /**
   * CreateUser's answer for the inserted user: CreateUserError exactly when a user came
   * back with a non-positive Id; otherwise 201, a null result included.
   */
  function CreateResponse(user: UserRequest, inserted: Option<Users>): (r: UserResponse)
    ensures r == CreateUserError <==> inserted.Some? && inserted.value.id <= 0
    ensures r != CreateUserError ==> r.responseCode == Created && r.details == CreatedMessage(user)
    ensures r != CreateUserError ==> r.data == if inserted.None? then None else Some(EnvelopeOf(inserted.value))
  {
    if inserted.Some? && inserted.value.id <= 0 then CreateUserError
    else UserResponse(Created, CreatedMessage(user), if inserted.None? then None else Some(EnvelopeOf(inserted.value)))
  }

  /** RetrieveUser's answer: UserNotFound exactly when no row came back, else 200 with the row's payload. */
  function RetrieveResponse(found: Option<Users>): (r: UserResponse)
    ensures r == UserNotFound <==> found.None?
    ensures found.Some? ==> r.responseCode == OK && r.details == RetrievedMessage
    ensures found.Some? ==> r.data.Some? && Shows(r.data.value, found.value.id, found.value)
  {
    if found.None? then UserNotFound else NewUserResponse(OK, RetrievedMessage, EnvelopeOf(found.value))
  }

  /** DeleteUser's answer: UserNotFound exactly when nothing was deleted, else 200 naming the id. */
  function DeleteResponse(userId: int, deleted: bool): (r: UserResponse)
    ensures r == UserNotFound <==> !deleted
    ensures deleted ==> r.responseCode == OK && r.details == DeletedMessage(userId) && r.data.None?
  {
    if !deleted then UserNotFound else UserResponseWithDetails(OK, DeletedMessage(userId))
  }

  /** UpdateUser's answer: UserNotFound exactly when nothing was updated, else 200 with the entity sent. */
  function UpdateResponse(userData: Users, user: UserRequest, updated: bool): (r: UserResponse)
    ensures r == UserNotFound <==> !updated
    ensures updated ==> r.responseCode == OK && r.details == UpdatedMessage(user)
    ensures updated ==> r.data == Some(EnvelopeOf(userData))
  {
    if !updated then UserNotFound else NewUserResponse(OK, UpdatedMessage(user), EnvelopeOf(userData))
  }

  /** The whole CreateUser call over the database outcome of its insert. */
  function CreateOutcome(user: UserRequest, now: DateTime, db: DbResult<int>): (o: Outcome<UserResponse>)
    ensures o.Threw? <==> !db.Done?
    ensures o.Threw? ==> o.error == db.error
    ensures db.Done? && db.value <= 0 ==> o == Returned(CreateUserError)
    ensures db.Done? && db.value > 0 ==>
      o.Returned? && o.value.responseCode == Created && o.value.data == Some(EnvelopeWithId(db.value, NewUser(user, now)))
  {
    match Repository.Inserted(NewUser(user, now), db)
    case Threw(e) => Threw(e)
    case Returned(r) => Returned(CreateResponse(user, Some(r.data)))
  }

  /** The whole RetrieveUser call over the database outcome of its select. */
  function RetrieveOutcome(userId: int, db: DbResult<Users>): (o: Outcome<UserResponse>)
    ensures o.Threw? <==> !db.Done? && !IsNoElements(db.error)
    ensures o == Returned(UserNotFound) <==> !db.Done? && IsNoElements(db.error)
    ensures db.Done? ==> o == Returned(NewUserResponse(OK, RetrievedMessage, EnvelopeOf(db.value)))
  {
    match Repository.Selected(db)
    case Threw(e) => Threw(e)
    case Returned(r) => Returned(RetrieveResponse(r.data))
  }

  /** The whole DeleteUser call over the database outcome of its delete. */
  function DeleteOutcome(userId: int, db: DbResult<int>): (o: Outcome<UserResponse>)
    ensures o.Threw? <==> !db.Done? && !IsNoElements(db.error)
    ensures o == Returned(UserNotFound) <==> (db.Done? && db.value <= 0) || (!db.Done? && IsNoElements(db.error))
    ensures db.Done? && db.value > 0 ==> o == Returned(UserResponseWithDetails(OK, DeletedMessage(userId)))
  {
    match Repository.AffectedRows(db)
    case Threw(e) => Threw(e)
    case Returned(r) => Returned(DeleteResponse(userId, r.data))
  }

  /** The whole UpdateUser call over the database outcome of its update. */
  function UpdateOutcome(userId: int, user: UserRequest, now: DateTime, db: DbResult<int>): (o: Outcome<UserResponse>)
    ensures o.Threw? <==> !db.Done? && !IsNoElements(db.error)
    ensures o == Returned(UserNotFound) <==> (db.Done? && db.value <= 0) || (!db.Done? && IsNoElements(db.error))
    ensures db.Done? && db.value > 0 ==> o.Returned? && o.value.data.Some? && o.value.data.value.id == userId
  {
    match Repository.AffectedRows(db)
    case Threw(e) => Threw(e)
    case Returned(r) => Returned(UpdateResponse(UserWithId(userId, user, now), user, r.data))
  }

  /** A created user's payload carries the identity the database generated. */
  lemma CreatedPayloadCarriesGeneratedId(user: UserRequest, now: DateTime, id: int)
    requires id > 0
    ensures CreateOutcome(user, now, Done(id)).value.data.value.id == id
    ensures CreateOutcome(user, now, Done(id)).value.details == CreatedMessage(user)
  {
  }

  /** Every answer of the service is one of its five kinds, told apart by code. */
  lemma ResponseCodes(user: UserRequest, inserted: Option<Users>, found: Option<Users>, userId: int, b: bool, userData: Users)
    ensures CreateResponse(user, inserted).responseCode in {Created, InternalServerError}
    ensures RetrieveResponse(found).responseCode in {OK, NotFound}
    ensures DeleteResponse(userId, b).responseCode in {OK, NotFound}
    ensures UpdateResponse(userData, user, b).responseCode in {OK, NotFound}
  {
  }

  class UserServices {
    const repository: Repository.UserRepository
    const log: SingleLog

    constructor (repository: Repository.UserRepository, log: SingleLog)
      ensures this.repository == repository && this.log == log
    {
      this.repository := repository;
      this.log := log;
    }

    /** Both layers write into the same request-scoped log. */
    predicate Valid() {
      repository.log == log
    }

    method CreateUser(user: UserRequest, now: DateTime, db: DbResult<int>) returns (o: Outcome<UserResponse>, ghost serviceLog: SubLog, ghost dbLog: SubLog)
      requires Valid() && log.current != null
      modifies log.current, repository.context
      ensures o == CreateOutcome(user, now, db)
      ensures repository.context.disposals == old(repository.context.disposals) + 1
      ensures log.current.steps == old(log.current.steps) + [Step(USER_SERVICE_CREATE_USER_PROCESSING, serviceLog), Step(USER_DATABASE_CREATE_DATA, dbLog)]
      ensures log.current.request == old(log.current.request) && log.current.response == old(log.current.response) && log.current.level == old(log.current.level) && fresh(serviceLog) && serviceLog.starts == 1 && serviceLog.stops == 1 && fresh(dbLog) && dbLog.starts == 1 && dbLog.stops == 1
      ensures serviceLog.exception == None && dbLog.exception == None
    {
      var baseLog := log.GetBaseLog();
      var sublog := new SubLog();
      serviceLog := sublog;
      baseLog.AddStep(USER_SERVICE_CREATE_USER_PROCESSING, sublog);
      sublog.StopwatchStart();
      var userData := NewUser(user, now);
      var result;
      result, dbLog := repository.InsertUser(userData, db);
      match result {
        case Threw(ex) =>
          o := Threw(ex);
        case Returned(r) =>
          if r.data.id <= 0 {
            o := Returned(CreateUserError);
          } else {
            o := Returned(NewUserResponse(Created, CreatedMessage(user), EnvelopeOf(r.data)));
          }
      }
      sublog.StopwatchStop();
    }

    method RetrieveUser(userId: int, db: DbResult<Users>) returns (o: Outcome<UserResponse>, ghost serviceLog: SubLog, ghost dbLog: SubLog)
      requires Valid() && log.current != null
      modifies log.current, repository.context
      ensures o == RetrieveOutcome(userId, db)
      ensures repository.context.disposals == old(repository.context.disposals) + 1
      ensures log.current.steps == old(log.current.steps) + [Step(USER_SERVICE_RETRIEVE_USER_PROCESSING, serviceLog), Step(USER_DATABASE_RETRIEVE_DATA, dbLog)]
      ensures log.current.request == old(log.current.request) && log.current.response == old(log.current.response) && log.current.level == old(log.current.level) && fresh(serviceLog) && serviceLog.starts == 1 && serviceLog.stops == 1 && fresh(dbLog) && dbLog.starts == 1 && dbLog.stops == 1
      ensures serviceLog.exception == None && dbLog.exception == None
    {
      var baseLog := log.GetBaseLog();
      var sublog := new SubLog();
      serviceLog := sublog;
      baseLog.AddStep(USER_SERVICE_RETRIEVE_USER_PROCESSING, sublog);
      sublog.StopwatchStart();
      var result;
      result, dbLog := repository.SelectUser(userId, db);
      match result {
        case Threw(ex) =>
          o := Threw(ex);
        case Returned(r) =>
          if r.data.None? {
            o := Returned(UserNotFound);
          } else {
            o := Returned(NewUserResponse(OK, RetrievedMessage, EnvelopeOf(r.data.value)));
          }
      }
      sublog.StopwatchStop();
    }

    method DeleteUser(userId: int, db: DbResult<int>) returns (o: Outcome<UserResponse>, ghost serviceLog: SubLog, ghost dbLog: SubLog)
      requires Valid() && log.current != null
      modifies log.current, repository.context
      ensures o == DeleteOutcome(userId, db)
      ensures repository.context.disposals == old(repository.context.disposals) + 1
      ensures log.current.steps == old(log.current.steps) + [Step(USER_SERVICE_DELETE_USER_PROCESSING, serviceLog), Step(USER_DATABASE_DELETE_DATA, dbLog)]
      ensures log.current.request == old(log.current.request) && log.current.response == old(log.current.response) && log.current.level == old(log.current.level) && fresh(serviceLog) && serviceLog.starts == 1 && serviceLog.stops == 1 && fresh(dbLog) && dbLog.starts == 1 && dbLog.stops == 1
      ensures serviceLog.exception == None && dbLog.exception == Repository.DeleteCaptures(db)
    {
      var baseLog := log.GetBaseLog();
      var sublog := new SubLog();
      serviceLog := sublog;
      baseLog.AddStep(USER_SERVICE_DELETE_USER_PROCESSING, sublog);
      sublog.StopwatchStart();
      var result;
      result, dbLog := repository.DeleteUser(userId, db);
      match result {
        case Threw(ex) =>
          o := Threw(ex);
        case Returned(r) =>
          if !r.data {
            o := Returned(UserNotFound);
          } else {
            o := Returned(UserResponseWithDetails(OK, DeletedMessage(userId)));
          }
      }
      sublog.StopwatchStop();
    }

    method UpdateUser(userId: int, user: UserRequest, now: DateTime, db: DbResult<int>) returns (o: Outcome<UserResponse>, ghost serviceLog: SubLog, ghost dbLog: SubLog)
      requires Valid() && log.current != null
      modifies log.current, repository.context
      ensures o == UpdateOutcome(userId, user, now, db)
      ensures repository.context.disposals == old(repository.context.disposals) + 1
      ensures log.current.steps == old(log.current.steps) + [Step(USER_SERVICE_UPDATE_USER_PROCESSING, serviceLog), Step(USER_DATABASE_UPDATE_DATA, dbLog)]
      ensures log.current.request == old(log.current.request) && log.current.response == old(log.current.response) && log.current.level == old(log.current.level) && fresh(serviceLog) && serviceLog.starts == 1 && serviceLog.stops == 1 && fresh(dbLog) && dbLog.starts == 1 && dbLog.stops == 1
      ensures serviceLog.exception == None && dbLog.exception == None
    {
      var baseLog := log.GetBaseLog();
      var sublog := new SubLog();
      serviceLog := sublog;
      baseLog.AddStep(USER_SERVICE_UPDATE_USER_PROCESSING, sublog);
      sublog.StopwatchStart();
      var userData := UserWithId(userId, user, now);
      var result;
      result, dbLog := repository.UpdateUser(userData, db);
      match result {
        case Threw(ex) =>
          o := Threw(ex);
        case Returned(r) =>
          if !r.data {
            o := Returned(UserNotFound);
          } else {
            o := Returned(NewUserResponse(OK, UpdatedMessage(user), EnvelopeOf(userData)));
          }
      }
      sublog.StopwatchStop();
    }
  }
}
