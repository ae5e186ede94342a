/**
 * UserServices of the earlier version: the same mapping from repository results to
 * responses, without logging. CreateUser hands back the repository's envelope, and
 * UpdateUser answers without data.
 */
module LegacyServices {
  import opened Wrappers
  import opened Http
  import opened Dates
  import opened Database
  import opened Responses
  import opened UserResponseErrors
  import opened UserRequests
  import opened UserEntity
  import opened UsersEnvelopes
  import LegacyRepository
  import Services

  /** CreateUser's answer: CreateUserError exactly when an envelope with a non-positive Id came back. */
  function CreateResponse(user: UserRequest, inserted: Option<UsersEnvelope>): (r: UserResponse)
    ensures r == CreateUserError <==> inserted.Some? && inserted.value.id <= 0
    ensures r != CreateUserError ==> r.responseCode == Created && r.details == Services.CreatedMessage(user)
    ensures r != CreateUserError ==> r.data == inserted
  {
    if inserted.Some? && inserted.value.id <= 0 then CreateUserError
    else UserResponse(Created, Services.CreatedMessage(user), inserted)
  }

  /** UpdateUser's answer: UserNotFound exactly when nothing was updated, else 200 without data. */
  function UpdateResponse(user: UserRequest, updated: bool): (r: UserResponse)
    ensures r == UserNotFound <==> !updated
    ensures updated ==> r.responseCode == OK && r.details == Services.UpdatedMessage(user) && r.data.None?
  {
    if !updated then UserNotFound else UserResponseWithDetails(OK, Services.UpdatedMessage(user))
  }

  /** CreateUser over the database outcome of the insert (the repository builds the envelope). */
  function CreateUser(user: UserRequest, now: DateTime, db: DbResult<seq<int>>): (o: Outcome<UserResponse>)
    ensures o.Threw? <==> !db.Done?
    ensures db.Done? && LegacyRepository.FirstOrDefault(db.value) <= 0 ==> o == Returned(CreateUserError)
    ensures db.Done? && LegacyRepository.FirstOrDefault(db.value) > 0 ==>
      o.Returned? && o.value.responseCode == Created && o.value.data.Some?
      && Shows(o.value.data.value, db.value[0], NewUser(user, now))
  {
    match LegacyRepository.Inserted(NewUser(user, now), db)
    case Threw(e) => Threw(e)
    case Returned(env) => Returned(CreateResponse(user, Some(env)))
  }

  /** RetrieveUser: the same mapping as the current version, over the earlier repository. */
  function RetrieveUser(userId: int, db: DbResult<Users>): (o: Outcome<UserResponse>)
    ensures o.Threw? <==> db.ConnectionFailed? || (db.QueryFailed? && !IsNoElements(db.error))
    ensures o == Returned(UserNotFound) <==> db.QueryFailed? && IsNoElements(db.error)
  {
    match LegacyRepository.Selected(db)
    case Threw(e) => Threw(e)
    case Returned(found) => Returned(Services.RetrieveResponse(found))
  }

  /** DeleteUser: the same mapping as the current version, over the earlier repository. */
  function DeleteUser(userId: int, db: DbResult<int>): (o: Outcome<UserResponse>)
    ensures o.Threw? <==> db.ConnectionFailed? || (db.QueryFailed? && !IsNoElements(db.error))
    ensures o == Returned(UserNotFound) <==> (db.Done? && db.value <= 0) || (db.QueryFailed? && IsNoElements(db.error))
  {
    match LegacyRepository.AffectedRows(db)
    case Threw(e) => Threw(e)
    case Returned(deleted) => Returned(Services.DeleteResponse(userId, deleted))
  }

  /** UpdateUser over the database outcome of the update of `new Users(userId, user)`. */
  function UpdateUser(userId: int, user: UserRequest, now: DateTime, db: DbResult<int>): (o: Outcome<UserResponse>)
    ensures o.Threw? <==> db.ConnectionFailed? || (db.QueryFailed? && !IsNoElements(db.error))
    ensures o == Returned(UserNotFound) <==> (db.Done? && db.value <= 0) || (db.QueryFailed? && IsNoElements(db.error))
  {
    match LegacyRepository.AffectedRows(db)
    case Threw(e) => Threw(e)
    case Returned(updated) => Returned(UpdateResponse(user, updated))
  }

  /** A database that returns no identity at all makes the earlier CreateUser answer 500. */
  lemma NoIdentityIsCreateError(user: UserRequest, now: DateTime)
    ensures CreateUser(user, now, Done([])) == Returned(CreateUserError)
  {
  }

  /** With one generated identity, both versions create the same response, payload included. */
  lemma CreateAgrees(user: UserRequest, now: DateTime, id: int)
    ensures CreateUser(user, now, Done([id])) == Services.CreateOutcome(user, now, Done(id))
  {
    EnvelopeOfWithId(id, NewUser(user, now));
  }

  /** Past the connection, the two versions answer a retrieval identically. */
  lemma RetrieveAgrees(userId: int, db: DbResult<Users>)
    requires !db.ConnectionFailed?
    ensures RetrieveUser(userId, db) == Services.RetrieveOutcome(userId, db)
  {
  }

  /** Past the connection, the two versions answer a deletion identically. */
  lemma DeleteAgrees(userId: int, db: DbResult<int>)
    requires !db.ConnectionFailed?
    ensures DeleteUser(userId, db) == Services.DeleteOutcome(userId, db)
  {
  }

  /**
   * Past the connection, the two versions answer an update with the same code and
   * message; only the current one attaches the updated user.
   */
  lemma UpdateDiffersOnlyInData(userId: int, user: UserRequest, now: DateTime, db: DbResult<int>)
    requires !db.ConnectionFailed?
    ensures var legacy, current := UpdateUser(userId, user, now, db), Services.UpdateOutcome(userId, user, now, db);
      && legacy.Threw? == current.Threw?
      && (legacy.Returned? ==> legacy.value == current.value.(data := None))
      && (legacy.Returned? ==> (current.value.data.Some? <==> current.value.responseCode == OK))
  {
  }

  /**
   * A failed connection that reports "no elements" is a not-found answer in the
   * current version but an exception in the earlier one.
   */
  lemma ConnectionFailureDiverges(userId: int)
    ensures DeleteUser(userId, ConnectionFailed(Raised(NoElementsMessage))).Threw?
    ensures Services.DeleteOutcome(userId, ConnectionFailed(Raised(NoElementsMessage))) == Returned(UserNotFound)
  {
  }
}
