/** Record Users, the row of the Users table, and its two constructors from a request. */
module UserEntity {
  import opened Wrappers
  import opened Dates
  import opened UserRequests

  datatype Users = Users(
    id: int,
    name: Option<string>,
    lastName: Option<string>,
    birthdate: DateTime,
    document: Option<string>,
    login: Option<string>,
    password: Option<string>,
    createdAt: DateTime,
    updatedAt: DateTime)

  /** The business fields of `u` are those of the request. */
  predicate CopiesRequest(u: Users, r: UserRequest) {
    && u.name == r.name && u.lastName == r.lastName && u.birthdate == r.birthdate
    && u.document == r.document && u.login == r.login && u.password == r.password
  }

  /** `new Users(request)`, for an insert: Id keeps its default 0; both timestamps are `now`. */
  function NewUser(request: UserRequest, now: DateTime): (u: Users)
    ensures u.id == 0 && CopiesRequest(u, request)
    ensures u.createdAt == now && u.updatedAt == now
  {
    Users(0, request.name, request.lastName, request.birthdate, request.document,
          request.login, request.password, now, now)
  }

  /** `new Users(userId, request)`, for an update: Id is the given one. */
  function UserWithId(userId: int, request: UserRequest, now: DateTime): (u: Users)
    ensures u.id == userId && CopiesRequest(u, request)
    ensures u.createdAt == now && u.updatedAt == now
  {
    Users(userId, request.name, request.lastName, request.birthdate, request.document,
          request.login, request.password, now, now)
  }

  /** The two constructors agree on every copied field and differ only in Id. */
  lemma ConstructorsDifferOnlyInId(userId: int, request: UserRequest, now: DateTime)
    ensures UserWithId(userId, request, now) == NewUser(request, now).(id := userId)
    ensures UserWithId(userId, request, now) == NewUser(request, now) <==> userId == 0
  {
  }
}
