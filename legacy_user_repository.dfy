/**
 * UserRepository of the earlier version: no logging, plain results (bool, row or
 * null, envelope), and the connection is obtained before the try block.
 */
module LegacyRepository {
  import opened Wrappers
  import opened Database
  import opened DomainResponses
  import opened Responses
  import opened UserEntity
  import opened UsersEnvelopes
  import Repository

  /**
   * DeleteUser/UpdateUser: n affected rows give n > 0; a query that throws the
   * no-elements exception gives false; any other failure, and any failure to connect,
   * propagates.
   */
  function AffectedRows(db: DbResult<int>): (o: Outcome<bool>)
    ensures o.Threw? <==> db.ConnectionFailed? || (db.QueryFailed? && !IsNoElements(db.error))
    ensures o.Threw? ==> o.error == db.error
    ensures o.Returned? ==> (o.value <==> db.Done? && db.value > 0)
  {
    match db
    case Done(n) => Returned(n > 0)
    case ConnectionFailed(e) => Threw(e)
    case QueryFailed(e) => if IsNoElements(e) then Returned(false) else Threw(e)
  }

  /** SelectUser: the row, null on the no-elements exception, a rethrow otherwise. */
  function Selected(db: DbResult<Users>): (o: Outcome<Option<Users>>)
    ensures o.Threw? <==> db.ConnectionFailed? || (db.QueryFailed? && !IsNoElements(db.error))
    ensures o.Threw? ==> o.error == db.error
    ensures o.Returned? ==> o.value == if db.Done? then Some(db.value) else None
  {
    match db
    case Done(u) => Returned(Some(u))
    case ConnectionFailed(e) => Threw(e)
    case QueryFailed(e) => if IsNoElements(e) then Returned(None) else Threw(e)
  }

  /** Enumerable.FirstOrDefault over the returned identities. */
  function FirstOrDefault(ids: seq<int>): (id: int)
    ensures |ids| == 0 ==> id == 0
    ensures |ids| > 0 ==> id == ids[0]
  {
    if |ids| == 0 then 0 else ids[0]
  }

  /** InsertUser: the envelope of the inserted data, with the first returned identity (or 0) as Id. */
  function Inserted(userData: Users, db: DbResult<seq<int>>): (o: Outcome<UsersEnvelope>)
    ensures o.Threw? <==> !db.Done?
    ensures o.Threw? ==> o.error == db.error
    ensures o.Returned? ==> Shows(o.value, FirstOrDefault(db.value), userData)
  {
    match db
    case Done(ids) => Returned(EnvelopeWithId(FirstOrDefault(ids), userData))
    case ConnectionFailed(e) => Threw(e)
    case QueryFailed(e) => Threw(e)
  }

  /** Dispose runs in the finally block, which is only entered once the connection exists. */
  function Disposals<T>(db: DbResult<T>): (n: nat)
    ensures n == 0 <==> db.ConnectionFailed?
  {
    if db.ConnectionFailed? then 0 else 1
  }

  /**
   * Past the connection, the earlier DeleteUser/UpdateUser give exactly the Data of the
   * current version's result; on a failed connection the earlier version propagates
   * even the no-elements exception, which the current one maps to "not found".
   */
  lemma AffectedRowsAgreeAfterConnecting(db: DbResult<int>)
    ensures !db.ConnectionFailed? ==>
      match Repository.AffectedRows(db)
      case Returned(r) => AffectedRows(db) == Returned(r.data)
      case Threw(e) => AffectedRows(db) == Threw(e)
    ensures db.ConnectionFailed? ==> AffectedRows(db).Threw?
    ensures db.ConnectionFailed? && IsNoElements(db.error) ==> Repository.AffectedRows(db) == Returned(ResponseError(false, Repository.NoDataFound))
  {
  }

  /** The same agreement for SelectUser: the row, or null, is the current version's Data. */
  lemma SelectedAgreesAfterConnecting(db: DbResult<Users>)
    ensures !db.ConnectionFailed? ==>
      match Repository.Selected(db)
      case Returned(r) => Selected(db) == Returned(r.data)
      case Threw(e) => Selected(db) == Threw(e)
  {
  }

  /**
   * When the database hands back one identity, both versions report the inserted data
   * under that identity.
   */
  lemma InsertedAgrees(userData: Users, id: int)
    ensures Repository.Inserted(userData, Done(id)).Returned?
    ensures Inserted(userData, Done([id])) == Returned(EnvelopeOf(Repository.Inserted(userData, Done(id)).value.data))
  {
    EnvelopeOfWithId(id, userData);
  }

  class LegacyUserRepository {
    const context: SqlServerContext

    constructor (context: SqlServerContext)
      ensures this.context == context
    {
      this.context := context;
    }

    method DeleteUser(userId: int, db: DbResult<int>) returns (o: Outcome<bool>)
      modifies context
      ensures o == AffectedRows(db)
      ensures context.disposals == old(context.disposals) + Disposals(db)
    {
      match db {
        case ConnectionFailed(ex) =>
          o := Threw(ex);
        case QueryFailed(ex) =>
          o := if ex.Message() == NoElementsMessage then Returned(false) else Threw(ex);
          context.DisposeAsync();
        case Done(n) =>
          o := Returned(n > 0);
          context.DisposeAsync();
      }
    }

    method InsertUser(userData: Users, db: DbResult<seq<int>>) returns (o: Outcome<UsersEnvelope>)
      modifies context
      ensures o == Inserted(userData, db)
      ensures context.disposals == old(context.disposals) + Disposals(db)
    {
      match db {
        case ConnectionFailed(ex) =>
          o := Threw(ex);
        case QueryFailed(ex) =>
          o := Threw(ex);
          context.DisposeAsync();
        case Done(ids) =>
          o := Returned(EnvelopeWithId(if |ids| == 0 then 0 else ids[0], userData));
          context.DisposeAsync();
      }
    }

    method SelectUser(userId: int, db: DbResult<Users>) returns (o: Outcome<Option<Users>>)
      modifies context
      ensures o == Selected(db)
      ensures context.disposals == old(context.disposals) + Disposals(db)
    {
      match db {
        case ConnectionFailed(ex) =>
          o := Threw(ex);
        case QueryFailed(ex) =>
          o := if ex.Message() == NoElementsMessage then Returned(None) else Threw(ex);
          context.DisposeAsync();
        case Done(u) =>
          o := Returned(Some(u));
          context.DisposeAsync();
      }
    }

    method UpdateUser(userData: Users, db: DbResult<int>) returns (o: Outcome<bool>)
      modifies context
      ensures o == AffectedRows(db)
      ensures context.disposals == old(context.disposals) + Disposals(db)
    {
      match db {
        case ConnectionFailed(ex) =>
          o := Threw(ex);
        case QueryFailed(ex) =>
          o := if ex.Message() == NoElementsMessage then Returned(false) else Threw(ex);
          context.DisposeAsync();
        case Done(n) =>
          o := Returned(n > 0);
          context.DisposeAsync();
      }
    }
  }
}
