/**
 * The database as the repositories see it: the outcome of one Dapper call, and the
 * SQL Server context whose DisposeAsync every repository call ends with.
 */
module Database {
  import opened Wrappers

  /**
   * How one repository call's database work ended: the connection could not be
   * obtained, the query threw, or it produced a value (rows affected, generated
   * identity, the selected row).
   */
  datatype DbResult<+T> = ConnectionFailed(error: Exception) | QueryFailed(error: Exception) | Done(value: T)

  /** The message of the InvalidOperationException a single-row query throws on an empty result. */
  const NoElementsMessage := "Sequence contains no elements"

  /** The repositories recognise "not found" by the exception's Message alone. */
  predicate IsNoElements(e: Exception) {
    e.Message() == NoElementsMessage
  }

  /** Only a Raised exception can carry that message; the two built-in ones never do. */
  lemma NoElementsIsRaised(e: Exception)
    ensures IsNoElements(e) <==> e == Raised(NoElementsMessage)
  {
    if e.ArgumentNullException? {
      var prefix := "Value cannot be null. (Parameter '";
      assert e.Message()[0] == prefix[0] != NoElementsMessage[0];
    }
  }

  /** SqlServerContext, reduced to how often it was disposed. */
  class SqlServerContext {
    var disposals: nat

    constructor ()
      ensures disposals == 0
    {
      disposals := 0;
    }

    /** DisposeAsync: closes and disposes the connection, if any. */
    method DisposeAsync()
      modifies this
      ensures disposals == old(disposals) + 1
    {
      disposals := disposals + 1;
    }
  }
}
