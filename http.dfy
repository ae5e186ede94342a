/** The parts of System.Net and ASP.NET Core MVC that the controllers and envelopes use. */
module Http {

  /** The members of System.Net.HttpStatusCode that the code names. */
  datatype HttpStatusCode = Continue | OK | Created | BadRequest | NotFound | InternalServerError
  {
    /** The numeric value, as `(int)code` gives it. */
    function Code(): (n: int)
      ensures 100 <= n < 600
    {
      match this
      case Continue => 100
      case OK => 200
      case Created => 201
      case BadRequest => 400
      case NotFound => 404
      case InternalServerError => 500
    }
  }

  /** Distinct members have distinct numeric values, so casting to int loses nothing. */
  lemma CodeInjective(a: HttpStatusCode, b: HttpStatusCode)
    ensures a.Code() == b.Code() <==> a == b
  {
  }

  /**
   * What an action returns: either the value itself (the implicit conversion
   * `return response;`, which the host sends with its default status 200), or an
   * object result with an explicit status (`StatusCode(code, body)`, `Ok(body)`).
   */
  datatype ActionResult<T> = Value(value: T) | ObjectResult(statusCode: int, value: T)
  {
    /** The HTTP status the client receives. */
    function Status(): int {
      if Value? then 200 else statusCode
    }

    /** The body the client receives. */
    function Body(): T {
      value
    }
  }

  /** ControllerBase.StatusCode(int, object). */
  function StatusCode<T>(status: int, body: T): (r: ActionResult<T>)
    ensures r.Status() == status && r.Body() == body
  {
    ObjectResult(status, body)
  }

  /** ControllerBase.Ok(object): always status 200, whatever the body says. */
  function Ok<T>(body: T): (r: ActionResult<T>)
    ensures r.Status() == 200 && r.Body() == body
  {
    ObjectResult(200, body)
  }
}
