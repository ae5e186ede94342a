/**
 * The repository result types IResponse<T>, ResponseOk<T> and ResponseError<T>:
 * a success flag, the data and an optional message, all get-only.
 */
module DomainResponses {
  import opened Wrappers

  /** IResponse<T>; `details` is None where the source leaves Details at its default, null. */
  datatype Response<T> = Response(isSuccess: bool, data: T, details: Option<string>)

  /** `new ResponseOk<T>(data, details)`. */
  function ResponseOk<T>(data: T, details: string): (r: Response<T>)
    ensures r.isSuccess && r.data == data && r.details == Some(details)
  {
    Response(true, data, Some(details))
  }

  /** `new ResponseOk<T>(data)`: Details stays null. */
  function ResponseOkData<T>(data: T): (r: Response<T>)
    ensures r.isSuccess && r.data == data && r.details == None
  {
    Response(true, data, None)
  }

  /** `new ResponseError<T>(data, details)`. */
  function ResponseError<T>(data: T, details: string): (r: Response<T>)
    ensures !r.isSuccess && r.data == data && r.details == Some(details)
  {
    Response(false, data, Some(details))
  }

  /** `new ResponseError<T>(data)`: Details stays null. */
  function ResponseErrorData<T>(data: T): (r: Response<T>)
    ensures !r.isSuccess && r.data == data && r.details == None
  {
    Response(false, data, None)
  }
}
