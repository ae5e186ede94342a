/**
 * The response envelopes the API returns: UserResponse (typed user payload) and
 * ResponseEnvelope (any payload), with the payload records they carry. All fields
 * are get-only in the source, so each envelope is an immutable value here.
 */
module Responses {
  import opened Wrappers
  import opened Http
  import opened Dates

  /** The user payload of a response: the stored user without its password. */
  datatype UsersEnvelope = UsersEnvelope(
    id: int,
    name: Option<string>,
    lastName: Option<string>,
    birthdate: DateTime,
    document: Option<string>,
    login: Option<string>,
    createdAt: DateTime,
    updatedAt: DateTime)

  /** The product payload of a response. */
  datatype ProductsEnvelope = ProductsEnvelope(
    id: int,
    name: Option<string>,
    category: Option<string>,
    description: Option<string>,
    stock: int,
    productionBatchDate: DateTime,
    createdAt: DateTime,
    updatedAt: DateTime)

  /** What the `object Data` of a ResponseEnvelope can hold. */
  datatype Payload = UserPayload(user: UsersEnvelope) | ProductPayload(product: ProductsEnvelope)

  /** Record UserResponse: a status code, a message and an optional user payload. */
  datatype UserResponse = UserResponse(responseCode: HttpStatusCode, details: string, data: Option<UsersEnvelope>)

  /** `new UserResponse(code, details, data)`. */
  function NewUserResponse(code: HttpStatusCode, details: string, data: UsersEnvelope): (r: UserResponse)
    ensures r.responseCode == code && r.details == details && r.data == Some(data)
  {
    UserResponse(code, details, Some(data))
  }

  /** `new UserResponse(code, details)`: Data keeps its default, null. */
  function UserResponseWithDetails(code: HttpStatusCode, details: string): (r: UserResponse)
    ensures r.responseCode == code && r.details == details && r.data == None
  {
    UserResponse(code, details, None)
  }

  /** `new UserResponse(code)`: Details keeps its initialiser, the empty string, and Data is null. */
  function UserResponseWithCode(code: HttpStatusCode): (r: UserResponse)
    ensures r.responseCode == code && r.details == "" && r.data == None
  {
    UserResponse(code, "", None)
  }

  /** The three constructors agree on what they share and differ only in what they leave at its default. */
  lemma UserResponseConstructorsAgree(code: HttpStatusCode, details: string, data: UsersEnvelope)
    ensures UserResponseWithDetails(code, details) == NewUserResponse(code, details, data).(data := None)
    ensures UserResponseWithCode(code) == UserResponseWithDetails(code, "")
    ensures NewUserResponse(code, details, data) != UserResponseWithDetails(code, details)
  {
  }

  /** Record ResponseEnvelope: a status code, a message and an optional payload of any kind. */
  datatype ResponseEnvelope = ResponseEnvelope(responseCode: HttpStatusCode, details: string, data: Option<Payload>)

  /** `new ResponseEnvelope(code, details, data)`. */
  function NewResponseEnvelope(code: HttpStatusCode, details: string, data: Payload): (r: ResponseEnvelope)
    ensures r.responseCode == code && r.details == details && r.data == Some(data)
  {
    ResponseEnvelope(code, details, Some(data))
  }

  /** `new ResponseEnvelope(code, details)`: Data stays null. */
  function EnvelopeWithDetails(code: HttpStatusCode, details: string): (r: ResponseEnvelope)
    ensures r.responseCode == code && r.details == details && r.data == None
  {
    ResponseEnvelope(code, details, None)
  }

  /** `new ResponseEnvelope(code)`: Details is the empty string and Data is null. */
  function EnvelopeWithCode(code: HttpStatusCode): (r: ResponseEnvelope)
    ensures r.responseCode == code && r.details == "" && r.data == None
  {
    ResponseEnvelope(code, "", None)
  }

  /** The three ResponseEnvelope constructors agree in the same way as UserResponse's. */
  lemma EnvelopeConstructorsAgree(code: HttpStatusCode, details: string, data: Payload)
    ensures EnvelopeWithDetails(code, details) == NewResponseEnvelope(code, details, data).(data := None)
    ensures EnvelopeWithCode(code) == EnvelopeWithDetails(code, "")
    ensures NewResponseEnvelope(code, details, data) != EnvelopeWithDetails(code, details)
  {
  }
}
