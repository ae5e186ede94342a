/**
 * The second user error table (namespace Observer.Presentation.Errors), built on
 * ResponseEnvelope instead of UserResponse.
 */
module PresentationUserErrors {
  import opened Responses
  import Http
  import UserResponseErrors

  /** UserValidationErrorMessage(customMessage): a 400 envelope carrying the given message and no data. */
  function UserValidationErrorMessage(customMessage: string): (r: ResponseEnvelope)
    ensures r.responseCode == Http.BadRequest && r.details == customMessage && r.data.None?
  {
    EnvelopeWithDetails(Http.BadRequest, customMessage)
  }

  const CreateUserError: ResponseEnvelope :=
    EnvelopeWithDetails(Http.InternalServerError, "Ocorreu um erro durante a criação do usuário.")
  const UserNotFound: ResponseEnvelope :=
    EnvelopeWithDetails(Http.NotFound, "Nenhum usuário encontrado. O identificador informado não resultou em dados nesta ação.")
  const InternalServerError: ResponseEnvelope :=
    EnvelopeWithDetails(Http.InternalServerError, "Ocorreu um erro durante a execução da requisição.")
  const InvalidUserId: ResponseEnvelope :=
    EnvelopeWithDetails(Http.BadRequest, "Informe um 'userId' válido para a requisição.")

  /** The same (code, message) pair as the corresponding UserResponse. */
  predicate SameAs(e: ResponseEnvelope, u: UserResponse) {
    e.responseCode == u.responseCode && e.details == u.details && e.data.None? && u.data.None?
  }

  /**
   * This table duplicates the Observer.Constants one entry by entry: same codes,
   * same messages, no data, for the fixed errors and for every validation message.
   */
  lemma MirrorsConstantsTable(customMessage: string)
    ensures SameAs(CreateUserError, UserResponseErrors.CreateUserError)
    ensures SameAs(UserNotFound, UserResponseErrors.UserNotFound)
    ensures SameAs(InternalServerError, UserResponseErrors.InternalServerError)
    ensures SameAs(InvalidUserId, UserResponseErrors.InvalidUserId)
    ensures SameAs(UserValidationErrorMessage(customMessage), UserResponseErrors.UserValidationErrorMessage(customMessage))
  {
  }
}
