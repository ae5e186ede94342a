/** The fixed user error envelopes and the validation-message factory (namespace Observer.Constants). */
module UserResponseErrors {
  import opened Responses
  import Http

  /** UserValidationErrorMessage(customMessage): a 400 carrying the given message and no data. */
  function UserValidationErrorMessage(customMessage: string): (r: UserResponse)
    ensures r.responseCode == Http.BadRequest && r.details == customMessage && r.data.None?
  {
    UserResponseWithDetails(Http.BadRequest, customMessage)
  }

  const CreateUserError: UserResponse :=
    UserResponseWithDetails(Http.InternalServerError, "Ocorreu um erro durante a criação do usuário.")
  const UserNotFound: UserResponse :=
    UserResponseWithDetails(Http.NotFound, "Nenhum usuário encontrado. O identificador informado não resultou em dados nesta ação.")
  const InternalServerError: UserResponse :=
    UserResponseWithDetails(Http.InternalServerError, "Ocorreu um erro durante a execução da requisição.")
  const InvalidUserId: UserResponse :=
    UserResponseWithDetails(Http.BadRequest, "Informe um 'userId' válido para a requisição.")

  /** The codes and messages of the fixed errors; none of them carries data. */
  lemma FixedUserErrors()
    ensures CreateUserError.responseCode == Http.InternalServerError
    ensures UserNotFound.responseCode == Http.NotFound
    ensures InternalServerError.responseCode == Http.InternalServerError
    ensures InternalServerError.details == "Ocorreu um erro durante a execução da requisição."
    ensures InvalidUserId.responseCode == Http.BadRequest
    ensures InvalidUserId.details == "Informe um 'userId' válido para a requisição."
    ensures CreateUserError.data.None? && UserNotFound.data.None?
    ensures InternalServerError.data.None? && InvalidUserId.data.None?
  {
  }
}
