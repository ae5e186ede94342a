/** The fixed product error envelopes and the validation-message factory. */
module ProductResponseErrors {
  import opened Responses
  import Http

  /** ProductValidationErrorMessage(customMessage): a 400 envelope carrying the given message. */
  function ProductValidationErrorMessage(customMessage: string): (r: ResponseEnvelope)
    ensures r.responseCode == Http.BadRequest && r.details == customMessage && r.data.None?
  {
    EnvelopeWithDetails(Http.BadRequest, customMessage)
  }

  // The source names the product creation and not-found errors CreateUserError and UserNotFound.
  const CreateUserError: ResponseEnvelope :=
    EnvelopeWithDetails(Http.InternalServerError, "Ocorreu um erro durante a criação do produto.")
  const UserNotFound: ResponseEnvelope :=
    EnvelopeWithDetails(Http.NotFound, "Nenhum produrto encontrado. O identificador informado não resultou em dados nesta ação.")
  const InternalServerError: ResponseEnvelope :=
    EnvelopeWithDetails(Http.InternalServerError, "Ocorreu um erro durante a execução da requisição.")
  const InvalidProductId: ResponseEnvelope :=
    EnvelopeWithDetails(Http.BadRequest, "Informe um 'productId' válido para a requisição.")

  /** The codes and messages of the fixed product errors; none of them carries data. */
  lemma FixedProductErrors()
    ensures CreateUserError.responseCode == Http.InternalServerError
    ensures CreateUserError.details == "Ocorreu um erro durante a criação do produto."
    ensures UserNotFound.responseCode == Http.NotFound
    ensures InternalServerError.responseCode == Http.InternalServerError
    ensures InvalidProductId.responseCode == Http.BadRequest
    ensures InvalidProductId.details == "Informe um 'productId' válido para a requisição."
    ensures CreateUserError.data.None? && UserNotFound.data.None?
    ensures InternalServerError.data.None? && InvalidProductId.data.None?
  {
  }
}
