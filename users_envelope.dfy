/**
 * Building the user payload from a stored user: every field but the password, with
 * the stored Id or with a given one (the newly generated identity).
 */
module UsersEnvelopes {
  import opened Responses
  import opened UserEntity

  /** The envelope shows exactly the non-secret fields of `u`, with Id `id`. */
  predicate Shows(e: UsersEnvelope, id: int, u: Users) {
    && e.id == id && e.name == u.name && e.lastName == u.lastName && e.birthdate == u.birthdate
    && e.document == u.document && e.login == u.login
    && e.createdAt == u.createdAt && e.updatedAt == u.updatedAt
  }

  /** `new UsersEnvelope(user)`. */
  function EnvelopeOf(u: Users): (e: UsersEnvelope)
    ensures Shows(e, u.id, u)
  {
    UsersEnvelope(u.id, u.name, u.lastName, u.birthdate, u.document, u.login, u.createdAt, u.updatedAt)
  }

  /** `new UsersEnvelope(userId, user)`: the given Id replaces the stored one. */
  function EnvelopeWithId(userId: int, u: Users): (e: UsersEnvelope)
    ensures Shows(e, userId, u)
  {
    UsersEnvelope(userId, u.name, u.lastName, u.birthdate, u.document, u.login, u.createdAt, u.updatedAt)
  }

  /** The envelope of a user with Id `id` is the one built with that Id. */
  lemma EnvelopeOfWithId(id: int, u: Users)
    ensures EnvelopeOf(u.(id := id)) == EnvelopeWithId(id, u)
    ensures EnvelopeWithId(u.id, u) == EnvelopeOf(u)
  {
  }
}
