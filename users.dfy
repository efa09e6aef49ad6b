// The values shared by every component: the persisted user, the keys of the
// "users" cache and the failures the service reports.

module Wrappers {
  datatype Option<T> = None | Some(value: T)

  datatype Result<T, E> = Ok(value: T) | Err(error: E)
}

module Users {

  /** The persisted entity. `id` is a Java `long`: 0 until the store assigns one. */
  datatype User = User(id: int, name: string, email: string)

  /** The default value of the `long` id field of a user that was never saved. */
  const Unsaved: int := 0

  /** `new User(name, email)`: the two-argument constructor leaves the id at its default. */
  function NewUser(name: string, email: string): User
  {
    User(Unsaved, name, email)
  }

  /**
   * Key of an entry in the "users" cache. `get` and `deleteAndEvict` use their
   * `Long id` argument as the key, the name-keyed methods use a `String`; a
   * `Long` never equals a `String`, so the two kinds of key never collide.
   */
  datatype Key = IdKey(id: int) | NameKey(name: string)

  /** Failures the service passes on to its callers. */
  datatype Failure =
    | NotFound(id: int)       // `get`: EntityNotFoundException
    | NoRowToDelete(id: int)  // `deleteById` of an absent id: EmptyResultDataAccessException
}
