/** What the route handlers share: the reply they produce, the user rows and
    session they touch, and the database and hashing calls they await. */
module Http {
  import opened Wrappers

  /** A handler's reply: the object it returns, or the error that escapes it.
      An error message is `None` where it is an error object rethrown
      through `createError({ message: err })`. */
  datatype Reply<+T> = Ok(statusCode: int, message: string, body: T) | Fail(statusCode: int, error: Option<string>)

  /** The user columns the handlers read. */
  datatype UserRow = UserRow(
    id: string, email: Option<string>, username: Option<string>,
    password: Option<string>, passwordResetToken: Option<string>)

  /** The values handed to `createUser`; `None` is a column left out. */
  datatype NewUser = NewUser(
    email: Option<string>, password: Option<string>, username: Option<string>,
    isGuest: Option<bool>, firstName: Option<string>, lastName: Option<string>, phone: Option<string>)

  /** `session.user`; a guest session carries only `id` and `isGuest`. */
  datatype SessionUser = SessionUser(id: string, email: Option<string>, username: Option<string>, isGuest: bool)

  /** `setUserSession` merges into the session, `replaceUserSession` replaces
      it and sets the cookie's lifetime. */
  datatype SessionWrite = SetSession(user: SessionUser) | ReplaceSession(user: SessionUser, maxAge: int)

  /** The awaited calls of server/service/user.ts and the password helpers. */
  datatype Users = Users(
    getUserByEmail: string -> Call<Option<UserRow>>,
    createUser: NewUser -> Call<UserRow>,
    hashPassword: string -> Call<string>,
    verifyPassword: (Option<string>, string) -> Call<bool>,
    updatePassword: (string, string) -> Call<()>)

  /** `createError`'s default when a non-H3 error escapes a handler. */
  const InternalError: int := 500
  /** h3's status for a body `readValidatedBody` refuses. */
  const ValidationError: int := 400
}
