/** `POST /api/auth/login` (server/api/auth/login.post.ts). */
module Login {
  import opened Wrappers
  import opened Http
  import Encrypt

  datatype LoginBody = LoginBody(email: string, password: string)

  /** `userSchema.parse`: nothing is trimmed here. */
  function ParseBody(b: LoginBody, isEmail: string -> bool): (r: Option<LoginBody>)
    ensures r.Some? <==> isEmail(b.email) && |b.email| <= 40 && 8 <= |b.password| <= 15
    ensures r.Some? ==> r.value == b
  {
    if isEmail(b.email) && |b.email| <= 40 && 8 <= |b.password| <= 15 then Some(b) else None
  }

  const InvalidCredentials: string := "Invalid email or password"

  datatype Outcome = Outcome(reply: Reply<()>, session: Option<SessionWrite>)

  function Failure(status: int, message: Option<string>): Outcome {
    Outcome(Fail(status, message), None)
  }

  /** The handler; it has no `try`, so a refused body is h3's 400 and a
      failing database or hash call a 500. */
  function Handle(b: LoginBody, isEmail: string -> bool, u: Users): (r: Outcome)
    ensures ParseBody(b, isEmail).None? <==> r.reply == Fail(ValidationError, None)
    ensures r.reply.Ok? <==>
      ParseBody(b, isEmail).Some? && u.getUserByEmail(b.email).Returned? && u.getUserByEmail(b.email).value.Some?
      && u.verifyPassword(u.getUserByEmail(b.email).value.value.password, b.password) == Returned(true)
    ensures r.reply.Fail? ==> r.session.None? && r.reply.statusCode in {400, 401, 500}
    ensures r.reply.Fail? && r.reply.statusCode == 401 ==> r.reply.error == Some(InvalidCredentials)
    ensures r.reply.Ok? ==>
      var row := u.getUserByEmail(b.email).value.value;
      r.reply.statusCode == 200 && r.reply.message == "Login successful"
      && r.session == Some(SetSession(SessionUser(Encrypt.EncodeId(row.id), row.email, row.username, false)))
      && Encrypt.DecodeId(r.session.value.user.id) == Some(row.id)
  {
    match ParseBody(b, isEmail)
    case None => Failure(ValidationError, None)
    case Some(body) =>
      match u.getUserByEmail(body.email)
      case Threw => Failure(InternalError, None)
      case Returned(None) => Failure(401, Some(InvalidCredentials))
      case Returned(Some(isUser)) =>
        match u.verifyPassword(isUser.password, body.password)
        case Threw => Failure(InternalError, None)
        case Returned(false) => Failure(401, Some(InvalidCredentials))
        case Returned(true) =>
          Encrypt.DecodeEncodeId(isUser.id);
          Outcome(Ok(200, "Login successful", ()),
                  Some(SetSession(SessionUser(Encrypt.EncodeId(isUser.id), isUser.email, isUser.username, false))))
  }

  /** An unknown address and a wrong password get the same reply, so the
      reply does not tell which addresses are registered. */
  lemma UnknownEmailLooksLikeWrongPassword(b: LoginBody, isEmail: string -> bool, unknown: Users, known: Users)
    requires ParseBody(b, isEmail).Some?
    requires unknown.getUserByEmail(b.email) == Returned(None)
    requires known.getUserByEmail(b.email).Returned? && known.getUserByEmail(b.email).value.Some?
    requires known.verifyPassword(known.getUserByEmail(b.email).value.value.password, b.password) == Returned(false)
    ensures Handle(b, isEmail, unknown) == Handle(b, isEmail, known)
    ensures Handle(b, isEmail, unknown).reply == Fail(401, Some(InvalidCredentials))
  {
  }
}
