/** `POST /api/auth/register` (server/api/auth/register.post.ts). */
module Register {
  import opened Wrappers
  import opened Http
  import opened JsString
  import Encrypt

  datatype RegisterBody = RegisterBody(email: string, password: string, username: string)

  /** `userSchema.parse`: zod runs each field's checks in order, so the
      email check sees the raw string and the length checks the trimmed
      one; the parsed body holds the trimmed strings. */
  function ParseBody(b: RegisterBody, isEmail: string -> bool): (r: Option<RegisterBody>)
    ensures r.Some? <==> isEmail(b.email) && |Trim(b.email)| <= 40
                         && 8 <= |Trim(b.password)| <= 15 && 3 <= |Trim(b.username)| <= 20
    ensures r.Some? ==> r.value.password == Trim(b.password) && r.value.username == Trim(b.username)
                        && r.value.email == Trim(b.email)
  {
    var email := Trim(b.email);
    var password := Trim(b.password);
    var username := Trim(b.username);
    if isEmail(b.email) && |email| <= 40 && 8 <= |password| <= 15 && 3 <= |username| <= 20
    then Some(RegisterBody(email, password, username))
    else None
  }

  /** The reply, and the row `createUser` inserted and the session written
      when they happened. */
  datatype Outcome = Outcome(reply: Reply<()>, inserted: Option<NewUser>, session: Option<SessionWrite>)

  const Failed: Outcome := Outcome(Fail(InternalError, None), None, None)

  /** `{ ...body, password: hashedPassword }`. */
  function UserData(body: RegisterBody, u: Users): NewUser
    requires u.hashPassword(body.password).Returned?
  {
    NewUser(Some(body.email), Some(u.hashPassword(body.password).value), Some(body.username), None, None, None, None)
  }

  /** The calls that must all succeed for a registration to go through. */
  predicate Registers(b: RegisterBody, isEmail: string -> bool, u: Users) {
    var p := ParseBody(b, isEmail);
    p.Some? && u.getUserByEmail(p.value.email) == Returned(None)
    && u.hashPassword(p.value.password).Returned?
    && u.createUser(UserData(p.value, u)).Returned?
  }

  /** The handler: every error, the "already exists" one included, leaves
      through the catch as a 500. */
  function Handle(b: RegisterBody, isEmail: string -> bool, u: Users): (r: Outcome)
    ensures r.reply.Fail? ==> r == Failed
    ensures r.reply.Ok? <==> Registers(b, isEmail, u)
    ensures r.reply.Ok? ==>
      r.reply.statusCode == 201 && r.reply.message == "Registration successful"
      && r.inserted == Some(UserData(ParseBody(b, isEmail).value, u))
      && r.session.Some? && r.session.value.SetSession? && !r.session.value.user.isGuest
      && Encrypt.DecodeId(r.session.value.user.id) == Some(u.createUser(r.inserted.value).value.id)
  {
    match ParseBody(b, isEmail)
    case None => Failed
    case Some(body) =>
      match u.getUserByEmail(body.email)
      case Threw => Failed
      case Returned(Some(_)) => Failed
      case Returned(None) =>
        match u.hashPassword(body.password)
        case Threw => Failed
        case Returned(hashed) =>
          var userData := UserData(body, u);
          match u.createUser(userData)
          case Threw => Failed
          case Returned(user) =>
            Encrypt.DecodeEncodeId(user.id);
            Outcome(Ok(201, "Registration successful", ()), Some(userData),
                    Some(SetSession(SessionUser(Encrypt.EncodeId(user.id), user.email, user.username, false))))
  }

  /** The row stores the hash of the trimmed password and the trimmed
      address and name, never the strings as sent. */
  lemma StoresTrimmedValues(b: RegisterBody, isEmail: string -> bool, u: Users)
    requires Handle(b, isEmail, u).reply.Ok?
    ensures Handle(b, isEmail, u).inserted
      == Some(NewUser(Some(Trim(b.email)), Some(u.hashPassword(Trim(b.password)).value), Some(Trim(b.username)),
                      None, None, None, None))
  {
  }

  /** An address that is already registered is refused with 500, not with the
      400 the handler throws inside its `try`. */
  lemma DuplicateEmailIsInternalError(b: RegisterBody, isEmail: string -> bool, u: Users, existing: UserRow)
    requires ParseBody(b, isEmail).Some?
    requires u.getUserByEmail(Trim(b.email)) == Returned(Some(existing))
    ensures Handle(b, isEmail, u).reply == Fail(500, None)
  {
  }
}
