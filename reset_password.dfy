/** `POST /api/auth/reset-password` (server/api/auth/reset-password.post.ts). */
module ResetPassword {
  import opened Wrappers
  import opened Http
  import opened JsString

  datatype ResetBody = ResetBody(email: string, password: string, confirmPassword: string, token: string)

  /** `resetSchema.parse`: the field checks and the refinement that the two
      passwords agree. */
  function ParseBody(b: ResetBody, isEmail: string -> bool): (r: Option<ResetBody>)
    ensures r.Some? <==> isEmail(b.email) && 8 <= |b.password| <= 15 && b.password == b.confirmPassword
    ensures r.Some? ==> r.value == b
  {
    if isEmail(b.email) && 8 <= |b.password| <= 15 && b.password == b.confirmPassword then Some(b) else None
  }

  /** `jwt.verify` on the stored token: the payload's `resetCode` when the
      token is valid and unexpired, `None` when it is not. */
  type Verifier = string -> Call<Option<int>>

  /** `user.passwordResetToken || ''`. */
  function StoredToken(row: UserRow): string {
    if row.passwordResetToken.Some? then row.passwordResetToken.value else ""
  }

  /** `decoded && decoded.payload.resetCode === parseInt(token)`. */
  predicate CodeMatches(decoded: Option<int>, token: string) {
    decoded.Some? && ParseInt(token) == Some(decoded.value)
  }

  datatype Outcome = Outcome(reply: Reply<()>, updated: Option<(string, string)>)

  const Failed: Outcome := Outcome(Fail(InternalError, None), None)

  /** Whether every step of a reset succeeds. */
  predicate Resets(b: ResetBody, isEmail: string -> bool, u: Users, verify: Verifier) {
    ParseBody(b, isEmail).Some?
    && u.getUserByEmail(Trim(b.email)).Returned? && u.getUserByEmail(Trim(b.email)).value.Some?
    && var row := u.getUserByEmail(Trim(b.email)).value.value;
       verify(StoredToken(row)).Returned? && CodeMatches(verify(StoredToken(row)).value, b.token)
       && u.hashPassword(b.password).Returned?
       && u.updatePassword(row.id, u.hashPassword(b.password).value).Returned?
  }

  /** The handler: every error, the 404 and 403 it throws included, leaves
      through the catch as a 500. */
  function Handle(b: ResetBody, isEmail: string -> bool, u: Users, verify: Verifier): (r: Outcome)
    ensures r.reply.Ok? <==> Resets(b, isEmail, u, verify)
    ensures r.reply.Fail? ==> r == Failed
    ensures r.reply.Ok? ==>
      var row := u.getUserByEmail(Trim(b.email)).value.value;
      r.reply == Ok(200, "Password reset successfully", ())
      && r.updated == Some((row.id, u.hashPassword(b.password).value))
  {
    match ParseBody(b, isEmail)
    case None => Failed
    case Some(body) =>
      match u.getUserByEmail(Trim(body.email))
      case Threw => Failed
      case Returned(None) => Failed
      case Returned(Some(user)) =>
        match verify(StoredToken(user))
        case Threw => Failed
        case Returned(decoded) =>
          if !CodeMatches(decoded, body.token) then Failed
          else
            match u.hashPassword(body.password)
            case Threw => Failed
            case Returned(hashed) =>
              match u.updatePassword(user.id, hashed)
              case Threw => Failed
              case Returned(_) => Outcome(Ok(200, "Password reset successfully", ()), Some((user.id, hashed)))
  }

  /** A code sent as the decimal text of the stored code, with or without
      anything after it, passes the comparison; `NaN` never does. */
  lemma CodeComparison(code: nat, rest: string, token: string)
    requires rest != [] ==> !IsDecimalDigit(rest[0]) && rest[0] != 'x' && rest[0] != 'X'
    ensures CodeMatches(Some(code), DecimalText(code) + rest)
    ensures ParseInt(token).None? ==> forall d :: !CodeMatches(d, token)
  {
    ParseIntDecimal(code, rest);
  }

  /** A wrong code never changes a password. */
  lemma WrongCodeChangesNothing(b: ResetBody, isEmail: string -> bool, u: Users, verify: Verifier, row: UserRow)
    requires u.getUserByEmail(Trim(b.email)) == Returned(Some(row))
    requires verify(StoredToken(row)).Returned? && !CodeMatches(verify(StoredToken(row)).value, b.token)
    ensures Handle(b, isEmail, u, verify) == Failed
  {
  }
}
