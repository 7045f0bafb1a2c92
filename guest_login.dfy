/** `POST /api/auth/guestLogin` (server/api/auth/guestLogin.post.ts). */
module GuestLogin {
  import opened Wrappers
  import opened Http
  import Const
  import Encrypt

  datatype GuestBody = GuestBody(firstName: string, lastName: Option<string>, phone: string)

  /** `guestSchema.parse`, with the length bounds of utils/const.ts. */
  function ParseBody(b: GuestBody): (r: Option<GuestBody>)
    ensures r.Some? <==> 1 <= |b.firstName|
                         && Const.MinPhoneNumberLength <= |b.phone| <= Const.MaxPhoneNumberLength
                         && Const.IsPhoneNumber(b.phone)
    ensures r.Some? ==> r.value == b
  {
    if 1 <= |b.firstName| && Const.MinPhoneNumberLength <= |b.phone| <= Const.MaxPhoneNumberLength
       && Const.IsPhoneNumber(b.phone)
    then Some(b) else None
  }

  /** The phone check is `phoneRegex` itself; that pattern caps a number at
      16 characters, so the schema's maximum of 20 never refuses one. */
  lemma AcceptedPhone(b: GuestBody)
    ensures ParseBody(b).Some? <==> 1 <= |b.firstName| && 8 <= |b.phone| <= 20 && Const.Matches(Const.PhoneRegex, b.phone)
    ensures ParseBody(b).Some? ==> |b.phone| <= 16
  {
    Const.PhoneRegexMeaning(b.phone);
    if Const.IsPhoneNumber(b.phone) {
      Const.PhoneNumberShape(b.phone);
    }
  }

  /** Three days, in seconds. */
  const SessionMaxAge: int := 60 * 60 * 24 * 3

  /** The values handed to `createUser`. */
  function GuestUser(b: GuestBody): NewUser {
    NewUser(None, None, None, Some(true), Some(b.firstName), b.lastName, Some(b.phone))
  }

  datatype Outcome = Outcome(reply: Reply<()>, inserted: Option<NewUser>, session: Option<SessionWrite>)

  const Failed: Outcome := Outcome(Fail(ValidationError, None), None, None)

  /** The handler: everything happens inside one `try`, whose `catch`
      answers 400. */
  function Handle(b: GuestBody, u: Users): (r: Outcome)
    ensures r.reply.Ok? <==> ParseBody(b).Some? && u.createUser(GuestUser(b)).Returned?
    ensures r.reply.Fail? ==> r == Failed
    ensures r.reply.Ok? ==>
      var row := u.createUser(GuestUser(b)).value;
      r.reply == Ok(200, "Guest login successful", ())
      && r.inserted == Some(NewUser(None, None, None, Some(true), Some(b.firstName), b.lastName, Some(b.phone)))
      && r.session == Some(ReplaceSession(SessionUser(Encrypt.EncodeId(row.id), None, None, true), 259200))
      && Encrypt.DecodeId(r.session.value.user.id) == Some(row.id)
  {
    match ParseBody(b)
    case None => Failed
    case Some(body) =>
      match u.createUser(GuestUser(body))
      case Threw => Failed
      case Returned(newUser) =>
        Encrypt.DecodeEncodeId(newUser.id);
        Outcome(Ok(200, "Guest login successful", ()), Some(GuestUser(body)),
                Some(ReplaceSession(SessionUser(Encrypt.EncodeId(newUser.id), None, None, true), SessionMaxAge)))
  }
}
