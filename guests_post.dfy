/** `POST /api/guests` (server/api/guests/index.post.ts). */
module GuestsPost {
  import opened Wrappers
  import opened Http
  import Const
  import GuestLogin

  /** `guestSchema.parse` of this route: a stricter phone length. */
  function ParseBody(b: GuestLogin.GuestBody): (r: Option<GuestLogin.GuestBody>)
    ensures r.Some? <==> 1 <= |b.firstName| && 10 <= |b.phone| <= 15 && Const.IsPhoneNumber(b.phone)
    ensures r.Some? ==> r.value == b
  {
    if 1 <= |b.firstName| && 10 <= |b.phone| <= 15 && Const.IsPhoneNumber(b.phone) then Some(b) else None
  }

  /** Every body this route accepts the guest login accepts too, but not
      the other way round. */
  lemma StricterThanGuestLogin(b: GuestLogin.GuestBody)
    ensures ParseBody(b).Some? ==> GuestLogin.ParseBody(b).Some?
    ensures var short := GuestLogin.GuestBody("A", None, "12345678");
      GuestLogin.ParseBody(short).Some? && ParseBody(short).None?
  {
    var short := GuestLogin.GuestBody("A", None, "12345678");
    assert Const.IsPhoneNumber(short.phone);
  }

  /** The phone check is `phoneRegex` itself. */
  lemma AcceptedPhone(b: GuestLogin.GuestBody)
    ensures ParseBody(b).Some? <==> 1 <= |b.firstName| && 10 <= |b.phone| <= 15 && Const.Matches(Const.PhoneRegex, b.phone)
  {
    Const.PhoneRegexMeaning(b.phone);
  }

  datatype GuestRow = GuestRow(id: string, firstName: Option<string>)

  /** How a template literal shows a nullable column. */
  function Shown(s: Option<string>): string {
    if s.Some? then s.value else "null"
  }

  /** The handler; it has no `try`. */
  function Handle(b: GuestLogin.GuestBody, createGuest: GuestLogin.GuestBody -> Call<GuestRow>): (r: Reply<()>)
    ensures ParseBody(b).None? <==> r == Fail(ValidationError, None)
    ensures ParseBody(b).Some? && createGuest(b).Threw? <==> r == Fail(InternalError, None)
    ensures r.Ok? <==> ParseBody(b).Some? && createGuest(b).Returned?
    ensures r.Ok? ==> r.statusCode == 201
                      && r.message == "Guest " + Shown(createGuest(b).value.firstName) + " created successfully"
  {
    match ParseBody(b)
    case None => Fail(ValidationError, None)
    case Some(body) =>
      match createGuest(body)
      case Threw => Fail(InternalError, None)
      case Returned(newGuest) => Ok(201, "Guest " + Shown(newGuest.firstName) + " created successfully", ())
  }
}
