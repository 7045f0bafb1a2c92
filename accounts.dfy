/** How registration and login fit together. */
module Accounts {
  import opened Wrappers
  import opened Http
  import opened JsString
  import Register
  import Login

  /** The row the database holds after a registration: the columns
      `createUser` returned, with the hash that was stored. */
  function StoredRow(b: Register.RegisterBody, isEmail: string -> bool, u: Users): UserRow
    requires Register.Handle(b, isEmail, u).reply.Ok?
  {
    var created := u.createUser(Register.Handle(b, isEmail, u).inserted.value).value;
    UserRow(created.id, created.email, created.username, Register.Handle(b, isEmail, u).inserted.value.password, None)
  }

  /** Logging in with the trimmed address and password a registration
      stored, against a database holding that row and a hash check that
      accepts the password it was made from, writes the very session the
      registration wrote. */
  lemma RegisterThenLogin(b: Register.RegisterBody, isEmail: string -> bool, reg: Users, login: Users)
    requires Register.Handle(b, isEmail, reg).reply.Ok?
    requires isEmail(Trim(b.email))
    requires login.getUserByEmail(Trim(b.email)) == Returned(Some(StoredRow(b, isEmail, reg)))
    requires login.verifyPassword(Some(reg.hashPassword(Trim(b.password)).value), Trim(b.password)) == Returned(true)
    ensures Login.Handle(Login.LoginBody(Trim(b.email), Trim(b.password)), isEmail, login).reply.Ok?
    ensures Login.Handle(Login.LoginBody(Trim(b.email), Trim(b.password)), isEmail, login).session
            == Register.Handle(b, isEmail, reg).session
  {
    Register.StoresTrimmedValues(b, isEmail, reg);
  }
}
