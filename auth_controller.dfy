/**
 * The server's auth handlers: register, login, logout and current user, each a
 * status-code decision chain over the users table. Password hashing and
 * comparison are collaborators: the hash arrives as a value and the comparison
 * as a function; a signed token is represented by what is signed and its lifetime.
 */
module AuthController {
  import opened Wrappers
  import opened UserModel

  /** The JWT payload `{ id, email, role }`. */
  datatype Claims = Claims(id: int, email: string, role: Option<string>)

  /** `jwt.sign(claims, secret, { expiresIn })`; the signature itself is not modelled. */
  datatype Token = Signed(claims: Claims, expiresIn: string)

  /** The attributes the `token` cookie is set and cleared with. */
  datatype CookieOptions = CookieOptions(httpOnly: bool, secure: bool, sameSite: string)

  /** What a response does to the client's cookies. */
  datatype CookieAction =
    | NoCookie
    | SetCookie(name: string, token: Token, options: CookieOptions, maxAgeMs: int)
    | ClearCookie(name: string, options: CookieOptions)

  datatype Body = Message(text: string) | Registered(userId: int) | UserInfo(user: PublicUser)

  datatype Response = Response(status: int, body: Body, cookie: CookieAction)

  /** A request body field as JSON gives it: absent (or null) or a string. */
  type Field = Option<string>

  /** JavaScript truthiness of such a field: present and non-empty. */
  predicate Filled(f: Field)
  {
    f.Some? && f.value != ""
  }

  datatype RegisterBody = RegisterBody(username: Field, email: Field, password: Field)
  datatype LoginBody = LoginBody(email: Field, password: Field)

  const ServerError := Response(500, Message("Server error"), NoCookie)
  const FillAllFields := Response(400, Message("Please fill all fields"), NoCookie)

  /** `secure` only in production; `httpOnly` and `sameSite: 'none'` always. */
  function Options(production: bool): CookieOptions
  {
    CookieOptions(true, production, "none")
  }

  /** `sendToken`: a three-day token carrying id, email and role, in an httpOnly cookie that lives three days. */
  function SendToken(user: UserRow, production: bool): (c: CookieAction)
    ensures c.SetCookie? && c.name == "token"
    ensures c.token.claims == Claims(user.id, user.email, user.role)
    ensures c.options.httpOnly && c.options.secure == production
  {
    SetCookie("token", Signed(Claims(user.id, user.email, user.role), "3d"), Options(production),
              3 * 24 * 60 * 60 * 1000)
  }

  /** The cookie's `maxAge` is the token's `'3d'`: 259200000 milliseconds. */
  lemma CookieLivesAsLongAsToken(user: UserRow, production: bool)
    ensures SendToken(user, production).token.expiresIn == "3d"
    ensures SendToken(user, production).maxAgeMs == 3 * (24 * 60 * 60 * 1000) == 259200000
  {
  }

  /** The status `registerUser` answers with, given the users table it reads. */
  function RegisterStatus(users: seq<UserRow>, body: RegisterBody, dbUp: bool): (s: int)
    ensures s == 400 <==> !(Filled(body.username) && Filled(body.email) && Filled(body.password)) ||
                          (dbUp && FindUserByEmail(users, body.email.value).Some?)
    ensures s == 201 <==> Filled(body.username) && Filled(body.email) && Filled(body.password) && dbUp &&
                          FindUserByEmail(users, body.email.value).None?
    ensures s == 500 <==> Filled(body.username) && Filled(body.email) && Filled(body.password) && !dbUp
    ensures s == 201 ==> forall i :: 0 <= i < |users| ==> users[i].email != body.email.value
    ensures s in {201, 400, 500}
  {
    if !(Filled(body.username) && Filled(body.email) && Filled(body.password)) then 400
    else if !dbUp then 500
    else if FindUserByEmail(users, body.email.value).Some? then 400
    else 201
  }

  /**
   * `registerUser`: on 201 exactly one row is appended, holding the hash
   * (`hashed`, what bcrypt returned for the password) and never the password itself.
   */
  method RegisterUser(table: UserTable, body: RegisterBody, hashed: string, dbUp: bool)
    returns (r: Response)
    requires table.Valid()
    modifies table
    ensures table.Valid()
    ensures r.status == RegisterStatus(old(table.users), body, dbUp) && r.cookie == NoCookie
    ensures r.status == 201 ==> r.body.Registered? && r.body.userId == old(table.nextId)
    ensures r.status == 201 ==>
              table.users == old(table.users) +
                             [UserRow(r.body.userId, body.username.value, body.email.value, hashed, None)]
    ensures r.status != 201 ==> table.users == old(table.users)
  {
    if !(Filled(body.username) && Filled(body.email) && Filled(body.password)) {
      return FillAllFields;
    }
    if !dbUp {
      return ServerError;
    }
    var existing := FindUserByEmail(table.users, body.email.value);
    if existing.Some? {
      return Response(400, Message("User already exists"), NoCookie);
    }
    var insertId := table.CreateUser(body.username.value, body.email.value, hashed);
    r := Response(201, Registered(insertId), NoCookie);
  }

  /**
   * `loginUser`: 400 for a missing field, 404 for an unknown email, 400 when
   * `compare(password, hash)` fails; only success sets the cookie and it answers
   * with id, username and email.
   */
  function LoginUser(users: seq<UserRow>, body: LoginBody, compare: (string, string) -> bool,
                     dbUp: bool, production: bool): (r: Response)
    ensures r.status == 200 <==>
              Filled(body.email) && Filled(body.password) && dbUp &&
              FindUserByEmail(users, body.email.value).Some? &&
              compare(body.password.value, FindUserByEmail(users, body.email.value).value.password)
    ensures r.status == 404 <==>
              Filled(body.email) && Filled(body.password) && dbUp &&
              FindUserByEmail(users, body.email.value).None?
    ensures r.status == 400 <==>
              !(Filled(body.email) && Filled(body.password)) ||
              (dbUp && FindUserByEmail(users, body.email.value).Some? &&
               !compare(body.password.value, FindUserByEmail(users, body.email.value).value.password))
    ensures r.status == 500 <==> Filled(body.email) && Filled(body.password) && !dbUp
    ensures r.cookie.SetCookie? <==> r.status == 200
    ensures r.status == 200 ==>
              r.body == UserInfo(Public(FindUserByEmail(users, body.email.value).value)) &&
              r.cookie == SendToken(FindUserByEmail(users, body.email.value).value, production)
    ensures r.status in {200, 400, 404, 500}
  {
    if !(Filled(body.email) && Filled(body.password)) then FillAllFields
    else if !dbUp then ServerError
    else
      match FindUserByEmail(users, body.email.value)
      case None => Response(404, Message("User not found "), NoCookie)
      case Some(user) =>
        if !compare(body.password.value, user.password) then
          Response(400, Message("Invalid credentials"), NoCookie)
        else
          Response(200, UserInfo(Public(user)), SendToken(user, production))
  }

  /** `logout`: always 200, clearing the `token` cookie. */
  function Logout(production: bool): (r: Response)
    ensures r.status == 200 && r.cookie.ClearCookie? && r.cookie.name == "token"
  {
    Response(200, Message("Logged out"), ClearCookie("token", Options(production)))
  }

  /** The cookie is cleared with the attributes it was set with, so the browser drops the same cookie. */
  lemma LogoutClearsTheSetCookie(user: UserRow, production: bool)
    ensures Logout(production).cookie.name == SendToken(user, production).name
    ensures Logout(production).cookie.options == SendToken(user, production).options
  {
  }

  /**
   * `currentUser`: 401 without an identity carrying an email, 404 when that email
   * is no longer stored, otherwise the stored id, username and email.
   */
  function CurrentUser(users: seq<UserRow>, requestUser: Option<Claims>, dbUp: bool): (r: Response)
    ensures r.status == 401 <==> requestUser.None? || requestUser.value.email == ""
    ensures r.status == 404 <==> requestUser.Some? && requestUser.value.email != "" && dbUp &&
                                 FindUserByEmail(users, requestUser.value.email).None?
    ensures r.status == 500 <==> requestUser.Some? && requestUser.value.email != "" && !dbUp
    ensures r.status == 200 <==> requestUser.Some? && requestUser.value.email != "" && dbUp &&
                                 FindUserByEmail(users, requestUser.value.email).Some?
    ensures r.status == 200 ==>
              r.body == UserInfo(Public(FindUserByEmail(users, requestUser.value.email).value)) &&
              r.body.user.email == requestUser.value.email
    ensures r.cookie == NoCookie && r.status in {200, 401, 404, 500}
  {
    if requestUser.None? || requestUser.value.email == "" then
      Response(401, Message("Unauthorized"), NoCookie)
    else if !dbUp then ServerError
    else
      match FindUserByEmail(users, requestUser.value.email)
      case None => Response(404, Message("User not found"), NoCookie)
      case Some(u) => Response(200, UserInfo(Public(u)), NoCookie)
  }

  /** A user who registered can log in with a password that matches the stored hash, and `/auth/me` then finds them. */
  method RegisterThenLogin(table: UserTable, username: string, email: string, password: string,
                           hashed: string, compare: (string, string) -> bool, production: bool)
    returns (registered: Response, loggedIn: Response, me: Response)
    requires table.Valid()
    requires username != "" && email != "" && password != ""
    requires forall i :: 0 <= i < |table.users| ==> table.users[i].email != email
    requires compare(password, hashed)
    modifies table
    ensures registered.status == 201 && loggedIn.status == 200 && me.status == 200
    ensures loggedIn.cookie.SetCookie? && loggedIn.cookie.token.claims.email == email
    ensures registered.body.Registered? && loggedIn.body.UserInfo? &&
            loggedIn.body.user == PublicUser(registered.body.userId, username, email)
    ensures me.body == loggedIn.body
  {
    registered := RegisterUser(table, RegisterBody(Some(username), Some(email), Some(password)), hashed, true);
    FirstMatchIsNew(old(table.users), UserRow(registered.body.userId, username, email, hashed, None));
    loggedIn := LoginUser(table.users, LoginBody(Some(email), Some(password)), compare, true, production);
    me := CurrentUser(table.users, Some(loggedIn.cookie.token.claims), true);
  }

  /** When no earlier row has the email, the lookup finds the appended row. */
  lemma FirstMatchIsNew(users: seq<UserRow>, row: UserRow)
    requires forall i :: 0 <= i < |users| ==> users[i].email != row.email
    ensures FindUserByEmail(users + [row], row.email) == Some(row)
  {
    var all := users + [row];
    var r := FindUserByEmail(all, row.email);
    assert all[|users|] == row;
    var i :| 0 <= i < |all| && all[i] == r.value && forall j :: 0 <= j < i ==> all[j].email != row.email;
    assert i == |users|;
  }
}
