/** The credentials sign-in and the two callbacks of the authentication options: `authorize`
    checks an email and password against the user table, `jwt` builds or refreshes the token,
    and `session` copies the token's user fields into the session. */
module Auth {
  import opened JsValues
  import opened Backend

  /** The two credential fields of the sign-in form; `None` stands for a missing field. */
  datatype Credentials = Credentials(email: Option<string>, password: Option<string>)

  /** The user object `authorize` returns. */
  datatype AuthUser = AuthUser(id: string, username: string, email: string,
                               fullname: Option<string>, photoUrl: Option<string>, role: string)

  /** A credential field is usable when it is present and not `""` (both are falsy). */
  predicate Present(s: Option<string>) {
    s.Some? && s.value != ""
  }

  /** The user object built from a user row: `id` is the row's `id_user` as text, the optional
      fields stay `null` when the row has none. */
  function UserOf(row: UserRow): (r: AuthUser)
    ensures r.id == row.idUser && r.username == row.username && r.email == row.email
    ensures r.fullname == row.fullName && r.photoUrl == row.photoUrl && r.role == row.role
  {
    AuthUser(row.idUser, row.username, row.email, row.fullName, row.photoUrl, row.role)
  }

  /** `authorize(credentials)`, with `compare(plaintext, hash)` standing for bcrypt's compare:
      a user is returned only for present credentials whose email belongs to a row whose
      stored hash matches the password. */
  function Authorize(credentials: Option<Credentials>, users: seq<UserRow>,
                     compare: (string, string) -> bool): (r: Option<AuthUser>)
    ensures r.Some? ==>
      && credentials.Some? && Present(credentials.value.email) && Present(credentials.value.password)
      && exists k :: 0 <= k < |users| && users[k].email == credentials.value.email.value
                     && compare(credentials.value.password.value, users[k].password)
                     && r.value == UserOf(users[k])
  {
    if credentials.None? || !Present(credentials.value.email) || !Present(credentials.value.password) then
      None
    else
      match UserByEmail(users, credentials.value.email.value)
      case None => None
      case Some(user) =>
        if !compare(credentials.value.password.value, user.password) then None else Some(UserOf(user))
  }

  /** A missing credential, or an empty one, yields `null`. */
  lemma AuthorizeNeedsBothFields(credentials: Option<Credentials>, users: seq<UserRow>,
                                 compare: (string, string) -> bool)
    requires credentials.None? || !Present(credentials.value.email) || !Present(credentials.value.password)
    ensures Authorize(credentials, users, compare).None?
  {
  }

  /** An email no user has yields `null`. */
  lemma AuthorizeUnknownEmail(credentials: Credentials, users: seq<UserRow>,
                              compare: (string, string) -> bool)
    requires credentials.email.Some?
    requires forall k :: 0 <= k < |users| ==> users[k].email != credentials.email.value
    ensures Authorize(Some(credentials), users, compare).None?
  {
  }

  /** For the user with that email: `null` when the password does not match its hash, and
      otherwise that user's fields. */
  lemma AuthorizeKnownEmail(credentials: Credentials, users: seq<UserRow>,
                            compare: (string, string) -> bool, k: nat)
    requires UniqueUsers(users) && k < |users|
    requires Present(credentials.email) && Present(credentials.password)
    requires users[k].email == credentials.email.value
    ensures Authorize(Some(credentials), users, compare) ==
            if compare(credentials.password.value, users[k].password) then Some(UserOf(users[k])) else None
  {
    UserByEmailIsTheRow(users, k);
  }

  const AdminLifetime: int := 60 * 60
  const UserLifetime: int := 24 * 60 * 60

  /** The expiry, in seconds, of a token issued at `now` for `role`. */
  function ExpiryFor(role: Option<string>, now: int): (r: int)
    ensures now < r <= now + 86400
    ensures r == now + 3600 <==> role == Some("ADMIN")
  {
    if role == Some("ADMIN") then now + AdminLifetime else now + UserLifetime
  }

  /** An admin token lives one hour, any other token one day. */
  lemma ExpiryLifetimes(role: Option<string>, now: int)
    ensures role == Some("ADMIN") ==> ExpiryFor(role, now) == now + 3600
    ensures role != Some("ADMIN") ==> ExpiryFor(role, now) == now + 86400
  {
  }

  /** Issued at the same time, an admin token expires strictly before any other. */
  lemma AdminExpiresEarlier(role: Option<string>, now: int)
    requires role != Some("ADMIN")
    ensures ExpiryFor(Some("ADMIN"), now) < ExpiryFor(role, now)
  {
  }

  /** The claims of a token: the user fields the callbacks set, the expiry, and every other
      claim the library keeps, which the callbacks carry along untouched. */
  datatype TokenData = TokenData(id: Option<string>, email: Option<string>, username: Option<string>,
                                 fullname: Option<string>, photoUrl: Option<string>,
                                 role: Option<string>, exp: Option<int>, rest: map<string, string>)

  /** `Math.floor(Date.now() / 1000)`. */
  function Seconds(nowMs: nat): nat {
    nowMs / 1000
  }

  /** The token built on sign-in: the old claims, with the user fields and a fresh expiry. */
  function LoginToken(token: TokenData, user: AuthUser, now: int): (r: TokenData)
    ensures r.rest == token.rest
    ensures r.id == Some(user.id) && r.role == Some(user.role)
    ensures r.email == Some(user.email) && r.username == Some(user.username)
    ensures r.fullname == user.fullname && r.photoUrl == user.photoUrl
    ensures r.exp == Some(if user.role == "ADMIN" then now + 3600 else now + 86400)
  {
    TokenData(Some(user.id), Some(user.email), Some(user.username), user.fullname, user.photoUrl,
              Some(user.role), Some(ExpiryFor(Some(user.role), now)), token.rest)
  }

  /** `!token.exp`: no expiry, or the falsy expiry 0. */
  predicate ExpiryMissing(exp: Option<int>) {
    exp.None? || exp.value == 0
  }

  /** The token after a later call without a user: a missing expiry is set from the token's
      own role; anything else is kept. */
  function RefreshedToken(token: TokenData, now: nat): (r: TokenData)
    ensures !ExpiryMissing(token.exp) ==> r == token
    ensures ExpiryMissing(token.exp) ==> r == token.(exp := Some(ExpiryFor(token.role, now)))
  {
    if ExpiryMissing(token.exp) then token.(exp := Some(ExpiryFor(token.role, now))) else token
  }

  /** Once set, the expiry stays: refreshing a refreshed token changes nothing, whatever the
      time of the second call. */
  lemma RefreshIdempotent(token: TokenData, now: nat, later: nat)
    ensures RefreshedToken(RefreshedToken(token, now), later) == RefreshedToken(token, now)
  {
  }

  /** The token object the library hands to the `jwt` callback. */
  class Token {
    var id: Option<string>
    var email: Option<string>
    var username: Option<string>
    var fullname: Option<string>
    var photoUrl: Option<string>
    var role: Option<string>
    var exp: Option<int>
    var rest: map<string, string>

    constructor (data: TokenData)
      ensures Data() == data
    {
      id, email, username, fullname, photoUrl := data.id, data.email, data.username, data.fullname, data.photoUrl;
      role, exp, rest := data.role, data.exp, data.rest;
    }

    function Data(): TokenData
      reads this
    {
      TokenData(id, email, username, fullname, photoUrl, role, exp, rest)
    }
  }

  /** The `jwt` callback. On sign-in it returns a new token; otherwise it sets a missing
      expiry on the token it was given, in place, and returns that token. */
  method Jwt(token: Token, user: Option<AuthUser>, nowMs: nat) returns (result: Token)
    modifies token`exp
    ensures user.Some? ==> fresh(result) && token.exp == old(token.exp)
                           && result.Data() == LoginToken(old(token.Data()), user.value, Seconds(nowMs))
    ensures user.None? ==> result == token && token.Data() == RefreshedToken(old(token.Data()), Seconds(nowMs))
  {
    if user.Some? {
      result := new Token(LoginToken(token.Data(), user.value, Seconds(nowMs)));
      return;
    }
    if token.exp.None? || token.exp.value == 0 {
      token.exp := Some(ExpiryFor(token.role, Seconds(nowMs)));
    }
    result := token;
  }

  datatype SessionUser = SessionUser(id: Option<string>, username: Option<string>, email: Option<string>,
                                     fullname: Option<string>, photoUrl: Option<string>, role: Option<string>)

  /** A session: its user, and the fields the library sets (here its expiry). */
  datatype Session = Session(user: SessionUser, expires: string)

  /** The `session` callback: the session keeps its own fields and takes its user from the
      token. */
  function SessionOf(session: Session, token: TokenData): (r: Session)
    ensures r.expires == session.expires
    ensures r.user == SessionUser(token.id, token.username, token.email, token.fullname, token.photoUrl,
                                  token.role)
  {
    Session(SessionUser(token.id, token.username, token.email, token.fullname, token.photoUrl, token.role),
            session.expires)
  }

  /** On a later request the `jwt` callback may set a missing expiry, which the session does not
      show: the session of a refreshed token is the session of the token before. */
  lemma RefreshKeepsSession(session: Session, token: TokenData, now: nat)
    ensures SessionOf(session, RefreshedToken(token, now)) == SessionOf(session, token)
  {
  }

  /** Whatever the earlier session and token held, the session after sign-in carries the
      fields of the user row that `authorize` accepted. */
  lemma SignInSession(credentials: Option<Credentials>, users: seq<UserRow>,
                      compare: (string, string) -> bool, session: Session, token: TokenData, now: int)
    requires Authorize(credentials, users, compare).Some?
    ensures var s := SessionOf(session, LoginToken(token, Authorize(credentials, users, compare).value, now));
            exists k :: 0 <= k < |users| && users[k].email == credentials.value.email.value
                        && s.user == SessionUser(Some(users[k].idUser), Some(users[k].username),
                                                 Some(users[k].email), users[k].fullName,
                                                 users[k].photoUrl, Some(users[k].role))
  {
    var u := Authorize(credentials, users, compare).value;
    var k :| 0 <= k < |users| && users[k].email == credentials.value.email.value
             && compare(credentials.value.password.value, users[k].password) && u == UserOf(users[k]);
    assert SessionOf(session, LoginToken(token, u, now)).user
           == SessionUser(Some(users[k].idUser), Some(users[k].username), Some(users[k].email),
                          users[k].fullName, users[k].photoUrl, Some(users[k].role));
  }

  /** The check the route handlers make: a session whose user has the role `"ADMIN"`. */
  predicate IsAdmin(session: Option<Session>) {
    session.Some? && session.value.user.role == Some("ADMIN")
  }
}
