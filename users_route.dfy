/** `POST /api/register`: read the body, check that neither the email nor the username is
    taken (the email first), hash the password and insert one user. */
module UsersRoute {
  import opened JsValues
  import opened Backend
  import opened Responses

  /** The fields the register schema yields once `confirmPassword` is left out. */
  datatype Registration = Registration(username: string, email: string, password: string)

  /** The row `prisma.users.create` writes: the database gives it `id` and the default
      `role`; the password column holds `hashed`, whatever `hash` returned. */
  function NewUser(registration: Registration, hashed: string, id: string, defaultRole: string): (r: UserRow)
    ensures r.email == registration.email && r.username == registration.username
    ensures r.password == hashed && r.idUser == id && r.role == defaultRole
    ensures r.fullName.None? && r.photoUrl.None?
  {
    UserRow(id, registration.username, registration.email, hashed, None, None, defaultRole)
  }

  /** A row whose email and username no row has keeps the table's unique constraints. */
  lemma FreshUserKeepsUnique(users: seq<UserRow>, row: UserRow)
    requires UniqueUsers(users)
    requires UserByEmail(users, row.email).None? && UserByUsername(users, row.username).None?
    ensures UniqueUsers(users + [row])
  {
    var all := users + [row];
    forall i, j | 0 <= i < j < |all|
      ensures all[i].email != all[j].email && all[i].username != all[j].username
    {
      if j == |users| {
        assert all[i] == users[i];
      }
    }
  }

  /** `POST /api/register`. `body` is the parsed and validated body, `None` when reading or
      validating it throws; `hash` stands for `bcrypt.hash(_, 10)`; `id` and `defaultRole`
      are what the database gives a new row. `emailLookupFails`, `usernameLookupFails`,
      `hashFails` and `writeFails` stand for a throw of the email lookup, the username lookup,
      the hash and the insert; each one ends in the catch block's 500.
      The email is looked up first, so when both are taken the answer is about the email;
      an answer other than 201 leaves the user table as it was. */
  method Register(env: Env, body: Option<Registration>, hash: string -> string, id: string,
                  defaultRole: string, emailLookupFails: bool, usernameLookupFails: bool,
                  hashFails: bool, writeFails: bool) returns (resp: Response)
    modifies env`users, env`log
    ensures body.None? ==>
              && resp == Response(500, Failure("User Creation Failed."))
              && env.log == old(env.log) + [ReadBody] && env.users == old(env.users)
    ensures body.Some? && emailLookupFails ==>
              && resp == Response(500, Failure("User Creation Failed."))
              && env.log == old(env.log) + [ReadBody, FindUserByEmail(body.value.email)]
              && env.users == old(env.users)
    ensures body.Some? && !emailLookupFails && UserByEmail(old(env.users), body.value.email).Some? ==>
              && resp == Response(409, UserResult(None, "Email is already registered."))
              && env.log == old(env.log) + [ReadBody, FindUserByEmail(body.value.email)]
              && env.users == old(env.users)
    ensures body.Some? && !emailLookupFails && UserByEmail(old(env.users), body.value.email).None?
            && usernameLookupFails ==>
              && resp == Response(500, Failure("User Creation Failed."))
              && env.log == old(env.log) + [ReadBody, FindUserByEmail(body.value.email),
                                            FindUserByUsername(body.value.username)]
              && env.users == old(env.users)
    ensures body.Some? && !emailLookupFails && UserByEmail(old(env.users), body.value.email).None?
            && !usernameLookupFails && UserByUsername(old(env.users), body.value.username).Some? ==>
              && resp == Response(409, UserResult(None, "Username is already taken."))
              && env.log == old(env.log) + [ReadBody, FindUserByEmail(body.value.email),
                                            FindUserByUsername(body.value.username)]
              && env.users == old(env.users)
    ensures body.Some? && !emailLookupFails && UserByEmail(old(env.users), body.value.email).None?
            && !usernameLookupFails && UserByUsername(old(env.users), body.value.username).None?
            && hashFails ==>
              && resp == Response(500, Failure("User Creation Failed."))
              && env.log == old(env.log) + [ReadBody, FindUserByEmail(body.value.email),
                                            FindUserByUsername(body.value.username), HashPassword]
              && env.users == old(env.users)
    ensures body.Some? && !emailLookupFails && UserByEmail(old(env.users), body.value.email).None?
            && !usernameLookupFails && UserByUsername(old(env.users), body.value.username).None?
            && !hashFails ==>
              var row := NewUser(body.value, hash(body.value.password), id, defaultRole);
              && env.log == old(env.log) + [ReadBody, FindUserByEmail(body.value.email),
                                            FindUserByUsername(body.value.username), HashPassword, CreateUser]
              && (writeFails ==> resp == Response(500, Failure("User Creation Failed.")) && env.users == old(env.users))
              && (!writeFails ==> resp == Response(201, UserResult(Some(row), "User created successfully."))
                                  && env.users == old(env.users) + [row])
    ensures UniqueUsers(old(env.users)) ==> UniqueUsers(env.users)
  {
    env.Record(ReadBody);
    if body.None? {
      return Response(500, Failure("User Creation Failed."));
    }
    var registration := body.value;
    env.Record(FindUserByEmail(registration.email));
    if emailLookupFails {
      return Response(500, Failure("User Creation Failed."));
    }
    if UserByEmail(env.users, registration.email).Some? {
      return Response(409, UserResult(None, "Email is already registered."));
    }
    env.Record(FindUserByUsername(registration.username));
    if usernameLookupFails {
      return Response(500, Failure("User Creation Failed."));
    }
    if UserByUsername(env.users, registration.username).Some? {
      return Response(409, UserResult(None, "Username is already taken."));
    }
    env.Record(HashPassword);
    if hashFails {
      return Response(500, Failure("User Creation Failed."));
    }
    var hashed := hash(registration.password);
    var row := NewUser(registration, hashed, id, defaultRole);
    if UniqueUsers(env.users) {
      FreshUserKeepsUnique(env.users, row);
    }
    var ok := env.InsertUser(row, writeFails);
    if !ok {
      return Response(500, Failure("User Creation Failed."));
    }
    resp := Response(201, UserResult(Some(row), "User created successfully."));
  }
}
