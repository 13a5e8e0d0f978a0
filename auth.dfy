/**
 * The credential issuer, `POST /api/auth/register` and `POST /api/auth/login`,
 * over the `users` table. Hashing and signing are the parameters `kdf` and
 * `mac` (see modules Bcrypt and Jwt); the random salt and the clock are
 * parameters too, and `fault` says that a query against the database throws.
 */
module Auth {
  import opened Wrappers
  import opened Http
  import opened Tables
  import Bcrypt
  import Jwt

  /** A row of `users` (its `id` is the row key). */
  datatype User = User(name: Option<string>, email: string, passwordHash: Bcrypt.Digest, role: string)

  /** A request body; a field the client left out is None. */
  datatype RegisterBody = RegisterBody(name: Option<string>, email: Option<string>, password: Option<string>)
  datatype LoginBody = LoginBody(email: Option<string>, password: Option<string>)

  /** The user object both routes return; it has no place for the digest. */
  datatype PublicUser = PublicUser(id: nat, name: Option<string>, email: string, role: string)

  /** The success body of both routes: `{ message, token, user }`. */
  datatype Session = Session(message: string, token: string, user: PublicUser)

  const UserRole: string := "user"
  const Registered: string := "User registered successfully"
  const LoggedIn: string := "Login successful"
  const DuplicateEmail: string := "User already exists with this email"
  const RegisterFailed: string := "Server error during registration"
  const BadCredentials: string := "Invalid email or password"
  const LoginFailed: string := "Server error during login"

  /** No two users share an email. */
  ghost predicate UniqueEmails(rows: seq<Row<User>>)
  {
    forall i, j :: 0 <= i < j < |rows| ==> rows[i].data.email != rows[j].data.email
  }

  /** `SELECT * FROM users WHERE email = ?` and its first row; a missing email (NULL) matches nothing. */
  function FindByEmail(rows: seq<Row<User>>, email: Option<string>): (r: Option<Row<User>>)
    ensures r.Some? ==> email.Some? && r.value in rows && r.value.data.email == email.value
    ensures r.None? <==> email.None? || forall i :: 0 <= i < |rows| ==> rows[i].data.email != email.value
  {
    if email.None? || rows == [] then None
    else if rows[0].data.email == email.value then Some(rows[0])
    else FindByEmail(rows[1..], email)
  }

  /** With unique emails the lookup finds the one row that has the email. */
  lemma {:induction false} FindUnique(rows: seq<Row<User>>, k: nat)
    requires UniqueEmails(rows) && k < |rows|
    ensures FindByEmail(rows, Some(rows[k].data.email)) == Some(rows[k])
  {
    if k > 0 {
      assert rows[0].data.email != rows[k].data.email;
      assert rows[1..][k - 1] == rows[k];
      FindUnique(rows[1..], k - 1);
    }
  }

  /** A new row is found by its email once no older row had that email. */
  lemma {:induction false} FindAppended(rows: seq<Row<User>>, row: Row<User>)
    requires FindByEmail(rows, Some(row.data.email)).None?
    ensures FindByEmail(rows + [row], Some(row.data.email)) == Some(row)
  {
    if rows != [] {
      assert (rows + [row])[1..] == rows[1..] + [row];
      FindAppended(rows[1..], row);
    }
  }

  /** The public view of a row. */
  function View(row: Row<User>): (u: PublicUser)
    ensures u.id == row.id && u.email == row.data.email && u.role == row.data.role && u.name == row.data.name
  {
    PublicUser(row.id, row.data.name, row.data.email, row.data.role)
  }

  /** The register route gets as far as the INSERT: a fresh email and a password to hash. */
  predicate Admissible(rows: seq<Row<User>>, body: RegisterBody)
  {
    body.email.Some? && body.password.Some? && FindByEmail(rows, body.email).None?
  }

  /** The row a successful registration inserts. */
  function NewUser(body: RegisterBody, kdf: Bcrypt.Kdf, salt: string): (u: User)
    requires body.email.Some? && body.password.Some?
    ensures u.role == UserRole && u.email == body.email.value && u.name == body.name
    ensures Bcrypt.Compare(kdf, body.password.value, u.passwordHash)
  {
    User(body.name, body.email.value, Bcrypt.Hash(kdf, body.password.value, salt), UserRole)
  }

  /**
   * `POST /register`. In order: a failing query gives 500; an email already
   * present gives 400 and touches nothing; a missing password (bcrypt throws)
   * or a missing email (the NOT NULL column refuses it) gives 500; otherwise
   * exactly one row is appended with role 'user' and the digest, never the
   * password, and the reply is 201 with a one-hour token for `{id, role}`.
   */
  method Register(users: Table<User>, body: RegisterBody, kdf: Bcrypt.Kdf, mac: Jwt.Mac,
                  env: Option<string>, salt: string, now: nat, fault: bool)
    returns (res: Response<Session>)
    requires users.Valid()
    modifies users
    ensures users.Valid()
    ensures !Admissible(old(users.rows), body) || fault ==> users.rows == old(users.rows) && users.nextId == old(users.nextId)
    ensures fault ==> res == Error(500, RegisterFailed)
    ensures !fault && FindByEmail(old(users.rows), body.email).Some? ==> res == Error(400, DuplicateEmail)
    ensures !fault && FindByEmail(old(users.rows), body.email).None? && (body.email.None? || body.password.None?)
            ==> res == Error(500, RegisterFailed)
    ensures !fault && Admissible(old(users.rows), body) ==>
            var id := old(users.nextId);
            && users.rows == old(users.rows) + [Row(id, NewUser(body, kdf, salt))]
            && users.nextId == id + 1
            && res == Response(201, Json(Session(Registered,
                                                 Jwt.Sign(mac, Jwt.Claims(id, UserRole), Jwt.SecretFrom(env), now),
                                                 PublicUser(id, body.name, body.email.value, UserRole))))
    ensures UniqueEmails(old(users.rows)) ==> UniqueEmails(users.rows)
  {
    if fault {
      return Error(500, RegisterFailed);
    }
    if FindByEmail(users.rows, body.email).Some? {
      return Error(400, DuplicateEmail);
    }
    if body.password.None? || body.email.None? {
      return Error(500, RegisterFailed);
    }
    var row := NewUser(body, kdf, salt);
    var id := users.Insert(row);
    var token := Jwt.Sign(mac, Jwt.Claims(id, UserRole), Jwt.SecretFrom(env), now);
    res := Response(201, Json(Session(Registered, token, PublicUser(id, body.name, body.email.value, UserRole))));
  }

  /**
   * `POST /login`, which only reads the table. A missing user and a wrong
   * password give the same 400; a query failure, or a missing password for an
   * existing user (bcrypt throws), gives 500; otherwise 200 with a fresh
   * one-hour token for the stored row's `{id, role}` and its public view.
   */
  function Login(rows: seq<Row<User>>, body: LoginBody, kdf: Bcrypt.Kdf, mac: Jwt.Mac,
                 env: Option<string>, now: nat, fault: bool): (r: Response<Session>)
    ensures r.status == 500 <==> fault || (FindByEmail(rows, body.email).Some? && body.password.None?)
    ensures r.status == 500 ==> r == Error(500, LoginFailed)
    ensures r.status == 400 <==>
              && !fault
              && (|| FindByEmail(rows, body.email).None?
                  || (body.password.Some? && !Bcrypt.Compare(kdf, body.password.value, FindByEmail(rows, body.email).value.data.passwordHash)))
    ensures r.status == 400 ==> r == Error(400, BadCredentials)
    ensures r.status == 200 || r.status == 400 || r.status == 500
    ensures r.status == 200 ==>
              var row := FindByEmail(rows, body.email).value;
              r == Response(200, Json(Session(LoggedIn, Jwt.Sign(mac, Jwt.Claims(row.id, row.data.role), Jwt.SecretFrom(env), now), View(row))))
  {
    if fault then Error(500, LoginFailed)
    else match FindByEmail(rows, body.email)
      case None => Error(400, BadCredentials)
      case Some(row) =>
        if body.password.None? then Error(500, LoginFailed)
        else if !Bcrypt.Compare(kdf, body.password.value, row.data.passwordHash) then Error(400, BadCredentials)
        else Response(200, Json(Session(LoggedIn, Jwt.Sign(mac, Jwt.Claims(row.id, row.data.role), Jwt.SecretFrom(env), now), View(row))))
  }

  /** An unknown email and a wrong password are indistinguishable to the caller. */
  lemma UnknownEmailLikeWrongPassword(rows: seq<Row<User>>, unknown: LoginBody, wrong: LoginBody,
                                      kdf: Bcrypt.Kdf, mac: Jwt.Mac, env: Option<string>, now: nat)
    requires FindByEmail(rows, unknown.email).None?
    requires FindByEmail(rows, wrong.email).Some? && wrong.password.Some?
    requires !Bcrypt.Compare(kdf, wrong.password.value, FindByEmail(rows, wrong.email).value.data.passwordHash)
    ensures Login(rows, unknown, kdf, mac, env, now, false) == Login(rows, wrong, kdf, mac, env, now, false)
    ensures Login(rows, unknown, kdf, mac, env, now, false) == Error(400, BadCredentials)
  {
  }

  /**
   * Without a password the two are told apart: a known email makes
   * `bcrypt.compare` throw (500), an unknown one is refused before it (400),
   * so the status reveals whether an email is registered.
   */
  lemma MissingPasswordRevealsEmail(rows: seq<Row<User>>, known: LoginBody, unknown: LoginBody,
                                    kdf: Bcrypt.Kdf, mac: Jwt.Mac, env: Option<string>, now: nat)
    requires FindByEmail(rows, known.email).Some? && known.password.None?
    requires FindByEmail(rows, unknown.email).None? && unknown.password.None?
    ensures Login(rows, known, kdf, mac, env, now, false) == Error(500, LoginFailed)
    ensures Login(rows, unknown, kdf, mac, env, now, false) == Error(400, BadCredentials)
  {
  }

  /**
   * After a successful registration the same email and password log in:
   * 200, with the new row's public view and a token for the new id and role
   * 'user' that verifies to those claims for the next hour.
   */
  lemma {:induction false} LoginAfterRegister(rows: seq<Row<User>>, id: nat, body: RegisterBody,
                                             kdf: Bcrypt.Kdf, mac: Jwt.Mac, env: Option<string>,
                                             salt: string, now: nat, later: nat)
    requires Admissible(rows, body)
    requires Jwt.UrlSafeMac(mac)
    ensures var after := rows + [Row(id, NewUser(body, kdf, salt))];
            var r := Login(after, LoginBody(body.email, body.password), kdf, mac, env, now, false);
            && r.status == 200
            && r.body.value.user == PublicUser(id, body.name, body.email.value, UserRole)
            && Jwt.Verify(mac, r.body.value.token, Jwt.SecretFrom(env), later)
               == if later < now + Jwt.Lifetime
                  then Success(Jwt.Payload(id, UserRole, now, now + Jwt.Lifetime))
                  else Failure(Jwt.Expired)
  {
    var row := Row(id, NewUser(body, kdf, salt));
    FindAppended(rows, row);
    Jwt.SignThenVerify(mac, Jwt.Claims(id, UserRole), Jwt.SecretFrom(env), now, later);
  }

  /** Once registered, the same email is refused: it is a duplicate of the new row. */
  lemma {:induction false} SecondRegisterIsDuplicate(rows: seq<Row<User>>, id: nat, body: RegisterBody,
                                                    kdf: Bcrypt.Kdf, salt: string, again: RegisterBody)
    requires Admissible(rows, body) && again.email == body.email
    ensures !Admissible(rows + [Row(id, NewUser(body, kdf, salt))], again)
    ensures FindByEmail(rows + [Row(id, NewUser(body, kdf, salt))], again.email) == Some(Row(id, NewUser(body, kdf, salt)))
  {
    FindAppended(rows, Row(id, NewUser(body, kdf, salt)));
  }
}
