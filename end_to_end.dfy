/**
 * The browser client and the server together: the token the client keeps is
 * the bearer header the middleware reads, and a whole session runs from
 * registration to a refused request.
 */
module EndToEnd {
  import opened Wrappers
  import opened Http
  import opened Tables
  import Jwt
  import Auth
  import Bcrypt
  import Server
  import ApiClient

  /** The `authorization` header the server sees for a request with these headers. */
  function AuthorizationOf(headers: map<string, string>): (h: Option<string>)
    ensures h.Some? <==> ApiClient.Authorization in headers
  {
    if ApiClient.Authorization in headers then Some(headers[ApiClient.Authorization]) else None
  }

  /**
   * A client holding a token the server signed sends it so that the
   * middleware admits the request with the signed claims for an hour, and
   * refuses it with 403 afterwards.
   */
  lemma {:induction false} HeldTokenAdmitted(mac: Jwt.Mac, env: Option<string>, claims: Jwt.Claims,
                                            issued: nat, now: nat, caller: map<string, string>)
    requires Jwt.UrlSafeMac(mac)
    ensures var token := Jwt.Sign(mac, claims, Jwt.SecretFrom(env), issued);
            Server.Authenticate(mac, env, now, AuthorizationOf(ApiClient.RequestHeaders(Some(token), caller)))
            == if now < issued + Jwt.Lifetime
               then Server.Admitted(Jwt.Payload(claims.id, claims.role, issued, issued + Jwt.Lifetime))
               else Server.Denied(Error(403, Server.BadToken))
  {
    Server.IssuedTokenAuthenticates(mac, env, claims, issued, now);
  }

  /**
   * A client without a token, and whose caller adds no Authorization header
   * of its own, is refused with 401 on every guarded route.
   */
  lemma LoggedOutRefused(mac: Jwt.Mac, env: Option<string>, now: nat, path: string, caller: map<string, string>)
    requires ApiClient.Authorization !in caller
    requires Server.RouteIn(Server.Mounts, path).Some? && Server.RouteIn(Server.Mounts, path).value.prefix != Server.AuthPrefix
    ensures Server.Dispatch(mac, env, now, path, AuthorizationOf(ApiClient.RequestHeaders(None, caller)))
            == Server.Refused(Error(401, Server.NoToken))
  {
    Server.OnlyAuthIsOpen();
  }

  /** `/api/pets` is mounted behind the middleware. */
  lemma PetsGuarded()
    ensures Server.RouteIn(Server.Mounts, "/api/pets").Some?
    ensures Server.RouteIn(Server.Mounts, "/api/pets").value.prefix != Server.AuthPrefix
  {
  }

  /**
   * `/api/pets` with a token signed at `issued`: admitted as the signed
   * claims at that moment, refused with 403 an hour later, and refused with
   * 401 without the header.
   */
  lemma PetsGate(mac: Jwt.Mac, env: Option<string>, claims: Jwt.Claims, issued: nat)
    requires Jwt.UrlSafeMac(mac)
    ensures var header := Some("Bearer " + Jwt.Sign(mac, claims, Jwt.SecretFrom(env), issued));
            && Server.Dispatch(mac, env, issued, "/api/pets", header).Passed?
            && Server.Dispatch(mac, env, issued, "/api/pets", header).user
               == Jwt.Payload(claims.id, claims.role, issued, issued + Jwt.Lifetime)
            && Server.Dispatch(mac, env, issued + Jwt.Lifetime, "/api/pets", header)
               == Server.Refused(Error(403, Server.BadToken))
    ensures Server.Dispatch(mac, env, issued, "/api/pets", None) == Server.Refused(Error(401, Server.NoToken))
  {
    var header := Some("Bearer " + Jwt.Sign(mac, claims, Jwt.SecretFrom(env), issued));
    PetsGuarded();
    Server.IssuedTokenAuthenticates(mac, env, claims, issued, issued);
    Server.IssuedTokenAuthenticates(mac, env, claims, issued, issued + Jwt.Lifetime);
    Server.GuardedRoutesNeedToken(mac, env, issued, "/api/pets", header);
    Server.GuardedRoutesNeedToken(mac, env, issued + Jwt.Lifetime, "/api/pets", header);
    Server.GuardedRoutesNeedToken(mac, env, issued, "/api/pets", None);
  }

  /** What one run of the session below observed, step by step. */
  datatype Observed = Observed(registered: Response<Auth.Session>, duplicate: Response<Auth.Session>,
                               loggedIn: Response<Auth.Session>, current: Server.Dispatched,
                               expired: Server.Dispatched, anonymous: Server.Dispatched)

  /**
   * On an empty users table: Ann registers (201, with a token), registers
   * again under the same email (400), logs in (200, as the same id), reaches
   * `/api/pets` with the login token within the hour (as that id), is
   * refused with 403 once the token has expired, and with 401 without a
   * header.
   */
  method Walkthrough(users: Table<Auth.User>, kdf: Bcrypt.Kdf, mac: Jwt.Mac, env: Option<string>,
                     salt: string, now: nat)
    returns (o: Observed)
    requires users.Valid() && users.rows == []
    requires Jwt.UrlSafeMac(mac)
    modifies users
    ensures o.registered.status == 201 && o.registered.body.Json? && o.registered.body.value.token != ""
    ensures o.duplicate == Error(400, Auth.DuplicateEmail)
    ensures o.loggedIn.status == 200 && o.loggedIn.body.Json?
    ensures o.loggedIn.body.value.user.id == o.registered.body.value.user.id
    ensures o.current.Passed? && o.current.user.id == o.registered.body.value.user.id
    ensures o.expired == Server.Refused(Error(403, Server.BadToken))
    ensures o.anonymous == Server.Refused(Error(401, Server.NoToken))
    ensures |users.rows| == 1
  {
    var email := "a@x.com";
    var first := Auth.RegisterBody(Some("Ann"), Some(email), Some("pw1"));
    var registered := Auth.Register(users, first, kdf, mac, env, salt, now, false);
    var id := registered.body.value.user.id;

    var duplicate := Auth.Register(users, Auth.RegisterBody(Some("Ann2"), Some(email), Some("pw2")),
                                   kdf, mac, env, salt, now, false);
    Auth.SecondRegisterIsDuplicate([], id, first, kdf, salt, Auth.RegisterBody(Some("Ann2"), Some(email), Some("pw2")));

    var loggedIn := Auth.Login(users.rows, Auth.LoginBody(Some(email), Some("pw1")), kdf, mac, env, now, false);
    Auth.LoginAfterRegister([], id, first, kdf, mac, env, salt, now, now);
    Auth.FindAppended([], users.rows[0]);
    assert loggedIn.body.value.token == Jwt.Sign(mac, Jwt.Claims(id, Auth.UserRole), Jwt.SecretFrom(env), now);

    var header := Some("Bearer " + loggedIn.body.value.token);
    PetsGate(mac, env, Jwt.Claims(id, Auth.UserRole), now);
    var current := Server.Dispatch(mac, env, now, "/api/pets", header);
    var expired := Server.Dispatch(mac, env, now + Jwt.Lifetime, "/api/pets", header);
    var anonymous := Server.Dispatch(mac, env, now, "/api/pets", None);

    o := Observed(registered, duplicate, loggedIn, current, expired, anonymous);
  }
}
