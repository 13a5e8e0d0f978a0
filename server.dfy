/**
 * The request authenticator `authenticateToken` and the table of mounted
 * API prefixes. The signing secret comes from the `JWT_SECRET` variable
 * (`env`), the clock is the parameter `now` (seconds), the HMAC is `mac`.
 */
module Server {
  import opened Wrappers
  import opened Http
  import Text
  import Jwt

  const NoToken: string := "Access denied - No token provided"
  const BadToken: string := "Invalid token"

  /**
   * `authHeader && authHeader.split(' ')[1]`, kept only when truthy: the
   * second space-separated word. The first word (the scheme) is not looked
   * at, and words after the second are ignored.
   */
  function ExtractToken(header: Option<string>): (token: Option<string>)
    ensures token.Some? ==> header.Some? && token.value != "" && ' ' !in token.value
  {
    if header.None? || header.value == "" then None
    else
      var words := Text.Split(header.value, ' ');
      if |words| < 2 || words[1] == "" then None else Some(words[1])
  }

  /** The token is the second word whatever the first word is and whatever follows. */
  lemma SecondWord(scheme: string, token: string, rest: string)
    requires ' ' !in scheme && ' ' !in token && token != ""
    requires rest == "" || rest[0] == ' '
    ensures ExtractToken(Some(scheme + " " + token + rest)) == Some(token)
  {
    var h := scheme + " " + token + rest;
    if rest == "" {
      Text.JoinTwo(scheme, token, ' ');
      assert h == Text.Join([scheme, token], ' ');
      Text.SplitJoin([scheme, token], ' ');
    } else {
      var tail := Text.Split(rest[1..], ' ');
      var parts := [scheme, token] + tail;
      assert Text.Join(parts, ' ') == h by {
        assert parts[1..] == [token] + tail;
        assert Text.Join(parts[1..], ' ') == token + " " + Text.Join(tail, ' ');
        assert rest == " " + rest[1..];
      }
      Text.SplitJoin(parts, ' ');
    }
  }

  /** `Authorization: Bearer <token>` carries the token. */
  lemma BearerToken(token: string)
    requires ' ' !in token && token != ""
    ensures ExtractToken(Some("Bearer " + token)) == Some(token)
  {
    SecondWord("Bearer", token, "");
    assert "Bearer " + token == "Bearer" + " " + token + "";
  }

  /** `h` reads `scheme`, a space, `token`, then either nothing or a space and more. */
  predicate SecondWordOf(h: string, scheme: string, token: string, rest: string)
  {
    ' ' !in scheme && (rest == "" || rest[0] == ' ') && h == scheme + " " + token + rest
  }

  /** Conversely, an extracted token is the word after the first space, ended by a space or the header's end. */
  lemma ExtractedIsSecondWord(header: Option<string>)
    requires ExtractToken(header).Some?
    ensures var h, t := header.value, ExtractToken(header).value;
            exists scheme, rest :: SecondWordOf(h, scheme, t, rest)
  {
    var h := header.value;
    var words := Text.Split(h, ' ');
    var t := words[1];
    var rest := if |words| == 2 then "" else " " + Text.Join(words[2..], ' ');
    assert h == words[0] + " " + Text.Join(words[1..], ' ');
    if |words| == 2 {
      assert Text.Join(words[1..], ' ') == t;
    } else {
      assert words[1..][1..] == words[2..];
      assert Text.Join(words[1..], ' ') == t + " " + Text.Join(words[2..], ' ');
    }
    assert h == words[0] + " " + t + rest;
    assert ExtractToken(header).value == t;
    var scheme := words[0];
    assert SecondWordOf(h, scheme, t, rest);
  }

  /** A missing header, or one without a second word, is refused before the token is looked at. */
  lemma NoSecondWord(header: Option<string>)
    requires header.None? || ' ' !in header.value
    ensures ExtractToken(header).None?
  {
  }

  /** What the middleware decides for one request. */
  datatype Gate = Denied(response: Response<()>) | Admitted(user: Jwt.Payload)

  /**
   * `authenticateToken`: 401 when no token can be extracted; 403 when
   * `jwt.verify` refuses it (malformed, bad signature, expired); otherwise
   * the request goes on carrying the decoded payload.
   */
  function Authenticate(mac: Jwt.Mac, env: Option<string>, now: nat, header: Option<string>): (g: Gate)
    ensures g == Denied(Error(401, NoToken)) <==> ExtractToken(header).None?
    ensures g == Denied(Error(403, BadToken)) <==>
              ExtractToken(header).Some? && Jwt.Verify(mac, ExtractToken(header).value, Jwt.SecretFrom(env), now).Failure?
    ensures g.Admitted? ==> Jwt.Verify(mac, ExtractToken(header).value, Jwt.SecretFrom(env), now) == Success(g.user)
    ensures g.Denied? ==> g.response.status == 401 || g.response.status == 403
  {
    match ExtractToken(header)
    case None => Denied(Error(401, NoToken))
    case Some(token) =>
      match Jwt.Verify(mac, token, Jwt.SecretFrom(env), now)
      case Failure(_) => Denied(Error(403, BadToken))
      case Success(user) => Admitted(user)
  }

  /**
   * `Authorization: Bearer <token>` with a token the register or login route
   * signed `issued` seconds into the clock, read by this server under the
   * same `JWT_SECRET`: the request is admitted with exactly the signed claims
   * until 3600 seconds have passed, and refused with 403 from then on.
   */
  lemma IssuedTokenAuthenticates(mac: Jwt.Mac, env: Option<string>, claims: Jwt.Claims, issued: nat, now: nat)
    requires Jwt.UrlSafeMac(mac)
    ensures var token := Jwt.Sign(mac, claims, Jwt.SecretFrom(env), issued);
            Authenticate(mac, env, now, Some("Bearer " + token))
            == if now < issued + Jwt.Lifetime
               then Admitted(Jwt.Payload(claims.id, claims.role, issued, issued + Jwt.Lifetime))
               else Denied(Error(403, BadToken))
  {
    var secret := Jwt.SecretFrom(env);
    BearerToken(Jwt.Sign(mac, claims, secret, issued));
    Jwt.SignThenVerify(mac, claims, secret, issued, now);
  }

  /** The parts of an Express request the middleware reads and writes. */
  class Request {
    const authorization: Option<string>
    /** `req.user`. */
    var user: Option<Jwt.Payload>
    /** How many times the middleware called `next()`. */
    var nextCalls: nat

    constructor (authorization: Option<string>)
      ensures this.authorization == authorization && user.None? && nextCalls == 0
    {
      this.authorization := authorization;
      user := None;
      nextCalls := 0;
    }
  }

  /**
   * The middleware run on one request: a refusal is answered here and
   * `next` is not called; an admitted request gets `req.user` set to the
   * decoded payload and `next` called exactly once.
   */
  method AuthenticateToken(req: Request, mac: Jwt.Mac, env: Option<string>, now: nat)
    returns (answered: Option<Response<()>>)
    modifies req
    ensures match Authenticate(mac, env, now, req.authorization)
            case Denied(r) => answered == Some(r) && req.user == old(req.user) && req.nextCalls == old(req.nextCalls)
            case Admitted(u) => answered.None? && req.user == Some(u) && req.nextCalls == old(req.nextCalls) + 1
  {
    var token := ExtractToken(req.authorization);
    if token.None? {
      return Some(Error(401, NoToken));
    }
    var verified := Jwt.Verify(mac, token.value, Jwt.SecretFrom(env), now);
    if verified.Failure? {
      return Some(Error(403, BadToken));
    }
    req.user := Some(verified.value);
    req.nextCalls := req.nextCalls + 1;
    answered := None;
  }

  // ---------------------------------------------------------------- mounted prefixes

  /** One `app.use(prefix, [authenticateToken,] router)` line. */
  datatype Mount = Mount(prefix: string, guarded: bool)

  const AuthPrefix: string := "/api/auth"

  /** The API mounts in the order the server declares them. */
  const Mounts: seq<Mount> := [
    Mount(AuthPrefix, false),
    Mount("/api/pets", true),
    Mount("/api/appointments", true),
    Mount("/api/adoptions", true),
    Mount("/api/cart", true),
    Mount("/api/forum", true),
    Mount("/api/services", true),
    Mount("/api/health", true)
  ]

  /** Express mounts a router on its prefix and on every path below it. */
  predicate Under(prefix: string, path: string)
  {
    path == prefix || prefix + "/" <= path
  }

  /** The first mount whose prefix covers the path. */
  function RouteIn(mounts: seq<Mount>, path: string): (m: Option<Mount>)
    ensures m.Some? ==> m.value in mounts && Under(m.value.prefix, path)
    ensures m.None? ==> forall i :: 0 <= i < |mounts| ==> !Under(mounts[i].prefix, path)
  {
    if mounts == [] then None
    else if Under(mounts[0].prefix, path) then Some(mounts[0])
    else RouteIn(mounts[1..], path)
  }

  /** How a request to an API path fares before its router runs. */
  datatype Dispatched = Unmounted | Open(mount: Mount) | Refused(response: Response<()>) | Passed(mount: Mount, user: Jwt.Payload)

  /**
   * `app.use(prefix, [authenticateToken,] router)` in mount order: an
   * unmounted path goes nowhere, an open mount is reached directly, and a
   * guarded one only through the middleware, whose refusal is the response
   * and whose admitted payload the router receives.
   */
  function Dispatch(mac: Jwt.Mac, env: Option<string>, now: nat, path: string, header: Option<string>): (d: Dispatched)
    ensures d == Unmounted <==> RouteIn(Mounts, path).None?
    ensures d.Open? <==> RouteIn(Mounts, path).Some? && !RouteIn(Mounts, path).value.guarded
    ensures d.Open? || d.Passed? ==> RouteIn(Mounts, path) == Some(d.mount)
    ensures d.Refused? <==> RouteIn(Mounts, path).Some? && RouteIn(Mounts, path).value.guarded
                            && Authenticate(mac, env, now, header).Denied?
    ensures d.Refused? ==> Authenticate(mac, env, now, header) == Denied(d.response)
    ensures d.Passed? ==> Authenticate(mac, env, now, header) == Admitted(d.user)
  {
    match RouteIn(Mounts, path)
    case None => Unmounted
    case Some(m) =>
      if !m.guarded then Open(m)
      else match Authenticate(mac, env, now, header)
        case Denied(r) => Refused(r)
        case Admitted(u) => Passed(m, u)
  }

  /** Only the auth prefix is mounted without the middleware. */
  lemma OnlyAuthIsOpen()
    ensures forall i :: 0 <= i < |Mounts| ==> (Mounts[i].guarded <==> Mounts[i].prefix != AuthPrefix)
  {
  }

  /** `/api/auth` and every path below it is reachable without a token. */
  lemma AuthRoutesOpen(mac: Jwt.Mac, env: Option<string>, now: nat, path: string, header: Option<string>)
    requires Under(AuthPrefix, path)
    ensures Dispatch(mac, env, now, path, header) == Open(Mount(AuthPrefix, false))
  {
  }

  /**
   * Any other mounted path reaches its router only with a token the
   * middleware admits, and then with exactly the decoded payload.
   */
  lemma GuardedRoutesNeedToken(mac: Jwt.Mac, env: Option<string>, now: nat, path: string, header: Option<string>)
    requires RouteIn(Mounts, path).Some? && RouteIn(Mounts, path).value.prefix != AuthPrefix
    ensures Dispatch(mac, env, now, path, header).Refused? || Dispatch(mac, env, now, path, header).Passed?
    ensures Dispatch(mac, env, now, path, header).Passed? <==> Authenticate(mac, env, now, header).Admitted?
    ensures Dispatch(mac, env, now, path, header).Passed? ==>
              Dispatch(mac, env, now, path, header).user == Authenticate(mac, env, now, header).user
  {
    OnlyAuthIsOpen();
  }
}
