/**
 * The JSON Web Token primitive of `jsonwebtoken` as the server uses it
 * (RFC 7519 with an HS256 signature, RFC 7515 compact serialization):
 * `header.payload.signature`. The HMAC is left uninterpreted: `mac(input, key)`
 * stands for the base64url HMAC-SHA256 of `input` under `key`, and every
 * property below holds for every such `mac`. The payload segment is a
 * textual encoding of the four claims the server writes (id, role, iat, exp)
 * that, like base64url, contains neither '.' nor ' '.
 */
module Jwt {
  import opened Wrappers
  import Text

  /** `expiresIn: '1h'`, in seconds. */
  const Lifetime: nat := 3600

  /** The fallback both `jwt.sign` and `jwt.verify` use when `JWT_SECRET` is unset. */
  const DefaultSecret: string := "epc"

  /** base64url of `{"alg":"HS256","typ":"JWT"}`, the header `jwt.sign` writes. */
  const Header: string := "eyJhbGciOiJIUzI1NiIsInR5cCI6IkpXVCJ9"

  /** The keyed signature: (signing input, secret) to signature segment. */
  type Mac = (string, string) -> string

  /** The signature segment is base64url text, as HMAC output encoded by jws is. */
  ghost predicate UrlSafeMac(mac: Mac)
  {
    forall input, key :: Text.UrlSafe(mac(input, key))
  }

  /** What the issuer asks to be signed. */
  datatype Claims = Claims(id: nat, role: string)

  /** What `jwt.verify` hands back: the claims plus issue and expiry times (seconds). */
  datatype Payload = Payload(id: nat, role: string, iat: nat, exp: nat)

  /** Why `jwt.verify` refused a token; the middleware maps all three to the same 403. */
  datatype Rejection = Malformed | BadSignature | Expired

  /** `process.env.JWT_SECRET || 'epc'`: an unset or empty variable falls back to the default. */
  function SecretFrom(env: Option<string>): (secret: string)
    ensures secret != ""
    ensures env.Some? && env.value != "" ==> secret == env.value
    ensures env.None? || env.value == "" ==> secret == DefaultSecret
  {
    if env.Some? && env.value != "" then env.value else DefaultSecret
  }

  // ---------------------------------------------------------------- payload codec

  /** Width of one character code in the role encoding: 0x10FFFF has seven decimal digits. */
  const CodeWidth: nat := 7

  predicate IsScalar(n: int)
  {
    0 <= n < 0xD800 || 0xE000 <= n < 0x11_0000
  }

  function EncodeRole(role: string): (e: string)
    ensures |e| == CodeWidth * |role| && Text.AllDigits(e, 10)
  {
    if role == "" then ""
    else
      assert Text.Pow10(CodeWidth) == 10000000;
      Text.Padded(role[0] as int, CodeWidth) + EncodeRole(role[1..])
  }

  function DecodeRole(e: string): Option<string>
    decreases |e|
  {
    if e == "" then Some("")
    else if |e| < CodeWidth || !Text.AllDigits(e[..CodeWidth], 10) then None
    else
      var n := Text.Value(e[..CodeWidth], 10);
      if !IsScalar(n) then None
      else match DecodeRole(e[CodeWidth..])
        case None => None
        case Some(rest) => Some([n as char] + rest)
  }

  lemma {:induction false} RoleRoundTrip(role: string)
    ensures DecodeRole(EncodeRole(role)) == Some(role)
    decreases |role|
  {
    if role != "" {
      assert Text.Pow10(CodeWidth) == 10000000;
      var e := EncodeRole(role);
      var head := Text.Padded(role[0] as int, CodeWidth);
      assert e == head + EncodeRole(role[1..]);
      assert e[..CodeWidth] == head;
      assert e[CodeWidth..] == EncodeRole(role[1..]);
      Text.PaddedValue(role[0] as int, CodeWidth);
      RoleRoundTrip(role[1..]);
      assert [role[0]] + role[1..] == role;
    }
  }

  lemma DigitsExclude(s: string, c: char)
    requires Text.AllDigits(s, 10)
    requires !('0' <= c <= '9')
    ensures c !in s
  {
  }

  function EncodePayload(p: Payload): (e: string)
  {
    Text.Join([Text.Decimal(p.id), EncodeRole(p.role), Text.Decimal(p.iat), Text.Decimal(p.exp)], '-')
  }

  function DecodePayload(e: string): Option<Payload>
  {
    var f := Text.Split(e, '-');
    if |f| != 4 then None
    else match (Text.ParseDecimal(f[0]), DecodeRole(f[1]), Text.ParseDecimal(f[2]), Text.ParseDecimal(f[3]))
      case (Some(id), Some(role), Some(iat), Some(exp)) => Some(Payload(id, role, iat, exp))
      case _ => None
  }

  lemma DigitsUrlSafe(s: string)
    requires Text.AllDigits(s, 10)
    ensures Text.UrlSafe(s)
  {
    forall i | 0 <= i < |s| ensures Text.IsUrlSafeChar(s[i]) {
      assert Text.IsDigitIn(s[i], 10);
    }
  }

  /** Every payload segment is base64url text, so it holds neither '.' nor ' '. */
  lemma EncodedPayloadUrlSafe(p: Payload)
    ensures Text.UrlSafe(EncodePayload(p))
  {
    var a, b, c, d := Text.Decimal(p.id), EncodeRole(p.role), Text.Decimal(p.iat), Text.Decimal(p.exp);
    DigitsUrlSafe(a); DigitsUrlSafe(b); DigitsUrlSafe(c); DigitsUrlSafe(d);
    Text.JoinUrlSafe([a, b, c, d], '-');
  }

  /** The payload codec is a round trip. */
  lemma PayloadRoundTrip(p: Payload)
    ensures DecodePayload(EncodePayload(p)) == Some(p)
  {
    var f := [Text.Decimal(p.id), EncodeRole(p.role), Text.Decimal(p.iat), Text.Decimal(p.exp)];
    forall i | 0 <= i < 4 ensures '-' !in f[i] {
      DigitsExclude(f[i], '-');
    }
    Text.SplitJoin(f, '-');
    Text.DecimalRoundTrip(p.id);
    Text.DecimalRoundTrip(p.iat);
    Text.DecimalRoundTrip(p.exp);
    RoleRoundTrip(p.role);
  }

  // ---------------------------------------------------------------- sign and verify

  /**
   * `jwt.sign({id, role}, secret, {expiresIn: '1h'})` at time `now`
   * (seconds). With a base64url signature the token splits back into its
   * header, payload and signature, is not empty and holds no space.
   */
  function Sign(mac: Mac, claims: Claims, secret: string, now: nat): (token: string)
    ensures UrlSafeMac(mac) ==>
              var body := EncodePayload(Payload(claims.id, claims.role, now, now + Lifetime));
              Text.Split(token, '.') == [Header, body, mac(Header + "." + body, secret)]
    ensures UrlSafeMac(mac) ==> token != "" && ' ' !in token
  {
    var p := Payload(claims.id, claims.role, now, now + Lifetime);
    var body := EncodePayload(p);
    var sig := mac(Header + "." + body, secret);
    assert UrlSafeMac(mac) ==>
             Text.Split(Text.Join([Header, body, sig], '.'), '.') == [Header, body, sig]
             && Text.Join([Header, body, sig], '.') != "" && ' ' !in Text.Join([Header, body, sig], '.') by {
      if UrlSafeMac(mac) {
        EncodedPayloadUrlSafe(p);
        Segments(body, sig);
        Text.JoinThree(Header, body, sig, '.');
      }
    }
    Text.Join([Header, body, sig], '.')
  }

  /**
   * A token carries the secret's signature: three segments, the issuer's
   * header, a readable payload, and the MAC of the first two under the secret.
   */
  predicate Signed(mac: Mac, token: string, secret: string)
  {
    var parts := Text.Split(token, '.');
    |parts| == 3 && parts[0] == Header && DecodePayload(parts[1]).Some?
    && mac(Header + "." + parts[1], secret) == parts[2]
  }

  /** The payload segment of a token that has one. */
  function PayloadOf(token: string): Option<Payload>
  {
    var parts := Text.Split(token, '.');
    if |parts| == 3 then DecodePayload(parts[1]) else None
  }

  /**
   * `jwt.verify(token, secret)` at time `now`: three segments with the
   * issuer's header and a readable payload, then the signature, then
   * `exp` (expired once `now >= exp`, no clock tolerance). A token is
   * accepted exactly when it is signed and unexpired, with its own payload;
   * a signed token past its `exp` is refused as expired, an unsigned one
   * never is.
   */
  function Verify(mac: Mac, token: string, secret: string, now: nat): (r: Result<Payload, Rejection>)
    ensures r.Success? <==> Signed(mac, token, secret) && now < PayloadOf(token).value.exp
    ensures r.Success? ==> PayloadOf(token) == Some(r.value)
    ensures r == Failure(Expired) <==> Signed(mac, token, secret) && now >= PayloadOf(token).value.exp
    ensures !Signed(mac, token, secret) ==> r == Failure(Malformed) || r == Failure(BadSignature)
  {
    var parts := Text.Split(token, '.');
    if |parts| != 3 || parts[0] != Header then Failure(Malformed)
    else match DecodePayload(parts[1])
      case None => Failure(Malformed)
      case Some(p) =>
        if mac(Header + "." + parts[1], secret) != parts[2] then Failure(BadSignature)
        else if now >= p.exp then Failure(Expired)
        else Success(p)
  }

  lemma HeaderUrlSafe()
    ensures Text.UrlSafe(Header)
  {
  }

  /** Three base64url segments joined by '.' split back into themselves and hold no space. */
  lemma Segments(body: string, sig: string)
    requires Text.UrlSafe(body) && Text.UrlSafe(sig)
    ensures Text.Split(Text.Join([Header, body, sig], '.'), '.') == [Header, body, sig]
    ensures ' ' !in Text.Join([Header, body, sig], '.')
  {
    HeaderUrlSafe();
    Text.UrlSafeExcludes(body, '.');
    Text.UrlSafeExcludes(sig, '.');
    Text.UrlSafeExcludes(Header, '.');
    Text.SplitJoin([Header, body, sig], '.');
    Text.UrlSafeExcludes(body, ' ');
    Text.UrlSafeExcludes(sig, ' ');
    Text.UrlSafeExcludes(Header, ' ');
    Text.JoinExcludes([Header, body, sig], '.', ' ');
  }

  /**
   * A freshly signed token verifies under the same secret, to exactly the
   * signed claims with `exp = iat + 3600`, if and only if fewer than 3600
   * seconds have passed; afterwards it is refused as expired.
   */
  lemma SignThenVerify(mac: Mac, claims: Claims, secret: string, issued: nat, now: nat)
    requires UrlSafeMac(mac)
    ensures Verify(mac, Sign(mac, claims, secret, issued), secret, now)
         == if now < issued + Lifetime
            then Success(Payload(claims.id, claims.role, issued, issued + Lifetime))
            else Failure(Expired)
  {
    PayloadRoundTrip(Payload(claims.id, claims.role, issued, issued + Lifetime));
  }

  /**
   * Only a token that carries the secret's signature over its own header
   * and payload is accepted, and only before its `exp`: forging one means
   * producing `mac(input, secret)` without the secret.
   */
  lemma AcceptedTokensAreSigned(mac: Mac, token: string, secret: string, now: nat)
    requires Verify(mac, token, secret, now).Success?
    ensures exists body :: DecodePayload(body) == Some(Verify(mac, token, secret, now).value)
                        && token == Header + "." + body + "." + mac(Header + "." + body, secret)
    ensures now < Verify(mac, token, secret, now).value.exp
  {
    var parts := Text.Split(token, '.');
    assert token == Text.Join(parts, '.');
    assert parts == [parts[0], parts[1], parts[2]];
    Text.JoinThree(parts[0], parts[1], parts[2], '.');
    assert DecodePayload(parts[1]) == Some(Verify(mac, token, secret, now).value);
  }

  /**
   * A token signed under one secret is refused under another whose
   * signature over the same input differs.
   */
  lemma OtherSecretRejected(mac: Mac, claims: Claims, signer: string, verifier: string, issued: nat, now: nat)
    requires UrlSafeMac(mac)
    requires mac(Header + "." + EncodePayload(Payload(claims.id, claims.role, issued, issued + Lifetime)), signer)
          != mac(Header + "." + EncodePayload(Payload(claims.id, claims.role, issued, issued + Lifetime)), verifier)
    ensures Verify(mac, Sign(mac, claims, signer, issued), verifier, now) == Failure(BadSignature)
  {
    PayloadRoundTrip(Payload(claims.id, claims.role, issued, issued + Lifetime));
  }
}
