/** src/services/jwt_service.rs. A token is its payload together with the secret that signed it. */
module Jwt {
  import opened Wrappers
  import C = Constants
  import Decimal

  datatype Json = Str(text: string) | Num(n: int) | Arr(items: seq<Json>) | Other

  datatype Claims = Claims(
    sub: string, email: string, username: string, groups: seq<string>, namespace: string,
    organizationId: int, exp: int, iat: int, iss: string)

  datatype Token = Token(secret: string, payload: map<string, Json>)

  datatype Error = BadSignature | BadClaim(name: string) | WrongIssuer | Expired | BadSubject

  datatype JwtService = JwtService(secret: string, issuer: string)

  const ISSUER := "keyrunes"

  /** One hour, in seconds. */
  const TOKEN_TTL := 3600

  /** Seconds since the epoch, early enough for one more lifetime to fit an i64. */
  type Second = t: int | 0 <= t <= C.MAX_I64 - TOKEN_TTL

  /** Whom a token speaks for. */
  datatype Identity = Identity(
    userId: int, email: string, username: string, groups: seq<string>, namespace: string, organizationId: int)

  /** What a token minted for `id` at `now` says. */
  function NewClaims(id: Identity, issuer: string, now: Second): Claims {
    Claims(Decimal.Print(id.userId), id.email, id.username, id.groups, id.namespace, id.organizationId,
           now + TOKEN_TTL, now, issuer)
  }

  function Minted(svc: JwtService, id: Identity, now: Second): Token {
    Token(svc.secret, Payload(NewClaims(id, svc.issuer, now)))
  }

  function StrItems(texts: seq<string>): seq<Json> {
    seq(|texts|, i requires 0 <= i < |texts| => Str(texts[i]))
  }

  /** The JSON object that carries `c`. */
  function Payload(c: Claims): map<string, Json> {
    map["sub" := Str(c.sub), "email" := Str(c.email), "username" := Str(c.username),
        "groups" := Arr(StrItems(c.groups)), "namespace" := Str(c.namespace),
        "organization_id" := Num(c.organizationId), "exp" := Num(c.exp), "iat" := Num(c.iat), "iss" := Str(c.iss)]
  }

  method GenerateToken(svc: JwtService, id: Identity, now: Second) returns (token: Token)
    ensures token == Minted(svc, id, now)
  {
    var exp := now + TOKEN_TTL;
    var payload: map<string, Json> := map[];
    payload := payload["sub" := Str(Decimal.Print(id.userId))];
    payload := payload["email" := Str(id.email)];
    payload := payload["username" := Str(id.username)];
    payload := payload["groups" := Arr(StrItems(id.groups))];
    payload := payload["namespace" := Str(id.namespace)];
    payload := payload["organization_id" := Num(id.organizationId)];
    payload := payload["exp" := Num(exp)];
    payload := payload["iat" := Num(now)];
    payload := payload["iss" := Str(svc.issuer)];
    token := Token(svc.secret, payload);
  }

  function TextClaim(payload: map<string, Json>, name: string): Option<string> {
    if name in payload && payload[name].Str? then Some(payload[name].text) else None
  }

  function IntClaim(payload: map<string, Json>, name: string): Option<int> {
    if name in payload && payload[name].Num? && Decimal.IsI64(payload[name].n) then Some(payload[name].n) else None
  }

  predicate AllStr(items: seq<Json>) { forall i | 0 <= i < |items| :: items[i].Str? }

  function ItemTexts(items: seq<Json>): seq<string>
    requires AllStr(items)
  {
    seq(|items|, i requires 0 <= i < |items| => items[i].text)
  }

  function TextsClaim(payload: map<string, Json>, name: string): Option<seq<string>> {
    if name in payload && payload[name].Arr? && AllStr(payload[name].items) then Some(ItemTexts(payload[name].items))
      else None
  }

  /** The issuer and expiry checks; `exp` is the first second at which the token is refused. */
  function CheckClaims(issuer: string, c: Claims, now: int): Result<Claims, Error> {
    if c.iss != issuer then Err(WrongIssuer)
    else if now >= c.exp then Err(Expired)
    else Ok(c)
  }

  function VerifyToken(svc: JwtService, token: Token, now: int): Result<Claims, Error> {
    if token.secret != svc.secret then Err(BadSignature) else
    var p := token.payload;
    var sub := TextClaim(p, "sub");
    if sub.None? then Err(BadClaim("sub")) else
    var email := TextClaim(p, "email");
    if email.None? then Err(BadClaim("email")) else
    var username := TextClaim(p, "username");
    if username.None? then Err(BadClaim("username")) else
    var groups := TextsClaim(p, "groups");
    if groups.None? then Err(BadClaim("groups")) else
    var namespace := TextClaim(p, "namespace");
    if namespace.None? then Err(BadClaim("namespace")) else
    var organizationId := IntClaim(p, "organization_id");
    if organizationId.None? then Err(BadClaim("organization_id")) else
    var exp := IntClaim(p, "exp");
    if exp.None? then Err(BadClaim("exp")) else
    var iat := IntClaim(p, "iat");
    if iat.None? then Err(BadClaim("iat")) else
    var iss := TextClaim(p, "iss");
    if iss.None? then Err(BadClaim("iss")) else
    CheckClaims(svc.issuer,
                Claims(sub.value, email.value, username.value, groups.value, namespace.value,
                       organizationId.value, exp.value, iat.value, iss.value), now)
  }

  function RefreshToken(svc: JwtService, token: Token, now: Second): Result<Token, Error> {
    match VerifyToken(svc, token, now)
    case Err(e) => Err(e)
    case Ok(c) =>
      match Decimal.Parse(c.sub)
      case None => Err(BadSubject)
      case Some(userId) =>
        Ok(Minted(svc, Identity(userId, c.email, c.username, c.groups, c.namespace, c.organizationId), now))
  }

  function ExtractUserId(svc: JwtService, token: Token, now: int): Result<int, Error> {
    match VerifyToken(svc, token, now)
    case Err(e) => Err(e)
    case Ok(c) => match Decimal.Parse(c.sub) case None => Err(BadSubject) case Some(userId) => Ok(userId)
  }

  // ----- what verification accepts

  /** Each claim of `c` stands in `payload` with the type it must have. */
  predicate Carries(payload: map<string, Json>, c: Claims) {
    && Payload(c).Keys <= payload.Keys
    && forall name | name in Payload(c) :: payload[name] == Payload(c)[name]
  }

  lemma ItemsRoundTrip(texts: seq<string>, items: seq<Json>)
    ensures items == StrItems(texts) <==> AllStr(items) && ItemTexts(items) == texts
  {}

  /** Verification yields `c` exactly for an unexpired token of this service's secret and issuer that carries `c`. */
  lemma VerifiedExactly(svc: JwtService, token: Token, now: int, c: Claims)
    ensures VerifyToken(svc, token, now) == Ok(c) <==>
            && token.secret == svc.secret
            && Carries(token.payload, c)
            && Decimal.IsI64(c.organizationId) && Decimal.IsI64(c.exp) && Decimal.IsI64(c.iat)
            && c.iss == svc.issuer
            && now < c.exp
  {
    var p, q := token.payload, Payload(c);
    assert q.Keys == {"sub", "email", "username", "groups", "namespace", "organization_id", "exp", "iat", "iss"};
    if VerifyToken(svc, token, now) == Ok(c) {
      ItemsRoundTrip(c.groups, p["groups"].items);
    }
    if Carries(p, c) {
      assert forall name | name in q.Keys :: name in p && p[name] == q[name];
      ItemsRoundTrip(c.groups, q["groups"].items);
      assert TextClaim(p, "sub") == Some(c.sub) && TextClaim(p, "email") == Some(c.email)
        && TextClaim(p, "username") == Some(c.username);
      assert TextClaim(p, "namespace") == Some(c.namespace) && TextClaim(p, "iss") == Some(c.iss);
      assert TextsClaim(p, "groups") == Some(c.groups);
    }
  }

  /** A minted token is accepted for one hour, by its own service only, and yields back what went in. */
  lemma MintedLifetime(svc: JwtService, other: JwtService, id: Identity, iat: Second, now: int)
    requires Decimal.IsI64(id.userId) && Decimal.IsI64(id.organizationId)
    ensures now < iat + TOKEN_TTL ==>
              && VerifyToken(svc, Minted(svc, id, iat), now) == Ok(NewClaims(id, svc.issuer, iat))
              && ExtractUserId(svc, Minted(svc, id, iat), now) == Ok(id.userId)
    ensures now >= iat + TOKEN_TTL ==> VerifyToken(svc, Minted(svc, id, iat), now) == Err(Expired)
    ensures other.secret != svc.secret ==> VerifyToken(other, Minted(svc, id, iat), now) == Err(BadSignature)
  {
    VerifiedExactly(svc, Minted(svc, id, iat), iat, NewClaims(id, svc.issuer, iat));
    Decimal.ParsePrint(id.userId);
  }

  lemma RefreshOnce(svc: JwtService, id: Identity, iat: Second, now: Second)
    requires Decimal.IsI64(id.userId) && Decimal.IsI64(id.organizationId)
    ensures RefreshToken(svc, Minted(svc, id, iat), now) ==
            if now < iat + TOKEN_TTL then Ok(Minted(svc, id, now)) else Err(Expired)
  {
    MintedLifetime(svc, svc, id, iat, now);
    Decimal.ParsePrint(id.userId);
  }

  // ----- chains of refreshes

  function RefreshChain(svc: JwtService, token: Token, times: seq<Second>): Result<Token, Error>
    decreases |times|
  {
    if times == [] then Ok(token)
    else
      match RefreshToken(svc, token, times[0])
      case Err(e) => Err(e)
      case Ok(next) => RefreshChain(svc, next, times[1..])
  }

  predicate GapsUnderTtl(times: seq<Second>) {
    forall k | 0 < k < |times| :: times[k] < times[k - 1] + TOKEN_TTL
  }

  /** A chain of refreshes survives iff every gap is shorter than the lifetime, and it keeps every identity claim. */
  lemma {:induction false} RefreshChainSurvives(svc: JwtService, id: Identity, times: seq<Second>)
    requires Decimal.IsI64(id.userId) && Decimal.IsI64(id.organizationId)
    requires times != []
    ensures RefreshChain(svc, Minted(svc, id, times[0]), times[1..]) ==
            if GapsUnderTtl(times) then Ok(Minted(svc, id, times[|times| - 1])) else Err(Expired)
    decreases |times|
  {
    if |times| > 1 {
      var rest := times[1..];
      RefreshOnce(svc, id, times[0], times[1]);
      RefreshChainSurvives(svc, id, rest);
      assert forall k | 0 < k < |rest| :: rest[k] == times[k + 1] && rest[k - 1] == times[k];
      if GapsUnderTtl(rest) && times[1] < times[0] + TOKEN_TTL {
        forall k | 0 < k < |times| ensures times[k] < times[k - 1] + TOKEN_TTL {
          if k > 1 { assert rest[k - 1] < rest[k - 2] + TOKEN_TTL; }
        }
      }
    }
  }
}
