/** Access tokens: a JSON payload and its signature, both in unpadded base64url, joined by a dot. */
module Tokens {
  import opened Options
  import Base64Url

  const MICROS := 1_000_000
  const FULL_SCOPE := "full"

  datatype Json = JString(text: string) | JInt(value: int) | JBool(truth: bool) | JOther(text: string)

  datatype Parsed = Malformed | NotObject | Object(fields: map<string, Json>)

  /** The JSON and HMAC libraries: `dumps`, `loads`, `str` of a JSON value, and the signature of a text
      under a secret. */
  datatype Libraries = Libraries(dumps: map<string, Json> -> seq<Base64Url.Byte>,
                                 loads: seq<int> -> Parsed,
                                 show: Json -> string,
                                 mac: (string, string) -> seq<Base64Url.Byte>)
  {
    /** Objects are read back as they were written and strings show as themselves. */
    ghost predicate Lawful() {
      && (forall fields :: loads(dumps(fields)) == Object(fields))
      && (forall text :: show(JString(text)) == text)
    }
  }

  datatype Context = Context(tenantId: string, userId: string, role: string, scope: string, tokenId: string, expiresAt: int)

  datatype Result<T> = Ok(value: T) | Invalid | MissingField

  /** The payload; times are in microseconds, `iat` and `exp` in whole seconds. */
  function Payload(c: Context, issuedAt: int, ttlSeconds: int, jti: string): map<string, Json> {
    map["tenant_id" := JString(c.tenantId), "user_id" := JString(c.userId), "role" := JString(c.role),
        "scope" := JString(c.scope), "iat" := JInt(issuedAt / MICROS),
        "exp" := JInt((issuedAt + ttlSeconds * MICROS) / MICROS), "jti" := JString(jti)]
  }

  /** `None` for an empty secret. */
  function CreateToken(lib: Libraries, c: Context, secret: string, issuedAt: int, ttlSeconds: int, jti: string): Option<string> {
    if secret == "" then None
    else
      var encoded := Base64Url.Encode(lib.dumps(Payload(c, issuedAt, ttlSeconds, jti)));
      Some(encoded + "." + Base64Url.Encode(lib.mac(secret, encoded)))
  }

  /** The parts before and after the first dot. */
  function SplitAtDot(token: string): Option<(string, string)> {
    if token == "" then None
    else if token[0] == '.' then Some(("", token[1..]))
    else match SplitAtDot(token[1..])
      case None => None
      case Some(parts) => Some(([token[0]] + parts.0, parts.1))
  }

  function DecodeToken(lib: Libraries, token: string, secret: string, now: int): Result<map<string, Json>> {
    match SplitAtDot(token)
    case None => Invalid
    case Some(parts) =>
      var (encoded, signature) := parts;
      if Base64Url.Decode(signature) != Some(lib.mac(secret, encoded)) then Invalid
      else match Base64Url.Decode(encoded)
        case None => Invalid
        case Some(bytes) =>
          match lib.loads(bytes)
          case Malformed => Invalid
          case NotObject => Invalid
          case Object(fields) => Checked(fields, now)
  }

  function Checked(fields: map<string, Json>, now: int): Result<map<string, Json>> {
    if "exp" !in fields || !fields["exp"].JInt? then Invalid
    else if now >= fields["exp"].value * MICROS then Invalid
    else if "jti" !in fields || !fields["jti"].JString? || fields["jti"].text == "" then Invalid
    else Ok(fields)
  }

  function VerifyToken(lib: Libraries, token: string, secret: string, now: int): Result<Context> {
    match DecodeToken(lib, token, secret, now)
    case Invalid => Invalid
    case MissingField => MissingField
    case Ok(fields) => ContextOf(lib, fields)
  }

  function ContextOf(lib: Libraries, fields: map<string, Json>): Result<Context> {
    if "tenant_id" !in fields || "user_id" !in fields || "role" !in fields
       || "jti" !in fields || "exp" !in fields || !fields["exp"].JInt? then MissingField
    else
      Ok(Context(lib.show(fields["tenant_id"]), lib.show(fields["user_id"]), lib.show(fields["role"]),
                 if "scope" in fields && fields["scope"].JString? then fields["scope"].text else FULL_SCOPE,
                 lib.show(fields["jti"]), fields["exp"].value * MICROS))
  }

  // ---------------------------------------------------------------- properties

  lemma {:induction false} SplitsAtItsDot(front: string, back: string)
    requires Base64Url.IsPlainText(front)
    ensures SplitAtDot(front + "." + back) == Some((front, back))
  {
    var token := front + "." + back;
    if front == "" {
      assert token[1..] == back;
    } else {
      assert token[1..] == front[1..] + "." + back;
      SplitsAtItsDot(front[1..], back);
      assert [front[0]] + front[1..] == front;
    }
  }

  /** When a token made now stops being accepted. */
  function Expiry(issuedAt: int, ttlSeconds: int): int {
    (issuedAt + ttlSeconds * MICROS) / MICROS * MICROS
  }

  /** The token expires at its lifetime, up to one second early and never late. */
  lemma ExpiryIsAlmostLifetime(issuedAt: int, ttlSeconds: int)
    ensures issuedAt + ttlSeconds * MICROS - MICROS < Expiry(issuedAt, ttlSeconds) <= issuedAt + ttlSeconds * MICROS
  {
  }

  lemma DecodedIsCreated(lib: Libraries, c: Context, secret: string, issuedAt: int, ttlSeconds: int, jti: string, now: int)
    requires lib.Lawful() && secret != ""
    ensures DecodeToken(lib, CreateToken(lib, c, secret, issuedAt, ttlSeconds, jti).value, secret, now)
         == Checked(Payload(c, issuedAt, ttlSeconds, jti), now)
  {
    var payload := Payload(c, issuedAt, ttlSeconds, jti);
    var encoded := Base64Url.Encode(lib.dumps(payload));
    var signature := Base64Url.Encode(lib.mac(secret, encoded));
    Base64Url.EncodeIsPlain(lib.dumps(payload));
    SplitsAtItsDot(encoded, signature);
    Base64Url.RoundTrip(lib.dumps(payload));
    Base64Url.RoundTrip(lib.mac(secret, encoded));
  }

  /** A created token gives back the same context, with its own id and expiry, at every time before the
      expiry and at no time from then on. */
  lemma TokenRoundTrip(lib: Libraries, c: Context, secret: string, issuedAt: int, ttlSeconds: int, jti: string, now: int)
    requires lib.Lawful() && secret != "" && jti != ""
    ensures var token := CreateToken(lib, c, secret, issuedAt, ttlSeconds, jti);
            && token.Some?
            && VerifyToken(lib, token.value, secret, now)
               == if now < Expiry(issuedAt, ttlSeconds)
                  then Ok(c.(tokenId := jti, expiresAt := Expiry(issuedAt, ttlSeconds)))
                  else Invalid
  {
    DecodedIsCreated(lib, c, secret, issuedAt, ttlSeconds, jti, now);
    ContextOfPayload(lib, c, issuedAt, ttlSeconds, jti);
  }

  lemma ContextOfPayload(lib: Libraries, c: Context, issuedAt: int, ttlSeconds: int, jti: string)
    requires lib.Lawful()
    ensures ContextOf(lib, Payload(c, issuedAt, ttlSeconds, jti))
         == Ok(c.(tokenId := jti, expiresAt := Expiry(issuedAt, ttlSeconds)))
  {
  }

  /** Under another secret the token is accepted only if the two signatures are the same. */
  lemma OtherSecretIsRefused(lib: Libraries, c: Context, secret: string, other: string, issuedAt: int, ttlSeconds: int,
                             jti: string, now: int)
    requires lib.Lawful() && secret != "" && jti != ""
    ensures var encoded := Base64Url.Encode(lib.dumps(Payload(c, issuedAt, ttlSeconds, jti)));
            var token := CreateToken(lib, c, secret, issuedAt, ttlSeconds, jti).value;
            VerifyToken(lib, token, other, now).Ok?
            <==> lib.mac(other, encoded) == lib.mac(secret, encoded) && now < Expiry(issuedAt, ttlSeconds)
  {
    var payload := Payload(c, issuedAt, ttlSeconds, jti);
    var encoded := Base64Url.Encode(lib.dumps(payload));
    Base64Url.EncodeIsPlain(lib.dumps(payload));
    SplitsAtItsDot(encoded, Base64Url.Encode(lib.mac(secret, encoded)));
    Base64Url.RoundTrip(lib.mac(secret, encoded));
    Base64Url.RoundTrip(lib.dumps(payload));
  }

  // ---------------------------------------------------------------- which tokens are accepted

  /** Cut at its first dot. */
  lemma {:induction false} SplitAtDotIs(token: string, n: nat)
    requires n < |token| && token[n] == '.' && '.' !in token[..n]
    ensures SplitAtDot(token) == Some((token[..n], token[n + 1..]))
  {
    if n > 0 {
      assert token[..n][0] == token[0] && token[1..][..n - 1] == token[..n][1..] && token[1..][n..] == token[n + 1..];
      SplitAtDotIs(token[1..], n - 1);
      assert [token[0]] + token[1..][..n - 1] == token[..n];
    }
  }

  lemma {:induction false} NoDotIsNoToken(token: string)
    requires '.' !in token
    ensures SplitAtDot(token) == None
  {
    if token != "" {
      assert token[0] in token && forall c :: c in token[1..] ==> c in token;
      NoDotIsNoToken(token[1..]);
    }
  }

  /** The fields let a request in now: an expiry in whole seconds that has not come yet, and an id. */
  predicate AreCurrent(fields: map<string, Json>, now: int) {
    && "exp" in fields && fields["exp"].JInt? && now < fields["exp"].value * 1_000_000
    && "jti" in fields && fields["jti"].JString? && fields["jti"].text != ""
  }

  /** Any text is accepted as a token exactly when what follows its first dot is the signature of what
      precedes it, and that is an object whose fields are current. */
  lemma AcceptedIff(lib: Libraries, token: string, n: nat, secret: string, now: int, fields: map<string, Json>)
    requires n < |token| && token[n] == '.' && '.' !in token[..n]
    ensures DecodeToken(lib, token, secret, now) == Ok(fields)
       <==> && Base64Url.Decode(token[n + 1..]) == Some(lib.mac(secret, token[..n]))
            && Base64Url.Decode(token[..n]).Some?
            && lib.loads(Base64Url.Decode(token[..n]).value) == Object(fields)
            && AreCurrent(fields, now)
  {
    SplitAtDotIs(token, n);
  }

  /** Without a dot nothing is a token; and what is let in says who it is: the fields of the token, the
      full scope when it names none, and its own id and expiry. */
  lemma WhoIsLetIn(lib: Libraries, token: string, secret: string, now: int, fields: map<string, Json>)
    requires lib.Lawful()
    ensures '.' !in token ==> VerifyToken(lib, token, secret, now) == Invalid
    ensures DecodeToken(lib, token, secret, now) == Ok(fields)
              && "tenant_id" in fields && "user_id" in fields && "role" in fields
              && fields["tenant_id"].JString? && fields["user_id"].JString? && fields["role"].JString? ==>
            VerifyToken(lib, token, secret, now)
            == Ok(Context(fields["tenant_id"].text, fields["user_id"].text, fields["role"].text,
                          if "scope" in fields && fields["scope"].JString? then fields["scope"].text else "full",
                          fields["jti"].text, fields["exp"].value * 1_000_000))
    ensures DecodeToken(lib, token, secret, now) == Ok(fields)
              && ("tenant_id" !in fields || "user_id" !in fields || "role" !in fields) ==>
            VerifyToken(lib, token, secret, now) == MissingField
  {
    if '.' !in token {
      NoDotIsNoToken(token);
    }
  }

  /** What is signed: who, when it was made and when it ends in whole seconds, and its id. */
  lemma WhatIsSigned(c: Context, issuedAt: int, ttlSeconds: int, jti: string)
    ensures var p := Payload(c, issuedAt, ttlSeconds, jti);
            && p.Keys == {"tenant_id", "user_id", "role", "scope", "iat", "exp", "jti"}
            && p["iat"].JInt? && p["iat"].value * 1_000_000 <= issuedAt < (p["iat"].value + 1) * 1_000_000
            && p["exp"].JInt? && p["exp"].value == p["iat"].value + ttlSeconds
  {
  }

  /** Every refused token is refused as invalid, whatever is wrong with it; only one that is let in can lack
      a field. Nothing is signed under an empty secret, and everything is under any other. */
  lemma WhyRefused(lib: Libraries, token: string, secret: string, now: int, c: Context, ttlSeconds: int, jti: string)
    ensures DecodeToken(lib, token, secret, now).Ok? || DecodeToken(lib, token, secret, now) == Invalid
    ensures VerifyToken(lib, token, secret, now) == Invalid <==> DecodeToken(lib, token, secret, now) == Invalid
    ensures CreateToken(lib, c, secret, now, ttlSeconds, jti) == None <==> secret == ""
  {
  }
}
