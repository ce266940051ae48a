/** Authentication by OAuth2 client credentials: clients trade an id and secret for a signed
    access token (a JWT, RFC 7519), which later requests present as a bearer token. Signing,
    signature checking and secret hashing are parameters; the time window on `nbf` and `exp`
    (sections 4.1.4 and 4.1.5 of RFC 7519), the order in which keys are tried and the
    driver's error order are modelled. */
module ClientCredentials {
  import opened Common
  import opened Json
  import opened Headers
  import opened Text
  import Preshared

  const DefaultScope := "default"
  const TokenType := "Bearer"
  const DefaultAlgorithms := ["HS256"]
  const DefaultExpiry: int := 60 * 60 * 24
  const DefaultRevocationBuffer: int := 60

  /** The claims of an access token. */
  datatype AccessTokenData = AccessTokenData(jti: string, sub: string, scope: string, iat: int, exp: int)

  datatype AccessTokenWithInfo = AccessTokenWithInfo(token: string, expiresIn: int, tokenType: string)

  /** A claim set, as the JSON object of a token's payload. */
  type Claims = seq<(string, Json)>

  /** `model_dump()`: the claims in field order. */
  function Dump(d: AccessTokenData): (c: Claims)
    ensures Get(c, "jti") == Some(Str(d.jti)) && Get(c, "sub") == Some(Str(d.sub))
    ensures Get(c, "scope") == Some(Str(d.scope)) && Get(c, "iat") == Some(Int(d.iat))
    ensures Get(c, "exp") == Some(Int(d.exp)) && Get(c, "nbf") == None
  {
    var c := [("jti", Str(d.jti)), ("sub", Str(d.sub)), ("scope", Str(d.scope)), ("iat", Int(d.iat)), ("exp", Int(d.exp))];
    assert forall j :: 0 <= j < 5 ==> c[j].0[0] == "jssie"[j];
    assert c[1].0[1] != c[2].0[1];
    GetAt(c, 0); GetAt(c, 1); GetAt(c, 2); GetAt(c, 3); GetAt(c, 4);
    GetAbsent(c, "nbf");
    c
  }

  function StrClaim(c: Claims, k: string): Option<string> {
    match Get(c, k)
    case Some(Str(s)) => Some(s)
    case _ => None
  }

  function IntClaim(c: Claims, k: string): Option<int> {
    match Get(c, k)
    case Some(Int(i)) => Some(i)
    case _ => None
  }

  /** `AccessTokenData.model_validate`: every field present with its type; other claims are
      ignored. */
  function ModelValidate(c: Claims): (r: Option<AccessTokenData>)
    ensures r.Some? <==> StrClaim(c, "jti").Some? && StrClaim(c, "sub").Some? && StrClaim(c, "scope").Some?
                         && IntClaim(c, "iat").Some? && IntClaim(c, "exp").Some?
    ensures r.Some? ==> Get(c, "jti") == Some(Str(r.value.jti)) && Get(c, "exp") == Some(Int(r.value.exp))
  {
    var jti :- StrClaim(c, "jti");
    var sub :- StrClaim(c, "sub");
    var scope :- StrClaim(c, "scope");
    var iat :- IntClaim(c, "iat");
    var exp :- IntClaim(c, "exp");
    Some(AccessTokenData(jti, sub, scope, iat, exp))
  }

  /** Dumped claims validate back to the same token data. */
  lemma ValidateDump(d: AccessTokenData)
    ensures ModelValidate(Dump(d)) == Some(d)
  {
  }

  /** `jwt.decode` with the time checks switched off: the claims when the token is well formed
      and signed by the key with one of the algorithms, and nothing (an InvalidTokenError)
      otherwise. */
  type Verifier = (string, string, seq<string>) -> Option<Claims>

  /** `jwt.encode`: the token for the claims, the key and the algorithm. */
  type Signer = (Claims, string, string) -> string

  function InvalidTokenError(message: string): Exception {
    Exception("InvalidTokenError", message)
  }

  function PyJwtError(message: string): Exception {
    Exception("PyJWTError", message)
  }

  /** Python's view of a JSON claim as a number: integers and booleans are numbers, `null` is
      `None`, anything else cannot be ordered against a float. */
  datatype Numeric = Absent | Number(value: int) | Unordered(typeName: string)

  function AsNumeric(j: Option<Json>): Numeric {
    match j
    case None => Absent
    case Some(Null) => Absent
    case Some(Int(i)) => Number(i)
    case Some(Bool(b)) => Number(if b then 1 else 0)
    case Some(Str(_)) => Unordered("str")
    case Some(Array(_)) => Unordered("list")
    case Some(Object(_)) => Unordered("dict")
  }

  /** The time window at timestamp `ts`: nothing when the claims are current, the PyJWTError
      message when they are not, or the TypeError of comparing a float with a non-number. */
  function TimeCheck(c: Claims, ts: real): (r: Result<Option<string>, Exception>)
    ensures r == Ok(None) <==>
              (AsNumeric(Get(c, "nbf")).Absent? || (AsNumeric(Get(c, "nbf")).Number? && ts >= AsNumeric(Get(c, "nbf")).value as real))
              && (AsNumeric(Get(c, "exp")).Absent? || (AsNumeric(Get(c, "exp")).Number? && ts <= AsNumeric(Get(c, "exp")).value as real))
    ensures r == Ok(Some("Token expired")) ==> AsNumeric(Get(c, "exp")).Number? && ts > AsNumeric(Get(c, "exp")).value as real
    ensures r.Err? ==> r.error.kind == "TypeError"
  {
    var nbf := AsNumeric(Get(c, "nbf"));
    if nbf.Unordered? then Err(Exception("TypeError", "'<' not supported between instances of 'float' and '" + nbf.typeName + "'"))
    else if nbf.Number? && ts < nbf.value as real then Ok(Some("Token not valid yet"))
    else
      var exp := AsNumeric(Get(c, "exp"));
      if exp.Unordered? then Err(Exception("TypeError", "'>' not supported between instances of 'float' and '" + exp.typeName + "'"))
      else if exp.Number? && ts > exp.value as real then Ok(Some("Token expired"))
      else Ok(None)
  }

  /** A token without `nbf` whose `exp` is an integer is current exactly up to and including
      that second. */
  lemma ExpiryBoundary(c: Claims, ts: real, exp: int)
    requires Get(c, "nbf") == None && Get(c, "exp") == Some(Int(exp))
    ensures TimeCheck(c, ts) == (if ts <= exp as real then Ok(None) else Ok(Some("Token expired")))
  {
  }

  // ---------------------------------------------------------------------------
  // Trying the keys in order
  // ---------------------------------------------------------------------------

  /** The outcome of the first key whose attempt is decisive, or `fallback` when none is. */
  function FirstDecisive<T>(keys: seq<string>, attempt: string -> Option<T>, fallback: T): (r: T)
    ensures (forall i :: 0 <= i < |keys| ==> attempt(keys[i]).None?) ==> r == fallback
    ensures r == fallback || exists i :: 0 <= i < |keys| && attempt(keys[i]) == Some(r)
    ensures forall i :: 0 <= i < |keys| && attempt(keys[i]).Some? && (forall j :: 0 <= j < i ==> attempt(keys[j]).None?)
                        ==> r == attempt(keys[i]).value
    decreases |keys|
  {
    if |keys| == 0 then fallback
    else if attempt(keys[0]).Some? then attempt(keys[0]).value
    else
      var rest := keys[1..];
      assert forall i :: 1 <= i < |keys| ==> keys[i] == rest[i - 1];
      FirstDecisive(rest, attempt, fallback)
  }

  /** One turn of `decode_jwt`'s loop as written: a bad signature moves on to the next key; a
      token outside its time window raises a PyJWTError, which the loop's handler for
      InvalidTokenError does not catch; claims that fail validation end the loop. */
  function TryKeyAsWritten(token: string, key: string, algorithms: seq<string>, ts: real, verify: Verifier): (r: Option<Result<AccessTokenData, Exception>>)
    ensures verify(token, key, algorithms).None? <==> r.None?
  {
    match verify(token, key, algorithms)
    case None => None
    case Some(c) =>
      Some(match TimeCheck(c, ts)
           case Err(e) => Err(e)
           case Ok(Some(m)) => Err(PyJwtError(m))
           case Ok(None) => if ModelValidate(c).Some? then Ok(ModelValidate(c).value) else Err(InvalidTokenError("Token data invalid")))
  }

  /** `decode_jwt` as written. */
  function DecodeAsWritten(token: string, keys: seq<string>, algorithms: seq<string>, ts: real, verify: Verifier): Result<AccessTokenData, Exception> {
    FirstDecisive(keys, k => TryKeyAsWritten(token, k, algorithms, ts, verify), Err(InvalidTokenError("Invalid token")))
  }

  /** One turn of the loop as intended: a token outside its time window is rejected under that
      key, like one with a bad signature, and the next key is tried. */
  function TryKey(token: string, key: string, algorithms: seq<string>, ts: real, verify: Verifier): (r: Option<Result<AccessTokenData, Exception>>)
    ensures r.None? <==> verify(token, key, algorithms).None? || (TimeCheck(verify(token, key, algorithms).value, ts).Ok? && TimeCheck(verify(token, key, algorithms).value, ts).value.Some?)
    ensures r.Some? && r.value.Ok? ==> verify(token, key, algorithms).Some?
                                       && TimeCheck(verify(token, key, algorithms).value, ts) == Ok(None)
                                       && ModelValidate(verify(token, key, algorithms).value) == Some(r.value.value)
  {
    match verify(token, key, algorithms)
    case None => None
    case Some(c) =>
      match TimeCheck(c, ts)
      case Err(e) => Some(Err(e))
      case Ok(Some(_)) => None
      case Ok(None) => Some(if ModelValidate(c).Some? then Ok(ModelValidate(c).value) else Err(InvalidTokenError("Token data invalid")))
  }

  /** `decode_jwt`: the first key under which the token is signed and current decides; when no
      key does, InvalidTokenError("Invalid token"). */
  function Decode(token: string, keys: seq<string>, algorithms: seq<string>, ts: real, verify: Verifier): (r: Result<AccessTokenData, Exception>)
    ensures r.Ok? ==> exists i :: 0 <= i < |keys| && TryKey(token, keys[i], algorithms, ts, verify) == Some(r)
  {
    FirstDecisive(keys, k => TryKey(token, k, algorithms, ts, verify), Err(InvalidTokenError("Invalid token")))
  }

  /** Claims that fail validation end the search: later keys are not tried. */
  lemma InvalidDataStopsSearch(token: string, keys: seq<string>, algorithms: seq<string>, ts: real, verify: Verifier, i: nat)
    requires i < |keys| && forall j :: 0 <= j < i ==> verify(token, keys[j], algorithms).None?
    requires verify(token, keys[i], algorithms).Some?
    requires TimeCheck(verify(token, keys[i], algorithms).value, ts) == Ok(None)
    requires ModelValidate(verify(token, keys[i], algorithms).value).None?
    ensures Decode(token, keys, algorithms, ts, verify) == Err(InvalidTokenError("Token data invalid"))
  {
    var attempt := k => TryKey(token, k, algorithms, ts, verify);
    assert attempt(keys[i]).Some?;
    assert forall j :: 0 <= j < i ==> attempt(keys[j]).None?;
  }

  /** As written, an expired token under the first key ends the search with a PyJWTError even
      when the second key holds a current token. */
  lemma ExpiredKeyEndsSearchAsWritten(token: string, k1: string, k2: string, algorithms: seq<string>, ts: real, verify: Verifier, d: AccessTokenData)
    requires verify(token, k1, algorithms).Some? && TimeCheck(verify(token, k1, algorithms).value, ts) == Ok(Some("Token expired"))
    requires verify(token, k2, algorithms) == Some(Dump(d)) && ts <= d.exp as real
    ensures DecodeAsWritten(token, [k1, k2], algorithms, ts, verify) == Err(PyJwtError("Token expired"))
  {
    var attempt := k => TryKeyAsWritten(token, k, algorithms, ts, verify);
    assert [k1, k2][0] == k1;
    assert attempt(k1) == Some(Err(PyJwtError("Token expired")));
  }

  /** As intended, the expired token is skipped and the second key's claims are returned. */
  lemma ExpiredKeySkipped(token: string, k1: string, k2: string, algorithms: seq<string>, ts: real, verify: Verifier, d: AccessTokenData)
    requires verify(token, k1, algorithms).Some? && TimeCheck(verify(token, k1, algorithms).value, ts) == Ok(Some("Token expired"))
    requires verify(token, k2, algorithms) == Some(Dump(d)) && ts <= d.exp as real
    ensures Decode(token, [k1, k2], algorithms, ts, verify) == Ok(d)
  {
    var attempt := k => TryKey(token, k, algorithms, ts, verify);
    var keys := [k1, k2];
    assert keys[0] == k1 && keys[1] == k2;
    ValidateDump(d);
    assert attempt(k1).None?;
    assert attempt(k2) == Some(Ok(d));
  }

  // ---------------------------------------------------------------------------
  // The driver
  // ---------------------------------------------------------------------------

  datatype Config = Config(secret: Preshared.SecretConfig, algorithms: seq<string>, expiry: int)

  function DefaultConfig(secret: Preshared.SecretConfig): (c: Config)
    ensures c.algorithms == ["HS256"] && c.expiry == 86400
  {
    Config(secret, DefaultAlgorithms, DefaultExpiry)
  }

  datatype Driver = Driver(keys: seq<string>, algorithms: seq<string>, expirySeconds: int)

  /** The key list as written, `list(secret)` for a single string: one key per character. */
  function KeysAsWritten(s: Preshared.SecretConfig): (keys: seq<string>)
    ensures s.OneSecret? ==> |keys| == |s.secret| && forall i :: 0 <= i < |keys| ==> keys[i] == [s.secret[i]]
    ensures s.SecretList? ==> keys == s.secrets
  {
    match s
    case OneSecret(secret) => seq(|secret|, i requires 0 <= i < |secret| => [secret[i]])
    case SecretList(ss) => ss
  }

  /** A single secret of two or more characters is not among the keys as written, and tokens are
      signed with its first character alone. */
  lemma SecretSplitIntoCharacters(secret: string)
    requires |secret| >= 2
    ensures secret !in KeysAsWritten(Preshared.OneSecret(secret))
    ensures KeysAsWritten(Preshared.OneSecret(secret))[0] == [secret[0]]
  {
  }

  /** The key list as intended: a single secret is the only key. */
  function Keys(s: Preshared.SecretConfig): (keys: seq<string>)
    ensures s.OneSecret? ==> keys == [s.secret]
    ensures s.SecretList? ==> keys == s.secrets
    ensures forall k :: k in keys <==> k in Preshared.Secrets(s)
  {
    match s
    case OneSecret(secret) => [secret]
    case SecretList(ss) => ss
  }

  function NewDriver(c: Config): (d: Driver)
    ensures d.keys == Keys(c.secret) && d.algorithms == c.algorithms && d.expirySeconds == c.expiry
  {
    Driver(Keys(c.secret), c.algorithms, c.expiry)
  }

  /** A registered client: its id in hex and the hash of its secret. */
  datatype ClientRow = ClientRow(idHex: string, secretHash: string)

  /** The client table and the secret hasher: looking a client up by its hex id (which fails
      on an id that is not hex), and checking a secret against a hash. */
  datatype Clients = Clients(
    lookup: string -> Result<Option<ClientRow>, Exception>,
    verifySecret: (string, string) -> Result<bool, Exception>)

  /** `_get_client`: the client, checked against its secret. */
  function GetClient(clients: Clients, clientId: string, clientSecret: string): (r: Result<ClientRow, Exception>)
    ensures r.Ok? <==> clients.lookup(clientId).Ok? && clients.lookup(clientId).value.Some?
                       && clients.verifySecret(clients.lookup(clientId).value.value.secretHash, clientSecret) == Ok(true)
    ensures r.Ok? ==> clients.lookup(clientId) == Ok(Some(r.value))
    ensures clients.lookup(clientId) == Ok(None) ==> r == Err(NotAuthenticated("Invalid client"))
  {
    var row :- clients.lookup(clientId);
    if row.None? then Err(NotAuthenticated("Invalid client"))
    else
      var ok :- clients.verifySecret(row.value.secretHash, clientSecret);
      if !ok then Err(NotAuthenticated("Invalid client secret")) else Ok(row.value)
  }

  /** `int(x)` of a float: truncation toward zero. */
  function Trunc(x: real): (i: int)
    ensures x >= 0.0 ==> i as real <= x < i as real + 1.0
    ensures x < 0.0 ==> i as real - 1.0 < x <= i as real
  {
    if x >= 0.0 then x.Floor else -((-x).Floor)
  }

  function IndexError(): Exception {
    Exception("IndexError", "list index out of range")
  }

  /** `issue_token`: for a client whose secret checks out, a token issued now and expiring after
      the configured number of seconds, signed with the first key and algorithm. */
  function IssueToken(d: Driver, clients: Clients, clientId: string, clientSecret: string,
                      now: real, jti: string, sign: Signer): (r: Result<AccessTokenWithInfo, Exception>)
    ensures GetClient(clients, clientId, clientSecret).Err? ==> r == Err(GetClient(clients, clientId, clientSecret).error)
    ensures GetClient(clients, clientId, clientSecret).Ok? ==> (r.Ok? <==> |d.keys| > 0 && |d.algorithms| > 0)
    ensures r.Ok? ==> r.value.expiresIn == d.expirySeconds && r.value.tokenType == "Bearer"
    ensures r.Ok? ==> r.value.token == sign(Dump(IssuedData(GetClient(clients, clientId, clientSecret).value, now, jti, d.expirySeconds)), d.keys[0], d.algorithms[0])
  {
    var client :- GetClient(clients, clientId, clientSecret);
    if |d.keys| == 0 || |d.algorithms| == 0 then Err(IndexError())
    else
      var data := IssuedData(client, now, jti, d.expirySeconds);
      Ok(AccessTokenWithInfo(sign(Dump(data), d.keys[0], d.algorithms[0]), d.expirySeconds, TokenType))
  }

  /** The claims of a token issued at `now`: issued at the whole second, expiring `expiry`
      seconds later, in the default scope, for the client. */
  function IssuedData(client: ClientRow, now: real, jti: string, expiry: int): (data: AccessTokenData)
    ensures data.exp - data.iat == expiry && data.iat == Trunc(now)
    ensures data.sub == client.idHex && data.scope == "default" && data.jti == jti
  {
    var ts := Trunc(now);
    AccessTokenData(jti, client.idHex, DefaultScope, ts, ts + expiry)
  }

  /** `validate_request`: a missing token, then a token no key decodes, then a revoked token is
      refused; other errors of decoding pass through. */
  function ValidateRequest(d: Driver, auth: Option<string>, ts: real, verify: Verifier, revoked: set<string>): (r: Result<AccessTokenData, Exception>)
    ensures !Truthy(BearerToken(auth)) ==> r == Err(NotAuthenticated("Missing bearer token"))
    ensures Truthy(BearerToken(auth)) ==>
      var dec := Decode(BearerToken(auth).value, d.keys, d.algorithms, ts, verify);
      (dec.Err? && dec.error.kind == "InvalidTokenError" ==> r == Err(NotAuthenticated("Invalid bearer token")))
      && (dec.Ok? && dec.value.jti in revoked ==> r == Err(NotAuthenticated("Token revoked")))
      && (r.Ok? <==> dec.Ok? && dec.value.jti !in revoked)
      && (r.Ok? ==> r == dec)
  {
    var token := BearerToken(auth);
    if !Truthy(token) then Err(NotAuthenticated("Missing bearer token"))
    else
      match Decode(token.value, d.keys, d.algorithms, ts, verify)
      case Err(e) => if e.kind == "InvalidTokenError" then Err(NotAuthenticated("Invalid bearer token")) else Err(e)
      case Ok(data) => if data.jti in revoked then Err(NotAuthenticated("Token revoked")) else Ok(data)
  }

  /** A revocation: the token id, kept until the given timestamp. */
  datatype Revocation = Revocation(jti: string, expiresAt: int)

  /** `revoke_token`: the client is checked before the token is even decoded; the revocation is
      kept until the token's expiry plus the buffer. */
  function RevokeToken(d: Driver, clients: Clients, clientId: string, clientSecret: string, token: string,
                       buffer: int, ts: real, verify: Verifier): (r: Result<Revocation, Exception>)
    ensures GetClient(clients, clientId, clientSecret).Err? ==> r == Err(GetClient(clients, clientId, clientSecret).error)
    ensures GetClient(clients, clientId, clientSecret).Ok? ==>
      var dec := Decode(token, d.keys, d.algorithms, ts, verify);
      (r.Ok? <==> dec.Ok?) && (dec.Err? ==> r == Err(dec.error))
      && (r.Ok? ==> r.value.jti == dec.value.jti && r.value.expiresAt == dec.value.exp + buffer)
  {
    var _ :- GetClient(clients, clientId, clientSecret);
    var data :- Decode(token, d.keys, d.algorithms, ts, verify);
    Ok(Revocation(data.jti, data.exp + buffer))
  }

  /** The signer and the verifier agree on `token`: under the first key it carries `claims`,
      and no other key reads anything else from it. */
  predicate SignedWithFirstKey(d: Driver, token: string, claims: Claims, verify: Verifier)
    requires |d.keys| > 0
  {
    verify(token, d.keys[0], d.algorithms) == Some(claims)
    && forall i :: 0 <= i < |d.keys| ==> verify(token, d.keys[i], d.algorithms) in {None, Some(claims)}
  }

  /** A token the driver issues is accepted, with the claims it was issued with, until its
      expiry second has passed, unless its id is revoked. */
  lemma IssuedTokenValidates(d: Driver, clients: Clients, clientId: string, clientSecret: string,
                             now: real, jti: string, sign: Signer, verify: Verifier,
                             ts: real, revoked: set<string>, scheme: string)
    requires IssueToken(d, clients, clientId, clientSecret, now, jti, sign).Ok?
    requires var data := IssuedData(GetClient(clients, clientId, clientSecret).value, now, jti, d.expirySeconds);
             SignedWithFirstKey(d, IssueToken(d, clients, clientId, clientSecret, now, jti, sign).value.token, Dump(data), verify)
    requires Lower(scheme) == "bearer" && IssueToken(d, clients, clientId, clientSecret, now, jti, sign).value.token != ""
    requires jti !in revoked
    ensures var data := IssuedData(GetClient(clients, clientId, clientSecret).value, now, jti, d.expirySeconds);
            var auth := Some(scheme + " " + IssueToken(d, clients, clientId, clientSecret, now, jti, sign).value.token);
            (ts <= data.exp as real ==> ValidateRequest(d, auth, ts, verify, revoked) == Ok(data))
            && (ts > data.exp as real ==> ValidateRequest(d, auth, ts, verify, revoked) == Err(NotAuthenticated("Invalid bearer token")))
  {
    var data := IssuedData(GetClient(clients, clientId, clientSecret).value, now, jti, d.expirySeconds);
    var token := IssueToken(d, clients, clientId, clientSecret, now, jti, sign).value.token;
    BearerOfToken(scheme, token);
    ValidateDump(data);
    ExpiryBoundary(Dump(data), ts, data.exp);
    var attempt := k => TryKey(token, k, d.algorithms, ts, verify);
    if ts <= data.exp as real {
      assert attempt(d.keys[0]) == Some(Ok(data));
    } else {
      assert forall i :: 0 <= i < |d.keys| ==> attempt(d.keys[i]).None?;
    }
  }

  /** Once its id is revoked, a token that still decodes is refused as revoked. */
  lemma RevokedTokenRefused(d: Driver, clients: Clients, clientId: string, clientSecret: string, token: string,
                            buffer: int, ts: real, verify: Verifier, revoked: set<string>, scheme: string)
    requires RevokeToken(d, clients, clientId, clientSecret, token, buffer, ts, verify).Ok?
    requires Lower(scheme) == "bearer" && token != ""
    ensures var rev := RevokeToken(d, clients, clientId, clientSecret, token, buffer, ts, verify).value;
            ValidateRequest(d, Some(scheme + " " + token), ts, verify, revoked + {rev.jti}) == Err(NotAuthenticated("Token revoked"))
  {
    BearerOfToken(scheme, token);
  }
}
