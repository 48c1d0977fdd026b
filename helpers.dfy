/**
 * helpers.go: the signing-key gate, the claims a token is issued with, id
 * parsing, the password oracles and the wrapper that turns a handler's error
 * into a 400 reply. golang-jwt and bcrypt are opaque functions the caller
 * supplies (`Jwt`, `Bcrypt`); nothing here looks inside them.
 */
module Helpers {
  import opened Wrappers
  import opened Ints
  import opened Types
  import Strconv

  /** Signing algorithm families of golang-jwt; `Hmac(256)` is HS256. */
  datatype SigningMethod = Hmac(bits: nat) | Rsa(bits: nat) | RsaPss(bits: nat) | Ecdsa(bits: nat) | Ed25519 | Unsecured

  /** The token header's `alg`. */
  function AlgName(m: SigningMethod): string {
    match m
    case Hmac(b) => "HS" + Strconv.FormatNat(b)
    case Rsa(b) => "RS" + Strconv.FormatNat(b)
    case RsaPss(b) => "PS" + Strconv.FormatNat(b)
    case Ecdsa(b) => "ES" + Strconv.FormatNat(b)
    case Ed25519 => "EdDSA"
    case Unsecured => "none"
  }

  /**
   * A claim after the token's JSON payload is decoded into a map: every JSON
   * number becomes a float64 (only integral numbers are modelled).
   */
  datatype ClaimValue = NumberClaim(value: int) | StringClaim(text: string) | BoolClaim(flag: bool) | NullClaim | OtherClaim

  type Claims = map<string, ClaimValue>

  /** A token's header algorithm and claims, before its signature is checked. */
  datatype Unverified = Unverified(alg: SigningMethod, claims: Claims)

  datatype Token = Token(alg: SigningMethod, claims: Claims, valid: bool)

  /**
   * golang-jwt: `sign` is `SignedString` of a new token, `decode` splits and
   * decodes a token string, `verify(token, key)` checks its signature with a
   * key, `claimsValid` is the library's validation of registered claims.
   */
  datatype Jwt = Jwt(
    sign: (SigningMethod, Claims, string) -> Result<string, Error>,
    decode: string -> Option<Unverified>,
    verify: (string, string) -> bool,
    claimsValid: Claims -> bool)

  /** 2^53: integers up to this magnitude survive the float64 a decoded JSON number becomes. */
  const MaxExactFloat: int := 0x20_0000_0000_0000

  predicate ExactNumber(n: int) {
    -MaxExactFloat <= n <= MaxExactFloat
  }

  /** Every number claim survives decoding unrounded. */
  predicate ExactNumbers(c: Claims) {
    forall k | k in c && c[k].NumberClaim? :: ExactNumber(c[k].value)
  }

  /**
   * A token the library signed decodes to what was signed and verifies under
   * the same key, for claims whose numbers a float64 holds exactly.
   */
  ghost predicate RoundTrips(jwt: Jwt) {
    forall m, c, key | ExactNumbers(c) && jwt.sign(m, c, key).Ok? ::
      jwt.decode(jwt.sign(m, c, key).value) == Some(Unverified(m, c)) &&
      jwt.verify(jwt.sign(m, c, key).value, key)
  }

  /** bcrypt: `GenerateFromPassword` and `CompareHashAndPassword`. */
  datatype Bcrypt = Bcrypt(
    generate: string -> Result<string, Error>,
    compare: (string, string) -> Option<Error>)

  /** `keyFun`: the process secret is the key for HMAC tokens and for no other kind. */
  function KeyFun(alg: SigningMethod, secret: string): (r: Result<string, Error>)
    ensures r.Ok? <==> alg.Hmac?
    ensures r.Ok? ==> r.value == secret
    ensures r.Err? ==> r.error == UnexpectedSigningMethod(AlgName(alg))
  {
    if alg.Hmac? then Ok(secret) else Err(UnexpectedSigningMethod(AlgName(alg)))
  }

  /**
   * `validateJWT`: `jwt.Parse` with `keyFun`. A token is accepted only if it
   * decodes, names an HMAC algorithm, carries a signature that verifies under
   * the secret and passes claim validation; it is then marked valid.
   */
  function ValidateJwt(tokenString: string, jwt: Jwt, secret: string): (r: Result<Token, Error>)
    ensures r.Ok? ==> r.value.valid && r.value.alg.Hmac?
    ensures r.Ok? ==> jwt.decode(tokenString) == Some(Unverified(r.value.alg, r.value.claims))
    ensures r.Ok? ==> jwt.verify(tokenString, secret) && jwt.claimsValid(r.value.claims)
  {
    match jwt.decode(tokenString)
    case None => Err(TokenMalformed)
    case Some(u) =>
      match KeyFun(u.alg, secret)
      case Err(e) => Err(TokenUnverifiable(e))
      case Ok(key) =>
        if !jwt.verify(tokenString, key) then Err(TokenSignatureInvalid)
        else if !jwt.claimsValid(u.claims) then Err(TokenClaimsInvalid)
        else Ok(Token(u.alg, u.claims, true))
  }

  /** The fixed `expires_at` claim: Unix time 1516239022. */
  const ExpiresAt: int := 1516239022

  /** The claims `createJwt` signs. */
  function IssuedClaims(a: Account): (r: Claims)
    ensures r.Keys == {"expires_at", "account_number"}
    ensures r["expires_at"] == NumberClaim(ExpiresAt) && r["account_number"] == NumberClaim(a.number as int)
    ensures ExactNumber(a.number as int) ==> ExactNumbers(r)
  {
    map["expires_at" := NumberClaim(ExpiresAt), "account_number" := NumberClaim(a.number as int)]
  }

  /**
   * `createJwt`: the claims above, signed with HS256 under the process secret.
   * With a library that round-trips, the token decodes to exactly those claims
   * and its signature verifies under the secret.
   */
  function CreateJwt(a: Account, jwt: Jwt, secret: string): (r: Result<string, Error>)
    ensures RoundTrips(jwt) && ExactNumber(a.number as int) && r.Ok? ==>
      jwt.decode(r.value) == Some(Unverified(Hmac(256), IssuedClaims(a))) && jwt.verify(r.value, secret)
  {
    jwt.sign(Hmac(256), IssuedClaims(a), secret)
  }

  /** Of all the account's fields only its number enters the token. */
  lemma CreateJwtReadsOnlyNumber(a: Account, b: Account, jwt: Jwt, secret: string)
    requires a.number == b.number
    ensures CreateJwt(a, jwt, secret) == CreateJwt(b, jwt, secret)
  {
  }

  /** A token issued for an account validates, as HS256, with exactly the issued claims. */
  lemma IssuedTokenValidates(a: Account, jwt: Jwt, secret: string, tokenString: string)
    requires RoundTrips(jwt) && ExactNumber(a.number as int)
    requires CreateJwt(a, jwt, secret) == Ok(tokenString)
    requires jwt.claimsValid(IssuedClaims(a))
    ensures ValidateJwt(tokenString, jwt, secret) == Ok(Token(Hmac(256), IssuedClaims(a), true))
  {
  }

  /** The `id` path variable; a missing variable reads as "". */
  function PathId(vars: map<string, string>): string {
    if "id" in vars then vars["id"] else ""
  }

  /** `getId`: the path id as `strconv.Atoi` reads it, or "invalid id given <id>". */
  function GetId(vars: map<string, string>): (r: Result<int64, Error>)
    ensures r.Err? ==> r.error == InvalidId(PathId(vars))
    ensures r.Ok? <==> Strconv.Atoi(PathId(vars)).Some?
    ensures r.Ok? ==> Strconv.Atoi(PathId(vars)) == Some(r.value)
  {
    match Strconv.Atoi(PathId(vars))
    case Some(n) => Ok(n)
    case None => Err(InvalidId(PathId(vars)))
  }

  /** A path id written in decimal parses back to the same id. */
  lemma GetIdFormatted(n: int64)
    ensures GetId(map["id" := Strconv.FormatInt(n as int)]) == Ok(n)
  {
    Strconv.AtoiFormatInt(n);
  }

  /** `hashPassword`: a hash, or the empty string and one fixed error whatever bcrypt reported. */
  function HashPassword(bcrypt: Bcrypt, password: string): (r: (string, Option<Error>))
    ensures r.1.None? <==> bcrypt.generate(password).Ok?
    ensures r.1.None? ==> bcrypt.generate(password) == Ok(r.0)
    ensures r.1.Some? ==> r == ("", Some(HashFailed))
  {
    match bcrypt.generate(password)
    case Ok(hash) => (hash, None)
    case Err(_) => ("", Some(HashFailed))
  }

  /** `isPasswordValid`: bcrypt's verdict as a bool; its error never escapes. */
  function IsPasswordValid(bcrypt: Bcrypt, hashedPassword: string, password: string): (r: bool)
    ensures r <==> bcrypt.compare(hashedPassword, password).None?
  {
    match bcrypt.compare(hashedPassword, password)
    case None => true
    case Some(_) => false
  }

  const StatusOK: int := 200
  const StatusCreated: int := 201
  const StatusBadRequest: int := 400
  const StatusForbidden: int := 403
  const StatusMethodNotAllowed: int := 405

  /** A JSON body as `writeJson` encodes it. */
  datatype Payload =
    | JsonString(text: string)
    | JsonError(error: string)
    | JsonAccount(account: AccountJson)
    | JsonAccounts(accounts: set<AccountJson>)

  datatype Reply = Reply(status: int, body: Payload)

  /** What a handler did: wrote a reply and returned nil, or returned an error. */
  datatype Outcome = Wrote(reply: Reply) | Failed(err: Error)

  /** `handler`: a returned error becomes a 400 reply `{"error": <message>}`; otherwise nothing is added. */
  function Handler(o: Outcome): (r: Reply)
    ensures o.Wrote? ==> r == o.reply
    ensures o.Failed? ==> r.status == StatusBadRequest && r.body == JsonError(Message(o.err))
  {
    match o
    case Wrote(reply) => reply
    case Failed(e) => Reply(StatusBadRequest, JsonError(Message(e)))
  }
}
