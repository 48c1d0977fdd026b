/**
 * middleware.go: the ownership guard in front of the account routes. It reads
 * the `x-jwt-token` header, the `id` path variable and the account table, and
 * either lets the wrapped handler run, denies with the one 403 reply, or
 * panics on a verified token that has no numeric `account_number` claim.
 */
module Middleware {
  import opened Wrappers
  import opened Ints
  import opened Types
  import opened Storage
  import opened Helpers

  datatype Decision = Admitted | Denied | Abort

  /** `claims["account_number"].(float64)`: None where the type assertion panics. */
  function ClaimedNumber(claims: Claims): (r: Option<int>)
    ensures r.Some? <==> "account_number" in claims && claims["account_number"].NumberClaim?
    ensures r.Some? ==> r.value == claims["account_number"].value
  {
    if "account_number" in claims && claims["account_number"].NumberClaim? then
      Some(claims["account_number"].value)
    else
      None
  }

  /** The claim the guard reads back is the number `createJwt` wrote. */
  lemma IssuedClaimsCarryNumber(a: Account)
    ensures ClaimedNumber(IssuedClaims(a)) == Some(a.number as int)
  {
  }

  /** The guard's checks on an already parsed token, in order, stopping at the first failure. */
  function Authorize(parsed: Result<Token, Error>, vars: map<string, string>, accounts: map<int64, Account>): (r: Decision)
    ensures r != Denied ==> parsed.Ok? && parsed.value.valid && GetId(vars).Ok? && GetId(vars).value in accounts
  {
    if parsed.Err? then Denied
    else if !parsed.value.valid then Denied
    else
      match GetId(vars)
      case Err(_) => Denied
      case Ok(id) =>
        match Lookup(accounts, id)
        case Err(_) => Denied
        case Ok(account) =>
          match ClaimedNumber(parsed.value.claims)
          case None => Abort
          case Some(n) => if account.number as int != n then Denied else Admitted
  }

  /**
   * `withJWTAuth`: a missing header is the empty token string. A token that
   * does not decode or whose signature fails under the secret, or a path id
   * that does not parse or names no row, is denied; the handler runs only for
   * an HMAC token that verifies under the secret and claims the number of the
   * row the path id names.
   */
  function WithJwtAuth(header: string, vars: map<string, string>, accounts: map<int64, Account>, jwt: Jwt, secret: string): (r: Decision)
    ensures (jwt.decode(header).None? || !jwt.verify(header, secret) ||
             GetId(vars).Err? || GetId(vars).value !in accounts) ==> r == Denied
    ensures r == Admitted ==>
      jwt.decode(header).Some? && jwt.decode(header).value.alg.Hmac? &&
      jwt.verify(header, secret) && jwt.claimsValid(jwt.decode(header).value.claims) &&
      GetId(vars).Ok? && GetId(vars).value in accounts &&
      ClaimedNumber(jwt.decode(header).value.claims) == Some(accounts[GetId(vars).value].number as int)
  {
    Authorize(ValidateJwt(header, jwt, secret), vars, accounts)
  }

  /** The handler runs exactly when every check passes. */
  lemma AdmittedExactly(header: string, vars: map<string, string>, accounts: map<int64, Account>, jwt: Jwt, secret: string)
    ensures WithJwtAuth(header, vars, accounts, jwt, secret) == Admitted <==>
      var parsed := ValidateJwt(header, jwt, secret);
      parsed.Ok? && parsed.value.valid && GetId(vars).Ok? && GetId(vars).value in accounts &&
      ClaimedNumber(parsed.value.claims) == Some(accounts[GetId(vars).value].number as int)
  {
  }

  /** The request panics exactly when a valid token for an existing account lacks a numeric claim. */
  lemma AbortExactly(header: string, vars: map<string, string>, accounts: map<int64, Account>, jwt: Jwt, secret: string)
    ensures WithJwtAuth(header, vars, accounts, jwt, secret) == Abort <==>
      var parsed := ValidateJwt(header, jwt, secret);
      parsed.Ok? && parsed.value.valid && GetId(vars).Ok? && GetId(vars).value in accounts &&
      ClaimedNumber(parsed.value.claims).None?
  {
  }

  /** A bad token or an unparsable id is denied before the table is read: no table changes the answer. */
  lemma DeniedBeforeStoreRead(parsed: Result<Token, Error>, vars: map<string, string>,
                              accounts1: map<int64, Account>, accounts2: map<int64, Account>)
    requires parsed.Err? || !parsed.value.valid || GetId(vars).Err?
    ensures Authorize(parsed, vars, accounts1) == Denied
    ensures Authorize(parsed, vars, accounts2) == Denied
  {
  }

  /** The `expires_at` claim is never read: changing or dropping it changes no decision. */
  lemma IgnoresExpiresAt(t: Token, v: ClaimValue, vars: map<string, string>, accounts: map<int64, Account>)
    ensures Authorize(Ok(t.(claims := t.claims["expires_at" := v])), vars, accounts) == Authorize(Ok(t), vars, accounts)
    ensures Authorize(Ok(t.(claims := t.claims - {"expires_at"})), vars, accounts) == Authorize(Ok(t), vars, accounts)
  {
    assert ClaimedNumber(t.claims["expires_at" := v]) == ClaimedNumber(t.claims);
    assert ClaimedNumber(t.claims - {"expires_at"}) == ClaimedNumber(t.claims);
  }

  /**
   * A token issued for an account with number N admits a path id exactly when
   * the stored account there has number N; every other existing account is denied.
   */
  lemma IssuedTokenAdmitsOnlyOwner(a: Account, jwt: Jwt, secret: string, tokenString: string,
                                   vars: map<string, string>, accounts: map<int64, Account>)
    requires RoundTrips(jwt) && ExactNumber(a.number as int)
    requires CreateJwt(a, jwt, secret) == Ok(tokenString)
    requires jwt.claimsValid(IssuedClaims(a))
    requires GetId(vars).Ok? && GetId(vars).value in accounts
    ensures WithJwtAuth(tokenString, vars, accounts, jwt, secret) ==
            if accounts[GetId(vars).value].number == a.number then Admitted else Denied
  {
    IssuedTokenValidates(a, jwt, secret, tokenString);
    IssuedClaimsCarryNumber(a);
  }
}
