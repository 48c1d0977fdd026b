/**
 * auth.go: the login handler. `byNumber` is the store's query by account
 * number; bcrypt and golang-jwt are the caller's oracles. Nothing is written.
 */
module Auth {
  import opened Wrappers
  import opened Ints
  import opened Types
  import opened Storage
  import opened Helpers
  import opened Middleware
  import opened Accounts

  /** `login`: method, body, lookup, password, token, in that order. */
  function Login(httpMethod: string, body: Result<LoginRequest, Error>, byNumber: int64 -> Result<Account, Error>,
                 bcrypt: Bcrypt, jwt: Jwt, secret: string): (r: Outcome)
    ensures r.Wrote? ==> r.reply == PermissionDenied() || r.reply.status == StatusCreated
    ensures r.Wrote? ==> httpMethod == "POST" && body.Ok? && byNumber(body.value.number).Ok?
  {
    if httpMethod != "POST" then Failed(MethodNotAllowed)
    else if body.Err? then Failed(body.error)
    else
      var req := body.value;
      match byNumber(req.number)
      case Err(e) => Failed(e)
      case Ok(account) =>
        if !IsPasswordValid(bcrypt, account.password, req.password) then Wrote(PermissionDenied())
        else
          match CreateJwt(account, jwt, secret)
          case Err(e) => Failed(e)
          case Ok(token) => Wrote(Reply(StatusCreated, JsonString(token)))
  }

  /** Any method but POST is refused before the body is read or the store is asked. */
  lemma OnlyPostIsServed(httpMethod: string, body: Result<LoginRequest, Error>, byNumber: int64 -> Result<Account, Error>,
                         bcrypt: Bcrypt, jwt: Jwt, secret: string)
    requires httpMethod != "POST"
    ensures Login(httpMethod, body, byNumber, bcrypt, jwt, secret) == Failed(MethodNotAllowed)
    ensures Handler(Login(httpMethod, body, byNumber, bcrypt, jwt, secret)) ==
            Reply(StatusBadRequest, JsonError("Method not allowed"))
  {
  }

  /** A body that does not decode is returned as the decoder's error, whatever the store holds. */
  lemma MalformedBodyBeforeLookup(body: Result<LoginRequest, Error>, byNumber: int64 -> Result<Account, Error>,
                                  bcrypt: Bcrypt, jwt: Jwt, secret: string)
    requires body.Err?
    ensures Login("POST", body, byNumber, bcrypt, jwt, secret) == Failed(body.error)
  {
  }

  /**
   * An account number the store cannot answer for is reported as the store's
   * error, a 400, and not as the 403 a wrong password gets.
   */
  lemma UnknownNumberIsNotDenial(req: LoginRequest, byNumber: int64 -> Result<Account, Error>,
                                 bcrypt: Bcrypt, jwt: Jwt, secret: string)
    requires byNumber(req.number).Err?
    ensures Login("POST", Ok(req), byNumber, bcrypt, jwt, secret) == Failed(byNumber(req.number).error)
    ensures Handler(Login("POST", Ok(req), byNumber, bcrypt, jwt, secret)).status == StatusBadRequest
  {
  }

  /** A wrong password gets the uniform 403 and no token. */
  lemma WrongPasswordDenied(req: LoginRequest, byNumber: int64 -> Result<Account, Error>,
                            bcrypt: Bcrypt, jwt: Jwt, secret: string)
    requires byNumber(req.number).Ok?
    requires bcrypt.compare(byNumber(req.number).value.password, req.password).Some?
    ensures Login("POST", Ok(req), byNumber, bcrypt, jwt, secret) == Wrote(PermissionDenied())
  {
  }

  /** Login answers 201 exactly when every step succeeds, and the body is the token issued for the account found. */
  lemma SucceedsExactly(httpMethod: string, body: Result<LoginRequest, Error>, byNumber: int64 -> Result<Account, Error>,
                        bcrypt: Bcrypt, jwt: Jwt, secret: string)
    ensures Login(httpMethod, body, byNumber, bcrypt, jwt, secret).Wrote? &&
            Login(httpMethod, body, byNumber, bcrypt, jwt, secret).reply.status == StatusCreated <==>
      httpMethod == "POST" && body.Ok? && byNumber(body.value.number).Ok? &&
      bcrypt.compare(byNumber(body.value.number).value.password, body.value.password).None? &&
      CreateJwt(byNumber(body.value.number).value, jwt, secret).Ok?
    ensures Login(httpMethod, body, byNumber, bcrypt, jwt, secret).Wrote? &&
            Login(httpMethod, body, byNumber, bcrypt, jwt, secret).reply.status == StatusCreated ==>
      Login(httpMethod, body, byNumber, bcrypt, jwt, secret).reply.body ==
        JsonString(CreateJwt(byNumber(body.value.number).value, jwt, secret).value)
  {
  }

  /**
   * The token a login with number N returns opens, through the ownership
   * guard, exactly the stored accounts whose number is N.
   */
  lemma LoginTokenOpensOnlyOwnAccounts(req: LoginRequest, byNumber: int64 -> Result<Account, Error>,
                                       accounts: map<int64, Account>,
                                       bcrypt: Bcrypt, jwt: Jwt, secret: string, tokenString: string)
    requires RoundTrips(jwt) && AnswersByNumber(byNumber, accounts) && ExactNumber(req.number as int)
    requires Login("POST", Ok(req), byNumber, bcrypt, jwt, secret) == Wrote(Reply(StatusCreated, JsonString(tokenString)))
    requires jwt.claimsValid(map["expires_at" := NumberClaim(ExpiresAt), "account_number" := NumberClaim(req.number as int)])
    ensures forall vars | GetId(vars).Ok? && GetId(vars).value in accounts ::
      WithJwtAuth(tokenString, vars, accounts, jwt, secret) ==
      if accounts[GetId(vars).value].number == req.number then Admitted else Denied
  {
    var account := byNumber(req.number).value;
    assert account.number == req.number;
    assert IssuedClaims(account) ==
      map["expires_at" := NumberClaim(ExpiresAt), "account_number" := NumberClaim(req.number as int)];
    forall vars | GetId(vars).Ok? && GetId(vars).value in accounts
      ensures WithJwtAuth(tokenString, vars, accounts, jwt, secret) ==
              if accounts[GetId(vars).value].number == req.number then Admitted else Denied
    {
      IssuedTokenAdmitsOnlyOwner(account, jwt, secret, tokenString, vars, accounts);
    }
  }
}
