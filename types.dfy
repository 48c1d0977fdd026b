/**
 * The records of the service (types.go) and the error values its handlers
 * return. Times are Unix nanoseconds; a JSON body that failed to decode is an
 * `Err` carrying the decoder's error.
 */
module Types {
  import opened Wrappers
  import opened Ints
  import Strconv

  datatype LoginRequest = LoginRequest(number: int64, password: string)

  /** Neither field is constrained: the amount may be zero or negative. */
  datatype TransferAmountRequest = TransferAmountRequest(toAccount: int64, amount: int64)

  datatype CreateAccountRequest = CreateAccountRequest(firstName: string, lastName: string, password: string)

  datatype Account = Account(
    id: int64,
    firstName: string,
    lastName: string,
    balance: int64,
    number: int64,
    password: string,
    createdAt: int)

  /** What JSON encoding of an `Account` writes: every field but the password. */
  datatype AccountJson = AccountJson(
    id: int64,
    firstName: string,
    lastName: string,
    balance: int64,
    number: int64,
    createdAt: int)

  function ToJson(a: Account): AccountJson {
    AccountJson(a.id, a.firstName, a.lastName, a.balance, a.number, a.createdAt)
  }

  /** Two accounts that differ only in their password serialise alike. */
  lemma JsonHidesPassword(a: Account, b: Account)
    requires a.(password := b.password) == b
    ensures ToJson(a) == ToJson(b)
  {
  }

  /** Account numbers are drawn from [0, NumberRange). */
  const NumberRange: int := 1000000

  /**
   * A new account: `draw` is the value `rand.Intn(1000000)` returned and
   * `now` the clock reading. Nothing makes the number unique.
   */
  function NewAccount(firstName: string, lastName: string, hashedPassword: string, draw: int, now: int): (a: Account)
    requires 0 <= draw < NumberRange
    ensures 0 <= a.number as int < NumberRange
    ensures a.id == 0 && a.balance == 0
    ensures a.firstName == firstName && a.lastName == lastName && a.password == hashedPassword
    ensures a.createdAt == now
  {
    Account(0, firstName, lastName, 0, draw as int64, hashedPassword, now)
  }

  /** The `error` values handlers return; `Message` is what `err.Error()` gives. */
  datatype Error =
    | DecodeFailure(detail: string)
    | InvalidId(raw: string)
    | AccountNotFound(id: int64)
    | StoreFailure(detail: string)
    | MethodNotAllowed
    | HashFailed
    | UnexpectedSigningMethod(alg: string)
    | TokenMalformed
    | TokenUnverifiable(cause: Error)
    | TokenSignatureInvalid
    | TokenClaimsInvalid
    | CryptoFailure(detail: string)

  function Message(e: Error): (r: string)
    ensures e.InvalidId? ==> r == "invalid id given " + e.raw
    ensures e.AccountNotFound? ==>
      |r| >= 18 && r[..8] == "account " && r[|r| - 10..] == " not found" &&
      Strconv.Atoi(r[8..|r| - 10]) == Some(e.id)
    ensures e == MethodNotAllowed ==> r == "Method not allowed"
    ensures e == HashFailed ==> r == "Failed to hash password"
    ensures e.StoreFailure? ==> r == e.detail
  {
    match e
    case DecodeFailure(d) => d
    case InvalidId(raw) => "invalid id given " + raw
    case AccountNotFound(id) =>
      var digits := Strconv.FormatInt(id as int);
      Strconv.AtoiFormatInt(id);
      var s := "account " + digits + " not found";
      assert s[8..|s| - 10] == digits;
      s
    case StoreFailure(d) => d
    case MethodNotAllowed => "Method not allowed"
    case HashFailed => "Failed to hash password"
    case UnexpectedSigningMethod(alg) => "Unexpected signing method: " + alg
    case TokenMalformed => "token is malformed"
    case TokenUnverifiable(cause) => "token is unverifiable: error while executing keyfunc: " + Message(cause)
    case TokenSignatureInvalid => "token signature is invalid"
    case TokenClaimsInvalid => "token has invalid claims"
    case CryptoFailure(d) => d
  }
}
