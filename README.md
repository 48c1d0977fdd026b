# gobank-api: fund transfer, ownership guard and login, in Dafny

This project models the core of a small Go bank-account service. Its clients create
accounts, log in with an account number and password to receive a signed token (a JWT),
and move funds between accounts. The part modelled here is:

- the **fund transfer** handler (`transfer`, accout.go). It runs an ordered chain of
  checks, changes two balances in int64 arithmetic, and then makes two separate store
  writes, the destination first;
- the **ownership guard** (`withJWTAuth`, middleware.go). It admits a request only when
  the token verifies and its `account_number` claim equals the number of the account named
  by the path id. Otherwise it denies with one fixed 403 reply;
- the **login decision** (`login`, auth.go);
- the **helpers** in helpers.go: the HMAC-only key gate, the claims a token is issued
  with, path-id parsing with `strconv.Atoi`, the password and hashing wrappers, and the
  error-to-400 wrapper `handler`;
- the **records** and the `NewAccount` constructor in types.go;
- the **account dispatch** handlers in accout.go.

The account table is an in-memory `Store` class that holds `map<int64, Account>` keyed by
the row id. Every write to it may be refused: the method chooses nondeterministically
between returning a store error and making its change. `ApiServer.Transfer` runs the
transfer on that class. Its postcondition ties the returned outcome and the new table to
the pure function `TransferSpec`. That function takes the old table and the store's
answers to the two writes. All the transfer properties are lemmas about `TransferSpec`.
`GuardedTransfer` puts the guard in front of the transfer on the same `{id}`, as
router.go:13 wires it, and `ApiServer.ServeTransfer` is proved to match it.

JWT signing, decoding, signature checking and claim validation are opaque functions in
the `Jwt` datatype, and bcrypt is the `Bcrypt` datatype. The caller supplies both. The
token round-trip is proved under two stated assumptions about the library. The first is
`RoundTrips`: a token it signed decodes to what was signed and verifies under the same
key, for claims whose numbers lie within 2^53 of zero (a float64 holds those exactly).
The second, a precondition of each lemma that validates an issued token, is that the
library's claim validation (`claimsValid`) accepts the issued claims.

What the code does, where a client of a bank would expect more:

- No amount check. A client would expect `amount` to have to be positive, but
  `transfer` never checks its sign. The model follows the code. A negative amount passes
  the balance check and moves funds from the destination to the source.
  `NegativeAmountDrainsAnotherOwner` exhibits a token holder emptying an account whose
  number the token does not carry. So the guard protects only the source account.
- Int64 wrap-around. Balances are int64 and Go's `+` and `-` wrap around. The model writes
  this out as `Ints.Wrap`. `SourceBalanceCanWrap` shows a completed transfer that leaves
  the source negative.
- No atomic commit. A client would expect the two rows to change together or not at all. The code
  makes two independent writes, and the model keeps them separate.
  `SourceWriteFailureKeepsCredit` proves that a failed second write leaves the credit in
  place and adds money to the table.

## Model

| member | source | states |
|---|---|---|
| `Ints.Wrap` | accout.go:130-131 | int64 `+`/`-` wrap around: the result equals the exact value modulo 2^64, and is that value whenever it fits |
| `Strconv.FormatNat` | storage.go:94 | `%d` writes a non-empty digit string, without a leading zero, whose decimal value is the number |
| `Strconv.Atoi` | helpers.go:58 | `strconv.Atoi` accepts only an optional sign followed by digits, and the sign decides the sign of the result |
| `Strconv.AtoiFormatInt` | helpers.go:58 | every int64 written in decimal is read back by `Atoi` as itself |
| `Types.NewAccount` | types.go:34-42 | the number is in [0, 1000000), the id and balance are zero, and the names and hashed password are copied verbatim |
| `Types.JsonHidesPassword` | types.go:30 | the JSON form of an account does not depend on its password |
| `Types.Message` | storage.go:94 | the error texts the handlers return (also helpers.go lines 61 and 72, auth.go line 11); "account <id> not found" carries the id in decimal, and `Atoi` reads it back as that id |
| `Storage.SetBalance` | storage.go:77-81 | an update changes only the balance of the row with the given id, and adds or removes no row |
| `Storage.SetBalanceTotal` | storage.go:77-81 | an update moves the sum of all balances by exactly the change in that row's balance |
| `Storage.Lookup` | storage.go:83-95 | the row with that id exactly when there is one, otherwise "account <id> not found" |
| `Storage.Store.GetAccountById` | storage.go:83-95 | returns the row with that id, or the error "account <id> not found" exactly when there is none |
| `Storage.Store.GetAccounts` | storage.go:97-116 | returns exactly the rows of the table |
| `Storage.Store.UpdateAccount` | storage.go:77-81 | either a store error and no change, or the balance update; the table stays keyed by id |
| `Storage.Store.DeleteAccount` | storage.go:71-75 | either a store error and no change, or the row is gone; a missing row is no error |
| `Storage.Store.CreateAccount` | storage.go:56-69 | either a store error and no change, or the row is inserted under a fresh serial id |
| `Helpers.KeyFun` | helpers.go:16-22 | the secret is returned for HMAC methods only; any other method gets "Unexpected signing method: <alg>" |
| `Helpers.ValidateJwt` | helpers.go:24-26 | an accepted token is marked valid, uses an HMAC method, decodes to its claims, and verifies under the secret |
| `Helpers.IssuedClaims` | helpers.go:29-32 | the claims are exactly `expires_at` = 1516239022 and `account_number` = the account's number, and they survive float64 decoding when the number lies within 2^53 of zero |
| `Helpers.CreateJwt` | helpers.go:28-37 | with a library that round-trips, an issued token decodes as HS256 to exactly the issued claims and verifies under the secret |
| `Helpers.CreateJwtReadsOnlyNumber` | helpers.go:28-37 | two accounts with the same number get the same token: no other field enters the claims |
| `Helpers.IssuedTokenValidates` | helpers.go:28-37 | an issued token validates as HS256 with exactly the claims `account_number` and `expires_at` = 1516239022 |
| `Helpers.GetId` | helpers.go:55-66 | succeeds exactly when `Atoi` accepts the `id` path variable, with its value; otherwise "invalid id given <id>" |
| `Helpers.GetIdFormatted` | helpers.go:55-66 | a path id written in decimal parses back to the same id |
| `Helpers.HashPassword` | helpers.go:68-76 | gives the bcrypt hash, or, for any bcrypt failure, the empty hash with "Failed to hash password" |
| `Helpers.IsPasswordValid` | helpers.go:78-86 | true exactly when the bcrypt comparison reports no error |
| `Helpers.Handler` | helpers.go:47-53 | a returned error becomes a 400 reply `{"error": <message>}`; a nil error adds nothing |
| `Middleware.ClaimedNumber` | middleware.go:37-38 | the claim is read if and only if `account_number` is present and numeric; otherwise the type assertion panics |
| `Middleware.WithJwtAuth` | middleware.go:8-45 | a token that does not decode or verify under the secret, or an id that does not parse or names no row, is denied; the handler runs only for a verified HMAC token that passed claim validation and claims the number of the row the id names |
| `Middleware.IssuedClaimsCarryNumber` | middleware.go:37-38 | the guard reads back from the claims the number `createJwt` wrote |
| `Middleware.Authorize` | middleware.go:10-43 | no request gets past the first three checks without a valid token, a parsed id and an existing account |
| `Middleware.AdmittedExactly` | middleware.go:10-43 | the handler runs if and only if the token verifies and is valid, the id parses, the account exists, and its number equals the claim |
| `Middleware.AbortExactly` | middleware.go:37-38 | the request panics if and only if a valid token for an existing account has no numeric `account_number` |
| `Middleware.DeniedBeforeStoreRead` | middleware.go:11-29 | a bad token or an unparsable id is denied whatever the table holds, so the table is not consulted |
| `Middleware.IgnoresExpiresAt` | middleware.go:37-38 | changing or removing the `expires_at` claim changes no decision |
| `Middleware.IssuedTokenAdmitsOnlyOwner` | middleware.go:31-43 | a token issued for number N admits a path id exactly when the stored account there has number N; every other existing account is denied |
| `Accounts.PermissionDenied` | accout.go:144-147 | 403 with `{"error": "permission denied"}`, a reply no handler error can produce |
| `Accounts.Credit` | accout.go:130 | the int64 sum of balance and amount: equal to the exact sum modulo 2^64, and to the exact sum when it fits |
| `Accounts.Debit` | accout.go:131 | the int64 difference of balance and amount: equal to the exact difference modulo 2^64, and to the exact difference when it fits |
| `Accounts.TransferSpec` | accout.go:98-142 | the transfer neither adds nor removes rows, and it writes only "insufficient balance", "cannot do self transfer" or "transfer complete" |
| `Accounts.EarlyErrorsChangeNothing` | accout.go:99-114 | a decode, id or missing-source error is returned as it is, and nothing changes |
| `Accounts.InsufficientBalanceStopsEarly` | accout.go:116-118 | a source balance below the amount gives 400 "insufficient balance" and no change, whatever the destination is, a self-transfer included |
| `Accounts.MissingDestinationChangesNothing` | accout.go:120-123 | a missing destination returns "account <id> not found" after the balance check, with no change |
| `Accounts.SelfTransferExactly` | accout.go:116-128 | "cannot do self transfer" comes exactly when the balance check passed and both ids are the same, and nothing changes |
| `Accounts.CompletesExactly` | accout.go:98-142 | "transfer complete" comes exactly when every check passes and both writes succeed |
| `Accounts.TransferFrame` | accout.go:130-139 | only the balances of the source and destination rows can change, and any change means every check passed and the destination write succeeded |
| `Accounts.MovesAmount` | accout.go:130-141 | a completed transfer credits the destination and debits the source by the amount, in int64, and leaves every other row alone |
| `Accounts.ConservesTotal` | accout.go:130-139 | a completed transfer keeps the sum of all balances modulo 2^64, and keeps the exact sum whenever neither operation wraps (the converse does not hold) |
| `Accounts.SourceStaysNonNegative` | accout.go:116-131 | after a completed transfer the source balance is non-negative unless the subtraction wrapped; it cannot wrap for a non-negative amount |
| `Accounts.NegativeAmountMovesFundsBack` | accout.go:116-131 | the sign of the amount is unchecked: a negative amount lowers the destination balance and raises the source balance |
| `Accounts.SourceBalanceCanWrap` | accout.go:131 | a source at the largest int64 that sends -1 ends at the smallest int64 |
| `Accounts.DestinationWriteFailureChangesNothing` | accout.go:133-135 | a failed destination write returns the store error and leaves the table as it was |
| `Accounts.SourceWriteFailureKeepsCredit` | accout.go:133-139 | a failed source write keeps the destination credit, leaves the source untouched, and grows the total by the amount |
| `Accounts.GuardedTransfer` | router.go:13 | a denial or a panic leaves the table unchanged |
| `Accounts.DenialsAreUniform` | accout.go:144-147 | every denial is the same 403 `{"error":"permission denied"}` and changes nothing; an abort sends no reply |
| `Accounts.OnlyOwnerChangesTable` | router.go:13 | the table changes only for a verified token whose claim is the number of the path's account |
| `Accounts.OnlyOwnerDebited` | router.go:13 | with a non-negative amount and no overflow in the credit, only the token owner's account can lose funds |
| `Accounts.NegativeAmountDrainsAnotherOwner` | accout.go:116-131 | a token holder who sends -500 takes 500 from an account whose number the token does not carry |
| `Accounts.ApiServer.Transfer` | accout.go:98-142 | the store's new table and the outcome are those of `TransferSpec`, given the store's answers to the two writes |
| `Accounts.ApiServer.ServeTransfer` | router.go:13 | the reply and the new table are those of `GuardedTransfer` |
| `Accounts.ApiServer.GetAccounts` | accout.go:33-41 | 200 with exactly the JSON forms of the rows of the table |
| `Accounts.ApiServer.GetAccountById` | accout.go:68-80 | the id error, or "account <id> not found", or 200 with that row's JSON form |
| `Accounts.ApiServer.DeleteAccount` | accout.go:82-96 | the id error with no change, a store error with no change, or "deleted successfully" with the row removed |
| `Accounts.ApiServer.CreateAccounts` | accout.go:43-66 | decode and hash errors change nothing; a refused insert is a store error that changes nothing; otherwise a new row from `NewAccount` under the next id, the id sequence advances by one, and the answer is 201 with its token, or the signing error |
| `Accounts.ApiServer.HandleAccounts` | accout.go:8-17 | GET answers 200 with exactly the JSON forms of the rows; POST does what `CreateAccounts` does; any other method gets 405 "method not allowed"; only POST can change the table |
| `Accounts.ApiServer.HandleAccountById` | accout.go:19-30 | GET answers what `GetAccountById` answers; DELETE does what `DeleteAccount` does; any other method gets 405 "method not allowed"; only DELETE can change the table |
| `Auth.Login` | auth.go:9-37 | a reply is written only for a POST with a decoded body and a found account, and it is the 403 denial or a 201 |
| `Auth.OnlyPostIsServed` | auth.go:10-12 | any other method returns "Method not allowed", whatever the body and the store |
| `Auth.MalformedBodyBeforeLookup` | auth.go:14-18 | an undecodable body returns the decoder's error, whatever the store holds |
| `Auth.UnknownNumberIsNotDenial` | auth.go:21-24 | a failed lookup by number propagates the store's error as a 400, not the 403 |
| `Auth.WrongPasswordDenied` | auth.go:26-29 | a wrong password gets the 403 denial and no token |
| `Auth.SucceedsExactly` | auth.go:9-37 | 201 comes exactly when every step succeeds, and its body is the token issued for the account found |
| `Auth.LoginTokenOpensOnlyOwnAccounts` | auth.go:31-36 | the token from a login with number N opens, through the guard, exactly the stored accounts with number N |

## Left out

- JSON decoding of request bodies is represented by its result: a decoded record or the decoder's error. `writeJson` is represented by the `Reply` value it would write. A failure while encoding a reply is not modelled.
- HTTP routing and server startup are left out (router.go, server.go, main.go). Only the wrapping of `transfer` by the guard on the same `{id}` is modelled (router.go:13). The guard in front of `handleAccountById` (router.go:14) is not composed with it.
- The stale handler copies in api.go are superseded and are not part of this model.
- golang-jwt and bcrypt are opaque functions supplied by the caller, and their internals are not modelled. Claim numbers are decoded as float64. Only integral values are modelled, and converting an out-of-range float to int64 is not modelled.
- `Helpers.RoundTrips`: it promises a faithful decode only for claims whose numbers lie within 2^53 of zero. Beyond that, golang-jwt's float64 decoding rounds, and an int64 account number could come back as a different number. So `IssuedTokenValidates`, `IssuedTokenAdmitsOnlyOwner`, `LoginTokenOpensOnlyOwnAccounts` and the round trip in `CreateJwt` require the account number to lie in that range. Every number `NewAccount` draws is in [0, 1000000), well inside it.
- `Helpers.IssuedTokenValidates`, `Middleware.IssuedTokenAdmitsOnlyOwner`, `Auth.LoginTokenOpensOnlyOwnAccounts`: these assume that golang-jwt's claim validation accepts the issued claims. What that validation checks is not modelled.
- The Postgres store is the in-memory `Store`. Reads always reach the table, so a failing read query is not modelled. Writes can fail with any store error. `GetAccountByNumber` is not declared in the `Storage` interface, so the login takes it as a function `byNumber`. The stated property `AnswersByNumber` says that a row it returns is in the table and has that number. Which row it picks when numbers repeat is not modelled.
- The table has no password column: the insert at storage.go:57-66 never writes the password, and `scanIntoAccount` never reads one. The in-memory table still keeps the password field.
- The table declares `number` and `balance` as `serial` columns (storage.go:48-49), which Postgres stores as 32-bit integers. The real store therefore refuses any balance outside the int32 range. The in-memory `Store` holds any int64, which is what Go's `Account` allows. A refused write is already one of the store errors the model allows, but `Accounts.SourceBalanceCanWrap` uses a store that holds an int64 balance.
- Concurrency is outside this sequential model. Requests run on separate goroutines, and two transfers can race on the same balance (a lost update).
- `rand.Intn` and `time.Now` are nondeterministic choices inside `ApiServer.CreateAccounts`, within the range `rand.Intn(1000000)` allows. The `serial` sequence advances only on a successful insert.
- Go's `int` is taken to be 64 bits wide.
- `Accounts.SourceStaysNonNegative`: this holds only when the subtraction does not wrap. The code's balance check `balance >= amount` implies a non-negative result only in exact arithmetic.
- `Accounts.OnlyOwnerDebited`: this requires a non-negative amount and no overflow in the credit. `NegativeAmountDrainsAnotherOwner` shows that it fails without them.
