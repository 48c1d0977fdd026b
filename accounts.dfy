/**
 * accout.go: the account handlers and the fund transfer. `TransferSpec` is the
 * transfer as a function of the table before it and of the store's answers to
 * its two writes; `ApiServer.Transfer` performs it on a `Store` and is proved
 * to match it. The lemmas state what the handler guarantees and what it does not.
 */
module Accounts {
  import opened Wrappers
  import opened Ints
  import opened Types
  import opened Storage
  import opened Helpers
  import opened Middleware

  /** `permissionDenied`: 403 with `{"error": "permission denied"}`. */
  function PermissionDenied(): (r: Reply)
    ensures r.status == StatusForbidden && r.body == JsonError("permission denied")
    ensures forall e :: Handler(Failed(e)) != r
  {
    Reply(StatusForbidden, JsonError("permission denied"))
  }

  const MethodNotAllowedReply: Reply := Reply(StatusMethodNotAllowed, JsonString("method not allowed"))
  const InsufficientBalance: Reply := Reply(StatusBadRequest, JsonString("insufficient balance"))
  const SelfTransfer: Reply := Reply(StatusBadRequest, JsonString("cannot do self transfer"))
  const TransferComplete: Reply := Reply(StatusOK, JsonString("transfer complete"))
  const Deleted: Reply := Reply(StatusOK, JsonString("deleted successfully"))

  /** int64 arithmetic on balances: `+` and `-` wrap around. */
  function Credit(balance: int64, amount: int64): (r: int64)
    ensures (r as int - (balance as int + amount as int)) % Modulus == 0
    ensures InRange(balance as int + amount as int) ==> r as int == balance as int + amount as int
  {
    Wrap(balance as int + amount as int)
  }

  function Debit(balance: int64, amount: int64): (r: int64)
    ensures (r as int - (balance as int - amount as int)) % Modulus == 0
    ensures InRange(balance as int - amount as int) ==> r as int == balance as int - amount as int
  {
    Wrap(balance as int - amount as int)
  }

  /**
   * `transfer`, given the table before the request and the store's answers to
   * the write of the destination and then of the source (None: written).
   */
  function TransferSpec(accounts: map<int64, Account>, vars: map<string, string>,
                        body: Result<TransferAmountRequest, Error>,
                        destWrite: Option<Error>, srcWrite: Option<Error>): (r: (Outcome, map<int64, Account>))
    ensures r.1.Keys == accounts.Keys
    ensures r.0.Wrote? ==> r.0.reply in {InsufficientBalance, SelfTransfer, TransferComplete}
  {
    if body.Err? then (Failed(body.error), accounts)
    else
      var req := body.value;
      match GetId(vars)
      case Err(e) => (Failed(e), accounts)
      case Ok(id) =>
        match Lookup(accounts, id)
        case Err(e) => (Failed(e), accounts)
        case Ok(from) =>
          if from.balance < req.amount then (Wrote(InsufficientBalance), accounts)
          else
            match Lookup(accounts, req.toAccount)
            case Err(e) => (Failed(e), accounts)
            case Ok(to) =>
              if to.id == from.id then (Wrote(SelfTransfer), accounts)
              else
                var credited := to.(balance := Credit(to.balance, req.amount));
                var debited := from.(balance := Debit(from.balance, req.amount));
                if destWrite.Some? then (Failed(destWrite.value), accounts)
                else
                  var afterCredit := SetBalance(accounts, credited);
                  if srcWrite.Some? then (Failed(srcWrite.value), afterCredit)
                  else (Wrote(TransferComplete), SetBalance(afterCredit, debited))
  }

  /** Every check of the transfer passes: a body, a path id, both accounts, the balance, two rows. */
  predicate ChecksPass(accounts: map<int64, Account>, vars: map<string, string>, body: Result<TransferAmountRequest, Error>) {
    body.Ok? && GetId(vars).Ok? &&
    GetId(vars).value in accounts && body.value.toAccount in accounts &&
    accounts[GetId(vars).value].balance >= body.value.amount &&
    body.value.toAccount != GetId(vars).value
  }

  /** A body, id or source-account error is returned as it is, before any balance is read or written. */
  lemma EarlyErrorsChangeNothing(accounts: map<int64, Account>, vars: map<string, string>,
                                 body: Result<TransferAmountRequest, Error>, destWrite: Option<Error>, srcWrite: Option<Error>)
    ensures body.Err? ==> TransferSpec(accounts, vars, body, destWrite, srcWrite) == (Failed(body.error), accounts)
    ensures body.Ok? && GetId(vars).Err? ==>
      TransferSpec(accounts, vars, body, destWrite, srcWrite) == (Failed(InvalidId(PathId(vars))), accounts)
    ensures body.Ok? && GetId(vars).Ok? && GetId(vars).value !in accounts ==>
      TransferSpec(accounts, vars, body, destWrite, srcWrite) == (Failed(AccountNotFound(GetId(vars).value)), accounts)
  {
  }

  /**
   * A source balance below the amount is answered with "insufficient balance"
   * whatever the destination is (missing, or the source itself), and nothing is written.
   */
  lemma InsufficientBalanceStopsEarly(accounts: map<int64, Account>, vars: map<string, string>, req: TransferAmountRequest,
                                      destWrite: Option<Error>, srcWrite: Option<Error>)
    requires GetId(vars).Ok? && GetId(vars).value in accounts
    requires accounts[GetId(vars).value].balance < req.amount
    ensures TransferSpec(accounts, vars, Ok(req), destWrite, srcWrite) == (Wrote(InsufficientBalance), accounts)
  {
  }

  /** A missing destination is reported only once the balance check has passed, and nothing is written. */
  lemma MissingDestinationChangesNothing(accounts: map<int64, Account>, vars: map<string, string>, req: TransferAmountRequest,
                                         destWrite: Option<Error>, srcWrite: Option<Error>)
    requires GetId(vars).Ok? && GetId(vars).value in accounts
    requires accounts[GetId(vars).value].balance >= req.amount
    requires req.toAccount !in accounts
    ensures TransferSpec(accounts, vars, Ok(req), destWrite, srcWrite) == (Failed(AccountNotFound(req.toAccount)), accounts)
  {
  }

  /** "cannot do self transfer" is the answer exactly when the balance check passed and both ids name one row. */
  lemma SelfTransferExactly(accounts: map<int64, Account>, vars: map<string, string>, body: Result<TransferAmountRequest, Error>,
                            destWrite: Option<Error>, srcWrite: Option<Error>)
    requires Keyed(accounts)
    ensures TransferSpec(accounts, vars, body, destWrite, srcWrite).0 == Wrote(SelfTransfer) <==>
      body.Ok? && GetId(vars).Ok? && GetId(vars).value in accounts &&
      accounts[GetId(vars).value].balance >= body.value.amount && body.value.toAccount == GetId(vars).value
    ensures TransferSpec(accounts, vars, body, destWrite, srcWrite).0 == Wrote(SelfTransfer) ==>
      TransferSpec(accounts, vars, body, destWrite, srcWrite).1 == accounts
  {
  }

  /** The transfer completes exactly when every check passes and both writes succeed. */
  lemma CompletesExactly(accounts: map<int64, Account>, vars: map<string, string>, body: Result<TransferAmountRequest, Error>,
                         destWrite: Option<Error>, srcWrite: Option<Error>)
    requires Keyed(accounts)
    ensures TransferSpec(accounts, vars, body, destWrite, srcWrite).0 == Wrote(TransferComplete) <==>
      ChecksPass(accounts, vars, body) && destWrite.None? && srcWrite.None?
  {
  }

  /**
   * Only the balances of the source and the destination can change, rows are
   * neither added nor removed, and any change at all means every check passed
   * and the destination was written.
   */
  lemma TransferFrame(accounts: map<int64, Account>, vars: map<string, string>,
                      body: Result<TransferAmountRequest, Error>, destWrite: Option<Error>, srcWrite: Option<Error>)
    requires Keyed(accounts)
    ensures var after := TransferSpec(accounts, vars, body, destWrite, srcWrite).1;
      Keyed(after) && after.Keys == accounts.Keys &&
      (forall k | k in accounts :: after[k] == accounts[k].(balance := after[k].balance)) &&
      (after != accounts ==> ChecksPass(accounts, vars, body) && destWrite.None?)
    ensures var after := TransferSpec(accounts, vars, body, destWrite, srcWrite).1;
      after != accounts ==>
        forall k | k in accounts && k != GetId(vars).value && k != body.value.toAccount :: after[k] == accounts[k]
  {
    if ChecksPass(accounts, vars, body) && destWrite.None? {
      var id, req := GetId(vars).value, body.value;
      var credited := accounts[req.toAccount].(balance := Credit(accounts[req.toAccount].balance, req.amount));
      SetBalanceKeepsKeyed(accounts, credited);
      SetBalanceKeepsKeyed(SetBalance(accounts, credited), accounts[id].(balance := Debit(accounts[id].balance, req.amount)));
    }
  }

  /** A completed transfer credits the destination and debits the source by the amount, in int64 arithmetic. */
  lemma MovesAmount(accounts: map<int64, Account>, vars: map<string, string>, body: Result<TransferAmountRequest, Error>)
    requires Keyed(accounts) && ChecksPass(accounts, vars, body)
    ensures var id, req := GetId(vars).value, body.value;
      var after := TransferSpec(accounts, vars, body, None, None).1;
      TransferSpec(accounts, vars, body, None, None).0 == Wrote(TransferComplete) &&
      after.Keys == accounts.Keys &&
      after[req.toAccount] == accounts[req.toAccount].(balance := Credit(accounts[req.toAccount].balance, req.amount)) &&
      after[id] == accounts[id].(balance := Debit(accounts[id].balance, req.amount)) &&
      forall k | k in accounts && k != id && k != req.toAccount :: after[k] == accounts[k]
  {
  }

  /** A completed transfer changes the total by what the two wrapped operations lost or gained. */
  lemma TotalAfterTransfer(accounts: map<int64, Account>, vars: map<string, string>, body: Result<TransferAmountRequest, Error>)
    requires Keyed(accounts) && ChecksPass(accounts, vars, body)
    ensures var id, req := GetId(vars).value, body.value;
      var from, to := accounts[id].balance, accounts[req.toAccount].balance;
      Total(TransferSpec(accounts, vars, body, None, None).1) - Total(accounts) ==
        (Credit(to, req.amount) as int - (to as int + req.amount as int)) +
        (Debit(from, req.amount) as int - (from as int - req.amount as int))
  {
    var id, req := GetId(vars).value, body.value;
    var from, to := accounts[id], accounts[req.toAccount];
    var credited := to.(balance := Credit(to.balance, req.amount));
    var debited := from.(balance := Debit(from.balance, req.amount));
    var afterCredit := SetBalance(accounts, credited);
    SetBalanceTotal(accounts, credited);
    SetBalanceTotal(afterCredit, debited);
    assert TransferSpec(accounts, vars, body, None, None).1 == SetBalance(afterCredit, debited);
  }

  /**
   * A completed transfer keeps the sum of all balances modulo 2^64, and keeps
   * the exact sum whenever neither int64 operation wraps.
   */
  lemma ConservesTotal(accounts: map<int64, Account>, vars: map<string, string>, body: Result<TransferAmountRequest, Error>)
    requires Keyed(accounts) && ChecksPass(accounts, vars, body)
    ensures var after := TransferSpec(accounts, vars, body, None, None).1;
      (Total(after) - Total(accounts)) % Modulus == 0
    ensures var id, req := GetId(vars).value, body.value;
      var after := TransferSpec(accounts, vars, body, None, None).1;
      InRange(accounts[req.toAccount].balance as int + req.amount as int) &&
      InRange(accounts[id].balance as int - req.amount as int) ==>
        Total(after) == Total(accounts)
  {
    var id, req := GetId(vars).value, body.value;
    var from, to := accounts[id].balance, accounts[req.toAccount].balance;
    TotalAfterTransfer(accounts, vars, body);
    var gain := Credit(to, req.amount) as int - (to as int + req.amount as int);
    var loss := Debit(from, req.amount) as int - (from as int - req.amount as int);
    assert gain % Modulus == 0 && loss % Modulus == 0;
  }

  /**
   * The balance check keeps a completed transfer's source non-negative as
   * long as the subtraction does not wrap, which it cannot for a non-negative amount.
   */
  lemma SourceStaysNonNegative(accounts: map<int64, Account>, vars: map<string, string>, body: Result<TransferAmountRequest, Error>)
    requires Keyed(accounts) && ChecksPass(accounts, vars, body)
    requires accounts[GetId(vars).value].balance as int - body.value.amount as int <= MaxInt64
    ensures TransferSpec(accounts, vars, body, None, None).1[GetId(vars).value].balance >= 0
  {
  }

  /** The amount's sign is never checked: a negative amount moves funds from the destination to the source. */
  lemma NegativeAmountMovesFundsBack(accounts: map<int64, Account>, vars: map<string, string>, body: Result<TransferAmountRequest, Error>)
    requires Keyed(accounts) && ChecksPass(accounts, vars, body)
    requires body.value.amount < 0
    requires InRange(accounts[body.value.toAccount].balance as int + body.value.amount as int)
    requires InRange(accounts[GetId(vars).value].balance as int - body.value.amount as int)
    ensures var after := TransferSpec(accounts, vars, body, None, None).1;
      after[body.value.toAccount].balance < accounts[body.value.toAccount].balance &&
      after[GetId(vars).value].balance > accounts[GetId(vars).value].balance
  {
  }

  /** A source holding the largest int64, sending -1, wraps to the smallest. */
  lemma SourceBalanceCanWrap()
    ensures var accounts := map[1 := Account(1, "", "", MaxInt64 as int64, 7, "", 0), 2 := Account(2, "", "", 0, 8, "", 0)];
      var after := TransferSpec(accounts, map["id" := "1"], Ok(TransferAmountRequest(2, -1)), None, None);
      after.0 == Wrote(TransferComplete) && after.1[1].balance as int == MinInt64
  {
    assert Strconv.DigitsValue("1") == 1;
  }

  /** A failed destination write leaves the table as it was. */
  lemma DestinationWriteFailureChangesNothing(accounts: map<int64, Account>, vars: map<string, string>,
                                              body: Result<TransferAmountRequest, Error>, e: Error, srcWrite: Option<Error>)
    requires Keyed(accounts) && ChecksPass(accounts, vars, body)
    ensures TransferSpec(accounts, vars, body, Some(e), srcWrite) == (Failed(e), accounts)
  {
  }

  /**
   * The writes are not atomic: when the source write fails after the
   * destination write, the credit stays, the source keeps its balance, and
   * the table's total grows by the amount unless the credit wrapped.
   */
  lemma SourceWriteFailureKeepsCredit(accounts: map<int64, Account>, vars: map<string, string>,
                                      body: Result<TransferAmountRequest, Error>, e: Error)
    requires Keyed(accounts) && ChecksPass(accounts, vars, body)
    ensures var id, req := GetId(vars).value, body.value;
      var (o, after) := TransferSpec(accounts, vars, body, None, Some(e));
      o == Failed(e) && after.Keys == accounts.Keys &&
      after[req.toAccount] == accounts[req.toAccount].(balance := Credit(accounts[req.toAccount].balance, req.amount)) &&
      after[id] == accounts[id] &&
      forall k | k in accounts && k != req.toAccount :: after[k] == accounts[k]
    ensures var req := body.value;
      InRange(accounts[req.toAccount].balance as int + req.amount as int) ==>
        Total(TransferSpec(accounts, vars, body, None, Some(e)).1) == Total(accounts) + req.amount as int
  {
    var req := body.value;
    var to := accounts[req.toAccount];
    SetBalanceTotal(accounts, to.(balance := Credit(to.balance, req.amount)));
  }

  /** What the client of `/accounts/transfer/{id}` sees: a reply, or a dropped connection after a panic. */
  datatype Response = Sent(reply: Reply) | Panicked

  /** router.go: the transfer handler behind `handler` and the guard, on the same `{id}`. */
  function GuardedTransfer(header: string, vars: map<string, string>, body: Result<TransferAmountRequest, Error>,
                           accounts: map<int64, Account>, jwt: Jwt, secret: string,
                           destWrite: Option<Error>, srcWrite: Option<Error>): (r: (Response, map<int64, Account>))
    ensures r.0 == Sent(PermissionDenied()) || r.0 == Panicked ==> r.1 == accounts
  {
    match WithJwtAuth(header, vars, accounts, jwt, secret)
    case Denied => (Sent(PermissionDenied()), accounts)
    case Abort => (Panicked, accounts)
    case Admitted =>
      var (o, after) := TransferSpec(accounts, vars, body, destWrite, srcWrite);
      (Sent(Handler(o)), after)
  }

  /** Every denial is the same 403 reply and leaves the table alone. */
  lemma DenialsAreUniform(header: string, vars: map<string, string>, body: Result<TransferAmountRequest, Error>,
                          accounts: map<int64, Account>, jwt: Jwt, secret: string,
                          destWrite: Option<Error>, srcWrite: Option<Error>)
    requires WithJwtAuth(header, vars, accounts, jwt, secret) != Admitted
    ensures GuardedTransfer(header, vars, body, accounts, jwt, secret, destWrite, srcWrite).1 == accounts
    ensures GuardedTransfer(header, vars, body, accounts, jwt, secret, destWrite, srcWrite).0 ==
            if WithJwtAuth(header, vars, accounts, jwt, secret) == Denied then Sent(PermissionDenied()) else Panicked
  {
  }

  /** The table changes only for a request whose verified token claims the number of the path's account. */
  lemma OnlyOwnerChangesTable(header: string, vars: map<string, string>, body: Result<TransferAmountRequest, Error>,
                              accounts: map<int64, Account>, jwt: Jwt, secret: string,
                              destWrite: Option<Error>, srcWrite: Option<Error>)
    requires Keyed(accounts)
    requires GuardedTransfer(header, vars, body, accounts, jwt, secret, destWrite, srcWrite).1 != accounts
    ensures ValidateJwt(header, jwt, secret).Ok? && GetId(vars).Ok? && GetId(vars).value in accounts
    ensures ClaimedNumber(ValidateJwt(header, jwt, secret).value.claims) == Some(accounts[GetId(vars).value].number as int)
  {
    AdmittedExactly(header, vars, accounts, jwt, secret);
  }

  /**
   * With a non-negative amount and no wrap-around in the credit, the only
   * balance that can go down is that of the account the token's owner holds.
   */
  lemma OnlyOwnerDebited(header: string, vars: map<string, string>, body: Result<TransferAmountRequest, Error>,
                         accounts: map<int64, Account>, jwt: Jwt, secret: string,
                         destWrite: Option<Error>, srcWrite: Option<Error>)
    requires Keyed(accounts)
    requires body.Ok? && body.value.amount >= 0
    requires body.value.toAccount in accounts ==> InRange(accounts[body.value.toAccount].balance as int + body.value.amount as int)
    ensures GuardedTransfer(header, vars, body, accounts, jwt, secret, destWrite, srcWrite).1.Keys == accounts.Keys
    ensures var after := GuardedTransfer(header, vars, body, accounts, jwt, secret, destWrite, srcWrite).1;
      forall k | k in accounts && after[k].balance < accounts[k].balance ::
        ValidateJwt(header, jwt, secret).Ok? &&
        ClaimedNumber(ValidateJwt(header, jwt, secret).value.claims) == Some(accounts[k].number as int)
  {
    TransferFrame(accounts, vars, body, destWrite, srcWrite);
    var after := GuardedTransfer(header, vars, body, accounts, jwt, secret, destWrite, srcWrite).1;
    if after != accounts {
      OnlyOwnerChangesTable(header, vars, body, accounts, jwt, secret, destWrite, srcWrite);
      var req := body.value;
      assert after[req.toAccount].balance >= accounts[req.toAccount].balance;
    }
  }

  /**
   * The guard protects the source only: the owner of account 1 takes 500 from
   * account 2, whose number the token does not carry, by sending -500.
   */
  lemma NegativeAmountDrainsAnotherOwner()
    ensures var owner := Account(1, "", "", 0, 7, "", 0);
      var victim := Account(2, "", "", 500, 8, "", 0);
      var jwt := Jwt((m, c, k) => Ok("t"), s => Some(Unverified(Hmac(256), IssuedClaims(owner))), (s, k) => true, c => true);
      var (resp, after) := GuardedTransfer("t", map["id" := "1"], Ok(TransferAmountRequest(2, -500)),
                                           map[1 := owner, 2 := victim], jwt, "secret", None, None);
      resp == Sent(TransferComplete) && after[2].balance == 0 && after[1].balance == 500 &&
      victim.number != owner.number
  {
    assert Strconv.DigitsValue("1") == 1;
  }

  class ApiServer {
    const store: Store
    const jwt: Jwt
    /** The value of `JWT_SECRET`. */
    const secret: string
    const bcrypt: Bcrypt

    constructor (store: Store, jwt: Jwt, secret: string, bcrypt: Bcrypt)
      ensures this.store == store && this.jwt == jwt && this.secret == secret && this.bcrypt == bcrypt
    {
      this.store := store;
      this.jwt := jwt;
      this.secret := secret;
      this.bcrypt := bcrypt;
    }

    /** What `getAccountById` answers for the path `vars` over the table `accounts`. */
    ghost predicate ReadById(vars: map<string, string>, accounts: map<int64, Account>, o: Outcome) {
      match GetId(vars)
      case Err(e) => o == Failed(e)
      case Ok(id) =>
        if id in accounts then o == Wrote(Reply(StatusOK, JsonAccount(ToJson(accounts[id]))))
        else o == Failed(AccountNotFound(id))
    }

    /**
     * What `deleteAccout` does for the path `vars`: the table goes from `before`
     * to `after` and the answer is `o`. The row goes and "deleted successfully"
     * comes back, or the store refuses and nothing changes.
     */
    ghost predicate RemovedById(vars: map<string, string>, before: map<int64, Account>, after: map<int64, Account>, o: Outcome) {
      match GetId(vars)
      case Err(e) => o == Failed(e) && after == before
      case Ok(id) =>
        (o == Wrote(Deleted) && after == before - {id}) ||
        (o.Failed? && o.err.StoreFailure? && after == before)
    }

    /**
     * What `createAccounts` does: the table and next row id go from
     * (`before`, `next0`) to (`after`, `next1`) and the answer is `o`; `draw`
     * and `now` are the random number and clock reading the account was given.
     */
    ghost predicate Created(body: Result<CreateAccountRequest, Error>, before: map<int64, Account>, next0: int,
                            after: map<int64, Account>, next1: int, o: Outcome, draw: int, now: int) {
      if body.Err? then o == Failed(body.error) && after == before && next1 == next0
      else if HashPassword(bcrypt, body.value.password).1.Some? then
        o == Failed(HashFailed) && after == before && next1 == next0
      else if after == before then o.Failed? && o.err.StoreFailure? && next1 == next0
      else
        0 <= draw < NumberRange && 1 <= next0 <= SerialMax && next1 == next0 + 1 &&
        var account := NewAccount(body.value.firstName, body.value.lastName,
                                  HashPassword(bcrypt, body.value.password).0, draw, now);
        after == before[next0 as int64 := account.(id := next0 as int64)] &&
        o == match CreateJwt(account, jwt, secret)
             case Ok(t) => Wrote(Reply(StatusCreated, JsonString(t)))
             case Err(e) => Failed(e)
    }

    /**
     * `transfer`: checks in order, then writes the destination and then the
     * source. `destWrite` and `srcWrite` record the store's answers (None when
     * that write was not attempted or succeeded).
     */
    method Transfer(vars: map<string, string>, body: Result<TransferAmountRequest, Error>)
      returns (o: Outcome, ghost destWrite: Option<Error>, ghost srcWrite: Option<Error>)
      requires store.Valid()
      modifies store
      ensures store.Valid() && store.nextId == old(store.nextId)
      ensures (o, store.accounts) == TransferSpec(old(store.accounts), vars, body, destWrite, srcWrite)
    {
      destWrite, srcWrite := None, None;
      if body.Err? {
        return Failed(body.error), destWrite, srcWrite;
      }
      var req := body.value;
      var parsed := GetId(vars);
      if parsed.Err? {
        return Failed(parsed.error), destWrite, srcWrite;
      }
      var id := parsed.value;
      var from := store.GetAccountById(id);
      if from.Err? {
        return Failed(from.error), destWrite, srcWrite;
      }
      var fromAccount := from.value;
      if fromAccount.balance < req.amount {
        return Wrote(InsufficientBalance), destWrite, srcWrite;
      }
      var to := store.GetAccountById(req.toAccount);
      if to.Err? {
        return Failed(to.error), destWrite, srcWrite;
      }
      var toAccount := to.value;
      if toAccount.id == fromAccount.id {
        return Wrote(SelfTransfer), destWrite, srcWrite;
      }
      toAccount := toAccount.(balance := Credit(toAccount.balance, req.amount));
      fromAccount := fromAccount.(balance := Debit(fromAccount.balance, req.amount));
      var err := store.UpdateAccount(toAccount);
      if err.Some? {
        destWrite := err;
        return Failed(err.value), destWrite, srcWrite;
      }
      err := store.UpdateAccount(fromAccount);
      if err.Some? {
        srcWrite := err;
        return Failed(err.value), destWrite, srcWrite;
      }
      o := Wrote(TransferComplete);
    }

    /** `/accounts/transfer/{id}`: the guard, then `handler(transfer)`. */
    method ServeTransfer(header: string, vars: map<string, string>, body: Result<TransferAmountRequest, Error>)
      returns (resp: Response, ghost destWrite: Option<Error>, ghost srcWrite: Option<Error>)
      requires store.Valid()
      modifies store
      ensures store.Valid() && store.nextId == old(store.nextId)
      ensures (resp, store.accounts) ==
              GuardedTransfer(header, vars, body, old(store.accounts), jwt, secret, destWrite, srcWrite)
    {
      destWrite, srcWrite := None, None;
      match WithJwtAuth(header, vars, store.accounts, jwt, secret)
      case Denied =>
        resp := Sent(PermissionDenied());
      case Abort =>
        resp := Panicked;
      case Admitted =>
        var o;
        o, destWrite, srcWrite := Transfer(vars, body);
        resp := Sent(Handler(o));
    }

    /** `getAccounts`: every row, without passwords. */
    method GetAccounts() returns (o: Outcome)
      ensures o == Wrote(Reply(StatusOK, JsonAccounts(set id | id in store.accounts :: ToJson(store.accounts[id]))))
      ensures forall j :: j in o.reply.body.accounts <==> exists id :: id in store.accounts && ToJson(store.accounts[id]) == j
    {
      var rows := store.GetAccounts();
      var listed := set a | a in rows :: ToJson(a);
      assert listed == set id | id in store.accounts :: ToJson(store.accounts[id]);
      o := Wrote(Reply(StatusOK, JsonAccounts(listed)));
    }

    /** `getAccountById`: the row named by the path id, without its password. */
    method GetAccountById(vars: map<string, string>) returns (o: Outcome)
      ensures GetId(vars).Err? ==> o == Failed(GetId(vars).error)
      ensures GetId(vars).Ok? && GetId(vars).value !in store.accounts ==> o == Failed(AccountNotFound(GetId(vars).value))
      ensures GetId(vars).Ok? && GetId(vars).value in store.accounts ==>
              o == Wrote(Reply(StatusOK, JsonAccount(ToJson(store.accounts[GetId(vars).value]))))
      ensures ReadById(vars, store.accounts, o)
    {
      var parsed := GetId(vars);
      if parsed.Err? {
        return Failed(parsed.error);
      }
      var account := store.GetAccountById(parsed.value);
      if account.Err? {
        return Failed(account.error);
      }
      o := Wrote(Reply(StatusOK, JsonAccount(ToJson(account.value))));
    }

    /** `deleteAccout`: removes the row named by the path id. */
    method DeleteAccount(vars: map<string, string>) returns (o: Outcome)
      requires store.Valid()
      modifies store
      ensures store.Valid() && store.nextId == old(store.nextId)
      ensures GetId(vars).Err? ==> o == Failed(GetId(vars).error) && store.accounts == old(store.accounts)
      ensures GetId(vars).Ok? && o.Wrote? ==> o.reply == Deleted && store.accounts == old(store.accounts) - {GetId(vars).value}
      ensures GetId(vars).Ok? && o.Failed? ==> o.err.StoreFailure? && store.accounts == old(store.accounts)
      ensures RemovedById(vars, old(store.accounts), store.accounts, o)
    {
      var parsed := GetId(vars);
      if parsed.Err? {
        return Failed(parsed.error);
      }
      var err := store.DeleteAccount(parsed.value);
      if err.Some? {
        return Failed(err.value);
      }
      o := Wrote(Deleted);
    }

    /**
     * `createAccounts`: decode, hash, build the account, insert it, answer
     * with a token for it. `draw` and `now` record the random number and the
     * clock reading the new account was given.
     */
    method CreateAccounts(body: Result<CreateAccountRequest, Error>) returns (o: Outcome, ghost draw: int, ghost now: int)
      requires store.Valid()
      modifies store
      ensures store.Valid()
      ensures body.Err? ==> o == Failed(body.error) && unchanged(store)
      ensures body.Ok? && HashPassword(bcrypt, body.value.password).1.Some? ==> o == Failed(HashFailed) && unchanged(store)
      ensures store.accounts == old(store.accounts) ==> o.Failed? && store.nextId == old(store.nextId)
      ensures body.Ok? && HashPassword(bcrypt, body.value.password).1.None? && store.accounts == old(store.accounts) ==>
        o.err.StoreFailure?
      ensures store.accounts != old(store.accounts) ==>
        body.Ok? && 0 <= draw < NumberRange && old(store.nextId) <= SerialMax && store.nextId == old(store.nextId) + 1 &&
        var account := NewAccount(body.value.firstName, body.value.lastName, HashPassword(bcrypt, body.value.password).0, draw, now);
        store.accounts == old(store.accounts)[old(store.nextId) as int64 := account.(id := old(store.nextId) as int64)] &&
        o == match CreateJwt(account, jwt, secret)
             case Ok(t) => Wrote(Reply(StatusCreated, JsonString(t)))
             case Err(e) => Failed(e)
      ensures o.Wrote? ==> store.accounts != old(store.accounts)
      ensures Created(body, old(store.accounts), old(store.nextId), store.accounts, store.nextId, o, draw, now)
    {
      draw, now := 0, 0;
      if body.Err? {
        return Failed(body.error), draw, now;
      }
      var req := body.value;
      var (hash, err) := HashPassword(bcrypt, req.password);
      if err.Some? {
        return Failed(err.value), draw, now;
      }
      var d: int :| 0 <= d < NumberRange;
      var t: int := *;
      draw, now := d, t;
      var account := NewAccount(req.firstName, req.lastName, hash, d, t);
      var insertErr := store.CreateAccount(account);
      if insertErr.Some? {
        return Failed(insertErr.value), draw, now;
      }
      match CreateJwt(account, jwt, secret)
      case Ok(token) =>
        o := Wrote(Reply(StatusCreated, JsonString(token)));
      case Err(e) =>
        o := Failed(e);
    }

    /** `handleAccounts`: GET lists, POST creates, any other method is refused with 405. */
    method HandleAccounts(httpMethod: string, body: Result<CreateAccountRequest, Error>)
      returns (o: Outcome, ghost draw: int, ghost now: int)
      requires store.Valid()
      modifies store
      ensures store.Valid()
      ensures httpMethod != "POST" ==> unchanged(store)
      ensures httpMethod != "GET" && httpMethod != "POST" ==> o == Wrote(MethodNotAllowedReply)
      ensures httpMethod == "GET" ==>
        o == Wrote(Reply(StatusOK, JsonAccounts(set id | id in store.accounts :: ToJson(store.accounts[id]))))
      ensures httpMethod == "POST" ==>
        Created(body, old(store.accounts), old(store.nextId), store.accounts, store.nextId, o, draw, now)
    {
      draw, now := 0, 0;
      if httpMethod == "GET" {
        o := GetAccounts();
        return;
      }
      if httpMethod == "POST" {
        o, draw, now := CreateAccounts(body);
        return;
      }
      o := Wrote(MethodNotAllowedReply);
    }

    /** `handleAccountById`: GET reads, DELETE deletes, any other method is refused with 405. */
    method HandleAccountById(httpMethod: string, vars: map<string, string>) returns (o: Outcome)
      requires store.Valid()
      modifies store
      ensures store.Valid()
      ensures httpMethod != "DELETE" ==> unchanged(store)
      ensures httpMethod != "GET" && httpMethod != "DELETE" ==> o == Wrote(MethodNotAllowedReply)
      ensures httpMethod == "GET" ==> ReadById(vars, store.accounts, o)
      ensures httpMethod == "DELETE" ==> RemovedById(vars, old(store.accounts), store.accounts, o)
    {
      if httpMethod == "GET" {
        o := GetAccountById(vars);
        return;
      }
      if httpMethod == "DELETE" {
        o := DeleteAccount(vars);
        return;
      }
      o := Wrote(MethodNotAllowedReply);
    }
  }
}
