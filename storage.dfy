/**
 * The account table behind the `Storage` capability, held in memory: rows are
 * keyed by their `serial` id. Reads always reach the table; every write may be
 * refused by the database, which the methods below model by choosing
 * nondeterministically between the error and the effect.
 */
module Storage {
  import opened Wrappers
  import opened Ints
  import opened Types

  /** Largest value a Postgres `serial` column can take. */
  const SerialMax: int := 0x7fff_ffff

  /** Every row sits under its own id. */
  ghost predicate Keyed(accounts: map<int64, Account>) {
    forall id | id in accounts :: accounts[id].id == id
  }

  /** `GetAccountById`: the row, or "account <id> not found". */
  function Lookup(accounts: map<int64, Account>, id: int64): (r: Result<Account, Error>)
    ensures r.Ok? <==> id in accounts
    ensures r.Ok? ==> r.value == accounts[id]
    ensures r.Err? ==> r.error == AccountNotFound(id)
  {
    if id in accounts then Ok(accounts[id]) else Err(AccountNotFound(id))
  }

  /**
   * The effect of `UpdateAccount(a)`: `update account set balance = $1 where id = $2`.
   * Only the balance of the row with `a`'s id changes; with no such row nothing does.
   */
  function SetBalance(accounts: map<int64, Account>, a: Account): (r: map<int64, Account>)
    ensures r.Keys == accounts.Keys
    ensures forall id | id in accounts && id != a.id :: r[id] == accounts[id]
    ensures a.id in accounts ==> r[a.id] == accounts[a.id].(balance := a.balance)
  {
    if a.id in accounts then accounts[a.id := accounts[a.id].(balance := a.balance)] else accounts
  }

  lemma SetBalanceKeepsKeyed(accounts: map<int64, Account>, a: Account)
    requires Keyed(accounts)
    ensures Keyed(SetBalance(accounts, a))
  {
  }

  /**
   * The store's answer to a query by account number (the login handler calls
   * `GetAccountByNumber`, which the `Storage` interface does not declare): a row
   * it returns is in the table and carries that number.
   */
  ghost predicate AnswersByNumber(byNumber: int64 -> Result<Account, Error>, accounts: map<int64, Account>) {
    forall n :: byNumber(n).Ok? ==> byNumber(n).value in accounts.Values && byNumber(n).value.number == n
  }

  /** The sum of all balances in the table, as mathematical integers. */
  ghost function Total(accounts: map<int64, Account>): int {
    SumOver(accounts, accounts.Keys)
  }

  ghost function SumOver(accounts: map<int64, Account>, ids: set<int64>): int
    requires ids <= accounts.Keys
    decreases ids
  {
    if ids == {} then 0
    else
      var id :| id in ids;
      accounts[id].balance as int + SumOver(accounts, ids - {id})
  }

  lemma {:induction false} SumOverRemove(accounts: map<int64, Account>, ids: set<int64>, k: int64)
    requires ids <= accounts.Keys && k in ids
    ensures SumOver(accounts, ids) == accounts[k].balance as int + SumOver(accounts, ids - {k})
    decreases ids
  {
    var id :| id in ids && SumOver(accounts, ids) == accounts[id].balance as int + SumOver(accounts, ids - {id});
    if id != k {
      SumOverRemove(accounts, ids - {id}, k);
      SumOverRemove(accounts, ids - {k}, id);
      assert ids - {id} - {k} == ids - {k} - {id};
    }
  }

  lemma {:induction false} SumOverAgree(m1: map<int64, Account>, m2: map<int64, Account>, ids: set<int64>)
    requires ids <= m1.Keys && ids <= m2.Keys
    requires forall id | id in ids :: m1[id].balance == m2[id].balance
    ensures SumOver(m1, ids) == SumOver(m2, ids)
    decreases ids
  {
    if ids != {} {
      var id :| id in ids && SumOver(m1, ids) == m1[id].balance as int + SumOver(m1, ids - {id});
      SumOverRemove(m2, ids, id);
      SumOverAgree(m1, m2, ids - {id});
    }
  }

  /** An update moves the table's total by exactly the change in that one row's balance. */
  lemma SetBalanceTotal(accounts: map<int64, Account>, a: Account)
    requires a.id in accounts
    ensures Total(SetBalance(accounts, a)) == Total(accounts) - accounts[a.id].balance as int + a.balance as int
  {
    var after := SetBalance(accounts, a);
    var rest := accounts.Keys - {a.id};
    SumOverRemove(accounts, accounts.Keys, a.id);
    SumOverRemove(after, after.Keys, a.id);
    SumOverAgree(accounts, after, rest);
  }

  class Store {
    var accounts: map<int64, Account>
    /** The next value the `serial` id sequence hands out. */
    var nextId: int

    ghost predicate Valid()
      reads this
    {
      Keyed(accounts) && 1 <= nextId <= SerialMax + 1 &&
      forall id | id in accounts :: 1 <= id as int < nextId
    }

    constructor ()
      ensures Valid() && accounts == map[] && nextId == 1
    {
      accounts := map[];
      nextId := 1;
    }

    method GetAccountById(id: int64) returns (r: Result<Account, Error>)
      ensures r.Ok? <==> id in accounts
      ensures r.Ok? ==> r.value == accounts[id]
      ensures r.Err? ==> r.error == AccountNotFound(id)
    {
      r := Lookup(accounts, id);
    }

    method GetAccounts() returns (r: set<Account>)
      ensures forall a :: a in r <==> exists id :: id in accounts && accounts[id] == a
    {
      r := accounts.Values;
    }

    method UpdateAccount(a: Account) returns (err: Option<Error>)
      requires Valid()
      modifies this
      ensures Valid() && nextId == old(nextId)
      ensures err.None? ==> accounts == SetBalance(old(accounts), a)
      ensures err.Some? ==> err.value.StoreFailure? && accounts == old(accounts)
    {
      var refused: bool := *;
      if refused {
        var detail: string := *;
        err := Some(StoreFailure(detail));
      } else {
        accounts := SetBalance(accounts, a);
        err := None;
      }
    }

    /** `delete from account where id = $1`: deleting a missing row is not an error. */
    method DeleteAccount(id: int64) returns (err: Option<Error>)
      requires Valid()
      modifies this
      ensures Valid() && nextId == old(nextId)
      ensures err.None? ==> accounts == old(accounts) - {id}
      ensures err.Some? ==> err.value.StoreFailure? && accounts == old(accounts)
    {
      var refused: bool := *;
      if refused {
        var detail: string := *;
        err := Some(StoreFailure(detail));
      } else {
        accounts := accounts - {id};
        err := None;
      }
    }

    /**
     * `insert into account ...`: the row gets the next serial id and the
     * caller's record keeps its own id. An exhausted sequence is refused.
     */
    method CreateAccount(a: Account) returns (err: Option<Error>)
      requires Valid()
      modifies this
      ensures Valid()
      ensures err.None? ==> old(nextId) <= SerialMax && nextId == old(nextId) + 1 &&
                            old(nextId) as int64 !in old(accounts) &&
                            accounts == old(accounts)[old(nextId) as int64 := a.(id := old(nextId) as int64)]
      ensures err.Some? ==> err.value.StoreFailure? && accounts == old(accounts) && nextId == old(nextId)
    {
      var refused: bool := *;
      if refused || nextId > SerialMax {
        var detail: string := *;
        err := Some(StoreFailure(detail));
      } else {
        var id := nextId as int64;
        accounts := accounts[id := a.(id := id)];
        nextId := nextId + 1;
        err := None;
      }
    }
  }
}
