/** Credit accounts: the stored procedures the payment service relies on, and the credit service over them. */
module Ledger {
  import opened Prelude

  type User = string

  /** An amount, or a balance, in both currencies. */
  datatype Amounts = Amounts(cusdc: int, blind: int) {
    function Plus(other: Amounts): Amounts {
      Amounts(cusdc + other.cusdc, blind + other.blind)
    }

    function Minus(other: Amounts): Amounts {
      Amounts(cusdc - other.cusdc, blind - other.blind)
    }

    predicate NonNegative() {
      cusdc >= 0 && blind >= 0
    }

    predicate Covers(need: Amounts) {
      cusdc >= need.cusdc && blind >= need.blind
    }
  }

  const NOTHING := Amounts(0, 0)

  type Accounts = map<User, Amounts>

  function BalanceOf(accounts: Accounts, user: User): Amounts {
    if user in accounts then accounts[user] else NOTHING
  }

  // --- The contract of the stored procedures -----------------------------------------

  /** Adds, and opens the account if needed. */
  function DepositRpc(accounts: Accounts, user: User, amount: Amounts): Accounts {
    accounts[user := BalanceOf(accounts, user).Plus(amount)]
  }

  /** Adds to an existing account; no data for an unknown one. */
  function RefundRpc(accounts: Accounts, user: User, amount: Amounts): Option<Accounts> {
    if user in accounts then Some(accounts[user := accounts[user].Plus(amount)]) else None
  }

  /** Subtracts from an existing account that covers the amount; otherwise no data. */
  function DeductRpc(accounts: Accounts, user: User, amount: Amounts): Option<Accounts> {
    if user in accounts && accounts[user].Covers(amount) then Some(accounts[user := accounts[user].Minus(amount)]) else None
  }

  /** A currency that is not charged is not looked at. */
  predicate Affordable(balance: Amounts, need: Amounts) {
    && (need.cusdc > 0 ==> balance.cusdc >= need.cusdc)
    && (need.blind > 0 ==> balance.blind >= need.blind)
  }

  lemma DeductThenRefund(accounts: Accounts, user: User, amount: Amounts)
    requires DeductRpc(accounts, user, amount).Some?
    ensures RefundRpc(DeductRpc(accounts, user, amount).value, user, amount) == Some(accounts)
  {
    var charged := DeductRpc(accounts, user, amount).value;
    assert charged[user].Plus(amount) == accounts[user];
    assert charged[user := accounts[user]] == accounts;
  }

  // --- The service -------------------------------------------------------------------

  datatype CreditError = InsufficientCredits | NoAccount

  /** The user's balance has changed by these amounts, an unknown user's from zero, and nobody else's has. */
  ghost predicate Moved(before: Accounts, after: Accounts, user: User, cusdc: int, blind: int) {
    && after.Keys == before.Keys + {user}
    && (forall u :: u in before && u != user ==> after[u] == before[u])
    && after[user].cusdc == (if user in before then before[user].cusdc else 0) + cusdc
    && after[user].blind == (if user in before then before[user].blind else 0) + blind
  }

  class CreditService {
    var accounts: Accounts

    constructor ()
      ensures accounts == map[]
    {
      accounts := map[];
    }

    method GetBalance(user: User) returns (balance: Amounts)
      ensures balance == BalanceOf(accounts, user)
    {
      balance := if user in accounts then accounts[user] else NOTHING;
    }

    method CheckBalance(user: User, need: Amounts) returns (enough: bool)
      ensures enough == Affordable(BalanceOf(accounts, user), need)
      ensures user in accounts ==>
                (enough <==> && (need.cusdc <= 0 || accounts[user].cusdc >= need.cusdc)
                             && (need.blind <= 0 || accounts[user].blind >= need.blind))
      ensures user !in accounts ==> (enough <==> need.cusdc <= 0 && need.blind <= 0)
    {
      var balance := GetBalance(user);
      if need.cusdc > 0 && balance.cusdc < need.cusdc {
        return false;
      }
      if need.blind > 0 && balance.blind < need.blind {
        return false;
      }
      return true;
    }

    /** Deposits and credit purchases. */
    method AddCredits(user: User, amount: Amounts) returns (balance: Amounts)
      modifies this
      ensures accounts == DepositRpc(old(accounts), user, amount)
      ensures balance == BalanceOf(old(accounts), user).Plus(amount)
      ensures Moved(old(accounts), accounts, user, amount.cusdc, amount.blind) && balance == accounts[user]
    {
      accounts := accounts[user := BalanceOf(accounts, user).Plus(amount)];
      balance := GetBalance(user);
    }

    method Refund(user: User, amount: Amounts) returns (result: Result<Amounts, CreditError>)
      modifies this
      ensures user in old(accounts) ==> RefundRpc(old(accounts), user, amount) == Some(accounts)
      ensures user !in old(accounts) ==> accounts == old(accounts)
      ensures user in old(accounts) ==> Moved(old(accounts), accounts, user, amount.cusdc, amount.blind)
      ensures result == if user in old(accounts) then Ok(accounts[user]) else Err(NoAccount)
    {
      if user !in accounts {
        return Err(NoAccount);
      }
      accounts := accounts[user := accounts[user].Plus(amount)];
      return Ok(accounts[user]);
    }

    /** A charge either succeeds in full or leaves the account alone. */
    method Deduct(user: User, amount: Amounts) returns (result: Result<Amounts, CreditError>)
      requires amount.NonNegative() && forall u :: u in accounts ==> accounts[u].NonNegative()
      modifies this
      ensures forall u :: u in accounts ==> accounts[u].NonNegative()
      ensures result.Ok? <==> DeductRpc(old(accounts), user, amount).Some?
      ensures result.Ok? ==> accounts == DeductRpc(old(accounts), user, amount).value && result.value == accounts[user]
      ensures result.Err? ==> accounts == old(accounts)
      ensures result.Ok? ==> user in old(accounts) && Moved(old(accounts), accounts, user, -amount.cusdc, -amount.blind)
      ensures result.Ok? <==>
                user in old(accounts) && old(accounts)[user].cusdc >= amount.cusdc && old(accounts)[user].blind >= amount.blind
      ensures result == Err(NoAccount) <==> user !in old(accounts) && amount == NOTHING
    {
      var balance := GetBalance(user);
      if (amount.cusdc > 0 && balance.cusdc < amount.cusdc) || (amount.blind > 0 && balance.blind < amount.blind) {
        return Err(InsufficientCredits);
      }
      if user !in accounts {
        return Err(NoAccount);
      }
      accounts := accounts[user := accounts[user].Minus(amount)];
      return Ok(accounts[user]);
    }
  }
}
