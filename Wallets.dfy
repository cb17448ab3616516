/**
 * The players' main balances, as far as the services use them: one integer
 * amount of cents per user.  The wallet package itself is not part of this
 * model; deposit adds and withdraw subtracts, refusing to go below zero.
 */
module Wallets {
  import opened Options

  type UserId = nat

  type Balances = map<UserId, int>

  /** A user's balance; a user without a wallet row holds 0. */
  function Balance(b: Balances, u: UserId): int {
    if u in b then b[u] else 0
  }

  /** `deposit`: credits `amount` to `u` and touches no other user. */
  function Deposit(b: Balances, u: UserId, amount: int): (r: Balances)
    ensures Balance(r, u) == Balance(b, u) + amount
    ensures forall v :: v != u ==> Balance(r, v) == Balance(b, v)
  {
    b[u := Balance(b, u) + amount]
  }

  /** `withdraw`: debits `amount` from `u`, or fails when the balance is short. */
  function Withdraw(b: Balances, u: UserId, amount: int): (r: Option<Balances>)
    ensures r.Some? <==> Balance(b, u) >= amount
    ensures r.Some? ==> Balance(r.value, u) == Balance(b, u) - amount
                        && forall v :: v != u ==> Balance(r.value, v) == Balance(b, v)
  {
    if Balance(b, u) >= amount then Some(b[u := Balance(b, u) - amount]) else None
  }

  /** A withdraw followed by a deposit of the same amount restores every balance. */
  lemma WithdrawThenDeposit(b: Balances, u: UserId, amount: int)
    requires Balance(b, u) >= amount
    ensures forall v :: Balance(Deposit(Withdraw(b, u, amount).value, u, amount), v) == Balance(b, v)
  {
  }
}
