/** The token accounts the program moves funds between, reduced to what the
    handlers rely on: a balance per open account, a transfer that fails as a
    whole when it cannot be made, and opening and closing an account. */
module Ledger {
  import opened VestingTypes

  /** A transfer succeeds when both accounts are open and the source holds
      at least the amount. */
  predicate CanTransfer(bal: map<Pubkey, nat>, from: Pubkey, to: Pubkey, amount: nat) {
    from in bal && to in bal && bal[from] >= amount
  }

  /** The balances after moving `amount` from `from` to `to`. */
  function Moved(bal: map<Pubkey, nat>, from: Pubkey, to: Pubkey, amount: nat): (r: map<Pubkey, nat>)
    requires CanTransfer(bal, from, to, amount)
    ensures r.Keys == bal.Keys
    ensures from != to ==> r[from] == bal[from] - amount && r[to] == bal[to] + amount
    ensures from == to ==> r == bal
    ensures forall k :: k in bal && k != from && k != to ==> r[k] == bal[k]
  {
    var debited := bal[from := bal[from] - amount];
    debited[to := debited[to] + amount]
  }

  /** Opening an account and closing it again leaves the balances as they were. */
  lemma OpenThenClose(bal: map<Pubkey, nat>, account: Pubkey)
    requires account !in bal
    ensures bal[account := 0] - {account} == bal
  {
  }

  class TokenLedger {
    /** Open token accounts and their balances. */
    var balances: map<Pubkey, nat>

    constructor (initial: map<Pubkey, nat>)
      ensures balances == initial
    {
      balances := initial;
    }

    /** `token::transfer`: all or nothing. */
    method Transfer(from: Pubkey, to: Pubkey, amount: nat) returns (ok: bool)
      modifies this
      ensures ok == CanTransfer(old(balances), from, to, amount)
      ensures balances == if ok then Moved(old(balances), from, to, amount) else old(balances)
    {
      ok := CanTransfer(balances, from, to, amount);
      if ok {
        balances := Moved(balances, from, to, amount);
      }
    }

    /** A new, empty token account (the vault that `init` creates). */
    method InitializeAccount(account: Pubkey)
      requires account !in balances
      modifies this
      ensures balances == old(balances)[account := 0]
    {
      balances := balances[account := 0];
    }

    /** Creates the empty account `vault` and transfers `amount` into it from
        `from`, as one transaction: if the transfer fails, the account is not
        created either. */
    method OpenAndFund(vault: Pubkey, from: Pubkey, amount: nat) returns (ok: bool)
      requires vault !in balances
      modifies this
      ensures ok == CanTransfer(old(balances)[vault := 0], from, vault, amount)
      ensures balances == if ok then Moved(old(balances)[vault := 0], from, vault, amount) else old(balances)
      ensures ok ==> vault in balances && balances[vault] == amount
    {
      ghost var before := balances;
      InitializeAccount(vault);
      ok := Transfer(from, vault, amount);
      if !ok {
        CloseAccount(vault);
        OpenThenClose(before, vault);
      }
    }

    /** `token::close_account` on an empty account: it ceases to exist. */
    method CloseAccount(account: Pubkey)
      requires account in balances && balances[account] == 0
      modifies this
      ensures balances == old(balances) - {account}
    {
      balances := balances - {account};
    }
  }
}
