/** A plain PSP-22 ledger: balances, allowances and the operations the contracts call. */
module Psp22 {
  import opened Arithmetic

  datatype Ledger = Ledger(balances: map<AccountId, nat>, allowances: map<(AccountId, AccountId), nat>)

  function BalanceOf(l: Ledger, account: AccountId): nat {
    Held(l.balances, account)
  }

  function Held(balances: map<AccountId, nat>, account: AccountId): nat {
    if account in balances then balances[account] else 0
  }

  function Allowance(l: Ledger, owner: AccountId, spender: AccountId): nat {
    if (owner, spender) in l.allowances then l.allowances[(owner, spender)] else 0
  }

  function Approve(l: Ledger, owner: AccountId, spender: AccountId, amount: nat): Ledger {
    l.(allowances := l.allowances[(owner, spender) := amount])
  }

  /** Debits one account and then credits the other; `None` is the insufficient-balance error. */
  function Transfer(l: Ledger, source: AccountId, target: AccountId, amount: nat): Option<Ledger> {
    if BalanceOf(l, source) < amount then None else
    var debited := l.balances[source := Held(l.balances, source) - amount];
    Some(l.(balances := debited[target := Held(debited, target) + amount]))
  }

  function TransferFrom(l: Ledger, spender: AccountId, source: AccountId, target: AccountId, amount: nat): Option<Ledger> {
    if Allowance(l, source, spender) < amount then None else
    Transfer(Approve(l, source, spender, Allowance(l, source, spender) - amount), source, target, amount)
  }

  function Mint(l: Ledger, account: AccountId, amount: nat): Ledger {
    l.(balances := l.balances[account := BalanceOf(l, account) + amount])
  }

  function Burn(l: Ledger, account: AccountId, amount: nat): Option<Ledger> {
    if BalanceOf(l, account) < amount then None else
    Some(l.(balances := l.balances[account := BalanceOf(l, account) - amount]))
  }

  /** Everything anyone holds. */
  ghost function Total(balances: map<AccountId, nat>): nat {
    if balances == map[] then 0 else
    var account :| account in balances;
    balances[account] + Total(balances - {account})
  }

  ghost function Supply(l: Ledger): nat {
    Total(l.balances)
  }

  /** The total does not depend on the order in which it is added up. */
  lemma {:induction false} TotalTakeOut(balances: map<AccountId, nat>, account: AccountId)
    requires account in balances
    ensures Total(balances) == balances[account] + Total(balances - {account})
    decreases |balances|
  {
    var first :| first in balances && Total(balances) == balances[first] + Total(balances - {first});
    if first == account {
    } else {
      TotalTakeOut(balances - {first}, account);
      TotalTakeOut(balances - {account}, first);
      assert balances - {first} - {account} == balances - {account} - {first};
    }
  }

  lemma TotalUpdate(balances: map<AccountId, nat>, account: AccountId, amount: nat)
    ensures Total(balances[account := amount]) == Total(balances) - Held(balances, account) + amount
  {
    var updated := balances[account := amount];
    TotalTakeOut(updated, account);
    if account in balances {
      TotalTakeOut(balances, account);
      assert updated - {account} == balances - {account};
    } else {
      assert updated - {account} == balances;
    }
  }

  lemma TransferConserves(l: Ledger, source: AccountId, target: AccountId, amount: nat)
    requires Transfer(l, source, target, amount).Some?
    ensures Supply(Transfer(l, source, target, amount).value) == Supply(l)
  {
    var debited := l.balances[source := Held(l.balances, source) - amount];
    TotalUpdate(l.balances, source, Held(l.balances, source) - amount);
    TotalUpdate(debited, target, Held(debited, target) + amount);
  }

  lemma TransferFromConserves(l: Ledger, spender: AccountId, source: AccountId, target: AccountId, amount: nat)
    requires TransferFrom(l, spender, source, target, amount).Some?
    ensures Supply(TransferFrom(l, spender, source, target, amount).value) == Supply(l)
  {
    TransferConserves(Approve(l, source, spender, Allowance(l, source, spender) - amount), source, target, amount);
  }

  lemma MintAndBurnSupply(l: Ledger, account: AccountId, amount: nat)
    ensures Supply(Mint(l, account, amount)) == Supply(l) + amount
    ensures Burn(l, account, amount).Some? ==> Supply(Burn(l, account, amount).value) == Supply(l) - amount
  {
    TotalUpdate(l.balances, account, BalanceOf(l, account) + amount);
    if BalanceOf(l, account) >= amount {
      TotalUpdate(l.balances, account, BalanceOf(l, account) - amount);
    }
  }
}
