/** Lamport balances and the System program's transfer. */
module Ledger {
  import opened Prelude
  import opened Errors

  type Address = Bytes32

  /** An address that is absent holds nothing. */
  type Balances = map<Address, nat>

  function Balance(b: Balances, a: Address): nat {
    if a in b then b[a] else 0
  }

  function Move(b: Balances, from: Address, to: Address, lamports: nat): Result<Balances> {
    if Balance(b, from) < lamports then Err(InsufficientFunds) else
    var debited := b[from := Balance(b, from) - lamports];
    Ok(debited[to := Balance(debited, to) + lamports])
  }

  /** Balances as a transaction changes them in place. */
  class Bank {
    var balances: Balances

    constructor (balances: Balances)
      ensures this.balances == balances
    {
      this.balances := balances;
    }

    method Transfer(from: Address, to: Address, lamports: nat) returns (r: Result<()>)
      modifies this
      ensures match Move(old(balances), from, to, lamports)
              case Ok(moved) => r == Ok(()) && balances == moved
              case Err(e) => r == Err(e) && balances == old(balances)
    {
      var held := Balance(balances, from);
      if held < lamports {
        return Err(InsufficientFunds);
      }
      balances := balances[from := held - lamports];
      balances := balances[to := Balance(balances, to) + lamports];
      return Ok(());
    }
  }

  /** The sum of all values. */
  ghost function Total<K>(m: map<K, nat>): nat {
    if m == map[] then 0 else
    var k :| k in m;
    m[k] + Total(m - {k})
  }

  /** The sum does not depend on the order in which keys are picked. */
  lemma {:induction false} TotalWithout<K>(m: map<K, nat>, k: K)
    requires k in m
    ensures Total(m) == m[k] + Total(m - {k})
    decreases |m|
  {
    var first :| first in m && Total(m) == m[first] + Total(m - {first});
    if first != k {
      TotalWithout(m - {first}, k);
      TotalWithout(m - {k}, first);
      assert m - {first} - {k} == m - {k} - {first};
    }
  }

  lemma TotalUpdate<K>(m: map<K, nat>, k: K, v: nat)
    ensures Total(m[k := v]) == Total(m) - (if k in m then m[k] else 0) + v
  {
    var after := m[k := v];
    TotalWithout(after, k);
    if k in m {
      TotalWithout(m, k);
      assert after - {k} == m - {k};
    } else {
      assert after - {k} == m;
    }
  }

  /** A transfer conserves the total, even from an account to itself. */
  lemma MoveConserves(b: Balances, from: Address, to: Address, lamports: nat)
    requires Move(b, from, to, lamports).Ok?
    ensures Total(Move(b, from, to, lamports).value) == Total(b)
  {
    var debited := b[from := Balance(b, from) - lamports];
    TotalUpdate(b, from, Balance(b, from) - lamports);
    TotalUpdate(debited, to, Balance(debited, to) + lamports);
  }

  /** What one account gains or loses in a transfer. */
  function Delta(a: Address, from: Address, to: Address, lamports: int): int {
    (if a == to then lamports else 0) - (if a == from then lamports else 0)
  }

  lemma MoveBalance(b: Balances, from: Address, to: Address, lamports: nat, a: Address)
    requires Move(b, from, to, lamports).Ok?
    ensures Balance(Move(b, from, to, lamports).value, a) == Balance(b, a) + Delta(a, from, to, lamports)
  {
  }

  lemma BalanceWithinTotal(b: Balances, a: Address)
    ensures Balance(b, a) <= Total(b)
  {
    if a in b {
      TotalWithout(b, a);
    }
  }
}
