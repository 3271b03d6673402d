/**
 * The derived balance of a customer: a fold of signed amounts over the
 * customer's transactions, recomputed from scratch on every read.
 */
module Ledger {
  import opened Types

  /** The contribution of one transaction: `+amount` for a debt, `-amount` otherwise. */
  function Signed(t: Transaction): int
  {
    if t.kind.Debt? then t.amount else -t.amount
  }

  /**
   * `txs.reduce((acc, t) => acc + signed(t), 0)`: a left fold, so the last
   * transaction is added last.
   */
  function Balance(txs: seq<Transaction>): int
  {
    if |txs| == 0 then 0 else Balance(txs[..|txs| - 1]) + Signed(txs[|txs| - 1])
  }

  /** The debt part of one transaction: its amount if it is a debt, else 0. */
  function DebtPart(t: Transaction): int
  {
    if t.kind.Debt? then t.amount else 0
  }

  /** The payment part of one transaction: its amount unless it is a debt. */
  function PaymentPart(t: Transaction): int
  {
    if t.kind.Debt? then 0 else t.amount
  }

  /** Sum of `f` over a list, independent reference definition (head first). */
  function SumOf(txs: seq<Transaction>, f: Transaction -> int): int
  {
    if |txs| == 0 then 0 else f(txs[0]) + SumOf(txs[1..], f)
  }

  /** Sum of the debt amounts in a list. */
  function DebtSum(txs: seq<Transaction>): int
  {
    SumOf(txs, DebtPart)
  }

  /** Sum of the payment amounts in a list. */
  function PaymentSum(txs: seq<Transaction>): int
  {
    SumOf(txs, PaymentPart)
  }

  lemma {:induction false} SumOfAppend(a: seq<Transaction>, b: seq<Transaction>, f: Transaction -> int)
    ensures SumOf(a + b, f) == SumOf(a, f) + SumOf(b, f)
    decreases |a|
  {
    if |a| > 0 {
      assert (a + b)[1..] == a[1..] + b;
      SumOfAppend(a[1..], b, f);
    } else {
      assert a + b == b;
    }
  }

  /** Removing the element at position `k` lowers the sum by exactly that element. */
  lemma SumOfRemove(s: seq<Transaction>, k: nat, f: Transaction -> int)
    requires k < |s|
    ensures SumOf(s, f) == f(s[k]) + SumOf(s[..k] + s[k + 1..], f)
  {
    assert s == s[..k] + ([s[k]] + s[k + 1..]);
    SumOfAppend(s[..k], [s[k]] + s[k + 1..], f);
    SumOfAppend(s[..k], s[k + 1..], f);
    assert ([s[k]] + s[k + 1..])[1..] == s[k + 1..];
  }

  /** Taking the element at `k` out of `s` leaves the multiset minus that element. */
  lemma MultisetRemove(s: seq<Transaction>, k: nat)
    requires k < |s|
    ensures multiset(s[..k] + s[k + 1..]) == multiset(s) - multiset{s[k]}
  {
    assert s == s[..k] + [s[k]] + s[k + 1..];
    assert multiset(s) == multiset(s[..k]) + multiset{s[k]} + multiset(s[k + 1..]);
  }

  /** A sum over a list depends only on which transactions it holds, not their order. */
  lemma {:induction false} SumOfPermutation(a: seq<Transaction>, b: seq<Transaction>, f: Transaction -> int)
    requires multiset(a) == multiset(b)
    ensures SumOf(a, f) == SumOf(b, f)
    decreases |a|
  {
    if |a| == 0 {
      assert |b| == |multiset(b)| == 0;
    } else {
      var x := a[0];
      assert x in multiset(b);
      var k :| 0 <= k < |b| && b[k] == x;
      var rest := b[..k] + b[k + 1..];
      MultisetRemove(b, k);
      MultisetRemove(a, 0);
      assert a[..0] + a[1..] == a[1..];
      SumOfPermutation(a[1..], rest, f);
      SumOfRemove(b, k, f);
    }
  }

  /**
   * The balance is total debt minus total payments: the fold of signed
   * amounts agrees with the two separate sums.
   */
  lemma {:induction false} BalanceIsDebtMinusPayments(txs: seq<Transaction>)
    ensures Balance(txs) == DebtSum(txs) - PaymentSum(txs)
    decreases |txs|
  {
    if |txs| > 0 {
      var init := txs[..|txs| - 1];
      var last := txs[|txs| - 1];
      BalanceIsDebtMinusPayments(init);
      assert txs == init + [last];
      SumOfAppend(init, [last], DebtPart);
      SumOfAppend(init, [last], PaymentPart);
    }
  }

  /** Under exact arithmetic the balance does not depend on the order of the transactions. */
  lemma BalancePermutationInvariant(a: seq<Transaction>, b: seq<Transaction>)
    requires multiset(a) == multiset(b)
    ensures Balance(a) == Balance(b)
  {
    BalanceIsDebtMinusPayments(a);
    BalanceIsDebtMinusPayments(b);
    SumOfPermutation(a, b, DebtPart);
    SumOfPermutation(a, b, PaymentPart);
  }

  /** Appending a transaction moves the balance by exactly its signed amount. */
  lemma BalanceAppend(txs: seq<Transaction>, t: Transaction)
    ensures Balance(txs + [t]) == Balance(txs) + (if t.kind.Debt? then t.amount else -t.amount)
  {
    assert (txs + [t])[..|txs|] == txs;
  }

  /**
   * `{ ...customer, balance }`: the customer with its balance recomputed from
   * its transactions. The stored balance is overwritten and nothing else changes.
   */
  function WithBalance(c: Customer): (r: Customer)
    ensures r.balance == DebtSum(Txs(c)) - PaymentSum(Txs(c))
    ensures r == c.(balance := r.balance)
  {
    BalanceIsDebtMinusPayments(Txs(c));
    c.(balance := Balance(Txs(c)))
  }

  /** The stored balance of a record never influences its derived balance. */
  lemma StoredBalanceIgnored(c: Customer, stored: int)
    ensures WithBalance(c.(balance := stored)) == WithBalance(c)
  {
  }

  /** `customersWithBalance`: every customer with its derived balance, same length and order. */
  function CustomersWithBalance(customers: seq<Customer>): (r: seq<Customer>)
    ensures |r| == |customers|
    ensures forall i :: 0 <= i < |r| ==>
      r[i] == customers[i].(balance := DebtSum(Txs(customers[i])) - PaymentSum(Txs(customers[i])))
  {
    seq(|customers|, i requires 0 <= i < |customers| => WithBalance(customers[i]))
  }
}
