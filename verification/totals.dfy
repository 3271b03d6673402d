/**
 * The dashboard report: total debt recorded, total payments received and the
 * outstanding difference, summed over every customer's transactions.
 */
module Totals {
  import opened Types
  import opened Ledger

  /** Sum of debt amounts over all customers; an absent list contributes 0. */
  function TotalDebt(customers: seq<Customer>): int
  {
    if |customers| == 0 then 0
    else TotalDebt(customers[..|customers| - 1]) + DebtSum(Txs(customers[|customers| - 1]))
  }

  /** Sum of every non-debt amount over all customers; an absent list contributes 0. */
  function TotalPayments(customers: seq<Customer>): int
  {
    if |customers| == 0 then 0
    else TotalPayments(customers[..|customers| - 1]) + PaymentSum(Txs(customers[|customers| - 1]))
  }

  /** Sum of the stored `balance` fields of a list of customers. */
  function SumOfBalances(customers: seq<Customer>): int
  {
    if |customers| == 0 then 0
    else SumOfBalances(customers[..|customers| - 1]) + customers[|customers| - 1].balance
  }

  lemma SumOfSnoc(txs: seq<Transaction>, j: nat, f: Transaction -> int)
    requires j < |txs|
    ensures SumOf(txs[..j + 1], f) == SumOf(txs[..j], f) + f(txs[j])
  {
    assert txs[..j + 1] == txs[..j] + [txs[j]];
    SumOfAppend(txs[..j], [txs[j]], f);
  }

  /**
   * The nested `forEach` of both dashboards: walk the customers, and within
   * each customer its transactions, adding a debt's amount to `totalDebt` and
   * any other amount to `totalPayments`.
   */
  method ComputeTotals(customers: seq<Customer>) returns (totalDebt: int, totalPayments: int)
    ensures totalDebt == TotalDebt(customers)
    ensures totalPayments == TotalPayments(customers)
  {
    totalDebt := 0;
    totalPayments := 0;
    var i := 0;
    while i < |customers|
      invariant 0 <= i <= |customers|
      invariant totalDebt == TotalDebt(customers[..i])
      invariant totalPayments == TotalPayments(customers[..i])
    {
      var txs := Txs(customers[i]);
      var j := 0;
      while j < |txs|
        invariant 0 <= j <= |txs|
        invariant totalDebt == TotalDebt(customers[..i]) + DebtSum(txs[..j])
        invariant totalPayments == TotalPayments(customers[..i]) + PaymentSum(txs[..j])
      {
        SumOfSnoc(txs, j, DebtPart);
        SumOfSnoc(txs, j, PaymentPart);
        if txs[j].kind.Debt? {
          totalDebt := totalDebt + txs[j].amount;
        } else {
          totalPayments := totalPayments + txs[j].amount;
        }
        j := j + 1;
      }
      assert txs[..j] == txs;
      assert customers[..i + 1][..i] == customers[..i];
      i := i + 1;
    }
    assert customers[..i] == customers;
  }

  /**
   * The outstanding total (debt minus payments) equals the sum of every
   * customer's derived balance.
   */
  lemma {:induction false} OutstandingIsSumOfBalances(customers: seq<Customer>)
    ensures TotalDebt(customers) - TotalPayments(customers) == SumOfBalances(CustomersWithBalance(customers))
    decreases |customers|
  {
    if |customers| > 0 {
      var init := customers[..|customers| - 1];
      OutstandingIsSumOfBalances(init);
      var all := CustomersWithBalance(customers);
      assert all[..|all| - 1] == CustomersWithBalance(init);
    }
  }

  /** Every amount recorded for any customer is non-negative. */
  ghost predicate AmountsNonNegative(customers: seq<Customer>)
  {
    forall i, j :: 0 <= i < |customers| && 0 <= j < |Txs(customers[i])| ==> Txs(customers[i])[j].amount >= 0
  }

  lemma {:induction false} PartNonNegative(txs: seq<Transaction>, f: Transaction -> int)
    requires forall j :: 0 <= j < |txs| ==> f(txs[j]) >= 0
    ensures SumOf(txs, f) >= 0
    decreases |txs|
  {
    if |txs| > 0 {
      PartNonNegative(txs[1..], f);
    }
  }

  /** With no negative amounts recorded, neither total can be negative. */
  lemma {:induction false} TotalsNonNegative(customers: seq<Customer>)
    requires AmountsNonNegative(customers)
    ensures TotalDebt(customers) >= 0 && TotalPayments(customers) >= 0
    decreases |customers|
  {
    if |customers| > 0 {
      var n := |customers| - 1;
      assert AmountsNonNegative(customers[..n]) by {
        forall i, j | 0 <= i < n && 0 <= j < |Txs(customers[..n][i])|
          ensures Txs(customers[..n][i])[j].amount >= 0
        {
          assert customers[..n][i] == customers[i];
        }
      }
      TotalsNonNegative(customers[..n]);
      var txs := Txs(customers[n]);
      assert forall j :: 0 <= j < |txs| ==> txs[j].amount >= 0;
      PartNonNegative(txs, DebtPart);
      PartNonNegative(txs, PaymentPart);
    }
  }

  /** The report a dashboard shows. */
  datatype Report = Report(totalDebt: int, totalPayments: int, totalOutstanding: int)

  /**
   * Both dashboards: run the fold and take `totalOutstanding = totalDebt -
   * totalPayments`, which is the sum of all derived balances.
   */
  method ComputeReport(customers: seq<Customer>) returns (r: Report)
    ensures r.totalDebt == TotalDebt(customers) && r.totalPayments == TotalPayments(customers)
    ensures r.totalOutstanding == r.totalDebt - r.totalPayments
    ensures r.totalOutstanding == SumOfBalances(CustomersWithBalance(customers))
  {
    var debt, payments := ComputeTotals(customers);
    OutstandingIsSumOfBalances(customers);
    r := Report(debt, payments, debt - payments);
  }
}
