/**
 * The older dashboard: the same totals fold and add-customer handler as the
 * newer one, no search, and a customer list that shows each balance in one
 * of three styles.
 */
module LegacyDashboard {
  import opened Wrappers
  import opened Types
  import opened Ledger
  import opened Totals
  import CustomerForm

  /** The colour class of a balance: red when owed, green when in credit, grey when settled. */
  datatype Tone = Owing | InCredit | Settled

  /** A displayed balance: its tone, whether a leading minus is printed, and the printed magnitude. */
  datatype BalanceLabel = BalanceLabel(tone: Tone, minus: bool, magnitude: nat)

  /**
   * The three-way display of `customer.balance`: a positive balance as is, a
   * negative one as a minus followed by its magnitude, zero as zero.
   */
  function Classify(balance: int): (r: BalanceLabel)
    ensures r.tone.Owing? <==> balance > 0
    ensures r.tone.InCredit? <==> balance < 0
    ensures r.tone.Settled? <==> balance == 0
    ensures r.minus <==> r.tone.InCredit?
    ensures r.magnitude == if balance < 0 then -balance else balance
  {
    if balance > 0 then BalanceLabel(Owing, false, balance)
    else if balance < 0 then BalanceLabel(InCredit, true, -balance)
    else BalanceLabel(Settled, false, 0)
  }

  /** The signed value a label stands for. */
  function LabelValue(l: BalanceLabel): int
  {
    if l.minus then -(l.magnitude as int) else l.magnitude
  }

  /** Reading a label back gives the balance it was made from. */
  lemma ClassifyRoundTrip(balance: int)
    ensures LabelValue(Classify(balance)) == balance
  {
  }

  /** What the older dashboard shows: the report and one balance label per customer, in order. */
  datatype LegacyView = LegacyView(report: Report, labels: seq<BalanceLabel>)

  /** The customer list's labels: each customer's `balance` field as given, classified. */
  function Labels(customers: seq<Customer>): (r: seq<BalanceLabel>)
    ensures |r| == |customers|
    ensures forall i :: 0 <= i < |customers| ==> LabelValue(r[i]) == customers[i].balance
    ensures forall i :: 0 <= i < |customers| ==> r[i] == Classify(customers[i].balance)
  {
    seq(|customers|, i requires 0 <= i < |customers| => Classify(customers[i].balance))
  }

  /**
   * Given customers whose balances were derived, as the newer dashboard is, the
   * labels read back as debt minus payments, in the matching tone.
   */
  lemma LabelsOfDerivedCustomers(customers: seq<Customer>)
    ensures var labels := Labels(CustomersWithBalance(customers));
      forall i :: 0 <= i < |customers| ==>
        && labels[i] == Classify(DebtSum(Txs(customers[i])) - PaymentSum(Txs(customers[i])))
        && LabelValue(labels[i]) == DebtSum(Txs(customers[i])) - PaymentSum(Txs(customers[i]))
  {
    var derived := CustomersWithBalance(customers);
    forall i | 0 <= i < |customers|
      ensures LabelValue(Classify(derived[i].balance)) == DebtSum(Txs(customers[i])) - PaymentSum(Txs(customers[i]))
    {
      ClassifyRoundTrip(derived[i].balance);
    }
  }

  /**
   * The older dashboard over the list it is handed: totals over every customer
   * from their transactions, and every customer listed (there is no search)
   * with the label of its `balance` field.
   */
  method ShowLegacyDashboard(customers: seq<Customer>) returns (v: LegacyView)
    ensures v.report.totalDebt == TotalDebt(customers) && v.report.totalPayments == TotalPayments(customers)
    ensures v.report.totalOutstanding == v.report.totalDebt - v.report.totalPayments
    ensures |v.labels| == |customers|
    ensures forall i :: 0 <= i < |customers| ==> v.labels[i] == Classify(customers[i].balance)
    ensures forall i :: 0 <= i < |customers| ==> LabelValue(v.labels[i]) == customers[i].balance
  {
    var report := ComputeReport(customers);
    v := LegacyView(report, Labels(customers));
  }

  /**
   * The older add-customer form has the same guard: an empty name neither
   * emits nor closes, any other name emits its fields with an empty list.
   */
  lemma LegacySubmitGuard(form: CustomerForm.FormState)
    ensures form.name == "" ==> CustomerForm.Submit(form) == CustomerForm.Outcome(None, false)
    ensures form.name != "" ==>
      CustomerForm.Submit(form) ==
        CustomerForm.Outcome(Some(CustomerDraft(form.name, form.phone, form.notes, Some([]))), true)
  {
  }
}
