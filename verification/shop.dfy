/**
 * The two validation layers composed: a form submit whose emission, if any,
 * is fed to the application's mutator. The mutators alone accept any draft;
 * the composition rejects an empty name and a missing or non-positive amount.
 */
module Shop {
  import opened Wrappers
  import opened Types
  import opened Ledger
  import opened Totals
  import App
  import CustomerForm
  import TransactionForm
  import History

  /**
   * The add-customer form feeding `handleAddCustomer`: the customer list and
   * whether the form closed. An empty name leaves the list as it was.
   */
  function SubmitNewCustomer(customers: seq<Customer>, form: CustomerForm.FormState, id: string)
    : (r: (seq<Customer>, bool))
    ensures form.name == "" ==> r.0 == customers && !r.1
    ensures form.name != "" ==>
      && r.1
      && |r.0| == |customers| + 1
      && r.0[..|customers|] == customers
      && r.0[|customers|] == Customer(id, form.name, form.phone, form.notes, 0, Some([]))
  {
    var outcome := CustomerForm.Submit(form);
    match outcome.emitted
    case None => (customers, outcome.closed)
    case Some(draft) => (App.AddCustomer(customers, draft, id), outcome.closed)
  }

  /** A customer created through the form starts with a derived balance of 0. */
  lemma NewCustomerOwesNothing(customers: seq<Customer>, form: CustomerForm.FormState, id: string)
    requires form.name != ""
    ensures var r := SubmitNewCustomer(customers, form, id).0;
      WithBalance(r[|r| - 1]).balance == 0
  {
  }

  /**
   * The add-transaction form feeding `handleAddTransaction` for the customer
   * on screen: when the form refuses, the list is unchanged; otherwise each
   * customer with that id gains one transaction of a positive amount, owned by
   * that customer, and its derived balance moves by the signed amount.
   */
  function SubmitNewTransaction(customers: seq<Customer>, products: seq<Product>, customerId: string,
                                form: TransactionForm.FormState, kind: TransactionType, now: int,
                                parse: string -> Option<int>, txId: string): (r: seq<Customer>)
    ensures !TransactionForm.Submittable(TransactionForm.Amount(form, products, parse)) ==> r == customers
    ensures |r| == |customers|
    ensures forall i :: 0 <= i < |r| && customers[i].id != customerId ==> r[i] == customers[i]
    ensures TransactionForm.Submittable(TransactionForm.Amount(form, products, parse)) ==>
      forall i :: 0 <= i < |r| && customers[i].id == customerId ==>
        && |Txs(r[i])| == |Txs(customers[i])| + 1
        && Txs(r[i])[..|Txs(customers[i])|] == Txs(customers[i])
        && Txs(r[i])[|Txs(customers[i])|].amount > 0
        && Txs(r[i])[|Txs(customers[i])|].customerId == customerId
        && Txs(r[i])[|Txs(customers[i])|].kind == kind
    ensures TransactionForm.Submittable(TransactionForm.Amount(form, products, parse)) ==>
      forall i :: 0 <= i < |r| && customers[i].id == customerId ==>
        && r[i] == customers[i].(transactions := r[i].transactions)
        && Txs(r[i])[|Txs(customers[i])|] == FromDraft(TransactionDraft(customerId,
             TransactionForm.Amount(form, products, parse).value, kind, now,
             TransactionForm.Description(form, products)), txId)
  {
    var outcome := TransactionForm.Submit(customerId, products, form, kind, now, parse);
    match outcome.emitted
    case None => customers
    case Some(e) =>
      var r := App.AddTransaction(customers, e.customerId, e.draft, txId);
      assert forall i :: 0 <= i < |r| && customers[i].id == customerId ==>
        Txs(r[i]) == Txs(customers[i]) + [FromDraft(e.draft, txId)];
      r
  }

  /** A transaction entered through the form moves the balance of its customer only. */
  lemma SubmitNewTransactionMovesBalance(customers: seq<Customer>, products: seq<Product>, customerId: string,
                                         form: TransactionForm.FormState, kind: TransactionType, now: int,
                                         parse: string -> Option<int>, txId: string)
    requires TransactionForm.Submittable(TransactionForm.Amount(form, products, parse))
    ensures var r := SubmitNewTransaction(customers, products, customerId, form, kind, now, parse, txId);
      var amount := TransactionForm.Amount(form, products, parse).value;
      forall i :: 0 <= i < |customers| ==>
        WithBalance(r[i]).balance == WithBalance(customers[i]).balance
          + (if customers[i].id != customerId then 0 else if kind.Debt? then amount else -amount)
  {
    var e := TransactionForm.Submit(customerId, products, form, kind, now, parse).emitted.value;
    App.AddTransactionMovesBalance(customers, e.customerId, e.draft, txId);
  }

  /** Through the forms, every transaction stays filed under the customer it names. */
  lemma FormsKeepOwnership(customers: seq<Customer>, products: seq<Product>, customerId: string,
                           form: TransactionForm.FormState, kind: TransactionType, now: int,
                           parse: string -> Option<int>, txId: string,
                           customerForm: CustomerForm.FormState, newId: string)
    requires OwnershipConsistent(customers)
    ensures OwnershipConsistent(SubmitNewTransaction(customers, products, customerId, form, kind, now, parse, txId))
    ensures OwnershipConsistent(SubmitNewCustomer(customers, customerForm, newId).0)
  {
    var outcome := TransactionForm.Submit(customerId, products, form, kind, now, parse);
    if outcome.emitted.Some? {
      App.AddTransactionKeepsOwnership(customers, customerId, outcome.emitted.value.draft, txId);
    }
    var c := CustomerForm.Submit(customerForm);
    if c.emitted.Some? {
      App.AddCustomerKeepsOwnership(customers, c.emitted.value, newId);
    }
  }

  /**
   * An absent transaction list reads exactly like an empty one: same derived
   * balance, same totals, same history.
   */
  lemma AbsentListReadsAsEmpty(c: Customer)
    requires c.transactions.None?
    ensures WithBalance(c).balance == WithBalance(c.(transactions := Some([]))).balance
    ensures TotalDebt([c]) == TotalDebt([c.(transactions := Some([]))])
    ensures TotalPayments([c]) == TotalPayments([c.(transactions := Some([]))])
    ensures History.Entries(c.transactions) == History.Entries(Some([]))
  {
  }

  function Tx(id: string, owner: string, amount: int, kind: TransactionType): Transaction
  {
    Transaction(id, owner, amount, kind, 0, "")
  }

  /**
   * The worked example in cents: Alice with a debt of 4.50, a payment of 2.00
   * and a debt of 1.25 has balance 3.75; Bob with a payment of 1.00 has -1.00;
   * together 5.75 of debt, 3.00 of payments, 2.75 outstanding.
   */
  lemma WorkedExample()
    ensures var alice := Customer("A", "Alice", "555", "", 0,
              Some([Tx("t1", "A", 450, Debt), Tx("t2", "A", 200, Payment), Tx("t3", "A", 125, Debt)]));
      var bob := Customer("B", "Bob", "", "", 0, Some([Tx("t4", "B", 100, Payment)]));
      && WithBalance(alice).balance == 375
      && WithBalance(bob).balance == -100
      && TotalDebt([alice, bob]) == 575
      && TotalPayments([alice, bob]) == 300
      && TotalDebt([alice, bob]) - TotalPayments([alice, bob]) == 275
  {
    var alice := Customer("A", "Alice", "555", "", 0,
      Some([Tx("t1", "A", 450, Debt), Tx("t2", "A", 200, Payment), Tx("t3", "A", 125, Debt)]));
    var bob := Customer("B", "Bob", "", "", 0, Some([Tx("t4", "B", 100, Payment)]));
    var at := Txs(alice);
    assert at[1..] == [Tx("t2", "A", 200, Payment), Tx("t3", "A", 125, Debt)];
    assert at[1..][1..] == [Tx("t3", "A", 125, Debt)];
    assert DebtSum(at) == 575 && PaymentSum(at) == 200;
    assert DebtSum(Txs(bob)) == 0 && PaymentSum(Txs(bob)) == 100;
    assert [alice][..0] == [];
    assert TotalDebt([alice]) == 575 && TotalPayments([alice]) == 200;
    assert [alice, bob][..1] == [alice];
    assert TotalDebt([alice, bob]) == TotalDebt([alice]) + DebtSum(Txs(bob));
    assert TotalPayments([alice, bob]) == TotalPayments([alice]) + PaymentSum(Txs(bob));
  }
}
