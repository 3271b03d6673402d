/**
 * The application root: the two customer mutators, the selected-customer
 * lookup and the two-state view machine. Identifiers that the source derives
 * from the clock are parameters here. Neither mutator validates its draft;
 * validation lives in the forms (see module Shop for the composition).
 */
module App {
  import opened Wrappers
  import opened Types
  import opened Seqs
  import opened Ledger

  /** `handleAddCustomer`: append one new customer built from the draft, with stored balance 0. */
  function AddCustomer(customers: seq<Customer>, draft: CustomerDraft, id: string): (r: seq<Customer>)
    ensures |r| == |customers| + 1
    ensures r[..|customers|] == customers
    ensures r[|customers|].id == id && r[|customers|].balance == 0
    ensures r[|customers|].name == draft.name && r[|customers|].phone == draft.phone
    ensures r[|customers|].notes == draft.notes && r[|customers|].transactions == draft.transactions
  {
    customers + [Customer(id, draft.name, draft.phone, draft.notes, 0, draft.transactions)]
  }

  /** The per-customer step of `handleAddTransaction`'s map. */
  function Attach(c: Customer, customerId: string, t: Transaction): Customer
  {
    if c.id == customerId then c.(transactions := Some(Txs(c) + [t])) else c
  }

  /**
   * `handleAddTransaction`: every customer whose id is `customerId` gains the
   * new transaction as its last element (an absent list becomes a one-element
   * list); every other customer is returned as it was. The new transaction's
   * owner is the draft's `customerId`, as in the source.
   */
  function AddTransaction(customers: seq<Customer>, customerId: string, draft: TransactionDraft, id: string)
    : (r: seq<Customer>)
    ensures |r| == |customers|
    ensures forall i :: 0 <= i < |r| && customers[i].id != customerId ==> r[i] == customers[i]
    ensures forall i :: 0 <= i < |r| && customers[i].id == customerId ==>
      && r[i] == customers[i].(transactions := r[i].transactions)
      && Txs(r[i]) == Txs(customers[i]) + [FromDraft(draft, id)]
  {
    seq(|customers|, i requires 0 <= i < |customers| => Attach(customers[i], customerId, FromDraft(draft, id)))
  }

  /** A transaction for an id no customer has leaves the collection equal to the input. */
  lemma AddTransactionUnknownId(customers: seq<Customer>, customerId: string, draft: TransactionDraft, id: string)
    requires forall i :: 0 <= i < |customers| ==> customers[i].id != customerId
    ensures AddTransaction(customers, customerId, draft, id) == customers
  {
  }

  /**
   * After `AddTransaction`, each matching customer's derived balance moves by
   * `+amount` for a debt and `-amount` for a payment; every other balance is unchanged.
   */
  lemma AddTransactionMovesBalance(customers: seq<Customer>, customerId: string, draft: TransactionDraft, id: string)
    ensures var r := AddTransaction(customers, customerId, draft, id);
      forall i :: 0 <= i < |customers| ==>
        WithBalance(r[i]).balance == WithBalance(customers[i]).balance
          + (if customers[i].id != customerId then 0
             else if draft.kind.Debt? then draft.amount else -draft.amount)
  {
    var r := AddTransaction(customers, customerId, draft, id);
    forall i | 0 <= i < |customers|
      ensures WithBalance(r[i]).balance == WithBalance(customers[i]).balance
          + (if customers[i].id != customerId then 0
             else if draft.kind.Debt? then draft.amount else -draft.amount)
    {
      if customers[i].id == customerId {
        BalanceAppend(Txs(customers[i]), FromDraft(draft, id));
      }
    }
  }

  /**
   * Appending a transaction whose owner is the customer it is filed under keeps
   * every transaction filed under the customer it names.
   */
  lemma AddTransactionKeepsOwnership(customers: seq<Customer>, customerId: string, draft: TransactionDraft, id: string)
    requires OwnershipConsistent(customers)
    requires draft.customerId == customerId
    ensures OwnershipConsistent(AddTransaction(customers, customerId, draft, id))
  {
    var r := AddTransaction(customers, customerId, draft, id);
    forall i, j | 0 <= i < |r| && 0 <= j < |Txs(r[i])|
      ensures Txs(r[i])[j].customerId == r[i].id
    {
      if customers[i].id == customerId && j == |Txs(customers[i])| {
        assert Txs(r[i])[j] == FromDraft(draft, id);
      } else {
        assert Txs(r[i])[j] == Txs(customers[i])[j];
      }
    }
  }

  /** A new customer with no transactions keeps the ownership invariant. */
  lemma AddCustomerKeepsOwnership(customers: seq<Customer>, draft: CustomerDraft, id: string)
    requires OwnershipConsistent(customers)
    requires draft.transactions.None? || draft.transactions == Some([])
    ensures OwnershipConsistent(AddCustomer(customers, draft, id))
  {
    var r := AddCustomer(customers, draft, id);
    forall i, j | 0 <= i < |r| && 0 <= j < |Txs(r[i])|
      ensures Txs(r[i])[j].customerId == r[i].id
    {
      assert i < |customers|;
      assert r[i] == customers[i];
    }
  }

  /** The predicate `c => c.id === id`. */
  function HasId(id: string): Customer -> bool
  {
    (c: Customer) => c.id == id
  }

  /**
   * `selectedCustomer`: the first customer whose id equals the selected id, or
   * none when nothing is selected or no customer has that id.
   */
  function SelectedCustomer(customers: seq<Customer>, selected: Option<string>): (r: Option<Customer>)
    ensures r.None? <==> selected.None? || forall i :: 0 <= i < |customers| ==> customers[i].id != selected.value
    ensures r.Some? ==>
      exists i :: 0 <= i < |customers| && customers[i] == r.value && customers[i].id == selected.value
        && (forall j :: 0 <= j < i ==> customers[j].id != selected.value)
  {
    match selected
    case None => None
    case Some(id) => Find(customers, HasId(id))
  }

  /**
   * After adding a customer under an id no one else has, selecting that id
   * yields the new customer, whose derived balance is its draft's balance.
   */
  lemma AddedCustomerIsSelectable(customers: seq<Customer>, draft: CustomerDraft, id: string)
    requires forall i :: 0 <= i < |customers| ==> customers[i].id != id
    ensures var r := SelectedCustomer(CustomersWithBalance(AddCustomer(customers, draft, id)), Some(id));
      && r.Some?
      && r.value == Customer(id, draft.name, draft.phone, draft.notes,
                             DebtSum(Txs(r.value)) - PaymentSum(Txs(r.value)), draft.transactions)
  {
    var all := CustomersWithBalance(AddCustomer(customers, draft, id));
    var r := SelectedCustomer(all, Some(id));
    assert all[|customers|].id == id;
    var i :| 0 <= i < |all| && all[i] == r.value && all[i].id == id;
    assert i == |customers|;
  }

  /** The UI state: which screen is shown and which customer id is selected. */
  datatype UiState = UiState(view: View, selected: Option<string>)

  /** The state at start-up: the dashboard, nothing selected. */
  const Initial: UiState := UiState(Dashboard, None)

  /** `handleSelectCustomer`: show the detail screen of `id`. */
  function SelectCustomer(s: UiState, id: string): (r: UiState)
    ensures r.view.CustomerDetail? && r.selected == Some(id)
  {
    UiState(CustomerDetail, Some(id))
  }

  /** `navigateToDashboard`: back to the dashboard, clearing the selection. */
  function NavigateToDashboard(s: UiState): (r: UiState)
    ensures r.view.Dashboard? && r.selected.None?
  {
    UiState(Dashboard, None)
  }

  /** The view shows a customer exactly when one is selected. */
  ghost predicate WellFormed(s: UiState)
  {
    s.view.Dashboard? <==> s.selected.None?
  }

  /** A user action on the view machine. */
  datatype UiEvent = Select(id: string) | Back

  function Step(s: UiState, e: UiEvent): UiState
  {
    match e
    case Select(id) => SelectCustomer(s, id)
    case Back => NavigateToDashboard(s)
  }

  /** The state reached from `Initial` by a sequence of actions. */
  function Run(events: seq<UiEvent>): UiState
  {
    if |events| == 0 then Initial else Step(Run(events[..|events| - 1]), events[|events| - 1])
  }

  /**
   * Every reachable state is well formed, and is determined by the last action
   * alone: after a `Select(id)` the detail of `id`, otherwise the dashboard.
   */
  lemma {:induction false} RunIsWellFormed(events: seq<UiEvent>)
    ensures WellFormed(Run(events))
    ensures |events| == 0 || events[|events| - 1].Back? ==> Run(events) == Initial
    ensures |events| > 0 && events[|events| - 1].Select? ==>
      Run(events) == UiState(CustomerDetail, Some(events[|events| - 1].id))
  {
  }

  /** What the application body renders. */
  datatype Screen = DashboardScreen | DetailScreen(customer: Customer) | NothingShown

  /**
   * The main area: the dashboard, or the detail of the selected customer when
   * that customer exists among the derived customers; otherwise nothing.
   */
  function Render(s: UiState, customers: seq<Customer>): (r: Screen)
    ensures s.view.Dashboard? <==> r.DashboardScreen?
    ensures r.DetailScreen? <==> s.view.CustomerDetail? && SelectedCustomer(CustomersWithBalance(customers), s.selected).Some?
    ensures r.DetailScreen? ==> r.customer.balance == DebtSum(Txs(r.customer)) - PaymentSum(Txs(r.customer))
    ensures r.DetailScreen? ==> s.selected == Some(r.customer.id)
    ensures r.DetailScreen? ==>
      exists i :: 0 <= i < |customers| && Some(customers[i].id) == s.selected
        && r.customer == customers[i].(balance := DebtSum(Txs(customers[i])) - PaymentSum(Txs(customers[i])))
        && (forall j :: 0 <= j < i ==> Some(customers[j].id) != s.selected)
  {
    if s.view.Dashboard? then DashboardScreen
    else
      var found := SelectedCustomer(CustomersWithBalance(customers), s.selected);
      if found.Some? then DetailScreen(found.value) else NothingShown
  }
}
