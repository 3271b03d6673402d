/**
 * The records of the shop ledger. Amounts, prices and balances are integers in
 * minor currency units (cents); dates are integer timestamps (milliseconds);
 * identifiers are opaque strings supplied by the caller.
 */
module Types {
  import opened Wrappers

  /** A transaction is either a debt (the customer owes more) or a payment. */
  datatype TransactionType = Debt | Payment

  /** One ledger entry; `kind` is the TypeScript `type` field. */
  datatype Transaction = Transaction(
    id: string,
    customerId: string,
    amount: int,
    kind: TransactionType,
    date: int,
    description: string)

  /**
   * A customer record. `balance` is whatever happens to be stored; the ledger
   * recomputes it from `transactions` on every read. An absent transaction list
   * (`None`) is read as the empty list.
   */
  datatype Customer = Customer(
    id: string,
    name: string,
    phone: string,
    notes: string,
    balance: int,
    transactions: Option<seq<Transaction>>)

  datatype Product = Product(id: string, name: string, price: int)

  /** The screen the application shows. */
  datatype View = Dashboard | CustomerDetail

  /** A customer as handed over by a form: everything except `id` and `balance`. */
  datatype CustomerDraft = CustomerDraft(
    name: string,
    phone: string,
    notes: string,
    transactions: Option<seq<Transaction>>)

  /** A transaction as handed over by a form: everything except `id`. */
  datatype TransactionDraft = TransactionDraft(
    customerId: string,
    amount: int,
    kind: TransactionType,
    date: int,
    description: string)

  /** `customer.transactions || []`: the list a reader sees. */
  function Txs(c: Customer): (r: seq<Transaction>)
    ensures c.transactions.None? ==> r == []
    ensures c.transactions.Some? ==> r == c.transactions.value
  {
    c.transactions.GetOr([])
  }

  /** The stored transaction built from a draft and a fresh id (`{ ...draft, id }`). */
  function FromDraft(draft: TransactionDraft, id: string): (t: Transaction)
    ensures t.id == id && t.customerId == draft.customerId && t.amount == draft.amount
    ensures t.kind == draft.kind && t.date == draft.date && t.description == draft.description
  {
    Transaction(id, draft.customerId, draft.amount, draft.kind, draft.date, draft.description)
  }

  /** Every transaction held by a customer names that customer as its owner. */
  ghost predicate OwnershipConsistent(customers: seq<Customer>)
  {
    forall i, j :: 0 <= i < |customers| && 0 <= j < |Txs(customers[i])| ==>
      Txs(customers[i])[j].customerId == customers[i].id
  }
}
