# Shop ledger — a Dafny model

A small shop ledger keeps customers with a history of debt and payment
transactions, and a product price list. This project models its pure core in
Dafny 4.11:

- **Ledger** (`ledger.dfy`). A customer's balance is derived from its
  transactions on every read. It is a left fold of `+amount` for a debt and
  `-amount` for a payment. The model proves that this fold equals total debt
  minus total payments and that it does not depend on the order of the
  transactions.
- **App** (`app.dfy`). The two customer mutators, the selected-customer lookup,
  and the two-state view machine (dashboard / customer detail) with what the
  main area renders.
- **Totals** (`totals.dfy`). The dashboards' nested fold computing total debt
  and total payments, and the outstanding total.
- **Search** (`search.dfy`). The newer dashboard's case-insensitive substring
  search on name or phone.
- **Products** (`products.dfy`). The validated add and the delete-by-id of the
  price list.
- **TransactionForm** and **CustomerForm** (`transaction_form.dfy`,
  `customer_form.dfy`). Amount derivation, guards, the description fallback
  and draft construction.
- **History** (`history.dfy`). The newest-first stable sort of a customer's
  transactions and the signs shown per row.
- **LegacyDashboard** (`legacy_dashboard.dfy`). The older dashboard's
  three-way balance display and its copy of the add-customer handler.
- **Shop** (`shop.dfy`). The two validation layers composed. The forms reject
  an empty name and a missing or non-positive amount, and the application
  mutators accept any draft. Shop feeds each form's output into the matching
  mutator and proves what the combination guarantees.
- `types.dfy`, `seqs.dfy` and `wrappers.dfy` hold the records, `filter`/`find`
  with their facts, and `Option`.

Representation choices:

- Amounts, prices and balances are `int` minor units (cents).
- Dates are `int` timestamps.
- An absent transaction list is `None`.
- The TypeScript field `type` is called `kind`, because `type` is a Dafny keyword.
- Every source of nondeterminism is a parameter. The clock-derived ids
  (`C…`, `T…`, `P…`) are strings. The submission time `now` is an `int`.
  `parseFloat` is `parse: string -> Option<int>`, where `None` stands for `NaN`.
- Sequences are values. So the source's copy-then-sort and copy-on-write
  updates never change the caller's list.

The model keeps these behaviours of the code as written:

- `handleAddCustomer` and `handleAddTransaction` validate nothing. Only the
  forms reject an empty name or a non-positive amount. `App.AddCustomer` and
  `App.AddTransaction` accept any draft; `Shop` composes the layers.
- `handleAddTransaction` updates every customer whose id matches. The stored
  transaction's `customerId` comes from the draft, not from the id argument.
- Only the exact empty query skips the search. A whitespace-only query is
  matched literally (`Search.BlankQueryIsLiteral`).
- A new customer record is written with `balance: 0`. The model keeps the
  stored field and proves the derived record does not depend on it
  (`Ledger.StoredBalanceIgnored`).
- Adding a product requires a price greater than 0.

Type-level facts need no lemma:

- `TransactionType` has exactly the constructors `Debt` and `Payment`, so
  every debt-or-payment branch is exhaustive.
- `View` has exactly `Dashboard` and `CustomerDetail`.
- Every transaction has exactly one `customerId`.

## Model

| member | source | states |
|---|---|---|
| Ledger.WithBalance | src/App.tsx:39-46 | the derived balance is total debt minus total payments of the (possibly absent) list; every other field is kept |
| Ledger.CustomersWithBalance | src/App.tsx:39-46 | same length and order; each customer gets its own derived balance and is otherwise unchanged |
| Ledger.BalanceIsDebtMinusPayments | src/App.tsx:41-43 | the left fold of signed amounts equals the sum of debt amounts minus the sum of payment amounts |
| Ledger.BalancePermutationInvariant | src/App.tsx:41-43 | any two lists with the same multiset of transactions have the same balance |
| Ledger.BalanceAppend | src/App.tsx:41-43 | appending a transaction moves the balance by +amount for a debt and -amount for a payment |
| Ledger.StoredBalanceIgnored | src/App.tsx:44 | whatever balance is stored on a record, the derived record is the same |
| App.AddCustomer | src/App.tsx:18-25 | exactly one customer is appended at the end, carrying the given id, stored balance 0 and the draft's name, phone, notes and transactions; the prior customers are an unchanged prefix |
| App.AddCustomerKeepsOwnership | src/App.tsx:18-24 | adding a customer whose draft has no transactions keeps every transaction filed under the customer it names |
| App.AddTransaction | src/App.tsx:27-37 | length and order are kept; customers with another id are unchanged; each matching customer gains the new transaction as its last element, with an absent list becoming a one-element list, and is otherwise unchanged |
| App.AddTransactionUnknownId | src/App.tsx:29-36 | with an id no customer has, the result equals the input |
| App.AddTransactionMovesBalance | src/App.tsx:27-46 | a matching customer's derived balance moves by +amount (debt) or -amount (payment); every other balance is unchanged |
| App.AddTransactionKeepsOwnership | src/App.tsx:27-35 | when the draft names the customer it is filed under, every transaction stays filed under its named owner |
| App.SelectedCustomer | src/App.tsx:48-50 | none exactly when nothing is selected or no customer has the id; otherwise the first customer with that id |
| App.AddedCustomerIsSelectable | src/App.tsx:18-50 | after adding a customer under a fresh id, selecting that id yields the new customer with its derived balance |
| App.SelectCustomer | src/App.tsx:52-55 | the view becomes the customer detail with that id selected |
| App.NavigateToDashboard | src/App.tsx:57-60 | the view becomes the dashboard with no selection |
| App.RunIsWellFormed | src/App.tsx:52-60 | starting from the dashboard with no selection, every reachable state shows the detail exactly when an id is selected; the last action alone decides the state |
| App.Render | src/App.tsx:66-80 | the dashboard is shown exactly in the dashboard view; the detail is shown exactly when some customer has the selected id, and it shows the first such customer with its derived balance and every other field as stored |
| Totals.ComputeTotals | src/components/Dashboard.tsx:19-32 | the nested loop yields the sum of debt amounts and the sum of all non-debt amounts over every customer; absent lists contribute 0 |
| Totals.ComputeReport | src/components/Dashboard.tsx:19-45 | the outstanding total is total debt minus total payments and equals the sum of all derived balances |
| Totals.OutstandingIsSumOfBalances | src/components/Dashboard.tsx:45 | total debt minus total payments equals the sum of the customers' derived balances |
| Totals.TotalsNonNegative | components/Dashboard.tsx:94-107 | with no negative amount recorded, neither total debt nor total payments is negative |
| Search.ContainsIffOccurs | src/components/Dashboard.tsx:40-41 | the substring test holds exactly when the query occurs at some position |
| Search.FilterCustomers | src/components/Dashboard.tsx:34-43 | the empty query returns the list unchanged; a customer is kept iff its lowercased name or phone contains the lowercased query; the result is an order-preserving subsequence keeping every match with its multiplicity |
| Search.FilterCustomersIdempotent | src/components/Dashboard.tsx:39-42 | searching the result again with the same query changes nothing |
| Search.QueryCaseInsensitive | src/components/Dashboard.tsx:36-41 | the query is lower-cased before matching, so searching with the lower-cased query gives exactly the same result as searching with the query as typed |
| Search.BlankQueryIsLiteral | src/components/Dashboard.tsx:36-42 | a one-space query is matched literally: a customer is kept exactly when it is in the list and its name or phone contains a space |
| Search.ShowDashboard | src/components/Dashboard.tsx:19-89 | the report is computed over all customers whatever the query; the listed customers are exactly the search result: the matches, in their original order, each as often as it occurs |
| Products.AddProduct | components/ProductManager.tsx:15-27 | with a non-empty name and a parsed price above 0, exactly one product is appended with that name and price, the old list is a prefix, and both inputs are cleared; otherwise nothing changes |
| Products.DeleteProduct | components/ProductManager.tsx:29-31 | keeps exactly the products with another id, in original order and multiplicity; none with the target id remains |
| Products.DeleteAbsentId | components/ProductManager.tsx:30 | deleting an id that no product has returns an equal list |
| Products.DeleteIdempotent | components/ProductManager.tsx:30 | deleting the same id twice equals deleting it once |
| Products.DeleteUndoesAppend | components/ProductManager.tsx:29-31 | deleting the id of a product appended under an id no other product has gives back the original list |
| Products.DeleteUndoesAdd | components/ProductManager.tsx:15-31 | deleting a just-added product under a fresh id gives back the original list |
| Products.CatalogueStaysWellPriced | components/ProductManager.tsx:16-30 | if every product has a name and a positive price, that stays true after an add or a delete |
| TransactionForm.Amount | src/components/AddTransactionForm.tsx:17-18 | the custom option yields the parsed custom text (possibly NaN); any other selection yields the price of the first product with that id, or 0 when no product has it |
| TransactionForm.SelectedProduct | src/components/AddTransactionForm.tsx:18 | none exactly when no product has the id; otherwise the first product with that id |
| TransactionForm.Description | src/components/AddTransactionForm.tsx:23 | the typed text if non-empty, else the selected product's non-empty name, else the custom-amount label; never empty |
| TransactionForm.Submit | src/components/AddTransactionForm.tsx:20-35 | emits iff the amount is a number above 0; an emitted draft has the form's customer id as argument and field, the amount, the pressed type, the submission time and the description, and the inputs reset to empty; otherwise the inputs are kept |
| TransactionForm.NoSelectionNeverEmits | src/components/AddTransactionForm.tsx:18-21 | with nothing selected (and no product with the empty id) a submit never emits |
| TransactionForm.UnknownProductNeverEmits | src/components/AddTransactionForm.tsx:18-21 | a selected id naming no product never emits |
| TransactionForm.ProductSelectionEmitsPrice | src/components/AddTransactionForm.tsx:18-31 | selecting a uniquely identified, positively priced product emits its price and, with no typed text, its name |
| CustomerForm.Submit | src/components/AddCustomerForm.tsx:17-22 | emits iff the name is non-empty, with the entered name, phone and notes and an empty transaction list; the form closes exactly when it emits |
| History.SortPermutes | src/components/TransactionList.tsx:16 | the sorted history is a permutation of the customer's transactions |
| History.SortOrders | src/components/TransactionList.tsx:16 | the sorted history is non-increasing by date |
| History.SortIsStable | src/components/TransactionList.tsx:16 | for every date, the transactions with that date keep their original relative order |
| History.AmountSign | src/components/TransactionList.tsx:33 | '+' exactly for a debt, '-' exactly for a payment |
| History.BadgeGlyph | src/components/TransactionList.tsx:25 | the badge shows a minus sign exactly for a debt and '+' exactly for a payment |
| History.Entries | src/components/TransactionList.tsx:13-36 | an absent or empty list renders no rows; otherwise row i shows the i-th transaction of the stable newest-first sort, so every transaction is shown once per occurrence, newest first, and rows with equal dates keep their order |
| LegacyDashboard.Classify | components/Dashboard.tsx:29-35 | three-way split: owing exactly when positive, in credit (printed with a leading minus) exactly when negative, settled exactly at zero; the printed magnitude is the absolute value |
| LegacyDashboard.ClassifyRoundTrip | components/Dashboard.tsx:29-35 | the sign and magnitude shown give back the balance |
| LegacyDashboard.ShowLegacyDashboard | components/Dashboard.tsx:91-142 | the report covers every customer from its transactions and outstanding is debt minus payments; every customer is listed, in order, with the classification of its balance field as given |
| LegacyDashboard.Labels | components/Dashboard.tsx:17-34 | one label per customer, in order, each the three-way classification of that customer's balance field and reading back as it |
| LegacyDashboard.LabelsOfDerivedCustomers | components/Dashboard.tsx:17-34 | for customers whose balances were derived, each label is the classification of debt minus payments and reads back as it |
| LegacyDashboard.LegacySubmitGuard | components/Dashboard.tsx:55-60 | an empty name neither emits nor closes; any other name emits name, phone, notes and an empty list and closes |
| Shop.SubmitNewCustomer | src/components/AddCustomerForm.tsx:17-22 | through the form, an empty name leaves the customers unchanged; otherwise exactly one customer with stored balance 0 and an empty list is appended |
| Shop.NewCustomerOwesNothing | src/App.tsx:18-24 | a customer created through the form has derived balance 0 |
| Shop.SubmitNewTransaction | src/components/AddTransactionForm.tsx:20-31 | through the form, a missing or non-positive amount leaves the customers unchanged; otherwise only the customers with the form's id change, each keeping every field but its list and gaining, at the end, the form's draft (the derived positive amount, the pressed type, the submission time, the description) under the new id |
| Shop.SubmitNewTransactionMovesBalance | src/App.tsx:27-46 | an accepted form submission moves the on-screen customer's balance by the signed amount and no other balance |
| Shop.FormsKeepOwnership | types.ts:9 | every transaction filed under a customer names that customer, and adding customers or transactions through the forms keeps this true |
| Shop.AbsentListReadsAsEmpty | types.ts:22 | an absent transaction list gives the same balance, totals and history as an empty one |
| Shop.WorkedExample | src/App.tsx:39-46 | debts of 4.50 and 1.25 with a payment of 2.00 give 3.75; a lone payment of 1.00 gives -1.00; together 5.75 of debt, 3.00 of payments and 2.75 outstanding |

## Left out

- Persistence. `customers` and `products` come from a `useLocalStorage` hook,
  and `src/hooks/useLocalStorage` is not part of this model. Loading with
  default `[]`, corrupt-value fallback and write failures are not modelled.
  The collections are plain inputs.
- React state and rendering. Hooks, JSX, the product-manager open flag and
  the dashboards' "adding customer" flag are not modelled. The add-customer
  form's `onClose` is the `closed` flag.
- `components/Header.tsx`, `src/components/Header.tsx`,
  `src/components/CustomerList.tsx`, `src/components/CustomerDetail.tsx`.
  These are rendering and language switching. Their balance styling is the
  same three-way split as `LegacyDashboard.Classify`.
- `sw.js`, `public/sw.js`, `tailwind.config.js`, `capacitor.config.ts`. These
  are the offline asset cache and build configuration, with no ledger logic.
- Floating point. Amounts are exact integers, so `toFixed(2)` formatting and
  rounding drift are not modelled. Order-independence of the balance holds
  only for this exact arithmetic.
- `parseFloat`. It is an injected function. Its parsing rules (prefixes,
  exponents, whitespace) are not modelled.
- Identifiers and clocks. `Date.now()` ids and `toISOString()` dates are
  parameters. Uniqueness of the generated ids is not modelled; two ids made
  in the same millisecond would collide. Where a lemma needs a fresh id, it
  requires one.
- Date parsing. Dates are integer timestamps. An unparsable date string,
  which makes the sort comparator return `NaN`, is not modelled.
- `History.SortPermutes`, `History.SortOrders` and `History.SortIsStable`
  state the sort's guarantees for the model's own stable insertion sort. They
  do not model the engine's algorithm.
- LegacyDashboard.ShowLegacyDashboard: the model includes no caller of the
  older dashboard, so it classifies the stored `balance` field of whatever
  list it is handed. `LegacyDashboard.LabelsOfDerivedCustomers` states what it
  shows when handed derived customers.
- Search.FilterCustomers: lower-casing is ASCII only, not Unicode
  `toLowerCase`.
- Translation. The `t()` lookups are replaced by their keys. The only one
  with behaviour is the description fallback `transactionForm.customAmount`.
- TransactionForm.Amount: a product price that is `NaN` or absent also
  yields 0 in the source. Prices here are always integers, so that case
  cannot arise.
