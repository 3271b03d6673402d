/**
 * The add-transaction form of the customer detail screen: it derives an
 * amount from the product selection (or the custom amount text), refuses a
 * missing or non-positive amount, and otherwise emits one transaction draft
 * and clears its inputs. `parse` stands for `parseFloat` (`None` is `NaN`),
 * `now` for the submission timestamp.
 */
module TransactionForm {
  import opened Wrappers
  import opened Types
  import opened Seqs

  /** The selection value of the "custom amount" option. */
  const CustomSelection: string := "custom"

  /** The description used when neither text nor a product name is available (a translation key). */
  const CustomAmountLabel: string := "transactionForm.customAmount"

  /** The three inputs: the selected option, the custom amount text and the description. */
  datatype FormState = FormState(productId: string, customAmount: string, description: string)

  /** All inputs empty: the state at start and after a successful submit. */
  const Cleared: FormState := FormState("", "", "")

  /** One call of `onAddTransaction(customerId, draft)`. */
  datatype Emission = Emission(customerId: string, draft: TransactionDraft)

  /** What a button press produces: at most one emission, and the next inputs. */
  datatype Outcome = Outcome(emitted: Option<Emission>, next: FormState)

  /** The predicate `p => p.id === productId`. */
  function ProductHasId(productId: string): Product -> bool
  {
    (p: Product) => p.id == productId
  }

  /** `products.find(p => p.id === productId)`. */
  function SelectedProduct(products: seq<Product>, productId: string): (r: Option<Product>)
    ensures r.None? <==> forall i :: 0 <= i < |products| ==> products[i].id != productId
    ensures r.Some? ==>
      exists i :: 0 <= i < |products| && products[i] == r.value && products[i].id == productId
        && (forall j :: 0 <= j < i ==> products[j].id != productId)
  {
    Find(products, ProductHasId(productId))
  }

  /**
   * `amount`: the parsed custom amount for the custom option, otherwise the
   * selected product's price, or 0 when no product has the selected id.
   */
  function Amount(form: FormState, products: seq<Product>, parse: string -> Option<int>): (r: Option<int>)
    ensures form.productId == CustomSelection ==> r == parse(form.customAmount)
    ensures form.productId != CustomSelection ==> r.Some?
    ensures form.productId != CustomSelection && (forall i :: 0 <= i < |products| ==> products[i].id != form.productId) ==>
      r == Some(0)
    ensures form.productId != CustomSelection && (exists i :: 0 <= i < |products| && products[i].id == form.productId) ==>
      exists i :: 0 <= i < |products| && products[i].id == form.productId && r == Some(products[i].price)
        && (forall j :: 0 <= j < i ==> products[j].id != form.productId)
  {
    if form.productId == CustomSelection then parse(form.customAmount)
    else
      var found := SelectedProduct(products, form.productId);
      if found.Some? then Some(found.value.price) else Some(0)
  }

  /** The guard `!amount || amount <= 0` fails: the amount is a number greater than 0. */
  predicate Submittable(amount: Option<int>)
  {
    amount.Some? && amount.value > 0
  }

  /**
   * `transactionDescription`: the typed description if non-empty, else the
   * selected product's name if non-empty, else the custom-amount label.
   */
  function Description(form: FormState, products: seq<Product>): (r: string)
    ensures form.description != "" ==> r == form.description
    ensures var found := SelectedProduct(products, form.productId);
      form.description == "" && found.Some? && found.value.name != "" ==> r == found.value.name
    ensures var found := SelectedProduct(products, form.productId);
      form.description == "" && (found.None? || found.value.name == "") ==> r == CustomAmountLabel
    ensures r != ""
  {
    if form.description != "" then form.description
    else
      var found := SelectedProduct(products, form.productId);
      if found.Some? && found.value.name != "" then found.value.name else CustomAmountLabel
  }

  /**
   * `handleSubmit(type)`: with a positive amount, emit one draft for this
   * form's customer (as argument and as field) of the pressed button's type,
   * dated `now`, and clear the inputs; otherwise emit nothing and keep them.
   */
  function Submit(customerId: string, products: seq<Product>, form: FormState, kind: TransactionType,
                  now: int, parse: string -> Option<int>): (r: Outcome)
    ensures r.emitted.Some? <==> Submittable(Amount(form, products, parse))
    ensures r.emitted.None? ==> r.next == form
    ensures r.emitted.Some? ==>
      && r.next == Cleared
      && r.emitted.value.customerId == customerId
      && r.emitted.value.draft.customerId == customerId
      && r.emitted.value.draft.amount > 0
      && r.emitted.value.draft.amount == Amount(form, products, parse).value
      && r.emitted.value.draft.kind == kind
      && r.emitted.value.draft.date == now
      && r.emitted.value.draft.description == Description(form, products)
  {
    var amount := Amount(form, products, parse);
    if !Submittable(amount) then Outcome(None, form)
    else
      var draft := TransactionDraft(customerId, amount.value, kind, now, Description(form, products));
      Outcome(Some(Emission(customerId, draft)), Cleared)
  }

  /** With no option selected, and no product under the empty id, a submit never emits. */
  lemma NoSelectionNeverEmits(customerId: string, products: seq<Product>, form: FormState, kind: TransactionType,
                              now: int, parse: string -> Option<int>)
    requires form.productId == ""
    requires forall i :: 0 <= i < |products| ==> products[i].id != ""
    ensures Submit(customerId, products, form, kind, now, parse).emitted.None?
  {
  }

  /** A selected id that names no product (and is not the custom option) never emits. */
  lemma UnknownProductNeverEmits(customerId: string, products: seq<Product>, form: FormState, kind: TransactionType,
                                 now: int, parse: string -> Option<int>)
    requires form.productId != CustomSelection
    requires forall i :: 0 <= i < |products| ==> products[i].id != form.productId
    ensures Submit(customerId, products, form, kind, now, parse).emitted.None?
  {
  }

  /**
   * Selecting a positively priced product emits a draft for that product's
   * price and, without a typed description, its name.
   */
  lemma ProductSelectionEmitsPrice(customerId: string, products: seq<Product>, k: nat, kind: TransactionType,
                                   now: int, parse: string -> Option<int>)
    requires k < |products|
    requires products[k].id != CustomSelection && products[k].price > 0 && products[k].name != ""
    requires forall j :: 0 <= j < |products| && j != k ==> products[j].id != products[k].id
    ensures var r := Submit(customerId, products, FormState(products[k].id, "", ""), kind, now, parse);
      r.emitted.Some? && r.emitted.value.draft.amount == products[k].price
      && r.emitted.value.draft.description == products[k].name
  {
    var found := SelectedProduct(products, products[k].id);
    assert found.Some?;
    assert found.value == products[k];
  }
}
