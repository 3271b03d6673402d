/**
 * The product price list: a validated append and a delete by id. The price
 * field of the form is text; `parse` stands for `parseFloat`, with `None`
 * for `NaN`, and yields minor units.
 */
module Products {
  import opened Wrappers
  import opened Types
  import opened Seqs

  /** The two inputs of the add-product row. */
  datatype ProductForm = ProductForm(name: string, priceText: string)

  /** The product list together with the add-product inputs. */
  datatype Catalogue = Catalogue(products: seq<Product>, form: ProductForm)

  /** The guard of `handleAddProduct`: a non-empty name and a price that parses to more than 0. */
  predicate AddAccepted(form: ProductForm, parse: string -> Option<int>)
  {
    form.name != "" && parse(form.priceText).Some? && parse(form.priceText).value > 0
  }

  /**
   * `handleAddProduct`: when the guard holds, append one product with the
   * form's name and parsed price and clear both inputs; otherwise change nothing.
   */
  function AddProduct(c: Catalogue, parse: string -> Option<int>, id: string): (r: Catalogue)
    ensures !AddAccepted(c.form, parse) ==> r == c
    ensures AddAccepted(c.form, parse) ==>
      && |r.products| == |c.products| + 1
      && r.products[..|c.products|] == c.products
      && r.products[|c.products|] == Product(id, c.form.name, parse(c.form.priceText).value)
      && r.form == ProductForm("", "")
  {
    if AddAccepted(c.form, parse) then
      Catalogue(c.products + [Product(id, c.form.name, parse(c.form.priceText).value)], ProductForm("", ""))
    else c
  }

  /** The predicate `p => p.id !== productId`. */
  function OtherThan(productId: string): Product -> bool
  {
    (p: Product) => p.id != productId
  }

  /** `handleDeleteProduct`: keep exactly the products whose id differs, in their original order. */
  function DeleteProduct(products: seq<Product>, productId: string): (r: seq<Product>)
    ensures forall p :: p in r <==> p in products && p.id != productId
    ensures forall i :: 0 <= i < |r| ==> r[i].id != productId
    ensures IsSubsequence(r, products)
    ensures forall p :: multiset(r)[p] == if p.id != productId then multiset(products)[p] else 0
  {
    var r := Filter(products, OtherThan(productId));
    FilterCounts(products, OtherThan(productId));
    FilterIsSubsequence(products, OtherThan(productId));
    assert forall i :: 0 <= i < |r| ==> r[i] in r;
    r
  }

  /** Every listed product has a name and a positive price. */
  ghost predicate WellPriced(products: seq<Product>)
  {
    forall i :: 0 <= i < |products| ==> products[i].name != "" && products[i].price > 0
  }

  /** Adding and deleting keep every listed product named and positively priced. */
  lemma CatalogueStaysWellPriced(c: Catalogue, parse: string -> Option<int>, id: string, productId: string)
    requires WellPriced(c.products)
    ensures WellPriced(AddProduct(c, parse, id).products)
    ensures WellPriced(DeleteProduct(c.products, productId))
  {
    var r := DeleteProduct(c.products, productId);
    forall i | 0 <= i < |r|
      ensures r[i].name != "" && r[i].price > 0
    {
      assert r[i] in c.products;
    }
  }

  /** Deleting an id no product has returns an equal list. */
  lemma DeleteAbsentId(products: seq<Product>, productId: string)
    requires forall i :: 0 <= i < |products| ==> products[i].id != productId
    ensures DeleteProduct(products, productId) == products
  {
    FilterKeepsAll(products, OtherThan(productId));
  }

  /** Deleting the same id twice is deleting it once. */
  lemma DeleteIdempotent(products: seq<Product>, productId: string)
    ensures DeleteProduct(DeleteProduct(products, productId), productId) == DeleteProduct(products, productId)
  {
    FilterIdempotent(products, OtherThan(productId));
  }

  /** Deleting the id of a product appended under an id no other product has gives back the list. */
  lemma DeleteUndoesAppend(products: seq<Product>, p: Product)
    requires forall i :: 0 <= i < |products| ==> products[i].id != p.id
    ensures DeleteProduct(products + [p], p.id) == products
  {
    FilterAppend(products, p, OtherThan(p.id));
    FilterKeepsAll(products, OtherThan(p.id));
  }

  /** Deleting a freshly added product, under an id no other product has, undoes the add. */
  lemma DeleteUndoesAdd(c: Catalogue, parse: string -> Option<int>, id: string)
    requires AddAccepted(c.form, parse)
    requires forall i :: 0 <= i < |c.products| ==> c.products[i].id != id
    ensures DeleteProduct(AddProduct(c, parse, id).products, id) == c.products
  {
    DeleteUndoesAppend(c.products, Product(id, c.form.name, parse(c.form.priceText).value));
  }
}
