/**
 * The state and event handlers of the `App` component (App.tsx): the product
 * list, the three text fields of the form, the id of the product being edited
 * and the error shown under the form. Each handler runs to completion on the
 * current state before the next one starts.
 */
module App {
  import opened Wrappers
  import opened JsString
  import opened ProductModel
  import opened ProductList

  /** The text `saveProduct` shows when a create would reuse a stored id. */
  const DuplicateIdMessage: string := "Product ID already exists"

  /** The three texts `saveProduct` can show are pairwise different, so the error
      under the form tells which check failed. */
  lemma ErrorMessagesDistinct()
    ensures DuplicateIdMessage != EmptyName.Message()
    ensures DuplicateIdMessage != InvalidPrice.Message()
    ensures EmptyName.Message() != InvalidPrice.Message()
  {
  }

  class AppState {
    /** `Number(text)`: how the price text is turned into a number. */
    const parseNumber: string -> Num
    /** `String(n)`: how a stored price is turned back into text for editing. */
    const formatNumber: Num -> string

    var products: seq<Product>
    /** The form's text fields, written directly by the text inputs. */
    var id: string
    var name: string
    var price: string
    var editingId: Option<string>
    var error: Option<string>

    /** The component's invariant: only well-formed products are ever stored. */
    predicate Valid()
      reads this
    {
      AllWellFormed(products)
    }

    /** Whether an edit is in progress, by JavaScript truthiness of `editingId`:
        `null` and the empty string both mean "not editing". */
    predicate Editing()
      reads this
    {
      editingId.Some? && editingId.value != ""
    }

    /** The form holds exactly these values. */
    predicate FormIs(i: string, n: string, p: string, e: Option<string>)
      reads this
    {
      id == i && name == n && price == p && editingId == e
    }

    /** The initial state: no products, an empty form, no edit and no error. */
    constructor (parse: string -> Num, format: Num -> string)
      ensures Valid()
      ensures parseNumber == parse && formatNumber == format
      ensures products == [] && FormIs("", "", "", None) && error == None
    {
      parseNumber, formatNumber := parse, format;
      products := [];
      id, name, price := "", "", "";
      editingId := None;
      error := None;
    }

    /** `resetForm`: empties the form, ends any edit and clears the error; the list
        is kept. Calling it on a state it already produced changes nothing. */
    method ResetForm()
      requires Valid()
      modifies this
      ensures Valid()
      ensures products == old(products)
      ensures FormIs("", "", "", None) && error == None
      ensures old(FormIs("", "", "", None) && error == None) ==> unchanged(this)
    {
      id := "";
      name := "";
      price := "";
      editingId := None;
      error := None;
    }

    /** `startEdit(product)`: marks `p` as being edited and copies its fields into
        the form (the price through `String`); the list is kept. */
    method StartEdit(p: Product)
      requires Valid()
      modifies this
      ensures Valid()
      ensures products == old(products)
      ensures FormIs(p.id, p.name, formatNumber(p.price), Some(p.id)) && error == None
    {
      editingId := Some(p.id);
      id := p.id;
      name := p.name;
      price := formatNumber(p.price);
      error := None;
    }

    /** The duplicate check of `saveProduct`: no edit is in progress and a stored
        product already has the trimmed form id. */
    predicate IsDuplicateCreate()
      reads this
    {
      !Editing() && HasId(products, Trim(id))
    }

    /** What `createProduct(id, name, Number(price))` makes of the current form. */
    function FormProduct(): (r: Result<Product, ProductError>)
      reads this
      ensures r.Failure? <==> Trim(name) == [] || !ValidPrice(parseNumber(price))
      ensures r.Success? ==>
        r.value.id == id && r.value.name == Trim(name) && r.value.price == parseNumber(price)
    {
      CreateProduct(id, name, parseNumber(price))
    }

    /** `saveProduct`. A duplicate create is reported without validating anything;
        otherwise the form is validated and a failure is reported with the
        validation message. On any failure only `error` changes. On success an edit
        replaces every product with the edited id, a create prepends, and the form
        is reset. */
    method SaveProduct()
      requires Valid()
      modifies this
      ensures Valid()
      ensures old(IsDuplicateCreate()) ==>
        error == Some(DuplicateIdMessage) && products == old(products) &&
        FormIs(old(id), old(name), old(price), old(editingId))
      ensures !old(IsDuplicateCreate()) && old(FormProduct()).Failure? ==>
        error == Some(old(FormProduct()).error.Message()) && products == old(products) &&
        FormIs(old(id), old(name), old(price), old(editingId))
      ensures !old(IsDuplicateCreate()) && old(FormProduct()).Success? ==>
        products == (if old(Editing()) then ReplaceById(old(products), old(editingId).value, old(FormProduct()).value)
                     else [old(FormProduct()).value] + old(products)) &&
        FormIs("", "", "", None) && error == None
      // A create from an unpadded id keeps ids distinct.
      ensures old(DistinctIds(products) && !Editing() && Trim(id) == id) ==> DistinctIds(products)
      // An update keeps ids distinct while the form id is the edited id.
      ensures old(DistinctIds(products) && Editing() && id == editingId.value) ==> DistinctIds(products)
    {
      error := None;
      if IsDuplicateCreate() {
        error := Some(DuplicateIdMessage);
        return;
      }
      var made := FormProduct();
      if made.Failure? {
        error := Some(made.error.Message());
        return;
      }
      var product := made.value;
      if Editing() {
        ReplaceWellFormed(products, editingId.value, product);
        if DistinctIds(products) && id == editingId.value {
          ReplaceDistinct(products, editingId.value, product);
        }
        products := ReplaceById(products, editingId.value, product);
      } else {
        PrependWellFormed(product, products);
        if DistinctIds(products) && Trim(id) == id {
          PrependDistinct(product, products);
        }
        products := [product] + products;
      }
      ResetForm();
    }

    /** `deleteProduct(x)`: keeps the products whose id is not `x`; if `x` is the
        edited id (strict equality, so an edit of `""` counts) the form is reset,
        otherwise the form and the error are kept. */
    method DeleteProduct(x: string)
      requires Valid()
      modifies this
      ensures Valid()
      ensures products == RemoveById(old(products), x)
      ensures old(editingId) == Some(x) ==> FormIs("", "", "", None) && error == None
      ensures old(editingId) != Some(x) ==>
        FormIs(old(id), old(name), old(price), old(editingId)) && error == old(error)
      ensures old(DistinctIds(products)) ==> DistinctIds(products)
    {
      RemoveWellFormed(products, x);
      if DistinctIds(products) {
        RemoveDistinct(products, x);
      }
      products := RemoveById(products, x);
      if editingId == Some(x) {
        ResetForm();
      }
    }
  }
}
