/**
 * Concrete user flows through the `App` component, each as a client of
 * `AppState` that relies only on the handlers' contracts. The number parser
 * is a parameter; each flow states what it needs of it.
 */
module Scenarios {
  import opened Wrappers
  import opened JsString
  import opened ProductModel
  import opened ProductList
  import opened App

  /** What `CreateProduct` makes of fields that are already valid. */
  lemma Accepted(id: string, n: string, x: Num)
    requires n != [] && IsTrimmed(n) && ValidPrice(x)
    ensures CreateProduct(id, n, x) == Success(Product(id, n, x))
  {
  }

  /** Creating "sku-1" twice: the first create stores it without an error, the
      second reports the duplicate and leaves the list with the first product only. */
  method CreateThenDuplicate(parse: string -> Num, format: Num -> string)
    returns (first: seq<Product>, firstErr: Option<string>, second: seq<Product>, err: Option<string>)
    requires parse("12.99") == Finite(12.99)
    ensures first == [Product("sku-1", "Cable", Finite(12.99))] && firstErr == None
    ensures second == first && err == Some(DuplicateIdMessage)
  {
    var app := new AppState(parse, format);
    app.id, app.name, app.price := "sku-1", "Cable", "12.99";
    Accepted("sku-1", "Cable", Finite(12.99));
    app.SaveProduct();
    first, firstErr := app.products, app.error;
    app.id, app.name, app.price := "sku-1", "Other", "5";
    assert Trim("sku-1") == "sku-1" by { assert IsTrimmed("sku-1"); }
    assert HasId(first, "sku-1") by { assert first[0].id == "sku-1"; }
    app.SaveProduct();
    second, err := app.products, app.error;
  }

  /** A blank name is reported before the price is looked at, whatever it parses
      to; a negative price with a proper name is reported as a price error. */
  method RejectedInputs(parse: string -> Num, format: Num -> string)
    returns (blankName: Option<string>, negativePrice: Option<string>, ps: seq<Product>)
    requires parse("-1") == Finite(-1.0)
    ensures blankName == Some(EmptyName.Message())
    ensures negativePrice == Some(InvalidPrice.Message())
    ensures ps == []
  {
    var app := new AppState(parse, format);
    app.id, app.name, app.price := "sku-2", "  ", "3";
    assert Trim("  ") == [] by { assert forall i :: 0 <= i < |"  "| ==> IsWs("  "[i]); }
    app.SaveProduct();
    blankName := app.error;
    app.id, app.name, app.price := "sku-3", "Widget", "-1";
    assert Trim("Widget") == "Widget" by { assert IsTrimmed("Widget"); }
    app.SaveProduct();
    negativePrice, ps := app.error, app.products;
  }

  /** Create, edit the price, save: the single product carries the new price and
      the edit ends. Deleting it while it is being edited again ends that edit. */
  method EditThenDelete(parse: string -> Num, format: Num -> string)
    returns (edited: seq<Product>, editAfterSave: Option<string>,
             afterDelete: seq<Product>, editAfterDelete: Option<string>)
    requires parse("10") == Finite(10.0) && parse("20") == Finite(20.0)
    ensures edited == [Product("sku-4", "Widget", Finite(20.0))] && editAfterSave == None
    ensures afterDelete == [] && editAfterDelete == None
  {
    var app := new AppState(parse, format);
    app.id, app.name, app.price := "sku-4", "Widget", "10";
    var created := Product("sku-4", "Widget", Finite(10.0));
    Accepted("sku-4", "Widget", Finite(10.0));
    assert !app.IsDuplicateCreate() && app.FormProduct() == Success(created);
    app.SaveProduct();
    assert app.products == [created];
    app.StartEdit(created);
    assert app.Editing() && app.editingId.value == "sku-4";
    app.price := "20";
    var updated := Product("sku-4", "Widget", Finite(20.0));
    Accepted("sku-4", "Widget", Finite(20.0));
    assert !app.IsDuplicateCreate() && app.FormProduct() == Success(updated);
    app.SaveProduct();
    assert app.products == ReplaceById([created], "sku-4", updated);
    edited, editAfterSave := app.products, app.editingId;
    app.StartEdit(updated);
    app.DeleteProduct("sku-4");
    assert HasId(edited, "sku-4") && |app.products| < 1;
    afterDelete, editAfterDelete := app.products, app.editingId;
  }

  /** The duplicate check compares stored ids with the trimmed form id while the
      product keeps the untrimmed one, so creating " a" twice stores it twice. */
  method PaddedIdStoredTwice(parse: string -> Num, format: Num -> string)
    returns (ps: seq<Product>)
    requires parse("1") == Finite(1.0)
    ensures |ps| == 2 && ps[0].id == ps[1].id == " a"
  {
    var app := new AppState(parse, format);
    app.id, app.name, app.price := " a", "x", "1";
    Accepted(" a", "x", Finite(1.0));
    app.SaveProduct();
    app.id, app.name, app.price := " a", "x", "1";
    assert Trim(" a") == "a" by { assert TrimStart(" a") == "a"; }
    app.SaveProduct();
    ps := app.products;
  }

  /** A product whose id is "" can be created, but editing it does not count as an
      edit (the empty string is falsy), so saving it hits the duplicate check. */
  method EmptyIdCannotBeUpdated(parse: string -> Num, format: Num -> string)
    returns (ps: seq<Product>, err: Option<string>)
    requires parse("1") == Finite(1.0)
    ensures ps == [Product("", "x", Finite(1.0))]
    ensures err == Some(DuplicateIdMessage)
  {
    var app := new AppState(parse, format);
    app.id, app.name, app.price := "", "x", "1";
    Accepted("", "x", Finite(1.0));
    app.SaveProduct();
    app.StartEdit(app.products[0]);
    assert HasId(app.products, Trim(""));
    app.SaveProduct();
    ps, err := app.products, app.error;
  }

  /** Editing a stored product and saving it without changes leaves the list as it
      was and ends the edit, provided `Number(String(price))` gives the price back
      and the stored ids are distinct. The id must be non-empty, since an empty id
      does not count as an edit. */
  method ResaveUnchanged(app: AppState, p: Product)
    requires app.Valid() && DistinctIds(app.products) && p in app.products
    requires p.id != "" && app.parseNumber(app.formatNumber(p.price)) == p.price
    modifies app
    ensures app.products == old(app.products)
    ensures app.FormIs("", "", "", None) && app.error == None
  {
    app.StartEdit(p);
    assert WellFormed(p);
    RevalidateIff(p);
    assert app.FormProduct() == Success(p);
    ReplaceSelf(app.products, p);
    app.SaveProduct();
  }
}
