/**
 * The `Product` record and its validating factory `createProduct`
 * (models/Product.ts).
 */
module ProductModel {
  import opened Wrappers
  import opened JsString

  /** A JavaScript number as far as validation can tell: a finite value, or one
      of NaN, Infinity and -Infinity. */
  datatype Num = Finite(r: real) | NonFinite

  /** `Number.isFinite(price) && price >= 0`. */
  predicate ValidPrice(n: Num) {
    n.Finite? && n.r >= 0.0
  }

  /** A product: an identifier, a display name and a price. */
  datatype Product = Product(id: string, name: string, price: Num)

  /** What every product built by `CreateProduct` satisfies: its name is non-empty
      and carries no surrounding white space, and its price is finite and >= 0. */
  predicate WellFormed(p: Product) {
    p.name != [] && IsTrimmed(p.name) && ValidPrice(p.price)
  }

  /** The two ways `createProduct` can fail, in the order it checks them. */
  datatype ProductError = EmptyName | InvalidPrice {
    /** The `message` of the `Error` that `createProduct` throws; each text names
        exactly one of the two errors. */
    function Message(): (r: string)
      ensures r == "Product name must not be empty" <==> this == EmptyName
      ensures r == "Product price must be a non-negative" <==> this == InvalidPrice
    {
      match this
      case EmptyName => "Product name must not be empty"
      case InvalidPrice => "Product price must be a non-negative"
    }
  }

  /** `createProduct(id, name, price)`: rejects a name that trims to nothing, then a
      price that is not finite or negative; otherwise builds the product from the id
      as given, the trimmed name and the price as given. */
  function CreateProduct(id: string, name: string, price: Num): (r: Result<Product, ProductError>)
    ensures r.Failure? <==> Trim(name) == [] || !ValidPrice(price)
    ensures Trim(name) == [] ==> r == Failure(EmptyName)
    ensures Trim(name) != [] && !ValidPrice(price) ==> r == Failure(InvalidPrice)
    ensures r.Success? ==> WellFormed(r.value)
    ensures r.Success? ==> r.value.id == id && r.value.name == Trim(name) && r.value.price == price
  {
    TrimSpec(name);
    var trimmedName := Trim(name);
    if trimmedName == [] then
      Failure(EmptyName)
    else if !ValidPrice(price) then
      Failure(InvalidPrice)
    else
      Success(Product(id, trimmedName, price))
  }

  /** Only well-formed products pass validation, and feeding a product's own fields
      back to `CreateProduct` rebuilds exactly that product. */
  lemma RevalidateIff(p: Product)
    ensures CreateProduct(p.id, p.name, p.price) == Success(p) <==> WellFormed(p)
  {
    if WellFormed(p) {
      TrimOfTrimmed(p.name);
    }
  }

  /** Re-validating the fields of a product that `CreateProduct` returned gives the
      same product back. */
  lemma {:induction false} CreateProductRevalidates(id: string, name: string, price: Num)
    requires CreateProduct(id, name, price).Success?
    ensures var p := CreateProduct(id, name, price).value;
      CreateProduct(p.id, p.name, p.price) == Success(p)
  {
    RevalidateIff(CreateProduct(id, name, price).value);
  }

  /** A price of exactly zero is accepted, whatever the sign conventions elsewhere. */
  lemma ZeroPriceAccepted(id: string, name: string)
    ensures CreateProduct(id, name, Finite(0.0)).Success? <==> Trim(name) != []
  {
  }
}
