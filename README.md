# Product catalogue form: a Dafny model

This project models the logic of a small React Native app that keeps one list
of products. Each product has an id, a name and a price. The model covers two
pieces of code:

- `createProduct` (models/Product.ts). It trims the name and rejects it if
  nothing is left. It then rejects a price that is not finite or is negative.
  Otherwise it builds a product from the id as given, the trimmed name and the
  price.
- The event handlers of the `App` component (App.tsx): `resetForm`,
  `startEdit`, `saveProduct` and `deleteProduct`. They act on the component's
  state: the product list, the form's `id`, `name` and `price` text fields, the
  id being edited (`editingId`) and the error text shown under the form.

## Files

- `wrappers.dfy`: `Option` (TypeScript's `T | null`) and `Result`.
- `js_string.dfy`: JavaScript's `String.prototype.trim`. `IsWs` lists the
  code points ECMAScript counts as WhiteSpace or LineTerminator. `TrimSpec`
  states exactly which slice of the input `Trim` returns.
- `product.dfy`: the `Product` record, the price type, and `CreateProduct`.
  A price is a `Num`: either `Finite(r)` for a real `r`, or `NonFinite` for
  NaN and the two infinities. So `Number.isFinite(price) && price >= 0`
  becomes the predicate `ValidPrice`. `CreateProduct` returns
  `Failure(EmptyName)` or `Failure(InvalidPrice)` where the source throws.
  `ProductError.Message` gives the text of the error the source throws.
- `product_list.dfy`: the list rewrites inside the handlers, as functions.
  These are `some` (`HasId`), the `map` of an update (`ReplaceById`) and the
  `filter` of a delete (`RemoveById`). The file also has the facts these keep
  about well-formed products and distinct ids.
- `app.dfy`: the class `AppState`, with one field per piece of component state
  and one method per handler. Each handler runs to completion before the next
  starts. The text inputs write the public fields `id`, `name` and `price`
  directly. `Number(price)` and `String(product.price)` are the constructor
  parameters `parseNumber` and `formatNumber`.
- `scenarios.dfy`: client methods that run concrete flows through `AppState`
  using only its contracts. The flows are: create then duplicate, rejected
  inputs, edit then delete, a padded id, and an empty id.

## Behaviour the model reproduces

- "Editing" follows JavaScript truthiness. `Editing()` holds only when
  `editingId` is `Some(s)` with `s != ""`. `deleteProduct` instead compares
  with strict equality: an `editingId` of `""` is reset by deleting `""`.
- `saveProduct` skips the duplicate check while editing. When not editing, the
  check compares stored ids against the trimmed form id. The product itself is
  built from the untrimmed id. So ids without surrounding white space stay
  distinct (`SaveProduct`'s postcondition). A padded id such as `" a"` can be
  stored twice (`Scenarios.PaddedIdStoredTwice`).
- The duplicate check comes before validation, so a duplicate id is reported
  even when the name is blank.
- An update replaces every product whose id equals `editingId`. A delete
  removes every product with the given id.
- A product with id `""` can be created. `startEdit` on it does not count as
  an edit, so saving it fails the duplicate check
  (`Scenarios.EmptyIdCannotBeUpdated`).
- On any failure `saveProduct` changes only `error`.

Where the code departs from what a reader might expect:

- Errors are plain message strings: the two `createProduct` throws
  (models/Product.ts:12,15) and the one `saveProduct` sets for a duplicate id
  (App.tsx:44). `saveProduct` stores them in `error` (App.tsx:44,52).
- `deleteProduct` removes every product with the given id, not only the first
  (App.tsx:68).
- An update builds the new product from the form's `id` field (App.tsx:50),
  and it replaces the products whose id equals `editingId` (App.tsx:58). The
  two ids agree only because the id input is disabled while editing
  (App.tsx:95). `SaveProduct` therefore states distinctness for an update
  under the hypothesis `id == editingId.value`.
- Nothing in the code keeps ids unique. The padded-id case above breaks
  uniqueness. So the class invariant `Valid()` is only that every stored
  product is well-formed, and distinctness is stated conditionally.
- `startEdit` clears the error (App.tsx:36). `deleteProduct` keeps it unless
  it resets the form (App.tsx:70-72).

## Model

| member | source | states |
|---|---|---|
| `JsString.IsWs` | models/Product.ts:10 | The characters `trim` strips are ECMAScript's WhiteSpace and LineTerminator code points. Among ASCII these are exactly TAB, LF, VT, FF, CR and space; outside ASCII they are NBSP, the Unicode spaces and separators between U+1680 and U+3000, and BOM. |
| `JsString.Trim` | models/Product.ts:10 | `name.trim()`, also used as `id.trim()` at App.tsx:42. The result is never longer than the input and has no white space at either end. |
| `JsString.TrimStartSpec` | models/Product.ts:10 | Removing leading white space gives a suffix of the input. Everything removed is white space. What is left does not start with white space. |
| `JsString.TrimEndSpec` | models/Product.ts:10 | Removing trailing white space gives a prefix of the input. Everything removed is white space. What is left does not end with white space. |
| `JsString.TrimSpec` | models/Product.ts:10 | `trim` returns the slice between the leading and trailing runs of white space. The result has no white space at either end. It is empty exactly when the input is all white space. A trimmed input is returned unchanged, and trimming twice equals trimming once. |
| `JsString.TrimOfTrimmed` | models/Product.ts:10 | A string with no white space at either end is its own trim. |
| `ProductModel.ValidPrice` | models/Product.ts:14 | The definition of `Number.isFinite(price) && price >= 0`, the negation of the rejecting guard at line 14. Its consequences are stated by `CreateProduct`. |
| `ProductModel.ProductError.Message` | models/Product.ts:12-15 | The two thrown texts. "Product name must not be empty" is the message of `EmptyName` and only of it; "Product price must be a non-negative" is the message of `InvalidPrice` and only of it. |
| `ProductModel.CreateProduct` | models/Product.ts:9-19 | Fails exactly when the trimmed name is empty or the price is invalid. A name that trims to empty gives `EmptyName`, even when the price is also invalid, because the name is checked first. A valid name with a NaN, infinite or negative price gives `InvalidPrice`. On success the id is the input id verbatim, the name is `trim(name)` and the price is the input price, and the product is well-formed. |
| `ProductModel.RevalidateIff` | models/Product.ts:10-18 | Passing a product's own fields back to `createProduct` returns that same product exactly when the product is well-formed. |
| `ProductModel.CreateProductRevalidates` | models/Product.ts:10-18 | Re-validating the fields of any product `createProduct` returned gives the same product back, because `trim` is idempotent. |
| `ProductModel.ZeroPriceAccepted` | models/Product.ts:14-16 | A price of exactly 0 is accepted; with it, creation fails only on an empty trimmed name. |
| `ProductList.HasId` | App.tsx:43 | `products.some(p => p.id === x)` is true exactly when some position holds a product with id `x`. |
| `ProductList.ReplaceById` | App.tsx:57-59 | The update's `map` keeps the length and order. Every element whose id equals the edited id becomes the new product. Every other element is untouched. |
| `ProductList.RemoveById` | App.tsx:68 | The delete's `filter` keeps exactly the products whose id differs from `x`. It shortens the list when `x` is present and returns the list unchanged when it is not. |
| `ProductList.RemoveByIdAppend` | App.tsx:68 | Filtering distributes over concatenation, so the products that survive keep their original relative order. |
| `ProductList.PrependWellFormed` | App.tsx:61 | Prepending a well-formed product keeps every stored product well-formed. |
| `ProductList.ReplaceWellFormed` | App.tsx:57-59 | An update with a well-formed product keeps every stored product well-formed. |
| `ProductList.RemoveWellFormed` | App.tsx:68 | A delete keeps every stored product well-formed. |
| `ProductList.PrependDistinct` | App.tsx:61 | Prepending a product whose id is not yet stored keeps ids pairwise distinct. |
| `ProductList.ReplaceDistinct` | App.tsx:57-59 | Replacing the products with id `x` by a product whose id is `x` keeps ids pairwise distinct. |
| `ProductList.RemoveDistinct` | App.tsx:68 | A delete keeps pairwise distinct ids distinct. |
| `ProductList.ReplaceSelf` | App.tsx:56-59 | A fact about the `map` alone: with distinct ids, updating with a stored product itself leaves the list unchanged. `Scenarios.ResaveUnchanged` uses it for the whole `startEdit`-then-save flow. |
| `App.ErrorMessagesDistinct` | App.tsx:44 | The duplicate-id text "Product ID already exists" (`DuplicateIdMessage`) differs from both validation messages, and those differ from each other, so the error shown tells which check failed. |
| `App.AppState.Editing` | App.tsx:43 | The definition of the truthiness test on `editingId` (`!editingId` at App.tsx:43, `if (editingId)` at App.tsx:56): an edit is in progress when `editingId` is a non-empty string. Its consequences are stated by `SaveProduct`. |
| `App.AppState.IsDuplicateCreate` | App.tsx:42-43 | The definition of the guard at App.tsx:42-43: not editing, and `HasId` finds the trimmed form id among the stored products. Its consequences are stated by `SaveProduct`. |
| `App.AppState.FormProduct` | App.tsx:50 | `createProduct(id, name, Number(price))` on the current form. It fails exactly when the trimmed name is empty or the parsed price is invalid. On success it carries the form id verbatim, the trimmed name and the parsed price. |
| `App.AppState.constructor` | App.tsx:16-21 | The initial state is: no products, all three text fields empty, no edit, no error. |
| `App.AppState.ResetForm` | App.tsx:23-29 | Empties the three fields, clears `editingId` and `error`, and keeps the list and validity. On a state it produced it changes nothing, so it is idempotent. |
| `App.AppState.StartEdit` | App.tsx:31-37 | Sets `editingId` and `id` to `p.id`, `name` to `p.name` and `price` to `String(p.price)`. Clears the error and leaves the list untouched. |
| `App.AppState.SaveProduct` | App.tsx:39-65 | Duplicate case (not editing and the trimmed form id is stored): the error is "Product ID already exists", and the list and form are unchanged. Validation failure: the error is the `createProduct` message, and the list and form are unchanged. Success: an update replaces every product with the edited id, a create prepends the new product, and in both cases the form and error are cleared. Validity is preserved. Ids stay distinct on a create from an unpadded id, and on an update whose form id is the edited id. |
| `App.AppState.DeleteProduct` | App.tsx:67-73 | The new list keeps exactly the products whose id differs from `x`. The form and error are reset when `editingId` is exactly `x`, and are kept otherwise. Validity and distinct ids are preserved. |
| `Scenarios.CreateThenDuplicate` | App.tsx:39-65 | Creating `sku-1` stores `[{sku-1, Cable, 12.99}]` and leaves no error. Creating `sku-1` again reports the duplicate and leaves that list. |
| `Scenarios.RejectedInputs` | App.tsx:49-54 | A blank name is reported as the empty-name error whatever the price text parses to. A negative price is reported as the price error. Nothing is stored. |
| `Scenarios.EditThenDelete` | App.tsx:31-73 | Create, edit the price and save: the list holds the product with the new price, and the edit has ended. Deleting the product while editing it empties the list and ends that edit. |
| `Scenarios.PaddedIdStoredTwice` | App.tsx:42-61 | Creating the padded id `" a"` twice stores two products with the same id. |
| `Scenarios.EmptyIdCannotBeUpdated` | App.tsx:43-56 | A product with id `""` can be created. Re-saving it after `startEdit` fails the duplicate check and leaves the list as it was. |
| `Scenarios.ResaveUnchanged` | App.tsx:31-65 | Suppose ids are distinct, the product is stored, its id is non-empty, and `Number(String(price))` gives its price back. Then `startEdit` on it followed by an unchanged `saveProduct` leaves the list as it was and clears the form, the edit and the error. |

## Left out

- db.ts: asynchronous SQLite access (lazy handle, transactions, cached init). It is I/O and nothing in App.tsx calls it.
- `handleCardPress` (App.tsx:75-82): it only logs and reads a platform event, with no state effect.
- The JSX, the `FlatList`, the `StyleSheet` and the `toFixed(2)` price display (App.tsx:84-211).
- The text inputs' `onChangeText` wiring: the model's callers assign the form fields directly.
- The disabled id input while editing (`editable={!editingId}`): the model does not stop a caller from changing `id` during an edit. This is why the update-distinctness clause of `SaveProduct` assumes `id == editingId.value`.
- `Number(price)` and `String(product.price)`: they are the parameters `parseNumber` and `formatNumber`, not a model of JavaScript number parsing or printing.
- IEEE-754 arithmetic: `Num` keeps a finite price as a real and folds NaN and both infinities into `NonFinite`. Negative zero is `Finite(0.0)`, which JavaScript also accepts.
- JavaScript strings are UTF-16 code units; here a string is a sequence of Unicode scalar values.
- The fallback text `'Invalid input'` (App.tsx:52): it is unreachable because `createProduct` only throws `Error` objects, so the model always reports the thrown message.
- React's scheduling and batching of state updates and functional updaters: each handler is modelled as running to completion, in order, on the current state.
