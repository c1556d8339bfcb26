/**
 * The list rewrites the `App` component performs on its product list
 * (App.tsx): `some` for the duplicate check, `map` for an update, `filter`
 * for a delete, and the facts about identifiers and validity they keep.
 */
module ProductList {
  import opened ProductModel

  /** `products.some(p => p.id === x)`. */
  function HasId(ps: seq<Product>, x: string): (r: bool)
    ensures r <==> exists i :: 0 <= i < |ps| && ps[i].id == x
  {
    if ps == [] then false else ps[0].id == x || HasId(ps[1..], x)
  }

  /** `items.map(q => q.id === x ? p : q)`: same length and order, every element
      whose id is `x` becomes `p`, every other element stays where it was. */
  function ReplaceById(ps: seq<Product>, x: string, p: Product): (r: seq<Product>)
    ensures |r| == |ps|
    ensures forall i :: 0 <= i < |ps| ==> r[i] == (if ps[i].id == x then p else ps[i])
  {
    if ps == [] then [] else [if ps[0].id == x then p else ps[0]] + ReplaceById(ps[1..], x, p)
  }

  /** `products.filter(q => q.id !== x)`: it keeps exactly the elements whose id
      is not `x`; it shrinks the list when `x` is present and is the identity when
      it is not. */
  function RemoveById(ps: seq<Product>, x: string): (r: seq<Product>)
    ensures forall q :: q in r <==> q in ps && q.id != x
    ensures HasId(ps, x) ==> |r| < |ps|
    ensures !HasId(ps, x) ==> r == ps
  {
    if ps == [] then []
    else if ps[0].id == x then RemoveById(ps[1..], x)
    else [ps[0]] + RemoveById(ps[1..], x)
  }

  /** Filtering distributes over concatenation, so the survivors keep the
      relative order they had in the original list. */
  lemma {:induction false} RemoveByIdAppend(a: seq<Product>, b: seq<Product>, x: string)
    ensures RemoveById(a + b, x) == RemoveById(a, x) + RemoveById(b, x)
  {
    if a == [] {
      assert a + b == b;
    } else {
      assert (a + b)[1..] == a[1..] + b;
      RemoveByIdAppend(a[1..], b, x);
    }
  }

  /** Every stored product is well-formed. */
  predicate AllWellFormed(ps: seq<Product>) {
    forall i :: 0 <= i < |ps| ==> WellFormed(ps[i])
  }

  /** No two stored products share an id. */
  predicate DistinctIds(ps: seq<Product>) {
    forall i, j :: 0 <= i < j < |ps| ==> ps[i].id != ps[j].id
  }

  /** Prepending a well-formed product keeps the list well-formed. */
  lemma PrependWellFormed(p: Product, ps: seq<Product>)
    requires WellFormed(p) && AllWellFormed(ps)
    ensures AllWellFormed([p] + ps)
  {
  }

  /** Replacing by a well-formed product keeps the list well-formed. */
  lemma ReplaceWellFormed(ps: seq<Product>, x: string, p: Product)
    requires WellFormed(p) && AllWellFormed(ps)
    ensures AllWellFormed(ReplaceById(ps, x, p))
  {
  }

  /** Deleting keeps the list well-formed. */
  lemma RemoveWellFormed(ps: seq<Product>, x: string)
    requires AllWellFormed(ps)
    ensures AllWellFormed(RemoveById(ps, x))
  {
    var r := RemoveById(ps, x);
    forall i | 0 <= i < |r| ensures WellFormed(r[i]) {
      assert r[i] in ps;
    }
  }

  /** A list with distinct ids stays so when a product with a new id is prepended. */
  lemma PrependDistinct(p: Product, ps: seq<Product>)
    requires DistinctIds(ps) && !HasId(ps, p.id)
    ensures DistinctIds([p] + ps)
  {
    var r := [p] + ps;
    forall i, j | 0 <= i < j < |r| ensures r[i].id != r[j].id {
      if i == 0 {
        assert r[j] == ps[j - 1];
      }
    }
  }

  /** Replacing every element with id `x` by a product whose id is `x` leaves the
      ids, position by position, as they were; so distinctness is kept. */
  lemma ReplaceDistinct(ps: seq<Product>, x: string, p: Product)
    requires DistinctIds(ps) && p.id == x
    ensures DistinctIds(ReplaceById(ps, x, p))
  {
    var r := ReplaceById(ps, x, p);
    assert forall i :: 0 <= i < |ps| ==> r[i].id == ps[i].id;
  }

  /** A list headed by `h` has distinct ids exactly when its tail does and no
      product in the tail has `h`'s id. */
  lemma DistinctCons(h: Product, t: seq<Product>)
    ensures DistinctIds([h] + t) <==> DistinctIds(t) && forall q :: q in t ==> q.id != h.id
  {
    var r := [h] + t;
    if DistinctIds(r) {
      forall i, j | 0 <= i < j < |t| ensures t[i].id != t[j].id {
        assert t[i] == r[i + 1] && t[j] == r[j + 1];
      }
      forall q | q in t ensures q.id != h.id {
        var k :| 0 <= k < |t| && t[k] == q;
        assert r[0] == h && r[k + 1] == q;
      }
    }
    if DistinctIds(t) && forall q :: q in t ==> q.id != h.id {
      forall i, j | 0 <= i < j < |r| ensures r[i].id != r[j].id {
        assert r[j] == t[j - 1];
        if i > 0 { assert r[i] == t[i - 1]; }
      }
    }
  }

  /** Deleting keeps distinct ids distinct. */
  lemma {:induction false} RemoveDistinct(ps: seq<Product>, x: string)
    requires DistinctIds(ps)
    ensures DistinctIds(RemoveById(ps, x))
  {
    if ps != [] {
      var h, t := ps[0], ps[1..];
      assert ps == [h] + t;
      DistinctCons(h, t);
      RemoveDistinct(t, x);
      if h.id != x {
        DistinctCons(h, RemoveById(t, x));
      }
    }
  }

  /** With distinct ids, re-saving a stored product unchanged leaves the list as it
      was: the only element with that id is the product itself. */
  lemma ReplaceSelf(ps: seq<Product>, p: Product)
    requires DistinctIds(ps) && p in ps
    ensures ReplaceById(ps, p.id, p) == ps
  {
    var r := ReplaceById(ps, p.id, p);
    var k :| 0 <= k < |ps| && ps[k] == p;
    forall i | 0 <= i < |ps| ensures r[i] == ps[i] {
      if ps[i].id == p.id {
        assert i == k;
      }
    }
  }
}
