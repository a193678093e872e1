/** Catalog rules: the partial update of a product and the two product listings. */
module Catalog {
  import opened Entities
  import Listing

  /** How many products the latest-products listing returns at most. */
  const LatestCount := 6

  /** The fields of a product update request. A string field that is absent is the
      empty string; a number field that is absent is `None`. */
  datatype Patch = Patch(
    name: string,
    price: Option<int>,
    quantity: Option<int>,
    status: string,
    description: string)

  /** A request value counts as given only when it is truthy: a non-empty string, a non-zero number. */
  predicate GivenText(s: string) {
    s != ""
  }

  predicate GivenNumber(v: Option<int>) {
    v.Some? && v.value != 0
  }

  /** The product after the update request's fields are merged into it; `slugify` is the
      slug generator, which the model does not see into. */
  function Patched(p: Product, patch: Patch, slugify: string -> string): Product {
    p.(name := if GivenText(patch.name) then patch.name else p.name,
       slug := if GivenText(patch.name) then slugify(patch.name) else p.slug,
       price := if GivenNumber(patch.price) then patch.price.value else p.price,
       quantity := if GivenNumber(patch.quantity) then patch.quantity.value else p.quantity,
       status := if GivenText(patch.status) then patch.status else p.status,
       description := if GivenText(patch.description) then patch.description else p.description)
  }

  /** The update request that `b` and `a` amount to together: each truthy field of `b`
      wins, and `a`'s field stands otherwise. */
  function Over(a: Patch, b: Patch): Patch {
    Patch(if GivenText(b.name) then b.name else a.name,
          if GivenNumber(b.price) then b.price else a.price,
          if GivenNumber(b.quantity) then b.quantity else a.quantity,
          if GivenText(b.status) then b.status else a.status,
          if GivenText(b.description) then b.description else a.description)
  }

  /** Two updates in a row have the effect of the single combined update. */
  lemma PatchesCompose(p: Product, a: Patch, b: Patch, slugify: string -> string)
    ensures Patched(Patched(p, a, slugify), b, slugify) == Patched(p, Over(a, b), slugify)
  {
  }

  /** No update whose price and quantity arrive as numbers can set either to zero: a result
      of zero means it was zero before. (A form-encoded request carries "0" as a non-empty
      string, which passes the truthiness test; the model's numbers do not cover that.) */
  lemma ZeroCannotBeSet(p: Product, patch: Patch, slugify: string -> string)
    ensures Patched(p, patch, slugify).quantity == 0 ==> p.quantity == 0
    ensures Patched(p, patch, slugify).price == 0 ==> p.price == 0
  {
  }

  /** Sending the same update twice has the effect of sending it once. */
  lemma PatchedIdempotent(p: Product, patch: Patch, slugify: string -> string)
    ensures Patched(Patched(p, patch, slugify), patch, slugify) == Patched(p, patch, slugify)
  {
    PatchesCompose(p, patch, patch, slugify);
    assert Over(patch, patch) == patch;
  }

  /** An update with no truthy field, including one that supplies nothing at all, leaves
      the product as it was. */
  lemma EmptyPatchIsIdentity(p: Product, patch: Patch, slugify: string -> string)
    requires !GivenText(patch.name) && !GivenNumber(patch.price) && !GivenNumber(patch.quantity)
    requires !GivenText(patch.status) && !GivenText(patch.description)
    ensures Patched(p, patch, slugify) == p
  {
  }

  /** The ids of the products filed under category `c`. */
  function InCategory(products: map<Id, Product>, c: Id): (r: set<Id>)
    ensures r <= products.Keys
  {
    set id | id in products && products[id].category == c
  }

  /** Updating a product never moves it between category listings: every listing is the
      same before and after the merge. */
  lemma UpdateKeepsCategoryListings(products: map<Id, Product>, id: Id, patch: Patch,
                                    slugify: string -> string, c: Id)
    requires id in products
    ensures InCategory(products[id := Patched(products[id], patch, slugify)], c) == InCategory(products, c)
  {
  }

  /** Deleting a product takes it out of its own category's listing and changes no other. */
  lemma DeleteLeavesOtherListings(products: map<Id, Product>, id: Id, c: Id)
    requires id in products
    ensures InCategory(products - {id}, c) ==
      (if c == products[id].category then InCategory(products, c) - {id} else InCategory(products, c))
  {
  }

  /** The ids of at most six products, newest first; `bound` is above every product id. */
  function Latest(products: map<Id, Product>, bound: nat): seq<Id>
    requires forall id :: id in products ==> id < bound
  {
    Listing.Take(Listing.NewestFirst(products.Keys, bound), LatestCount)
  }

  /** The latest listing holds six products, or all of them when there are fewer, newest
      first, and every product it leaves out is older than every product it shows. */
  lemma {:induction false} LatestAreNewest(products: map<Id, Product>, bound: nat)
    requires forall id :: id in products ==> id < bound
    ensures var r := Latest(products, bound);
      && |r| == (if |products| < LatestCount then |products| else LatestCount)
      && (forall i, j :: 0 <= i < j < |r| ==> r[i] > r[j])
      && (forall id :: id in r ==> id in products)
      && (forall older, shown :: older in products && older !in r && shown in r ==> older < shown)
  {
    assert |products.Keys| == |products|;
    Listing.TakeNewest(products.Keys, bound, LatestCount);
  }
}
