/** Stock accounting of the order workflow. Placing an order takes units out of a
    product's stock, and cancelling or deleting it puts them back. The ledger below
    says what that bookkeeping should keep: for every product, the units on the shelf
    plus the units held by orders that are not cancelled stay equal to the units the
    catalog put into stock (`supply`). */
module Stock {
  import opened Entities

  /** Units of product `p` that order `o` holds: its quantity, unless it is for
      another product or has been cancelled. */
  function Held(o: Order, p: Id): int {
    if o.productId == p && o.status != Cancelled then o.qty else 0
  }

  ghost function SumHeld(orders: map<Id, Order>, p: Id, keys: set<Id>): int
    requires keys <= orders.Keys
    decreases keys
  {
    if keys == {} then 0
    else
      var k :| k in keys;
      Held(orders[k], p) + SumHeld(orders, p, keys - {k})
  }

  /** Units of product `p` held by all orders. */
  ghost function Outstanding(orders: map<Id, Order>, p: Id): int {
    SumHeld(orders, p, orders.Keys)
  }

  ghost predicate Balanced(products: map<Id, Product>, orders: map<Id, Order>, supply: map<Id, int>) {
    forall p :: p in products ==>
      p in supply && products[p].quantity + Outstanding(orders, p) == supply[p]
  }

  /** The product table after `qty` units of product `p` are taken out of stock. */
  function Reserve(products: map<Id, Product>, p: Id, qty: int): (r: map<Id, Product>)
    requires p in products
    ensures r.Keys == products.Keys
    ensures r[p] == products[p].(quantity := products[p].quantity - qty)
    ensures forall q :: q in products && q != p ==> r[q] == products[q]
  {
    products[p := products[p].(quantity := products[p].quantity - qty)]
  }

  /** The product table after `qty` units of product `p` are put back into stock. */
  function Restock(products: map<Id, Product>, p: Id, qty: int): (r: map<Id, Product>)
    requires p in products
    ensures r.Keys == products.Keys
    ensures r[p] == products[p].(quantity := products[p].quantity + qty)
    ensures forall q :: q in products && q != p ==> r[q] == products[q]
  {
    products[p := products[p].(quantity := products[p].quantity + qty)]
  }

  /** The sum does not depend on which key is taken out first. */
  lemma {:induction false} SumHeldPick(orders: map<Id, Order>, p: Id, keys: set<Id>, k: Id)
    requires keys <= orders.Keys && k in keys
    ensures SumHeld(orders, p, keys) == Held(orders[k], p) + SumHeld(orders, p, keys - {k})
    decreases keys
  {
    var j :| j in keys && SumHeld(orders, p, keys) == Held(orders[j], p) + SumHeld(orders, p, keys - {j});
    if j != k {
      SumHeldPick(orders, p, keys - {j}, k);
      SumHeldPick(orders, p, keys - {k}, j);
      assert keys - {j} - {k} == keys - {k} - {j};
    }
  }

  /** The sum only reads the orders it ranges over. */
  lemma {:induction false} SumHeldFrame(orders: map<Id, Order>, orders': map<Id, Order>, p: Id, keys: set<Id>)
    requires keys <= orders.Keys && keys <= orders'.Keys
    requires forall k :: k in keys ==> orders[k] == orders'[k]
    ensures SumHeld(orders, p, keys) == SumHeld(orders', p, keys)
    decreases keys
  {
    if keys != {} {
      var k :| k in keys;
      SumHeldPick(orders, p, keys, k);
      SumHeldPick(orders', p, keys, k);
      SumHeldFrame(orders, orders', p, keys - {k});
    }
  }

  /** Replacing or adding order `k` changes what is held by exactly the difference. */
  lemma OutstandingUpdate(orders: map<Id, Order>, k: Id, o: Order, p: Id)
    ensures Outstanding(orders[k := o], p) ==
      Outstanding(orders, p) - (if k in orders then Held(orders[k], p) else 0) + Held(o, p)
  {
    var after := orders[k := o];
    var rest := orders.Keys - {k};
    SumHeldPick(after, p, after.Keys, k);
    assert after.Keys - {k} == rest;
    SumHeldFrame(after, orders, p, rest);
    if k in orders {
      SumHeldPick(orders, p, orders.Keys, k);
    } else {
      assert orders.Keys == rest;
    }
  }

  /** Removing order `k` releases exactly what it held. */
  lemma OutstandingRemove(orders: map<Id, Order>, k: Id, p: Id)
    requires k in orders
    ensures Outstanding(orders - {k}, p) == Outstanding(orders, p) - Held(orders[k], p)
  {
    var after := orders - {k};
    SumHeldPick(orders, p, orders.Keys, k);
    assert after.Keys == orders.Keys - {k};
    SumHeldFrame(after, orders, p, after.Keys);
  }

  /** Placing an order (not itself cancelled) for a listed product under a new id keeps
      the ledger balanced. */
  lemma PlaceKeepsBalance(products: map<Id, Product>, orders: map<Id, Order>, supply: map<Id, int>, k: Id, o: Order)
    requires Balanced(products, orders, supply)
    requires k !in orders && o.productId in products && o.status != Cancelled
    ensures Balanced(Reserve(products, o.productId, o.qty), orders[k := o], supply)
  {
    var after := Reserve(products, o.productId, o.qty);
    forall p | p in after
      ensures p in supply && after[p].quantity + Outstanding(orders[k := o], p) == supply[p]
    {
      OutstandingUpdate(orders, k, o, p);
    }
  }

  /** Cancelling an order that is not cancelled yet, and putting its units back, keeps the
      ledger balanced. */
  lemma CancelKeepsBalance(products: map<Id, Product>, orders: map<Id, Order>, supply: map<Id, int>, k: Id)
    requires Balanced(products, orders, supply)
    requires k in orders && orders[k].productId in products && orders[k].status != Cancelled
    ensures Balanced(Restock(products, orders[k].productId, orders[k].qty),
                     orders[k := orders[k].(status := Cancelled)], supply)
  {
    var o := orders[k];
    var after := Restock(products, o.productId, o.qty);
    forall p | p in after
      ensures p in supply && after[p].quantity + Outstanding(orders[k := o.(status := Cancelled)], p) == supply[p]
    {
      OutstandingUpdate(orders, k, o.(status := Cancelled), p);
    }
  }

  /** Cancelling an order that is already cancelled and putting its units back again
      unbalances the ledger of its product by exactly its quantity. */
  lemma RecancelBreaksBalance(products: map<Id, Product>, orders: map<Id, Order>, supply: map<Id, int>, k: Id)
    requires Balanced(products, orders, supply)
    requires k in orders && orders[k].productId in products && orders[k].status == Cancelled
    ensures var o := orders[k];
      var after := Restock(products, o.productId, o.qty);
      after[o.productId].quantity + Outstanding(orders[k := o.(status := Cancelled)], o.productId)
        == supply[o.productId] + o.qty
  {
    var o := orders[k];
    OutstandingUpdate(orders, k, o.(status := Cancelled), o.productId);
  }

  /** Deleting an order that is not cancelled and putting its units back keeps the ledger
      balanced. */
  lemma DeleteKeepsBalance(products: map<Id, Product>, orders: map<Id, Order>, supply: map<Id, int>, k: Id)
    requires Balanced(products, orders, supply)
    requires k in orders && orders[k].productId in products && orders[k].status != Cancelled
    ensures Balanced(Restock(products, orders[k].productId, orders[k].qty), orders - {k}, supply)
  {
    var o := orders[k];
    var after := Restock(products, o.productId, o.qty);
    forall p | p in after
      ensures p in supply && after[p].quantity + Outstanding(orders - {k}, p) == supply[p]
    {
      OutstandingRemove(orders, k, p);
    }
  }

  /** Deleting a cancelled order and putting its units back unbalances the ledger of its
      product by exactly its quantity: those units were already returned on cancellation. */
  lemma DeleteCancelledBreaksBalance(products: map<Id, Product>, orders: map<Id, Order>, supply: map<Id, int>, k: Id)
    requires Balanced(products, orders, supply)
    requires k in orders && orders[k].productId in products && orders[k].status == Cancelled
    ensures var o := orders[k];
      var after := Restock(products, o.productId, o.qty);
      after[o.productId].quantity + Outstanding(orders - {k}, o.productId) == supply[o.productId] + o.qty
  {
    OutstandingRemove(orders, k, orders[k].productId);
  }

  /** Removing a cancelled order without touching stock keeps the ledger balanced. */
  lemma DropCancelledKeepsBalance(products: map<Id, Product>, orders: map<Id, Order>, supply: map<Id, int>, k: Id)
    requires Balanced(products, orders, supply)
    requires k in orders && orders[k].status == Cancelled
    ensures Balanced(products, orders - {k}, supply)
  {
    forall p | p in products
      ensures p in supply && products[p].quantity + Outstanding(orders - {k}, p) == supply[p]
    {
      OutstandingRemove(orders, k, p);
    }
  }

  /** Overwriting an order's status moves no stock. That keeps the ledger balanced when the
      order neither enters nor leaves "cancelled". */
  lemma OverwriteKeepsBalance(products: map<Id, Product>, orders: map<Id, Order>, supply: map<Id, int>, k: Id, status: string)
    requires Balanced(products, orders, supply)
    requires k in orders && (orders[k].status == Cancelled <==> status == Cancelled)
    ensures Balanced(products, orders[k := orders[k].(status := status)], supply)
  {
    forall p | p in products
      ensures p in supply && products[p].quantity + Outstanding(orders[k := orders[k].(status := status)], p) == supply[p]
    {
      OutstandingUpdate(orders, k, orders[k].(status := status), p);
    }
  }

  /** Overwriting the status of a cancelled order with anything else revives it without
      taking its units out of stock again: its product's ledger ends exactly its quantity
      above supply, and cancelling it once more returns those units a second time. */
  lemma ReviveBreaksBalance(products: map<Id, Product>, orders: map<Id, Order>, supply: map<Id, int>, k: Id, status: string)
    requires Balanced(products, orders, supply)
    requires k in orders && orders[k].productId in products
    requires orders[k].status == Cancelled && status != Cancelled
    ensures var o := orders[k];
      products[o.productId].quantity + Outstanding(orders[k := o.(status := status)], o.productId)
        == supply[o.productId] + o.qty
  {
    OutstandingUpdate(orders, k, orders[k].(status := status), orders[k].productId);
  }

  /** Overwriting the status of a live order with "cancelled" returns nothing to stock: its
      product's ledger ends exactly its quantity below supply, and those units stay out. */
  lemma CancelByOverwriteStrandsUnits(products: map<Id, Product>, orders: map<Id, Order>, supply: map<Id, int>, k: Id)
    requires Balanced(products, orders, supply)
    requires k in orders && orders[k].productId in products && orders[k].status != Cancelled
    ensures var o := orders[k];
      products[o.productId].quantity + Outstanding(orders[k := o.(status := Cancelled)], o.productId)
        == supply[o.productId] - o.qty
  {
    OutstandingUpdate(orders, k, orders[k].(status := Cancelled), orders[k].productId);
  }
}
