/** Request sequences run against a fresh store. Each shows, from the handlers' contracts
    alone, how the order workflow as written behaves next to the corrected handler. */
module Scenarios {
  import opened Entities
  import Backend

  const Mugs := 100

  /** A store with one customer, one product priced 250 with 5 in stock, and an order of 3
      placed by that customer. Returns the ids of the customer, the product and the order. */
  method Shop() returns (s: Backend.Store, customer: Id, product: Id, order: Id)
    ensures fresh(s) && s.Valid()
    ensures customer in s.users && product in s.products && order in s.orders
    ensures s.products[product].quantity == 2 && s.products[product].price == 250
    ensures s.orders[order] == Order(customer, product, 3, 750, "pending")
    ensures s.users == map[customer := User("ann@example.com", "555-0100", Customer, "media/ann.png")]
  {
    s := new Backend.Store({Mugs});
    var u := s.RegisterUser("ann@example.com", "555-0100", Customer, "ann.png", Some("media/ann.png"));
    customer := u.value;
    var p := s.CreateProduct(Backend.ProductForm("Mug", "", 250, 5, "active", "A mug", Mugs),
                             "mug.png", Some("media/mug.png"), name => name);
    product := p.value;
    var o := s.OrderItem(customer, product, 3, 1, "pending", map[]);
    order := o.value;
  }

  /** Cancelling the same order twice puts its quantity back twice: 5 in stock, 2 after the
      order, 5 after the cancellation and 8 after the second one, which succeeds. */
  method DoubleCancelRestocksTwice() returns (stocks: seq<int>, second: Result<Order>)
    ensures stocks == [2, 5, 8]
    ensures second.Ok? && second.value.status == Cancelled
  {
    var s, customer, product, order := Shop();
    var placed := s.products[product].quantity;
    var first := s.CancelOrder(order, customer, map[]);
    var afterFirst := s.products[product].quantity;
    second := s.CancelOrder(order, customer, map[]);
    stocks := [placed, afterFirst, s.products[product].quantity];
  }

  /** With the corrected cancellation the second request is refused and the stock stays at 5. */
  method CheckedCancelRestocksOnce() returns (stocks: seq<int>, second: Result<Order>)
    ensures stocks == [2, 5, 5]
    ensures second == Err("Order is already cancelled")
  {
    var s, customer, product, order := Shop();
    var placed := s.products[product].quantity;
    var first := s.CancelOrderChecked(order, customer, map[]);
    var afterFirst := s.products[product].quantity;
    second := s.CancelOrderChecked(order, customer, map[]);
    stocks := [placed, afterFirst, s.products[product].quantity];
  }

  /** A second customer with an order of their own asks for the first customer's order and
      is answered with their own order instead of "Order not found"; the corrected lookup
      refuses. */
  method LookupIgnoresRequestedId() returns (asWritten: Result<OrderView>, checked: Result<OrderView>, requested: Id)
    ensures asWritten.Ok? && asWritten.value.id != requested
    ensures checked == Err("Order not found")
  {
    var s, customer, product, order := Shop();
    var u := s.RegisterUser("bob@example.com", "555-0101", Customer, "bob.png", Some("media/bob.png"));
    var bob := u.value;
    var o := s.OrderItem(bob, product, 1, 0, "pending", map[]);
    requested := order;
    assert s.Listed(o.value) && s.orders[o.value].user == bob != customer;
    asWritten := s.GetOrderById(requested, bob, Customer);
    checked := s.GetOrderByIdChecked(requested, bob, Customer);
  }

  /** Deleting an order whose product was deleted fails with "Product not found", yet the
      order is gone; the corrected deletion fails without removing it. */
  method DeleteFailsAfterRemoving() returns (asWritten: Result<Order>, goneAsWritten: bool,
                                              checked: Result<Order>, goneChecked: bool)
    ensures asWritten == Err("Product not found") && goneAsWritten
    ensures checked == Err("Product not found") && !goneChecked
  {
    var s, customer, product, order := Shop();
    var d := s.DeleteProduct(product);
    checked := s.DeleteOrderChecked(order, map[]);
    goneChecked := order !in s.orders;
    asWritten := s.DeleteOrder(order);
    goneAsWritten := order !in s.orders;
  }

  /** Deleting an order that was already cancelled puts its quantity back a second time
      (8 in stock); the corrected deletion leaves the stock at 5. */
  method DeleteAfterCancelRestocksTwice() returns (asWritten: int, checked: int)
    ensures asWritten == 8 && checked == 5
  {
    var s, customer, product, order := Shop();
    var c := s.CancelOrder(order, customer, map[]);
    var t, customer', product', order' := Shop();
    var c' := t.CancelOrder(order', customer', map[]);
    var d := s.DeleteOrder(order);
    asWritten := s.products[product].quantity;
    var d' := t.DeleteOrderChecked(order', map[]);
    checked := t.products[product'].quantity;
  }

  /** Even with the corrected cancellation, setting a cancelled order back to "pending" and
      cancelling it again puts its quantity back a second time: 2, 5, then 8. */
  method ReviveThenCancelRestocksTwice() returns (stocks: seq<int>, second: Result<Order>)
    ensures stocks == [2, 5, 8]
    ensures second.Ok? && second.value.status == Cancelled
  {
    var s, customer, product, order := Shop();
    var placed := s.products[product].quantity;
    var first := s.CancelOrderChecked(order, customer, map[]);
    var afterFirst := s.products[product].quantity;
    var revived := s.UpdateOrderStatus(order, "pending", true, map[]);
    second := s.CancelOrderChecked(order, customer, map[]);
    stocks := [placed, afterFirst, s.products[product].quantity];
  }
}
