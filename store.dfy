/** The document store and the request handlers that read and change it. Each handler
    checks its inputs against the store, fails with the message it throws, or applies its
    change; a handler runs to completion before the next one starts. Calls to services
    outside the store (media upload, mail transport, slug generation) are parameters. */
module Backend {
  import opened Entities
  import Paging
  import Listing
  import Stock
  import OrderAccess
  import Catalog
  import Accounts
  import Discussion

  /** The fields of a product creation request. */
  datatype ProductForm = ProductForm(
    name: string,
    slug: string,
    price: int,
    quantity: int,
    status: string,
    description: string,
    category: Id)

  /** What the user-order listing answers: one page of orders and the page metadata. */
  datatype OrdersPage = OrdersPage(orders: seq<OrderView>, totalPages: nat, currentPage: int, totalCount: nat)

  /** A status change that sends the customer an e-mail. */
  predicate Notifies(status: string) {
    status == Shipped || status == Delivered
  }

  /** An order that can no longer be cancelled. */
  predicate Dispatched(status: string) {
    status == Shipped || status == Delivered
  }

  const OwnerMissing := "Cannot read properties of null (reading 'email')"
  /** The prefix of the mail error; the transport's own error text that follows it is not modelled. */
  const MailFailed := "Error while sending mail"

  class Store {
    var categories: set<Id>
    var products: map<Id, Product>
    var orders: map<Id, Order>
    var users: map<Id, User>
    var comments: map<Id, Comment>
    /** E-mails handed to the mail transport, oldest first. */
    var outbox: seq<Notice>
    /** The id the next created document receives. */
    var nextId: nat

    /** Every id in use was handed out before, and no two users share an e-mail or a mobile. */
    ghost predicate Valid()
      reads this
    {
      && (forall id :: id in products ==> id < nextId)
      && (forall id :: id in orders ==> id < nextId)
      && (forall id :: id in users ==> id < nextId)
      && (forall id :: id in comments ==> id < nextId)
      && Accounts.ContactsUnique(users)
    }

    constructor (categories: set<Id>)
      ensures Valid()
      ensures this.categories == categories
      ensures products == map[] && orders == map[] && users == map[] && comments == map[]
      ensures outbox == [] && nextId == 0
    {
      this.categories := categories;
      products, orders, users, comments := map[], map[], map[], map[];
      outbox, nextId := [], 0;
    }

    /** Order `oid` shows up in the joined listings: its product still exists. */
    predicate Listed(oid: Id)
      reads this
    {
      oid in orders && orders[oid].productId in products
    }

    /** Order `oid` joined with its product's name and image. */
    function View(oid: Id): (v: OrderView)
      reads this
      requires Listed(oid)
      ensures v.id == oid && v.order == orders[oid]
    {
      var p := products[orders[oid].productId];
      OrderView(oid, orders[oid], p.name, p.image)
    }

    function Views(ids: seq<Id>): (vs: seq<OrderView>)
      reads this
      requires forall i :: 0 <= i < |ids| ==> Listed(ids[i])
      ensures |vs| == |ids| && forall i :: 0 <= i < |ids| ==> vs[i] == View(ids[i])
    {
      if ids == [] then [] else [View(ids[0])] + Views(ids[1..])
    }

    /** The orders of user `u`, restricted to status `status` when one is given. */
    function OrdersOf(u: Id, status: string): (s: set<Id>)
      reads this
      ensures s <= orders.Keys
    {
      set oid | oid in orders && orders[oid].user == u && (status == "" || orders[oid].status == status)
    }

    /** Those of `OrdersOf(u, status)` that the joined listing shows. */
    function ShownOrdersOf(u: Id, status: string): (s: set<Id>)
      reads this
      ensures forall oid :: oid in s ==>
        Listed(oid) && orders[oid].user == u && (status == "" || orders[oid].status == status)
    {
      set oid | oid in OrdersOf(u, status) && Listed(oid)
    }

    /** The ids on page `page` of the listing of `u`'s orders, newest first. */
    function UserPage(u: Id, status: string, page: int, limit: int): (ids: seq<Id>)
      reads this
      requires Valid() && page >= 1 && limit >= 1
      ensures |ids| <= limit
      ensures forall i :: 0 <= i < |ids| ==> ids[i] in ShownOrdersOf(u, status)
      ensures forall i, j :: 0 <= i < j < |ids| ==> ids[i] > ids[j]
    {
      var newest := Listing.NewestFirst(ShownOrdersOf(u, status), nextId);
      var ids := Paging.PageSlice(newest, page, limit);
      assert forall i :: 0 <= i < |ids| ==> ids[i] == newest[Paging.Skip(page, limit) + i];
      ids
    }

    // ----- orders ---------------------------------------------------------------------

    /** Place an order: the buyer and the product must exist and the stock must cover the
        quantity; the stock drops by the quantity and the order's price is the product's
        unit price times the quantity, whatever price the client sent. */
    method OrderItem(caller: Id, productId: Id, quantity: int, clientPrice: int, status: string,
                     ghost supply: map<Id, int>)
      returns (r: Result<Id>)
      requires Valid()
      modifies this
      ensures Valid()
      ensures caller !in old(users) ==> r == Err("User not found")
      ensures caller in old(users) && productId !in old(products) ==> r == Err("Product not found")
      ensures caller in old(users) && productId in old(products) && old(products[productId].quantity) < quantity ==>
        r == Err("Product quantity not available")
      ensures r.Err? ==> unchanged(this)
      ensures r.Ok? <==>
        caller in old(users) && productId in old(products) && quantity <= old(products[productId].quantity)
      ensures r.Ok? ==>
        && r.value == old(nextId) && r.value !in old(orders) && nextId == old(nextId) + 1
        && products == Stock.Reserve(old(products), productId, quantity)
        && products[productId].quantity >= 0
        && orders == old(orders)[r.value := Order(caller, productId, quantity, old(products[productId].price) * quantity, status)]
        && categories == old(categories) && users == old(users) && comments == old(comments) && outbox == old(outbox)
      ensures r.Ok? && status != Cancelled && Stock.Balanced(old(products), old(orders), supply) ==>
        Stock.Balanced(products, orders, supply)
    {
      if caller !in users {
        return Err("User not found");
      }
      if productId !in products {
        return Err("Product not found");
      }
      var product := products[productId];
      if product.quantity < quantity {
        return Err("Product quantity not available");
      }
      product := product.(quantity := product.quantity - quantity);
      products := products[productId := product];
      var price := clientPrice;
      price := product.price * quantity;
      var id := nextId;
      ghost var before := orders;
      orders := orders[id := Order(caller, productId, quantity, price, status)];
      nextId := nextId + 1;
      if status != Cancelled && Stock.Balanced(old(products), before, supply) {
        Stock.PlaceKeepsBalance(old(products), before, supply, id, orders[id]);
      }
      r := Ok(id);
    }

    /** Overwrite an order's status with any value. The new status is stored before the
        e-mail for a shipped or delivered order is sent, so a failure to send still leaves
        it stored. `mailDelivered` is what the mail transport answers. */
    method UpdateOrderStatus(id: Id, status: string, mailDelivered: bool, ghost supply: map<Id, int>)
      returns (r: Result<Order>)
      requires Valid()
      modifies this
      ensures Valid()
      ensures id !in old(orders) ==> r == Err("Order not found") && unchanged(this)
      ensures id in old(orders) ==>
        && orders == old(orders)[id := old(orders[id]).(status := status)]
        && categories == old(categories) && products == old(products) && users == old(users)
        && comments == old(comments) && nextId == old(nextId)
      ensures id in old(orders) && !Notifies(status) ==> r == Ok(orders[id]) && outbox == old(outbox)
      ensures id in old(orders) && Notifies(status) && old(orders[id]).user !in old(users) ==>
        r == Err(OwnerMissing) && outbox == old(outbox)
      ensures id in old(orders) && Notifies(status) && old(orders[id]).user in old(users) ==>
        if mailDelivered then
          r == Ok(orders[id]) && outbox == old(outbox) + [Notice(id, old(users[orders[id].user].email), status)]
        else
          r == Err(MailFailed) && outbox == old(outbox)
      ensures id in old(orders) && (old(orders[id]).status == Cancelled <==> status == Cancelled)
              && Stock.Balanced(old(products), old(orders), supply) ==>
        Stock.Balanced(products, orders, supply)
    {
      if id !in orders {
        return Err("Order not found");
      }
      var order := orders[id];
      order := order.(status := status);
      ghost var before := orders;
      orders := orders[id := order];
      if (before[id].status == Cancelled <==> status == Cancelled) && Stock.Balanced(products, before, supply) {
        Stock.OverwriteKeepsBalance(products, before, supply, id, status);
      }
      if Notifies(order.status) {
        if order.user !in users {
          return Err(OwnerMissing);
        }
        if !mailDelivered {
          return Err(MailFailed);
        }
        outbox := outbox + [Notice(id, users[order.user].email, status)];
      }
      r := Ok(order);
    }

    /** Cancel an order as the handler does: only its owner may, and not once it is shipped
        or delivered; its quantity goes back into stock and its status becomes "cancelled".
        An order that is already cancelled passes every check, so cancelling it again puts
        its quantity back a second time. */
    method CancelOrder(id: Id, caller: Id, ghost supply: map<Id, int>) returns (r: Result<Order>)
      requires Valid()
      modifies this
      ensures Valid()
      ensures id !in old(orders) ==> r == Err("Order not found")
      ensures id in old(orders) && old(orders[id]).user != caller ==> r == Err("Unauthorized access")
      ensures id in old(orders) && old(orders[id]).user == caller && Dispatched(old(orders[id]).status) ==>
        r == Err("Can't cancel a shipped or delivered order")
      ensures (id in old(orders) && old(orders[id]).user == caller && !Dispatched(old(orders[id]).status)
               && old(orders[id]).productId !in old(products)) ==> r == Err("Product not found")
      ensures r.Err? ==> unchanged(this)
      ensures r.Ok? <==>
        id in old(orders) && old(orders[id]).user == caller && !Dispatched(old(orders[id]).status)
        && old(orders[id]).productId in old(products)
      ensures r.Ok? ==>
        id in old(orders) &&
        var o := old(orders[id]);
        && o.productId in old(products)
        && products == Stock.Restock(old(products), o.productId, o.qty)
        && orders == old(orders)[id := o.(status := Cancelled)]
        && r.value == orders[id]
        && categories == old(categories) && users == old(users) && comments == old(comments)
        && outbox == old(outbox) && nextId == old(nextId)
      ensures r.Ok? && old(orders[id]).status != Cancelled && Stock.Balanced(old(products), old(orders), supply) ==>
        Stock.Balanced(products, orders, supply)
    {
      if id !in orders {
        return Err("Order not found");
      }
      var order := orders[id];
      if order.user != caller {
        return Err("Unauthorized access");
      }
      if Dispatched(order.status) {
        return Err("Can't cancel a shipped or delivered order");
      }
      if order.productId !in products {
        return Err("Product not found");
      }
      ghost var before := orders;
      var product := products[order.productId];
      product := product.(quantity := product.quantity + order.qty);
      products := products[order.productId := product];
      order := order.(status := Cancelled);
      orders := orders[id := order];
      if before[id].status != Cancelled && Stock.Balanced(old(products), before, supply) {
        Stock.CancelKeepsBalance(old(products), before, supply, id);
      }
      r := Ok(order);
    }

    /** Cancellation as evidently intended: an order that is already cancelled is refused as
        well, so each call puts an order's quantity back into stock at most once and keeps
        the stock ledger balanced. A status overwrite that revives a cancelled order lets a
        later cancellation restock it again. */
    method CancelOrderChecked(id: Id, caller: Id, ghost supply: map<Id, int>) returns (r: Result<Order>)
      requires Valid()
      modifies this
      ensures Valid()
      ensures id !in old(orders) ==> r == Err("Order not found")
      ensures id in old(orders) && old(orders[id]).user != caller ==> r == Err("Unauthorized access")
      ensures id in old(orders) && old(orders[id]).user == caller && Dispatched(old(orders[id]).status) ==>
        r == Err("Can't cancel a shipped or delivered order")
      ensures id in old(orders) && old(orders[id]).user == caller && old(orders[id]).status == Cancelled ==>
        r == Err("Order is already cancelled")
      ensures (id in old(orders) && old(orders[id]).user == caller && !Dispatched(old(orders[id]).status)
               && old(orders[id]).status != Cancelled && old(orders[id]).productId !in old(products)) ==>
        r == Err("Product not found")
      ensures r.Err? ==> unchanged(this)
      ensures r.Ok? <==>
        id in old(orders) && old(orders[id]).user == caller && !Dispatched(old(orders[id]).status)
        && old(orders[id]).status != Cancelled && old(orders[id]).productId in old(products)
      ensures r.Ok? ==>
        id in old(orders) &&
        var o := old(orders[id]);
        && o.productId in old(products)
        && products == Stock.Restock(old(products), o.productId, o.qty)
        && orders == old(orders)[id := o.(status := Cancelled)]
        && r.value == orders[id]
        && categories == old(categories) && users == old(users) && comments == old(comments)
        && outbox == old(outbox) && nextId == old(nextId)
      ensures Stock.Balanced(old(products), old(orders), supply) ==> Stock.Balanced(products, orders, supply)
    {
      if id !in orders {
        return Err("Order not found");
      }
      var order := orders[id];
      if order.user != caller {
        return Err("Unauthorized access");
      }
      if Dispatched(order.status) {
        return Err("Can't cancel a shipped or delivered order");
      }
      if order.status == Cancelled {
        return Err("Order is already cancelled");
      }
      if order.productId !in products {
        return Err("Product not found");
      }
      ghost var before := orders;
      var product := products[order.productId];
      product := product.(quantity := product.quantity + order.qty);
      products := products[order.productId := product];
      order := order.(status := Cancelled);
      orders := orders[id := order];
      if Stock.Balanced(old(products), before, supply) {
        Stock.CancelKeepsBalance(old(products), before, supply, id);
      }
      r := Ok(order);
    }

    /** Look one order up, joined with its product, as the handler does: an administrator
        gets the requested order; anyone else gets one of their own orders, whichever id
        they asked for. Orders whose product is gone are not found. */
    method GetOrderById(id: Id, caller: Id, role: string) returns (r: Result<OrderView>)
      ensures r.Ok? ==>
        Listed(r.value.id) && r.value == View(r.value.id)
        && OrderAccess.MatchAsWritten(id, caller, role, r.value.id, r.value.order)
      ensures r.Ok? && role != Admin ==> r.value.order.user == caller
      ensures r.Err? <==>
        !exists oid :: Listed(oid) && OrderAccess.MatchAsWritten(id, caller, role, oid, orders[oid])
      ensures r.Err? ==> r.msg == "Order not found"
    {
      if exists oid :: oid in orders && Listed(oid) && OrderAccess.MatchAsWritten(id, caller, role, oid, orders[oid]) {
        var oid :| oid in orders && Listed(oid) && OrderAccess.MatchAsWritten(id, caller, role, oid, orders[oid]);
        r := Ok(View(oid));
      } else {
        r := Err("Order not found");
      }
    }

    /** The lookup as evidently intended: only the requested order is ever returned, and to
        anyone but an administrator only when they own it. */
    method GetOrderByIdChecked(id: Id, caller: Id, role: string) returns (r: Result<OrderView>)
      ensures r.Ok? ==> r.value.id == id && Listed(id) && r.value == View(id)
      ensures r.Ok? <==> Listed(id) && (role == Admin || orders[id].user == caller)
      ensures r.Err? ==> r.msg == "Order not found"
    {
      if Listed(id) && OrderAccess.MatchIntended(id, caller, role, id, orders[id]) {
        r := Ok(View(id));
      } else {
        r := Err("Order not found");
      }
    }

    /** The orders the joined listings show: those whose product still exists. */
    function ListedOrders(): (s: set<Id>)
      reads this
      ensures forall oid :: oid in s <==> Listed(oid)
    {
      set oid | oid in orders && Listed(oid)
    }

    /** Every order whose product still exists, joined with it, newest first. */
    method GetAllOrders() returns (r: seq<OrderView>)
      requires Valid()
      ensures |r| == |ListedOrders()|
      ensures forall i :: 0 <= i < |r| ==> Listed(r[i].id) && r[i] == View(r[i].id)
      ensures forall i, j :: 0 <= i < j < |r| ==> r[i].id > r[j].id
      ensures forall oid :: Listed(oid) ==> exists i :: 0 <= i < |r| && r[i].id == oid
    {
      var ids := Listing.NewestFirst(ListedOrders(), nextId);
      assert forall i :: 0 <= i < |ids| ==> ids[i] in ListedOrders();
      r := Views(ids);
      forall oid | Listed(oid)
        ensures exists i :: 0 <= i < |r| && r[i].id == oid
      {
        assert oid in ids;
        var i :| 0 <= i < |ids| && ids[i] == oid;
        assert r[i].id == oid;
      }
    }

    /** One page of a user's orders, newest first, optionally only those with a given
        status, with the page metadata. Orders whose product is gone are counted in
        `totalCount` but are not listed. */
    method GetUserOrders(caller: Id, rawPage: Paging.QueryParam, rawLimit: Paging.QueryParam, status: string)
      returns (r: Result<OrdersPage>)
      requires Valid()
      ensures caller !in users ==> r == Err("user not found")
      ensures caller in users ==> r.Ok?
      ensures r.Ok? ==>
        var page := Paging.Effective(rawPage, Paging.DefaultPage);
        var limit := Paging.Effective(rawLimit, Paging.DefaultLimit);
        && r.value.currentPage == page && page >= 1
        && r.value.totalCount == |OrdersOf(caller, status)|
        && r.value.totalPages == Paging.TotalPages(r.value.totalCount, limit)
        && r.value.orders == Views(UserPage(caller, status, page, limit))
        && |r.value.orders| <= limit
      ensures r.Ok? ==>
        forall i :: 0 <= i < |r.value.orders| ==>
          var v := r.value.orders[i];
          v.order.user == caller && (status == "" || v.order.status == status)
      ensures r.Ok? ==>
        forall i, j :: 0 <= i < j < |r.value.orders| ==> r.value.orders[i].id > r.value.orders[j].id
    {
      var page, limit := Paging.NormalizePaging(rawPage, rawLimit);
      if caller !in users {
        return Err("user not found");
      }
      var matching := OrdersOf(caller, status);
      var views := Views(UserPage(caller, status, page, limit));
      r := Ok(OrdersPage(views, Paging.TotalPages(|matching|, limit), page, |matching|));
    }

    /** Delete an order as the handler does: the order is removed first, then its quantity
        goes back into stock, with no owner or status check. When the product is gone the
        handler fails, but the order is already removed. */
    method DeleteOrder(id: Id) returns (r: Result<Order>)
      requires Valid()
      modifies this
      ensures Valid()
      ensures id !in old(orders) ==> r == Err("Order not found") && unchanged(this)
      ensures id in old(orders) ==>
        && orders == old(orders) - {id}
        && categories == old(categories) && users == old(users) && comments == old(comments)
        && outbox == old(outbox) && nextId == old(nextId)
      ensures id in old(orders) && old(orders[id]).productId !in old(products) ==>
        r == Err("Product not found") && products == old(products)
      ensures id in old(orders) && old(orders[id]).productId in old(products) ==>
        r == Ok(old(orders[id])) && products == Stock.Restock(old(products), old(orders[id]).productId, old(orders[id]).qty)
    {
      if id !in orders {
        return Err("Order not found");
      }
      var order := orders[id];
      orders := orders - {id};
      if order.productId !in products {
        return Err("Product not found");
      }
      var product := products[order.productId];
      product := product.(quantity := product.quantity + order.qty);
      products := products[order.productId := product];
      r := Ok(order);
    }

    /** Deletion as evidently intended: the product is checked before anything changes, so a
        failure changes nothing, and only an order that still holds stock (one not
        cancelled) gives its quantity back, so the stock ledger stays balanced. */
    method DeleteOrderChecked(id: Id, ghost supply: map<Id, int>) returns (r: Result<Order>)
      requires Valid()
      modifies this
      ensures Valid()
      ensures id !in old(orders) ==> r == Err("Order not found")
      ensures id in old(orders) && old(orders[id]).productId !in old(products) ==> r == Err("Product not found")
      ensures r.Err? ==> unchanged(this)
      ensures r.Ok? <==> id in old(orders) && old(orders[id]).productId in old(products)
      ensures r.Ok? ==>
        id in old(orders) &&
        var o := old(orders[id]);
        && r.value == o
        && orders == old(orders) - {id}
        && products == (if o.status == Cancelled then old(products) else Stock.Restock(old(products), o.productId, o.qty))
        && categories == old(categories) && users == old(users) && comments == old(comments)
        && outbox == old(outbox) && nextId == old(nextId)
      ensures Stock.Balanced(old(products), old(orders), supply) ==> Stock.Balanced(products, orders, supply)
    {
      if id !in orders {
        return Err("Order not found");
      }
      var order := orders[id];
      if order.productId !in products {
        return Err("Product not found");
      }
      ghost var before := orders;
      orders := orders - {id};
      if order.status != Cancelled {
        var product := products[order.productId];
        product := product.(quantity := product.quantity + order.qty);
        products := products[order.productId := product];
        if Stock.Balanced(old(products), before, supply) {
          Stock.DeleteKeepsBalance(old(products), before, supply, id);
        }
      } else if Stock.Balanced(old(products), before, supply) {
        Stock.DropCancelledKeepsBalance(old(products), before, supply, id);
      }
      r := Ok(order);
    }

    // ----- comments -------------------------------------------------------------------

    /** Add a comment: the author and the product must exist; the new comment's id is
        appended to the product's comment list. */
    method AddComment(caller: Id, productId: Id, text: string) returns (r: Result<Id>)
      requires Valid()
      modifies this
      ensures Valid()
      ensures caller !in old(users) ==> r == Err("User not found")
      ensures caller in old(users) && productId !in old(products) ==> r == Err("Product not found")
      ensures r.Err? ==> unchanged(this)
      ensures r.Ok? <==> caller in old(users) && productId in old(products)
      ensures r.Ok? ==>
        && r.value == old(nextId) && r.value !in old(comments) && nextId == old(nextId) + 1
        && comments == old(comments)[r.value := Comment(caller, text, [])]
        && productId in old(products)
        && products == old(products)[productId := old(products[productId]).(comments := old(products[productId].comments) + [r.value])]
        && categories == old(categories) && orders == old(orders) && users == old(users) && outbox == old(outbox)
    {
      if caller !in users {
        return Err("User not found");
      }
      if productId !in products {
        return Err("Product not found");
      }
      var id := nextId;
      comments := comments[id := Comment(caller, text, [])];
      nextId := nextId + 1;
      var product := products[productId];
      product := product.(comments := product.comments + [id]);
      products := products[productId := product];
      r := Ok(id);
    }

    /** Delete a comment: allowed to its author and to administrators. Only the comment
        record goes; the product keeps the id in its comment list. */
    method DeleteComment(caller: Id, commentId: Id) returns (r: Result<Comment>)
      requires Valid()
      modifies this
      ensures Valid()
      ensures caller !in old(users) ==> r == Err("User not found")
      ensures caller in old(users) && commentId !in old(comments) ==> r == Err("Comment not found")
      ensures (caller in old(users) && commentId in old(comments)
               && !Discussion.MayDelete(caller, old(users[caller].role), old(comments[commentId]))) ==>
        r == Err("You are not authorized to delete this comment")
      ensures r.Err? ==> unchanged(this)
      ensures r.Ok? <==>
        caller in old(users) && commentId in old(comments)
        && Discussion.MayDelete(caller, old(users[caller].role), old(comments[commentId]))
      ensures r.Ok? ==>
        commentId in old(comments) &&
        var c := old(comments[commentId]);
        && r.value == c
        && comments == old(comments) - {commentId}
        && categories == old(categories) && products == old(products) && orders == old(orders)
        && users == old(users) && outbox == old(outbox) && nextId == old(nextId)
    {
      if caller !in users {
        return Err("User not found");
      }
      if commentId !in comments {
        return Err("Comment not found");
      }
      var comment := comments[commentId];
      if Discussion.MayDelete(caller, users[caller].role, comment) {
        comments := comments - {commentId};
        r := Ok(comment);
      } else {
        r := Err("You are not authorized to delete this comment");
      }
    }

    /** Edit a comment: allowed to its author only. Only the text changes. */
    method EditComment(caller: Id, commentId: Id, text: string) returns (r: Result<Comment>)
      requires Valid()
      modifies this
      ensures Valid()
      ensures caller !in old(users) ==> r == Err("User not found")
      ensures caller in old(users) && commentId !in old(comments) ==> r == Err("Comment not found")
      ensures (caller in old(users) && commentId in old(comments)
               && !Discussion.MayEdit(caller, old(comments[commentId]))) ==>
        r == Err("You are not authorized to edit this comment")
      ensures r.Err? ==> unchanged(this)
      ensures r.Ok? <==>
        caller in old(users) && commentId in old(comments)
        && Discussion.MayEdit(caller, old(comments[commentId]))
      ensures r.Ok? ==>
        commentId in old(comments) &&
        var c := old(comments[commentId]);
        && r.value == c.(text := text)
        && r.value.user == c.user && r.value.replies == c.replies
        && comments == old(comments)[commentId := r.value]
        && categories == old(categories) && products == old(products) && orders == old(orders)
        && users == old(users) && outbox == old(outbox) && nextId == old(nextId)
    {
      if caller !in users {
        return Err("User not found");
      }
      if commentId !in comments {
        return Err("Comment not found");
      }
      var comment := comments[commentId];
      if !Discussion.MayEdit(caller, comment) {
        return Err("You are not authorized to edit this comment");
      }
      comment := comment.(text := text);
      comments := comments[commentId := comment];
      r := Ok(comment);
    }

    // ----- products -------------------------------------------------------------------

    /** Create a product. An image file is required; `upload` is the media host's answer
        (the stored image URL, or `None` when the upload failed). A given name replaces the
        requested slug with the generated one. Errors are re-thrown wrapped, so their
        messages gain an "Error: " prefix. */
    method CreateProduct(form: ProductForm, imagePath: string, upload: Option<string>,
                         slugify: string -> string)
      returns (r: Result<Id>)
      requires Valid()
      modifies this
      ensures Valid()
      ensures imagePath == "" ==> r == Err("Error: Product Image local path is required")
      ensures imagePath != "" && upload.None? ==> r == Err("Error: Failed to upload product image")
      ensures r.Err? ==> unchanged(this)
      ensures r.Ok? <==> imagePath != "" && upload.Some?
      ensures r.Ok? ==>
        && r.value == old(nextId) && r.value !in old(products) && nextId == old(nextId) + 1
        && products == old(products)[r.value := Product(
             form.name,
             if form.name != "" then slugify(form.name) else form.slug,
             upload.value, form.price, form.quantity, form.status, form.description, form.category, [])]
        && categories == old(categories) && orders == old(orders) && users == old(users)
        && comments == old(comments) && outbox == old(outbox)
    {
      var slug := form.slug;
      if form.name != "" {
        slug := slugify(form.name);
      }
      if imagePath == "" {
        return Err("Error: Product Image local path is required");
      }
      if upload.None? {
        return Err("Error: Failed to upload product image");
      }
      var id := nextId;
      products := products[id := Product(form.name, slug, upload.value, form.price, form.quantity,
                                         form.status, form.description, form.category, [])];
      nextId := nextId + 1;
      r := Ok(id);
    }

    /** Delete a product that exists; its orders and comments are left in place. */
    method DeleteProduct(id: Id) returns (r: Result<Product>)
      requires Valid()
      modifies this
      ensures Valid()
      ensures id !in old(products) ==> r == Err("Product not found") && unchanged(this)
      ensures id in old(products) ==>
        && r == Ok(old(products[id]))
        && products == old(products) - {id}
        && categories == old(categories) && orders == old(orders) && users == old(users)
        && comments == old(comments) && outbox == old(outbox) && nextId == old(nextId)
    {
      if id !in products {
        return Err("Product not found");
      }
      r := Ok(products[id]);
      products := products - {id};
    }

    /** Update a product field by field: each field given a truthy value overwrites the
        stored one, a name also regenerates the slug, and a new image file replaces the
        image when it uploads. `upload` is the media host's answer for the new file. */
    method UpdateProduct(id: Id, patch: Catalog.Patch, file: Option<string>, upload: Option<string>,
                         slugify: string -> string)
      returns (r: Result<Product>)
      requires Valid()
      modifies this
      ensures Valid()
      ensures id !in old(products) ==> r == Err("Product not found")
      ensures id in old(products) && file == Some("") ==> r == Err("Error: Image Local path is required")
      ensures id in old(products) && file.Some? && file.value != "" && upload.None? ==>
        r == Err("Error: Product Image upload failed")
      ensures r.Err? ==> unchanged(this)
      ensures r.Ok? <==> id in old(products) && (file.None? || (file.value != "" && upload.Some?))
      ensures r.Ok? ==>
        id in old(products) &&
        var merged := Catalog.Patched(old(products[id]), patch, slugify);
        && r.value == (if file.Some? then merged.(image := upload.value) else merged)
        && products == old(products)[id := r.value]
        && categories == old(categories) && orders == old(orders) && users == old(users)
        && comments == old(comments) && outbox == old(outbox) && nextId == old(nextId)
    {
      if id !in products {
        return Err("Product not found");
      }
      var product := products[id];
      if patch.name != "" {
        product := product.(name := patch.name, slug := slugify(patch.name));
      }
      if Catalog.GivenNumber(patch.price) {
        product := product.(price := patch.price.value);
      }
      if Catalog.GivenNumber(patch.quantity) {
        product := product.(quantity := patch.quantity.value);
      }
      if patch.status != "" {
        product := product.(status := patch.status);
      }
      if patch.description != "" {
        product := product.(description := patch.description);
      }
      if file.Some? {
        if file.value == "" {
          return Err("Error: Image Local path is required");
        }
        if upload.None? {
          return Err("Error: Product Image upload failed");
        }
        product := product.(image := upload.value);
      }
      products := products[id := product];
      r := Ok(product);
    }

    /** The products filed under an existing category. */
    method GetProductsByCategory(c: Id) returns (r: Result<set<Id>>)
      ensures c !in categories ==> r == Err("Category not found")
      ensures c in categories ==> r.Ok?
      ensures r.Ok? ==> forall id :: id in r.value <==> id in products && products[id].category == c
    {
      if c !in categories {
        return Err("Category not found");
      }
      r := Ok(Catalog.InCategory(products, c));
    }

    /** The six newest products, newest first. */
    method GetLatestProducts() returns (r: seq<Id>)
      requires Valid()
      ensures |r| == if |products| < Catalog.LatestCount then |products| else Catalog.LatestCount
      ensures forall i, j :: 0 <= i < j < |r| ==> r[i] > r[j]
      ensures forall id :: id in r ==> id in products
      ensures forall older, shown :: older in products && older !in r && shown in r ==> older < shown
    {
      r := Catalog.Latest(products, nextId);
      Catalog.LatestAreNewest(products, nextId);
    }

    // ----- users ----------------------------------------------------------------------

    /** Register a user: the e-mail and the mobile must both be unused and an avatar file is
        required; `upload` is the media host's answer for it. This is the only way users are
        added, which is why no two users ever share an e-mail or a mobile. */
    method RegisterUser(email: string, mobile: string, role: string, avatarPath: string, upload: Option<string>)
      returns (r: Result<Id>)
      requires Valid()
      modifies this
      ensures Valid()
      ensures Accounts.EmailTaken(old(users), email) ==> r == Err("User Already Exists")
      ensures !Accounts.EmailTaken(old(users), email) && Accounts.MobileTaken(old(users), mobile) ==>
        r == Err("User with this mobile number already exists")
      ensures !Accounts.EmailTaken(old(users), email) && !Accounts.MobileTaken(old(users), mobile) && avatarPath == "" ==>
        r == Err("Avatar local path is required")
      ensures (!Accounts.EmailTaken(old(users), email) && !Accounts.MobileTaken(old(users), mobile) && avatarPath != ""
               && upload.None?) ==> r == Err("Avatar upload failed")
      ensures r.Err? ==> unchanged(this)
      ensures r.Ok? <==>
        !Accounts.EmailTaken(old(users), email) && !Accounts.MobileTaken(old(users), mobile)
        && avatarPath != "" && upload.Some?
      ensures r.Ok? ==>
        && r.value == old(nextId) && r.value !in old(users) && nextId == old(nextId) + 1
        && users == old(users)[r.value := User(email, mobile, role, upload.value)]
        && categories == old(categories) && products == old(products) && orders == old(orders)
        && comments == old(comments) && outbox == old(outbox)
    {
      if Accounts.EmailTaken(users, email) {
        return Err("User Already Exists");
      }
      if Accounts.MobileTaken(users, mobile) {
        return Err("User with this mobile number already exists");
      }
      if avatarPath == "" {
        return Err("Avatar local path is required");
      }
      if upload.None? {
        return Err("Avatar upload failed");
      }
      var id := nextId;
      Accounts.AddFreshKeepsUnique(users, id, User(email, mobile, role, upload.value));
      users := users[id := User(email, mobile, role, upload.value)];
      nextId := nextId + 1;
      r := Ok(id);
    }

    /** Delete a user that exists; their orders and comments are left in place. */
    method DeleteUser(id: Id) returns (r: Result<User>)
      requires Valid()
      modifies this
      ensures Valid()
      ensures id !in old(users) ==> r == Err("User Not Found") && unchanged(this)
      ensures id in old(users) ==>
        && r == Ok(old(users[id]))
        && users == old(users) - {id}
        && categories == old(categories) && products == old(products) && orders == old(orders)
        && comments == old(comments) && outbox == old(outbox) && nextId == old(nextId)
    {
      if id !in users {
        return Err("User Not Found");
      }
      r := Ok(users[id]);
      users := users - {id};
    }

    /** Change a user's role: a role must be given (checked first) and the user must exist;
        only the role changes. */
    method UpdateUserStatus(id: Id, role: string) returns (r: Result<User>)
      requires Valid()
      modifies this
      ensures Valid()
      ensures role == "" ==> r == Err("Role is required")
      ensures role != "" && id !in old(users) ==> r == Err("User Not Found")
      ensures r.Err? ==> unchanged(this)
      ensures r.Ok? <==> role != "" && id in old(users)
      ensures r.Ok? ==>
        id in old(users) &&
        var u := old(users[id]);
        && r.value == u.(role := role)
        && users == old(users)[id := r.value]
        && categories == old(categories) && products == old(products) && orders == old(orders)
        && comments == old(comments) && outbox == old(outbox) && nextId == old(nextId)
    {
      if role == "" {
        return Err("Role is required");
      }
      if id !in users {
        return Err("User Not Found");
      }
      var user := users[id].(role := role);
      users := users[id := user];
      r := Ok(user);
    }

    /** The administrators. */
    method GetAllAdmins() returns (r: set<Id>)
      ensures forall id :: id in r <==> id in users && users[id].role == Admin
    {
      r := Accounts.WithRole(users, Admin);
    }

    /** The customers: users whose role is exactly "user". */
    method GetAllUsers() returns (r: set<Id>)
      ensures forall id :: id in r <==> id in users && users[id].role == Customer
    {
      r := Accounts.WithRole(users, Customer);
    }
  }
}
