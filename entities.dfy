/** The documents of the store and the outcome type shared by every request handler.
    Every collection is a map from document id to document; ids are handed out by
    one counter, so a larger id is a newer document. */
module Entities {

  type Id = nat

  datatype Option<+T> = None | Some(value: T)

  /** A handler either answers with a value or fails with the message it throws. */
  datatype Result<+T> = Ok(value: T) | Err(msg: string)

  /** A catalog entry. `price` is in the smallest currency unit. */
  datatype Product = Product(
    name: string,
    slug: string,
    image: string,
    price: int,
    quantity: int,
    status: string,
    description: string,
    category: Id,
    comments: seq<Id>)

  /** An order: the buyer, the product bought, the quantity, the total price fixed
      when the order was placed, and the order status. */
  datatype Order = Order(user: Id, productId: Id, qty: int, price: int, status: string)

  datatype User = User(email: string, mobile: string, role: string, avatar: string)

  datatype Comment = Comment(user: Id, text: string, replies: seq<string>)

  /** A status-change e-mail handed to the mail transport: the order, the owner's
      address passed along, and the new status. */
  datatype Notice = Notice(order: Id, address: string, status: string)

  /** An order as the listing endpoints return it: joined with its product's name and image. */
  datatype OrderView = OrderView(id: Id, order: Order, productName: string, productImage: string)

  const Admin := "admin"
  const Customer := "user"
  const Cancelled := "cancelled"
  const Shipped := "shipped"
  const Delivered := "delivered"
}
