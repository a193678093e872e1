# E-commerce backend: order, product, comment and user handlers

This project models the request handlers of a small e-commerce backend. The handlers work
against a document store of categories, products, orders, users and comments. The store is the
class `Backend.Store`: the categories as a set of ids, one map from id to record for each of
the other collections, an outbox of order e-mails and the counter that hands out ids. Each handler is a method of that class. It
checks its inputs against the store and then does one of two things:

- it fails with the message the handler throws (`Err(msg)`) and changes nothing, except where
  the handler as written has already changed something;
- or it applies its change and returns what the handler answers (`Ok(value)`).

Handlers run one at a time, each to completion. Calls to services outside the store are
parameters of the methods:

- the media upload answers `Some(url)` or `None`;
- the mail transport answers whether the e-mail went out;
- slug generation is a function from names to slugs.

Ids come from one increasing counter, so a larger id means a newer document. That order stands
in for sorting on the creation time.

Modules:

- `Entities`: the records and the `Result`/`Option` wrappers.
- `Listing`: ids newest first, and taking the first few.
- `Paging`: normalising `page` and `limit`, the skip, the page count and the page slice of the
  user-order listing.
- `Stock`: stock accounting. A ghost ledger says that each product's stock plus what its live
  (not cancelled) orders hold equals the product's supply. There are lemmas about which order
  operations keep that ledger balanced.
- `OrderAccess`: which orders the order lookup matches, as written and as intended.
- `Catalog`: the product update merge, the category filter and the latest-six listing.
- `Accounts`: unique e-mail and mobile numbers, and the listings by role.
- `Discussion`: who may delete and who may edit a comment.
- `Backend`: the store and its handlers.
- `Scenarios`: short request sequences on a fresh store. They show the defects listed under
  Findings next to the corrected handlers.

Where the code departs from what it evidently intends, the model follows the code:

- a second cancellation of the same order succeeds and restocks again;
- a non-administrator's order lookup ignores the requested id;
- deleting an order whose product is gone fails only after the order is removed.

The corrected handlers are modelled beside these (see Findings).

## Model

| member | source | states |
|---|---|---|
| Backend.Store.OrderItem | src/controllers/order.controller.js:13-72 | Fails with "User not found", "Product not found" or "Product quantity not available", in that order, and then changes nothing. It succeeds exactly when the buyer and the product exist and the stock covers the quantity. The product's stock then drops by exactly the quantity and stays non-negative. The new order has a fresh id, and its price is the unit price times the quantity whatever the client sent. Nothing else changes, and a live order keeps the stock ledger balanced. |
| Stock.PlaceKeepsBalance | src/controllers/order.controller.js:40-55 | Reserving an order's quantity while recording the order as live keeps every product's stock plus held quantities equal to its supply. |
| Paging.NormalizePaging | src/controllers/order.controller.js:119-129 | Page and limit are both at least 1. A positive number is kept as given. A missing value, a value that is not a number, or a number that is zero or negative falls back to 1 for the page and 10 for the limit. |
| Paging.TotalPages | src/controllers/order.controller.js:187 | The page count is the ceiling of total over limit: the least count whose pages hold all entries. |
| Paging.PageSlice | src/controllers/order.controller.js:164-177 | A page holds at most `limit` entries, namely the consecutive entries after the skipped `(page-1)*limit`. It is short only when the list runs out. |
| Paging.PageOfIndex | src/controllers/order.controller.js:173-189 | Every entry of the listing lies on exactly one page, and that page is between 1 and the page count reported to the client. |
| Listing.NewestFirst | src/controllers/order.controller.js:167-171 | Sorting newest first gives the same ids, each once, in strictly decreasing order. |
| Backend.Store.GetUserOrders | src/controllers/order.controller.js:117-194 | Fails with "user not found" for an unknown caller. Otherwise the current page is the normalised page, and the total count is the number of the caller's orders with the given status, counting all of them. The page count is the ceiling of that count over the limit. The page holds at most `limit` orders, and each is the caller's, has the requested status and has its product attached. The orders are newest first and are exactly the normalised page of the listing. Orders whose product is gone are left out of the page but still counted. |
| Backend.Store.GetAllOrders | src/controllers/order.controller.js:75-113 | Lists every order whose product still exists, each once, joined with its product, newest first. |
| Backend.Store.UpdateOrderStatus | src/controllers/order.controller.js:197-231 | Fails with "Order not found" and changes nothing when the order is missing. Otherwise it overwrites the status with any value, stores it, and changes nothing else in the store. Only a "shipped" or "delivered" status sends an e-mail. Then a missing owner gives the null-access error and a failed send gives the mail error, with the new status already stored in both cases. A successful send records one notice for the owner's address. An overwrite that neither enters nor leaves "cancelled" keeps the stock ledger balanced. |
| Backend.Store.CancelOrder | src/controllers/order.controller.js:234-265 | Fails with "Order not found", then "Unauthorized access" for anyone but the owner, then the shipped-or-delivered error, then "Product not found", and then changes nothing. Otherwise it adds exactly the order's quantity back to the product and sets the status to "cancelled". An order already cancelled passes these checks. |
| Stock.CancelKeepsBalance | src/controllers/order.controller.js:251-260 | Cancelling a live order, which restocks its quantity and marks it cancelled, keeps the ledger balanced. |
| Stock.RecancelBreaksBalance | src/controllers/order.controller.js:247-260 | Cancelling an order that is already cancelled leaves the product's ledger exactly one order quantity above its supply. |
| Backend.Store.CancelOrderChecked | src/controllers/order.controller.js:243-260 | The same checks as the handler, each with its message ("Order not found", "Unauthorized access", the shipped-or-delivered error, "Product not found"), plus "Order is already cancelled" before the product lookup. A failure changes nothing. Each successful call restocks the order's quantity once, and every call keeps the ledger balanced. |
| Stock.OverwriteKeepsBalance | src/controllers/order.controller.js:206-207 | A status overwrite moves no stock, and it keeps the ledger balanced whenever the order neither enters nor leaves "cancelled". |
| Stock.ReviveBreaksBalance | src/controllers/order.controller.js:206-207 | Overwriting a cancelled order's status with anything else leaves its product's ledger exactly the order's quantity above supply. |
| Stock.CancelByOverwriteStrandsUnits | src/controllers/order.controller.js:206-207 | Overwriting a live order's status with "cancelled" returns nothing to stock: its product's ledger ends exactly the order's quantity below supply. |
| Backend.Store.GetOrderById | src/controllers/order.controller.js:268-309 | Answers an order, joined with its product, that the filter as written matches. For an administrator that is the requested id; for anyone else it is any order the caller owns. The answer is "Order not found" exactly when no order with an existing product matches. |
| OrderAccess.AsWrittenIgnoresRequestedId | src/controllers/order.controller.js:272-275 | For a caller who is not an administrator, whether an order matches does not depend on the requested id. |
| OrderAccess.AsWrittenAnswersWrongOrder | src/controllers/order.controller.js:272-275 | A customer who asks for another customer's order is matched to an order of their own with a different id. |
| Backend.Store.GetOrderByIdChecked | src/controllers/order.controller.js:272-304 | Answers only the requested order. It does so exactly when that order's product exists and the caller is an administrator or the order's owner; otherwise the answer is "Order not found". |
| OrderAccess.IntendedNarrowsAsWritten | src/controllers/order.controller.js:272-275 | The corrected filter only narrows the one as written: every order it matches, the filter as written matches too. |
| OrderAccess.IntendedMatchesAtMostOne | src/controllers/order.controller.js:272-275 | The corrected filter matches at most one order, whoever the caller is. |
| OrderAccess.IntendedAgreesForAdmins | src/controllers/order.controller.js:272-275 | For administrators the written and the intended filters agree. |
| Backend.Store.DeleteOrder | src/controllers/order.controller.js:312-333 | Fails with "Order not found" and changes nothing when the order is missing. Otherwise it removes the order without any owner or status check. It then fails with "Product not found" if the product is gone, with the order already removed; otherwise it adds exactly the order's quantity back. |
| Stock.DeleteKeepsBalance | src/controllers/order.controller.js:320-328 | Deleting a live order and restocking its quantity keeps the ledger balanced. |
| Stock.DeleteCancelledBreaksBalance | src/controllers/order.controller.js:320-328 | Deleting a cancelled order and restocking its quantity leaves the ledger one order quantity above supply. |
| Backend.Store.DeleteOrderChecked | src/controllers/order.controller.js:315-328 | Checks the product before changing anything, so every failure leaves the store unchanged. Restocks only an order that is not cancelled, and the ledger stays balanced. |
| Backend.Store.AddComment | src/controllers/comment.controller.js:9-34 | Fails with "User not found" or "Product not found" and then changes nothing. Otherwise it creates a comment by the caller with the given text and no replies. It appends exactly the new comment's id to the end of the product's comment list and leaves everything else unchanged. |
| Backend.Store.DeleteComment | src/controllers/comment.controller.js:37-66 | Fails with "User not found", then "Comment not found", then the not-authorised error unless the caller wrote the comment or is an administrator. A failure changes nothing. A success removes only the comment record; the products' comment lists are left as they were. |
| Backend.Store.EditComment | src/controllers/comment.controller.js:69-95 | Fails with "User not found", then "Comment not found", then the not-authorised error unless the caller wrote the comment; administrators get no exemption. A success replaces the text only, and the author and replies stay as they were. |
| Discussion.EditImpliesDelete | src/controllers/comment.controller.js:52-87 | Whoever may edit a comment may delete it. An administrator who is not the author may delete it but not edit it. |
| Backend.Store.CreateProduct | src/controllers/product.controller.js:14-54 | Fails with the wrapped "Product Image local path is required" when no image path is given, and with the wrapped upload error when the upload fails; a failure changes nothing. Otherwise it stores a new product with the uploaded image's url. Its slug is derived from the name when a name is given and taken from the form otherwise. |
| Backend.Store.DeleteProduct | src/controllers/product.controller.js:117-135 | Removes the product when it exists and changes nothing else. Otherwise it fails with "Product not found" and changes nothing. |
| Backend.Store.UpdateProduct | src/controllers/product.controller.js:138-193 | Fails with "Product not found" for a missing product. Otherwise the product becomes the merge of the request fields. A supplied file whose path is empty, or whose upload fails, gives the wrapped image errors and leaves the product unchanged. A successful upload replaces the image url. Nothing else in the store changes. |
| Catalog.PatchesCompose | src/controllers/product.controller.js:149-165 | Two updates in a row have the same effect as one combined update, in which each truthy field of the second request wins over the first. |
| Catalog.ZeroCannotBeSet | src/controllers/product.controller.js:154-159 | With price and quantity sent as numbers, a 0 leaves the old value in place: a result of 0 means the value was already 0. |
| Catalog.PatchedIdempotent | src/controllers/product.controller.js:149-165 | Applying the same update twice gives the same product as applying it once. |
| Catalog.EmptyPatchIsIdentity | src/controllers/product.controller.js:149-165 | Every update with no truthy field, including one that supplies nothing at all, leaves the product as it was. |
| Backend.Store.GetProductsByCategory | src/controllers/product.controller.js:196-216 | Fails with "Category not found" for an unknown category. Otherwise it returns exactly the products in that category. |
| Catalog.UpdateKeepsCategoryListings | src/controllers/product.controller.js:149-165 | A product update never moves a product between category listings: every category listing is the same before and after. |
| Catalog.DeleteLeavesOtherListings | src/controllers/product.controller.js:121-127 | Deleting a product removes it from its own category's listing and leaves every other listing as it was. |
| Backend.Store.GetLatestProducts | src/controllers/product.controller.js:219-228 | Returns six products, or all of them when there are fewer. They are newest first, and every product left out is older than every product shown. |
| Catalog.LatestAreNewest | src/controllers/product.controller.js:220 | The latest listing has min(6, number of products) entries, all of them products, in strictly decreasing id order, and no product left out is newer than one shown. |
| Listing.TakeNewest | src/controllers/product.controller.js:220 | Taking the first entries of a newest-first listing keeps only ids of the set, and every id left out is older than every id taken. |
| Backend.Store.RegisterUser | src/controllers/user.controller.js:14-58 | Fails, in this order and changing nothing, with "User Already Exists" when the e-mail is taken, then "User with this mobile number already exists", then "Avatar local path is required", then "Avatar upload failed". Otherwise it adds exactly one user with a fresh id and the uploaded avatar url. E-mails and mobiles stay unique. |
| Accounts.AddFreshKeepsUnique | src/controllers/user.controller.js:18-26 | Adding a user whose e-mail and mobile are both free keeps every e-mail and every mobile unique. |
| Accounts.AddTakenBreaksUnique | src/controllers/user.controller.js:18-21 | Adding a user whose e-mail is already taken would break uniqueness, which is what the first check prevents. |
| Backend.Store.DeleteUser | src/controllers/user.controller.js:144-165 | Removes the user when present and changes nothing else. Otherwise it fails with "User Not Found". |
| Backend.Store.UpdateUserStatus | src/controllers/user.controller.js:168-195 | Fails with "Role is required" for an empty role, checked before the lookup, and then with "User Not Found". Otherwise only that user's role changes. |
| Backend.Store.GetAllAdmins | src/controllers/user.controller.js:95-102 | Returns exactly the users whose role is "admin". |
| Backend.Store.GetAllUsers | src/controllers/user.controller.js:105-113 | Returns exactly the users whose role is "user". |
| Accounts.RoleChangeMovesUser | src/controllers/user.controller.js:176-183 | A role change moves that user into the listing of the new role and out of every other listing; nobody else moves. |
| Accounts.AddJoinsOwnListing | src/controllers/user.controller.js:38-47 | Registering a user adds exactly that user to the listing of their role and changes no other listing. |
| Scenarios.DoubleCancelRestocksTwice | src/controllers/order.controller.js:243-260 | With 5 in stock and an order of 3: 2 after the order, 5 after cancelling, and 8 after a second cancellation, which succeeds. |
| Scenarios.CheckedCancelRestocksOnce | src/controllers/order.controller.js:243-260 | With the corrected handler the second cancellation fails with "Order is already cancelled", and the stock stays at 5. |
| Scenarios.ReviveThenCancelRestocksTwice | src/controllers/order.controller.js:206-260 | Even with the corrected cancellation, setting a cancelled order back to "pending" and cancelling it again brings the stock to 8. |
| Scenarios.LookupIgnoresRequestedId | src/controllers/order.controller.js:272-304 | A second customer asking for the first customer's order is answered with an order of a different id; the corrected lookup answers "Order not found". |
| Scenarios.DeleteFailsAfterRemoving | src/controllers/order.controller.js:315-325 | After the product is deleted, deleting its order fails with "Product not found" yet the order is gone; the corrected deletion fails with the order still stored. |
| Scenarios.DeleteAfterCancelRestocksTwice | src/controllers/order.controller.js:320-328 | Deleting an order that was already cancelled brings the stock to 8 as written, against 5 with the corrected deletion. |

## Left out

- HTTP requests and responses, the authentication middleware and the response envelope are not modelled. A handler's answer is its `Result`.
- The store's query pipelines (`$lookup`, `$unwind`, `$project`) are not modelled as such. The join is "attach the product's name and image, and drop orders whose product is gone".
- Sorting on the creation time is modelled as decreasing id, because ids come from one increasing counter.
- Backend.Store.GetOrderById: returns some matching order rather than the first one in the store's natural order, because that order is not modelled.
- E-mail delivery is an input (`mailDelivered`) plus a notice appended to the outbox. The mail helper's extra argument means the real recipient is the configured sender address. The notice records the order owner's address as the handler intends.
- Media upload is an input. Media deletion before a product, image or avatar is replaced or removed is assumed to return normally. Its failure path "Failed to deleted user" is not modelled.
- Failures of the store's own reads and writes are not modelled, including "Failed to update user status", which is the failure path of the role update.
- The mail error is modelled as its fixed prefix `Backend.MailFailed`. The transport's error text that follows the prefix is not modelled.
- Slug generation is a function parameter, because the library is not part of this model.
- Id validation (`validateID`) is not modelled: ids are natural numbers and a malformed id cannot be written.
- Schema validation and schema defaults of the document store are not modelled. This covers required fields, enum statuses and default roles. A status outside the schema's enum is stored as given.
- JavaScript coercions are not modelled: numeric strings, `NaN`, fractional prices and quantities, and non-integer `page` and `limit`. Numbers are integers, and a query value is missing, non-numeric or an integer.
- Catalog.ZeroCannotBeSet: holds for prices and quantities sent as numbers only. A form-encoded update carries "0" as a non-empty string, which passes the truthiness test and is stored.
- The listing handlers' "No product available", "No Admin Found" and "No Users Found" errors are left out. Each guards a query result that is always a list, so it never fires. The listings always succeed.
- Backend.Store.UpdateOrderStatus: the ledger is promised only for overwrites that neither enter nor leave "cancelled". An overwrite that moves a cancelled order back to any other status moves no stock, so a later cancellation restocks it again, even with the corrected cancellation. Whether the status update should refuse that change is not evident from the code, so no corrected status update is modelled. In the other direction, an overwrite into "cancelled" returns no stock. Under the corrected handlers those units stay out of stock for good: `CancelOrderChecked` refuses the order as already cancelled, and `DeleteOrderChecked` does not restock it.
- Backend.Store.OrderItem: the ledger is preserved only when the new order's status is not "cancelled". An order created already cancelled holds stock that nothing accounts for.
- An order's shipping, contact and payment fields are stored by the handlers without any logic, so they are not modelled. Neither are the other user fields (names, password, address).
- Comment replies are created empty. The reply handlers are not part of this model.
- The login and logout handlers (passwords, tokens, cookies), the contact-message handler, the product listings `getAllProducts` and `getProductById`, and the route and application wiring are not part of this model.
- Concurrency and atomicity are not modelled. Concurrent orders can oversell, and a crash can fall between two saves. Each handler runs alone and to completion.

## Findings

| source | as written | input that shows it | evidently intended | confidence | as-written member | corrected member |
|---|---|---|---|---|---|---|
| src/controllers/order.controller.js:247 | the cancellation guard rejects only shipped and delivered orders, so a cancelled order can be cancelled again | 5 in stock, order 3, cancel it twice: stock 2, 5, then 8 | refuse an order that is already cancelled | high, not executed | Backend.Store.CancelOrder, Stock.RecancelBreaksBalance, Scenarios.DoubleCancelRestocksTwice | Backend.Store.CancelOrderChecked, Stock.CancelKeepsBalance, Scenarios.CheckedCancelRestocksOnce |
| src/controllers/order.controller.js:272-275 | for a caller who is not an administrator, the filter is replaced by "owned by the caller" and the requested id is dropped | a customer with an order of their own asks for another customer's order and receives their own | match the requested id and, for non-administrators, also the owner | high, not executed | Backend.Store.GetOrderById, OrderAccess.AsWrittenAnswersWrongOrder, Scenarios.LookupIgnoresRequestedId | Backend.Store.GetOrderByIdChecked, OrderAccess.IntendedNarrowsAsWritten, OrderAccess.IntendedMatchesAtMostOne |
| src/controllers/order.controller.js:320-325 | the order is deleted before the product lookup, so a "Product not found" failure still removes it | delete a product, then delete one of its orders: the error is returned and the order is gone | check the product before deleting, so a failure changes nothing | medium, not executed | Backend.Store.DeleteOrder, Scenarios.DeleteFailsAfterRemoving | Backend.Store.DeleteOrderChecked |
| src/controllers/order.controller.js:327 | deletion restocks the order's quantity whatever its status | 5 in stock, order 3, cancel it, then delete it: stock 8 | restock only an order that still holds stock | medium, not executed | Stock.DeleteCancelledBreaksBalance, Scenarios.DeleteAfterCancelRestocksTwice | Backend.Store.DeleteOrderChecked, Stock.DeleteKeepsBalance |
