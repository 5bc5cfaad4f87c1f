# e-commerce-api: a verified model of order placement, authentication and the role gate

This project models the sequential core of a small Express/Mongoose
e-commerce backend as pure Dafny state transformers, and proves what its
handlers promise.

- **Catalog** (`catalog.dfy`): products in a `map<Id, Product>`. Covers the
  public listing with its optional `category` filter and two 404 messages,
  lookup by id, and the administrator's `addProduct`. `addProduct` rejects any
  falsy field, so a price or stock sent as the JSON number 0 is refused (sent
  as the string "0", it is accepted). The module also covers the
  two empty stubs `updateProduct` and `deleteProduct`.
- **Orders** (`orders.dfy`): `createOrder` works in two passes. Pass 1 checks
  each line against the stock as it was before the order, and freezes each
  line's price and `totalCost`. Pass 2 re-reads each product and lowers its
  stock line by line. The module also covers `getCustomerOrders`: a filter by
  customer, newest first.
- **Users** (`users.dfy`): the user schema. It has the `role` enumeration and
  its default, the field defaults, and the `required` validators: the
  password is required unless `googleId` is set. It also has the unique
  indexes on `_id` and `email`, which `usersModel.create` enforces.
- **Auth** (`auth.dfy`): six transitions on a state made of the user list and
  the reset-token list. They are register, verifyEmail, login, refreshToken,
  forgetPassword and resetPassword. The module also proves the lifecycle of
  the single-use tokens.
- **RoleGate** (`rolegate.dfy`): the `rolesAllowed(roles)` middleware.
- **Http** and **Lookup** hold the error-reply, `Result` and `Option` types,
  and the first-match search that `findOne` / `findById` perform.

Errors are `(status, message)` pairs, with the status codes and message
strings of the replies the handlers send themselves. When a handler catches an
error, it first forwards the error with `next(error)`. The application's error
middleware (app.js:81-89) then answers first, with status 500 and a body that
depends on the environment, so the handler's own 500 message never reaches
the client. The model writes that reply as `Http.Unhandled`, status 500 with
an empty message. Collections that `findOne` searches are kept as
sequences in insertion order, so that "the first matching document" is
defined. Values made outside the handlers are parameters:

- database ids, `uuid` tokens and the strings `jwt.sign` returns;
- the user id that `jwt.verify` decodes (absent when it throws);
- the verdict of the request-body validator `validateAuth`
  (utils/validation.js is not part of this model);
- the order's `createdAt` timestamp.

bcrypt is modelled as an injective digest, `Hash(p) = Digest(p)`.

Two behaviours of the code are kept exactly as written:

- In `createOrder`, the branch for an unknown product sends the 404 reply but
  does not return. The next line dereferences the missing product, and that
  error goes to the error middleware. The model therefore gives the 404
  reply and writes nothing.
- Pass 1 compares each line with the stock as it was before the order, and
  pass 2 subtracts the lines one after another. A request that names a
  product twice can therefore take its stock below zero
  (`Orders.RepeatedProductOversells`). When the ids are distinct, stock stays
  non-negative (`Orders.DistinctOrderKeepsStock`).

Some behaviours of the code a reader may not expect:

- registering a used email is answered 400, not a conflict status;
- an empty customer order list is answered 400, not 404;
- product names are not unique;
- an order refused in pass 1 (an unknown product or short stock) writes
  nothing, because every check comes before the first stock update;
- stock can go negative;
- login does not require a verified email;
- the product schema has no `category` path. The listing filter is modelled
  as a literal comparison with an optional `category` value, which products
  created through `addProduct` do not have.

## Model

| member | source | states |
|---|---|---|
| Lookup.FirstWhere | controllers/authController.js:70 | the index found holds the first matching element; none is found exactly when no element matches |
| Catalog.ListProducts | controllers/productController.js:7-26 | the listing contains exactly the stored products that pass the category filter, each unchanged; it fails exactly when none pass, with "No category found" when a category was given and "No products found" otherwise, both 404 |
| Catalog.GetSingleProduct | controllers/adminController.js:44-54 | a known id yields exactly the stored product; an unknown id yields 404 "Product not found" (the public controller's handler at productController.js:35-44 behaves the same) |
| Catalog.CreatedProduct | models/productModel.js:4-24 | a created product takes the empty-string image default and has no category |
| Catalog.AddProduct | controllers/adminController.js:16-42 | any missing or falsy name, description, price or stock gives 400 "All fields are required" and no insert; an id that is already taken gives the forwarded-error reply; otherwise exactly one product with the body's fields, an empty image and no category is added under the new id, and every existing product stays as it was |
| Catalog.UpdateProduct | controllers/adminController.js:64 | the empty handler leaves every product lookup as it was |
| Catalog.DeleteProduct | controllers/adminController.js:66 | the empty handler leaves every product lookup as it was; in particular the product is not deleted |
| Catalog.AddThenGet | controllers/adminController.js:25-30 | after a successful add, looking up the new id returns exactly the product the body described, with the default empty image |
| Catalog.AddedProductIsListed | controllers/productController.js:10-26 | after a successful add, the listing without a category succeeds and includes the new product |
| Catalog.AddKeepsCategoryListing | controllers/productController.js:10-26 | after a successful add, a listing by category answers exactly as before, since a created product has no category |
| Catalog.AddKeepsOthers | controllers/adminController.js:25-30 | after a successful add, a lookup of any other id answers as before |
| Orders.PriceItems | controllers/productController.js:61-92 | pass 1 succeeds exactly when every line names a stored product whose stock before the order covers the quantity; otherwise it fails with the reply for the first line that does not pass (404 for a missing product, 400 "Insufficient stock" naming the product); on success the lines follow the request in order, each with the current price and totalCost = price * quantity, and the running total is the sum of the line totals |
| Orders.Decrement | controllers/productController.js:94-98 | pass 2 keeps the same products and lowers each one's stock by the total quantity its lines take, leaving every other field and every other product unchanged |
| Orders.LineQuantityIsRequested | controllers/productController.js:86-96 | the quantity pass 2 takes from a product is the total quantity the request asks of it |
| Orders.PlaceOrder | controllers/productController.js:53-105 | a missing or empty order gives 400 "Invalid order data"; otherwise the order succeeds exactly when every line passes the pre-order stock check, and fails with the reply for the first line that does not; a successful order belongs to the customer, is pending (an assumed schema default), keeps the request's lines in order at frozen prices, and has a totalCost equal to the sum of its line totals; each product's final stock is its original stock minus the total quantity requested of it |
| Orders.UnorderedProductsUnchanged | controllers/productController.js:94-98 | a placed order leaves every product that none of its lines names exactly as it was |
| Orders.RequestedAbsent | controllers/productController.js:94-96 | a product that no line of the request names is asked for nothing, so pass 2 leaves it as it was |
| Orders.RequestedDistinct | controllers/productController.js:94-96 | when product ids are distinct, the quantity requested of a product is that of its single line, or zero if it has none |
| Orders.DistinctOrderKeepsStock | controllers/productController.js:74-98 | when no product appears twice in the request and all stock was non-negative, all stock is non-negative after a successful order |
| Orders.RepeatedProductOversells | controllers/productController.js:74-98 | with one unit in stock, a request of two lines of one unit for the same product succeeds and leaves the stock at -1 |
| Orders.WidgetScenario | controllers/productController.js:74-105 | with stock 5 and price 10, ordering 3 costs 30 and leaves stock 2; a second order of 3 is refused with "Insufficient stock for product: Widget" |
| Orders.OrdersOf | controllers/productController.js:145 | the selection holds each of the customer's orders as many times as the store does, and no other order |
| Orders.InsertByDate | controllers/productController.js:142 | inserting into a newest-first sequence keeps it newest first and adds exactly the new order |
| Orders.SortByDate | controllers/productController.js:142 | the sorted orders are newest first and are a permutation of the input |
| Orders.CustomerOrders | controllers/productController.js:123-156 | an empty customer id gives 400 "Customer ID is required"; otherwise the result is the customer's orders, exactly, newest first, and it fails with 400 "No orders found for this customer" exactly when the customer has none |
| Orders.PlacedOrderIsListed | controllers/productController.js:101-105 | an order just placed appears among its customer's listed orders |
| Users.NewUser | models/usersModel.js:3-53 | a new user document has role user, is not verified, has an empty profile picture and no refresh token, and keeps the given id, email and password |
| Users.CreateUser | models/usersModel.js:8-36 | creation succeeds exactly when the required fields are present (password unless googleId is set) and no stored user has the same email or id; it appends exactly that user and keeps the collection's invariants (valid documents, unique emails, unique ids) |
| Auth.FindByEmail | controllers/authController.js:172-174 | finds the first user with that email; finds none exactly when no user has it |
| Auth.FindById | controllers/authController.js:329 | finds the first user with that id; finds none exactly when no user has it |
| Auth.FindResetToken | controllers/authController.js:281 | finds the first reset entry for that token; finds none exactly when no entry has it |
| Auth.Register | controllers/authController.js:60-108 | a validator error gives 400 with its message; a used email gives 400 "User with this email already exists" and no change; a valid request with an unused email succeeds exactly when the new document passes the schema validators and the unique indexes, and a rejection there gives the forwarded-error reply; success appends exactly one user with the hashed password, the fresh token under purpose "verify-email" and the schema defaults, leaves the reset tokens and the existing users as they were, and keeps the user invariants |
| Auth.VerifyEmail | controllers/authController.js:110-160 | fails with 400 "Invalid token" exactly when no user holds the token under purpose "verify-email"; otherwise only the first holder changes: it is marked verified and its token and purpose are cleared |
| Auth.Login | controllers/authController.js:162-234 | a validator error gives 400; an unknown email gives 404 "User not found"; a user without a password makes bcrypt throw, which gives the forwarded-error reply; a wrong password gives 401 "Invalid Credentials"; a right password succeeds, overwriting only that user's stored refresh token and handing out both tokens with the user's id, email and role; the user invariants are kept |
| Auth.RefreshToken | controllers/authController.js:317-357 | a missing token gives 400, a token that does not verify gives the forwarded-error reply, and a token that is not the one stored for the decoded user gives 401 "Invalid refresh token"; success returns a new access token with that user's claims and writes nothing |
| Auth.ForgetPassword | controllers/authController.js:236-274 | an unknown email gives 404 "User not found"; otherwise exactly one reset token, bound to that user, is appended and the users are unchanged; a body without an email binds the token to the first user, and gives 404 only when there are no users |
| Auth.ResetPassword | controllers/authController.js:276-315 | an unknown token gives 400 "Invalid token"; a token whose user is gone gives 404; a missing new password gives the forwarded-error reply; success changes only that user's password to the digest of the new one, deletes exactly that token entry, and keeps the user invariants |
| Auth.RegisterThenVerify | controllers/authController.js:81-140 | the token issued at registration verifies the new user's email and leaves the earlier users unchanged |
| Auth.RegisterThenLogin | controllers/authController.js:79-213 | right after registering, the new user is not yet verified and can log in with the registered password: login does not require a verified email |
| Auth.VerifyEmailIsSingleUse | controllers/authController.js:114-140 | when one user at most holds a verification token, using it a second time fails with "Invalid token" |
| Auth.LoginThenRefresh | controllers/authController.js:202-350 | the refresh token a login hands out is accepted by refreshToken and yields an access token with the same claims |
| Auth.LoginRevokesEarlierRefresh | controllers/authController.js:212-336 | after a second login with a different token, the refresh token from the first login is refused with 401, whichever user it decodes to |
| Auth.ResetPasswordIsSingleUse | controllers/authController.js:281-304 | when a reset token occurs once, reusing it after a successful reset fails with "Invalid token" |
| Auth.ForgetThenReset | controllers/authController.js:249-304 | a fresh reset token issued for an email resets that user's password, leaves the token table as it was before the request, and the user can then log in with the new password |
| RoleGate.RolesAllowed | middleware/roleBasedAuth.js:1-12 | the request goes on exactly when the user's role is in the configured list; otherwise the answer is 403 "You are not authorized to view this routes" and the next handler does not run |
| RoleGate.EmptyGateDeniesAll | middleware/roleBasedAuth.js:4 | an empty role list turns every user away |
| RoleGate.GateIsMonotone | middleware/roleBasedAuth.js:4 | adding roles to the list never turns an admitted request away |
| RoleGate.GateSeesOnlyRole | middleware/roleBasedAuth.js:4 | two users with the same role get the same decision |
| RoleGate.AdminGate | routes/adminRoutes.js:20 | the administrator routes admit exactly administrators |

## Left out

- Catalog.ListProducts: pagination (`page`, `limit`) is not modelled. The result is every matching product, not one page of them.
- Orders.CustomerOrders: pagination is not modelled. Nor is the population of each line's product, which only changes how the reply is shown. Orders with the same `createdAt` come back in an order the contract does not fix.
- Orders.PlaceOrder: the error forwarded to the error middleware after the 404 for a missing product is not modelled; only the 404 reply is. Nor is a failure of `product.save()` or `order.create` in pass 2 (productController.js:94-105): it would leave the stock updates already made in place, since the inner catch undoes nothing. The model assumes every write succeeds. The order schema (models/orderModel.js) is not part of this model either: the `pending` status default and the `createdAt` timestamp are assumed, since the handler passes only the customer, the lines and the total.
- Catalog.ListProducts: the filter is taken literally. The `category` path is not declared in the product schema, so whether Mongoose keeps the filter depends on its `strictQuery` setting. In Mongoose 6 `strictQuery` follows `strict`, so the undeclared `category` path is dropped and every product is listed. In Mongoose 5 and from 7 on, the filter applies literally, as modelled. The Mongoose version is not part of this model.
- Catalog.AddProduct: price and stock are modelled as numbers, so a 0 is falsy and refused. The route parses a multipart body (routes/adminRoutes.js:193), where every field arrives as a string; there "0" is truthy and the product is created. This is not modelled.
- Auth.Login: bcrypt is modelled by an injective stand-in (`Users.Hash`). bcrypt reads only a password's first 72 bytes, so `compareSync` also accepts a different password with the same first 72 bytes. This truncation is not modelled, and the 401 for a wrong password depends on it.
- Http.Unhandled: the error middleware's body (the error in development, `{}` otherwise) is represented by an empty message.
- Administrator `getAllProducts` (controllers/adminController.js:3-14): it only returns the paginated collection, with no filter, so there is nothing to model beyond pagination.
- Auth.ForgetPassword: without an `email`, `findOne({ email: undefined })` has an empty filter and returns an arbitrary user. The model takes it to be the first user in insertion order, and does not model the `sendEmail` call to an undefined address.
- `googleAuthCallback`, passport and sessions: a third-party OAuth flow.
- `sendEmail`: I/O. It is assumed to succeed. If it threw, registration and password reset would answer 500 with the user or token already stored; that path is not modelled.
- bcrypt, jwt and uuid internals, token expiry and signing keys: opaque values passed in as parameters.
- `validateAuth`: its verdict is a parameter.
- The re-validation that `save()` runs in login and reset: not modelled. The invariant `Users.Wf`, which the transitions keep, shows it would pass.
- Malformed ids that make `findById` throw a cast error (a 500): ids are modelled as plain strings.
- Payment, profile and upload handlers, route wiring, Swagger: outside the modelled core.
- Order status transitions (approve/reject) and the handler behind `getProductsByCategory`: their controllers are not part of this model.
- Concurrency: two requests interleaving between the check and the decrement are not modelled. Every handler runs alone.
- Prices and stock are strings in the schema and are coerced to numbers by JavaScript. Here they are integers (price in minor units), and floating point is left out.
