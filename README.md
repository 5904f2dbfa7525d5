# Storefront ledger

A model, in Dafny, of the server side of a small digital-goods shop built on Express and
Mongoose. Users sign up and log in. They fund a wallet through the Paystack payment
gateway and spend the balance on one-of-a-kind products, each of which carries a secret that
is meant for its buyer. An admin, signed in with a passcode, adds and deletes products.

The store is the four Mongoose collections (users, products, transactions, orders) plus the
current request's session.

- `Ledger.State` holds them as a value: each collection is a sequence in insertion order.
- Each route handler is a pure function of what it reads.
  - Handlers that answer and write map a state and the request's inputs to an outcome and
    the next state: `Orders.Buy`, `Wallet.Fund`, `Wallet.Callback`, `Wallet.Webhook`,
    `Payment.Pay`, `Users.Signup`, `Users.Login`, `Admin.AdminLogin`, `Admin.AddProduct`,
    `Admin.DeleteProduct`.
  - The read-only handlers return only an outcome: `Payment.PaymentPage` and
    `Users.OrderHistory` from the state, `Users.Shop` from the product table alone.
  - The two logouts return only the next state: `Users.Logout` and `Admin.AdminLogout`.
- The outcome names the redirect or flash message the handler ends with.
- `Storefront.Store` is the running server. It is a class whose fields are the collections
  and the session, with one method per handler. A method that writes updates its fields in
  the order the handler writes them, keeps the schema invariant `Ledger.Valid`, and ends in
  exactly the state its step function describes. The read-only methods (`Shop`,
  `PaymentPage`, `OrderHistory`) change nothing and return what their function returns.

What the model proves, in the shop's own terms:

- A purchase debits exactly the price. It never leaves a negative balance and marks the
  product sold to the buyer. It appends one order that snapshots the product's name, price
  and secret.
- A product is sold at most once.
- A save that fails part-way keeps the earlier saves: there is no rollback.
- A funding request records an `initialized` Transaction under a fresh reference.
- A confirmed payment credits the Transaction's own user or, for a webhook on a Transaction
  with no user, the user with the customer's email. The credit is the gateway's amount in
  kobo divided by 100.
- Confirmations are not idempotent. Each callback or webhook delivery for the same
  reference credits again: k deliveries credit k times the amount. A payment confirmed by
  both the webhook and the callback is credited twice.
- Signup stores the email lower-cased and trimmed. After signup, logging in with that email
  in any letter case reaches the same account. An email with surrounding whitespace only
  does so when the email validator accepts it, which the model takes as an input.
- The shop lists exactly the matching products, newest first.
- The order history is exactly the user's orders, newest first.
- The payment page is rendered with the product record, secret included, only for a
  signed-in user who bought the product or while it is unsold.
- The mock `/pay` action never succeeds and changes nothing.
- After logout every protected handler refuses and changes nothing.
- Admin deletion removes a product from the shop, from purchase and from the payment page.

Two behaviours of the live code differ from what the code itself shows was intended. The
model follows the live code:

- **Credits are not idempotent.** The earlier, commented-out webhook handler credited only
  when the Transaction was missing or not yet a success (routes/walletRoutes.js:98-117). The
  live code credits on every successful callback (routes/walletRoutes.js:234-245) and on
  every `charge.success` event, whatever the Transaction's prior status was: the credit at
  routes/walletRoutes.js:295-302 sits outside the status check at
  routes/walletRoutes.js:288-292. `Wallet.CallbackReplayCredits`, `Wallet.WebhookReplayCredits` and
  `Wallet.FundThenBothConfirmations` prove the repeated credit.
- **`/pay` never succeeds.** Its comment "Simulate payment success" and its success message
  (routes/paymentRoutes.js:58,71) show that it was meant to mark the product sold. The Transaction it creates (routes/paymentRoutes.js:60-65) has no
  `reference`, which the schema requires (models/Transaction.js:16). So the create always
  fails, and the handler reports "Payment failed" before it marks anything sold. `Payment.Pay`
  still models the unreachable success branch, and its contract proves that branch is never
  taken.

## Model

| member | source | states |
|---|---|---|
| Email.Trim | models/User.js:10 | `trim: true`: the result neither starts nor ends with whitespace, and trimming adds no upper-case letter |
| Email.Normalise | models/User.js:9-10 | the stored form of an email: lower-cased, then trimmed |
| Models.NewProduct | models/Product.js:18-30 | `Product.create`: a new product is unsold, has no buyer and is stamped with the creation time |
| Orders.PurchaseOrder | routes/orderRoutes.js:49-61 | the order of a purchase: one item of quantity 1 with the product's name, price and secret, the price as total, status "Completed" |
| Wallet.ValidAmount | routes/walletRoutes.js:181-182 | `!amount \|\| amount < 1` rejects NaN, 0 and anything below 1 |
| Payment.MayAccess | routes/paymentRoutes.js:24 | the page and `/pay` admit an unsold product, or one whose buyer is the signed-in user |
| Users.MatchesFilter | routes/userRoutes.js:116-119 | an empty country or platform does not constrain; a non-empty one must match exactly |
| Admin.ProductFieldsValid | routes/adminRoutes.js:58-61 | name, secret, country and platform must be non-empty |
| Collections.FirstIndex | routes/orderRoutes.js:21-22 | the first index whose element satisfies the query, or None exactly when no element does, as `findById`/`findOne` return the first match |
| Collections.Filter | routes/userRoutes.js:122 | `find(filter)`: every matching document and only those, each with its multiplicity |
| Collections.InsertNewestFirst | routes/userRoutes.js:122 | inserting into a newest-first list keeps it newest first and adds exactly the element |
| Collections.SortNewestFirst | routes/userRoutes.js:122 | `sort({ createdAt: -1 })`: a permutation of its input ordered by non-increasing timestamp |
| Email.LowerChar | models/User.js:9 | `lowercase: true` per character: the result is never upper case; letters map to lower case; other characters, whitespace included, are kept |
| Email.Lower | models/User.js:9 | lower-casing an email keeps its length, maps every character, and leaves no upper-case letter |
| Email.TrimStart | models/User.js:10 | the suffix left after dropping exactly the leading whitespace |
| Email.TrimEnd | models/User.js:10 | the prefix left after dropping exactly the trailing whitespace |
| Email.LowerOfLowered | models/User.js:9 | lower-casing a string without upper-case letters changes nothing |
| Email.TrimOfTrimmed | models/User.js:10 | trimming a string without surrounding whitespace changes nothing |
| Email.NormalisedIsFixed | models/User.js:9-10 | a normalised email is its own normal form |
| Email.NormaliseIdempotent | models/User.js:9-10 | every normalised email is normalised, and normalising twice equals normalising once |
| Models.NewUser | models/User.js:5-20 | `User.create` succeeds exactly when both required fields are non-empty after the setters; it stores the normalised email and a zero balance |
| Models.NewTransaction | models/Transaction.js:15-22 | `Transaction.create` succeeds exactly when a non-empty reference is given; it keeps user and amount; an omitted status defaults to `initialized` |
| Models.Naira | routes/walletRoutes.js:244 | `(amount \|\| 0) / 100`: a missing amount is 0; otherwise 100 times the result is the kobo amount |
| Ledger.UserIndex | routes/orderRoutes.js:22 | `User.findById`: the first user with the id, or None when no user has it |
| Ledger.UserIndexByEmail | routes/userRoutes.js:42 | `User.findOne({ email })`: the first user whose stored email is the query normalised, or None when there is none |
| Ledger.ProductIndex | routes/orderRoutes.js:21 | `Product.findById`: the first product with the id, or None when there is none |
| Ledger.TxIndex | routes/walletRoutes.js:278 | `Transaction.findOne({ reference })`: the first Transaction with the reference, or None when there is none |
| Ledger.UsersValid | models/User.js:5-15 | the user table's integrity: ids and emails unique (`unique: true`), every email stored in its normal form and non-empty, every password hash non-empty (`required: true`) |
| Ledger.ProductsValid | models/Product.js:27-28 | product ids unique, and a product has a buyer exactly when it is sold, as every live write sets both together |
| Ledger.TransactionsValid | models/Transaction.js:16-19 | references non-empty and unique (`required`, `unique`), and no Transaction has the status `failed`, which no live route writes |
| Ledger.Valid | models/User.js:5-15 | the store's integrity: the user, product and Transaction invariants together |
| Ledger.BalancesOnlyKeepValid | models/User.js:5-19 | a table that differs only in balances keeps the unique and required-field invariant |
| Ledger.SetBalanceKeepsValid | routes/orderRoutes.js:40-41 | saving one user's new balance keeps the user invariant |
| Ledger.AddUserKeepsValid | models/User.js:5-15 | appending a user with a new id and a new normalised, non-empty email keeps the user invariant |
| Ledger.SetProductKeepsValid | routes/orderRoutes.js:44-46 | saving one product with the same id and a consistent sold flag keeps the product invariant |
| Ledger.Credit | routes/walletRoutes.js:245 | `findByIdAndUpdate(id, { $inc })`: the user with the id gains exactly the amount, every other user is unchanged, and a null or unknown id changes nothing |
| Ledger.SameAccountsSameIndex | routes/walletRoutes.js:245 | a balance change moves no lookup by id or by email |
| Ledger.CreditBalance | routes/walletRoutes.js:245 | after a credit, the user's balance is the old balance plus the amount |
| Ledger.SameReferencesSameIndex | routes/walletRoutes.js:236-240 | updating a Transaction's status or metadata moves no lookup by reference |
| Ledger.UserIndexByEmailAppend | routes/userRoutes.js:49 | a created user whose email no one else has is the one a later lookup of that email finds |
| Ledger.TxIndexAppend | routes/walletRoutes.js:190-195 | a created Transaction with a new reference is the one a later lookup of the reference finds |
| Ledger.UserIndexUnique | models/User.js:8 | with unique emails and ids, the lookup by a user's id finds that user |
| Ledger.TxIndexUnique | models/Transaction.js:16 | with unique references, the lookup by a Transaction's reference finds that Transaction |
| Orders.CanBuy | routes/orderRoutes.js:20-37 | the purchase guards pass: signed in, the product exists unsold, the buyer exists and the balance covers the price |
| Orders.Buy | routes/orderRoutes.js:18-75 | not signed in, unknown product, already sold, missing buyer and insufficient balance each refuse and change nothing; the purchase succeeds exactly when all guards pass and no save fails |
| Orders.BuySuccess | routes/orderRoutes.js:39-65 | a purchase debits the price and leaves a non-negative balance; it marks the product sold to the buyer and appends exactly the order for it; it touches no transaction and no other record |
| Orders.BuyPartialFailure | routes/orderRoutes.js:40-73 | a save that throws keeps the saves before it, creates no order and reports failure |
| Orders.BuyKeepsInvariant | routes/orderRoutes.js:18-75 | every purchase attempt keeps the schema invariant and keeps balances non-negative |
| Orders.SoldOnce | routes/orderRoutes.js:29-32 | after a purchase, any later purchase of the product by anyone is refused as already sold and changes nothing |
| Orders.BuyScenario | routes/orderRoutes.js:34-62 | a user with 5000 buying a product priced 3000 keeps 2000 and owns the product; one completed order exists |
| Wallet.QueryReference | routes/walletRoutes.js:223-227 | the callback's reference is missing exactly when both query parameters are empty |
| Wallet.PendingTransaction | routes/walletRoutes.js:190-195 | the record a funding request creates: the reference, the session user, the amount in Naira, status `initialized`, no metadata |
| Wallet.Fund | routes/walletRoutes.js:179-217 | not signed in, an invalid amount and an unusable reference refuse without change; a valid request with a fresh reference records exactly one `initialized` Transaction for the session user before the gateway call, then redirects when the gateway returned a URL and otherwise fails with the Transaction left in place |
| Wallet.ConfirmTransaction | routes/walletRoutes.js:236-240 | `findOneAndUpdate` sets the found Transaction to success with the verify payload, whatever its status was; an unknown reference changes nothing; it keeps the Transaction invariant |
| Wallet.Callback | routes/walletRoutes.js:220-258 | the refusals change nothing; a successful verify of a known reference confirms its Transaction and credits the Transaction's user by the verified amount; an unknown reference changes nothing |
| Wallet.FundKeepsValid | routes/walletRoutes.js:179-217 | funding keeps the schema invariant |
| Wallet.CallbackKeepsValid | routes/walletRoutes.js:220-258 | a callback keeps the schema invariant |
| Wallet.RecordCharge | routes/walletRoutes.js:278-292 | an unknown reference creates a user-less success Transaction, or fails for an empty reference; a known one becomes a success; an existing success is kept; the invariant holds |
| Wallet.CreditCharge | routes/walletRoutes.js:295-302 | an event credits the Transaction's user; failing that, the user matching the customer email; failing that, nobody; only balances change |
| Wallet.Webhook | routes/walletRoutes.js:262-310 | a bad signature is refused without change; a body that does not parse, and a `charge.success` without data, are answered 500 without change; other events are answered 200 without change; a `charge.success` records the charge, then credits; products, orders and session never change |
| Wallet.WebhookKeepsValid | routes/walletRoutes.js:262-310 | a webhook delivery keeps the schema invariant |
| Wallet.CallbackCreditsTxUser | routes/walletRoutes.js:234-245 | one successful callback keeps the Transaction's owner and makes it a success; the owner gains the verified amount |
| Wallet.ConfirmKeepsOwner | routes/walletRoutes.js:236-240 | confirming keeps the Transaction's owner and makes it a success |
| Wallet.RecordKeepsOwner | routes/walletRoutes.js:278-292 | recording a charge for an owned Transaction keeps the owner and leaves it a success |
| Wallet.Repeated | routes/walletRoutes.js:245 | no credits add nothing |
| Wallet.RepeatedIsProduct | routes/walletRoutes.js:245 | n equal credits add n times the amount |
| Wallet.CallbackReplayCredits | routes/walletRoutes.js:234-245 | k repeated successful callbacks for one reference credit its owner k times the amount; the Transaction is already a success after the first |
| Wallet.WebhookCreditsTxUser | routes/walletRoutes.js:278-302 | one signed `charge.success` event keeps the Transaction's owner and makes it a success; the owner gains the amount |
| Wallet.WebhookChargeShape | routes/walletRoutes.js:272-302 | for an owned reference, a signed `charge.success` event records the charge and credits that owner |
| Wallet.WebhookReplayCredits | routes/walletRoutes.js:278-302 | k deliveries of the same signed event credit the owner k times the amount, although the Transaction is a success after the first |
| Wallet.FundThenBothConfirmations | routes/walletRoutes.js:179-302 | funding 2000 records an initialized Transaction; the webhook then credits 2000 and the later callback another 2000 |
| Payment.PaymentPage | routes/paymentRoutes.js:17-34 | the page is rendered with the product record exactly when the user is signed in, the product exists and it is unsold or sold to this user; a product sold to someone else is refused as sold |
| Payment.MarkSold | routes/paymentRoutes.js:67-69 | marks exactly the products with the id sold to the user and keeps every other product |
| Payment.Pay | routes/paymentRoutes.js:37-79 | each guard refuses as the handler does; an accessible product ends in "Payment failed"; no call changes the store or reports success |
| Payment.BuyerMayReturn | routes/paymentRoutes.js:24 | after a purchase the buyer's page is still rendered with the record carrying the secret, and the mock payment fails for them only after its guards; any other user is refused as sold by both |
| Users.SignupFieldsValid | routes/userRoutes.js:27-30 | the signup validators: the email validator accepts the email and the password has at least 6 characters |
| Users.Signup | routes/userRoutes.js:25-62 | invalid fields and a taken email (in any letter case) refuse without change; an email or hash that is empty after the setters, or a taken id, fails without change; success is exactly valid, new and storable; it appends the normalised user and signs that user in |
| Users.SignupKeepsValid | routes/userRoutes.js:42-49 | signup keeps the schema invariant: the stored email is normalised and new |
| Users.SignupCaseInsensitive | routes/userRoutes.js:42-46 | once an email has signed up, any valid email with the same normal form is refused as taken |
| Users.Login | routes/userRoutes.js:68-106 | invalid fields refuse; an unknown email and a wrong password are both refused as invalid credentials; success is exactly a found user with a matching password; only the session changes |
| Users.LoginFinds | routes/userRoutes.js:83-96 | a login whose email finds a user with a matching password signs in exactly that user |
| Users.SignupThenLogin | routes/userRoutes.js:49-96 | after signup, logging in with an email the validator accepts and that has the same normal form (any letter case) signs in the new account |
| Users.Logout | routes/userRoutes.js:108-112 | logout leaves no user and no admin flag; the collections are untouched |
| Users.Shop | routes/userRoutes.js:115-137 | lists every product matching the non-empty filters, sold or not, and only those, each once per copy, newest first |
| Users.ShopUnfilteredListsAll | routes/userRoutes.js:116-122 | without filters the shop lists every product |
| Users.OrderHistory | routes/userRoutes.js:142-152 | none without a session; otherwise exactly the user's orders, each once per copy, newest first |
| Users.PurchaseInHistory | routes/orderRoutes.js:49-62 | a purchase shows up in its buyer's order history with the product's name, price and secret |
| Admin.AdminLogin | routes/adminRoutes.js:23-41 | an empty passcode is refused; the admin flag is set exactly when the passcode equals the configured one; any other passcode is refused as invalid; nothing else changes |
| Admin.AdminLogout | routes/adminRoutes.js:43-47 | clears the admin flag and keeps the signed-in user and the collections |
| Admin.PriceOf | routes/adminRoutes.js:77 | `Number(price \|\| 0)`: a missing field is 0 and a number is itself; a non-number cannot be stored |
| Admin.AddProduct | routes/adminRoutes.js:55-87 | non-admins and missing required fields are refused without change; a non-numeric price or a taken id fails without change; otherwise the product is added, unsold, with those fields |
| Admin.AddedProductOnSale | routes/adminRoutes.js:70-78 | an added product is the one its id finds; it is unsold, has no buyer and holds its secret |
| Admin.AddProductKeepsValid | routes/adminRoutes.js:55-87 | adding a product keeps the schema invariant |
| Admin.RemoveProduct | routes/adminRoutes.js:91 | `findByIdAndDelete`: removes the product the id finds; an unknown id changes nothing |
| Admin.DeleteProduct | routes/adminRoutes.js:89-98 | non-admins are refused without change; otherwise the product is removed and nothing else changes |
| Admin.DeleteRemoves | routes/adminRoutes.js:89-98 | after deletion no product has the id; every other product remains; only removed products are gone; the count drops by one exactly when the id existed |
| Admin.RemoveAtKeepsValid | routes/adminRoutes.js:91 | removing one product keeps the product invariant |
| Admin.DeleteKeepsValid | routes/adminRoutes.js:89-98 | deleting keeps the schema invariant |
| Access.LoggedOutIsRefused | routes/walletRoutes.js:153-159 | the session guards (this one, and routes/orderRoutes.js:9-15, routes/paymentRoutes.js:8-14, routes/userRoutes.js:12-18, routes/adminRoutes.js:10-16): after logout, buy, fund, callback, the payment page, pay (with or without a product id), order history and the admin product actions all refuse and change nothing |
| Access.DeletedNotInShop | routes/adminRoutes.js:89-98 | a deleted product is in no shop listing, whatever the filter |
| Access.DeletedNotForSale | routes/adminRoutes.js:89-98 | a deleted product cannot be bought and has no payment page |
| Access.AddedProductListed | routes/adminRoutes.js:69-78 | an added product is listed by the unfiltered shop, and its payment page is rendered with it for any signed-in user |
| Storefront.Store.Buy | routes/orderRoutes.js:18-75 | the purchase method saves step by step, keeps the invariant and ends in the state and outcome of `Orders.Buy` |
| Storefront.Store.Fund | routes/walletRoutes.js:179-217 | keeps the invariant and ends as `Wallet.Fund` |
| Storefront.Store.Callback | routes/walletRoutes.js:220-258 | keeps the invariant and ends as `Wallet.Callback` |
| Storefront.Store.Webhook | routes/walletRoutes.js:262-310 | keeps the invariant and ends as `Wallet.Webhook` |
| Storefront.Store.PaymentPage | routes/paymentRoutes.js:17-34 | returns the outcome of `Payment.PaymentPage` and changes nothing |
| Storefront.Store.Pay | routes/paymentRoutes.js:37-79 | keeps the invariant and ends as `Payment.Pay` |
| Storefront.Store.Signup | routes/userRoutes.js:25-62 | keeps the invariant and ends as `Users.Signup` |
| Storefront.Store.Login | routes/userRoutes.js:68-106 | keeps the invariant and ends as `Users.Login` |
| Storefront.Store.Logout | routes/userRoutes.js:108-112 | ends as `Users.Logout` |
| Storefront.Store.Shop | routes/userRoutes.js:115-122 | returns `Users.Shop` of the product table and changes nothing |
| Storefront.Store.OrderHistory | routes/userRoutes.js:142-152 | returns `Users.OrderHistory` and changes nothing |
| Storefront.Store.AdminLogin | routes/adminRoutes.js:23-41 | ends as `Admin.AdminLogin` |
| Storefront.Store.AdminLogout | routes/adminRoutes.js:43-47 | ends as `Admin.AdminLogout` |
| Storefront.Store.AddProduct | routes/adminRoutes.js:55-87 | keeps the invariant and ends as `Admin.AddProduct` |
| Storefront.Store.DeleteProduct | routes/adminRoutes.js:89-98 | keeps the invariant and ends as `Admin.DeleteProduct` |

## Left out

- Rendering, redirect targets and flash texts. The outcome datatypes name which one a handler
  ends in.
- The `GET` pages that only render: the signup, login and admin-login forms, the wallet page
  and the admin listings of products, orders and users (routes/adminRoutes.js:50-53,
  101-112).
- The shop's dropdown options (`Product.distinct`, routes/userRoutes.js:123-124): they do not
  affect the listing.
- I/O and foreign code become inputs:
  - the HMAC-SHA512 digest (`hmac`);
  - `JSON.parse` of the raw body (`parse`, None when it throws);
  - the email validator (`isEmail`);
  - bcrypt's hash (`passwordHash`) and compare (`passwordMatches`);
  - the gateway's initialize and verify responses (`authorizationUrl`, `verify`);
  - the generated ids, references and clock readings (`newId`, `reference`, `now`).
- Database failures are modelled as follows:
  - A collision of a generated id or reference with an existing one is a failed create, as
    the unique index makes it.
  - Failing saves are modelled for the purchase (`Orders.SaveFault`), where a failure
    part-way leaves a visible partial state.
  - Elsewhere a lost connection is not modelled.
- Malformed ids (Mongoose cast errors in `findById`) are not modelled: ids are abstract
  naturals.
- Concurrency is not modelled: requests run one at a time against one session. So two
  requests cannot race past the purchase guards, and unique-index races are out of scope.
- Numbers are exact reals, not IEEE doubles. Rounding in `Math.round(amount * 100)` and in
  the kobo-to-Naira division is not modelled; the amount sent to the gateway does not reach
  the store.
- A non-numeric price (NaN) makes the create fail, as Mongoose's Number cast rejects it. That
  is the only non-number the model distinguishes.
- The email setters are modelled for ASCII case and for the common whitespace characters.
  Full Unicode case mapping and the whole JavaScript whitespace class are not modelled.
- The password length check counts code points. validator.js's `isLength` also skips the
  variation selectors U+FE0E and U+FE0F, so a password padded with them can pass the model's
  check and fail the real one.
- The templates are not modelled. The payment page and the shop hand whole product records,
  secret field included, to templates that decide what is displayed
  (routes/paymentRoutes.js:28, routes/userRoutes.js:126). The model states which records a
  page is rendered with, not what it shows. The product schema's note that the secret is
  revealed after purchase (models/Product.js:7) is a claim about those templates.
- The webhook is modelled as receiving the raw request bytes, which it signs and parses. Both
  server.js:29 and app.js:32 install `express.json()` before the routers. If that parser
  consumes a JSON delivery first, `express.raw` passes the parsed object on and the signature
  step at routes/walletRoutes.js:265 throws, so every delivery is answered 500 and credits
  nothing. The webhook lemmas, including the double credit, assume the raw bytes arrive.
- Mongoose applies the schema's `lowercase` and `trim` setters to query values. The model
  lets `findOne({ email })` apply them too.
- The User schema's `timestamps`. Products and Transactions keep `createdAt`.
- An event whose `data.reference` is absent is represented by the empty reference, which the
  Transaction schema refuses.
- models/Order.js is not part of this model. The Order record is the shape that
  routes/orderRoutes.js:49-61 builds, plus a `createdAt` field those lines do not set. The
  model assumes the Order schema stamps each order with its creation time, which is what
  `Users.OrderHistory` sorts on.
- The commented-out earlier versions of the schemas and of the wallet routes are not
  modelled; only the live code is.
- Wallet.Repeated: states only its base case; its value is characterised by
  Wallet.RepeatedIsProduct.
