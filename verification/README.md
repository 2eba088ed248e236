# E-commerce backend core in Dafny

This project is a functional model of the order-taking core of an Express and
Mongoose shop backend. The shop sells products with variants, keeps carts for
users and guest sessions, and takes orders with discount codes, loyalty points,
tax and shipping. Administrators manage the orders, users and discount codes.

Every handler is a pure function from a `Store` and a request to an outcome and
a new `Store`. The `Store` holds the products, users, discounts, carts and
orders as sequences. A Mongo lookup (`findById`, `findOne`) is the first
matching element, and its index equals the sequence's length when nothing
matches. Values from outside the request become parameters:

- the clock;
- the guest account's temporary e-mail stamp and password;
- the ids the database assigns;
- the JWT verifier, an oracle from token to user id;
- the calendar bounds of the statistics ranges.

Modules:

- `Wrappers` and `Seqs`: `Option`, `Result`, and small sequence operations.
- `Text`: ASCII case mapping, JavaScript whitespace trimming, prefix test, and split/join on a separator.
- `Pricing`: the tax, shipping and loyalty formula both checkout handlers use.
- `Discounts`: the Discount model, with `isValid`, `calculateDiscount`, schema limits and redemption.
- `Products`: the Product model. This covers the variant schema, the "at least two variants" validator, and the slug pre-save hook.
- `Carts`: the Cart model. This covers `calculateTotal`, the line edit done by `updateCart`, and the line merge done by `mergeCart`.
- `Users`: user records, the e-mail setters, and the address book operations.
- `Orders`: order records, the status update both controllers perform, and the view rule.
- `Inventory`: stock decrements at commit time, including the save-time `min: 0` validation.
- `Checkout`: the checkout pipeline (identity, validation, pricing, commit) and its preview.
- `CartHandlers`, `DiscountHandlers`, `AddressHandlers`, `OrderHandlers` and `Admin`: the controllers.
- `Auth`: the `protect`, `optionalAuth`, `restrictTo` and `adminOnly` middleware.
- `Paging`: the skip and total-pages arithmetic of the paged listings.

Where a Mongoose save validates a document, the model checks the schema
rules that the modelled handlers can break, and takes the 500 path when
they fail. The rules that are not checked are listed under "Left out".
The modelled failures are:

- a variant's inventory going below zero at checkout;
- a cart line set to a negative quantity;
- a discount outside its schema limits;
- an address without street, city or province.

Checkout writes happen one after another with no transaction. The model
therefore keeps a failed commit's partial writes: the order exists, and
the stock decrements before the failing line have been applied.

The "Findings" section lists two places where the source as written does
not do what it evidently means. Both versions are modelled. The handlers
keep the behaviour as written: checkout stores the as-written payment
flag. The corrected definitions sit beside them, with the intended
property proved about each.

## Model

| member | source | states |
|---|---|---|
| Pricing.Tax | src/controllers/checkoutController.js:196-197 | `Math.round` of a tenth of the base: the result is within half a unit of base/10, rounding halves up |
| Pricing.ShippingFee | src/controllers/checkoutController.js:198 | shipping is free exactly when the subtotal exceeds 500000, otherwise the flat 30000 |
| Pricing.PointsEarned | src/controllers/checkoutController.js:203 | points earned are the floor of a tenth of the total |
| Pricing.Price | src/controllers/checkoutController.js:196-203 | the breakdown keeps its inputs, balances (total = subtotal − discount − points + tax + shipping), and its tax, shipping and points obey the three rules above |
| Pricing.TaxRoundsHalfUp | src/controllers/checkoutController.js:197 | `Math.round` rounds every half towards +∞: a base of 10k + 5 taxes k + 1 and a base of 10k − 5 taxes k, for every integer k, negative ones included |
| Pricing.TaxBaseNotClamped | src/controllers/checkoutController.js:196-197 | the base is not clamped at zero: when discount and points exceed the subtotal the tax is at most 0, and below 0 once they exceed it by 6 or more |
| Pricing.TotalCoversReducedSubtotal | src/controllers/checkoutController.js:196-203 | when discount and points together do not exceed the subtotal, the total is at least the reduced subtotal and the points earned are not negative |
| Discounts.CalculateDiscount | src/models/Discount.js:67-75 | an invalid discount gives 0; a percent discount is the subtotal share rounded to the nearest unit; a fixed discount is the smaller of its value and the subtotal |
| Discounts.DiscountAtMostSubtotal | src/models/Discount.js:67-75 | for a non-negative subtotal and a percent value of at most 100, the discount never exceeds the subtotal |
| Discounts.DiscountNonNegative | src/models/Discount.js:67-75 | a non-negative value on a non-negative subtotal never gives a negative discount |
| Discounts.Redeem | src/controllers/checkoutController.js:234-240 | redemption adds one use and appends a usage entry; nothing else in the discount changes |
| Discounts.RedeemKeepsWithinLimit | src/controllers/checkoutController.js:234-240 | redeeming a valid discount never pushes its used count past the usage limit |
| Discounts.OfferAllRedeemsUpToLimit | src/models/Discount.js:62-64 | offered to n checkouts in turn, each redeeming only while `isValid()` holds, a discount is redeemed by the first min(n, remaining uses) of them (none when inactive); its count and history grow by exactly those, the usage invariant is kept, and it stays valid iff it was valid and n is below its remaining uses |
| Discounts.NewDiscount | src/models/Discount.js:20-59 | a new discount has the supplied fields, no uses, no history, and is active; with a usage limit of at least 1 it is valid |
| Discounts.Toggle | src/controllers/discountController.js:169 | the active flag flips and nothing else changes |
| Discounts.ToggleTwice | src/controllers/discountController.js:169 | toggling twice gives back the original discount |
| Discounts.FindByCode | src/controllers/discountController.js:89 | `findOne({ code })`: the first discount with that code, or none |
| Products.VariantErrors | src/models/Product.js:13-23 | the variant list has no schema errors iff every variant has a non-negative price and inventory; a negative inventory is reported at its index |
| Products.Validate | src/models/Product.js:60-74 | a product validates iff it meets the modelled rules (at least two variants, base price and every variant price and inventory non-negative); fewer than two variants and a negative base price are each reported |
| Products.FindProduct | src/controllers/checkoutController.js:119 | `findById`: the first product with that id, or none |
| Products.FindVariant | src/controllers/checkoutController.js:130 | `variants.id(...)`: the first variant with that id, or none |
| Products.Slugify | src/models/Product.js:106-109 | the slug is lower-case letters, digits and single hyphens, with no hyphen at either end, and holds exactly the letters and digits of the lower-cased name, in order |
| Products.CollapseRuns | src/models/Product.js:108 | the replacement leaves only `[a-z0-9]` and hyphens, never two hyphens in a row, and keeps every letter and digit of the input in order; it is empty only for an empty input, and starts with a hyphen iff the input starts outside `[a-z0-9]` |
| Products.CollapseRunsMarks | src/models/Product.js:108 | the replacement equals the character-by-character reading of `/[^a-z0-9]+/g`: each letter or digit is kept, the first character of each maximal run of others becomes one hyphen, and the rest of the run is dropped |
| Products.SlugifyIdempotent | src/models/Product.js:106-109 | slugifying a slug gives the same slug |
| Products.LowerKeepsSlug | src/models/Product.js:107 | lower-casing leaves a well-formed slug unchanged |
| Products.CollapseKeepsSlugChars | src/models/Product.js:108 | a string already made of slug characters without doubled hyphens passes the replacement unchanged |
| Products.PreSave | src/models/Product.js:104-112 | when the name was modified the slug is re-derived from it; otherwise the product is untouched; no other field changes |
| Carts.CalculateTotal | src/models/Cart.js:45-50 | the stored total is the sum of price × quantity over the lines (0 for no lines); nothing else in the cart changes |
| Carts.TotalConcat | src/models/Cart.js:45-50 | the cart total adds up over concatenated line lists |
| Carts.SetLine | src/controllers/cartController.js:87-109 | the edit is refused (the line's `min: 1` fails on save) exactly when the line exists and the new quantity is negative |
| Carts.SetLineSpec | src/controllers/cartController.js:87-109 | a saved edit keeps keys unique, leaves exactly one line of the requested quantity and current price for the key (none for quantity 0 or below), and leaves every other key's lines unchanged |
| Carts.AddLine | src/controllers/cartController.js:190-200 | merging one guest line either adds to the existing line with the same key or appends it when the key is new |
| Carts.AddLineQty | src/controllers/cartController.js:190-200 | the quantity per key grows by the guest line's quantity, for its key only |
| Carts.MergeLinesSpec | src/controllers/cartController.js:190-200 | the merged list extends the user's list in place, keeps keys unique, holds every key from either cart, and sums the quantities per key |
| Carts.MergeKeepsLinesValid | src/controllers/cartController.js:190-200 | merging two carts of valid lines gives valid lines |
| Carts.FindCartOfUser | src/controllers/cartController.js:71 | `findOne({ user })`: the first cart of that user, or none |
| Carts.FindCartOfSession | src/controllers/cartController.js:76 | `findOne({ sessionId })`: the first cart of that session, or none |
| Users.AddAddress | src/controllers/userController.js:10-16 | the address is appended; it becomes the default when it is first or asks to be, and then every other address loses the flag; at most one default is kept |
| Users.ApplyPatch | src/controllers/userController.js:45 | `Object.assign`: supplied fields overwrite and the id stays; without street, city or province in the patch, validity is unchanged |
| Users.UpdateAddress | src/controllers/userController.js:35-54 | unknown id gives none; otherwise the address is patched, and a patch setting the default clears every other address's flag |
| Users.UpdateAddressKeepsOneDefault | src/controllers/userController.js:47-54 | with unique ids, an update keeps at most one default, and a patch setting the default leaves the patched address as the default |
| Users.DeleteAddress | src/controllers/userController.js:74-89 | unknown id gives none; otherwise the address is removed, and if it was the default the first remaining one becomes the default |
| Users.DeleteAddressKeepsOneDefault | src/controllers/userController.js:83-89 | deleting keeps at most one default |
| Users.FindUser | src/middleware/auth.js:27 | `findById`: the first user with that id, or none |
| Users.FindUserByEmail | src/controllers/checkoutController.js:41 | `findOne({ email })`, given the filter after the schema setters (checkout passes it through `Users.NormalizeEmail`): the first user whose stored e-mail equals it, or none |
| Text.Trim | src/models/User.js:22 | `trim`: the result is a slice of the input with no JavaScript whitespace at either end |
| Users.NormalizeEmail | src/models/User.js:17-23 | the stored e-mail has no upper-case letter and no whitespace at either end, and is no longer than the input |
| Users.NormalizeEmailIdempotent | src/models/User.js:17-23 | normalizing a normalized e-mail changes nothing |
| Orders.RecordStatus | src/controllers/orderController.js:108-121 | the status is appended to the history and becomes current; "delivered" marks the order paid now; nothing else changes |
| Orders.RecordStatusAppendsOnly | src/controllers/orderController.js:108-115 | the history grows by one entry and its old entries are kept as a prefix |
| Orders.AdminSetStatus | src/controllers/adminController.js:362-378 | a status outside the five is refused; otherwise it becomes current and is appended with the note, or "" when none is given; payment is not touched |
| Inventory.DecrementStock | src/controllers/checkoutController.js:224-231 | the save succeeds iff the product with the decremented variant still passes the schema; only that product changes |
| Inventory.DecrementStockEffect | src/controllers/checkoutController.js:224-231 | one decrement lowers that variant's stock and raises the product's sold count by the line quantity, and moves no other counter |
| Inventory.ApplyInventoryAccounting | src/controllers/checkoutController.js:224-231 | when every line commits, each variant's stock falls, and each product's sold count rises, by the total requested on the lines |
| Inventory.DistinctLinesCommit | src/controllers/checkoutController.js:118-144 | with schema-valid products and no variant on two lines, the stock check made before the commit guarantees every save succeeds |
| Checkout.ResolveIdentity | src/controllers/checkoutController.js:27-84 | a logged-in user is used as is; with no user, guest info or address the request is refused; otherwise the account whose e-mail equals the guest e-mail, normalized as the schema setters do, is used unchanged, and when there is none the guest account is appended if it passes validation, else the request fails |
| Checkout.ShippingAddress | src/controllers/checkoutController.js:94-112 | a given address id must name one of the user's addresses; else the inline address is used; else "address required" |
| Checkout.PriceLine | src/controllers/checkoutController.js:118-158 | a line prices iff its product and variant exist and stock covers the quantity; the order line snapshots the names, price and subtotal |
| Checkout.PriceLines | src/controllers/checkoutController.js:118-159 | all lines price iff every line is in stock; the order lines snapshot the cart lines one for one |
| Checkout.SnapshotSubtotal | src/controllers/checkoutController.js:146-147 | the sum of the snapshot subtotals is the cart's subtotal at current variant prices |
| Checkout.ApplyDiscount | src/controllers/checkoutController.js:165-176 | no code gives no discount; a code must name a valid discount after upper-casing, and its amount is `calculateDiscount` of the subtotal |
| Checkout.Validate | src/controllers/checkoutController.js:86-203 | validation succeeds iff the user is stored, the cart is non-empty, a shipping address is found, every line is in stock, the code is usable on the live subtotal and the points are within the balance; an accepted checkout has snapshots of every line, the discount from `ApplyDiscount` and the pricing formula applied; an empty cart and insufficient points get their own errors |
| Checkout.StoredPaymentMethod | src/controllers/checkoutController.js:210 | an omitted payment method is stored as "cod"; a given one is stored as is |
| Checkout.OmittedMethodMarkedPaid | src/controllers/checkoutController.js:210-221 | as written, an order with no payment method is stored as cash on delivery yet marked paid |
| Checkout.IsPaid | src/controllers/checkoutController.js:220-221 | corrected: an order is paid iff its stored method is not cash on delivery; it agrees with the as-written flag whenever a method is given |
| Checkout.PaidFlagCorrection | src/controllers/checkoutController.js:210-221 | the corrected and the as-written flag differ exactly when no payment method is given |
| Checkout.BuildOrder | src/controllers/checkoutController.js:206-222 | the stored order carries the validated breakdown, lines, address, points and discount code, and the method with "cod" for an omitted one; as written, it is paid iff the request field is not "cod", and `paidAt` is now exactly when it is paid |
| Checkout.DeleteCartOf | src/controllers/checkoutController.js:252-257 | the user's first cart is removed, or nothing when the user has no cart |
| Checkout.Commit | src/controllers/checkoutController.js:205-257 | the order is always appended and the inventory applied line by line; on success the cart is gone, the user's points move by earned − used, and only the used discount is redeemed; a failing save leaves the order and the earlier decrements in place |
| Checkout.Checkout | src/controllers/checkoutController.js:11-301 | a checkout is not refused iff the identity resolves and validation accepts the request for it; a refused checkout writes no product, discount, cart or order (a logged-in one writes nothing), but may have created the guest; a non-refused one appends exactly its order, marked paid iff the request did not name "cod"; a created order balances and a token is issued only to guests |
| Checkout.CheckoutPricing | src/controllers/checkoutController.js:118-203 | a created order's subtotal is the cart's subtotal at current prices, its discount is that of the upper-cased code, and its breakdown is the pricing formula |
| Checkout.CheckoutStockAccounting | src/controllers/checkoutController.js:224-231 | after a created order every variant's stock falls, and every product's sold count rises, by exactly the quantity ordered |
| Checkout.CheckoutDistinctLinesCommit | src/controllers/checkoutController.js:118-144 | with schema-valid products and no variant ordered on two lines, checkout never fails at the commit |
| Checkout.DuplicateLinesCommitFails | src/controllers/checkoutController.js:139 | two lines of 2 for a variant with 3 in stock pass the per-line check; the second save fails after the order was stored and the stock left at 1 |
| Checkout.GuestCheckoutCreatesAccount | src/controllers/checkoutController.js:31-77 | a guest with only a shipping address gets one new account with the temporary e-mail and that address as default, and a created order belongs to it |
| Checkout.LoggedInCheckoutAccepted | src/controllers/checkoutController.js:86-222 | a logged-in user whose request meets every validation condition gets an order stored in their name |
| Checkout.TemporaryEmailNormal | src/controllers/checkoutController.js:34 | a temporary guest e-mail built from a clock reading is already in the form the schema setters store |
| Checkout.GuestCheckoutReusesAccount | src/controllers/checkoutController.js:40-77 | a guest whose normalized e-mail already has an account gets no new account; a refused checkout writes nothing and a stored order belongs to that account |
| Checkout.CheckoutPaymentFlag | src/controllers/checkoutController.js:210-221 | every stored order carries the requested method (cash on delivery when none), is marked paid iff the request did not name "cod", and has a payment time iff it is marked paid |
| Checkout.Preview | src/controllers/checkoutController.js:304-380 | the preview skips unknown lines, reports an invalid code as not valid instead of refusing it, caps the points at the balance (none for a guest), and prices with the same formula |
| Checkout.PreviewSubtotalResolved | src/controllers/checkoutController.js:318-329 | the preview subtotal is the checkout subtotal of the lines that resolve |
| Checkout.PreviewAgreesWithCheckout | src/controllers/checkoutController.js:304-380 | when a checkout creates an order, the preview of the same cart, code and points shows the same breakdown |
| CartHandlers.CartIndexOf | src/controllers/cartController.js:68-85 | the requester's cart is looked up by user when logged in, else by session id |
| CartHandlers.UpdateCart | src/controllers/cartController.js:37-134 | the update succeeds iff the product and variant exist, stock covers the quantity, there is a user or a session, and the save does not set an existing line below zero; an unknown product or variant answers 404, short stock 400, no user and no session 400; on success only the carts change, the cart is created or replaced in place, and its total is the sum of its lines |
| CartHandlers.UpdateCartLines | src/controllers/cartController.js:87-113 | after a successful update the key holds one line at the current variant price (none for quantity 0 or below), and other keys keep their lines |
| CartHandlers.ClearCart | src/controllers/cartController.js:137-153 | the requester's cart, if any, keeps its owner and loses its lines and total; every other cart is untouched |
| CartHandlers.ClearCartIdempotent | src/controllers/cartController.js:137-153 | clearing twice is the same as clearing once |
| CartHandlers.MergeCart | src/controllers/cartController.js:168-207 | no guest cart or an empty one changes nothing; with no user cart the guest cart is handed to the user; otherwise the lines are merged into the user's cart and the guest cart is deleted |
| CartHandlers.MergeCartLines | src/controllers/cartController.js:190-204 | the merged cart keeps unique keys, contains every key of both carts, and sums the quantities per key |
| DiscountHandlers.CreateDiscount | src/controllers/discountController.js:4-48 | a bad code format and a limit over 10 answer 400 before the write; after those checks, a missing type, a negative value or a limit below 1 fails the schema (500), and a code already stored is a duplicate (400); otherwise a valid, unused discount with the given fields is appended; codes stay unique |
| DiscountHandlers.UpperKeepsCode | src/controllers/discountController.js:9-25 | a code that passes the format check is unchanged by upper-casing |
| DiscountHandlers.ValidateDiscount | src/controllers/discountController.js:84-121 | an unknown code is not found; a code found but invalid is no longer valid; a valid code reports its remaining uses (at least 1) and its amount on the subtotal |
| DiscountHandlers.ValidateAgreesWithCheckout | src/controllers/discountController.js:84-121 | a code is reported valid iff checkout accepts it, and with the same amount |
| DiscountHandlers.ToggleDiscount | src/controllers/discountController.js:158-175 | an unknown id gives 404; otherwise only that discount's active flag flips |
| DiscountHandlers.ToggleDiscountTwice | src/controllers/discountController.js:158-175 | toggling a discount twice restores the store |
| AddressHandlers.SaveBook | src/models/User.js:5-14 | saving an address book succeeds iff every address has a street, city and province |
| AddressHandlers.AddAddressHandler | src/controllers/userController.js:4-22 | with a valid book, adding succeeds iff the new address is valid; on success the book grows by the address; on failure nothing changes; a valid book with unique ids stays so |
| AddressHandlers.UpdateAddressHandler | src/controllers/userController.js:32-62 | an unknown id answers 404; success stores `UpdateAddress`'s result; failure changes nothing; a valid book stays valid |
| AddressHandlers.UpdateKeepsBookValid | src/controllers/userController.js:44-56 | a patched book that passes the schema keeps unique ids and at most one default |
| AddressHandlers.DeleteAddressHandler | src/controllers/userController.js:71-103 | an unknown id answers 404; deleting from a valid book never fails validation; success stores `DeleteAddress`'s result |
| AddressHandlers.DeleteKeepsBookValid | src/controllers/userController.js:83-91 | deleting keeps every address valid, the ids unique and at most one default |
| OrderHandlers.OrdersOf | src/controllers/orderController.js:18-20 | the listed orders are the user's orders, each as often as it occurs in the store |
| OrderHandlers.OrdersOfConcat | src/controllers/orderController.js:18-20 | the listing keeps store order: the orders of a store split in two are those of the first part followed by those of the second |
| OrderHandlers.GetOrders | src/controllers/orderController.js:4-40 | no user answers 401; otherwise the page holds the user's orders from `(page − 1) × limit` on, at most `limit` of them, full unless it reaches the end and non-empty within the page count, with the count and `Math.ceil(count / limit)` pages |
| OrderHandlers.EveryOwnOrderListed | src/controllers/orderController.js:15-29 | each of a user's orders appears on page `i / limit + 1`, at position `i mod limit`, within the page count |
| OrderHandlers.GetOrder | src/controllers/orderController.js:51-85 | no user answers 401; the order is returned iff it exists and the viewer owns it or is an admin; only customers are refused with 403 |
| OrderHandlers.GetOrderAccess | src/controllers/orderController.js:74-80 | an admin may view any order; a customer may view an order iff they own it |
| OrderHandlers.UpdateOrderStatus | src/controllers/orderController.js:96-137 | an unknown id answers 404 and changes nothing; otherwise only that order is replaced by `RecordStatus`'s result |
| OrderHandlers.AdminUpdateOrderStatus | src/controllers/adminController.js:349-385 | an unknown id answers 404; a status outside the five answers 400; otherwise only that order is replaced by `AdminSetStatus`'s result |
| OrderHandlers.AdminStatusStaysValid | src/controllers/adminController.js:362-371 | if every order's status is one of the five before an admin update, it still is after |
| Paging.Skip | src/controllers/orderController.js:16 | the number of entries skipped before a page is `(page − 1) × limit` |
| Paging.TotalPages | src/controllers/orderController.js:29 | `Math.ceil(total / limit)`: the smallest page count whose pages cover the total |
| Paging.Page | src/controllers/orderController.js:15-24 | a page holds at most `limit` consecutive entries from the skip on; it is full unless it reaches the end; a page within the page count is not empty |
| Paging.EntryOnItsPage | src/controllers/orderController.js:15-29 | entry `i` is at position `i mod limit` of page `i / limit + 1`, and that page is within the page count |
| Auth.ExtractToken | src/middleware/auth.js:9-10 | a token is taken iff the header starts with "Bearer" and its second space-separated field is non-empty; the token is that field |
| Auth.BearerRoundTrip | src/middleware/auth.js:9-10 | "Bearer" followed by a space and a space-free token, then any further space-free fields, yields exactly that token |
| Auth.SchemePrefixOnly | src/middleware/auth.js:9 | the check is a prefix test only: "BearerX" followed by a token is accepted too |
| Auth.Protect | src/middleware/auth.js:5-52 | the request passes iff a token is present, verifies, and names a stored user, who is attached; everything else answers 401 |
| Auth.OptionalAuth | src/middleware/auth.js:55-80 | the request always passes; a user is attached only when there is a token |
| Auth.OptionalAgreesWithProtect | src/middleware/auth.js:5-80 | the optional middleware attaches a user iff the protecting one would let the request through, and then attaches the same user |
| Auth.RestrictTo | src/middleware/auth.js:83-93 | with a user, the request passes iff the role is listed, else 403; with no user it crashes (500) |
| Auth.AdminOnly | src/middleware/auth.js:96-109 | the request passes iff there is a user and the role is admin; otherwise 403 |
| Auth.AdminOnlyIsRestrictToAdmin | src/middleware/auth.js:83-109 | with a user, `adminOnly` behaves as `restrictTo('admin')`; with none it answers 403 where `restrictTo` crashes |
| Admin.StatsRange | src/controllers/adminController.js:8-40 | a custom range needs both ends (400 otherwise) and uses them; every preset range ends now; an unknown range means this month |
| Admin.InRange | src/controllers/adminController.js:43-45 | the orders counted are exactly those created within the range, each as often as it occurs in the store |
| Admin.RevenueConcat | src/controllers/adminController.js:49 | revenue adds up over a split of the orders |
| Admin.RevenueCoversEachOrder | src/controllers/adminController.js:49 | with no negative totals, revenue is at least any single order's total |
| Admin.Breakdown | src/controllers/adminController.js:77-87 | the five counters add up to at most the number of orders, and to exactly that number when every status is one of the five |
| Admin.BreakdownCounts | src/controllers/adminController.js:77-87 | each counter is the number of orders currently in its status |
| Admin.AddSale | src/controllers/adminController.js:58-68 | one line either grows its product's entry or appends a new entry for it; entries keep their order |
| Admin.AddSaleSpec | src/controllers/adminController.js:58-68 | after one line, the product ids stay unique and that product's quantity and revenue grow by the line's |
| Admin.TallySpec | src/controllers/adminController.js:55-70 | after all lines, ids stay unique, each product's quantity and revenue are its totals over the lines, and a product has an entry iff some line names it |
| Admin.InsertKeepsSorted | src/controllers/adminController.js:72-73 | inserting into a list sorted by descending quantity keeps it sorted |
| Admin.SortByQty | src/controllers/adminController.js:72-73 | the sort is a permutation of the entries, in descending order of quantity |
| Admin.PermutationKeepsIdsUnique | src/controllers/adminController.js:72-73 | reordering the tallied entries keeps each product at most once |
| Admin.BestSellers | src/controllers/adminController.js:72-74 | at most ten entries, in descending order of quantity |
| Admin.BestSellersAreTop | src/controllers/adminController.js:54-74 | each product appears at most once; each best seller's quantity and revenue are its true totals; a product sold but left off the list means the list is full and every listed product sold at least as much |
| Admin.NewCustomersAtMostCustomers | src/controllers/adminController.js:96-100 | new customers in the range never outnumber all customers |
| Admin.GetStats | src/controllers/adminController.js:6-118 | a custom range without both ends is refused; otherwise the order count, revenue, status breakdown and best sellers are those of the orders in the range, the user count is the number of customers, and the new-user count is the number of customers created in the range, never more than all customers |
| Admin.FoldsConsistent | src/controllers/adminController.js:48-87 | the status counters sum to the order count when every status is known, each counts its status, and no order's total exceeds the revenue when totals are non-negative |
| Admin.ToggleUserBanAsWritten | src/controllers/adminController.js:269-294 | as written: an unknown user answers 404 and an admin 400; otherwise the reply always says banned and nothing is stored |
| Admin.BanToggleNeverUnbans | src/controllers/adminController.js:287-292 | toggling a customer twice answers "banned" both times and leaves the store unchanged |
| Admin.ToggleUserBan | src/controllers/adminController.js:269-294 | corrected: the same refusals, then the stored flag flips and the reply reports the new value |
| Admin.ToggleUserBanTwice | src/controllers/adminController.js:287-288 | with the corrected toggle, banning twice restores the store |
| Admin.UpdateUser | src/controllers/adminController.js:304-339 | an unknown user answers 404; a new e-mail that another user has answers 400; otherwise a non-empty name or e-mail and any point balance supplied replace the old ones, and nothing else changes |
| Admin.UpdateUserKeepsEmailsUnique | src/controllers/adminController.js:317-329 | if e-mails were unique before an update, they are unique after it |
| Text.JoinSplit | src/middleware/auth.js:10 | joining the fields of a split gives back the string |
| Text.SplitJoin | src/middleware/auth.js:10 | splitting a join of separator-free fields gives back the fields |

## Left out

- Persistence, `populate`, indexes and `unique` constraints. The one exception is the discount code's duplicate-key error, which is modelled.
- Sorting by `createdAt`. `getOrders` returns the user's orders in store order rather than newest first.
- Socket events, e-mail, console logging and the issued JWT's contents.
- `jwt.verify` is an oracle parameter; token expiry and signature checks are not modelled.
- Concurrency: two requests interleaving their reads and saves are not modelled; each handler runs alone.
- Floating point: tax, percent discounts and points use exact integer rounding. This matches JavaScript's `Math.round` and `Math.floor` on exact values, but not on values where `x * 0.1` misrounds.
- Date arithmetic: the week, month and year bounds of the statistics ranges come in as a `Calendar` parameter.
- `getStats`: `totalProfit` and `recentOrders` are not modelled.
- `getStats`: the best-seller sort is only shown to produce a descending permutation. That it is stable, as `Array.prototype.sort` is, is not proved.
- `getStats`: an order whose status is outside the five makes `statusBreakdown[status]++` store `NaN` (`undefined + 1`) under that name in the source. The model counts it in none of the five and keeps no sixth key.
- `Admin.NewCustomers`: only states that it counts no more users than there are. Its relation to all customers appears through `Admin.NewCustomersAtMostCustomers`.
- `getAdminOrders`, `getUsers`, `getDiscounts`, `getDiscountUsage`, `getOrderDetails` and `getUserDetails`: only their paging arithmetic (`Paging`) is modelled. The `$regex` search and field projection are not.
- `getCart` is not modelled: it is a read without logic beyond the lookup in `CartHandlers.CartIndexOf`.
- `OrderHandlers.GetOrders`: requires `page ≥ 1` and `limit ≥ 1`. Non-numeric query values (`NaN`) and non-positive ones are not modelled.
- `CartHandlers.MergeCart`: the session id is a plain string. A missing `sessionId` in the body, which makes `findOne` match a cart without a session, is not modelled.
- `Admin.UpdateUser`: `phone` is not a path of the User schema and is not stored. The e-mail is stored and compared as given: the schema's lower-casing and trimming, modelled for guest checkout by `Users.NormalizeEmail`, are not applied here.
- `Products.ProductValid`: checks the variant count, the base price and each variant's price and inventory only. The required `name`, `brand`, `category` and `shortDescription` (at least 50 characters, src/models/Product.js:32-54), the variants' required `sku` and `name` (src/models/Product.js:4-12) and `averageRating` between 0 and 5 (src/models/Product.js:75-80) are not checked, because no modelled handler changes those fields.
- `Auth.Protect`: the `select('-password')` projection is not modelled; users carry no password.
- Product CRUD and search (`productController.js`), reviews and ratings (`Review.js`, `Rating.js`), and the seed script are outside this model.
- The Order model file (`models/Order.js`) is not part of this model. Its id, order number, creation time and initial status come in through `Checkout.Env`.
- `Checkout.Checkout` and `Checkout.Preview` require that the user id the optional-auth middleware attached names a stored user. `optionalAuth` attaches only a user it found, so no request reaching the handlers breaks this.
- Unicode case mapping: `toLowerCase` and `toUpperCase` are modelled on ASCII letters only.

## Findings

| source | as written | input that shows it | evidently intended | confidence | as-written member | corrected member |
|---|---|---|---|---|---|---|
| src/controllers/checkoutController.js:210-221 | `paymentMethod: paymentMethod \|\| 'cod'` stores an omitted method as cash on delivery, but `isPaid: paymentMethod === 'cod' ? false : true` tests the raw field and marks the order paid, with `paidAt` set | a checkout request with no `paymentMethod` | an order stored as cash on delivery is unpaid until delivery | high, not executed | Checkout.OmittedMethodMarkedPaid | Checkout.IsPaid |
| src/controllers/adminController.js:287-292 | `isBanned` is not a path of the User schema (src/models/User.js:16-58), so `user.isBanned = !user.isBanned` sets an unsaved property; each request reloads the user, reads `undefined`, and replies "banned" | calling the ban toggle twice on the same customer | the flag is stored and the toggle alternates between banned and unbanned | medium, not executed | Admin.BanToggleNeverUnbans | Admin.ToggleUserBanTwice |
