# FlashPoint Crackers — inventory, settlement and login rules in Dafny

FlashPoint Crackers is a small fireworks shop. Three browser pages share one realtime store:

- **The admin dashboard** (`admin.js`).
  - It keeps the product catalogue: add, edit, restock, filter by stock class, counters and a low-stock badge.
  - It runs a point-of-sale terminal. The terminal's bag is a dictionary from product id to requested quantity. The operator edits it in place and then settles it with a sale.
- **The customer storefront** (`shop.js`).
  - It has product search, a cart and a wishlist.
  - Checkout fills every cart line in full, in part or not at all. It then writes the stock back and cleans up the cart.
- **The login page** (`auth.js`).
  - A password-strength meter, the registration checks, routing by role, and the messages for authentication errors.

This project models those rules and proves properties about them. The admin dashboard and the storefront read the same inventory snapshot; the login page reads none. A product has a price and a stock that sits in `quantity`, in the legacy `qty` field, or in neither.

The snapshot appears in two forms, as the pages hold it:
- a map from product id to product (`Inventory.Snapshot`), where a page looks products up by id: the terminal's bag, the cart and checkout;
- the product array in store order (`seq<Product>`), where a page filters or counts it: the stock filters, the counters, the badge and search. A `Product` value carries no id, so two records with equal fields are two equal elements of that sequence. For that reason the filters are specified by the number of copies of each record they keep (a multiset), not only by membership.

**How the model represents things:**

- **Prices** are integer minor currency units. An input that does not parse is `None`.
- **Stock** is normalised exactly as the pages do it: `quantity`, else `qty`, else 0.
- **JavaScript dictionaries** are Dafny maps. When the enumeration order matters (sums, the bag's key list, loops over a cart), a separate key sequence stands for `Object.keys`.
- **Store writes** are returned as values:
  - a single cart write (`SetLine` or `RemoveLine`);
  - the multi-path stock update (a map from id to new quantity);
  - a sale record.
- **The store's success or failure** is a boolean parameter.
- **The point-of-sale bag** is the one thing the source mutates in place, so it is a class, `PointOfSale.Terminal`, with methods that modify it.
- **Loops** in the source become methods with loop invariants. These are the totals loop and the sale loop of the terminal, the cart view, and the two loops of checkout. Each method is proved equal to a specification function, and the properties are proved about that function.

Modules:

- `Common`: Option, filtering, key order of a dictionary, order-free sums of dictionary values.
- `Inventory`: products, stock normalisation, the effective quantity of a line, the shown total of a bag or cart, the atomic stock update.
- `PointOfSale`: the terminal's bag, its totals and the sale.
- `StockAdmin`: stock classes, filters, counters, badge, restocking, the product form.
- `NameEscape`: the HTML-attribute escaping of product names.
- `Storefront`: search, cart and wishlist handlers, the cart view.
- `Checkout`: the partial-fill checkout and the cart clean-up.
- `Auth`: the strength meter, registration, login routing, error messages.

Four behaviours of the source are proved as they are:

- **A cart line at zero is bought.** Checkout treats a cart line held at 0 as filled in full (0 ≤ stock). A cart holding only such lines places an order of nothing (`Checkout.ZeroLineIsPurchased`).
- **Clean-up depends on which snapshot it reads.** Clean-up re-reads the product snapshot after the stock update.
  - If that snapshot still shows the old stock, exactly the bought lines leave the cart (`Checkout.CleanupRemovesPurchasedLines`).
  - If it already shows checkout's own update, a line bought to the last unit, or bought only in part, stays in the cart at 0 (`Checkout.CleanupAfterStockEcho`).
  - Which snapshot is seen depends on the store's event timing, so that snapshot is a parameter.
- **The escaping round trip needs names without `&`.** These lemmas are about the two `replace` chains as string functions, the escaping at admin.js:284 and the unescaping at admin.js:616. For names without `&` the chains invert each other (`NameEscape.EscapeRoundTrip`). A name that already contains `&#39;` comes back from the chains with an apostrophe (`NameEscape.AmpersandBreaksRoundTrip`). On the page the browser stands between the two chains (see "## Left out").
- **A sale whose record fails has already taken the stock.** When the stock update succeeds but the sale record is refused, `PointOfSale.Terminal.SellBag` returns `SaleFailed(_, true)` and leaves the bag as it was. The stock is already decremented, so selling the same bag again takes the same lines a second time. For example, a bag holding 2 of a product with stock 5 leaves stock 3 after the failed sale and 1 after the retry.

## Model

| member | source | states |
|---|---|---|
| Common.Filter | admin.js:674-687 | `Array.prototype.filter`: the result is an in-order subsequence that keeps every copy of each element passing the test and no copy of any other element |
| Common.KeyOrderEmpty | shop.js:253 | a dictionary has no keys exactly when it is empty |
| Common.ValueSumOrderIrrelevant | shop.js:383-386 | summing a dictionary's values gives the same result for every enumeration order of its keys |
| Inventory.Available | admin.js:211 | the stock of a product is its `quantity` when present, else its `qty` when present, else 0 |
| Inventory.UnitPrice | admin.js:448 | a price that parses is used as it is; one that does not parse counts as 0 |
| Inventory.DisplayName | admin.js:451 | a product's shown name is its name, or "Unnamed Product" when the name is empty; never empty |
| Inventory.Effective | admin.js:446 | the quantity a line can use is min(requested, available): at most each, and equal to one of them |
| Inventory.WithQuantity | shop.js:490 | writing `products/<id>/quantity` makes the normalised stock exactly the written value, whatever `qty` held |
| Inventory.ApplyQuantityWrites | admin.js:468 | the atomic multi-path update writes only `products/<id>/quantity`: a listed product keeps every other field (name, category, description, price, `qty`) and gets the written value as its stock; every other product is unchanged |
| Inventory.LedgerTotalNonNegative | admin.js:392-397 | with non-negative prices, stock and requests, the shown total of a bag or cart is never negative |
| PointOfSale.DiscountInput | admin.js:378-382 | the discount field reads as 0 when unparsable or negative, and as its value otherwise |
| PointOfSale.RenderTotals | admin.js:369-431 | empty bag: zeros and selling disabled; otherwise subtotal = Σ price·min(bag, stock) over known products in key order, discount = min(input, subtotal), total = max(0, subtotal − discount) ≥ 0, selling enabled iff total > 0 |
| PointOfSale.SalePlanUpdates | admin.js:442-452 | the sale's update map has a key exactly for each line whose product exists and whose min(bag, stock) > 0, and it writes stock − sold there, never negative |
| PointOfSale.SalePlanItems | admin.js:442-452 | each sale item is a sellable line at its effective quantity, current price and shown name ("Unnamed Product" for an empty name), every sellable line has an item, and the subtotal is Σ price·qty over the items |
| PointOfSale.SalePlanSizes | admin.js:454-457 | the sale has items exactly when it has stock writes, and one of each per line |
| PointOfSale.PlanSale | admin.js:439-452 | the sale loop computes exactly the specified sale plan |
| PointOfSale.SaleDiscount | admin.js:459-465 | the sale's discount is 0 for unparsable or negative input, otherwise the input capped at the subtotal, so within [0, subtotal] |
| PointOfSale.SaleRecordOf | admin.js:470-478 | the record carries the plan's items and subtotal and the sale's discount; with a subtotal ≥ 0 the discount lies in [0, subtotal] and total = subtotal − discount; the total is never negative; the operator's uid is recorded, as that operator's uid, iff someone is signed in; the email is recorded, as that operator's email, iff someone is signed in with a non-empty email |
| PointOfSale.SaleDiscountMatchesDisplay | admin.js:459-465 | the sale applies the same discount the totals showed: min(non-negative input, subtotal) |
| PointOfSale.SaleRecordAccounting | admin.js:470-480 | the sale record's subtotal is Σ price·qty over its items and ≥ 0, discount within [0, subtotal], total = subtotal − discount ≥ 0 |
| PointOfSale.ItemsSubtotalNonNegative | admin.js:450 | with non-negative prices, sold items never add up to a negative subtotal |
| PointOfSale.SaleSubtotalMatchesDisplay | admin.js:393-397 | with no negative stock or request, the sale charges exactly the subtotal shown under the bag |
| PointOfSale.SaleStockNeverNegative | admin.js:447 | after the sale's update every sold product holds its old stock minus the quantity sold, ≥ 0; other products are unchanged |
| PointOfSale.Terminal.constructor | admin.js:5 | the bag starts empty |
| PointOfSale.Terminal.AddToBag | admin.js:324-335 | unknown product, no stock, or line already at the stock: bag unchanged; otherwise that line becomes current + 1 ≤ stock, no other line changes, and a bag within stock stays within stock |
| PointOfSale.Terminal.ChangeBagQty | admin.js:344-360 | result ≤ 0 deletes the line; above the stock the line is set to exactly the stock (possibly 0); otherwise to the result; other lines unchanged, key order kept |
| PointOfSale.Terminal.RemoveFromBag | admin.js:363-366 | deletes that line only |
| PointOfSale.Terminal.ClearPosBag | admin.js:338-341 | empties the bag |
| PointOfSale.Terminal.SellBag | admin.js:435-487 | empty bag or nothing sellable: no writes, bag unchanged; otherwise issues the planned stock update and the record; the bag is emptied, unsold remainders included, only when both writes succeed, and is untouched otherwise |
| StockAdmin.StockClassesPartition | admin.js:208-227 | low (0<q<5), in stock (q≥5) and out of stock (q=0) are disjoint and cover every q ≥ 0; a negative q is in none but raises the badge (q<5) |
| StockAdmin.FilterKindOf | admin.js:203-232 | the names `low`, `instock` and `outofstock` choose their stock class, and any other name (`all` included) shows every product |
| StockAdmin.FilterProducts | admin.js:193-235 | each named filter returns an order-preserving subsequence holding every copy of each product of its class and nothing else; all products returns the array unchanged |
| StockAdmin.StockStats | admin.js:659-687 | the total is the number of products, and each counter is the length of its class filter (low, in stock, out of stock); each counter is at most the total and is 0 exactly when no product is in its class |
| StockAdmin.StatsPartition | admin.js:659-687 | when no stock is negative, the low, in-stock and out-of-stock counters add up to the product count |
| StockAdmin.ShowRestockBadge | admin.js:731-745 | the badge shows exactly when some product has stock below 5 |
| StockAdmin.AddQuantity | admin.js:632-656 | a missing, zero or negative amount is rejected; an unknown product is ignored; otherwise the write is normalised stock + amount, strictly more than before |
| StockAdmin.RestockAddsAmount | admin.js:645-646 | once written, the product's normalised stock is its old stock plus the amount, even if it was kept in `qty` |
| StockAdmin.TrimProperties | admin.js:494-500 | `trim` keeps the middle of the field: what is cut on each side is white space, what is kept starts and ends with a visible character, and it is empty iff the field is blank |
| StockAdmin.ValidateProductForm | admin.js:490-519 | accepted iff trimmed name, category and trimmed description are non-empty and price and quantity parse; the fields written are the trimmed ones, and an empty image becomes the placeholder |
| NameEscape.Escape | admin.js:284 | the two replace passes replace every `'` by `&#39;` and every `"` by `&quot;` and leave other characters alone, so the escaped name contains no quote of either kind |
| NameEscape.Unescape | admin.js:616 | text without `&` holds no entity and is left unchanged |
| NameEscape.EscapeRoundTrip | admin.js:616 | for a name without `&`, unescaping the escaped name gives the name back |
| NameEscape.AmpersandBreaksRoundTrip | admin.js:616 | the name `&#39;` does not survive: it comes back as `'` |
| Storefront.Lower | shop.js:42 | ASCII lower-casing keeps the length and lower-cases each character |
| Storefront.LowerIdempotent | shop.js:42 | lower-casing twice is lower-casing once |
| Storefront.IncludesIff | shop.js:44 | `includes` holds iff the term occurs at some position |
| Storefront.Search | shop.js:41-49 | the shown products are an order-preserving subsequence holding every copy of each product whose name, description or non-empty category contains the lower-cased term, and nothing else |
| Storefront.SearchEmptyShowsAll | shop.js:42-47 | an empty search shows every product in order |
| Storefront.SearchIgnoresCase | shop.js:42 | searching for a term and for its lower-cased form shows the same products |
| Storefront.ApplyCartWrite | shop.js:213-214 | the echoed cart has the written line set or removed and every other line unchanged |
| Storefront.CartCountAfterWrite | shop.js:383-386 | after any cart write, whatever key order the store delivers, the badge moves by exactly the change in that one line |
| Storefront.AddToCart | shop.js:220-246 | refuses an unknown product, no stock, or a line already at the stock; otherwise writes current + 1, which is ≤ stock |
| Storefront.AddToCartKeepsWithinStock | shop.js:236-244 | the line written by an accepted add is within stock and the cart badge grows by exactly 1 |
| Storefront.CartCount | shop.js:383-386 | the cart badge is the sum of the cart's quantities, the same for every key order the store delivers |
| Storefront.UpdateCartQty | shop.js:313-335 | unknown product: nothing; result ≤ 0: remove the line; above the stock: refused (no clamping); otherwise write exactly current + change |
| Storefront.UpdateCartQtyWritesWithinStock | shop.js:322-332 | every line updateCartQty writes is in 1..stock, and the badge moves by exactly the change |
| Storefront.RemoveFromCart | shop.js:376-380 | removes exactly that line |
| Storefront.RemoveFromCartCount | shop.js:376-386 | removing a line takes exactly its quantity off the badge |
| Storefront.ToggleWishlist | shop.js:399-409 | toggling flips whether the product is wished for and changes no other entry |
| Storefront.ToggleTwiceRestores | shop.js:402-408 | toggling twice restores membership, and restores the whole wishlist when every entry is `true` |
| Storefront.WishlistCount | shop.js:458-460 | the wishlist badge is 0 exactly when the wishlist is empty |
| Storefront.ToggleWishlistCount | shop.js:458-460 | the wishlist count is the number of keys; a toggle adds 1 for a new id, removes 1 for a wished one, and leaves it for a `false` entry |
| Storefront.RowOf | shop.js:258-300 | a cart row shows min(cart, stock), line total = price × that, `+` disabled iff cart ≥ stock, warning iff cart > stock |
| Storefront.CartRowsCover | shop.js:259-262 | each row is the rendering of a cart line whose product exists, and every such line has a row |
| Storefront.CartRowIds | shop.js:259-262 | the rows' ids are exactly the cart's keys that name a known product, filtered in key order, so one row per such line and in that order |
| Storefront.EmptyCartView | shop.js:252-256 | an empty cart shows no rows and total 0 |
| Storefront.DisplayCart | shop.js:249-310 | the cart view's loop produces exactly the specified rows and total (Σ price·min(cart, stock) over known lines) |
| Checkout.CheckoutStockWrites | shop.js:487-501 | stock is written exactly for lines filled in full (stock ≥ cart) or in part (0 < stock < cart), as stock − min(cart, stock), never negative |
| Checkout.CheckoutPurchases | shop.js:487-497 | every purchase is a known cart product bought at min(cart, stock), priced at price × that |
| Checkout.CheckoutReportsEveryLine | shop.js:476-503 | every line is reported: not found, bought in full, bought in part with a shortfall naming request and stock, or out of stock; every shortfall has 0 < stock < request |
| Checkout.CheckoutReportsOnlyLines | shop.js:476-503 | the failure report holds nothing else: every entry is the entry of some cart line not filled in full (not found, out of stock under its shown name, or a shortfall naming request and stock) |
| Checkout.CheckoutUnfilledCount | shop.js:476-503 | the report has exactly one entry per cart line not filled in full |
| Checkout.CheckoutPurchaseCount | shop.js:476-503 | the order has exactly one purchase per cart line of which something is bought (in full or in part) |
| Checkout.CheckoutWritePerPurchase | shop.js:487-501 | with distinct cart keys, the stock update has exactly one write per purchase |
| Checkout.CheckoutAccounting | shop.js:471-505 | the order total is the sum of the purchase amounts, and something is bought exactly when some stock is written |
| Checkout.CheckoutTotalMatchesCartView | shop.js:476-503 | with no negative stock, the order total equals the total the cart view showed |
| Checkout.ZeroLineIsPurchased | shop.js:487-491 | a cart line at 0 is a purchase of 0 units that rewrites the stock unchanged |
| Checkout.PlanCheckout | shop.js:470-503 | the classification loop computes exactly the specified plan |
| Checkout.CleanupWrite | shop.js:514-527 | a line is removed when the current stock covers it or is positive, set to 0 when the stock is exactly 0, else left |
| Checkout.CleanupAppliesLineByLine | shop.js:514-527 | issuing the clean-up writes one by one yields the line-by-line cleaned cart |
| Checkout.PlanCleanup | shop.js:514-527 | the clean-up loop issues exactly the specified writes, in key order |
| Checkout.CleanupRemovesPurchasedLines | shop.js:513-527 | judged against the planning snapshot, exactly the bought lines leave the cart; an unbought line stays, at 0 when its stock is 0 |
| Checkout.CleanupAfterStockEcho | shop.js:510-527 | judged against a snapshot already showing the update, a bought positive line is removed iff stock exceeded it, else kept at 0 |
| Checkout.PlaceOrder | shop.js:463-554 | empty cart: refused; nothing purchasable: refused with no write; stock write rejected: cart untouched; otherwise the plan is written and the cart cleaned up to the line-by-line cleaned cart |
| Auth.StrengthScore | auth.js:23-34 | the score is in 0..6, 0 iff the password is empty, ≤ 4 under 8 characters and ≤ 5 under 12 |
| Auth.StrengthMonotone | auth.js:27-34 | typing more characters never lowers the score |
| Auth.StrengthLevel | auth.js:41-56 | blank iff empty; weak iff score ≤ 2; strong iff score ≥ 5; medium otherwise |
| Auth.StrongNeedsLength | auth.js:27-56 | under 8 characters never strong; under 12 strong only with all four character classes |
| Auth.StrengthLevelMonotone | auth.js:41-56 | typing more characters never lowers the verdict |
| Auth.CheckRegistration | auth.js:113-121 | mismatched confirmation is reported first; otherwise under 6 characters is refused; registration may proceed iff both pass |
| Auth.WeakPasswordAccepted | auth.js:113-121 | the meter is advisory: a six-letter password it calls weak passes the registration checks |
| Auth.LandingPage | auth.js:145-149 | the landing page is the dashboard iff the role is `admin`, the shop otherwise |
| Auth.Register | auth.js:104-154 | local checks refuse first; then a service error gives its message; otherwise the user record holds the form's name, email and role and lands by role |
| Auth.Login | auth.js:72-101 | a sign-in error gives its message; otherwise redirect iff the stored role equals the selected role, to that role's page; else a role mismatch |
| Auth.AdminPageNeedsAdminRole | auth.js:87-93 | login reaches the dashboard only when the account's stored role is `admin` |
| Auth.ErrorMessage | auth.js:157-173 | a code outside the six known ones, and only such a code, gives the fallback message |
| Auth.ErrorMessagesDistinct | auth.js:158-170 | the six known codes give six distinct messages |

## Left out

- Markup and the DOM. This covers `innerHTML` templates, class toggles, modals, toasts, `alert`, `window.location` and the input elements. Only the decisions behind them are modelled: the discount and form fields are parameters, and the redirect is a `Page`.
- `animateCounter` (admin.js:705-728): timer-driven interpolation of the counters on screen.
- Store plumbing. This covers `on('value')` subscriptions, `once`, `push` keys and server timestamps (the sale record and the product record are modelled without them).
  - The snapshot and the cart and wishlist mirrors are parameters.
  - A write's success is a boolean.
  - Checkout's clean-up writes are assumed to succeed; a failure part-way through would leave the remaining lines.
- The guard that every storefront handler returns early without a signed-in user. The model describes the signed-in case.
- Concurrency: two settlements racing on the same stock, or a second `sellBag` before the first finishes. One settlement at a time is modelled against a given snapshot.
- Float arithmetic, `parseFloat`/`parseInt` details and `toFixed` formatting.
  - Prices and amounts are integers in minor units.
  - An unparsable input is `None`.
  - `parseFloat` treating 0 as "falsy" for the price makes no difference, since 0 stands in for it either way.
- Unicode.
  - Search lower-cases ASCII letters only.
  - Trimming strips ASCII white space only.
  - Password length counts characters rather than UTF-16 code units.
- JavaScript's rule that integer-like keys are enumerated first, in numeric order. The store's ids are not integer-like, so the key order of a dictionary is modelled as insertion order, with an existing key keeping its place.
- The optimistic re-total that `updateCartQty` paints after its write (shop.js:337-369). The cart view is recomputed from the echoed cart by `Storefront.DisplayCart` instead.
- Product records without a `name` or a `description`. The search box calls `toLowerCase` on both without a guard (shop.js:45-46), so on such a record it throws and the grid is not refreshed. The model gives every product string `name` and `description`; that failure is not modelled.
- `displayWishlist`, `viewProduct`, `showNotifications`, `loadProducts` and the product grid: markup only.
- The HTML decoding between the escaping and the unescaping of a name. The escaped name is placed inside a double-quoted `onclick` attribute (admin.js:305), and the browser decodes `&#39;` and `&quot;` before the handler's script runs. So `deleteProduct` receives the decoded text, and a name holding `'` yields a script with a syntax error: the Delete button does nothing. The model covers the two `replace` chains as functions only; it does not model attribute decoding or script compilation.
- The `escapedId` escaping of product ids (admin.js:285): ids are store-generated and carry no quotes.
- Deleting a product (admin.js:614-627) beyond the unescaping of its name: it is a single store call.
- The authentication service calls (`signInWithEmailAndPassword`, `createUserWithEmailAndPassword`, `updateProfile`, `signOut`). Their outcome is an optional error code passed in. The role stored for an account is an optional string passed in.
