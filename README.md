# KebabFront in Dafny

A model of the logic of KebabFront, the storefront of a kebab restaurant:
a React single-page application, a handful of Vercel API routes and a set
of Firebase Cloud Functions. The model covers the parts of the code that
decide something:

- the shopping cart (`CartContext.jsx`);
- placing an order at checkout, with the sequential short-id counter
  (`CheckoutPage.jsx`);
- the Wompi payment integration: the outbound integrity signature
  (`api/getWompiSignature.ts` and its Cloud Functions copies), the two
  inbound event checks (`api/wompi.ts` with its property-path checksum,
  `api/wompiWebhook.ts` with its `t=…,v1=…` header), and the reconciliation
  of an event with an order;
- the payment result page that polls the store (`ResultPage.jsx`);
- the menu: grouping items by category, slugs, the category order and the
  stable sort (`api/getMenu.ts`, the `getMenu` Cloud Functions,
  `HomePage.jsx`);
- the admin pages: drag-and-drop reordering and the product and category
  forms (`MenuAdminPage.jsx`), the order dashboard (`AdminDashboard.jsx`),
  the hero slides (`HeroAdminPage.jsx`, `HeroSection.jsx`);
- request gating and sanitisation: the `isAdmin` middleware, the
  `setAdminClaim` endpoint, the path-id extraction, the field whitelists,
  `addOrder` and `updateOrderStatus`, and the public order-status endpoint.

Pure code (the cart, the decision chains, the projections) is modelled as
functions over datatypes, with lemmas stating what the source promises.
Code that changes state step by step is modelled imperatively: the counter
and order store and the checkout page are classes whose methods update
their fields; the result page is a class whose polling method is a bounded
loop; the grouping `forEach` of `getMenu`, the batch loops of
`updateMenuOrder`/`updateCategoryOrder`, and the property resolver and
join of `api/wompi.ts` are methods with loops, each proved equal to the
function that specifies it.

External services are parameters: SHA-256 is a function-typed parameter
`digest` (every property holds for any hash), Firebase Auth's
`verifyIdToken` and `getUserByEmail` are the parameters `verify` and
`lookup`, store reads are sequences handed in, and the outcome of each store
write (`ok`, `committed`, `found`) is a boolean parameter; for the checkout
transaction it is the optional rejection message. The one store rule the
model states is that the Admin SDK refuses a document with an `undefined`
field (`Document.Storable`), since the Cloud Functions never set
`ignoreUndefinedProperties`. JSON request
bodies are the `Json` datatype of `JsonValue`; a Firestore document built
from a body is a `Document.Record`, a map whose values may also be
JavaScript's `undefined` or the server-timestamp sentinel.

The Cloud Functions exist in two copies that behave differently, and both
are modelled (`FunctionsApi.Build`): in `functions/src/index.ts` every admin
endpoint runs the `isAdmin` middleware before its own method check (so even
a preflight without a token is refused with 403); `functions/lib/index.js`
has no middleware at all and answers every preflight with 204 first.

Where the description of the system and the code disagree, the model
follows the code:

- the initial `fulfillmentStatus` of an order is "Pedido recibido";
- the Wompi reference is `kebab_` followed by the Firestore document id, not
  the short order id;
- in `api/wompi.ts` a property path that does not resolve becomes `null`,
  which `join` writes as the empty text, so it passes the `includes('null')`
  guard and reaches the checksum comparison;
- neither webhook is idempotent: every verified event writes the status;
- `addMenuItem` and `addCategory` drop the `order` the admin page sends
  (proved in `CatalogFunctions.NewProductLosesOrder` and
  `CatalogFunctions.NewCategoryLosesOrder`), and a product whose calories
  were left empty is never created (see Findings);
- the `getWompiSignature` of `functions/lib/index.js` validates nothing;
- the `isAdmin` middleware takes the text between the first and the second `Bearer ` anywhere in the header (up to its end when there is no second one), not only a token at its start.

## Model

| member | source | states |
|---|---|---|
| Cart.AddExisting | src/context/CartContext.jsx:34-40 | adding a product already in a valid cart raises exactly that line's quantity by one; the length and every other line are unchanged; the total grows by the line's price |
| Cart.AddNew | src/context/CartContext.jsx:41-43 | adding a product with a new id appends one line at the end with the product's fields and quantity 1; the total grows by its price |
| Cart.AddValid | src/context/CartContext.jsx:34-44 | adding keeps the cart valid (ids unique, every quantity at least 1) |
| Cart.IncreaseSpec | src/context/CartContext.jsx:47-53 | increasing changes only the line with the id, by +1; an unknown id leaves the cart as it was; validity is kept |
| Cart.DecreaseSpec | src/context/CartContext.jsx:55-61 | in a valid cart, decreasing lowers the line with the id by one, or removes that line and only it when its quantity was 1; the total drops by its price; validity is kept |
| Cart.DecreaseShape | src/context/CartContext.jsx:57-59 | the map-then-filter of `decreaseQuantity` is a point update, or the cut of that one line when its quantity reaches 0 |
| Cart.DecreaseAbsent | src/context/CartContext.jsx:55-61 | decreasing an id no line has leaves the cart unchanged |
| Cart.RemoveSpec | src/context/CartContext.jsx:63-65 | removing leaves no line with the id, keeps every other line, as an order-preserving subsequence, and keeps the cart valid |
| Cart.RemoveTotal | src/context/CartContext.jsx:63-65 | an unknown id changes nothing; otherwise the total drops by the removed line's amount |
| Cart.RemoveOne | src/context/CartContext.jsx:64 | in a valid cart, removing an id is cutting out its single line |
| Cart.ClearSpec | src/context/CartContext.jsx:67-71 | clearing yields the empty cart, which is valid and totals 0 |
| Cart.TotalUpdate | src/context/CartContext.jsx:71 | replacing one line changes the reduce-sum total by the difference of the two lines' price × quantity |
| Cart.TotalConcat | src/context/CartContext.jsx:71 | the total of two carts laid end to end is the sum of their totals |
| Cart.TotalItemsAtLeastLines | src/pages/HomePage.jsx:28 | in a valid cart the badge count is at least the number of lines |
| Checkout.SubmitError | src/pages/checkout/CheckoutPage.jsx:114-124 | submission is refused exactly when the cart is empty or a contact field is empty; an empty cart gets its own message |
| Checkout.PaymentReference | src/pages/checkout/CheckoutPage.jsx:63 | the reference is `kebab_` followed by the order id, which can be read back from position 6 |
| Checkout.SignFailureText | src/pages/checkout/CheckoutPage.jsx:71-73 | a failed signature request shows the endpoint's error text when there is one, and never an empty message |
| Checkout.TransactionFailureText | src/pages/checkout/CheckoutPage.jsx:166-169 | a rejected transaction shows the error's message, or the fixed fallback when the message is empty; never an empty text |
| Checkout.OrderStore.constructor | src/pages/checkout/CheckoutPage.jsx:128-154 | a store starts with the given counter and orders and no ids issued |
| Checkout.OrderStore.PlaceOrder | src/pages/checkout/CheckoutPage.jsx:128-154 | the transaction: a missing counter aborts with no write; otherwise the counter becomes `lastId + 1`, that id is returned, and exactly one order, under the new document id, is added with it; the issued ids stay strictly increasing |
| Checkout.IssuedIdsDistinct | src/pages/checkout/CheckoutPage.jsx:136-140 | ids issued in increasing order never give two orders the same short order id text |
| Checkout.NewOrderContents | src/pages/checkout/CheckoutPage.jsx:139-148 | the new order has status "Pending", fulfilment status "Pedido recibido", the cart as its items, the cart's total, the chosen method, and the allocated id as its short id |
| Checkout.WidgetMatchesSignature | src/pages/checkout/CheckoutPage.jsx:78-91 | the widget is opened in COP with the total × 100 under `kebab_<id>`, and the signature preimage is exactly that reference, amount and currency plus the secret |
| Checkout.CheckoutPage.constructor | src/pages/checkout/CheckoutPage.jsx:12-20 | the page starts on the checkout, not submitting, with no error and no widget |
| Checkout.CheckoutPage.HandleSubmit | src/pages/checkout/CheckoutPage.jsx:109-171 | invalid input is refused before any store access; a missing counter aborts with nothing written; otherwise the order is stored with the next id; non-wompi methods then clear the cart and go to success; wompi opens the widget or reports why it could not |
| Checkout.CheckoutPage.HandleWompiPayment | src/pages/checkout/CheckoutPage.jsx:55-107 | no widget script, or a failed signature request, sets the error and stops submitting; a signature opens the widget for the order's reference and the cart's total |
| Checkout.CheckoutPage.OnWidgetResult | src/pages/checkout/CheckoutPage.jsx:93-100 | `APPROVED` clears the cart and goes to success; any other status goes to rejected and keeps the cart |
| OutboundSignature.Preimage | api/getWompiSignature.ts:43-49 | the hashed text is the reference, the amount in cents, "COP" and the secret, concatenated |
| OutboundSignature.HandleSucceeds | api/getWompiSignature.ts:37-51 | the answer is 200 exactly for a POST with a truthy reference and amount, and its signature is the digest of the preimage |
| OutboundSignature.HandleRejects | api/getWompiSignature.ts:37-41 | a falsy reference or amount (0 included) gets 400 and the answer does not depend on the digest |
| OutboundSignature.HandleGate | api/getWompiSignature.ts:14-22 | OPTIONS gets 204 and any other non-POST method 405, whatever the body |
| OutboundSignature.SecretCheckUnreachable | api/getWompiSignature.ts:5-7 | once the module has loaded, the in-handler missing-secret 500 can never be sent |
| OutboundSignature.PreimageLayout | api/getWompiSignature.ts:43-48 | the preimage is laid out reference, cents, currency, secret, in that order |
| OutboundSignature.PreimageSeparatesAmounts | api/getWompiSignature.ts:43-48 | with reference and secret fixed, different amounts give different preimages |
| OutboundSignature.ReferenceAmountBoundary | api/getWompiSignature.ts:48 | nothing separates reference and amount: two different requests hash the same text |
| OutboundSignature.LegacyAgrees | functions/lib/index.js:427-459 | the compiled copy fails only for a missing body or secret, and signs the same preimage as the validated handler for every request that one accepts |
| OutboundSignature.LegacyUnvalidated | functions/lib/index.js:441-452 | with no reference and no amount the compiled copy still signs, the text "undefinedNaNCOP" plus the secret |
| Reconcile.OrderIdOptional | api/wompi.ts:75 | `reference?.split('kebab_')[1]` throws exactly for a reference that is present, not `null` and not a text |
| Reconcile.OrderIdStrict | api/wompiWebhook.ts:52 | without optional chaining, anything but a text reference throws |
| Reconcile.NewStatus | api/wompi.ts:76 | `APPROVED` becomes "Approved" and every other status "Declined" |
| Reconcile.ReferenceRoundTrip | api/wompi.ts:75 | the reference the checkout builds for an id reads back as that id when the id holds no `kebab_` |
| Reconcile.ForeignReference | api/wompi.ts:75 | a reference without `kebab_` yields no order id |
| Reconcile.ExtractedIdFree | api/wompi.ts:75 | an extracted id never contains `kebab_` |
| WompiEvents.Keys | api/wompi.ts:40 | splitting a path on `.` gives at least one key |
| WompiEvents.ResolveProperty | api/wompi.ts:41-48 | the resolver loop walks the event one key at a time and ends as the walk does: the value, not found at the first `undefined`, or a throw at a `null` |
| WompiEvents.WalkConcat | api/wompi.ts:41-48 | walking a path in two legs is walking the first and then the second from where it ended |
| WompiEvents.ConcatenateProperties | api/wompi.ts:37-51 | the `map`/`join` loop computes the concatenation of the entries' texts, in the listed order |
| WompiEvents.ResolveEntry | api/wompi.ts:37-50 | one entry contributes its resolved value's text, the empty text when unresolved, and throws for a non-text entry or a `null` on the path |
| WompiEvents.ConcatenatedAppend | api/wompi.ts:51 | the joined text of two lists laid end to end is the two texts in order |
| WompiEvents.UnresolvedContributesNothing | api/wompi.ts:44-51 | an unresolved path contributes nothing to the joined text |
| WompiEvents.Handle | api/wompi.ts:9-101 | the handler with its loops answers and writes exactly as the decision function does |
| WompiEvents.SecretBeforeResolution | api/wompi.ts:30-35 | a missing secret is answered with 500 whatever the signature holds |
| WompiEvents.BadPropertiesIffNull | api/wompi.ts:53-56 | for a well-formed body the 400 "Invalid signature properties" is sent exactly when the joined text contains `null` |
| WompiEvents.ActNever400ForProperties | api/wompi.ts:73-95 | no answer after verification is the bad-properties answer |
| WompiEvents.WriteOnlyWhenVerified | api/wompi.ts:58-87 | a write happens only for a POST whose checksum is the digest of properties, timestamp and secret, for a `transaction.updated` event with a transaction and a non-empty order id; it sets exactly status and transaction id |
| WompiEvents.MismatchRejected | api/wompi.ts:64-67 | a checksum mismatch gets 401 and writes nothing |
| WompiEvents.OtherEventsIgnored | api/wompi.ts:94-95 | a verified event of another kind, or without a transaction, gets 200 and no write |
| WompiEvents.EmptyOrderIdRejected | api/wompi.ts:88-91 | a verified transaction with no text after `kebab_` gets 400 and no write |
| WompiEvents.NullAcrossBoundary | api/wompi.ts:53 | two values none of which is `null` can spell "null" across their boundary and trip the guard |
| WompiWebhook.ParseHeader | api/wompiWebhook.ts:38 | a hash is found only in a header with at least two comma-separated pieces |
| WompiWebhook.ParseHeaderRoundTrip | api/wompiWebhook.ts:38 | `t=<ts>,v1=<hash>` parses back to its timestamp and hash |
| WompiWebhook.NoCommaNoHash | api/wompiWebhook.ts:38 | a header without a comma has no hash |
| WompiWebhook.CheckOrder | api/wompiWebhook.ts:26-45 | missing secret 500, then missing header 400, then mismatch 401, in that order, none of them writing |
| WompiWebhook.WriteOnlyWhenVerified | api/wompiWebhook.ts:39-59 | a write happens only when the header hash is the digest of timestamp, event id and secret, for a `transaction.updated` event with a non-empty order id; it writes only the status |
| WompiWebhook.UnactionableEvents | api/wompiWebhook.ts:51-67 | a verified event of another kind gets 200 and no write; an empty order id gets 400 |
| PaymentResult.Classify | src/pages/checkout/ResultPage.jsx:26-51 | "Approved"/"APPROVED" pays, "Declined"/"DECLINED"/"ERROR" refuses, a lookup error breaks, anything else including no match is pending |
| PaymentResult.PollShape | src/pages/checkout/ResultPage.jsx:53-60 | polling makes between one and the remaining number of lookups, stops at the first one that settles, and ends pending only when every lookup was |
| PaymentResult.PaidOnlyIfSeen | src/pages/checkout/ResultPage.jsx:37-40 | success is reported only when one of the ten lookups saw an approved status |
| PaymentResult.ResultPage.constructor | src/pages/checkout/ResultPage.jsx:11-12 | the page starts processing, with no error and the given cart |
| PaymentResult.ResultPage.CheckStatus | src/pages/checkout/ResultPage.jsx:26-51 | one lookup: success clears the cart and navigates, a refusal navigates and keeps the cart, an error sets the error state, pending changes nothing |
| PaymentResult.ResultPage.OnMount | src/pages/checkout/ResultPage.jsx:14-65 | no transaction id is an error with zero lookups; at most ten lookups; an approved or rejected lookup navigates and leaves the error as it was; ten pending lookups end in the "could not confirm" error, never success |
| Menu.CategoryOrder | api/getMenu.ts:54-59 | with no category record of the group's name the order is 0 |
| Menu.CategoryOrderFirst | api/getMenu.ts:54 | the order comes from the first record with the name |
| Menu.Names | api/getMenu.ts:51-63 | the category names the grouping creates never repeat |
| Menu.Grouped | api/getMenu.ts:51-63 | one group per distinct category name |
| Menu.GroupItems | api/getMenu.ts:51-63 | the `forEach` filling the dictionary yields exactly the groups of `Grouped` |
| Menu.AddItemFills | api/getMenu.ts:52-62 | one round of the `forEach` keeps the dictionary equal to the groups of the items seen so far, adding the category name to the key order only on its first sight |
| Menu.ItemsOfAppend | api/getMenu.ts:62 | pushing an item adds it at the end of its own category's items and leaves every other category's items unchanged |
| Menu.ExactlyOneGroup | api/getMenu.ts:51-63 | every item lands in exactly one group, the one named by its category |
| Menu.GroupContents | api/getMenu.ts:55-62 | every group is non-empty, holds exactly its category's items in input order, and has the slug of its name |
| Menu.GroupNamesDistinct | api/getMenu.ts:51-63 | group names never repeat, and a name has a group exactly when an item is in that category |
| Menu.MenuPermutes | api/getMenu.ts:65 | the sorted response is a permutation of the groups |
| Menu.MenuSorted | api/getMenu.ts:65 | when every group has an order, the response is sorted by it and ties keep first-appearance order |
| Menu.GetMenu | api/getMenu.ts:32-71 | OPTIONS 204, non-GET 405, GET 200 with the grouped and sorted menu; the same for functions/src/index.ts:95-145 and functions/lib/index.js:42-85 |
| JsString.SlugProperties | api/getMenu.ts:57 | a slug holds no white space and no upper-case letter, is no longer than the name, and slugging it again changes nothing |
| StableSort.SortPermutes | api/getMenu.ts:65 | the sort by `a.order - b.order` only rearranges |
| StableSort.SortSorted | api/getMenu.ts:65 | when every element has an order, the result is non-decreasing by it |
| StableSort.SortStable | api/getMenu.ts:65 | elements with the same order come out in their input order |
| HomePage.FetchMenu | src/pages/HomePage.jsx:64-87 | grouping, sorting the groups, sorting each group's items in place and flattening give the categories and products of the specification functions |
| HomePage.MenuProducts | src/pages/HomePage.jsx:64-87 | flattening the `getMenu` categories gives back every menu item exactly once |
| HomePage.GroupedItems | src/pages/HomePage.jsx:64-78 | the groups hold every menu item exactly once |
| HomePage.ProductsAreTheMenu | src/pages/HomePage.jsx:85-87 | `products` lists every menu item exactly once, tagged with its own category, and is as long as the menu |
| HomePage.CategoryItemsSorted | src/pages/HomePage.jsx:80-82 | each displayed category holds its group's items sorted by order when all have one |
| HomePage.BadgeCountsAdds | src/pages/HomePage.jsx:28 | adding a product raises `totalItems` by exactly one |
| HomePage.TotalItemsUpdate | src/pages/HomePage.jsx:28 | replacing one line changes `totalItems` by the difference of the two quantities |
| HomePage.HandleScroll | src/pages/HomePage.jsx:126-147 | above 50 the bar is scrolled and dark, otherwise transparent; above 100 the menu is fixed |
| HomePage.ScrollKeepsConsistent | src/pages/HomePage.jsx:129-146 | after every scroll event, a fixed menu implies a scrolled bar and the background matches |
| HomePage.PlaceholderOnlyWhenFixing | src/pages/HomePage.jsx:137-146 | the placeholder height changes only on a scroll that fixes the menu |
| HomePage.InitialActive | src/pages/HomePage.jsx:114 | with no categories the active category is left as it was |
| HomePage.ActiveIsAMenuCategory | src/pages/HomePage.jsx:114 | the highlighted category is the lowest-order one, to which some item belongs |
| MenuAdmin.FindIndex | src/pages/admin/MenuAdminPage.jsx:209-210 | the first index with the id, or -1 when none has it |
| MenuAdmin.ArrayMove | src/pages/admin/MenuAdminPage.jsx:211 | `arrayMove` keeps the length; a negative target counts from the end of the original list |
| MenuAdmin.ArrayMoveToEnd | src/pages/admin/MenuAdminPage.jsx:210-211 | a target of -1 (the item dropped on is not in the list) puts the moved element last and keeps the others in order |
| MenuAdmin.ArrayMoveSpec | src/pages/admin/MenuAdminPage.jsx:211 | the result is a permutation, the moved element lands at the target index, and the others keep their relative order |
| MenuAdmin.ArrayMoveAt | src/pages/admin/MenuAdminPage.jsx:211 | position by position, where each element of the result comes from |
| MenuAdmin.DragItemsSpec | src/pages/admin/MenuAdminPage.jsx:206-216 | a drop on itself changes nothing; otherwise every order equals its index, the products are a permutation of the old ones, and the dragged one sits at the drop index |
| MenuAdmin.DragCategoriesSpec | src/pages/admin/MenuAdminPage.jsx:218-228 | the same guarantees for the category list |
| MenuAdmin.MovedItems | src/pages/admin/MenuAdminPage.jsx:211-212 | moving one product and renumbering gives every product its index as order, keeps the products and their ids as a multiset, and puts the moved product at the target index |
| MenuAdmin.MovedCategories | src/pages/admin/MenuAdminPage.jsx:224-225 | the same for moving one category and renumbering |
| MenuAdmin.AdminMenuSpec | src/pages/admin/MenuAdminPage.jsx:88-90 | the flattened admin list holds every menu item once, tagged with its category, sorted by order when all have one |
| MenuAdmin.AdminCategoriesSpec | src/pages/admin/MenuAdminPage.jsx:105 | the category list is the records reordered, sorted when all have an order |
| MenuAdmin.SubmitItem | src/pages/admin/MenuAdminPage.jsx:143-173 | an edit is a PUT to `manageMenuItem/<id>` keeping its order; a new product is a POST to `addMenuItem` with order `menu.length`; empty calories are left out |
| MenuAdmin.SubmitCategory | src/pages/admin/MenuAdminPage.jsx:185-204 | an empty name sends nothing; a new category gets order `categories.length` |
| AdminDashboard.NormalizeAll | src/pages/admin/AdminDashboard.jsx:20-24 | normalisation keeps the number and order of the orders |
| AdminDashboard.NormalizeSpec | src/pages/admin/AdminDashboard.jsx:20-24 | `customerInfo` falls back to `customerDetails` and `orderItems` to `items`, nothing else changes, and normalising is idempotent |
| AdminDashboard.CheckoutOrdersNormalize | src/pages/admin/AdminDashboard.jsx:20-24 | orders written by the checkout show their customer and lines after normalisation |
| AdminDashboard.FilteredSpec | src/pages/admin/AdminDashboard.jsx:53-63 | rendering fails exactly when an order lacks contact data; otherwise an order is shown iff it matches the term (name, phone or id, case-insensitively) and the status filter, and the shown list is an order-preserving subsequence |
| AdminDashboard.EmptySearchShowsAll | src/pages/admin/AdminDashboard.jsx:54-60 | an empty term with the filter `All` shows every order |
| AdminDashboard.NormalizedOrdersRender | src/pages/admin/AdminDashboard.jsx:20-63 | normalised orders with contact data under either key always render |
| AdminDashboard.ChangeStatusSpec | src/pages/admin/AdminDashboard.jsx:36-51 | a status change touches only the orders with the id, and only their status; a failed write changes nothing |
| AdminDashboard.ChangedOrderShown | src/pages/admin/AdminDashboard.jsx:42-63 | the changed order shows under a filter on its new status |
| Hero.Replaced | src/pages/admin/HeroAdminPage.jsx:113-115 | the replacing map keeps the number of slides |
| Hero.AddSpec | src/pages/admin/HeroAdminPage.jsx:48-70 | a successful add appends exactly the stored slide and resets the form to empty fields with type "horizontal"; a failure only records the error |
| Hero.DeleteSpec | src/pages/admin/HeroAdminPage.jsx:72-90 | a successful delete removes every slide with the id and keeps the others in order; a failure or a refused confirmation keeps the list |
| Hero.UpdateSpec | src/pages/admin/HeroAdminPage.jsx:92-120 | a successful update replaces exactly the slides with the stored id; a failure or nothing being edited keeps the slides |
| Hero.VisibleSpec | src/components/HeroSection.jsx:4-6 | mobile shows exactly the vertical slides, otherwise the horizontal ones, in stored order |
| Hero.Indicators | src/components/HeroSection.jsx:11-21 | one indicator per slide |
| Hero.Items | src/components/HeroSection.jsx:24-25 | one carousel item per slide |
| Hero.CarouselSpec | src/components/HeroSection.jsx:11-25 | exactly the first item and indicator are active, indicator i targets slide i, labels are "Slide i+1" and distinct |
| OrderStatus.ValidId | api/getOrderStatus.ts:17-21 | an id is accepted exactly when it is one non-empty text |
| OrderStatus.ProjectSpec | api/getOrderStatus.ts:35-47 | the answer carries status, fulfilment status (defaulting to "Pedido recibido"), date, total, method and short id, and every line as exactly name, quantity and price, same count and order |
| OrderStatus.NoContactData | api/getOrderStatus.ts:35-47 | the answer never depends on the customer's contact data |
| OrderStatus.GetOrderStatusSpec | api/getOrderStatus.ts:11-55 | non-GET 405; a bad id 400 before any query; 404 exactly when no order has the id; a 200 answers with the first order that has it |
| OrderStatus.FirstMatch | api/getOrderStatus.ts:32 | the first query result is the first stored order with the id |
| AdminGate.BearerTokenRoundTrip | functions/src/index.ts:10 | the token of a `Bearer <token>` header is the token |
| AdminGate.IsAdminSpec | functions/src/index.ts:9-27 | the middleware lets a request through exactly for a non-empty token the verifier decodes with a truthy `admin` claim, and only asks about that token |
| AdminGate.NoTokenNoHandler | functions/src/index.ts:11-14 | without `Bearer ` the answer is 403, the handler never runs and the verifier is not asked |
| AdminGate.BearerPiece | api/setAdminClaim.ts:28 | a header starting with `Bearer ` always yields a token, which is the whole text after it when no second `Bearer ` follows |
| AdminGate.SetAdminClaimSpec | api/setAdminClaim.ts:11-58 | OPTIONS 204 and non-POST 405 before any check; a header without `Bearer ` 403 without the verifier; a refused token or no admin claim 403; the email check only after that; a claim granted only with 200, to the user the email names |
| AdminGate.SetAdminClaimLegacySpec | functions/src/index.ts:524-541 | the older copy is refused exactly when the middleware refuses, and grants a claim only for a POST, with 200 |
| FunctionsApi.DeployedSpec | functions/src/index.ts:9-27 | in the sources nothing but 403 happens without the middleware's consent, even a preflight; in the compiled copy (functions/lib/index.js) OPTIONS gets 204 and anything else reaches the handler |
| CatalogFunctions.PathIdNone | functions/src/index.ts:305-311 | there is no id exactly when every `/`-separated piece of the path is empty |
| CatalogFunctions.PathIdLast | functions/src/index.ts:305-311 | otherwise the id is the last non-empty piece: it holds no `/` and every piece after it is empty |
| CatalogFunctions.PathIdAfter | functions/src/index.ts:342-348 | a path ending in `/<id>`, with or without a trailing slash, yields the id |
| CatalogFunctions.EditReachesItsItem | functions/src/index.ts:342-348 | the address the admin page edits a product at names that product |
| CatalogFunctions.ManageSpec | functions/src/index.ts:303-375 | only PUT (with the body) and DELETE write, and only to the document the path names, and in the sources only with the middleware's consent; a path without an id gets 400 once past the gate; the sources never answer the preflight with 204, the compiled copy always does |
| CatalogFunctions.AddMenuItemSpec | functions/src/index.ts:147-172 | the new product holds exactly name, description, price, category, image and kcal, each as the body has it; everything else is dropped |
| CatalogFunctions.NewProductLosesOrder | src/pages/admin/MenuAdminPage.jsx:150-155 | a new product reaches the store without the `order` the page gave it; its `kcal` is `undefined` exactly when the calories were left empty, and the record is storable exactly when they were filled in, in which case it is the record written |
| CatalogFunctions.ProductRecord | functions/src/index.ts:157-164 | the record built from the page's product JSON has no `order`, the form's name and category, and is storable exactly when the product has calories |
| CatalogFunctions.EmptyCaloriesRefused | functions/src/index.ts:157-170 | as written: with the calories left empty the store refuses the record and the endpoint answers 500 with nothing created |
| CatalogFunctions.EmptyCaloriesFixed | functions/src/index.ts:157-164 | corrected (undefined fields left out): every product the page sends is storable and created with 201, with `kcal` exactly when the calories were filled in and never with `order` |
| CatalogFunctions.AddedProduct | functions/src/index.ts:157-164 | the whitelist keeps name, category and kcal and never `order` |
| CatalogFunctions.AddCategorySpec | functions/src/index.ts:252-274 | an empty or missing name gets 400 and no write; otherwise the category is stored as exactly `{name}` |
| CatalogFunctions.NewCategoryLosesOrder | src/pages/admin/MenuAdminPage.jsx:193 | the order the page gives a new category is not stored |
| CatalogFunctions.AddHeroSlideSpec | functions/src/index.ts:200-224 | a missing type becomes "horizontal", a present one is kept, every other key is kept |
| CatalogFunctions.CollectUpdates | functions/src/index.ts:386-392 | the `forEach` over the body builds one update per element, in order, or fails at the first element that names no document |
| CatalogFunctions.OrderUpdatesSpec | functions/src/index.ts:386-392 | the batch succeeds iff every element has a non-empty text id; each update sets only that document's `order` to the element's `order` |
| CatalogFunctions.UpdateOrderSpec | functions/src/index.ts:377-402 | a batch is written only by a POST with a list whose every element names a document and a successful commit, answered with 200; any other POST gets 500 |
| CatalogFunctions.UpdateOrderEndpoint | functions/src/index.ts:377-402 | the endpoint with its loop answers as the deployed decision function |
| CatalogFunctions.ItemJsonFields | src/pages/admin/MenuAdminPage.jsx:230-243 | a product sent in the saved list carries its id and its order |
| CatalogFunctions.SavedItemOrders | src/pages/admin/MenuAdminPage.jsx:230-243 | saving the product list writes each product's order to its own document |
| CatalogFunctions.DraggedOrderSaved | src/pages/admin/MenuAdminPage.jsx:206-243 | after a drag and a save, the product at position i gets order i in the store |
| OrderFunctions.SourceOrderSpec | functions/src/index.ts:441-447 | `addOrder` keeps every body key, forces status "Pending" and stamps the creation time |
| OrderFunctions.LegacyOrderSpec | functions/lib/index.js:389-391 | `customerInfo` falls back to `customerDetails` and `orderItems` to `items`; the legacy keys are absent; status "Pending"; other keys kept |
| OrderFunctions.LegacyOrderIdempotent | functions/lib/index.js:389-391 | normalising a stored order whose canonical fields are truthy changes nothing |
| OrderFunctions.CopiesAgreeOnCanonicalOrders | functions/lib/index.js:389-391 | for a body already in canonical form both copies store the same order |
| OrderFunctions.AddOrderSpec | functions/src/index.ts:423-456 | OPTIONS 204 and non-POST 405 with no admin check; an order is stored, with 201, only by a POST with a non-null body, always with status "Pending" |
| OrderFunctions.UpdateOrderStatusSpec | functions/src/index.ts:458-482 | a missing id or status gets 400; otherwise the only field written is `status`, on the document the id names, and in the sources only behind the middleware |

## Findings

| source | as written | input that shows it | evidently intended | confidence | as-written member | corrected member |
|---|---|---|---|---|---|---|
| functions/src/index.ts:157-164 | `addMenuItem` writes `kcal: newItemData.kcal` unconditionally, so a body without `kcal` gives the store an `undefined` field, which the Admin SDK refuses; the endpoint answers 500 | the admin form's "new product" with the calories field left empty (`src/pages/admin/MenuAdminPage.jsx:153` then sends no `kcal`) | the product is created without calories | not executed | CatalogFunctions.EmptyCaloriesRefused | CatalogFunctions.EmptyCaloriesFixed |

## Left out

- SHA-256 is not computed: `digest` is a parameter, so every property about signatures is about preimages and comparisons.
- Firestore is not modelled as a service: reads are sequences handed in, each write's outcome is a parameter (a boolean, or for the counter transaction the rejection message), and concurrent transactions are not modelled; the counter transaction is one atomic step of `Checkout.OrderStore.PlaceOrder`.
- Firebase Auth (`verifyIdToken`, `getUserByEmail`, `setCustomUserClaims`) and the Wompi widget are parameters or callbacks.
- Timers, the DOM, scroll animation, resize listeners and navigation effects beyond the target page are left out; the poller makes one lookup per step with no clock.
- `parseFloat`/`parseInt` of form fields are parameters; prices and amounts are integers in pesos, so `amount * 100` is exact.
- `Date`/`toISOString` is the parameter `isoText`; the order's `createdAt` is the server-timestamp sentinel.
- Failures of `response.json()` and of the network in the pages are not modelled.
- Whether the store accepts a document with an `undefined` value is stated only for `addMenuItem` (`Document.Storable`); for the other writes it stays inside the store-outcome parameter.
- A request body that is not an object (a string or an array) is read as the empty object when spread; JavaScript would copy its index keys.
- `getOrders`, `getHeroSlides` and `getCategories` are reads with no logic beyond the method gate, and are not modelled.
- The order of the query result in `getOrderStatus` is the order of the store sequence.
- Firestore document ids are checked only for being a non-empty text; ids holding `/` or otherwise invalid are not modelled.
- Lower-casing covers ASCII and Latin-1 letters only; other Unicode case mappings are left out.
- `Object.values` is taken to list keys in insertion order; JavaScript lists keys that look like array indices first.
- `Menu.MenuSorted`, `StableSort.SortSorted`, `StableSort.SortStable`, `Menu.GetMenu`, `HomePage.FetchMenu`, `MenuAdmin.AdminMenu`: sortedness and stability are proved only when every element has an `order`; a missing `order` makes the comparator `NaN`, read here as 0, and the ECMAScript sort is then implementation-defined, so the order these members return in that case is one the engine may not produce.
- Webhook idempotence and a terminal-state guard are not asserted: both webhooks write every verified event.
- Cancelling the poll when the result page unmounts is not modelled: the source does not cancel it.
- Rolling back the counter when a later step fails is not modelled: the source does not do it.
- `src/pages/status/OrderStatusPage.jsx` and `api/_lib/firebase.ts` are not part of this model (a fetch wrapper and SDK start-up).
- Presentation-only components (navigation bar, footer, modals, cart panel, category bar, social widgets, login and layout pages, the routes) are not modelled.
- A cart line keeps only the product fields `id`, `name`, `price` and `image`, plus `quantity`; other fields the spread item carries into the line are not modelled.
- An item whose `category` is not a text makes `toLowerCase` throw in `api/getMenu.ts` and `HomePage.jsx`; categories are texts in the model, so the resulting 500 and failed fetch are not modelled.
- Category names that collide with `Object.prototype` keys (such as `constructor`) are ordinary keys in the model; in JavaScript `!categories[name]` is then false on first sight.
- The text of `arrayMove` from `@dnd-kit/sortable` is not part of this model; `MenuAdmin.ArrayMove` follows its published code.
