# Team merch shop — a Dafny model

The shop is a small single-page storefront for team merchandise. The catalog
page shows five products. Each product has a card with "Add to Cart" and a
minus/plus stepper. The cart page shows a summary: the number of items, the
subtotal, a screen setup fee of $1.25 and the total. It also has a name field,
a size selector and a "Place Order" button. Checkout appends an order to the
browser's local storage and empties the cart. A separate admin page sits
behind a fixed password. It reads the stored orders, filters them by status,
shows four figures (orders, revenue, pending, unique customers), lets the
admin mark an order complete or delete it, and exports a CSV file.

The model has one module per source file, and each module follows its file's
form:

- `Products` (`src/lib/products.ts`) holds the catalog as a constant, plus the
  lookup `PRODUCTS.find(p => p.id === id)`.
- `Orders` holds the records the two pages share: cart lines, orders and
  statuses, and the sums over lines.
- `ProductCard` (`src/components/ProductCard.tsx`) holds the pure rules of a
  card: which controls it shows, and which cart call a press makes.
- `CartSummary` (`src/components/CartSummary.tsx`) holds the summary's figures
  and the guard on "Place Order".
- `App` (`src/App.tsx`) is the storefront's state, written as the class
  `Storefront`. Its methods change the cart, the key order and the local
  storage in place.
- `Admin` (`src/pages/Admin.tsx`) is the admin page, written as the class
  `AdminPage`, plus the pure functions behind its figures, filter, row
  buttons and CSV text.
- `Storage` is the class `LocalStorage`, which both pages share. It has two
  entries: the stored orders and the admin flag.
- `Flows` connects the pieces: clicks on cards feeding the cart, and an order
  placed in the storefront as the admin page sees it.
- `Seqs`, `Strings` and `Wrappers` are helpers: filtering and summing
  sequences; digits, `toFixed(2)`, `slice(-6)`, `join` and `split`; and
  `Option`.

Prices are whole cents, so $8.44 is 844 and the fee is 125. A JavaScript
object lists its keys in first-insertion order. `Object.entries` and so the
cart lines follow that order, so the storefront keeps the cart as a map plus
that key order (`entryOrder`). The model keeps two behaviours of the code
exactly as written:

- The summary adds the fee only to a non-empty cart, while the admin page
  adds it to every order.
- The admin page's `Order` interface (src/pages/Admin.tsx:34-41) declares
  `customerName`, `size` and `status` as always present. `CartSummary` passes
  a name and a size to `onCheckout` (src/components/CartSummary.tsx:125). But
  the record `handleCheckout` writes (src/App.tsx:21-25, 65-69) has none of
  them. On the admin page, the table then leaves the customer and status
  cells blank and shows the size as "()", while the CSV export writes
  `undefined` for each (`Flows.StorefrontOrdersCsvUndefined`).
  `Flows.StorefrontOrdersNeverPending`, `Flows.StorefrontOrdersUnfiltered` and
  `Flows.StorefrontOrdersOnlyDeletable` state what the missing status means
  there.

The clock and the locale are inputs: `Date.now().toString()` is the digit
string `nowDigits`, `toISOString()` is `isoNow`, and `toLocaleString()` is the
function `localeDate`.

## Model

| member | source | states |
|---|---|---|
| Products.CatalogShape | src/lib/products.ts:9-45 | the catalog has five products with distinct ids and no negative price |
| Products.FindProduct | src/lib/products.ts:9-45 | `find` by id returns the first product with that id, and returns nothing exactly when no product has it |
| Products.FindUnique | src/lib/products.ts:9-45 | with distinct ids, the product found for the id at index `i` is the product at `i` |
| Products.InCatalogIds | src/lib/products.ts:11-39 | the catalog sells exactly the ids hoodies, quarter-zips, tshirts, polo-shirts and stickers |
| Products.InCatalog | src/App.tsx:57-58 | an id gives a cart line exactly when `PRODUCTS.find` finds a product for it |
| Products.CatalogPrices | src/lib/products.ts:24-41 | t-shirts cost 8.44 and stickers cost 0 |
| Orders.Subtotal | src/components/CartSummary.tsx:31 | the subtotal of lines with non-negative prices and quantities is non-negative, and is 0 when every quantity is 0 |
| Orders.ItemCount | src/components/CartSummary.tsx:34 | the item count is non-negative for non-negative quantities, and is at least the number of lines when every quantity is positive |
| Orders.SubtotalAppend | src/components/CartSummary.tsx:31 | the subtotal of two lists of lines together is the sum of their subtotals |
| Orders.ItemCountAppend | src/App.tsx:85 | the item count of two lists of lines together is the sum of their counts |
| ProductCard.SteppedQuantity | src/components/ProductCard.tsx:22-25 | a stepper press sends a quantity that is never negative: `quantity + delta` when that is positive, otherwise 0 |
| ProductCard.Controls | src/components/ProductCard.tsx:53-83 | a card shows "Add to Cart" exactly when the quantity is 0, and the minus/plus stepper exactly when it is not |
| ProductCard.Press | src/components/ProductCard.tsx:53-83 | a press makes a call exactly when its control is shown, the call is about the card's product, and it never asks for a negative quantity |
| ProductCard.ShowsFree | src/components/ProductCard.tsx:38 | the FREE badge shows exactly for a product priced 0 |
| ProductCard.StepperCalls | src/components/ProductCard.tsx:63-81 | for an item in the cart, minus sends one less (0 from 1), plus sends one more, and "Add to Cart" is not there |
| ProductCard.FreeBadges | src/components/ProductCard.tsx:38-42 | of the catalog, exactly the stickers carry the FREE badge |
| CartSummary.Total | src/components/CartSummary.tsx:32-33 | the total of an empty cart is 0; otherwise it exceeds the subtotal by exactly the fee |
| CartSummary.PlaceOrderDisabled | src/components/CartSummary.tsx:126 | the button is disabled while the name or the size is empty |
| CartSummary.Render | src/components/CartSummary.tsx:29-50 | the summary is replaced by the empty-cart notice exactly when there are no lines; otherwise it shows the lines' item count, their subtotal, the fee 1.25 and the checkout total `Total(items)` (the subtotal plus the fee), and its button is disabled exactly when the name or size is empty |
| CartSummary.PressPlaceOrder | src/components/CartSummary.tsx:124-126 | when the button calls `onCheckout`, it passes the name and size as typed |
| CartSummary.CheckoutReachable | src/components/CartSummary.tsx:38-50 | `onCheckout` is reached exactly when the cart has lines and both name and size are non-empty |
| CartSummary.SummaryTotals | src/components/CartSummary.tsx:29-34 | a non-empty cart shows the summary, with a total equal to the subtotal plus 125 cents and the item count of the lines |
| CartSummary.SizeOptions | src/components/CartSummary.tsx:92-95 | the size selector offers exactly S, M, L and XL |
| CartSummary.TwoShirtsExample | src/components/CartSummary.tsx:31-33 | two t-shirts come to a subtotal of 16.88 and a total of 18.13 |
| App.AddOne | src/App.tsx:32-36 | adding an id puts it in the cart with one more than before (a missing id counts as 0), and leaves every other entry alone |
| App.SetQuantity | src/App.tsx:43-52 | setting quantity 0 removes the id, and any other quantity becomes its value; every other entry is kept |
| App.KeysAfterSet | src/App.tsx:34-35 | after an assignment the old keys keep their places and the id is added last if it was new, still without duplicates |
| App.RemoveKey | src/App.tsx:46-47 | after `delete` the key order lists the other keys, still without duplicates |
| App.RemoveKeyAppend | src/App.tsx:46-47 | `delete` keeps the other keys in their order: it distributes over a split of the key order |
| App.CartItems | src/App.tsx:54-61 | each cart line is the catalog product for a cart entry with that entry's quantity, and the lines' ids are the cart's keys the catalog sells, in key order |
| App.OrderNumber | src/App.tsx:64 | an order number is "ORD-" followed by the last six characters of the time's digits (all of them when there are fewer) |
| App.NewOrder | src/App.tsx:65-69 | a stored order carries the number, the lines and the timestamp, and no customer name, size or status |
| App.Storefront.constructor | src/App.tsx:28-29 | a new session starts with an empty cart and no order placed |
| App.Storefront.AddToCart | src/App.tsx:32-36 | `addToCart` makes the cart `AddOne` of the old cart, and keeps the key order complete and duplicate-free |
| App.Storefront.UpdateQuantity | src/App.tsx:43-52 | `updateQuantity` makes the cart `SetQuantity` of the old cart, and removes the key or keeps it in place accordingly |
| App.Storefront.HandleCheckout | src/App.tsx:63-79 | checkout appends exactly one order, built from the lines before checkout, to the stored orders; it leaves the admin flag alone, empties the cart and remembers the order number |
| App.Storefront.Items | src/App.tsx:54-61 | `getCartItems()` on the current cart: the lines' ids are the cart keys the catalog sells, in key order, each with its cart quantity |
| App.Storefront.TotalItems | src/App.tsx:85 | `totalItems` is the sum of the cart quantities of exactly the ids the catalog sells |
| App.Storefront.ResetToShopping | src/App.tsx:81-83 | leaving the confirmation clears the placed order and keeps the cart |
| App.ApplyCall | src/App.tsx:32-52 | a card's call changes only the entry of its own id; that entry is present afterwards unless the call sets quantity 0 |
| App.SetQuantityIdempotent | src/App.tsx:43-52 | `updateQuantity` twice with the same arguments is `updateQuantity` once |
| App.RemoveKeyIdempotent | src/App.tsx:46-47 | deleting a key twice leaves the same key order as deleting it once |
| App.ApplyCallKeepsPositive | src/App.tsx:32-52 | a call that asks for no negative quantity keeps every cart quantity positive |
| App.ApplyCallsKeepsPositive | src/App.tsx:32-52 | so does any sequence of such calls |
| App.CartItemsAppend | src/App.tsx:54-61 | the lines for a key order in two parts are the lines of each part, in order |
| App.CartItemsFrame | src/App.tsx:54-61 | the lines depend only on the quantities of ids the catalog sells |
| App.OrphanEntryInvisible | src/App.tsx:32-36 | adding an id the catalog does not sell leaves the cart lines, and so every total, unchanged |
| App.TotalItemsCountsKnownIds | src/App.tsx:85 | `totalItems` is the sum of the quantities of exactly the cart entries the catalog sells |
| App.CartItemsExactlyKnown | src/App.tsx:54-61 | an id has a cart line exactly when it is in the cart and the catalog sells it |
| App.OrderNumberCollision | src/App.tsx:64 | two checkouts get the same order number exactly when their times agree in the last six digits |
| Admin.WithStatus | src/pages/Admin.tsx:70-73 | the update keeps the list's length and order, sets the status of each order with that number, and leaves every other order as it was |
| Admin.WithoutOrder | src/pages/Admin.tsx:78-79 | after a delete no order has that number, and every other order is kept |
| Admin.FilteredOrders | src/pages/Admin.tsx:120-122 | "all" shows every order; any other filter shows exactly the orders whose status has that text |
| Admin.TotalOrders | src/pages/Admin.tsx:109 | `totalOrders` is the number of rows the "all" filter shows |
| Admin.OrderTotal | src/pages/Admin.tsx:89-93 | an order's admin total is its subtotal plus the fee, so it is at least 1.25 when its lines are non-negative |
| Admin.TotalRevenue | src/pages/Admin.tsx:110-116 | `totalRevenue` is 0 with no orders, and at least 1.25 per order when the lines are non-negative |
| Admin.PendingOrders | src/pages/Admin.tsx:117 | `pendingOrders` is at most the order count, and is 0 exactly when no order has status "Pending" |
| Admin.Customers | src/pages/Admin.tsx:118 | the customer set holds exactly the orders' customer names, with an absent name as one value |
| Admin.UniqueCustomers | src/pages/Admin.tsx:118 | there are at most as many unique customers as orders, and at least one when there is an order |
| Admin.RowActions | src/pages/Admin.tsx:256-264 | "Delete" is always offered, and "Mark Complete" exactly for a pending order |
| Admin.Text | src/pages/Admin.tsx:94 | a value interpolated into the row: the value itself, or "undefined" when it is absent |
| Admin.StatusText | src/pages/Admin.tsx:96 | the status interpolated into the row: "Pending" or "Completed", or "undefined" when it is absent |
| Admin.CsvFields | src/pages/Admin.tsx:89-96 | a row has six values: the order number, the customer and the size as interpolated text, the locale date, the order total to two decimals and the status text |
| Admin.CsvRow | src/pages/Admin.tsx:94-96 | an order's CSV line begins with its order number and ends with its status text |
| Admin.CsvRows | src/pages/Admin.tsx:87-98 | the export has one row per order, in list order |
| Admin.CsvText | src/pages/Admin.tsx:84-99 | the exported text begins with the header line, and after it come the rows joined by newlines |
| Storage.LocalStorage.constructor | src/App.tsx:70-71 | a device with nothing stored: no orders (the `|| '[]'` default) and the admin flag not set (src/pages/Admin.tsx:46) |
| Admin.AdminPage.constructor | src/pages/Admin.tsx:46-49 | the page opens logged in exactly when the stored flag is set, with no orders loaded and filter "all" |
| Admin.AdminPage.LoadOrders | src/pages/Admin.tsx:51-56 | once logged in, the page's orders are the stored orders; otherwise nothing is loaded |
| Admin.AdminPage.TypePassword | src/pages/Admin.tsx:47 | typing replaces the password and changes nothing else |
| Admin.AdminPage.HandleLogin | src/pages/Admin.tsx:58-63 | an exact match opens the gate and sets the stored flag; any other password changes nothing |
| Admin.AdminPage.HandleLogout | src/pages/Admin.tsx:65-68 | logout closes the gate and clears the stored flag |
| Admin.AdminPage.UpdateOrderStatus | src/pages/Admin.tsx:70-76 | the page's list and the stored list both become the updated list |
| Admin.AdminPage.DeleteOrder | src/pages/Admin.tsx:78-82 | the page's list and the stored list both lose every order with that number |
| Admin.AdminPage.SetFilter | src/pages/Admin.tsx:49 | choosing a filter changes only the filter |
| Admin.AdminPage.Visible | src/pages/Admin.tsx:120-122 | the table's rows are orders of the page's list, never more of them, and all of them under "all" |
| Admin.GateStep | src/pages/Admin.tsx:58-68 | a logout always closes the gate, a login with "admin" always opens it, and a login with any other password leaves it as it was |
| Admin.GateOpenIff | src/pages/Admin.tsx:46-68 | from either starting state, after any sequence of logins and logouts, the gate is open exactly when some login used "admin" and no logout followed it, or the page started open from the stored flag and no logout came at all |
| Admin.LoginExamples | src/pages/Admin.tsx:43 | "wrong" and "Admin" do not open the gate, and "admin" does |
| Admin.WithStatusAbsent | src/pages/Admin.tsx:70-73 | updating a number no order has leaves the list identical |
| Admin.WithStatusIdempotent | src/pages/Admin.tsx:70-73 | setting the same status twice is setting it once |
| Admin.WithStatusKeepsRevenue | src/pages/Admin.tsx:110-116 | a status change leaves the revenue unchanged |
| Admin.WithStatusKeepsCustomers | src/pages/Admin.tsx:118 | a status change leaves the set of customers unchanged |
| Admin.CompletingNeverAddsPending | src/pages/Admin.tsx:117 | marking orders complete never raises the pending count |
| Admin.DeleteCount | src/pages/Admin.tsx:78-79 | a delete shortens the list by exactly the number of orders with that number |
| Admin.DeleteKeepsOrder | src/pages/Admin.tsx:78-79 | a delete keeps the remaining orders in their relative order |
| Admin.DeleteIdempotent | src/pages/Admin.tsx:78-79 | deleting a number twice is deleting it once |
| Admin.DeleteAbsent | src/pages/Admin.tsx:78-79 | deleting a number no order has leaves the list identical |
| Admin.DeleteRevenue | src/pages/Admin.tsx:110-116 | the revenue after a delete plus the revenue of the deleted orders is the revenue before |
| Admin.PendingIsFilterLength | src/pages/Admin.tsx:117-122 | the pending count equals the number of rows the "Pending" filter shows |
| Admin.FilterKeepsOrder | src/pages/Admin.tsx:120-122 | the filter keeps the orders in their list order |
| Admin.RevenueIsSubtotalsPlusFees | src/pages/Admin.tsx:108-116 | the revenue is the sum of the subtotals plus one fee per order, including orders without lines |
| Admin.OrderTotalAgainstCheckout | src/pages/Admin.tsx:89-93 | the admin total of an order equals the checkout total when the order has lines; for an empty order it is 1.25 against 0 |
| Admin.CsvLines | src/pages/Admin.tsx:84-98 | when no row holds a newline, the export's lines are the header and then one row per order |
| Admin.CsvRowOneLine | src/pages/Admin.tsx:94-96 | a row holds a newline only when the order number, customer, size or locale date does; the total and status never do |
| Admin.HeaderIsOneLine | src/pages/Admin.tsx:85 | the header line holds no newline |
| Admin.CsvEmpty | src/pages/Admin.tsx:84-98 | with no orders, the export is the header and a newline |
| Admin.CsvRowColumns | src/pages/Admin.tsx:94-96 | when no value holds a comma, a row splits back into its six values |
| Admin.CsvDateCommaShiftsColumns | src/pages/Admin.tsx:94-96 | a locale date containing a comma is not quoted, so the row splits into seven values and the total lands in the sixth column |
| Flows.DisplayedQuantity | src/pages/Index.tsx:19 | a card shows the cart's quantity for an id in the cart with a positive quantity, and 0 for an id not in the cart |
| Flows.RunClicks | src/pages/Index.tsx:15-23 | pressing the cards' controls in turn leaves every entry of a product that was not pressed as it was |
| Flows.ClicksKeepCartPositive | src/components/ProductCard.tsx:22-25 | whatever cards are pressed, no cart quantity becomes zero or negative |
| Flows.StatuslessUnfiltered | src/pages/Admin.tsx:120-122 | an order without a status is shown by neither the "Pending" nor the "Completed" filter |
| Flows.StatuslessNotPending | src/pages/Admin.tsx:117 | appending an order without a status leaves the pending count unchanged |
| Flows.StorefrontOrdersUnfiltered | src/App.tsx:65-69 | an order from the storefront has no status, so neither status filter shows it |
| Flows.StorefrontOrdersNeverPending | src/App.tsx:65-69 | storing an order from the storefront adds nothing to the pending count |
| Flows.StorefrontOrdersCsvUndefined | src/pages/Admin.tsx:94-96 | in the export, an order from the storefront has "undefined" in its customer, size and status columns |
| Flows.CheckoutRevenue | src/pages/Admin.tsx:110-116 | each checkout raises the admin revenue by exactly the new order's admin total |
| Flows.StorefrontOrdersOnlyDeletable | src/pages/Admin.tsx:257-264 | for an order from the storefront, "Mark Complete" is never offered; only "Delete" is |
| Flows.NamelessOrdersOneCustomer | src/pages/Admin.tsx:118 | orders that all lack a customer name count as at most one customer |
| Flows.PlacedOrderTotalsAgree | src/components/CartSummary.tsx:124-126 | an order placed through "Place Order" has lines, so its admin total is the total the shopper was shown |
| Flows.ShirtsLines | src/App.tsx:54-61 | two t-shirts in the cart make one line of two t-shirts |
| Flows.ShirtsOrderNumber | src/App.tsx:64 | a checkout at time 1760000123456 gets order number ORD-123456 |
| Flows.ShirtsCheckout | src/App.tsx:32-79 | adding t-shirts twice and checking out stores exactly one order of two t-shirts, numbered ORD-123456 |
| Flows.ShirtsFigures | src/pages/Admin.tsx:108-118 | for that one order the dashboard shows revenue 18.13, no pending orders and one customer |
| Flows.AdminReview | src/pages/Admin.tsx:46-63 | a wrong password loads nothing; "admin" opens the gate and loads the stored orders, all shown under "all" |
| Flows.ShopThenReview | src/pages/Admin.tsx:51-118 | on one device, the t-shirt order placed in the shop shows up on the dashboard as one row, 18.13 of revenue and none pending |
| Strings.Decimal | src/pages/Admin.tsx:96 | `toString()` of a non-negative integer is a non-empty string of digits without a leading zero |
| Strings.DecimalRoundTrip | src/pages/Admin.tsx:96 | reading back a number written in decimal gives the number |
| Strings.Money | src/pages/Admin.tsx:96 | `toFixed(2)` of an amount in cents is digits, a point and two digits, without comma or newline |
| Strings.MoneyRoundTrip | src/pages/Admin.tsx:96 | the amount in cents can be read back from its two-decimal text |
| Strings.SliceFromEnd | src/App.tsx:64 | for k ≥ 1, `slice(-k)` is the last k characters, or the whole string when it is shorter (the source only uses k = 6) |
| Strings.Split | src/pages/Admin.tsx:98 | splitting gives at least one piece, and no piece contains the separator |
| Strings.SplitJoin | src/pages/Admin.tsx:94-98 | splitting a join of one or more separator-free pieces gives the pieces back |
| Strings.JoinSplit | src/pages/Admin.tsx:98 | joining the pieces of a split gives the text back |
| Strings.Join | src/pages/Admin.tsx:94-98 | `join`: the parts with one separator between neighbours, "" for no parts |
| Strings.JoinEnds | src/pages/Admin.tsx:94-98 | a joined text begins with its first part and ends with its last part |
| Strings.JoinSplitsPart | src/pages/Admin.tsx:94-96 | a piece holding the separator joins to the same text as its two halves |
| Seqs.Where | src/pages/Admin.tsx:117-122 | a filter keeps exactly the elements whose key matches, and never grows the list |
| Seqs.Except | src/pages/Admin.tsx:79 | the opposite filter keeps exactly the elements whose key differs |
| Seqs.WhereExceptLength | src/pages/Admin.tsx:79 | a filter and its opposite together keep every element once |
| Seqs.Sum | src/pages/Admin.tsx:110-116 | `reduce` from 0 adding `f` of each element |
| Seqs.SumAppend | src/pages/Admin.tsx:110-116 | the sum over two lists together is the sum of their sums |
| Seqs.WhereSingleMiss | src/pages/Admin.tsx:117-122 | a one-element list whose key does not match filters to nothing |
| Seqs.SumPartition | src/pages/Admin.tsx:110-116 | the sum over a filter plus the sum over its opposite is the sum over the whole list |

## Left out

- Rendering, styling, icons, toasts, routing and the confirmation and header
  components are not modelled; only the values the pages compute and the calls
  their buttons make are.
- `JSON.stringify`/`JSON.parse` of the stored orders is taken as lossless:
  `LocalStorage.orders` holds the parsed list, and a missing entry reads as `[]`.
- React's state scheduling is not modelled: every setter applies at once, and
  the effect that loads orders (`Admin.AdminPage.LoadOrders`) runs when a caller
  invokes it after the gate changes.
- Prices are exact cents. JavaScript adds binary floating-point numbers, so a
  real sum can differ from the exact one in the last bits before `toFixed(2)`
  rounds it. The model does not capture that rounding.
- `Object.entries` lists integer-like keys (such as "12") before the others.
  The model keeps plain insertion order, which is what the catalog's ids get.
- `console.log` of the new order at checkout (src/App.tsx:72) is output only
  and is not modelled.
- `JSON.parse` throws on a malformed "orders" entry (src/App.tsx:70,
  src/pages/Admin.tsx:53), and the page then fails. The model assumes the
  entry is absent or well formed.
- The clock and the locale are inputs, as described above. `Date` parsing of
  the timestamp inside `toLocaleString` is part of `localeDate`.
- The Blob, object URL and download link of the export are not modelled;
  only the text of the file is.
- `src/main.tsx` (mounting the app), `src/pages/Cart.tsx`,
  `src/components/Header.tsx` and `src/components/OrderConfirmation.tsx` only
  pass values through and render them. They are not part of this model.
- Admin.CsvLines: stated only for rows without a newline (`Admin.CsvRowOneLine`
  says when that holds). A customer name or size with a newline would split a
  row, just as a comma splits a column (see `Admin.CsvDateCommaShiftsColumns`).
