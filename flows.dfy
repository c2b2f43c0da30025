/**
 * How the pieces behave together: the catalog page feeds card presses into
 * the cart, the checkout summary guards `handleCheckout`, and the admin page
 * reads what the storefront stored.
 */
module Flows {
  import opened Wrappers
  import opened Products
  import opened Orders
  import opened ProductCard
  import opened App
  import CartSummary
  import Admin
  import Seqs
  import Storage
  import Strings

  /** The quantity a card is given: `cart[product.id] || 0`. */
  function DisplayedQuantity(cart: map<string, int>, id: string): (q: int)
    ensures id in cart && cart[id] > 0 ==> q == cart[id]
    ensures id !in cart ==> q == 0
  {
    if id in cart && cart[id] != 0 then cart[id] else 0
  }

  /** A press of one control on the card of one product. */
  datatype Click = Click(product: Product, control: Control)

  /** The cart after a sequence of presses; a press on a control the card does not show does nothing. */
  function RunClicks(cart: map<string, int>, clicks: seq<Click>): (r: map<string, int>)
    ensures forall k :: k in cart && (forall i :: 0 <= i < |clicks| ==> clicks[i].product.id != k) ==>
              k in r && r[k] == cart[k]
    decreases |clicks|
  {
    if clicks == [] then cart
    else
      var c := clicks[0];
      match Press(c.product, DisplayedQuantity(cart, c.product.id), c.control)
      case Some(call) => RunClicks(ApplyCall(cart, call), clicks[1..])
      case None => RunClicks(cart, clicks[1..])
  }

  /**
   * However the shopper presses "Add to Cart", minus and plus, the cart never
   * holds a zero or negative quantity.
   */
  lemma {:induction false} ClicksKeepCartPositive(cart: map<string, int>, clicks: seq<Click>)
    requires AllPositive(cart)
    ensures AllPositive(RunClicks(cart, clicks))
    decreases |clicks|
  {
    if clicks != [] {
      var c := clicks[0];
      match Press(c.product, DisplayedQuantity(cart, c.product.id), c.control)
      case Some(call) =>
        ApplyCallKeepsPositive(cart, call);
        ClicksKeepCartPositive(ApplyCall(cart, call), clicks[1..]);
      case None =>
        ClicksKeepCartPositive(cart, clicks[1..]);
    }
  }

  /** An order without a status is shown by neither status filter. */
  lemma StatuslessUnfiltered(o: Order)
    requires o.status.None?
    ensures Admin.FilteredOrders([o], "Pending") == []
    ensures Admin.FilteredOrders([o], "Completed") == []
  {
    Seqs.WhereSingleMiss(o, Admin.StatusKey, Some("Pending"));
    Seqs.WhereSingleMiss(o, Admin.StatusKey, Some("Completed"));
  }

  /** Appending an order without a status leaves the pending count as it was. */
  lemma StatuslessNotPending(stored: seq<Order>, o: Order)
    requires o.status.None?
    ensures Admin.PendingOrders(stored + [o]) == Admin.PendingOrders(stored)
  {
    Seqs.WhereSingleMiss(o, Admin.StatusKey, Some("Pending"));
    Seqs.WhereAppend(stored, [o], Admin.StatusKey, Some("Pending"));
    assert stored + [] == stored;
  }

  /** An order the storefront stores has no status, so neither status filter shows it. */
  lemma StorefrontOrdersUnfiltered(items: seq<CartItem>, nowDigits: string, isoNow: string)
    ensures Admin.FilteredOrders([NewOrder(items, nowDigits, isoNow)], "Pending") == []
    ensures Admin.FilteredOrders([NewOrder(items, nowDigits, isoNow)], "Completed") == []
  {
    StatuslessUnfiltered(NewOrder(items, nowDigits, isoNow));
  }

  /** Nor does the pending count see it: storing it leaves the count as it was. */
  lemma StorefrontOrdersNeverPending(stored: seq<Order>, items: seq<CartItem>, nowDigits: string, isoNow: string)
    ensures Admin.PendingOrders(stored + [NewOrder(items, nowDigits, isoNow)]) == Admin.PendingOrders(stored)
  {
    StatuslessNotPending(stored, NewOrder(items, nowDigits, isoNow));
  }

  /** In the export, such an order's customer, size and status columns read "undefined". */
  lemma StorefrontOrdersCsvUndefined(items: seq<CartItem>, nowDigits: string, isoNow: string, localeDate: string -> string)
    ensures Admin.CsvFields(NewOrder(items, nowDigits, isoNow), localeDate)[1] == "undefined"
    ensures Admin.CsvFields(NewOrder(items, nowDigits, isoNow), localeDate)[2] == "undefined"
    ensures Admin.CsvFields(NewOrder(items, nowDigits, isoNow), localeDate)[5] == "undefined"
  {
  }

  /** Each checkout adds exactly that order's admin total to the revenue. */
  lemma CheckoutRevenue(stored: seq<Order>, items: seq<CartItem>, nowDigits: string, isoNow: string)
    ensures Admin.TotalRevenue(stored + [NewOrder(items, nowDigits, isoNow)]) ==
            Admin.TotalRevenue(stored) + Admin.OrderTotal(NewOrder(items, nowDigits, isoNow))
  {
    var o := NewOrder(items, nowDigits, isoNow);
    Seqs.SumAppend(stored, [o], Admin.OrderTotal);
    assert [o][1..] == [];
  }

  /** Nor is "Mark Complete" ever offered for it: only "Delete". */
  lemma StorefrontOrdersOnlyDeletable(items: seq<CartItem>, nowDigits: string, isoNow: string)
    ensures Admin.RowActions(NewOrder(items, nowDigits, isoNow)) == {Admin.DeleteRow}
  {
  }

  /** Orders that all lack a customer name count as one customer. */
  lemma {:induction false} NamelessOrdersOneCustomer(orders: seq<Order>)
    requires forall i :: 0 <= i < |orders| ==> orders[i].customerName.None?
    ensures Admin.UniqueCustomers(orders) <= 1
  {
    var c := Admin.Customers(orders);
    assert c <= {None};
    assert c == {} || c == {None};
  }

  /**
   * The "Place Order" button only reaches `handleCheckout` with a non-empty
   * cart, so for an order placed through it the admin total is the total the
   * shopper was shown.
   */
  lemma PlacedOrderTotalsAgree(items: seq<CartItem>, name: string, size: string, nowDigits: string, isoNow: string)
    requires CartSummary.PressPlaceOrder(items, name, size).Some?
    ensures |NewOrder(items, nowDigits, isoNow).items| > 0
    ensures Admin.OrderTotal(NewOrder(items, nowDigits, isoNow)) == CartSummary.Total(items)
  {
    CartSummary.CheckoutReachable(items, name, size);
    Admin.OrderTotalAgainstCheckout(NewOrder(items, nowDigits, isoNow));
  }

  /** Two t-shirts in the cart make one line: the catalog's t-shirts, quantity 2. */
  lemma ShirtsLines()
    ensures CartItems(map["tshirts" := 2], ["tshirts"]) == [CartItem(PRODUCTS[2], 2)]
  {
    var cart := map["tshirts" := 2];
    var keys := ["tshirts"];
    assert keys[0] == "tshirts" && keys[1..] == [];
    assert CartItems(cart, keys[1..]) == [];
    CatalogPrices();
    assert cart[keys[0]] == 2;
  }

  /** Checkout at Date.now() = 1760000123456 gets the order number "ORD-123456". */
  lemma ShirtsOrderNumber()
    ensures OrderNumber("1760000123456") == "ORD-123456"
  {
    assert Strings.SliceFromEnd("1760000123456", 6) == "123456";
  }

  /** Two t-shirts through the storefront: the cart, its lines, and the stored order. */
  method ShirtsCheckout() returns (storage: Storage.LocalStorage)
    ensures storage.orders == [NewOrder([CartItem(PRODUCTS[2], 2)], "1760000123456", "2026-10-15T10:00:00.000Z")]
    ensures storage.orders[0].orderNumber == "ORD-123456"
    ensures fresh(storage) && !storage.adminAuthenticated
  {
    storage := new Storage.LocalStorage();
    var shop := new Storefront(storage);
    shop.AddToCart("tshirts");
    shop.AddToCart("tshirts");
    assert shop.cart == map["tshirts" := 2];
    assert shop.entryOrder == ["tshirts"];
    ShirtsLines();
    shop.HandleCheckout("1760000123456", "2026-10-15T10:00:00.000Z");
    ShirtsOrderNumber();
  }

  /** The admin dashboard's figures for one stored order of two t-shirts: revenue $18.13, none pending, one customer. */
  lemma ShirtsFigures(o: Order)
    requires o.items == [CartItem(PRODUCTS[2], 2)] && o.status.None?
    ensures Admin.TotalRevenue([o]) == 1813
    ensures Admin.PendingOrders([o]) == 0
    ensures Admin.UniqueCustomers([o]) == 1
  {
    CartSummary.TwoShirtsExample();
    assert [o][1..] == [];
    assert Seqs.Sum([o], Admin.OrderTotal) == Admin.OrderTotal(o) + Seqs.Sum([o][1..], Admin.OrderTotal);
    assert Admin.StatusKey(o) == None;
    assert Seqs.Where([o], Admin.StatusKey, Some("Pending")) == [];
  }

  /**
   * The admin side of the same device: a wrong password leaves the gate
   * closed and loads nothing; "admin" opens it and loads the stored orders.
   */
  method AdminReview(storage: Storage.LocalStorage) returns (page: Admin.AdminPage)
    requires !storage.adminAuthenticated
    modifies storage
    ensures page.storage == storage && page.isLoggedIn && storage.adminAuthenticated
    ensures page.orders == storage.orders == old(storage.orders)
    ensures page.filter == "all" && page.Visible() == page.orders
  {
    page := new Admin.AdminPage(storage);
    page.LoadOrders();
    assert page.orders == [];
    page.TypePassword("wrong");
    page.HandleLogin();
    page.LoadOrders();
    assert !page.isLoggedIn && page.orders == [];
    page.TypePassword(Admin.ADMIN_PASSWORD);
    page.HandleLogin();
    page.LoadOrders();
  }

  /** Both pages on one device: the order placed for two t-shirts shows up on the dashboard as $18.13. */
  method ShopThenReview() returns (page: Admin.AdminPage)
    ensures page.isLoggedIn && |page.Visible()| == 1
    ensures Admin.TotalRevenue(page.orders) == 1813
    ensures Admin.PendingOrders(page.orders) == 0
  {
    var storage := ShirtsCheckout();
    page := AdminReview(storage);
    ShirtsFigures(page.orders[0]);
    assert page.orders == [page.orders[0]];
  }
}
