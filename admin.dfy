/**
 * The admin page: a password gate, and behind it the stored orders with a
 * status filter, four summary figures, "Mark Complete" and "Delete" per order,
 * and a CSV export.
 *
 * The page reads every stored order as if it carried a customer name, a size
 * and a status; an order written by the storefront carries none of them. The
 * table then leaves those cells blank, and the CSV export writes `undefined`
 * for each.
 */
module Admin {
  import opened Wrappers
  import opened Orders
  import Seqs
  import Strings
  import Storage
  import CartSummary

  const ADMIN_PASSWORD: string := "admin"

  /** `order.orderNumber`, the key `updateOrderStatus` and `deleteOrder` match on. */
  function NumberOf(o: Order): string {
    o.orderNumber
  }

  /** `order.status` as the text the filter compares with; `None` when it is undefined. */
  function StatusKey(o: Order): Option<string> {
    if o.status.Some? then Some(StatusName(o.status.value)) else None
  }

  // ---------------------------------------------------------------- gate

  /** What the login form can do: try a password, or log out. */
  datatype GateEvent = LoginAttempt(password: string) | Logout

  /** `handleLogin` opens the gate on an exact match and otherwise changes nothing; `handleLogout` closes it. */
  function GateStep(loggedIn: bool, e: GateEvent): (r: bool)
    ensures e.Logout? ==> !r
    ensures e == LoginAttempt(ADMIN_PASSWORD) ==> r
    ensures e.LoginAttempt? && e.password != ADMIN_PASSWORD ==> r == loggedIn
  {
    match e
    case LoginAttempt(pw) => if pw == ADMIN_PASSWORD then true else loggedIn
    case Logout => false
  }

  /** The gate after a sequence of events, applied in order. */
  function GateRun(loggedIn: bool, events: seq<GateEvent>): bool {
    if events == [] then loggedIn
    else GateStep(GateRun(loggedIn, events[..|events| - 1]), events[|events| - 1])
  }

  /** No event of the sequence is a logout. */
  predicate NoLogout(events: seq<GateEvent>) {
    forall j :: 0 <= j < |events| ==> !events[j].Logout?
  }

  /** Event `i` is a login with the right password and no logout follows it. */
  predicate OpenedAt(events: seq<GateEvent>, i: int) {
    && 0 <= i < |events|
    && events[i] == LoginAttempt(ADMIN_PASSWORD)
    && forall j :: i < j < |events| ==> !events[j].Logout?
  }

  // ---------------------------------------------------------------- order list

  /** `orders.map(o => o.orderNumber === n ? { ...o, status } : o)`. */
  function WithStatus(orders: seq<Order>, n: string, s: Status): (r: seq<Order>)
    ensures |r| == |orders|
    ensures forall i :: 0 <= i < |orders| ==>
              r[i] == if orders[i].orderNumber == n then orders[i].(status := Some(s)) else orders[i]
  {
    if orders == [] then []
    else
      var head := if orders[0].orderNumber == n then orders[0].(status := Some(s)) else orders[0];
      [head] + WithStatus(orders[1..], n, s)
  }

  /** `orders.filter(o => o.orderNumber !== n)`. */
  function WithoutOrder(orders: seq<Order>, n: string): (r: seq<Order>)
    ensures forall i :: 0 <= i < |r| ==> r[i].orderNumber != n
    ensures forall o :: o in r <==> o in orders && o.orderNumber != n
  {
    var r := Seqs.Except(orders, NumberOf, n);
    assert forall i :: 0 <= i < |r| ==> r[i] in r;
    r
  }

  /** `filteredOrders`: everything for "all", otherwise the orders whose status is that text. */
  function FilteredOrders(orders: seq<Order>, filter: string): (r: seq<Order>)
    ensures |r| <= |orders|
    ensures filter == "all" ==> r == orders
    ensures filter != "all" ==>
              forall o :: o in r <==> o in orders && o.status.Some? && StatusName(o.status.value) == filter
  {
    if filter == "all" then orders else Seqs.Where(orders, StatusKey, Some(filter))
  }

  // ---------------------------------------------------------------- summary figures

  /** `totalOrders`. */
  function TotalOrders(orders: seq<Order>): (r: nat)
    ensures r == |FilteredOrders(orders, "all")|
  {
    |orders|
  }

  /** An order's total as the admin page computes it: the fee is added whatever the lines. */
  function OrderTotal(o: Order): (r: int)
    ensures r - OrderSubtotal(o) == SCREEN_SETUP_FEE
    ensures NonNegativeLines(o.items) ==> r >= SCREEN_SETUP_FEE
  {
    Subtotal(o.items) + SCREEN_SETUP_FEE
  }

  function OrderSubtotal(o: Order): int {
    Subtotal(o.items)
  }

  /** Every order's lines have non-negative prices and quantities. */
  predicate NonNegativeOrders(orders: seq<Order>) {
    forall i :: 0 <= i < |orders| ==> NonNegativeLines(orders[i].items)
  }

  /** `totalRevenue`: each order's subtotal plus the fee, summed. */
  function TotalRevenue(orders: seq<Order>): (r: int)
    ensures orders == [] ==> r == 0
    ensures NonNegativeOrders(orders) ==> r >= SCREEN_SETUP_FEE * |orders|
  {
    FeesBound(orders);
    Seqs.Sum(orders, OrderTotal)
  }

  lemma {:induction false} FeesBound(orders: seq<Order>)
    ensures NonNegativeOrders(orders) ==> Seqs.Sum(orders, OrderTotal) >= SCREEN_SETUP_FEE * |orders|
  {
    if orders != [] {
      FeesBound(orders[1..]);
      if NonNegativeOrders(orders) {
        assert NonNegativeLines(orders[0].items);
        assert NonNegativeOrders(orders[1..]) by {
          forall i | 0 <= i < |orders| - 1 ensures NonNegativeLines(orders[1..][i].items) {
            assert orders[1..][i] == orders[i + 1];
          }
        }
      }
    }
  }

  /** `pendingOrders`: the orders whose status is exactly "Pending". */
  function PendingOrders(orders: seq<Order>): (r: nat)
    ensures r <= TotalOrders(orders)
    ensures r == 0 <==> forall i :: 0 <= i < |orders| ==> orders[i].status != Some(Pending)
  {
    var w := Seqs.Where(orders, StatusKey, Some("Pending"));
    assert forall o :: StatusKey(o) == Some("Pending") <==> o.status == Some(Pending);
    assert |w| > 0 ==> w[0] in w;
    |w|
  }

  /** The customer names of the orders, as a set; an absent name is one value of its own. */
  function Customers(orders: seq<Order>): (r: set<Option<string>>)
    ensures |r| <= |orders|
    ensures forall i :: 0 <= i < |orders| ==> orders[i].customerName in r
    ensures forall c :: c in r ==> exists i :: 0 <= i < |orders| && orders[i].customerName == c
  {
    if orders == [] then {}
    else
      var rest := Customers(orders[1..]);
      assert forall c :: c in rest ==> exists i :: 1 <= i < |orders| && orders[i].customerName == c by {
        forall c | c in rest ensures exists i :: 1 <= i < |orders| && orders[i].customerName == c {
          var k :| 0 <= k < |orders| - 1 && orders[1..][k].customerName == c;
          assert orders[k + 1].customerName == c;
        }
      }
      {orders[0].customerName} + rest
  }

  /** `uniqueCustomers`: `new Set(orders.map(o => o.customerName)).size`. */
  function UniqueCustomers(orders: seq<Order>): (r: nat)
    ensures r <= TotalOrders(orders)
    ensures |orders| > 0 ==> r >= 1
  {
    var c := Customers(orders);
    assert |orders| > 0 ==> orders[0].customerName in c;
    |c|
  }

  // ---------------------------------------------------------------- rows and actions

  /** The per-order buttons on the dashboard. */
  datatype RowAction = MarkComplete | DeleteRow

  /** "Mark Complete" is offered only for an order whose status is "Pending"; "Delete" always. */
  function RowActions(o: Order): (r: set<RowAction>)
    ensures DeleteRow in r
    ensures MarkComplete in r <==> o.status == Some(Pending)
  {
    if o.status == Some(Pending) then {MarkComplete, DeleteRow} else {DeleteRow}
  }

  // ---------------------------------------------------------------- CSV export

  const CSV_HEADER: string := "Order Number,Customer,Size,Date,Total,Status"

  /** A value inside a template literal: `undefined` when absent. */
  function Text(v: Option<string>): string {
    if v.Some? then v.value else "undefined"
  }

  function StatusText(o: Order): string {
    if o.status.Some? then StatusName(o.status.value) else "undefined"
  }

  /**
   * The six values of an order's row: number, customer, size, the timestamp
   * as the browser's locale renders it, the total to two decimals, status.
   */
  function CsvFields(o: Order, localeDate: string -> string): (r: seq<string>)
    ensures |r| == 6
    ensures r[0] == o.orderNumber && r[3] == localeDate(o.timestamp)
    ensures r[1] == Text(o.customerName) && r[2] == Text(o.size)
    ensures r[4] == Strings.Money(OrderTotal(o)) && r[5] == StatusText(o)
  {
    [o.orderNumber, Text(o.customerName), Text(o.size), localeDate(o.timestamp),
     Strings.Money(OrderTotal(o)), StatusText(o)]
  }

  /** An order's line of the export: its six values joined by commas, unquoted. */
  function CsvRow(o: Order, localeDate: string -> string): (r: string)
    ensures |r| >= |o.orderNumber| && r[..|o.orderNumber|] == o.orderNumber
    ensures |r| >= |StatusText(o)| && r[|r| - |StatusText(o)|..] == StatusText(o)
  {
    Strings.JoinEnds(CsvFields(o, localeDate), ',');
    Strings.Join(CsvFields(o, localeDate), ',')
  }

  function CsvRows(orders: seq<Order>, localeDate: string -> string): (r: seq<string>)
    ensures |r| == |orders|
    ensures forall i :: 0 <= i < |orders| ==> r[i] == CsvRow(orders[i], localeDate)
  {
    if orders == [] then [] else [CsvRow(orders[0], localeDate)] + CsvRows(orders[1..], localeDate)
  }

  /** The exported text: the header line, then the rows joined by newlines. */
  function CsvText(orders: seq<Order>, localeDate: string -> string): (r: string)
    ensures |r| > |CSV_HEADER| && r[..|CSV_HEADER| + 1] == CSV_HEADER + "\n"
    ensures |orders| > 0 ==> r[|CSV_HEADER| + 1..] == Strings.Join(CsvRows(orders, localeDate), '\n')
  {
    CSV_HEADER + "\n" + Strings.Join(CsvRows(orders, localeDate), '\n')
  }

  // ---------------------------------------------------------------- the page

  class AdminPage {
    const storage: Storage.LocalStorage
    var isLoggedIn: bool
    var password: string
    var orders: seq<Order>
    var filter: string

    /** The page opens logged in exactly when the stored flag says so, with no orders loaded yet. */
    constructor (storage: Storage.LocalStorage)
      ensures this.storage == storage
      ensures isLoggedIn == storage.adminAuthenticated
      ensures password == "" && orders == [] && filter == "all"
    {
      this.storage := storage;
      isLoggedIn := storage.adminAuthenticated;
      password := "";
      orders := [];
      filter := "all";
    }

    /** The effect run when the gate state changes: once logged in, read the stored orders. */
    method LoadOrders()
      modifies this
      ensures orders == if isLoggedIn then storage.orders else old(orders)
      ensures isLoggedIn == old(isLoggedIn) && password == old(password) && filter == old(filter)
    {
      if isLoggedIn {
        orders := storage.orders;
      }
    }

    /** Typing into the password field. */
    method TypePassword(text: string)
      modifies this
      ensures password == text
      ensures isLoggedIn == old(isLoggedIn) && orders == old(orders) && filter == old(filter)
    {
      password := text;
    }

    /** `handleLogin`: on an exact match set the stored flag and open the gate, otherwise do nothing. */
    method HandleLogin()
      modifies this, storage
      ensures isLoggedIn == GateStep(old(isLoggedIn), LoginAttempt(password))
      ensures storage.adminAuthenticated ==
                if password == ADMIN_PASSWORD then true else old(storage.adminAuthenticated)
      ensures password == old(password) && orders == old(orders) && filter == old(filter)
      ensures storage.orders == old(storage.orders)
    {
      if password == ADMIN_PASSWORD {
        storage.adminAuthenticated := true;
        isLoggedIn := true;
      }
    }

    /** `handleLogout`: clear the stored flag and close the gate, from either state. */
    method HandleLogout()
      modifies this, storage
      ensures !isLoggedIn && !storage.adminAuthenticated
      ensures password == old(password) && orders == old(orders) && filter == old(filter)
      ensures storage.orders == old(storage.orders)
    {
      storage.adminAuthenticated := false;
      isLoggedIn := false;
    }

    /** `updateOrderStatus`: the page's list and the stored list both become the updated list. */
    method UpdateOrderStatus(orderNumber: string, status: Status)
      modifies this, storage
      ensures orders == WithStatus(old(orders), orderNumber, status)
      ensures storage.orders == orders
      ensures isLoggedIn == old(isLoggedIn) && password == old(password) && filter == old(filter)
      ensures storage.adminAuthenticated == old(storage.adminAuthenticated)
    {
      var updated := WithStatus(orders, orderNumber, status);
      orders := updated;
      storage.orders := updated;
    }

    /** `deleteOrder`: the page's list and the stored list both lose every order with that number. */
    method DeleteOrder(orderNumber: string)
      modifies this, storage
      ensures orders == WithoutOrder(old(orders), orderNumber)
      ensures storage.orders == orders
      ensures isLoggedIn == old(isLoggedIn) && password == old(password) && filter == old(filter)
      ensures storage.adminAuthenticated == old(storage.adminAuthenticated)
    {
      var updated := WithoutOrder(orders, orderNumber);
      orders := updated;
      storage.orders := updated;
    }

    /** Choosing an entry of the status filter. */
    method SetFilter(value: string)
      modifies this
      ensures filter == value
      ensures isLoggedIn == old(isLoggedIn) && password == old(password) && orders == old(orders)
    {
      filter := value;
    }

    /** The orders the table shows. */
    function Visible(): (r: seq<Order>)
      reads this
      ensures |r| <= |orders| && forall o :: o in r ==> o in orders
      ensures filter == "all" ==> r == orders
    {
      FilteredOrders(orders, filter)
    }
  }

  // ---------------------------------------------------------------- properties

  /**
   * After any sequence of logins and logouts the gate is open exactly when
   * some login used the right password and no logout came after it, or the
   * page started open (from the stored flag) and no logout came at all.
   */
  lemma {:induction false} GateOpenIff(start: bool, events: seq<GateEvent>)
    ensures GateRun(start, events) <==> (exists i :: OpenedAt(events, i)) || (start && NoLogout(events))
    decreases |events|
  {
    if events != [] {
      var n := |events| - 1;
      var prefix := events[..n];
      GateOpenIff(start, prefix);
      assert forall j :: 0 <= j < n ==> events[j] == prefix[j];
      match events[n]
      case Logout =>
        forall i | 0 <= i < |events| ensures !OpenedAt(events, i) {
          if i < n {
            assert events[n].Logout?;
          }
        }
        assert !NoLogout(events);
      case LoginAttempt(pw) =>
        if pw == ADMIN_PASSWORD {
          assert OpenedAt(events, n);
        } else {
          forall i ensures OpenedAt(events, i) <==> OpenedAt(prefix, i) {
            if 0 <= i < n {
              assert forall j :: i < j < n ==> events[j] == prefix[j];
            }
          }
          assert NoLogout(events) <==> NoLogout(prefix);
        }
    }
  }

  /** A wrong password leaves the gate closed; the right one opens it. */
  lemma LoginExamples()
    ensures !GateStep(false, LoginAttempt("wrong"))
    ensures !GateStep(false, LoginAttempt("Admin"))
    ensures GateStep(false, LoginAttempt("admin"))
  {
  }

  /** Updating a number no order has leaves the list identical. */
  lemma WithStatusAbsent(orders: seq<Order>, n: string, s: Status)
    requires forall i :: 0 <= i < |orders| ==> orders[i].orderNumber != n
    ensures WithStatus(orders, n, s) == orders
  {
  }

  /** Setting the same status twice is setting it once. */
  lemma WithStatusIdempotent(orders: seq<Order>, n: string, s: Status)
    ensures WithStatus(WithStatus(orders, n, s), n, s) == WithStatus(orders, n, s)
  {
  }

  /** A status change moves no money: the revenue is unchanged. */
  lemma {:induction false} WithStatusKeepsRevenue(orders: seq<Order>, n: string, s: Status)
    ensures TotalRevenue(WithStatus(orders, n, s)) == TotalRevenue(orders)
  {
    if orders != [] {
      WithStatusKeepsRevenue(orders[1..], n, s);
      assert WithStatus(orders, n, s)[1..] == WithStatus(orders[1..], n, s);
    }
  }

  /** A status change keeps the set of customers, so `uniqueCustomers` too. */
  lemma {:induction false} WithStatusKeepsCustomers(orders: seq<Order>, n: string, s: Status)
    ensures Customers(WithStatus(orders, n, s)) == Customers(orders)
  {
    if orders != [] {
      WithStatusKeepsCustomers(orders[1..], n, s);
      assert WithStatus(orders, n, s)[1..] == WithStatus(orders[1..], n, s);
    }
  }

  /** Marking orders "Completed" never adds to the pending count. */
  lemma {:induction false} CompletingNeverAddsPending(orders: seq<Order>, n: string)
    ensures PendingOrders(WithStatus(orders, n, Completed)) <= PendingOrders(orders)
  {
    if orders != [] {
      CompletingNeverAddsPending(orders[1..], n);
      assert WithStatus(orders, n, Completed)[1..] == WithStatus(orders[1..], n, Completed);
    }
  }

  /** Deleting leaves out exactly the orders with that number: the length drops by their count. */
  lemma DeleteCount(orders: seq<Order>, n: string)
    ensures |WithoutOrder(orders, n)| == |orders| - |Seqs.Where(orders, NumberOf, n)|
  {
    Seqs.WhereExceptLength(orders, NumberOf, n);
  }

  /** Deleting keeps the other orders in their relative order: it distributes over a split of the list. */
  lemma DeleteKeepsOrder(a: seq<Order>, b: seq<Order>, n: string)
    ensures WithoutOrder(a + b, n) == WithoutOrder(a, n) + WithoutOrder(b, n)
  {
    Seqs.ExceptAppend(a, b, NumberOf, n);
  }

  /** Deleting a number twice is deleting it once. */
  lemma DeleteIdempotent(orders: seq<Order>, n: string)
    ensures WithoutOrder(WithoutOrder(orders, n), n) == WithoutOrder(orders, n)
  {
    Seqs.ExceptIdempotent(orders, NumberOf, n);
  }

  /** Deleting a number no order has leaves the list identical. */
  lemma DeleteAbsent(orders: seq<Order>, n: string)
    requires forall i :: 0 <= i < |orders| ==> orders[i].orderNumber != n
    ensures WithoutOrder(orders, n) == orders
  {
    Seqs.ExceptNoMatch(orders, NumberOf, n);
  }

  /** The revenue lost by a delete is the revenue of the deleted orders. */
  lemma DeleteRevenue(orders: seq<Order>, n: string)
    ensures TotalRevenue(WithoutOrder(orders, n)) + TotalRevenue(Seqs.Where(orders, NumberOf, n)) == TotalRevenue(orders)
  {
    Seqs.SumPartition(orders, NumberOf, n, OrderTotal);
  }

  /** The "Pending" filter shows exactly what `pendingOrders` counts. */
  lemma PendingIsFilterLength(orders: seq<Order>)
    ensures PendingOrders(orders) == |FilteredOrders(orders, "Pending")|
  {
  }

  /** The filter keeps the list order: filtering a split list filters each part. */
  lemma FilterKeepsOrder(a: seq<Order>, b: seq<Order>, filter: string)
    ensures FilteredOrders(a + b, filter) == FilteredOrders(a, filter) + FilteredOrders(b, filter)
  {
    if filter != "all" {
      Seqs.WhereAppend(a, b, StatusKey, Some(filter));
    }
  }

  /** The revenue is the sum of the subtotals plus one fee per order, empty or not. */
  lemma {:induction false} RevenueIsSubtotalsPlusFees(orders: seq<Order>)
    ensures TotalRevenue(orders) == Seqs.Sum(orders, OrderSubtotal) + SCREEN_SETUP_FEE * |orders|
  {
    if orders != [] {
      RevenueIsSubtotalsPlusFees(orders[1..]);
    }
  }

  /** The admin total of an order agrees with the checkout total exactly when the order has lines. */
  lemma OrderTotalAgainstCheckout(o: Order)
    ensures |o.items| > 0 ==> OrderTotal(o) == CartSummary.Total(o.items)
    ensures |o.items| == 0 ==> OrderTotal(o) == 125 && CartSummary.Total(o.items) == 0
  {
  }

  /** The export's lines are the header followed by one row per order. */
  lemma CsvLines(orders: seq<Order>, localeDate: string -> string)
    requires |orders| > 0
    requires forall i :: 0 <= i < |orders| ==> '\n' !in CsvRow(orders[i], localeDate)
    ensures Strings.Split(CsvText(orders, localeDate), '\n') == [CSV_HEADER] + CsvRows(orders, localeDate)
  {
    var rows := CsvRows(orders, localeDate);
    HeaderIsOneLine();
    Strings.SplitHeadAndJoin(CSV_HEADER, rows, '\n');
  }

  /** A row holds no newline when none of its text values does: the total and the status never do. */
  lemma CsvRowOneLine(o: Order, localeDate: string -> string)
    requires '\n' !in o.orderNumber && '\n' !in Text(o.customerName) && '\n' !in Text(o.size)
    requires '\n' !in localeDate(o.timestamp)
    ensures '\n' !in CsvRow(o, localeDate)
  {
    var f := CsvFields(o, localeDate);
    assert '\n' !in StatusText(o);
    forall i | 0 <= i < 6 ensures '\n' !in f[i] {
    }
    Strings.JoinAvoids(f, ',', '\n');
  }

  lemma HeaderIsOneLine()
    ensures '\n' !in CSV_HEADER && ',' in CSV_HEADER
  {
    assert CSV_HEADER[12] == ',';
  }

  /** With an empty list the export is the header and an empty last line. */
  lemma CsvEmpty(localeDate: string -> string)
    ensures CsvText([], localeDate) == CSV_HEADER + "\n"
  {
  }

  /** When no text field holds a comma, a row splits back into its six values; the sixth is the status. */
  lemma CsvRowColumns(o: Order, localeDate: string -> string)
    requires ',' !in o.orderNumber && ',' !in Text(o.customerName) && ',' !in Text(o.size)
    requires ',' !in localeDate(o.timestamp)
    ensures Strings.Split(CsvRow(o, localeDate), ',') == CsvFields(o, localeDate)
    ensures Strings.Split(CsvRow(o, localeDate), ',')[5] == StatusText(o)
  {
    var f := CsvFields(o, localeDate);
    assert ',' !in StatusText(o);
    forall i | 0 <= i < 6 ensures ',' !in f[i] {
    }
    Strings.SplitJoin(f, ',');
  }

  /**
   * A locale date with a comma in it (such as "1/2/2026, 10:00:00 AM") is not
   * escaped: the row then splits into seven values and the sixth is the total.
   */
  lemma CsvDateCommaShiftsColumns(o: Order, localeDate: string -> string, day: string, time: string)
    requires localeDate(o.timestamp) == day + "," + time
    requires ',' !in day && ',' !in time
    requires ',' !in o.orderNumber && ',' !in Text(o.customerName) && ',' !in Text(o.size)
    ensures |Strings.Split(CsvRow(o, localeDate), ',')| == 7
    ensures Strings.Split(CsvRow(o, localeDate), ',')[5] == Strings.Money(OrderTotal(o))
    ensures Strings.Split(CsvRow(o, localeDate), ',')[6] == StatusText(o)
  {
    var f := CsvFields(o, localeDate);
    var front := f[..3];
    var back := f[4..];
    assert f == front + [day + [','] + time] + back;
    Strings.JoinSplitsPart(front, day, time, back, ',');
    var g := front + [day, time] + back;
    assert ',' !in StatusText(o);
    forall i | 0 <= i < |g| ensures ',' !in g[i] {
    }
    Strings.SplitJoin(g, ',');
  }
}
