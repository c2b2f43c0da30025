/**
 * The records shared by the storefront, the checkout summary and the admin
 * page: a cart line (a catalog product with a quantity), an order as it is
 * kept in local storage, and the price arithmetic over cart lines.
 *
 * The storefront writes an order with only a number, its lines and a
 * timestamp; the admin page reads the same record as if it also had a
 * customer name, a size and a status. Those three fields are therefore
 * optional here: `None` is JavaScript's `undefined`.
 */
module Orders {
  import opened Wrappers
  import opened Products

  /** A product joined with the quantity the shopper asked for. */
  datatype CartItem = CartItem(product: Product, quantity: int)

  datatype Status = Pending | Completed

  datatype Order = Order(
    orderNumber: string,
    items: seq<CartItem>,
    timestamp: string,
    customerName: Option<string>,
    size: Option<string>,
    status: Option<Status>)

  /** The flat screen-setup fee, 1.25, in cents. */
  const SCREEN_SETUP_FEE: int := 125

  function StatusName(s: Status): string {
    match s
    case Pending => "Pending"
    case Completed => "Completed"
  }

  /** Every line has a non-negative price and quantity. */
  predicate NonNegativeLines(items: seq<CartItem>) {
    forall i :: 0 <= i < |items| ==> items[i].product.price >= 0 && items[i].quantity >= 0
  }

  /** `items.reduce((sum, item) => sum + item.price * item.quantity, 0)`, in cents. */
  function Subtotal(items: seq<CartItem>): (r: int)
    ensures NonNegativeLines(items) ==> r >= 0
    ensures (forall i :: 0 <= i < |items| ==> items[i].quantity == 0) ==> r == 0
  {
    if items == [] then 0
    else items[0].product.price * items[0].quantity + Subtotal(items[1..])
  }

  /** `items.reduce((sum, item) => sum + item.quantity, 0)`. */
  function ItemCount(items: seq<CartItem>): (r: int)
    ensures (forall i :: 0 <= i < |items| ==> items[i].quantity >= 0) ==> r >= 0
    ensures (forall i :: 0 <= i < |items| ==> items[i].quantity > 0) ==> r >= |items|
  {
    if items == [] then 0 else items[0].quantity + ItemCount(items[1..])
  }

  lemma {:induction false} SubtotalAppend(a: seq<CartItem>, b: seq<CartItem>)
    ensures Subtotal(a + b) == Subtotal(a) + Subtotal(b)
  {
    if a == [] {
      assert a + b == b;
    } else {
      assert (a + b)[1..] == a[1..] + b;
      SubtotalAppend(a[1..], b);
    }
  }

  lemma {:induction false} ItemCountAppend(a: seq<CartItem>, b: seq<CartItem>)
    ensures ItemCount(a + b) == ItemCount(a) + ItemCount(b)
  {
    if a == [] {
      assert a + b == b;
    } else {
      assert (a + b)[1..] == a[1..] + b;
      ItemCountAppend(a[1..], b);
    }
  }
}
