/**
 * The checkout summary: the item count, subtotal, fee and total shown for the
 * cart lines, and the "Place Order" button, which is only shown for a
 * non-empty cart and is disabled until a name and a size are given.
 */
module CartSummary {
  import opened Wrappers
  import opened Orders
  import Products

  /** The values of the size selector. */
  const SIZE_OPTIONS: seq<string> := ["S", "M", "L", "XL"]

  /** `hasItems ? subtotal + SCREEN_SETUP_FEE : 0`. */
  function Total(items: seq<CartItem>): (r: int)
    ensures |items| == 0 ==> r == 0
    ensures |items| > 0 ==> r - Subtotal(items) == SCREEN_SETUP_FEE
    ensures NonNegativeLines(items) ==> r >= 0
  {
    if |items| > 0 then Subtotal(items) + SCREEN_SETUP_FEE else 0
  }

  /** What the summary renders: nothing but a notice for an empty cart. */
  datatype View =
    | EmptyCart
    | Summary(itemCount: int, subtotal: int, fee: int, total: int, placeOrderDisabled: bool)

  /** `!name || !size`: the button is disabled while either is the empty string. */
  predicate PlaceOrderDisabled(name: string, size: string) {
    name == "" || size == ""
  }

  function Render(items: seq<CartItem>, name: string, size: string): (r: View)
    ensures r.EmptyCart? <==> |items| == 0
    ensures r.Summary? ==> r.fee == SCREEN_SETUP_FEE && r.total - r.subtotal == SCREEN_SETUP_FEE
    ensures r.Summary? ==> r.itemCount == ItemCount(items) && r.subtotal == Subtotal(items) && r.total == Total(items)
    ensures r.Summary? ==> (r.placeOrderDisabled <==> name == "" || size == "")
  {
    if |items| == 0 then EmptyCart
    else Summary(ItemCount(items), Subtotal(items), SCREEN_SETUP_FEE, Total(items),
                 PlaceOrderDisabled(name, size))
  }

  /**
   * Pressing "Place Order": `Some((name, size))` when `onCheckout(name, size)`
   * is called, `None` when there is no button or it is disabled.
   */
  function PressPlaceOrder(items: seq<CartItem>, name: string, size: string): (r: Option<(string, string)>)
    ensures r.Some? ==> r.value == (name, size)
  {
    match Render(items, name, size)
    case EmptyCart => None
    case Summary(_, _, _, _, disabled) => if disabled then None else Some((name, size))
  }

  /** `onCheckout` is reached exactly when the cart has lines and both name and size are set. */
  lemma CheckoutReachable(items: seq<CartItem>, name: string, size: string)
    ensures PressPlaceOrder(items, name, size).Some? <==> |items| > 0 && name != "" && size != ""
  {
  }

  /** The summary shows a total that is the subtotal plus the fee, and the fee is always 1.25. */
  lemma SummaryTotals(items: seq<CartItem>, name: string, size: string)
    requires |items| > 0
    ensures Render(items, name, size).Summary?
    ensures Render(items, name, size).total == Render(items, name, size).subtotal + 125
    ensures Render(items, name, size).itemCount == ItemCount(items)
  {
  }

  /** The selectable sizes are exactly S, M, L and XL, each once. */
  lemma SizeOptions()
    ensures |SIZE_OPTIONS| == 4
    ensures (set s | s in SIZE_OPTIONS) == {"S", "M", "L", "XL"}
  {
  }

  /** Two t-shirts at 8.44: subtotal 16.88, fee 1.25, total 18.13. */
  lemma TwoShirtsExample()
    ensures Subtotal([CartItem(Products.PRODUCTS[2], 2)]) == 1688
    ensures Total([CartItem(Products.PRODUCTS[2], 2)]) == 1813
  {
  }
}
