/**
 * A catalog card: it shows "Add to Cart" while the product is not in the
 * cart and a minus/plus stepper once it is, and turns every press into a call
 * of the storefront's `addToCart` or `updateQuantity`.
 */
module ProductCard {
  import opened Wrappers
  import opened Products

  /** The controls a card can show. */
  datatype Control = AddButton | MinusButton | PlusButton

  /** A call a card makes into the storefront's cart. */
  datatype CartCall =
    | AddToCart(id: string)
    | UpdateQuantity(id: string, quantity: int)

  /** `Math.max(0, quantity + delta)`: the quantity a stepper press sends. */
  function SteppedQuantity(quantity: int, delta: int): (r: int)
    ensures r >= 0 && r >= quantity + delta
    ensures r == 0 || r == quantity + delta
  {
    if quantity + delta > 0 then quantity + delta else 0
  }

  /** `quantity === 0 ? <add button> : <stepper>`. */
  function Controls(quantity: int): (r: set<Control>)
    ensures AddButton in r <==> quantity == 0
    ensures MinusButton in r <==> PlusButton in r
    ensures MinusButton in r <==> AddButton !in r
  {
    if quantity == 0 then {AddButton} else {MinusButton, PlusButton}
  }

  /** The call a press makes; `None` when the control is not on the card. */
  function Press(product: Product, quantity: int, control: Control): (r: Option<CartCall>)
    ensures r.Some? <==> control in Controls(quantity)
    ensures r.Some? ==> r.value.id == product.id
    ensures r.Some? && r.value.UpdateQuantity? ==> r.value.quantity >= 0
  {
    if control !in Controls(quantity) then None
    else match control
      case AddButton => Some(AddToCart(product.id))
      case MinusButton => Some(UpdateQuantity(product.id, SteppedQuantity(quantity, -1)))
      case PlusButton => Some(UpdateQuantity(product.id, SteppedQuantity(quantity, 1)))
  }

  /** The FREE badge: shown exactly for a product priced 0. */
  predicate ShowsFree(product: Product) {
    product.price == 0
  }

  /** Stepping down from 1 sends 0, which removes the line; stepping up sends one more. */
  lemma StepperCalls(product: Product, quantity: int)
    requires quantity > 0
    ensures quantity == 1 ==> Press(product, quantity, MinusButton) == Some(UpdateQuantity(product.id, 0))
    ensures Press(product, quantity, PlusButton) == Some(UpdateQuantity(product.id, quantity + 1))
    ensures Press(product, quantity, MinusButton) == Some(UpdateQuantity(product.id, quantity - 1))
    ensures Press(product, quantity, AddButton) == None
  {
  }

  /** Only the stickers carry the FREE badge. */
  lemma FreeBadges()
    ensures forall i :: 0 <= i < |PRODUCTS| ==> (ShowsFree(PRODUCTS[i]) <==> PRODUCTS[i].id == "stickers")
  {
  }
}
