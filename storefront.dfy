/**
 * The storefront's state: the cart, a JavaScript object from product id to
 * quantity, and checkout, which appends an order to local storage and empties
 * the cart.
 *
 * A JavaScript object lists its keys in the order they were first added
 * (`Object.entries`), and the cart lines follow that order, so the cart is
 * kept as a map together with that order of its keys.
 */
module App {
  import opened Wrappers
  import opened Products
  import opened Orders
  import opened ProductCard
  import Seqs
  import Strings
  import Storage

  predicate NoDuplicates(keys: seq<string>) {
    forall i, j :: 0 <= i < j < |keys| ==> keys[i] != keys[j]
  }

  /** `keys` lists every key of `cart` exactly once. */
  predicate EntryOrder(cart: map<string, int>, keys: seq<string>) {
    && NoDuplicates(keys)
    && (forall k :: k in keys ==> k in cart)
    && (forall k :: k in cart ==> k in keys)
  }

  /** Every quantity in the cart is positive. */
  predicate AllPositive(cart: map<string, int>) {
    forall k :: k in cart ==> cart[k] > 0
  }

  /** `{ ...prev, [id]: (prev[id] || 0) + 1 }`. */
  function AddOne(cart: map<string, int>, id: string): (r: map<string, int>)
    ensures r.Keys == cart.Keys + {id}
    ensures r[id] == (if id in cart then cart[id] else 0) + 1
    ensures forall k :: k in cart && k != id ==> r[k] == cart[k]
  {
    cart[id := (if id in cart && cart[id] != 0 then cart[id] else 0) + 1]
  }

  /** A copy without `id` when `quantity` is 0, `{ ...prev, [id]: quantity }` otherwise. */
  function SetQuantity(cart: map<string, int>, id: string, quantity: int): (r: map<string, int>)
    ensures quantity == 0 ==> r.Keys == cart.Keys - {id}
    ensures quantity != 0 ==> r.Keys == cart.Keys + {id} && r[id] == quantity
    ensures forall k :: k in cart && k != id ==> k in r && r[k] == cart[k]
  {
    if quantity == 0 then cart - {id} else cart[id := quantity]
  }

  /** Assigning a key keeps its place if present and puts it last otherwise. */
  function KeysAfterSet(keys: seq<string>, id: string): (r: seq<string>)
    ensures forall k :: k in r <==> k in keys || k == id
    ensures NoDuplicates(keys) ==> NoDuplicates(r)
    ensures |r| == (if id in keys then |keys| else |keys| + 1) && r[..|keys|] == keys
  {
    if id in keys then keys else keys + [id]
  }

  /** `delete` takes the key out and leaves the others in order. */
  function RemoveKey(keys: seq<string>, id: string): (r: seq<string>)
    ensures forall k :: k in r <==> k in keys && k != id
    ensures NoDuplicates(keys) ==> NoDuplicates(r)
  {
    if keys == [] then []
    else if keys[0] == id then RemoveKey(keys[1..], id)
    else
      var rest := RemoveKey(keys[1..], id);
      assert NoDuplicates(keys) ==> NoDuplicates(keys[1..]) && keys[0] !in rest;
      [keys[0]] + rest
  }

  /** The ids of a list of cart lines, in order. */
  function ItemIds(items: seq<CartItem>): (r: seq<string>)
    ensures |r| == |items|
    ensures forall i :: 0 <= i < |items| ==> r[i] == items[i].product.id
  {
    if items == [] then [] else [items[0].product.id] + ItemIds(items[1..])
  }

  /**
   * `getCartItems`: the cart entries in key order, each joined with its
   * catalog product; entries whose id the catalog does not sell are dropped.
   */
  function CartItems(cart: map<string, int>, keys: seq<string>): (r: seq<CartItem>)
    requires forall k :: k in keys ==> k in cart
    ensures |r| <= |keys|
    ensures forall i :: 0 <= i < |r| ==>
              && FindProduct(PRODUCTS, r[i].product.id) == Some(r[i].product)
              && r[i].product.id in cart
              && r[i].quantity == cart[r[i].product.id]
    ensures ItemIds(r) == Seqs.Where(keys, InCatalog, true)
  {
    if keys == [] then []
    else
      var rest := CartItems(cart, keys[1..]);
      match FindProduct(PRODUCTS, keys[0])
      case Some(p) =>
        var r := [CartItem(p, cart[keys[0]])] + rest;
        assert r[1..] == rest;
        assert ItemIds(r) == [keys[0]] + ItemIds(rest);
        r
      case None => rest
  }

  /** The sum of the cart's quantities for the given keys. */
  function QuantitySum(cart: map<string, int>, keys: seq<string>): int
    requires forall k :: k in keys ==> k in cart
  {
    if keys == [] then 0 else cart[keys[0]] + QuantitySum(cart, keys[1..])
  }

  /** `"ORD-"` followed by the last six characters of `Date.now().toString()`. */
  function OrderNumber(nowDigits: string): (r: string)
    ensures |r| == 4 + (if |nowDigits| < 6 then |nowDigits| else 6)
    ensures r[..4] == "ORD-"
    ensures nowDigits == nowDigits[..|nowDigits| - (|r| - 4)] + r[4..]
  {
    var tail := Strings.SliceFromEnd(nowDigits, 6);
    assert ("ORD-" + tail)[4..] == tail;
    "ORD-" + tail
  }

  /** The record `handleCheckout` stores: number, lines and timestamp, nothing more. */
  function NewOrder(items: seq<CartItem>, nowDigits: string, isoNow: string): (o: Order)
    ensures o.items == items && o.timestamp == isoNow
    ensures o.orderNumber == OrderNumber(nowDigits)
    ensures o.customerName.None? && o.size.None? && o.status.None?
  {
    Order(OrderNumber(nowDigits), items, isoNow, None, None, None)
  }

  /** What a card's call does to the cart quantities. */
  function ApplyCall(cart: map<string, int>, call: CartCall): (r: map<string, int>)
    ensures forall k :: k in cart && k != call.id ==> k in r && r[k] == cart[k]
    ensures forall k :: k in r && k != call.id ==> k in cart
    ensures call.id in r <==> !(call.UpdateQuantity? && call.quantity == 0)
  {
    match call
    case AddToCart(id) => AddOne(cart, id)
    case UpdateQuantity(id, q) => SetQuantity(cart, id, q)
  }

  function ApplyCalls(cart: map<string, int>, calls: seq<CartCall>): map<string, int>
    decreases |calls|
  {
    if calls == [] then cart else ApplyCalls(ApplyCall(cart, calls[0]), calls[1..])
  }

  /** A call that never asks for a negative quantity. */
  predicate NonNegativeCall(call: CartCall) {
    call.UpdateQuantity? ==> call.quantity >= 0
  }

  class Storefront {
    const storage: Storage.LocalStorage
    var cart: map<string, int>
    var entryOrder: seq<string>
    var orderPlaced: Option<string>

    ghost predicate Valid()
      reads this
    {
      EntryOrder(cart, entryOrder)
    }

    /** A new session: the cart starts empty and no order has been placed. */
    constructor (storage: Storage.LocalStorage)
      ensures Valid()
      ensures this.storage == storage
      ensures cart == map[] && entryOrder == [] && orderPlaced == None
    {
      this.storage := storage;
      cart := map[];
      entryOrder := [];
      orderPlaced := None;
    }

    /** `addToCart`: one more of `id`, whether or not the catalog sells it. */
    method AddToCart(id: string)
      requires Valid()
      modifies this
      ensures Valid()
      ensures cart == AddOne(old(cart), id)
      ensures entryOrder == KeysAfterSet(old(entryOrder), id)
      ensures orderPlaced == old(orderPlaced)
    {
      var quantity := if id in cart && cart[id] != 0 then cart[id] else 0;
      cart := cart[id := quantity + 1];
      entryOrder := KeysAfterSet(entryOrder, id);
    }

    /** `updateQuantity`: 0 removes the entry, any other value replaces it. */
    method UpdateQuantity(id: string, quantity: int)
      requires Valid()
      modifies this
      ensures Valid()
      ensures cart == SetQuantity(old(cart), id, quantity)
      ensures entryOrder == if quantity == 0 then RemoveKey(old(entryOrder), id)
                            else KeysAfterSet(old(entryOrder), id)
      ensures orderPlaced == old(orderPlaced)
    {
      if quantity == 0 {
        cart := cart - {id};
        entryOrder := RemoveKey(entryOrder, id);
      } else {
        cart := cart[id := quantity];
        entryOrder := KeysAfterSet(entryOrder, id);
      }
    }

    /** `getCartItems()` on the current cart. */
    function Items(): (r: seq<CartItem>)
      reads this
      requires Valid()
      ensures ItemIds(r) == Seqs.Where(entryOrder, InCatalog, true)
      ensures forall i :: 0 <= i < |r| ==> r[i].product.id in cart && r[i].quantity == cart[r[i].product.id]
    {
      CartItems(cart, entryOrder)
    }

    /** `totalItems`: the badge count in the header. */
    function TotalItems(): (r: int)
      reads this
      requires Valid()
      ensures r == QuantitySum(cart, Seqs.Where(entryOrder, InCatalog, true))
    {
      TotalItemsCountsKnownIds(cart, entryOrder);
      ItemCount(Items())
    }

    /**
     * `handleCheckout`: append the new order to the stored list, remember its
     * number for the confirmation, and empty the cart.
     */
    method HandleCheckout(nowDigits: string, isoNow: string)
      requires Valid()
      modifies this, storage
      ensures Valid()
      ensures storage.orders == old(storage.orders) + [NewOrder(old(Items()), nowDigits, isoNow)]
      ensures storage.adminAuthenticated == old(storage.adminAuthenticated)
      ensures cart == map[] && entryOrder == []
      ensures orderPlaced == Some(OrderNumber(nowDigits))
    {
      var orderNumber := "ORD-" + Strings.SliceFromEnd(nowDigits, 6);
      var items := CartItems(cart, entryOrder);
      assert items == Items();
      var newOrder := Order(orderNumber, items, isoNow, None, None, None);
      assert newOrder == NewOrder(items, nowDigits, isoNow);
      var existingOrders := storage.orders;
      storage.orders := existingOrders + [newOrder];
      orderPlaced := Some(orderNumber);
      cart := map[];
      entryOrder := [];
    }

    /** `resetToShopping`: leave the confirmation; the cart is untouched. */
    method ResetToShopping()
      requires Valid()
      modifies this
      ensures Valid()
      ensures orderPlaced == None
      ensures cart == old(cart) && entryOrder == old(entryOrder)
    {
      orderPlaced := None;
    }
  }

  /** `updateQuantity` twice with the same arguments is `updateQuantity` once. */
  lemma SetQuantityIdempotent(cart: map<string, int>, id: string, quantity: int)
    ensures SetQuantity(SetQuantity(cart, id, quantity), id, quantity) == SetQuantity(cart, id, quantity)
  {
  }

  /** `delete` keeps the other keys in their order: it distributes over a split of the key order. */
  lemma {:induction false} RemoveKeyAppend(a: seq<string>, b: seq<string>, id: string)
    ensures RemoveKey(a + b, id) == RemoveKey(a, id) + RemoveKey(b, id)
  {
    if a == [] {
      assert a + b == b;
    } else {
      assert (a + b)[1..] == a[1..] + b;
      RemoveKeyAppend(a[1..], b, id);
    }
  }

  /** The same holds for the order of the keys. */
  lemma {:induction false} RemoveKeyIdempotent(keys: seq<string>, id: string)
    ensures RemoveKey(RemoveKey(keys, id), id) == RemoveKey(keys, id)
  {
    if keys != [] {
      RemoveKeyIdempotent(keys[1..], id);
      if keys[0] != id {
        assert ([keys[0]] + RemoveKey(keys[1..], id))[1..] == RemoveKey(keys[1..], id);
      }
    }
  }

  /** A call that asks for no negative quantity keeps every quantity positive. */
  lemma ApplyCallKeepsPositive(cart: map<string, int>, call: CartCall)
    requires AllPositive(cart) && NonNegativeCall(call)
    ensures AllPositive(ApplyCall(cart, call))
  {
  }

  /**
   * After any sequence of `addToCart` and `updateQuantity` calls, none of
   * which asks for a negative quantity, no quantity in the cart is zero or
   * negative.
   */
  lemma {:induction false} ApplyCallsKeepsPositive(cart: map<string, int>, calls: seq<CartCall>)
    requires AllPositive(cart)
    requires forall i :: 0 <= i < |calls| ==> NonNegativeCall(calls[i])
    ensures AllPositive(ApplyCalls(cart, calls))
    decreases |calls|
  {
    if calls != [] {
      ApplyCallKeepsPositive(cart, calls[0]);
      ApplyCallsKeepsPositive(ApplyCall(cart, calls[0]), calls[1..]);
    }
  }

  /** The lines of a key list made of two parts are the lines of each part. */
  lemma {:induction false} CartItemsAppend(cart: map<string, int>, a: seq<string>, b: seq<string>)
    requires forall k :: k in a + b ==> k in cart
    ensures CartItems(cart, a + b) == CartItems(cart, a) + CartItems(cart, b)
  {
    if a != [] {
      assert (a + b)[1..] == a[1..] + b;
      CartItemsAppend(cart, a[1..], b);
    } else {
      assert a + b == b;
    }
  }

  /** The lines depend only on the quantities of the ids the catalog sells. */
  lemma {:induction false} CartItemsFrame(c1: map<string, int>, c2: map<string, int>, keys: seq<string>)
    requires forall k :: k in keys ==> k in c1 && k in c2
    requires forall k :: k in keys && InCatalog(k) ==> c1[k] == c2[k]
    ensures CartItems(c1, keys) == CartItems(c2, keys)
  {
    if keys != [] {
      CartItemsFrame(c1, c2, keys[1..]);
    }
  }

  /**
   * An entry whose id the catalog does not sell is invisible: adding one
   * leaves the cart lines, and so the item count and the totals, as they were.
   */
  lemma OrphanEntryInvisible(cart: map<string, int>, keys: seq<string>, id: string)
    requires EntryOrder(cart, keys)
    requires !InCatalog(id)
    ensures CartItems(AddOne(cart, id), KeysAfterSet(keys, id)) == CartItems(cart, keys)
  {
    var cart' := AddOne(cart, id);
    CartItemsFrame(cart', cart, keys);
    if id !in keys {
      CartItemsAppend(cart', keys, [id]);
      assert CartItems(cart', [id]) == [];
    }
  }

  /** `totalItems` is the sum of the quantities of exactly the entries the catalog sells. */
  lemma {:induction false} TotalItemsCountsKnownIds(cart: map<string, int>, keys: seq<string>)
    requires forall k :: k in keys ==> k in cart
    ensures ItemCount(CartItems(cart, keys)) == QuantitySum(cart, Seqs.Where(keys, InCatalog, true))
  {
    if keys != [] {
      TotalItemsCountsKnownIds(cart, keys[1..]);
    }
  }

  /** An id is among the cart lines exactly when it is in the cart and the catalog sells it. */
  lemma CartItemsExactlyKnown(cart: map<string, int>, keys: seq<string>, id: string)
    requires EntryOrder(cart, keys)
    ensures id in ItemIds(CartItems(cart, keys)) <==> id in cart && InCatalog(id)
  {
  }

  /** Two order numbers taken from digit strings of at least six characters agree exactly when their last six digits do. */
  lemma OrderNumberCollision(a: string, b: string)
    requires |a| >= 6 && |b| >= 6
    ensures OrderNumber(a) == OrderNumber(b) <==> a[|a| - 6..] == b[|b| - 6..]
  {
    assert OrderNumber(a)[4..] == a[|a| - 6..];
    assert OrderNumber(b)[4..] == b[|b| - 6..];
  }
}
