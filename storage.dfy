/**
 * The browser's local storage as the two pages use it: the "orders" entry,
 * already parsed (a missing entry reads as the empty list), and the
 * "adminAuthenticated" entry, true exactly when it holds the text "true".
 */
module Storage {
  import opened Orders

  class LocalStorage {
    var orders: seq<Order>
    var adminAuthenticated: bool

    /** A device on which nothing has been stored yet. */
    constructor ()
      ensures orders == [] && !adminAuthenticated
    {
      orders := [];
      adminAuthenticated := false;
    }
  }
}
