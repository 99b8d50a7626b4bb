/**
 * Menu items and order line items (MenuItem.java, OrderItem.java).
 * A line item's subtotal is never stored: it is the referenced menu item's
 * price times the quantity.
 */
module OrderItems {

  /** A row of the Menu table; the name is its natural key. Prices are Java `int`s. */
  datatype MenuItem = MenuItem(name: string, category: string, price: int)

  /**
   * One line of an order. The Java object is mutable through setters; a setter
   * call is modelled as a datatype update, e.g. `item.(quantity := q)`.
   */
  datatype OrderItem = OrderItem(orderId: string, menuItem: MenuItem, quantity: int)

  /** getSubtotal(): the item's price times its quantity (unbounded: no 32-bit overflow). */
  function Subtotal(item: OrderItem): (r: int)
    ensures item.quantity == 0 ==> r == 0
    ensures item.menuItem.price >= 0 && item.quantity >= 0 ==> r >= 0
    ensures item.menuItem.price > 0 && item.quantity > 0 ==> r >= item.menuItem.price && r >= item.quantity
  {
    item.menuItem.price * item.quantity
  }

  /** Raising the quantity (setQuantity) never lowers the subtotal when the price is non-negative. */
  lemma SetQuantityMonotone(item: OrderItem, q: int)
    requires item.menuItem.price >= 0
    requires item.quantity <= q
    ensures Subtotal(item) <= Subtotal(item.(quantity := q))
    ensures Subtotal(item.(quantity := q)) - Subtotal(item) == item.menuItem.price * (q - item.quantity)
  {
    var p := item.menuItem.price;
    assert p * q - p * item.quantity == p * (q - item.quantity);
  }

  /** Each unit of quantity adds exactly one price to the subtotal. */
  lemma {:induction false} SubtotalIsRepeatedPrice(item: OrderItem)
    requires item.quantity >= 0
    ensures Subtotal(item) == RepeatedPrice(item.menuItem.price, item.quantity)
    decreases item.quantity
  {
    if item.quantity > 0 {
      SubtotalIsRepeatedPrice(item.(quantity := item.quantity - 1));
    }
  }

  /** price added to itself n times: an independent reading of "price × quantity". */
  function RepeatedPrice(price: int, n: nat): int
  {
    if n == 0 then 0 else RepeatedPrice(price, n - 1) + price
  }
}
