/**
 * The two pieces of order-panel logic that act on the order aggregate
 * (OrderPanel.java): removing a line item by its menu-item name, and keeping
 * the items table in step with the order's items.
 */
module OrderPanel {
  import opened OrderItems
  import opened Orders

  /** Specification of name-based removal: drop the first item whose menu item has this name. */
  function RemoveFirstByName(items: seq<OrderItem>, name: string): seq<OrderItem>
  {
    if items == [] then []
    else if items[0].menuItem.name == name then items[1..]
    else [items[0]] + RemoveFirstByName(items[1..], name)
  }

  predicate NamedAt(items: seq<OrderItem>, name: string, i: int)
  {
    0 <= i < |items| && items[i].menuItem.name == name
  }

  /** No item of the list carries this name. */
  lemma {:induction false} RemoveFirstByNameAbsent(items: seq<OrderItem>, name: string)
    requires forall j :: 0 <= j < |items| ==> items[j].menuItem.name != name
    ensures RemoveFirstByName(items, name) == items
  {
    if items != [] {
      RemoveFirstByNameAbsent(items[1..], name);
    }
  }

  /** With i the first index carrying the name, exactly that item goes. */
  lemma {:induction false} RemoveFirstByNameAt(items: seq<OrderItem>, name: string, i: nat)
    requires NamedAt(items, name, i)
    requires forall j :: 0 <= j < i ==> items[j].menuItem.name != name
    ensures RemoveFirstByName(items, name) == items[..i] + items[i + 1..]
  {
    if i > 0 {
      RemoveFirstByNameAt(items[1..], name, i - 1);
      assert items[1..][..i - 1] == items[1..i];
      assert items[1..][i..] == items[i + 1..];
    }
  }

  /**
   * The search loop of removeItemFromOrder: the index of the first item whose
   * menu item is named `name`, or -1 when no item is.
   */
  method FindFirstByName(items: seq<OrderItem>, name: string) returns (idx: int)
    ensures -1 <= idx < |items|
    ensures idx == -1 <==> forall j :: 0 <= j < |items| ==> items[j].menuItem.name != name
    ensures idx != -1 ==> NamedAt(items, name, idx)
    ensures forall j :: 0 <= j < idx ==> items[j].menuItem.name != name
  {
    var i := 0;
    while i < |items|
      invariant 0 <= i <= |items|
      invariant forall j :: 0 <= j < i ==> items[j].menuItem.name != name
    {
      if items[i].menuItem.name == name {
        return i;
      }
      i := i + 1;
    }
    return -1;
  }

  /**
   * Finding the first item by name and handing that item to removeItem removes
   * the same item as the name-based specification.
   */
  lemma FoundItemIsFirstEqual(items: seq<OrderItem>, name: string, i: nat)
    requires NamedAt(items, name, i)
    requires forall j :: 0 <= j < i ==> items[j].menuItem.name != name
    ensures RemoveFirst(items, items[i]) == RemoveFirstByName(items, name)
  {
    assert items[i] !in items[..i];
    RemoveFirstAt(items, items[i], i);
    RemoveFirstByNameAt(items, name, i);
  }

  /**
   * removeItemFromOrder's loop: remove the first item with this name through
   * Order.removeItem. When no item matches, removeItem is not called and the
   * total is left as it was.
   */
  method RemoveItemByName(order: Order, name: string)
    modifies order
    ensures order.orderItems == RemoveFirstByName(old(order.orderItems), name)
    ensures if exists j :: NamedAt(old(order.orderItems), name, j)
            then |order.orderItems| == |old(order.orderItems)| - 1 && order.Consistent()
            else order.orderItems == old(order.orderItems) && order.totalAmount == old(order.totalAmount)
  {
    var idx := FindFirstByName(order.orderItems, name);
    if idx != -1 {
      ghost var before := order.orderItems;
      FoundItemIsFirstEqual(before, name, idx);
      order.RemoveItem(order.orderItems[idx]);
    } else {
      RemoveFirstByNameAbsent(order.orderItems, name);
    }
  }

  // ----- The items table shown beside the order -----

  /** A row of the order-items table: name, category, price and quantity of a line item. */
  datatype Row = Row(name: string, category: string, price: int, quantity: int)

  function RowOf(item: OrderItem): Row
  {
    Row(item.menuItem.name, item.menuItem.category, item.menuItem.price, item.quantity)
  }

  /** The table shows exactly the order's items, row i for item i. */
  predicate InSync(items: seq<OrderItem>, rows: seq<Row>)
  {
    |items| == |rows| && forall i :: 0 <= i < |items| ==> rows[i] == RowOf(items[i])
  }

  /** Sum of price × quantity over the rows the table shows. */
  function DisplayedTotal(rows: seq<Row>): int
  {
    if rows == [] then 0 else DisplayedTotal(rows[..|rows| - 1]) + rows[|rows| - 1].price * rows[|rows| - 1].quantity
  }

  /** While the table is in sync, the order's total is the sum the table shows. */
  lemma {:induction false} InSyncTotals(items: seq<OrderItem>, rows: seq<Row>)
    requires InSync(items, rows)
    ensures Total(items) == DisplayedTotal(rows)
  {
    if items != [] {
      InSyncTotals(items[..|items| - 1], rows[..|rows| - 1]);
    }
  }

  /** addItemToOrder: the item is appended to the order and a row for it to the table. */
  lemma AddKeepsSync(items: seq<OrderItem>, rows: seq<Row>, item: OrderItem)
    requires InSync(items, rows)
    ensures InSync(items + [item], rows + [RowOf(item)])
  {
  }

  function RemoveAt<T>(s: seq<T>, k: nat): (r: seq<T>)
    requires k < |s|
    ensures |r| == |s| - 1
  {
    s[..k] + s[k + 1..]
  }

  /**
   * removeItemFromOrder as written: the first item named like the selected row
   * leaves the order, while the selected row itself leaves the table.
   */
  function RemoveSelectedAsWritten(items: seq<OrderItem>, rows: seq<Row>, selected: nat): (seq<OrderItem>, seq<Row>)
    requires selected < |rows|
  {
    (RemoveFirstByName(items, rows[selected].name), RemoveAt(rows, selected))
  }

  /**
   * Two lines of the same dish with different quantities: removing the second
   * row deletes the first line from the order, so table and order disagree and
   * the total shown (500) is not the sum of the rows shown (250).
   */
  lemma AsWrittenLosesSync()
    ensures var burger := MenuItem("Burger", "Mains", 250);
            var items := [OrderItem("O001", burger, 1), OrderItem("O001", burger, 2)];
            var rows := [RowOf(items[0]), RowOf(items[1])];
            var (items', rows') := RemoveSelectedAsWritten(items, rows, 1);
            InSync(items, rows) && !InSync(items', rows') &&
            Total(items') == 500 && DisplayedTotal(rows') == 250
  {
    var burger := MenuItem("Burger", "Mains", 250);
    var items := [OrderItem("O001", burger, 1), OrderItem("O001", burger, 2)];
    assert RemoveFirstByName(items, "Burger") == [items[1]];
    assert Total([items[1]]) == Total([]) + 500;
  }

  /** The intended removal: the selected row and the line item at the same position both go. */
  function RemoveSelected(items: seq<OrderItem>, rows: seq<Row>, selected: nat): (seq<OrderItem>, seq<Row>)
    requires selected < |rows| && |items| == |rows|
  {
    (RemoveAt(items, selected), RemoveAt(rows, selected))
  }

  /** The intended removal keeps table and order in sync, so the shown total stays right. */
  lemma RemoveSelectedKeepsSync(items: seq<OrderItem>, rows: seq<Row>, selected: nat)
    requires InSync(items, rows) && selected < |rows|
    ensures InSync(RemoveSelected(items, rows, selected).0, RemoveSelected(items, rows, selected).1)
    ensures Total(RemoveSelected(items, rows, selected).0) == DisplayedTotal(RemoveSelected(items, rows, selected).1)
  {
    var (items', rows') := RemoveSelected(items, rows, selected);
    assert forall i :: 0 <= i < |items'| ==> items'[i] == items[if i < selected then i else i + 1];
    InSyncTotals(items', rows');
  }

  /** When no earlier row shares the selected row's name, the code as written removes the intended item. */
  lemma AsWrittenAgreesOnFirstOfName(items: seq<OrderItem>, rows: seq<Row>, selected: nat)
    requires InSync(items, rows) && selected < |rows|
    requires forall j :: 0 <= j < selected ==> rows[j].name != rows[selected].name
    ensures RemoveSelectedAsWritten(items, rows, selected) == RemoveSelected(items, rows, selected)
  {
    assert forall j :: 0 <= j < selected ==> items[j].menuItem.name == rows[j].name;
    RemoveFirstByNameAt(items, rows[selected].name, selected);
  }
}
