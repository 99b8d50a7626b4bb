/**
 * The order aggregate (Order.java): an in-place list of line items and a
 * total that addItem, removeItem and calculateTotal recompute from scratch.
 */
module Orders {
  import opened OrderItems

  /** Sum of price × quantity over a list of line items, in list order. */
  function Total(items: seq<OrderItem>): int
  {
    if items == [] then 0 else Total(items[..|items| - 1]) + Subtotal(items[|items| - 1])
  }

  /** ArrayList.remove(Object): drop the first element equal to x, if any. */
  function RemoveFirst<T(==)>(s: seq<T>, x: T): (r: seq<T>)
    ensures x !in s ==> r == s
    ensures x in s ==> |r| == |s| - 1
  {
    if s == [] then []
    else if s[0] == x then s[1..] else [s[0]] + RemoveFirst(s[1..], x)
  }

  /** RemoveFirst takes away one occurrence of x and keeps every other element. */
  lemma {:induction false} RemoveFirstMultiset<T>(s: seq<T>, x: T)
    ensures multiset(RemoveFirst(s, x)) == multiset(s) - multiset{x}
  {
    if s != [] {
      assert s == [s[0]] + s[1..];
      if s[0] != x {
        RemoveFirstMultiset(s[1..], x);
      }
    }
  }

  /** RemoveFirst deletes exactly the element at the first index holding x. */
  lemma {:induction false} RemoveFirstAt<T>(s: seq<T>, x: T, i: nat)
    requires i < |s| && s[i] == x
    requires x !in s[..i]
    ensures RemoveFirst(s, x) == s[..i] + s[i + 1..]
  {
    if i > 0 {
      var t := s[1..];
      assert s[0] != x by {
        assert s[..i][0] == s[0];
      }
      var u, v := t[..i - 1], s[..i];
      assert x !in u by {
        forall j | 0 <= j < |u|
          ensures u[j] != x
        {
          assert u[j] == v[j + 1];
        }
      }
      RemoveFirstAt(t, x, i - 1);
      assert RemoveFirst(s, x) == [s[0]] + RemoveFirst(t, x);
      assert [s[0]] + u == v;
      assert t[i..] == s[i + 1..];
    }
  }

  /** Appending an item not yet present and then removing it restores the list. */
  lemma {:induction false} RemoveFirstAfterAppend<T>(s: seq<T>, x: T)
    requires x !in s
    ensures RemoveFirst(s + [x], x) == s
  {
    RemoveFirstAt(s + [x], x, |s|);
    assert (s + [x])[..|s|] == s;
  }

  /** The total of appended lists is the sum of their totals. */
  lemma {:induction false} TotalConcat(a: seq<OrderItem>, b: seq<OrderItem>)
    ensures Total(a + b) == Total(a) + Total(b)
    decreases |b|
  {
    if b == [] {
      assert a + b == a;
    } else {
      var b' := b[..|b| - 1];
      assert (a + b)[..|a + b| - 1] == a + b';
      TotalConcat(a, b');
    }
  }

  /** Appending one item adds exactly its subtotal. */
  lemma TotalAppend(s: seq<OrderItem>, x: OrderItem)
    ensures Total(s + [x]) == Total(s) + Subtotal(x)
  {
    assert (s + [x])[..|s|] == s;
  }

  /** Removing a present item subtracts exactly its subtotal. */
  lemma TotalRemoveFirst(s: seq<OrderItem>, x: OrderItem, i: nat)
    requires i < |s| && s[i] == x && x !in s[..i]
    ensures Total(RemoveFirst(s, x)) == Total(s) - Subtotal(x)
  {
    RemoveFirstAt(s, x, i);
    assert s == s[..i] + [x] + s[i + 1..];
    TotalConcat(s[..i] + [x], s[i + 1..]);
    TotalConcat(s[..i], s[i + 1..]);
    TotalAppend(s[..i], x);
  }

  /** With non-negative prices and quantities every total is non-negative. */
  lemma {:induction false} TotalNonNegative(s: seq<OrderItem>)
    requires forall i :: 0 <= i < |s| ==> s[i].menuItem.price >= 0 && s[i].quantity >= 0
    ensures Total(s) >= 0
  {
    if s != [] {
      TotalNonNegative(s[..|s| - 1]);
    }
  }

  /** Adding an item with non-negative price and quantity never lowers the total. */
  lemma TotalGrowsOnAppend(s: seq<OrderItem>, x: OrderItem)
    requires x.menuItem.price >= 0 && x.quantity >= 0
    ensures Total(s) <= Total(s + [x])
  {
    TotalAppend(s, x);
  }

  /** Swapping two neighbouring items keeps the total. */
  lemma {:induction false} TotalSwapAdjacent(s: seq<OrderItem>, i: nat)
    requires i + 1 < |s|
    ensures Total(s[..i] + [s[i + 1], s[i]] + s[i + 2..]) == Total(s)
  {
    var pre, post := s[..i], s[i + 2..];
    assert s == pre + [s[i], s[i + 1]] + post;
    TotalConcat(pre + [s[i], s[i + 1]], post);
    TotalConcat(pre + [s[i + 1], s[i]], post);
    TotalConcat(pre, [s[i], s[i + 1]]);
    TotalConcat(pre, [s[i + 1], s[i]]);
    assert [s[i], s[i + 1]][..1] == [s[i]];
    assert [s[i + 1], s[i]][..1] == [s[i + 1]];
  }

  /** The first index holding x. */
  function IndexOf<T(==)>(s: seq<T>, x: T): (i: nat)
    requires x in s
    ensures i < |s| && s[i] == x && x !in s[..i]
  {
    if s[0] == x then 0
    else
      var j := IndexOf(s[1..], x);
      assert s[..j + 1] == [s[0]] + s[1..][..j];
      j + 1
  }

  /** The total depends only on the multiset of items, not on their order. */
  lemma {:induction false} TotalPermutation(a: seq<OrderItem>, b: seq<OrderItem>)
    requires multiset(a) == multiset(b)
    ensures Total(a) == Total(b)
    decreases |a|
  {
    if a != [] {
      var x, a' := a[|a| - 1], a[..|a| - 1];
      assert a == a' + [x];
      assert x in multiset(b);
      var b' := RemoveFirst(b, x);
      RemoveFirstMultiset(b, x);
      assert multiset(a') == multiset(b');
      TotalPermutation(a', b');
      TotalRemoveFirst(b, x, IndexOf(b, x));
    } else {
      assert |b| == |multiset(b)| == 0;
    }
  }

  class Order {
    /** orderItems: the line items, in insertion order. */
    var orderItems: seq<OrderItem>
    /** totalAmount: a Java double that only ever holds an integer sum. */
    var totalAmount: int

    /** The total agrees with the items; holds after every add, remove or recomputation. */
    predicate Consistent()
      reads this
    {
      totalAmount == Total(orderItems)
    }

    /** Order(): no items, total 0 (the double field's default). */
    constructor ()
      ensures orderItems == [] && totalAmount == 0
      ensures Consistent()
    {
      orderItems := [];
      totalAmount := 0;
    }

    method GetOrderItems() returns (items: seq<OrderItem>)
      ensures items == orderItems
    {
      items := orderItems;
    }

    /** Replaces the list; the total is left as it was and may now be stale. */
    method SetOrderItems(items: seq<OrderItem>)
      modifies this
      ensures orderItems == items && totalAmount == old(totalAmount)
      ensures Consistent() <==> old(totalAmount) == Total(items)
    {
      orderItems := items;
    }

    /** Stores a total as given (the repository loads saved totals this way); it may disagree with the items. */
    method SetTotalAmount(t: int)
      modifies this
      ensures totalAmount == t && orderItems == old(orderItems)
      ensures Consistent() <==> t == Total(orderItems)
    {
      totalAmount := t;
    }

    method GetTotalAmount() returns (t: int)
      ensures t == totalAmount
    {
      t := totalAmount;
    }

    /** Recomputes the total from scratch by a loop over the items. */
    method CalculateTotal()
      modifies this
      ensures orderItems == old(orderItems)
      ensures totalAmount == Total(orderItems)
    {
      var total := 0;
      var i := 0;
      while i < |orderItems|
        invariant 0 <= i <= |orderItems|
        invariant total == Total(orderItems[..i])
      {
        assert orderItems[..i + 1][..i] == orderItems[..i];
        total := total + Subtotal(orderItems[i]);
        i := i + 1;
      }
      assert orderItems[..i] == orderItems;
      totalAmount := total;
    }

    /** Appends the item and recomputes the total. */
    method AddItem(item: OrderItem)
      modifies this
      ensures orderItems == old(orderItems) + [item]
      ensures totalAmount == Total(orderItems) == Total(old(orderItems)) + Subtotal(item)
    {
      orderItems := orderItems + [item];
      CalculateTotal();
      TotalAppend(old(orderItems), item);
    }

    /** Removes the first equal item, if there is one, and recomputes the total. */
    method RemoveItem(item: OrderItem)
      modifies this
      ensures orderItems == RemoveFirst(old(orderItems), item)
      ensures item !in old(orderItems) ==> orderItems == old(orderItems)
      ensures totalAmount == Total(orderItems)
    {
      orderItems := RemoveFirst(orderItems, item);
      CalculateTotal();
    }
  }

  /**
   * calculateTotal is idempotent: a second call changes nothing, and on an
   * order whose total is already consistent even the first call changes nothing.
   */
  method CalculateTotalTwice(o: Order)
    modifies o
    ensures o.orderItems == old(o.orderItems)
    ensures o.totalAmount == Total(o.orderItems)
    ensures old(o.Consistent()) ==> o.totalAmount == old(o.totalAmount)
  {
    o.CalculateTotal();
    var first := o.totalAmount;
    o.CalculateTotal();
    assert o.totalAmount == first;
  }

  /** addItem(x) then removeItem(x), with x not already in the order, restores list and total. */
  method AddThenRemove(o: Order, x: OrderItem)
    requires o.Consistent()
    requires x !in o.orderItems
    modifies o
    ensures o.orderItems == old(o.orderItems)
    ensures o.totalAmount == old(o.totalAmount)
  {
    o.AddItem(x);
    o.RemoveItem(x);
    RemoveFirstAfterAppend(old(o.orderItems), x);
  }
}
