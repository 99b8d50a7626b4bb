# Restaurant management: order aggregate and next-id generation

This project models two pieces of logic from a restaurant management system, a Swing front end over a MySQL database:

- **The order aggregate** (`Order`, `OrderItem`, `MenuItem`). An order keeps a list of line items and a total. `addItem` appends an item, `removeItem` removes the first equal item, and each then calls `calculateTotal`. `calculateTotal` recomputes the total from scratch as the sum of price × quantity. `setOrderItems` replaces the list and leaves the total alone.
  - `Orders.Order` is a class with a `seq<OrderItem>` field and an `int` total. Its methods state their whole new state in terms of the specification function `Orders.Total`.
  - The invariant `Consistent()` holds after every add, remove or recomputation (total = sum of the items).
  - Menu items and line items are datatypes. A line-item setter is a datatype update.
- **The order panel's removal of a line item.** It takes the name from the selected table row and removes the first line item whose menu item has that name. It mirrors the order on a table of rows (`OrderPanel` module).
- **Next-id generation** (`getNextCustomerId`, `getNextStaffId`, `getNextOrderId`, `getNextPaymentId`). Each takes `MAX(id)`, or the seed `"<prefix>000"` when the table is empty or the query fails. It drops the first character and parses the rest with `Integer.parseInt`. It adds 1 in 32-bit arithmetic and formats the result as `"<prefix>%03d"`.
  - `NextIds.NextId` is the shared body; the four repository methods are instances for `C`, `S`, `O` and `P`.
  - The result of the `MAX` query is an input: `QueryFailed`, `NoMax` or `MaxId(id)`.
  - Java's two exceptions are `Err` results: `StringIndexOutOfBounds` for `"".substring(1)` and `NumberFormat` for an unparsable suffix. The code does not catch either.
  - Java's `int` addition wraps (`Wrap32`). `%03d` writes a negative number as `-` then at least two digits.
- **How `MAX(id)` orders ids** (`IdOrder` module). The SQL maximum compares strings. `LexLess` is character-code order.
  - While every number is below 1000, the string maximum is the id of the numeric maximum, and the generated id is new.
  - From 1000 on, this breaks (see Findings).

The files are `Wrappers.dfy` (Option, Result), `OrderItems.dfy`, `Orders.dfy`, `OrderPanel.dfy`, `NextIds.dfy` and `IdOrder.dfy`.

## Model

| member | source | states |
|---|---|---|
| OrderItems.Subtotal | OrderItem.java:48-50 | the subtotal is 0 for quantity 0; it is non-negative, and at least the price and at least the quantity, when both are non-negative (positive) |
| OrderItems.SubtotalIsRepeatedPrice | OrderItem.java:48-50 | for a non-negative quantity, the subtotal equals the price added to itself quantity times |
| OrderItems.SetQuantityMonotone | OrderItem.java:43-50 | with a non-negative price, raising the quantity through setQuantity never lowers the subtotal; it grows by price × the increase |
| Orders.Total | Order.java:95-101 | defines the sum of price × quantity over the items, in list order; no contract |
| Orders.RemoveFirst | Order.java:89-90 | ArrayList.remove(Object): an absent item leaves the list unchanged; a present one shortens it by exactly one |
| Orders.RemoveFirstMultiset | Order.java:89-90 | removal takes away exactly one occurrence of the item and keeps every other element |
| Orders.RemoveFirstAt | Order.java:89-90 | the element removed is the one at the first index holding the item; the rest keep their order |
| Orders.RemoveFirstAfterAppend | Order.java:83-92 | appending an item that is not in the list and then removing it gives back the original list |
| Orders.TotalConcat | Order.java:95-101 | the sum over two concatenated lists is the sum of the two sums |
| Orders.TotalAppend | Order.java:83-101 | appending an item adds exactly its subtotal to the sum |
| Orders.TotalRemoveFirst | Order.java:89-101 | removing a present item subtracts exactly its subtotal from the sum |
| Orders.TotalNonNegative | Order.java:95-101 | with non-negative prices and quantities the total is non-negative |
| Orders.TotalGrowsOnAppend | Order.java:83-86 | adding an item with non-negative price and quantity never lowers the total |
| Orders.TotalSwapAdjacent | Order.java:95-101 | one swap of two neighbouring items leaves the total unchanged |
| Orders.TotalPermutation | Order.java:95-101 | any two lists with the same multiset of items have the same total: the total does not depend on item order |
| Orders.Order.constructor | Order.java:19-22 | a new order has no items and total 0, so it is consistent |
| Orders.Order.GetOrderItems | Order.java:74-76 | returns the current item list |
| Orders.Order.GetTotalAmount | Order.java:66-68 | returns the stored total |
| Orders.Order.SetTotalAmount | Order.java:70-72 | stores the given total and keeps the items; the order stays consistent exactly when the given total is the items' sum |
| Orders.Order.SetOrderItems | Order.java:78-80 | replaces the list and keeps the old total, which is consistent with the new list exactly when it happens to equal that list's sum |
| Orders.Order.CalculateTotal | Order.java:95-101 | leaves the items unchanged and sets the total to the sum of price × quantity over them, whatever the total was before |
| Orders.Order.AddItem | Order.java:83-86 | the list becomes the old list with the item appended; the total is the new list's sum, the old total plus the item's subtotal |
| Orders.Order.RemoveItem | Order.java:89-92 | the list loses the first equal item and is unchanged when there is none; the total is the new list's sum |
| Orders.CalculateTotalTwice | Order.java:95-101 | idempotence: after two calls the list is unchanged and the total is its sum, and on an order that was already consistent the total is the one it had before |
| Orders.AddThenRemove | Order.java:83-92 | on a consistent order, addItem(x) then removeItem(x), with x not in the list, restores both the list and the total |
| OrderPanel.RemoveFirstByName | OrderPanel.java:387-393 | defines name-based removal: the first item whose menu item has the name leaves the list; no contract |
| OrderPanel.FindFirstByName | OrderPanel.java:387-389 | the index of the first item with that menu-item name, and -1 exactly when no item has the name |
| OrderPanel.RemoveFirstByNameAbsent | OrderPanel.java:387-393 | when no item has the name, name-based removal changes nothing |
| OrderPanel.RemoveFirstByNameAt | OrderPanel.java:387-393 | name-based removal deletes exactly the item at the first index with that name |
| OrderPanel.FoundItemIsFirstEqual | OrderPanel.java:387-390 | passing the found item to removeItem removes the same item as name-based removal, even if an equal item sits elsewhere |
| OrderPanel.RemoveItemByName | OrderPanel.java:387-393 | the order's list becomes the name-based removal of the old list; if some item had the name, the list shrinks by one and the total is recomputed; otherwise list and total are untouched |
| OrderPanel.RowOf | OrderPanel.java:364-370 | defines the table row built for a line item: name, category, price and quantity as ints; the "₹" price text and the formatted subtotal column are not modelled; no contract |
| OrderPanel.InSyncTotals | OrderPanel.java:260-263 | while the table shows exactly the order's items, the order's total is the sum of the rows' price × quantity |
| OrderPanel.AddKeepsSync | OrderPanel.java:358-371 | adding an item to the order and its row to the table keeps them in step |
| OrderPanel.RemoveSelectedAsWritten | OrderPanel.java:384-396 | defines removal as written: the first item named like the selected row leaves the order, the selected row leaves the table; no contract |
| OrderPanel.AsWrittenLosesSync | OrderPanel.java:384-396 | two lines of the same dish with quantities 1 and 2: removing the second row leaves the order with the second line (total 500) and the table with the first row (sum 250) |
| OrderPanel.RemoveSelected | OrderPanel.java:381-399 | defines the intended removal: the item and the row at the selected position both go; no contract |
| OrderPanel.RemoveSelectedKeepsSync | OrderPanel.java:381-399 | removing the selected row and the line item at the same position keeps table and order in step, so the total shown is the rows' sum |
| OrderPanel.AsWrittenAgreesOnFirstOfName | OrderPanel.java:384-396 | when no earlier row has the selected row's name, the code as written removes the intended line item |
| NextIds.Wrap32 | CustomerDAO.java:164 | Java int addition: the result is an int congruent to the exact value modulo 2^32, and equal to it in range |
| NextIds.Wrap32Overflow | CustomerDAO.java:164 | INT_MAX + 1 wraps to INT_MIN |
| NextIds.Digits | CustomerDAO.java:165 | the decimal digits of a number: at least one, all decimal digits |
| NextIds.DigitsValueOfDigits | CustomerDAO.java:165 | reading Digits(n) back as a decimal number gives n |
| NextIds.LeadingZerosValue | CustomerDAO.java:165 | zero padding on the left does not change the value of a digit string |
| NextIds.ParseInt | CustomerDAO.java:164 | Integer.parseInt yields only values in the int range |
| NextIds.Format03 | CustomerDAO.java:165 | defines String.format("%03d", n): decimal, zero-padded to at least three characters, with a negative number written as '-' then at least two digits; no contract (the same call is at StaffDAO.java:207, OrderDAO.java:237, PaymentDAO.java:191) |
| NextIds.Format03NonNegative | CustomerDAO.java:165 | %03d of n ≥ 0 is all digits, denotes n, and has max(3, number of digits of n) characters |
| NextIds.Format03Negative | CustomerDAO.java:165 | %03d of n < 0 is '-' followed by digits denoting -n, at least three characters in all |
| NextIds.Format03Length | CustomerDAO.java:165 | %03d always writes at least three characters |
| NextIds.ParseFormat03 | CustomerDAO.java:164-165 | round trip: Integer.parseInt of %03d of any int gives back that int |
| NextIds.Format03Wide | CustomerDAO.java:165 | numbers of 1000 or more are written with all their digits, four or more, nothing cut off |
| NextIds.Format03Small | CustomerDAO.java:165 | below 1000, %03d writes exactly three digits: hundreds, tens, units |
| NextIds.Format03SmallSamples | CustomerDAO.java:165 | %03d writes 0, 1, 2, 999 as "000", "001", "002", "999" |
| NextIds.Format03Sample1000 | CustomerDAO.java:165 | %03d writes 1000 as "1000" |
| NextIds.LastId | CustomerDAO.java:150-161 | lastId is the query's non-null maximum, and the seed "<prefix>000" when there is no row, the maximum is null, or the query failed |
| NextIds.NextId | CustomerDAO.java:149-166 | every id produced starts with the prefix and has at least four characters |
| NextIds.NextIdErrors | CustomerDAO.java:164 | the result is StringIndexOutOfBounds exactly when lastId is empty, NumberFormat exactly when its suffix does not parse, and an id exactly when it parses |
| NextIds.NextIdFormat | CustomerDAO.java:164-165 | from a suffix that parses to v, with v + 1 >= 0, the id is the prefix followed by exactly the decimal digits of v + 1, zero-padded to max(3, number of digits) |
| NextIds.NextIdSeed | CustomerDAO.java:150-165 | an empty table and a failed query both give "<prefix>001" |
| NextIds.NextIdRoundTrip | CustomerDAO.java:164-165 | parsing the new id's suffix gives the old suffix's value plus one, in int arithmetic |
| NextIds.NextIdIncrements | CustomerDAO.java:164-165 | below INT_MAX, the new id's number is exactly the old one plus one |
| NextIds.NextIdWrapsAround | CustomerDAO.java:164-165 | after a suffix of INT_MAX, the new id's number is INT_MIN and is written with a minus sign |
| NextIds.NextIdIgnoresFirstChar | CustomerDAO.java:164 | only substring(1) is parsed: the first character of the last id has no effect |
| NextIds.NextIdPast999 | CustomerDAO.java:164-165 | from a suffix of 999 upwards (below INT_MAX), the new id is the prefix followed by all digits of v + 1, at least five characters |
| NextIds.NextIdScenario | CustomerDAO.java:149-166 | on an empty table the first id is "<prefix>001", and the id after "<prefix>001" is "<prefix>002" |
| NextIds.NextCustomerId | CustomerDAO.java:149-166 | customer ids: "C001" when the query gives no maximum or fails; every id produced starts with 'C' and has at least four characters |
| NextIds.NextStaffId | StaffDAO.java:191-208 | staff ids: "S001" when the query gives no maximum or fails; every id produced starts with 'S' and has at least four characters |
| NextIds.NextOrderId | OrderDAO.java:221-238 | order ids: "O001" when the query gives no maximum or fails; every id produced starts with 'O' and has at least four characters |
| NextIds.NextPaymentId | PaymentDAO.java:175-192 | payment ids: "P001" when the query gives no maximum or fails; every id produced starts with 'P' and has at least four characters |
| IdOrder.LexLess | CustomerDAO.java:154 | defines the string order MAX uses: character codes, position by position, a proper prefix first; no contract |
| IdOrder.LexLessIrreflexive | CustomerDAO.java:154 | no id sorts before itself |
| IdOrder.LexLessSamePrefix | CustomerDAO.java:154-165 | a shared prefix letter does not affect the string comparison |
| IdOrder.ThreeDigitOrder | CustomerDAO.java:154-165 | three-digit strings compare as strings exactly as their numbers compare |
| IdOrder.PaddedOrderBelow1000 | CustomerDAO.java:154-165 | for numbers below 1000, %03d strings compare as strings exactly as the numbers compare, in both directions |
| IdOrder.IdOrderBelow1000 | CustomerDAO.java:154-165 | for numbers below 1000, whole ids compare as strings exactly as their numbers compare (the same holds for the staff, order and payment ids) |
| IdOrder.IdOrderFailsAt1000 | CustomerDAO.java:154-165 | at 1000 the orders disagree: "<prefix>1000" sorts before "<prefix>999" and not after it |
| IdOrder.LexMax | CustomerDAO.java:154 | defines SELECT MAX over string ids: the greatest under LexLess; no contract |
| IdOrder.NumMax | CustomerDAO.java:154 | the numeric maximum is an element and no element exceeds it |
| IdOrder.IdsAreSmallIds | CustomerDAO.java:165 | below 1000, each formatted id is the prefix and the number's three digits |
| IdOrder.SmallIdOrder | CustomerDAO.java:154-165 | ids written with three digits compare as strings exactly as their numbers compare |
| IdOrder.SmallMaxStep | CustomerDAO.java:154 | one step of MAX: comparing the maximum id so far with the next id picks the id of the larger number |
| IdOrder.SmallMaxIsNumericMax | CustomerDAO.java:154 | below 1000, MAX over the three-digit ids is the id of the greatest number |
| IdOrder.StringMaxIsNumericMax | CustomerDAO.java:154-165 | below 1000, the string MAX over a table's ids is the id of the numerically greatest one |
| IdOrder.Format03Injective | CustomerDAO.java:165 | distinct ints get distinct %03d strings |
| IdOrder.IdAboveMaxIsFresh | CustomerDAO.java:165 | the id of a number above every number in the table is not in the table |
| IdOrder.NextIdAfterMax | CustomerDAO.java:154-165 | when MAX is the id of m (0 ≤ m < INT_MAX), the next id is the id of m + 1 |
| IdOrder.TableNextId | CustomerDAO.java:149-166 | defines the next id of a table as written: NextId applied to the table's string MAX, or to no maximum when the table is empty; no contract |
| IdOrder.TableNextIdBelow1000 | CustomerDAO.java:149-166 | for a table of ids below 1000 whose greatest number is m, the generated id is the id of m + 1 |
| IdOrder.TableNextIdFreshBelow1000 | CustomerDAO.java:149-166 | for a table of ids below 1000, an id is generated and it is not already in the table |
| IdOrder.LexMaxAt1000 | CustomerDAO.java:154 | the string maximum of "<prefix>999" and "<prefix>1000" is "<prefix>999" |
| IdOrder.TableNextIdRepeatsAt1000 | CustomerDAO.java:154-165 | with "<prefix>999" and "<prefix>1000" in the table, the generated id is "<prefix>1000" again |
| IdOrder.NumericTableNextId | CustomerDAO.java:164-165 | defines the corrected next id: NextId applied to the id of the numeric maximum; no contract |
| IdOrder.NumericTableNextIdValue | CustomerDAO.java:164-165 | with the numeric maximum m in place of the string MAX, the next id is the id of m + 1 and is new |
| IdOrder.NumericTableNextIdFresh | CustomerDAO.java:164-165 | with the numeric maximum, every table of ids from 0 to below INT_MAX gets an id not already in it |
| IdOrder.NumericAgreesBelow1000 | CustomerDAO.java:154-165 | below 1000, the numeric-maximum id equals the id the code computes |

## Left out

- OrderItems.Subtotal: price × quantity is an unbounded integer. Java's 32-bit `int` product can overflow, but the quantity spinner caps quantities at 100.
- Orders.Order: `totalAmount` is a Java `double`. Every term added to it is an `int` product, so it is modelled as an integer. Floating-point rounding and the `%.2f` display are not modelled.
- Orders.Order.RemoveItem: `OrderItem` does not override `equals`, so `ArrayList.remove` compares by object identity. The model compares by value. The panel passes an object taken from the list itself, and both readings then remove an item equal to it, but the model does not capture two distinct objects with equal fields.
- Orders.Order.GetOrderItems / Orders.Order.SetOrderItems: Java shares the list object with the caller, so outside changes to it show up in the order. The model copies values, so this aliasing is left out.
- NextIds.NextId: Java's `substring(1)` drops one UTF-16 code unit, while `lastId[1..]` drops one Unicode character. For a maximum id whose first character lies above U+FFFF (such as "\U{1F600}001"), Java leaves a lone low surrogate before the digits and `parseInt` throws, whereas the model parses "001". Ids are one ASCII letter plus digits, so this does not arise for ids the code itself writes.
- NextIds.NextIdIgnoresFirstChar: for the same reason, this holds in Java only for first characters below U+10000.
- OrderItems.Subtotal / Orders.Order.CalculateTotal: a line item always holds a menu item in the model. In Java, `OrderItem()` leaves it null, and loading an order whose dish was deleted from the menu stores the null returned by the menu lookup. `getSubtotal` and `calculateTotal` then throw NullPointerException; that path is not modelled.
- Orders.Order.SetTotalAmount: the repository uses it to load stored totals. It can leave `Consistent()` false, and its contract says exactly when.
- The order header fields (`orderId`, `customerId`, `staffId`, `orderDate`), their getters and setters, and the three-argument constructor are plain field storage. `new Date()` depends on the clock. None of these are modelled.
- OrderItem's constructor and its setters store their arguments unchanged. The `OrderItem` datatype constructor and update expressions stand for them, so they need no separate member.
- NextIds.ParseInt: `Character.digit` also accepts non-ASCII decimal digits. The model accepts only '0'–'9'. Locale-specific digits in `String.format` are not modelled either.
- IdOrder.LexLess: MySQL compares strings by the column's collation. The model uses character-code order, which agrees with the collation on the ASCII letters and digits of the ids.
- All SQL and JDBC (`DatabaseConnection`, queries, result sets, connections) are outside the model. The result of the `MAX` query is an input.
- The transaction in `addOrder` is not modelled. Two clients computing the next id at the same time can pick the same id; this race is not modelled.
- The Swing panels are not modelled, except the removal loop and the table bookkeeping that acts on the order. This covers event dispatch, form validation, rendering and the dashboard's timer refresh.
- The plain record classes (Customer, Staff, Payment) are not modelled. `MenuItem` is modelled only as the datatype an order uses. Its `toString` text is not modelled.

## Findings

| source | as written | input that shows it | evidently intended | confidence | as-written member | corrected member |
|---|---|---|---|---|---|---|
| OrderPanel.java:384-396 | the order loses the first line item named like the selected row, but the table loses the selected row | lines (Burger ×1, Burger ×2) at price 250, second row selected: the order keeps Burger ×2 (total 500), the table keeps Burger ×1 (250) | remove the line item at the selected row's position, keeping table and order in step | not executed | OrderPanel.AsWrittenLosesSync | OrderPanel.RemoveSelectedKeepsSync |
| CustomerDAO.java:154, 164-165 (also StaffDAO.java:196, OrderDAO.java:226, PaymentDAO.java:180) | `MAX(id)` compares strings, and "C1000" sorts before "C999" | a table holding "C999" and "C1000": MAX is "C999", so the next id is "C1000", which is already taken | take the numeric maximum of the suffixes, so the next id is always new | not executed | IdOrder.TableNextIdRepeatsAt1000 | IdOrder.NumericTableNextIdFresh |

In the model, `OrderPanel.RemoveSelectedAsWritten` and `IdOrder.TableNextId` follow the code as written. `OrderPanel.RemoveSelected` and `IdOrder.NumericTableNextId` are the corrected definitions.
