/**
 * The shopping cart: an ordered list of lines, each an item with the length and unit of its
 * rental and its undiscounted price.  The tier discount is applied to the cart's total only.
 */
module Cart {
  import opened Wrappers
  import opened Domain
  import opened ItemModel
  import opened Receipts
  import opened InputValidation

  /** CartItem: the item, how many hours or days, HOURLY or DAILY, and the price before discount. */
  datatype CartItem = CartItem(item: Item, duration: int, period: RentalPeriod, price: real)

  /** The sum of the line prices. */
  function Total(lines: seq<CartItem>): real
  {
    if |lines| == 0 then 0.0 else Total(lines[..|lines| - 1]) + lines[|lines| - 1].price
  }

  /** The total is additive over concatenation, so appending a line adds exactly its price. */
  lemma {:induction false} TotalAppend(a: seq<CartItem>, b: seq<CartItem>)
    ensures Total(a + b) == Total(a) + Total(b)
    decreases |b|
  {
    if |b| == 0 {
      assert a + b == a;
    } else {
      var b' := b[..|b| - 1];
      assert (a + b)[..|a + b| - 1] == a + b';
      TotalAppend(a, b');
    }
  }

  /** Taking line i out of the cart lowers the total by exactly that line's price. */
  lemma TotalWithout(lines: seq<CartItem>, i: nat)
    requires i < |lines|
    ensures Total(lines[..i] + lines[i + 1..]) == Total(lines) - lines[i].price
  {
    var front, back := lines[..i], lines[i + 1..];
    assert lines == (front + [lines[i]]) + back;
    TotalAppend(front + [lines[i]], back);
    assert (front + [lines[i]])[..|front|] == front;
    TotalAppend(front, back);
  }

  /** With non-negative prices the total is non-negative. */
  lemma {:induction false} TotalNonNegative(lines: seq<CartItem>)
    requires forall i :: 0 <= i < |lines| ==> lines[i].price >= 0.0
    ensures Total(lines) >= 0.0
  {
    if |lines| > 0 {
      TotalNonNegative(lines[..|lines| - 1]);
    }
  }

  /** The cart display's total: the total before discount times one minus the tier discount. */
  function DisplayedTotal(lines: seq<CartItem>, level: MembershipLevel): real
  {
    Total(lines) * (1.0 - Discount(level))
  }

  /** The cart screen and the checkout screen show the same amount to pay. */
  lemma DisplayedTotalIsCheckoutTotal(lines: seq<CartItem>, level: MembershipLevel)
    ensures DisplayedTotal(lines, level) == TotalAfterDiscount(Total(lines), level)
  {
  }

  class ShoppingCart {
    var items: seq<CartItem>

    constructor ()
      ensures items == []
    {
      items := [];
    }

    /** addItem: one new line at the end. */
    method AddItem(item: Item, duration: int, period: RentalPeriod, price: real)
      modifies this
      ensures items == old(items) + [CartItem(item, duration, period, price)]
      ensures Size() == old(Size()) + 1
    {
      items := items + [CartItem(item, duration, period, price)];
    }

    /** addCartItem: the given line at the end. */
    method AddCartItem(cartItem: CartItem)
      modifies this
      ensures items == old(items) + [cartItem]
      ensures Size() == old(Size()) + 1
    {
      items := items + [cartItem];
    }

    /** addAll: the given lines at the end, in their order. */
    method AddAll(cartItems: seq<CartItem>)
      modifies this
      ensures items == old(items) + cartItems
      ensures Size() == old(Size()) + |cartItems|
    {
      items := items + cartItems;
    }

    /** removeItem: line `index` is taken out and returned when it exists; otherwise nothing changes. */
    method RemoveItem(index: int) returns (removed: Option<CartItem>)
      modifies this
      ensures 0 <= index < |old(items)| ==>
                removed == Some(old(items)[index]) && items == old(items)[..index] + old(items)[index + 1..]
      ensures !(0 <= index < |old(items)|) ==> removed.None? && items == old(items)
      ensures Size() == old(Size()) - (if removed.Some? then 1 else 0)
    {
      if index >= 0 && index < |items| {
        removed := Some(items[index]);
        items := items[..index] + items[index + 1..];
        return;
      }
      return None;
    }

    method Clear()
      modifies this
      ensures items == [] && Size() == 0 && IsEmpty()
    {
      items := [];
    }

    /** The number of lines; the operations above say how it moves. */
    function Size(): nat
      reads this
    {
      |items|
    }

    function IsEmpty(): (b: bool)
      reads this
      ensures b <==> Size() == 0
    {
      |items| == 0
    }

    /** getItems: a copy; sequences are values, so changing the copy cannot change the cart. */
    method GetItems() returns (copy: seq<CartItem>)
      ensures copy == items
    {
      copy := items;
    }

    /** getTotalBeforeDiscount: the running sum of the line prices. */
    method GetTotalBeforeDiscount() returns (total: real)
      ensures total == Total(items)
    {
      total := 0.0;
      var i := 0;
      while i < |items|
        invariant 0 <= i <= |items|
        invariant total == Total(items[..i])
      {
        assert items[..i + 1][..i] == items[..i];
        total := total + items[i].price;
        i := i + 1;
      }
      assert items[..i] == items;
    }

    /**
     * removeItemInteractive: the first answer in 1..size names the line to remove, so the
     * index handed to removeItem is always valid and a line always comes out.
     */
    method RemoveItemInteractive(lines: seq<string>) returns (removed: Option<CartItem>)
      modifies this
      ensures Size() == old(Size()) - (if removed.Some? then 1 else 0)
      ensures match FirstInt(lines, 1, |old(items)|)
        case None => removed.None? && items == old(items)
        case Some(reading) =>
          removed == Some(old(items)[reading.value - 1])
          && items == old(items)[..reading.value - 1] + old(items)[reading.value..]
    {
      var itemChoice := GetIntInRange(lines, 1, |items|);
      if itemChoice.None? {
        return None;
      }
      removed := RemoveItem(itemChoice.value.value - 1);
    }
  }
}
