/** Worked sessions on the cart of the catering page, with the page's own dishes
    where the scenario names them. */
module CartExamples {
  import opened Wrappers
  import opened Catalog
  import opened Cart

  /** Clicking "В корзину" twice on the same dish gives one line of two
      portions; the badge shows 1, not 2. */
  lemma AddSameTwice(item: MenuItem)
    ensures AddToCart(AddToCart(EmptyCart, item), item) ==
      [CartLine(item.id, item.name, item.price, 2, item.image)]
    ensures Badge(AddToCart(AddToCart(EmptyCart, item), item)) == Some(1)
    ensures Units(AddToCart(AddToCart(EmptyCart, item), item)) == 2
  {
    var once := AddToCart(EmptyCart, item);
    AddToCartNew(EmptyCart, item);
    IncrementedAt(once, item, 0);
    var twice := AddToCart(once, item);
    assert twice[..0] == [];
  }

  /** Adding a dish and pressing "−" on its line empties the cart: no line is
      left behind with zero portions. */
  lemma AddThenDecrement(item: MenuItem)
    ensures UpdateQuantity(AddToCart(EmptyCart, item), item.id, -1) == EmptyCart
  {
    var once := AddToCart(EmptyCart, item);
    AddToCartNew(EmptyCart, item);
    UpdateQuantityPresent(once, item.id, -1, 0);
  }

  /** Adding two different dishes gives two lines in the order of the clicks,
      and the total is the sum of their prices. */
  lemma AddTwoDishes(a: MenuItem, b: MenuItem)
    requires a.id != b.id
    ensures AddToCart(AddToCart(EmptyCart, a), b) == [NewLine(a), NewLine(b)]
    ensures Total(AddToCart(AddToCart(EmptyCart, a), b)) == a.price + b.price
    ensures Badge(AddToCart(AddToCart(EmptyCart, a), b)) == Some(2)
  {
    AddToCartNew(EmptyCart, a);
    AddToCartNew([NewLine(a)], b);
    TotalAppend([NewLine(a)], [NewLine(b)]);
    TotalSingle(NewLine(a));
    TotalSingle(NewLine(b));
  }

  /** An order on the page: soup, beef, then soup again. The cart holds two
      soups and one beef, worth 2500 * 2 + 4500 = 9500 roubles, and the badge
      shows two lines. */
  lemma SoupAndBeefOrder()
    ensures Run(EmptyCart, [Add(MenuItems[0]), Add(MenuItems[1]), Add(MenuItems[0])]) ==
      [NewLine(MenuItems[0]).(quantity := 2), NewLine(MenuItems[1])]
    ensures Total([NewLine(MenuItems[0]).(quantity := 2), NewLine(MenuItems[1])]) == 9500
    ensures Badge([NewLine(MenuItems[0]).(quantity := 2), NewLine(MenuItems[1])]) == Some(2)
  {
    var soup, beef := MenuItems[0], MenuItems[1];
    var cart := [NewLine(soup).(quantity := 2), NewLine(beef)];
    assert Run(EmptyCart, [Add(soup), Add(beef), Add(soup)]) == cart by {
      var two := AddToCart(AddToCart(EmptyCart, soup), beef);
      AddTwoDishes(soup, beef);
      IncrementedAt(two, soup, 0);
      assert [Add(soup), Add(beef), Add(soup)][1..] == [Add(beef), Add(soup)];
      assert [Add(beef), Add(soup)][1..] == [Add(soup)];
      assert Run(two, [Add(soup)]) == Run(AddToCart(two, soup), []);
      assert Run(AddToCart(EmptyCart, soup), [Add(beef), Add(soup)]) == Run(two, [Add(soup)]);
    }
    assert Total(cart) == 9500 by {
      TotalAppend([cart[0]], [cart[1]]);
      TotalSingle(cart[0]);
      TotalSingle(cart[1]);
      assert [cart[0]] + [cart[1]] == cart;
    }
  }

  /** Continuing that order: "−" on the soup line with two soups removes the
      line and leaves the beef alone, worth 4500 roubles. */
  lemma SoupAndBeefDecrement()
    ensures UpdateQuantity([NewLine(MenuItems[0]).(quantity := 2), NewLine(MenuItems[1])], 1, -2) ==
      [NewLine(MenuItems[1])]
    ensures Total([NewLine(MenuItems[1])]) == 4500
  {
    var cart := [NewLine(MenuItems[0]).(quantity := 2), NewLine(MenuItems[1])];
    UpdateQuantityPresent(cart, 1, -2, 0);
    assert cart[1..] == [NewLine(MenuItems[1])];
    TotalSingle(NewLine(MenuItems[1]));
  }

  /** Pressing "+" or "−" on a dish that has no line (a stale button) leaves the
      cart as it was. */
  lemma StaleButtonIsNoOp(item: MenuItem, other: int, delta: int)
    requires other != item.id
    ensures UpdateQuantity([NewLine(item)], other, delta) == [NewLine(item)]
  {
    UpdateQuantityAbsent([NewLine(item)], other, delta);
  }
}
