/** The shopping cart of the catering page. The page keeps the cart as one
    state cell that every update replaces wholesale with a new array built from
    the previous one, so each update is modelled as a function from the old
    cart to the new cart. */
module Cart {
  import opened Wrappers
  import opened Seqs
  import opened Catalog

  /** One line of the cart: a dish and how many portions of it were ordered. */
  datatype CartLine = CartLine(
    id: int,
    name: string,
    price: int,
    quantity: int,
    image: string)

  /** The cart: its lines in the order their dishes were first added. */
  type CartState = seq<CartLine>

  /** The cart the page starts with. */
  const EmptyCart: CartState := []

  /** The ids of the dishes that have a line in the cart. */
  function Ids(cart: CartState): set<int> {
    set line | line in cart :: line.id
  }

  /** No two lines are for the same dish. */
  predicate DistinctIds(cart: CartState) {
    forall i, j :: 0 <= i < j < |cart| ==> cart[i].id != cart[j].id
  }

  /** The cart invariant: one line per dish, and no line below one portion. */
  predicate Valid(cart: CartState) {
    DistinctIds(cart) && forall i :: 0 <= i < |cart| ==> cart[i].quantity >= 1
  }

  /** Line `k` is the first line for dish `id`. */
  predicate FirstLine(cart: CartState, id: int, k: int) {
    0 <= k < |cart| && cart[k].id == id && forall j :: 0 <= j < k ==> cart[j].id != id
  }

  /** The `find` step of addToCart: the first line for dish `id`, if any. */
  function Find(cart: CartState, id: int): (r: Option<CartLine>)
    ensures r.Some? <==> id in Ids(cart)
    ensures r.Some? ==> exists k :: FirstLine(cart, id, k) && cart[k] == r.value
  {
    if cart == [] then None
    else if cart[0].id == id then Some(cart[0])
    else
      var r := Find(cart[1..], id);
      assert Ids(cart) == {cart[0].id} + Ids(cart[1..]) by {
        assert cart == [cart[0]] + cart[1..];
      }
      assert r.Some? ==> exists k :: FirstLine(cart, id, k) && cart[k] == r.value by {
        if r.Some? {
          var k :| FirstLine(cart[1..], id, k) && cart[1..][k] == r.value;
          assert FirstLine(cart, id, k + 1) by {
            forall j | 0 < j < k + 1 ensures cart[j].id != id {
              assert cart[j] == cart[1..][j - 1];
            }
          }
        }
      }
      r
  }

  /** The line addToCart builds for a dish added for the first time: the
      dish's fields with one portion. */
  function NewLine(item: MenuItem): CartLine {
    CartLine(item.id, item.name, item.price, 1, item.image)
  }

  /** addToCart: one more portion of `item`. If the dish already has a line,
      every line for it gets one more portion in place; otherwise a line with
      one portion is appended. */
  function AddToCart(cart: CartState, item: MenuItem): (r: CartState)
    ensures Ids(r) == Ids(cart) + {item.id}
    ensures |r| == if item.id in Ids(cart) then |cart| else |cart| + 1
  {
    if Find(cart, item.id).Some? then
      var r := seq(|cart|, i requires 0 <= i < |cart| =>
        if cart[i].id == item.id then cart[i].(quantity := cart[i].quantity + 1) else cart[i]);
      assert Ids(r) == Ids(cart) by {
        forall x | x in Ids(cart) ensures x in Ids(r) {
          var k :| 0 <= k < |cart| && cart[k].id == x;
          assert r[k].id == x;
        }
      }
      r
    else
      var r := cart + [NewLine(item)];
      assert Ids(r) == Ids(cart) + {item.id} by {
        assert r[|cart|].id == item.id;
        forall x | x in Ids(cart) ensures x in Ids(r) {
          var k :| 0 <= k < |cart| && cart[k].id == x;
          assert r[k].id == x;
        }
      }
      r
  }

  /** The quantity updateQuantity gives a line of its dish: the old quantity
      plus `delta`, but never below zero. */
  function Clamped(quantity: int, delta: int): (q: int)
    ensures q >= 0
    ensures q == 0 <==> quantity + delta <= 0
    ensures q > 0 ==> q == quantity + delta
  {
    if quantity + delta > 0 then quantity + delta else 0
  }

  /** The `map` step of updateQuantity: every line for dish `id` gets its
      clamped quantity, the other lines are kept. */
  function Adjusted(cart: CartState, id: int, delta: int): (r: CartState)
    ensures |r| == |cart|
    ensures forall i :: 0 <= i < |cart| ==> r[i].id == cart[i].id
  {
    seq(|cart|, i requires 0 <= i < |cart| =>
      if cart[i].id == id then cart[i].(quantity := Clamped(cart[i].quantity, delta)) else cart[i])
  }

  /** The filter callback of updateQuantity: is the line still ordered? */
  predicate IsOrdered(line: CartLine) {
    line.quantity > 0
  }

  /** updateQuantity: change the portions of dish `id` by `delta` (clamped at
      zero), then drop every line left without portions. */
  function UpdateQuantity(cart: CartState, id: int, delta: int): (r: CartState)
    ensures |r| <= |cart|
    ensures Ids(r) <= Ids(cart)
    ensures forall i :: 0 <= i < |r| ==> r[i].quantity >= 1
  {
    var a := Adjusted(cart, id, delta);
    FilterMembers(a, IsOrdered);
    var r := Filter(a, IsOrdered);
    assert Ids(r) <= Ids(cart) by {
      forall x | x in Ids(r) ensures x in Ids(cart) {
        var k :| 0 <= k < |r| && r[k].id == x;
        var j :| 0 <= j < |a| && a[j] == r[k];
        assert cart[j].id == x;
      }
    }
    r
  }

  /** The worth of one line, `price * quantity`. */
  function LineTotal(line: CartLine): int {
    line.price * line.quantity
  }

  /** totalAmount: the sum of the line totals, starting from zero. The page's
      `reduce` adds them from the left; integer addition is associative, so
      summing from the head gives the same number. */
  function Total(cart: CartState): int {
    if cart == [] then 0 else LineTotal(cart[0]) + Total(cart[1..])
  }

  /** The number of portions in the cart; the page does not show it, and the
      badge lemmas below compare the badge with it. */
  function Units(cart: CartState): int {
    if cart == [] then 0 else cart[0].quantity + Units(cart[1..])
  }

  /** The badge on the cart button: `cart.length`, rendered only when positive. */
  function Badge(cart: CartState): (r: Option<nat>)
    ensures r.Some? <==> cart != []
    ensures r.Some? ==> r.value == |cart|
  {
    if |cart| > 0 then Some(|cart|) else None
  }

  // ---------------------------------------------------------------------------
  // addToCart

  /** With one line per dish, the increment touches the dish's line only. */
  lemma IncrementedAt(cart: CartState, item: MenuItem, k: nat)
    requires DistinctIds(cart)
    requires k < |cart| && cart[k].id == item.id
    ensures AddToCart(cart, item) == cart[k := cart[k].(quantity := cart[k].quantity + 1)]
  {
    assert item.id in Ids(cart);
  }

  /** Adding a dish already in the cart adds one portion to its line; the length,
      the order and every other line stay as they were. */
  lemma AddToCartExisting(cart: CartState, item: MenuItem, k: nat)
    requires Valid(cart)
    requires k < |cart| && cart[k].id == item.id
    ensures |AddToCart(cart, item)| == |cart|
    ensures AddToCart(cart, item)[k] == cart[k].(quantity := cart[k].quantity + 1)
    ensures forall i :: 0 <= i < |cart| && i != k ==> AddToCart(cart, item)[i] == cart[i]
  {
    IncrementedAt(cart, item, k);
  }

  /** Adding a dish not yet in the cart appends one line with one portion and
      leaves the existing lines as they were. */
  lemma AddToCartNew(cart: CartState, item: MenuItem)
    requires item.id !in Ids(cart)
    ensures AddToCart(cart, item) == cart + [CartLine(item.id, item.name, item.price, 1, item.image)]
  {
  }

  /** addToCart keeps the cart invariant. */
  lemma AddToCartValid(cart: CartState, item: MenuItem)
    requires Valid(cart)
    ensures Valid(AddToCart(cart, item))
  {
    if item.id in Ids(cart) {
      var k :| 0 <= k < |cart| && cart[k].id == item.id;
      IncrementedAt(cart, item, k);
    } else {
      var r := AddToCart(cart, item);
      forall i, j | 0 <= i < j < |r| ensures r[i].id != r[j].id {
        if j == |cart| {
          assert cart[i] in cart;
        }
      }
    }
  }

  // ---------------------------------------------------------------------------
  // updateQuantity

  /** With one line per dish, the `map` step of updateQuantity touches the dish's
      line only. */
  lemma AdjustedAt(cart: CartState, id: int, delta: int, k: nat)
    requires DistinctIds(cart)
    requires k < |cart| && cart[k].id == id
    ensures Adjusted(cart, id, delta) ==
      cart[..k] + [cart[k].(quantity := Clamped(cart[k].quantity, delta))] + cart[k + 1..]
  {
  }

  /** Filtering the cart with line `k` replaced: only that line can be dropped. */
  lemma FilterReplaced(cart: CartState, k: nat, line: CartLine)
    requires k < |cart|
    requires forall i :: 0 <= i < |cart| ==> cart[i].quantity >= 1
    ensures Filter(cart[..k] + [line] + cart[k + 1..], IsOrdered) ==
      if line.quantity > 0 then cart[k := line] else cart[..k] + cart[k + 1..]
  {
    var a, b := cart[..k], cart[k + 1..];
    assert forall i :: 0 <= i < |a| ==> IsOrdered(a[i]);
    assert forall i :: 0 <= i < |b| ==> IsOrdered(b[i]) by {
      forall i | 0 <= i < |b| ensures IsOrdered(b[i]) {
        assert b[i] == cart[k + 1 + i];
      }
    }
    FilterAround(a, line, b, IsOrdered);
    if line.quantity > 0 {
      assert a + [line] + b == cart[k := line];
    } else {
      assert a + [] + b == a + b;
    }
  }

  /** updateQuantity on a dish in the cart sets its quantity to the old quantity
      plus `delta`, and removes its line exactly when that is not positive; the
      other lines keep their contents and their relative order. */
  lemma UpdateQuantityPresent(cart: CartState, id: int, delta: int, k: nat)
    requires Valid(cart)
    requires k < |cart| && cart[k].id == id
    ensures UpdateQuantity(cart, id, delta) ==
      if cart[k].quantity + delta <= 0 then cart[..k] + cart[k + 1..]
      else cart[k := cart[k].(quantity := cart[k].quantity + delta)]
  {
    AdjustedAt(cart, id, delta, k);
    FilterReplaced(cart, k, cart[k].(quantity := Clamped(cart[k].quantity, delta)));
  }

  /** updateQuantity on a dish that has no line gives back the same cart: it
      never creates a line. */
  lemma UpdateQuantityAbsent(cart: CartState, id: int, delta: int)
    requires Valid(cart)
    requires id !in Ids(cart)
    ensures UpdateQuantity(cart, id, delta) == cart
  {
    forall i | 0 <= i < |cart| ensures cart[i].id != id {
      assert cart[i] in cart;
    }
    assert Adjusted(cart, id, delta) == cart;
    FilterAll(cart, IsOrdered);
  }

  /** Removing one line keeps the invariant. */
  lemma RemoveValid(cart: CartState, k: nat)
    requires Valid(cart) && k < |cart|
    ensures Valid(cart[..k] + cart[k + 1..])
  {
    var r := cart[..k] + cart[k + 1..];
    forall i | 0 <= i < |r| ensures r[i] == cart[if i < k then i else i + 1] {
    }
  }

  /** updateQuantity keeps the cart invariant. */
  lemma UpdateQuantityValid(cart: CartState, id: int, delta: int)
    requires Valid(cart)
    ensures Valid(UpdateQuantity(cart, id, delta))
  {
    if id in Ids(cart) {
      var k :| 0 <= k < |cart| && cart[k].id == id;
      UpdateQuantityPresent(cart, id, delta, k);
      if cart[k].quantity + delta <= 0 {
        RemoveValid(cart, k);
      }
    } else {
      UpdateQuantityAbsent(cart, id, delta);
    }
  }

  /** The "+" button of a cart line, updateQuantity with delta 1, does what
      addToCart does for a dish already in the cart. */
  lemma PlusMatchesAddToCart(cart: CartState, item: MenuItem)
    requires Valid(cart)
    requires item.id in Ids(cart)
    ensures UpdateQuantity(cart, item.id, 1) == AddToCart(cart, item)
  {
    var k :| 0 <= k < |cart| && cart[k].id == item.id;
    UpdateQuantityPresent(cart, item.id, 1, k);
    IncrementedAt(cart, item, k);
  }

  // ---------------------------------------------------------------------------
  // totalAmount

  /** The total of a concatenation is the sum of the totals. */
  lemma {:induction false} TotalAppend(a: CartState, b: CartState)
    ensures Total(a + b) == Total(a) + Total(b)
  {
    if a == [] {
      assert a + b == b;
    } else {
      assert (a + b)[1..] == a[1..] + b;
      TotalAppend(a[1..], b);
    }
  }

  /** The total of `a + [line] + b`, piece by piece. */
  lemma TotalSplit(a: CartState, line: CartLine, b: CartState)
    ensures Total(a + [line] + b) == Total(a) + LineTotal(line) + Total(b)
  {
    TotalAppend(a + [line], b);
    TotalAppend(a, [line]);
    TotalSingle(line);
  }

  /** Replacing line `k` changes the total by the difference of the line totals. */
  lemma TotalReplace(cart: CartState, k: nat, line: CartLine)
    requires k < |cart|
    ensures Total(cart[k := line]) == Total(cart) - LineTotal(cart[k]) + LineTotal(line)
  {
    var a, b := cart[..k], cart[k + 1..];
    assert cart == a + [cart[k]] + b;
    assert cart[k := line] == a + [line] + b;
    TotalSplit(a, cart[k], b);
    TotalSplit(a, line, b);
  }

  /** Removing line `k` lowers the total by that line's total. */
  lemma TotalRemove(cart: CartState, k: nat)
    requires k < |cart|
    ensures Total(cart[..k] + cart[k + 1..]) == Total(cart) - LineTotal(cart[k])
  {
    assert cart[..k] + [cart[k]] + cart[k + 1..] == cart;
    TotalWithout(cart[..k], cart[k], cart[k + 1..]);
  }

  /** Leaving `line` out of `a + [line] + b` lowers the total by its line total. */
  lemma TotalWithout(a: CartState, line: CartLine, b: CartState)
    ensures Total(a + b) == Total(a + [line] + b) - LineTotal(line)
  {
    TotalSplit(a, line, b);
    TotalAppend(a, b);
  }

  /** The total of a one-line cart is that line's total. */
  lemma TotalSingle(line: CartLine)
    ensures Total([line]) == LineTotal(line)
  {
    assert [line][1..] == [];
  }

  /** The total of a cart whose prices and quantities are not negative is not
      negative. */
  lemma {:induction false} TotalNonNegative(cart: CartState)
    requires forall i :: 0 <= i < |cart| ==> cart[i].price >= 0 && cart[i].quantity >= 0
    ensures Total(cart) >= 0
  {
    if cart != [] {
      TotalNonNegative(cart[1..]);
    }
  }

  /** addToCart raises the total by exactly the dish's price, when the cart's
      line for the dish carries that same price. */
  lemma TotalAfterAdd(cart: CartState, item: MenuItem)
    requires Valid(cart)
    requires forall i :: 0 <= i < |cart| && cart[i].id == item.id ==> cart[i].price == item.price
    ensures Total(AddToCart(cart, item)) == Total(cart) + item.price
  {
    if item.id in Ids(cart) {
      var k :| 0 <= k < |cart| && cart[k].id == item.id;
      IncrementedAt(cart, item, k);
      TotalIncrement(cart, k);
    } else {
      AddToCartNew(cart, item);
      TotalAppend(cart, [NewLine(item)]);
      TotalSingle(NewLine(item));
    }
  }

  /** One more portion on line `k` raises the total by that line's price. */
  lemma TotalIncrement(cart: CartState, k: nat)
    requires k < |cart|
    ensures Total(cart[k := cart[k].(quantity := cart[k].quantity + 1)]) == Total(cart) + cart[k].price
  {
    var line := cart[k].(quantity := cart[k].quantity + 1);
    TotalReplace(cart, k, line);
    ScaledDifference(cart[k].price, line.quantity, cart[k].quantity);
  }

  /** Distributing a price over a difference of quantities. */
  lemma ScaledDifference(price: int, q1: int, q0: int)
    ensures price * (q1 - q0) == price * q1 - price * q0
  {
  }

  /** updateQuantity on a dish in the cart changes the total by the dish's price
      times the change of its quantity: a removed line takes its whole line
      total away. */
  lemma TotalAfterUpdate(cart: CartState, id: int, delta: int, k: nat)
    requires Valid(cart)
    requires k < |cart| && cart[k].id == id
    ensures cart[k].quantity + delta <= 0 ==>
      Total(UpdateQuantity(cart, id, delta)) == Total(cart) - LineTotal(cart[k])
    ensures cart[k].quantity + delta > 0 ==>
      Total(UpdateQuantity(cart, id, delta)) == Total(cart) + cart[k].price * delta
  {
    UpdateQuantityPresent(cart, id, delta, k);
    if cart[k].quantity + delta <= 0 {
      TotalRemove(cart, k);
    } else {
      var line := cart[k].(quantity := cart[k].quantity + delta);
      TotalReplace(cart, k, line);
      ScaledDifference(cart[k].price, line.quantity, cart[k].quantity);
    }
  }

  // ---------------------------------------------------------------------------
  // The badge

  /** With one line per dish, the badge's `cart.length` is the number of
      distinct dishes in the cart. */
  lemma {:induction false} LinesAreDistinctDishes(cart: CartState)
    requires DistinctIds(cart)
    ensures |Ids(cart)| == |cart|
  {
    if cart != [] {
      var prefix := cart[..|cart| - 1];
      var last := cart[|cart| - 1];
      LinesAreDistinctDishes(prefix);
      assert Ids(cart) == Ids(prefix) + {last.id} by {
        assert cart == prefix + [last];
      }
      assert last.id !in Ids(prefix);
    }
  }

  /** Every line holds at least one portion, so the badge never exceeds the
      number of portions; they differ as soon as a line holds two. */
  lemma {:induction false} LinesAtMostUnits(cart: CartState)
    requires Valid(cart)
    ensures |cart| <= Units(cart)
  {
    if cart != [] {
      LinesAtMostUnits(cart[1..]);
    }
  }

  // ---------------------------------------------------------------------------
  // A session: the clicks the page turns into cart updates

  /** A click that changes the cart: "В корзину" on a menu card, or "+"/"−" on
      a cart line. */
  datatype Action = Add(item: MenuItem) | Change(id: int, delta: int)

  /** The cart after one click. */
  function Step(cart: CartState, action: Action): CartState {
    match action
    case Add(item) => AddToCart(cart, item)
    case Change(id, delta) => UpdateQuantity(cart, id, delta)
  }

  /** The cart after a session of clicks, starting from `cart`. */
  function Run(cart: CartState, actions: seq<Action>): CartState
    decreases |actions|
  {
    if actions == [] then cart else Run(Step(cart, actions[0]), actions[1..])
  }

  /** The page's initial cart satisfies the invariant. */
  lemma EmptyCartValid()
    ensures Valid(EmptyCart) && Total(EmptyCart) == 0 && Badge(EmptyCart) == None
  {
  }

  /** Every cart a session can reach from a valid cart is valid. */
  lemma {:induction false} RunValid(cart: CartState, actions: seq<Action>)
    requires Valid(cart)
    ensures Valid(Run(cart, actions))
    decreases |actions|
  {
    if actions != [] {
      match actions[0] {
        case Add(item) => AddToCartValid(cart, item);
        case Change(id, delta) => UpdateQuantityValid(cart, id, delta);
      }
      RunValid(Step(cart, actions[0]), actions[1..]);
    }
  }

  /** No line of the cart has a negative price. */
  predicate PricesNonNegative(cart: CartState) {
    forall i :: 0 <= i < |cart| ==> cart[i].price >= 0
  }

  /** A click keeps the prices of a valid cart non-negative, given that the dish
      added, if any, has a non-negative price. */
  lemma StepPricesNonNegative(cart: CartState, action: Action)
    requires Valid(cart) && PricesNonNegative(cart)
    requires action.Add? ==> action.item.price >= 0
    ensures PricesNonNegative(Step(cart, action))
  {
    match action {
      case Add(item) =>
        if item.id in Ids(cart) {
          var k :| 0 <= k < |cart| && cart[k].id == item.id;
          IncrementedAt(cart, item, k);
        }
      case Change(id, delta) =>
        if id in Ids(cart) {
          var k :| 0 <= k < |cart| && cart[k].id == id;
          UpdateQuantityPresent(cart, id, delta, k);
          var r := Step(cart, action);
          if cart[k].quantity + delta <= 0 {
            forall i | 0 <= i < |r| ensures r[i].price >= 0 {
              assert r[i] == cart[if i < k then i else i + 1];
            }
          }
        } else {
          UpdateQuantityAbsent(cart, id, delta);
        }
    }
  }

  /** Over a session that only adds dishes with non-negative prices, the total
      the cart sidebar shows is never negative. */
  lemma {:induction false} RunTotalNonNegative(cart: CartState, actions: seq<Action>)
    requires Valid(cart) && PricesNonNegative(cart)
    requires forall i :: 0 <= i < |actions| && actions[i].Add? ==> actions[i].item.price >= 0
    ensures Total(Run(cart, actions)) >= 0
    decreases |actions|
  {
    if actions == [] {
      TotalNonNegative(cart);
    } else {
      StepPricesNonNegative(cart, actions[0]);
      match actions[0] {
        case Add(item) => AddToCartValid(cart, item);
        case Change(id, delta) => UpdateQuantityValid(cart, id, delta);
      }
      assert forall i :: 0 <= i < |actions[1..]| && actions[1..][i].Add? ==> actions[1..][i].item.price >= 0 by {
        forall i | 0 <= i < |actions[1..]| && actions[1..][i].Add? ensures actions[1..][i].item.price >= 0 {
          assert actions[1..][i] == actions[i + 1];
        }
      }
      RunTotalNonNegative(Step(cart, actions[0]), actions[1..]);
    }
  }
}
