# Catering page cart and menu filter, in Dafny

The catering site (G-catering) is one React page. Apart from markup, its only
logic is in the `Index` component: a fixed menu catalog, a category filter
that chooses which dishes the menu section shows, and a shopping cart.

- **Catalog** (`catalog.dfy`, module `Catalog`): the six dishes of the page
  as the constant `MenuItems`, with their ids, prices and categories. It also
  has the filter buttons and the filter. The sentinel `"Все"` ("All") shows
  the whole catalog. Any other string shows the dishes of that category, in
  catalog order.
- **Cart** (`cart.dfy`, module `Cart`): an ordered sequence of lines, each a
  dish with its quantity of portions. The page replaces the cart wholesale on
  every update, so each update is modelled as a function from the old cart to
  the new cart:
  - `AddToCart` either adds a portion to every line for the dish or appends a
    new line with one portion.
  - `UpdateQuantity` adds a signed delta to the dish's line, clamps the result
    at zero, and then drops every line left without portions.
  - `Total` is the sum of `price * quantity` over the lines, which the page
    computes with `reduce`.
  - `Badge` is the number on the cart button: the number of lines, shown only
    when positive.
  - `Run` plays a session of clicks from a starting cart.
- **Examples** (`cart_examples.dfy`, module `CartExamples`): worked sessions
  with the page's own dishes.
- **Sequences** (`seqs.dfy`, module `Seqs`): the model of the array `filter`
  that both the category filter and `updateQuantity` use, specified against
  an independent subsequence relation. `wrappers.dfy` holds the `Option` type
  used where the page has `undefined` or renders nothing.

The cart invariant `Valid` says two things: no two lines share a dish id, and
every line has at least one portion. The empty cart satisfies it, both
updates preserve it, and so does every session. Under it, updates touch only
the dish's own line, and the lemmas state exactly what the new cart is.

## Model

| member | source | states |
|---|---|---|
| `Catalog.MenuItemsWellFormed` | src/pages/Index.tsx:26-33 | The page's catalog is non-empty, its ids are distinct, its prices are non-negative, and every dish carries one of the four real categories, never the sentinel. |
| `Catalog.FilterCatalog` | src/pages/Index.tsx:80-82 | For `"Все"` the view is the catalog unchanged. For any other string, every shown dish is a catalog dish of that category, and every catalog dish of that category is shown. |
| `Catalog.FilterCatalogExact` | src/pages/Index.tsx:80-82 | For a real category the view is a subsequence of the catalog, in catalog order. It keeps every occurrence of a dish of that category and no occurrence of any other dish. |
| `Catalog.UnknownCategoryEmpty` | src/pages/Index.tsx:80-82 | A category that no dish carries gives the empty view, not an error. |
| `Catalog.ItemInOwnCategoryOnly` | src/pages/Index.tsx:60 | In a well-formed catalog, a dish is shown under a real category button exactly when that button is its own category. |
| `Catalog.FilteredMenuAll` | src/pages/Index.tsx:57 | The default filter `"Все"` shows all six dishes in declaration order. |
| `Catalog.FilteredMenuColdAppetizers` | src/pages/Index.tsx:30-31 | The cold appetizers button shows dishes 4 and 5, in that order. |
| `Catalog.FilteredMenuSoups` | src/pages/Index.tsx:27 | The soups button shows dish 1 only. |
| `Catalog.FilteredMenuHotDishes` | src/pages/Index.tsx:28-29 | The hot dishes button shows dishes 2 and 3, in that order. |
| `Catalog.FilteredMenuDesserts` | src/pages/Index.tsx:32 | The desserts button shows dish 6 only. |
| `Catalog.FilteredMenuUnknown` | src/pages/Index.tsx:82 | A category string that the catalog does not use shows nothing. |
| `Seqs.FilterMembers` | src/pages/Index.tsx:75 | The array filter keeps exactly the elements that pass the test. |
| `Seqs.FilterIsSubsequence` | src/pages/Index.tsx:82 | The array filter's result is a subsequence of its input: nothing is reordered or invented. |
| `Seqs.FilterCount` | src/pages/Index.tsx:82 | The array filter keeps every occurrence of a passing element and drops every occurrence of a failing one. |
| `Cart.Find` | src/pages/Index.tsx:64 | The lookup finds a line exactly when the dish id is in the cart, and what it finds is the first line with that id. |
| `Cart.AddToCart` | src/pages/Index.tsx:62-70 | After adding, the set of dish ids is the old set plus the added dish. The cart grows by one line exactly when the dish had no line. |
| `Cart.IncrementedAt` | src/pages/Index.tsx:66 | With one line per dish, adding a dish already in the cart replaces its line `k` by the same line with one more portion. |
| `Cart.AddToCartExisting` | src/pages/Index.tsx:64-66 | Adding a dish that already has a line adds one portion to that line. The length, the order and every other line are unchanged. |
| `Cart.AddToCartNew` | src/pages/Index.tsx:68 | Adding a dish with no line appends exactly one line at the end, with the dish's id, name, price and image and quantity 1. The old lines are kept as a prefix. |
| `Cart.AddToCartValid` | src/pages/Index.tsx:62-70 | Adding preserves the invariant: distinct ids and at least one portion per line. |
| `Cart.Clamped` | src/pages/Index.tsx:74 | The new quantity is never negative. It is zero exactly when the old quantity plus the delta is not positive, and otherwise it equals that sum. |
| `Cart.Adjusted` | src/pages/Index.tsx:73-74 | The quantity-changing pass keeps the number of lines and the dish id at every position. |
| `Cart.AdjustedAt` | src/pages/Index.tsx:73-74 | With one line per dish, the quantity-changing pass replaces only the dish's own line, by the line with the clamped quantity. |
| `Cart.UpdateQuantity` | src/pages/Index.tsx:72-76 | The update never lengthens the cart and never adds a dish id. Every line left has at least one portion. |
| `Cart.FilterReplaced` | src/pages/Index.tsx:75 | In a cart whose lines all have portions, dropping lines without portions after line `k` is replaced can only drop line `k`. |
| `Cart.UpdateQuantityPresent` | src/pages/Index.tsx:73-75 | For a dish in the cart, the result depends on quantity plus delta. If that sum is not positive, the dish's line is removed and the other lines keep their order. Otherwise the line's quantity becomes the sum and nothing else changes. |
| `Cart.UpdateQuantityAbsent` | src/pages/Index.tsx:73-75 | For a dish id with no line, the update returns the cart unchanged. It never creates a line. |
| `Cart.RemoveValid` | src/pages/Index.tsx:75 | Removing one line of a valid cart leaves a valid cart. |
| `Cart.UpdateQuantityValid` | src/pages/Index.tsx:72-76 | The quantity update preserves the invariant. |
| `Cart.PlusMatchesAddToCart` | src/pages/Index.tsx:367 | The "+" button on a cart line, an update with delta 1, gives the same cart as adding that dish from the menu. |
| `Cart.TotalAppend` | src/pages/Index.tsx:78 | The total of two carts joined together is the sum of their totals. |
| `Cart.TotalSplit` | src/pages/Index.tsx:78 | The total of `a + [line] + b` is the total of `a`, plus the line's price times quantity, plus the total of `b`. |
| `Cart.TotalReplace` | src/pages/Index.tsx:78 | Replacing one line changes the total by the difference between the new and old line totals. |
| `Cart.TotalRemove` | src/pages/Index.tsx:78 | Removing one line lowers the total by that line's total. |
| `Cart.TotalWithout` | src/pages/Index.tsx:78 | Leaving one line out of a cart lowers the total by that line's total. |
| `Cart.TotalIncrement` | src/pages/Index.tsx:66 | One more portion on a line raises the total by that line's price. |
| `Cart.TotalSingle` | src/pages/Index.tsx:78 | A one-line cart's total is that line's price times its quantity. |
| `Cart.TotalNonNegative` | src/pages/Index.tsx:78 | With non-negative prices and quantities, the total is non-negative. |
| `Cart.TotalAfterAdd` | src/pages/Index.tsx:62-69 | Adding a dish raises the total by exactly its price, provided the cart's line for that dish carries the same price. |
| `Cart.TotalAfterUpdate` | src/pages/Index.tsx:72-78 | Updating a dish in the cart raises the total by price times delta when the line stays. When the line is removed, the total drops by that line's whole total. |
| `Cart.Badge` | src/pages/Index.tsx:105-106 | The badge is shown exactly when the cart is non-empty, and then it shows the number of lines. |
| `Cart.LinesAreDistinctDishes` | src/pages/Index.tsx:106 | With one line per dish, the badge's line count equals the number of distinct dish ids. |
| `Cart.LinesAtMostUnits` | src/pages/Index.tsx:105-106 | In a valid cart, the line count is at most the number of portions, so the badge counts dishes, not portions. |
| `Cart.EmptyCartValid` | src/pages/Index.tsx:56 | The initial empty cart is valid, has total 0 and shows no badge. |
| `Cart.RunValid` | src/pages/Index.tsx:62-76 | Every cart that a session of clicks reaches from a valid cart is valid. |
| `Cart.StepPricesNonNegative` | src/pages/Index.tsx:62-76 | A click keeps every line price non-negative, provided the added dish's price is non-negative. |
| `Cart.RunTotalNonNegative` | src/pages/Index.tsx:78 | Over any session that adds only dishes with non-negative prices, the total shown is never negative. |
| `CartExamples.AddSameTwice` | src/pages/Index.tsx:64-66 | Adding the same dish twice gives one line with quantity 2. The badge shows 1 while the cart holds 2 portions. |
| `CartExamples.AddThenDecrement` | src/pages/Index.tsx:363 | Adding a dish, then pressing "−" on its line, gives the empty cart. No zero-quantity line is left behind. |
| `CartExamples.AddTwoDishes` | src/pages/Index.tsx:62-70 | Adding two different dishes gives two lines in click order. The total is the sum of their prices and the badge shows 2. |
| `CartExamples.SoupAndBeefOrder` | src/pages/Index.tsx:27-28 | Adding soup, beef, then soup gives the lines [soup ×2, beef ×1]. The total is 9500 and the badge shows 2. |
| `CartExamples.SoupAndBeefDecrement` | src/pages/Index.tsx:73-75 | Updating that cart's soup line by −2 removes it, leaving [beef ×1] with total 4500. |
| `CartExamples.StaleButtonIsNoOp` | src/pages/Index.tsx:73-75 | An update for a dish id that has no line leaves the cart unchanged. |

## Left out

- Rendering: the JSX, styling, icons, animations and navigation links. These are presentation only.
- The `isCartOpen` toggle and the overlay's click handlers. They are UI state that no cart or filter operation reads.
- The contact form. It has no handler and no validation.
- The static `services`, `portfolio` and `reviews` arrays. They are display data only.
- The total's locale formatting (`toLocaleString`). It depends on the JavaScript runtime's locale.
- React's state cells and update scheduling. Each updater is a function from the previous cart to the next cart, and the selected category is a parameter of the filter.
- JavaScript's floating-point `number`. Prices, quantities and deltas are mathematical integers; the catalog prices are whole roubles, and nothing divides.
- The extra fields a new line picks up at run time. The page builds a line by spreading the dish, which copies `description` and `category` too. `CartLine` keeps only the declared cart item fields, because nothing reads those two on a line.
- Cart.TotalAfterAdd: requires that the cart's line for the dish carries the dish's price. On the page this always holds, because every line is built from the one fixed catalog. Without that requirement, a line with a different price would change the total by its own price.
- Cart.AddToCart and Cart.UpdateQuantity: the exact line-by-line results are stated under the invariant. Without it, as the code is written, `AddToCart` increments every line with the dish's id, and `UpdateQuantity` drops every line without portions, not only the dish's own line. The functions model that behaviour; the lemmas do not describe it.
