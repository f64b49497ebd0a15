/** The menu catalog of the catering page: the fixed list of dishes and the
    category filter that chooses which of them the menu section shows. */
module Catalog {
  import opened Seqs

  /** A dish on the menu. `price` is in whole roubles. */
  datatype MenuItem = MenuItem(
    id: int,
    name: string,
    description: string,
    price: int,
    category: string,
    image: string)

  /** The filter value that means "no filter". */
  const All: string := "Все"

  const ColdAppetizers: string := "Холодные закуски"
  const Soups: string := "Супы"
  const HotDishes: string := "Горячее"
  const Desserts: string := "Десерты"

  /** The filter buttons, in the order the page shows them. */
  const Categories: seq<string> := [All, ColdAppetizers, Soups, HotDishes, Desserts]

  /** The catalog, in declaration order. */
  const MenuItems: seq<MenuItem> := [
    MenuItem(1, "Трюфельный крем-суп", "С белыми трюфелями и хрустящими крутонами", 2500, Soups, "/placeholder.svg"),
    MenuItem(2, "Мраморная говядина", "Стейк из мраморной говядины с соусом демигляс", 4500, HotDishes, "/placeholder.svg"),
    MenuItem(3, "Лобстер термидор", "Классическое французское блюдо с лобстером", 5800, HotDishes, "/placeholder.svg"),
    MenuItem(4, "Тартар из лосося", "Свежий лосось с авокадо и икрой", 3200, ColdAppetizers, "/placeholder.svg"),
    MenuItem(5, "Фуа-гра", "С карамелизированными грушами и портвейном", 4200, ColdAppetizers, "/placeholder.svg"),
    MenuItem(6, "Тирамису", "Классический итальянский десерт", 1800, Desserts, "/placeholder.svg")
  ]

  /** A catalog whose ids identify its items, whose prices are not negative and
      whose items each carry one of the real categories (never the sentinel). */
  predicate WellFormed(catalog: seq<MenuItem>) {
    && (forall i, j :: 0 <= i < j < |catalog| ==> catalog[i].id != catalog[j].id)
    && (forall i :: 0 <= i < |catalog| ==> catalog[i].price >= 0)
    && (forall i :: 0 <= i < |catalog| ==> catalog[i].category in Categories[1..])
  }

  /** The filter callback: does an item belong to category `c`? */
  function InCategory(c: string): MenuItem -> bool {
    (item: MenuItem) => item.category == c
  }

  /** The items the menu section shows when `selected` is the chosen filter. */
  function FilterCatalog(catalog: seq<MenuItem>, selected: string): (r: seq<MenuItem>)
    ensures selected == All ==> r == catalog
    ensures selected != All ==>
      (forall i :: 0 <= i < |r| ==> r[i] in catalog && r[i].category == selected)
    ensures selected != All ==>
      (forall i :: 0 <= i < |catalog| && catalog[i].category == selected ==> catalog[i] in r)
  {
    if selected == All then catalog
    else FilterMembers(catalog, InCategory(selected)); Filter(catalog, InCategory(selected))
  }

  /** The filtered menu of the page, over its own catalog. */
  function FilteredMenu(selected: string): seq<MenuItem> {
    FilterCatalog(MenuItems, selected)
  }

  /** For a real category the view is exactly the catalog's items of that
      category: a subsequence in catalog order that keeps every occurrence. */
  lemma FilterCatalogExact(catalog: seq<MenuItem>, selected: string, x: MenuItem)
    requires selected != All
    ensures IsSubsequence(FilterCatalog(catalog, selected), catalog)
    ensures multiset(FilterCatalog(catalog, selected))[x] ==
      if x.category == selected then multiset(catalog)[x] else 0
  {
    FilterIsSubsequence(catalog, InCategory(selected));
    FilterCount(catalog, InCategory(selected), x);
  }

  /** A category that no item carries gives the empty view, not an error. */
  lemma UnknownCategoryEmpty(catalog: seq<MenuItem>, selected: string)
    requires selected != All
    requires forall i :: 0 <= i < |catalog| ==> catalog[i].category != selected
    ensures FilterCatalog(catalog, selected) == []
  {
    FilterNone(catalog, InCategory(selected));
  }

  /** The page's catalog satisfies the catalog invariant. */
  lemma MenuItemsWellFormed()
    ensures WellFormed(MenuItems)
    ensures |MenuItems| > 0
  {
  }

  /** The "Все" button shows the whole catalog. */
  lemma FilteredMenuAll()
    ensures FilteredMenu(All) == MenuItems
  {
  }

  /** The cold appetizers button shows the salmon tartare and the foie gras. */
  lemma FilteredMenuColdAppetizers()
    ensures FilteredMenu(ColdAppetizers) == [MenuItems[3], MenuItems[4]]
  {
    FilteredMenuSteps(ColdAppetizers);
    var p := InCategory(ColdAppetizers);
    assert Filter(MenuItems[5..], p) == [];
    assert Filter(MenuItems[4..], p) == [MenuItems[4]];
    assert Filter(MenuItems[3..], p) == [MenuItems[3], MenuItems[4]];
    assert Filter(MenuItems[2..], p) == [MenuItems[3], MenuItems[4]];
    assert Filter(MenuItems[1..], p) == [MenuItems[3], MenuItems[4]];
  }

  /** The soups button shows the truffle cream soup. */
  lemma FilteredMenuSoups()
    ensures FilteredMenu(Soups) == [MenuItems[0]]
  {
    FilteredMenuSteps(Soups);
    var p := InCategory(Soups);
    assert Filter(MenuItems[5..], p) == [];
    assert Filter(MenuItems[4..], p) == [];
    assert Filter(MenuItems[3..], p) == [];
    assert Filter(MenuItems[2..], p) == [];
    assert Filter(MenuItems[1..], p) == [];
  }

  /** The hot dishes button shows the beef and then the lobster. */
  lemma FilteredMenuHotDishes()
    ensures FilteredMenu(HotDishes) == [MenuItems[1], MenuItems[2]]
  {
    FilteredMenuSteps(HotDishes);
    var p := InCategory(HotDishes);
    assert Filter(MenuItems[5..], p) == [];
    assert Filter(MenuItems[4..], p) == [];
    assert Filter(MenuItems[3..], p) == [];
    assert Filter(MenuItems[2..], p) == [MenuItems[2]];
    assert Filter(MenuItems[1..], p) == [MenuItems[1], MenuItems[2]];
  }

  /** The desserts button shows the tiramisu. */
  lemma FilteredMenuDesserts()
    ensures FilteredMenu(Desserts) == [MenuItems[5]]
  {
    FilteredMenuSteps(Desserts);
    var p := InCategory(Desserts);
    assert Filter(MenuItems[5..], p) == [MenuItems[5]];
    assert Filter(MenuItems[4..], p) == [MenuItems[5]];
    assert Filter(MenuItems[3..], p) == [MenuItems[5]];
    assert Filter(MenuItems[2..], p) == [MenuItems[5]];
    assert Filter(MenuItems[1..], p) == [MenuItems[5]];
  }

  /** A category the catalog does not use ("Салаты", salads) shows nothing. */
  lemma FilteredMenuUnknown()
    ensures FilteredMenu("Салаты") == []
  {
    FilteredMenuSteps("Салаты");
    var p := InCategory("Салаты");
    assert Filter(MenuItems[5..], p) == [];
    assert Filter(MenuItems[4..], p) == [];
    assert Filter(MenuItems[3..], p) == [];
    assert Filter(MenuItems[2..], p) == [];
    assert Filter(MenuItems[1..], p) == [];
  }

  /** Unfolds the filter over the page's catalog one item at a time. */
  lemma FilteredMenuSteps(c: string)
    requires c != All
    ensures FilteredMenu(c) == Filter(MenuItems[0..], InCategory(c))
    ensures forall k :: 0 <= k < |MenuItems| ==>
      (Filter(MenuItems[k..], InCategory(c)) ==
       (if MenuItems[k].category == c then [MenuItems[k]] else []) + Filter(MenuItems[k + 1..], InCategory(c)))
    ensures Filter(MenuItems[6..], InCategory(c)) == []
  {
    assert MenuItems[0..] == MenuItems;
    forall k | 0 <= k < |MenuItems| ensures Filter(MenuItems[k..], InCategory(c)) ==
      (if MenuItems[k].category == c then [MenuItems[k]] else []) + Filter(MenuItems[k + 1..], InCategory(c))
    {
      FilterStep(MenuItems, k, InCategory(c));
    }
  }

  /** In a well-formed catalog each item is shown under its own category and
      under no other real category. */
  lemma ItemInOwnCategoryOnly(catalog: seq<MenuItem>, k: nat, c: string)
    requires WellFormed(catalog)
    requires k < |catalog|
    requires c in Categories[1..]
    ensures catalog[k] in FilterCatalog(catalog, c) <==> catalog[k].category == c
  {
  }
}
