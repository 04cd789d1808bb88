/** The storefront page of `HomePage.jsx`: `fetchMenu` groups the menu like
    `getMenu`, then sorts each category's items by `order` in place and
    flattens the categories into the product list; the cart badge, the
    navbar's scroll flags and the first highlighted category are derived
    from that state. */
module HomePage {
  import opened Maybe
  import opened JsString
  import opened Seqs
  import opened Menu
  import StableSort
  import Cart

  /** The item sort key. */
  function ItemOrder(it: MenuItem): Option<int> { it.order }

  /** `category.items.sort((a, b) => a.order - b.order)` */
  function SortItems(g: Group): Group {
    g.(items := StableSort.SortBy(g.items, ItemOrder))
  }

  /** `menu.categories` after `fetchMenu`: the sorted groups, each with its
      items sorted. */
  function HomeCategories(items: seq<MenuItem>, cats: seq<CategoryRecord>): (r: seq<Group>)
    ensures |r| == |MenuCategories(items, cats)|
  {
    var m := MenuCategories(items, cats);
    seq(|m|, i requires 0 <= i < |m| => SortItems(m[i]))
  }

  /** `category.items.map((item) => ({ ...item, category: category.name }))` */
  function Tagged(g: Group): seq<MenuItem> {
    seq(|g.items|, i requires 0 <= i < |g.items| => g.items[i].(category := g.name))
  }

  /** `sortedCategories.flatMap(...)`: the product list. */
  function Products(gs: seq<Group>): seq<MenuItem> {
    if gs == [] then [] else Tagged(gs[0]) + Products(gs[1..])
  }

  /** The groups' items laid end to end, untagged. */
  function FlatItems(gs: seq<Group>): seq<MenuItem> {
    if gs == [] then [] else gs[0].items + FlatItems(gs[1..])
  }

  /** `fetchMenu` after its two reads: group, sort the groups, then sort each
      group's items in turn; finally flatten. */
  method FetchMenu(items: seq<MenuItem>, cats: seq<CategoryRecord>)
    returns (categories: seq<Group>, products: seq<MenuItem>)
    ensures categories == HomeCategories(items, cats)
    ensures products == Products(categories)
  {
    var groups := GroupItems(items, cats);
    categories := StableSort.SortBy(groups, GroupOrder);
    ghost var sorted := categories;
    for j := 0 to |categories|
      invariant |categories| == |sorted|
      invariant forall i :: 0 <= i < j ==> categories[i] == SortItems(sorted[i])
      invariant forall i :: j <= i < |sorted| ==> categories[i] == sorted[i]
    {
      var g := categories[j];
      categories := categories[j := g.(items := StableSort.SortBy(g.items, ItemOrder))];
    }
    products := Products(categories);
  }

  // ---------------------------------------------------------------------
  // The product list holds every menu item once

  /** Every group holds only items of its own category. */
  predicate Homogeneous(gs: seq<Group>) {
    forall g, it :: 0 <= g < |gs| && it in gs[g].items ==> it.category == gs[g].name
  }

  /** Tagging changes nothing when every group is homogeneous. */
  lemma {:induction false} TagsAlreadyThere(gs: seq<Group>)
    requires Homogeneous(gs)
    ensures Products(gs) == FlatItems(gs)
  {
    if gs != [] {
      assert Homogeneous(gs[1..]) by {
        forall g, it | 0 <= g < |gs[1..]| && it in gs[1..][g].items
          ensures it.category == gs[1..][g].name
        {
          assert gs[1..][g] == gs[g + 1];
        }
      }
      TagsAlreadyThere(gs[1..]);
      assert Tagged(gs[0]) == gs[0].items by {
        forall i | 0 <= i < |gs[0].items| ensures Tagged(gs[0])[i] == gs[0].items[i] {
          assert gs[0].items[i] in gs[0].items;
        }
      }
    }
  }

  lemma {:induction false} FlatConcat(a: seq<Group>, b: seq<Group>)
    ensures FlatItems(a + b) == FlatItems(a) + FlatItems(b)
  {
    if a == [] {
      assert a + b == b;
    } else {
      assert (a + b)[1..] == a[1..] + b;
      FlatConcat(a[1..], b);
    }
  }

  /** Inserting a group adds its items to the flattened list. */
  lemma {:induction false} FlatInsert(x: Group, s: seq<Group>)
    ensures multiset(FlatItems(StableSort.Insert(x, s, GroupOrder)))
            == multiset(FlatItems(s)) + multiset(x.items)
  {
    if s != [] && StableSort.Compare(GroupOrder(x), GroupOrder(s[0])) >= 0 {
      var r := StableSort.Insert(x, s[1..], GroupOrder);
      assert StableSort.Insert(x, s, GroupOrder) == [s[0]] + r;
      assert ([s[0]] + r)[1..] == r;
      FlatInsert(x, s[1..]);
    } else if s != [] {
      assert StableSort.Insert(x, s, GroupOrder) == [x] + s;
      assert ([x] + s)[1..] == s;
    }
  }

  /** Sorting the groups keeps the same items overall. */
  lemma {:induction false} FlatSort(s: seq<Group>)
    ensures multiset(FlatItems(StableSort.SortBy(s, GroupOrder))) == multiset(FlatItems(s))
  {
    if s != [] {
      var init, last := s[..|s| - 1], s[|s| - 1];
      var sorted := StableSort.SortBy(init, GroupOrder);
      assert StableSort.SortBy(s, GroupOrder) == StableSort.Insert(last, sorted, GroupOrder);
      FlatSort(init);
      FlatInsert(last, sorted);
      assert s == init + [last];
      FlatConcat(init, [last]);
      FlatSingle(last);
    }
  }

  lemma FlatSingle(g: Group)
    ensures FlatItems([g]) == g.items
  {
    assert [g][1..] == [];
  }

  /** Sorting inside every group keeps the same items overall. */
  lemma {:induction false} FlatSortItems(s: seq<Group>)
    ensures multiset(FlatItems(seq(|s|, i requires 0 <= i < |s| => SortItems(s[i]))))
            == multiset(FlatItems(s))
  {
    var t := seq(|s|, i requires 0 <= i < |s| => SortItems(s[i]));
    if s != [] {
      var tail := seq(|s| - 1, i requires 0 <= i < |s| - 1 => SortItems(s[1..][i]));
      assert t[1..] == tail;
      FlatSortItems(s[1..]);
      StableSort.SortPermutes(s[0].items, ItemOrder);
    }
  }

  /** The groups for distinct names hold exactly the items whose category is
      one of the names. */
  lemma {:induction false} FlatGroups(items: seq<MenuItem>, cats: seq<CategoryRecord>, names: seq<string>)
    requires forall i, j :: 0 <= i < j < |names| ==> names[i] != names[j]
    ensures multiset(FlatItems(GroupsOf(items, cats, names)))
            == multiset(Filter(items, (it: MenuItem) => it.category in names))
  {
    if names == [] {
      FilterDropsAll(items, (it: MenuItem) => it.category in names);
    } else {
      var init, last := names[..|names| - 1], names[|names| - 1];
      var gs := GroupsOf(items, cats, names);
      assert gs == GroupsOf(items, cats, init) + [GroupFor(items, cats, last)];
      FlatGroups(items, cats, init);
      FlatConcat(GroupsOf(items, cats, init), [GroupFor(items, cats, last)]);
      assert FlatItems([GroupFor(items, cats, last)]) == ItemsOf(items, last);
      assert last !in init;
      FilterSplit(items, (it: MenuItem) => it.category in names,
                  (it: MenuItem) => it.category in init, (it: MenuItem) => it.category == last);
    }
  }

  /** The groups hold every menu item exactly once. */
  lemma GroupedItems(items: seq<MenuItem>, cats: seq<CategoryRecord>)
    ensures multiset(FlatItems(Grouped(items, cats))) == multiset(items)
  {
    FlatGroups(items, cats, Names(items));
    forall i | 0 <= i < |items| ensures items[i].category in Names(items) {
      NamesComplete(items, i);
    }
    FilterKeepsAll(items, (it: MenuItem) => it.category in Names(items));
  }

  /** The sorted groups hold only items of their own category. */
  lemma HomogeneousMenu(items: seq<MenuItem>, cats: seq<CategoryRecord>)
    ensures Homogeneous(MenuCategories(items, cats))
  {
    var gs := Grouped(items, cats);
    var m := MenuCategories(items, cats);
    MenuPermutes(items, cats);
    forall g, it | 0 <= g < |m| && it in m[g].items ensures it.category == m[g].name {
      assert m[g] in multiset(gs);
      var k :| 0 <= k < |gs| && gs[k] == m[g];
      GroupContents(items, cats, k);
    }
  }

  /** Sorting inside the groups keeps them homogeneous. */
  lemma HomogeneousHome(items: seq<MenuItem>, cats: seq<CategoryRecord>)
    ensures Homogeneous(HomeCategories(items, cats))
  {
    var m := MenuCategories(items, cats);
    var h := HomeCategories(items, cats);
    HomogeneousMenu(items, cats);
    forall g, it | 0 <= g < |h| && it in h[g].items ensures it.category == h[g].name {
      StableSort.SortPermutes(m[g].items, ItemOrder);
      assert it in multiset(m[g].items);
    }
  }

  /** Flattening the `getMenu` categories gives back every menu item once. */
  lemma MenuProducts(items: seq<MenuItem>, cats: seq<CategoryRecord>)
    ensures multiset(Products(MenuCategories(items, cats))) == multiset(items)
  {
    HomogeneousMenu(items, cats);
    TagsAlreadyThere(MenuCategories(items, cats));
    FlatSort(Grouped(items, cats));
    GroupedItems(items, cats);
  }

  /** `products` lists every menu item exactly once, each still tagged with
      its own category, so it is as long as the menu. */
  lemma ProductsAreTheMenu(items: seq<MenuItem>, cats: seq<CategoryRecord>)
    ensures multiset(Products(HomeCategories(items, cats))) == multiset(items)
    ensures |Products(HomeCategories(items, cats))| == |items|
  {
    HomogeneousHome(items, cats);
    TagsAlreadyThere(HomeCategories(items, cats));
    HomogeneousMenu(items, cats);
    TagsAlreadyThere(MenuCategories(items, cats));
    FlatSortItems(MenuCategories(items, cats));
    MenuProducts(items, cats);
    assert |multiset(Products(HomeCategories(items, cats)))| == |multiset(items)|;
  }

  /** Each displayed category is the `getMenu` group at the same place with
      the same items, sorted by `order` when every item has one. */
  lemma CategoryItemsSorted(items: seq<MenuItem>, cats: seq<CategoryRecord>, g: nat)
    requires g < |MenuCategories(items, cats)|
    requires StableSort.AllKeyed(MenuCategories(items, cats)[g].items, ItemOrder)
    ensures var m, h := MenuCategories(items, cats)[g], HomeCategories(items, cats)[g];
            && h.name == m.name && h.slug == m.slug && h.order == m.order
            && multiset(h.items) == multiset(m.items)
            && StableSort.AllKeyed(h.items, ItemOrder)
            && StableSort.SortedBy(h.items, ItemOrder)
  {
    var m := MenuCategories(items, cats)[g];
    StableSort.SortPermutes(m.items, ItemOrder);
    StableSort.SortSorted(m.items, ItemOrder);
  }

  // ---------------------------------------------------------------------
  // The cart badge

  lemma {:induction false} TotalItemsConcat(a: seq<Cart.Line>, b: seq<Cart.Line>)
    ensures Cart.TotalItems(a + b) == Cart.TotalItems(a) + Cart.TotalItems(b)
    decreases |b|
  {
    if b == [] {
      assert a + b == a;
    } else {
      assert (a + b)[..|a + b| - 1] == a + b[..|b| - 1];
      TotalItemsConcat(a, b[..|b| - 1]);
    }
  }

  /** Adding a product to the cart raises the badge count `totalItems` by
      exactly one, whether its line was there or not. */
  lemma BadgeCountsAdds(cart: seq<Cart.Line>, p: Cart.Product)
    requires Cart.Valid(cart)
    ensures Cart.TotalItems(Cart.AddToCart(cart, p)) == Cart.TotalItems(cart) + 1
  {
    if Cart.HasId(cart, p.id) {
      var k :| 0 <= k < |cart| && cart[k].id == p.id;
      Cart.AddExisting(cart, p, k);
      TotalItemsUpdate(cart, k, Cart.Bump(cart[k], 1));
    } else {
      Cart.AddNew(cart, p);
    }
  }

  /** Replacing one line changes the badge count by the difference of the
      two quantities. */
  lemma TotalItemsUpdate(cart: seq<Cart.Line>, k: nat, x: Cart.Line)
    requires k < |cart|
    ensures Cart.TotalItems(cart[k := x]) == Cart.TotalItems(cart) - cart[k].quantity + x.quantity
  {
    var before, after := cart[..k], cart[k + 1..];
    assert cart == (before + [cart[k]]) + after;
    assert cart[k := x] == (before + [x]) + after;
    TotalItemsConcat(before + [cart[k]], after);
    TotalItemsConcat(before, [cart[k]]);
    TotalItemsConcat(before + [x], after);
    TotalItemsConcat(before, [x]);
    assert [cart[k]][..0] == [] && [x][..0] == [];
  }

  // ---------------------------------------------------------------------
  // Scroll flags and the highlighted category

  const ScrolledBackground := "#3e3d3f"
  const TopBackground := "transparent"

  /** The navbar and category-bar state the scroll handler sets. */
  datatype Bars = Bars(background: string, isScrolled: bool, isMenuFixed: bool, placeholderHeight: int)

  /** `handleScroll` at vertical position `y`; `navHeight` is the category
      bar's height when it is mounted. */
  function HandleScroll(b: Bars, y: int, navHeight: Option<int>): (r: Bars)
    ensures r.isScrolled <==> y > 50
    ensures r.isMenuFixed <==> y > 100
    ensures r.background == (if r.isScrolled then ScrolledBackground else TopBackground)
    ensures r.isMenuFixed ==> r.isScrolled
    ensures r.placeholderHeight != b.placeholderHeight ==>
              y > 100 && !b.isMenuFixed && navHeight == Some(r.placeholderHeight)
  {
    var b1 := if y > 50 then b.(background := ScrolledBackground, isScrolled := true)
              else b.(background := TopBackground, isScrolled := false);
    if y > 100 then
      var b2 := if !b.isMenuFixed && navHeight.Some? then b1.(placeholderHeight := navHeight.value) else b1;
      b2.(isMenuFixed := true)
    else b1.(isMenuFixed := false)
  }

  /** The bars the page starts with. */
  const InitialBars := Bars(TopBackground, false, false, 0)

  /** Consistent bars: the background matches `isScrolled`, and the menu is
      fixed only once scrolled. */
  predicate Consistent(b: Bars) {
    && b.background == (if b.isScrolled then ScrolledBackground else TopBackground)
    && (b.isMenuFixed ==> b.isScrolled)
  }

  /** The page starts consistent and every scroll event keeps it so, whatever
      the positions. */
  lemma {:induction false} ScrollKeepsConsistent(ys: seq<int>, navHeight: Option<int>)
    ensures Consistent(Scrolled(InitialBars, ys, navHeight))
  {
    if ys != [] {
      ScrollKeepsConsistent(ys[..|ys| - 1], navHeight);
    }
  }

  /** The bars after a series of scroll events. */
  function Scrolled(b: Bars, ys: seq<int>, navHeight: Option<int>): Bars {
    if ys == [] then b else HandleScroll(Scrolled(b, ys[..|ys| - 1], navHeight), ys[|ys| - 1], navHeight)
  }

  /** The placeholder height changes only on a scroll that fixes the menu. */
  lemma {:induction false} PlaceholderOnlyWhenFixing(b: Bars, ys: seq<int>, navHeight: Option<int>)
    requires Scrolled(b, ys, navHeight).placeholderHeight != b.placeholderHeight
    ensures exists i :: 0 <= i < |ys| && ys[i] > 100
  {
    var init := ys[..|ys| - 1];
    if Scrolled(b, init, navHeight).placeholderHeight != b.placeholderHeight {
      PlaceholderOnlyWhenFixing(b, init, navHeight);
      var i :| 0 <= i < |init| && init[i] > 100;
      assert ys[i] == init[i];
    } else {
      assert ys[|ys| - 1] > 100;
    }
  }

  /** The effect on `menu`: highlight the first category when there is one. */
  function InitialActive(active: Option<string>, categories: seq<Group>): (r: Option<string>)
    ensures categories == [] ==> r == active
  {
    if |categories| > 0 then Some(categories[0].slug) else active
  }

  /** Once a non-empty menu is loaded, the highlighted category is the slug
      of the lowest-`order` category, which some menu item belongs to. */
  lemma ActiveIsAMenuCategory(items: seq<MenuItem>, cats: seq<CategoryRecord>, active: Option<string>)
    requires items != []
    ensures var h := HomeCategories(items, cats);
            h != [] && InitialActive(active, h) == Some(Slug(h[0].name))
            && HasItem(items, h[0].name)
  {
    var gs := Grouped(items, cats);
    var m := MenuCategories(items, cats);
    NamesComplete(items, 0);
    assert |gs| > 0;
    MenuPermutes(items, cats);
    assert m[0] in multiset(gs);
    var k :| 0 <= k < |gs| && gs[k] == m[0];
    GroupContents(items, cats, k);
    GroupNamesDistinct(items, cats);
    assert HasGroup(gs, m[0].name);
  }
}
