/** The menu admin page of `MenuAdminPage.jsx`: the flattened product list it
    loads, the drag-and-drop reordering of products and of categories
    (`arrayMove` from `@dnd-kit/sortable`, then `order := index`), and the
    requests its two forms send. */
module MenuAdmin {
  import opened Maybe
  import opened Http
  import opened Menu
  import HomePage
  import StableSort

  // ---------------------------------------------------------------------
  // arrayMove

  /** `items.findIndex(item => item.id === id)`: -1 when no item has it. */
  function FindIndex(ids: seq<string>, id: string): (r: int)
    ensures -1 <= r < |ids|
    ensures r >= 0 ==> ids[r] == id && forall j :: 0 <= j < r ==> ids[j] != id
    ensures r == -1 ==> forall j :: 0 <= j < |ids| ==> ids[j] != id
  {
    if ids == [] then -1
    else if ids[0] == id then 0
    else
      var r := FindIndex(ids[1..], id);
      assert forall j :: 1 <= j < |ids| ==> ids[1..][j - 1] == ids[j];
      if r == -1 then -1 else r + 1
  }

  /** The position `Array.prototype.splice` starts at for an index `k` into
      a list of length `n`: negative indices count from the end. */
  function SpliceStart(n: nat, k: int): (r: nat)
    ensures r <= n
  {
    if k < 0 then (if n + k < 0 then 0 else n + k) else if k > n then n else k
  }

  /** The index `arrayMove` hands to the outer `splice`: a negative `to`
      counts from the end of the ORIGINAL list, since that argument is
      evaluated before the inner `splice` removes the element. */
  function MoveTarget(n: nat, to: int): int {
    if to < 0 then n + to else to
  }

  /** `arrayMove(array, from, to)`: take the element at `from` out, then put
      it back in at the target of the shortened list. `from` is the index of
      the dragged item, which is always there; `to` is -1 when the item
      dropped on is not in the list. */
  function ArrayMove<T>(s: seq<T>, from: nat, to: int): (r: seq<T>)
    requires from < |s|
    ensures |r| == |s|
  {
    var rest := s[..from] + s[from + 1..];
    var at := SpliceStart(|rest|, MoveTarget(|s|, to));
    rest[..at] + [s[from]] + rest[at..]
  }

  /** A `to` of -1 puts the element last and keeps the others in order. */
  lemma ArrayMoveToEnd<T>(s: seq<T>, from: nat)
    requires from < |s|
    ensures ArrayMove(s, from, -1)[|s| - 1] == s[from]
    ensures ArrayMove(s, from, -1)[..|s| - 1] == s[..from] + s[from + 1..]
  {
    var rest := s[..from] + s[from + 1..];
    assert SpliceStart(|rest|, MoveTarget(|s|, -1)) == |rest|;
    assert rest[..|rest|] == rest && rest[|rest|..] == [];
  }

  /** `arrayMove` only moves one element: the result is a permutation, the
      moved element lands at `to` when `to` is an index, and the others keep
      their relative order. */
  lemma ArrayMoveSpec<T>(s: seq<T>, from: nat, to: int)
    requires from < |s|
    ensures multiset(ArrayMove(s, from, to)) == multiset(s)
    ensures 0 <= to < |s| ==> ArrayMove(s, from, to)[to] == s[from]
    ensures 0 <= to < |s| ==>
              ArrayMove(s, from, to)[..to] + ArrayMove(s, from, to)[to + 1..] == s[..from] + s[from + 1..]
    ensures to == from ==> ArrayMove(s, from, to) == s
  {
    var rest := s[..from] + s[from + 1..];
    var at := SpliceStart(|rest|, MoveTarget(|s|, to));
    var r := ArrayMove(s, from, to);
    assert s == s[..from] + [s[from]] + s[from + 1..];
    assert multiset(s) == multiset(s[..from]) + multiset{s[from]} + multiset(s[from + 1..]);
    assert rest == rest[..at] + rest[at..];
    assert multiset(rest) == multiset(rest[..at]) + multiset(rest[at..]);
    assert multiset(rest) == multiset(s[..from]) + multiset(s[from + 1..]);
    assert r == rest[..at] + [s[from]] + rest[at..];
    assert multiset(r) == multiset(rest[..at]) + multiset{s[from]} + multiset(rest[at..]);
    calc {
      multiset(r);
      multiset(rest[..at]) + multiset(rest[at..]) + multiset{s[from]};
      multiset(rest) + multiset{s[from]};
      multiset(s[..from]) + multiset(s[from + 1..]) + multiset{s[from]};
      multiset(s);
    }
    assert r[..at] == rest[..at] && r[at + 1..] == rest[at..];
    if to == from {
      assert rest[..at] == s[..from];
      assert rest[at..] == s[from + 1..];
    }
  }

  /** Where the element at position `i` of `arrayMove`'s result comes from. */
  function MoveSource(n: nat, from: nat, to: int, i: nat): (r: nat)
    requires from < n && i < n
    ensures r < n
  {
    var at := SpliceStart(n - 1, MoveTarget(n, to));
    if i == at then from
    else
      var j := if i < at then i else i - 1;
      if j < from then j else j + 1
  }

  /** `arrayMove` position by position. */
  lemma ArrayMoveAt<T>(s: seq<T>, from: nat, to: int)
    requires from < |s|
    ensures forall i :: 0 <= i < |s| ==> ArrayMove(s, from, to)[i] == s[MoveSource(|s|, from, to, i)]
  {
  }

  // ---------------------------------------------------------------------
  // Reordering products and categories

  function ItemIds(s: seq<MenuItem>): (r: seq<string>)
    ensures |r| == |s|
  {
    seq(|s|, i requires 0 <= i < |s| => s[i].id)
  }

  /** The items with their `order` forgotten. */
  function Unordered(s: seq<MenuItem>): (r: seq<MenuItem>)
    ensures |r| == |s|
  {
    seq(|s|, i requires 0 <= i < |s| => s[i].(order := None))
  }

  /** `newItems.map((item, index) => ({ ...item, order: index }))` */
  function Reindexed(s: seq<MenuItem>): (r: seq<MenuItem>)
    ensures |r| == |s|
  {
    seq(|s|, i requires 0 <= i < |s| => s[i].(order := Some(i)))
  }

  /** `handleDragEnd`: the new product list, or `None` when the update
      throws because the drop landed on nothing (`over` is `null`). */
  function DragItems(items: seq<MenuItem>, active: string, over: Option<string>): Option<seq<MenuItem>>
    requires active in ItemIds(items)
  {
    if over == Some(active) then Some(items)
    else if over.None? then None
    else
      var from := FindIndex(ItemIds(items), active);
      Some(Reindexed(ArrayMove(items, from, FindIndex(ItemIds(items), over.value))))
  }

  /** Forgetting `order` and taking ids both commute with moving and
      renumbering. */
  lemma ReorderedItems(s: seq<MenuItem>, from: nat, to: int)
    requires from < |s|
    ensures Unordered(Reindexed(ArrayMove(s, from, to))) == ArrayMove(Unordered(s), from, to)
    ensures ItemIds(Reindexed(ArrayMove(s, from, to))) == ArrayMove(ItemIds(s), from, to)
  {
    ArrayMoveAt(s, from, to);
    ArrayMoveAt(Unordered(s), from, to);
    ArrayMoveAt(ItemIds(s), from, to);
  }

  /** Moving a product and renumbering: every `order` is its index, the
      products are the same otherwise, and the moved one sits at `to`. */
  lemma MovedItems(s: seq<MenuItem>, from: nat, to: int)
    requires from < |s|
    ensures var r := Reindexed(ArrayMove(s, from, to));
            && |r| == |s|
            && (forall i :: 0 <= i < |r| ==> r[i].order == Some(i))
            && multiset(Unordered(r)) == multiset(Unordered(s))
            && multiset(ItemIds(r)) == multiset(ItemIds(s))
            && (0 <= to < |s| ==> r[to].id == s[from].id)
  {
    var r := Reindexed(ArrayMove(s, from, to));
    ReorderedItems(s, from, to);
    ArrayMoveSpec(Unordered(s), from, to);
    ArrayMoveSpec(ItemIds(s), from, to);
    if 0 <= to < |s| {
      assert ItemIds(r)[to] == ItemIds(s)[from];
    }
  }

  /** Dropping a product on itself changes nothing. After any other drop
      every product's `order` is its index, the list holds the same products
      otherwise unchanged, and the dragged one sits where it was dropped. */
  lemma DragItemsSpec(items: seq<MenuItem>, active: string, over: Option<string>)
    requires active in ItemIds(items)
    ensures over == Some(active) ==> DragItems(items, active, over) == Some(items)
    ensures over.None? ==> DragItems(items, active, over).None?
    ensures over.Some? && over.value != active ==>
              var r := DragItems(items, active, over).value;
              && |r| == |items|
              && (forall i :: 0 <= i < |r| ==> r[i].order == Some(i))
              && multiset(Unordered(r)) == multiset(Unordered(items))
              && multiset(ItemIds(r)) == multiset(ItemIds(items))
              && (over.value in ItemIds(items) ==> r[FindIndex(ItemIds(items), over.value)].id == active)
  {
    if over.Some? && over.value != active {
      var from := FindIndex(ItemIds(items), active);
      var to := FindIndex(ItemIds(items), over.value);
      MovedItems(items, from, to);
      assert ItemIds(items)[from] == items[from].id;
    }
  }

  // The category list gets its own copies of `ItemIds`, `Reindexed` and
  // `Unordered`: `MenuItem` and `CategoryRecord` are distinct datatypes that
  // merely share the `id` and `order` fields, and Dafny has no structural
  // record type to write one function over both without passing accessor
  // functions into every lemma.

  /** The ids of the category list. */
  function CategoryIds(s: seq<CategoryRecord>): (r: seq<string>)
    ensures |r| == |s|
  {
    seq(|s|, i requires 0 <= i < |s| => s[i].id)
  }

  /** `newItems.map((item, index) => ({ ...item, order: index }))` on the
      categories. */
  function ReindexedCategories(s: seq<CategoryRecord>): (r: seq<CategoryRecord>)
    ensures |r| == |s|
  {
    seq(|s|, i requires 0 <= i < |s| => s[i].(order := Some(i)))
  }

  /** The categories with their `order` forgotten. */
  function UnorderedCategories(s: seq<CategoryRecord>): (r: seq<CategoryRecord>)
    ensures |r| == |s|
  {
    seq(|s|, i requires 0 <= i < |s| => s[i].(order := None))
  }

  /** `handleCategoryDragEnd`, the same reordering on the category list. */
  function DragCategories(cats: seq<CategoryRecord>, active: string, over: Option<string>): Option<seq<CategoryRecord>>
    requires active in CategoryIds(cats)
  {
    if over == Some(active) then Some(cats)
    else if over.None? then None
    else
      var from := FindIndex(CategoryIds(cats), active);
      Some(ReindexedCategories(ArrayMove(cats, from, FindIndex(CategoryIds(cats), over.value))))
  }

  /** Forgetting `order` and taking ids commute with moving and
      renumbering categories. */
  lemma ReorderedCategories(s: seq<CategoryRecord>, from: nat, to: int)
    requires from < |s|
    ensures UnorderedCategories(ReindexedCategories(ArrayMove(s, from, to))) == ArrayMove(UnorderedCategories(s), from, to)
    ensures CategoryIds(ReindexedCategories(ArrayMove(s, from, to))) == ArrayMove(CategoryIds(s), from, to)
  {
    ArrayMoveAt(s, from, to);
    ArrayMoveAt(UnorderedCategories(s), from, to);
    ArrayMoveAt(CategoryIds(s), from, to);
  }

  /** Moving a category and renumbering, as for products. */
  lemma MovedCategories(s: seq<CategoryRecord>, from: nat, to: int)
    requires from < |s|
    ensures var r := ReindexedCategories(ArrayMove(s, from, to));
            && |r| == |s|
            && (forall i :: 0 <= i < |r| ==> r[i].order == Some(i))
            && multiset(UnorderedCategories(r)) == multiset(UnorderedCategories(s))
            && multiset(CategoryIds(r)) == multiset(CategoryIds(s))
            && (0 <= to < |s| ==> r[to].id == s[from].id)
  {
    var r := ReindexedCategories(ArrayMove(s, from, to));
    ReorderedCategories(s, from, to);
    ArrayMoveSpec(UnorderedCategories(s), from, to);
    ArrayMoveSpec(CategoryIds(s), from, to);
    if 0 <= to < |s| {
      assert CategoryIds(r)[to] == CategoryIds(s)[from];
    }
  }

  /** The category drag keeps the same guarantees as the product drag. */
  lemma DragCategoriesSpec(cats: seq<CategoryRecord>, active: string, over: Option<string>)
    requires active in CategoryIds(cats)
    ensures over == Some(active) ==> DragCategories(cats, active, over) == Some(cats)
    ensures over.None? ==> DragCategories(cats, active, over).None?
    ensures over.Some? && over.value != active ==>
              var r := DragCategories(cats, active, over).value;
              && |r| == |cats|
              && (forall i :: 0 <= i < |r| ==> r[i].order == Some(i))
              && multiset(UnorderedCategories(r)) == multiset(UnorderedCategories(cats))
              && multiset(CategoryIds(r)) == multiset(CategoryIds(cats))
              && (over.value in CategoryIds(cats) ==> r[FindIndex(CategoryIds(cats), over.value)].id == active)
  {
    if over.Some? && over.value != active {
      var from := FindIndex(CategoryIds(cats), active);
      var to := FindIndex(CategoryIds(cats), over.value);
      MovedCategories(cats, from, to);
      assert CategoryIds(cats)[from] == cats[from].id;
    }
  }

  // ---------------------------------------------------------------------
  // The loaded lists

  /** `fetchMenu`: the `getMenu` categories flattened, each item tagged with
      its category, sorted by `order`. */
  function AdminMenu(items: seq<MenuItem>, cats: seq<CategoryRecord>): seq<MenuItem> {
    StableSort.SortBy(HomePage.Products(MenuCategories(items, cats)), HomePage.ItemOrder)
  }

  /** The admin list holds every menu item once, and is sorted by `order`
      when every item has one. */
  lemma AdminMenuSpec(items: seq<MenuItem>, cats: seq<CategoryRecord>)
    ensures multiset(AdminMenu(items, cats)) == multiset(items)
    ensures StableSort.AllKeyed(items, HomePage.ItemOrder) ==>
              StableSort.AllKeyed(AdminMenu(items, cats), HomePage.ItemOrder)
              && StableSort.SortedBy(AdminMenu(items, cats), HomePage.ItemOrder)
  {
    var p := HomePage.Products(MenuCategories(items, cats));
    HomePage.MenuProducts(items, cats);
    StableSort.SortPermutes(p, HomePage.ItemOrder);
    if StableSort.AllKeyed(items, HomePage.ItemOrder) {
      forall i | 0 <= i < |p| ensures HomePage.ItemOrder(p[i]).Some? {
        assert p[i] in multiset(items);
      }
      StableSort.SortSorted(p, HomePage.ItemOrder);
    }
  }

  /** `fetchCategories`: the records sorted by `order`. */
  function AdminCategories(data: seq<CategoryRecord>): seq<CategoryRecord> {
    StableSort.SortBy(data, RecordOrder)
  }

  function RecordOrder(c: CategoryRecord): Option<int> { c.order }

  /** The category list is the fetched records, reordered, and sorted when
      every record has an `order`. */
  lemma AdminCategoriesSpec(data: seq<CategoryRecord>)
    ensures multiset(AdminCategories(data)) == multiset(data)
    ensures StableSort.AllKeyed(data, RecordOrder) ==>
              StableSort.AllKeyed(AdminCategories(data), RecordOrder)
              && StableSort.SortedBy(AdminCategories(data), RecordOrder)
  {
    StableSort.SortPermutes(data, RecordOrder);
    if StableSort.AllKeyed(data, RecordOrder) {
      StableSort.SortSorted(data, RecordOrder);
    }
  }

  // ---------------------------------------------------------------------
  // The forms

  /** The address every admin request goes to. */
  const FunctionsBase := "http://127.0.0.1:5001/demo-no-project/us-central1/"

  /** The product form, as text fields. */
  datatype ProductForm = ProductForm(name: string, description: string, price: string, category: string,
                                     image: string, kcal: string)

  /** The JSON body of a product request. */
  datatype ItemBody = ItemBody(name: string, description: string, price: int, category: string,
                               image: string, kcal: Option<int>, order: Option<int>)

  datatype ItemRequest = ItemRequest(m: Method, url: string, body: ItemBody)

  /** `handleFormSubmit`'s request: an edit is a PUT to the product's
      `manageMenuItem` address keeping its `order`, a new product a POST to
      `addMenuItem` placed last. `parseFloat` and `parseInt` are the number
      parsers, left abstract. */
  function SubmitItem(editing: Option<MenuItem>, form: ProductForm, menuLength: nat,
                      parseFloat: string -> int, parseInt: string -> int): (r: ItemRequest)
    ensures editing.Some? ==>
              r.m == PUT && r.url == FunctionsBase + "manageMenuItem/" + editing.value.id
              && r.body.order == editing.value.order
    ensures editing.None? ==>
              r.m == POST && r.url == FunctionsBase + "addMenuItem" && r.body.order == Some(menuLength)
    ensures r.body.kcal.None? <==> form.kcal == ""
    ensures r.body.name == form.name && r.body.category == form.category
  {
    var body := ItemBody(form.name, form.description, parseFloat(form.price), form.category, form.image,
                         if form.kcal != "" then Some(parseInt(form.kcal)) else None,
                         if editing.Some? then editing.value.order else Some(menuLength));
    if editing.Some? then ItemRequest(PUT, FunctionsBase + "manageMenuItem/" + editing.value.id, body)
    else ItemRequest(POST, FunctionsBase + "addMenuItem", body)
  }

  /** The JSON body of `handleCategorySubmit`. */
  datatype CategoryBody = CategoryBody(name: string, order: nat)

  /** `handleCategorySubmit`: an empty name sends nothing; otherwise the new
      category is placed last. */
  function SubmitCategory(name: string, categoriesLength: nat): (r: Option<CategoryBody>)
    ensures r.None? <==> name == ""
    ensures r.Some? ==> r.value == CategoryBody(name, categoriesLength)
  {
    if name == "" then None else Some(CategoryBody(name, categoriesLength))
  }
}
