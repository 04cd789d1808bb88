/** The public menu: `api/getMenu.ts` and the `getMenu` functions of
    `functions/src/index.ts` and `functions/lib/index.js`, which share one
    grouping. Menu items are grouped by their `category` in a dictionary
    filled by a `forEach`; each group carries the category's slug and the
    `order` of the first category record with that name (0 when there is
    none); the groups are then sorted by `order`. */
module Menu {
  import opened Maybe
  import opened JsString
  import opened Seqs
  import opened Http
  import StableSort

  /** A document of the `menu` collection with its id. */
  datatype MenuItem = MenuItem(id: string, name: string, description: string, price: int,
                               category: string, image: string, kcal: Option<int>,
                               order: Option<int>)

  /** A document of the `categories` collection; `order` is missing on
      categories created through `addCategory`. */
  datatype CategoryRecord = CategoryRecord(id: string, name: string, order: Option<int>)

  /** One entry of the response's `categories`. */
  datatype Group = Group(name: string, slug: string, items: seq<MenuItem>, order: Option<int>)

  /** `categoriesData.find(c => c.name === name)`, then its `order`, or 0. */
  function CategoryOrder(cats: seq<CategoryRecord>, name: string): (r: Option<int>)
    ensures (forall i :: 0 <= i < |cats| ==> cats[i].name != name) ==> r == Some(0)
  {
    if cats == [] then Some(0)
    else if cats[0].name == name then cats[0].order
    else CategoryOrder(cats[1..], name)
  }

  /** The order comes from the first record with the name. */
  lemma {:induction false} CategoryOrderFirst(cats: seq<CategoryRecord>, name: string, i: nat)
    requires i < |cats| && cats[i].name == name
    requires forall j :: 0 <= j < i ==> cats[j].name != name
    ensures CategoryOrder(cats, name) == cats[i].order
  {
    if i > 0 {
      assert cats[1..][i - 1] == cats[i];
      CategoryOrderFirst(cats[1..], name, i - 1);
    }
  }

  /** The category names of `items`, each once, in order of first appearance. */
  function Names(items: seq<MenuItem>): (r: seq<string>)
    ensures forall i, j :: 0 <= i < j < |r| ==> r[i] != r[j]
  {
    if items == [] then []
    else
      var d := Names(items[..|items| - 1]);
      if items[|items| - 1].category in d then d else d + [items[|items| - 1].category]
  }

  predicate InCategory(item: MenuItem, name: string) { item.category == name }

  /** The items of one category, in input order. */
  function ItemsOf(items: seq<MenuItem>, name: string): seq<MenuItem> {
    Filter(items, (it: MenuItem) => it.category == name)
  }

  /** The group the dictionary holds for `name` once `items` are in. */
  function GroupFor(items: seq<MenuItem>, cats: seq<CategoryRecord>, name: string): Group {
    Group(name, Slug(name), ItemsOf(items, name), CategoryOrder(cats, name))
  }

  /** `Object.values(categories)` after the `forEach`: one group per
      category name, in order of first appearance. */
  function Grouped(items: seq<MenuItem>, cats: seq<CategoryRecord>): (r: seq<Group>)
    ensures |r| == |Names(items)|
  {
    GroupsOf(items, cats, Names(items))
  }

  /** The groups for the given names, in that order. */
  function GroupsOf(items: seq<MenuItem>, cats: seq<CategoryRecord>, names: seq<string>): (r: seq<Group>)
    ensures |r| == |names|
    ensures forall i :: 0 <= i < |names| ==> r[i] == GroupFor(items, cats, names[i])
  {
    seq(|names|, i requires 0 <= i < |names| => GroupFor(items, cats, names[i]))
  }

  /** The `categories` of the response: the groups sorted by `order`. */
  function MenuCategories(items: seq<MenuItem>, cats: seq<CategoryRecord>): seq<Group> {
    StableSort.SortBy(Grouped(items, cats), GroupOrder)
  }

  /** The sort key. */
  function GroupOrder(g: Group): Option<int> { g.order }

  /** The dictionary after the items `done`: `keys` are its keys in order
      of creation, which are the category names of `done`, and each name
      holds its group. */
  ghost predicate Filled(categories: map<string, Group>, keys: seq<string>,
                         done: seq<MenuItem>, cats: seq<CategoryRecord>) {
    && keys == Names(done)
    && categories.Keys == set n | n in keys
    && forall n :: n in categories ==> categories[n] == GroupFor(done, cats, n)
  }

  /** One round of the `forEach`: create the group on first sight of its
      name, then push the item. */
  function AddItem(categories: map<string, Group>, cats: seq<CategoryRecord>, item: MenuItem): map<string, Group> {
    var name := item.category;
    var g := if name in categories then categories[name]
             else Group(name, Slug(name), [], CategoryOrder(cats, name));
    categories[name := g.(items := g.items + [item])]
  }

  /** One round keeps the dictionary filled for one more item. */
  lemma AddItemFills(categories: map<string, Group>, keys: seq<string>, done: seq<MenuItem>,
                     cats: seq<CategoryRecord>, item: MenuItem)
    requires Filled(categories, keys, done, cats)
    ensures Filled(AddItem(categories, cats, item),
                   if item.category in categories then keys else keys + [item.category],
                   done + [item], cats)
  {
    var next := done + [item];
    assert next[..|next| - 1] == done;
    if item.category !in categories {
      NoneBefore(done, item.category);
    }
    var after := AddItem(categories, cats, item);
    forall n | n in after ensures after[n] == GroupFor(next, cats, n) {
      ItemsOfAppend(done, item, n);
    }
  }

  lemma ItemsOfAppend(done: seq<MenuItem>, item: MenuItem, name: string)
    ensures ItemsOf(done + [item], name)
            == if item.category == name then ItemsOf(done, name) + [item] else ItemsOf(done, name)
  {
    var keep := (it: MenuItem) => it.category == name;
    FilterConcat(done, [item], keep);
    assert [item][1..] == [];
  }

  /** The `forEach` that fills the dictionary, with `keys` recording the
      order in which its keys were created, then `Object.values`. */
  method GroupItems(items: seq<MenuItem>, cats: seq<CategoryRecord>) returns (groups: seq<Group>)
    ensures groups == Grouped(items, cats)
  {
    var categories: map<string, Group> := map[];
    var keys: seq<string> := [];
    for i := 0 to |items|
      invariant Filled(categories, keys, items[..i], cats)
    {
      var item := items[i];
      ghost var before, keysBefore := categories, keys;
      if item.category !in categories {
        categories := categories[item.category := Group(item.category, Slug(item.category), [], CategoryOrder(cats, item.category))];
        keys := keys + [item.category];
      }
      var g := categories[item.category];
      categories := categories[item.category := g.(items := g.items + [item])];
      assert categories == AddItem(before, cats, item);
      AddItemFills(before, keysBefore, items[..i], cats, item);
      assert items[..i + 1] == items[..i] + [item];
    }
    assert items[..|items|] == items;
    groups := seq(|keys|, j requires 0 <= j < |keys| => categories[keys[j]]);
  }

  /** A name that is not yet among the names has no items yet. */
  lemma NoneBefore(items: seq<MenuItem>, name: string)
    requires name !in Names(items)
    ensures ItemsOf(items, name) == []
  {
    forall i | 0 <= i < |items| ensures items[i].category != name {
      NamesComplete(items, i);
    }
    FilterDropsAll(items, (it: MenuItem) => it.category == name);
  }

  /** Every item's category is among the names. */
  lemma {:induction false} NamesComplete(items: seq<MenuItem>, i: nat)
    requires i < |items|
    ensures items[i].category in Names(items)
    decreases |items|
  {
    if i < |items| - 1 {
      var init := items[..|items| - 1];
      assert init[i] == items[i];
      NamesComplete(init, i);
    }
  }

  /** Every name is some item's category. */
  lemma {:induction false} NamesSound(items: seq<MenuItem>, name: string)
    requires name in Names(items)
    ensures exists i :: 0 <= i < |items| && items[i].category == name
    decreases |items|
  {
    var init := items[..|items| - 1];
    if name in Names(init) {
      NamesSound(init, name);
      var i :| 0 <= i < |init| && init[i].category == name;
      assert items[i] == init[i];
    }
  }

  /** Every menu item lands in exactly one group: the one named by its
      category. */
  lemma ExactlyOneGroup(items: seq<MenuItem>, cats: seq<CategoryRecord>, k: nat)
    requires k < |items|
    ensures var gs := Grouped(items, cats);
            exists g :: 0 <= g < |gs| && gs[g].name == items[k].category && items[k] in gs[g].items
    ensures var gs := Grouped(items, cats);
            forall g :: 0 <= g < |gs| && items[k] in gs[g].items ==> gs[g].name == items[k].category
  {
    var gs := Grouped(items, cats);
    var names := Names(items);
    NamesComplete(items, k);
    var g :| 0 <= g < |names| && names[g] == items[k].category;
    FilterMembership(items, (it: MenuItem) => it.category == names[g], items[k]);
    assert gs[g].name == items[k].category && items[k] in gs[g].items;
    forall h | 0 <= h < |gs| && items[k] in gs[h].items ensures gs[h].name == items[k].category {
      FilterMembership(items, (it: MenuItem) => it.category == names[h], items[k]);
    }
  }

  /** Every group is non-empty, holds exactly the items of its category in
      their input order, and carries the slug of its name; categories with
      no items get no group. */
  lemma GroupContents(items: seq<MenuItem>, cats: seq<CategoryRecord>, g: nat)
    requires g < |Grouped(items, cats)|
    ensures var grp := Grouped(items, cats)[g];
            && grp.items != []
            && IsSubsequence(grp.items, items)
            && (forall it :: it in grp.items <==> it in items && it.category == grp.name)
            && grp.slug == Slug(grp.name)
            && grp.order == CategoryOrder(cats, grp.name)
  {
    var grp := Grouped(items, cats)[g];
    var keep := (it: MenuItem) => it.category == grp.name;
    FilterIsSubsequence(items, keep);
    forall it ensures it in grp.items <==> it in items && it.category == grp.name {
      FilterMembership(items, keep, it);
    }
    NamesSound(items, grp.name);
    var i :| 0 <= i < |items| && items[i].category == grp.name;
    FilterMembership(items, keep, items[i]);
  }

  /** Some group is named `n`. */
  predicate HasGroup(gs: seq<Group>, n: string) {
    exists g :: 0 <= g < |gs| && gs[g].name == n
  }

  /** Some item is in category `n`. */
  predicate HasItem(items: seq<MenuItem>, n: string) {
    exists i :: 0 <= i < |items| && items[i].category == n
  }

  /** The group names never repeat, and a name has a group exactly when some
      item is in that category. */
  lemma GroupNamesDistinct(items: seq<MenuItem>, cats: seq<CategoryRecord>)
    ensures var gs := Grouped(items, cats);
            forall i, j :: 0 <= i < j < |gs| ==> gs[i].name != gs[j].name
    ensures forall n :: HasGroup(Grouped(items, cats), n) <==> HasItem(items, n)
  {
    var gs := Grouped(items, cats);
    forall n ensures HasGroup(gs, n) <==> HasItem(items, n)
    {
      if HasItem(items, n) {
        var i :| 0 <= i < |items| && items[i].category == n;
        NamesComplete(items, i);
        var g :| 0 <= g < |Names(items)| && Names(items)[g] == n;
        assert gs[g].name == n;
      }
      if HasGroup(gs, n) {
        var g :| 0 <= g < |gs| && gs[g].name == n;
        NamesSound(items, Names(items)[g]);
      }
    }
  }

  /** The response lists the same groups as the dictionary, only reordered. */
  lemma MenuPermutes(items: seq<MenuItem>, cats: seq<CategoryRecord>)
    ensures multiset(MenuCategories(items, cats)) == multiset(Grouped(items, cats))
  {
    StableSort.SortPermutes(Grouped(items, cats), GroupOrder);
  }

  /** When every group has an `order`, the response is sorted by it, and
      groups of equal `order` keep their first-appearance order. */
  lemma MenuSorted(items: seq<MenuItem>, cats: seq<CategoryRecord>, k: int)
    requires StableSort.AllKeyed(Grouped(items, cats), GroupOrder)
    ensures StableSort.AllKeyed(MenuCategories(items, cats), GroupOrder)
    ensures StableSort.SortedBy(MenuCategories(items, cats), GroupOrder)
    ensures StableSort.WithKey(MenuCategories(items, cats), GroupOrder, k)
            == StableSort.WithKey(Grouped(items, cats), GroupOrder, k)
  {
    var gs := Grouped(items, cats);
    StableSort.SortSorted(gs, GroupOrder);
    StableSort.SortStable(gs, GroupOrder, k);
  }

  /** A `getMenu` answer: status and, for 200, the sorted groups. */
  datatype MenuResponse = MenuResponse(response: Response, categories: seq<Group>)

  /** `getMenu` (all three copies): the preflight, the method gate, then the
      grouped and sorted menu. The collections are the reads' results. */
  method GetMenu(m: Method, items: seq<MenuItem>, cats: seq<CategoryRecord>) returns (r: MenuResponse)
    ensures m == OPTIONS ==> r == MenuResponse(NoContent, [])
    ensures m != OPTIONS && m != GET ==> r == MenuResponse(MethodNotAllowed, [])
    ensures m == GET ==> r.response.code == 200 && r.categories == MenuCategories(items, cats)
  {
    var gate := Gate(m, GET);
    if gate.Some? {
      return MenuResponse(gate.value, []);
    }
    var groups := GroupItems(items, cats);
    return MenuResponse(Response(200, Empty), StableSort.SortBy(groups, GroupOrder));
  }
}
