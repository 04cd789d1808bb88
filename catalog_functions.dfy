/** The catalogue endpoints of `functions/src/index.ts` and
    `functions/lib/index.js`: the per-document endpoints `manageMenuItem` and
    `manageHeroSlide`, which take the document id from the request path; the
    field whitelists of `addMenuItem` and `addCategory`; the `type` default of
    `addHeroSlide`; and the batch loops of `updateMenuOrder` and
    `updateCategoryOrder`. Each store call's success is a parameter. */
module CatalogFunctions {
  import opened Maybe
  import opened JsString
  import opened Seqs
  import opened JsonValue
  import opened Http
  import opened AdminGate
  import opened Document
  import opened FunctionsApi
  import Menu
  import MenuAdmin

  // ---------------------------------------------------------------------
  // The id in the path

  /** `req.path.split('/').filter(Boolean)` */
  function Segments(path: string): seq<string> {
    Filter(Split(path, "/"), (p: string) => p != "")
  }

  /** `pathSegments[pathSegments.length - 1]`, `undefined` when there is no
      segment. */
  function PathId(path: string): Option<string> {
    var segs := Segments(path);
    if segs == [] then None else Some(segs[|segs| - 1])
  }

  /** There is no id exactly when every piece between slashes is empty. */
  lemma PathIdNone(path: string)
    ensures PathId(path).None? <==> forall i :: 0 <= i < |Split(path, "/")| ==> Split(path, "/")[i] == ""
  {
    var ps := Split(path, "/");
    var keep := (p: string) => p != "";
    if forall i :: 0 <= i < |ps| ==> ps[i] == "" {
      FilterDropsAll(ps, keep);
      assert Segments(path) == [];
      assert PathId(path).None?;
    } else {
      var i :| 0 <= i < |ps| && ps[i] != "";
      FilterMembership(ps, keep, ps[i]);
      assert ps[i] in Segments(path);
      assert 0 <= i < |Split(path, "/")| && Split(path, "/")[i] != "";
      assert !(forall j :: 0 <= j < |Split(path, "/")| ==> Split(path, "/")[j] == "");
    }
  }

  /** Otherwise the id is a non-empty piece without a slash, and every
      piece after it is empty: the last non-empty piece. */
  lemma PathIdLast(path: string)
    requires PathId(path).Some?
    ensures var ps := Split(path, "/");
            && PathId(path).value != "" && !Includes(PathId(path).value, "/")
            && exists i :: 0 <= i < |ps| && ps[i] == PathId(path).value
                           && forall j :: i < j < |ps| ==> ps[j] == ""
  {
    var ps := Split(path, "/");
    var keep := (p: string) => p != "";
    FilterLast(ps, keep);
    var i :| 0 <= i < |ps| && ps[i] == PathId(path).value && keep(ps[i])
             && forall j :: i < j < |ps| ==> !keep(ps[j]);
    SplitPiecesFree(path, "/", i);
  }

  /** The id after the last slash comes back, with or without a trailing
      slash, whatever stands before it. */
  lemma PathIdAfter(prefix: string, id: string)
    requires id != "" && '/' !in id
    ensures PathId(prefix + "/" + id) == Some(id)
    ensures PathId(prefix + "/" + id + "/") == Some(id)
  {
    var keep := (p: string) => p != "";
    var p1 := prefix + "/" + id;
    SplitLastChar(prefix, '/', id);
    FilterConcat(Split(prefix, "/"), [id], keep);
    assert Filter([id], keep) == [id];
    assert p1 + "/" == p1 + ['/'] + "";
    SplitLastChar(p1, '/', "");
    FilterConcat(Split(p1, "/"), [""], keep);
    assert Filter([""], keep) == [];
  }

  /** The admin page's edit request reaches the document it edits. */
  lemma EditReachesItsItem(item: Menu.MenuItem, form: MenuAdmin.ProductForm, menuLength: nat,
                           parseFloat: string -> int, parseInt: string -> int)
    requires item.id != "" && '/' !in item.id
    ensures PathId(MenuAdmin.SubmitItem(Some(item), form, menuLength, parseFloat, parseInt).url) == Some(item.id)
  {
    var base := MenuAdmin.FunctionsBase + "manageMenuItem";
    assert MenuAdmin.FunctionsBase + "manageMenuItem/" + item.id == base + "/" + item.id;
    PathIdAfter(base, item.id);
  }

  // ---------------------------------------------------------------------
  // manageMenuItem and manageHeroSlide

  datatype Collection = HeroSlides | MenuItems

  /** A write to one document. */
  datatype DocWrite = UpdateDoc(id: string, data: Json) | DeleteDoc(id: string)

  function NotFoundText(c: Collection): string {
    match c case HeroSlides => "Slide not found" case MenuItems => "Item not found"
  }

  function UpdatedText(c: Collection): string {
    match c case HeroSlides => "Slide updated successfully" case MenuItems => "Item updated successfully"
  }

  function DeletedText(c: Collection): string {
    match c case HeroSlides => "Slide deleted successfully" case MenuItems => "Item deleted successfully"
  }

  function ManageErrorText(c: Collection, id: string): string {
    match c
    case HeroSlides => "Error managing hero slide " + id
    case MenuItems => "Error managing menu item " + id
  }

  /** The handler behind the gate: the id first, then the method. `found`
      says whether the document exists, `ok` whether the store call
      succeeded. */
  function Manage(c: Collection, m: Method, path: string, body: Option<Json>, found: bool, ok: bool): Handled<DocWrite> {
    match PathId(path)
    case None => Fail(400, "ID is required")
    case Some(id) =>
      if m == GET then
        (if !ok then Fail(500, ManageErrorText(c, id))
         else if !found then Fail(404, NotFoundText(c))
         else Handled(Response(200, Empty), None))
      else if m == PUT then
        (if body.None? || !ok then Fail(500, ManageErrorText(c, id))
         else Done(200, UpdatedText(c), UpdateDoc(id, body.value)))
      else if m == DELETE then
        (if !ok then Fail(500, ManageErrorText(c, id))
         else Done(200, DeletedText(c), DeleteDoc(id)))
      else Handled(MethodNotAllowed, None)
  }

  /** The deployed endpoint. */
  function ManageEndpoint(build: Build, c: Collection, m: Method, header: Option<string>,
                          verify: string -> Verification, path: string, body: Option<Json>,
                          found: bool, ok: bool): Handled<DocWrite> {
    Deployed(build, m, header, verify, Manage(c, m, path, body, found, ok))
  }

  /** Only PUT and DELETE write, and only to the document the path names;
      a path without an id gets 400 once past the gate; the sources never
      answer the preflight with 204, the compiled copy always does. */
  lemma ManageSpec(build: Build, c: Collection, m: Method, header: Option<string>,
                   verify: string -> Verification, path: string, body: Option<Json>, found: bool, ok: bool)
    ensures var r := ManageEndpoint(build, c, m, header, verify, path, body, found, ok);
            && (r.write.Some? ==>
                  PathId(path).Some?
                  && (m == PUT ==> r.write.value == UpdateDoc(PathId(path).value, body.value))
                  && (m == DELETE ==> r.write.value == DeleteDoc(PathId(path).value))
                  && (m == PUT || m == DELETE)
                  && (build == Source ==> IsAdmin(header, verify).allowed))
            && ((PathId(path).None? && (build == Source ==> IsAdmin(header, verify).allowed)
                 && (build == Compiled ==> m != OPTIONS)) ==> r == Fail(400, "ID is required"))
            && (build == Source && m == OPTIONS ==> r.response.code != 204 && r.write.None?)
            && (build == Compiled && m == OPTIONS ==> r.response == NoContent)
  {
  }

  // ---------------------------------------------------------------------
  // addMenuItem

  /** The fields `addMenuItem` copies into the new document. */
  const ItemKeys: set<string> := {"name", "description", "price", "category", "image", "kcal"}

  /** The document `addMenuItem` writes: every whitelisted key, with the
      body's value or `undefined`. */
  function Whitelist(o: Record): Record {
    map k | k in ItemKeys :: Lookup(o, k)
  }

  function AddMenuItem(m: Method, body: Option<Json>, ok: bool): Handled<Record> {
    if m != POST then Handled(MethodNotAllowed, None)
    else if body.None? || body.value.JNull? || !ok then Fail(500, "Error adding menu item")
    else Done(201, "Item added successfully", Whitelist(Spread(body.value)))
  }

  function AddMenuItemEndpoint(build: Build, m: Method, header: Option<string>, verify: string -> Verification,
                               body: Option<Json>, ok: bool): Handled<Record> {
    Deployed(build, m, header, verify, AddMenuItem(m, body, ok))
  }

  /** The new document holds exactly the six whitelisted keys, each with the
      body's value; anything else the body carries, `order` included, is
      dropped. */
  lemma AddMenuItemSpec(build: Build, m: Method, header: Option<string>, verify: string -> Verification,
                        body: Option<Json>, ok: bool)
    ensures var r := AddMenuItemEndpoint(build, m, header, verify, body, ok);
            r.write.Some? ==>
              && m == POST && body.Some?
              && r.write.value.Keys == ItemKeys
              && (forall k :: k in ItemKeys ==> r.write.value[k] == Lookup(Spread(body.value), k))
              && "order" !in r.write.value && "id" !in r.write.value
              && r.response.code == 201
  {
  }

  /** A field list entry for a value `JSON.stringify` writes only when it is
      defined. */
  function OptField(k: string, v: Option<int>): seq<(string, Json)> {
    if v.Some? then [(k, JInt(v.value))] else []
  }

  /** The text the admin page sends for a product, as `JSON.parse` reads it
      back. */
  function ItemBodyJson(b: MenuAdmin.ItemBody): Json {
    JObj([("name", JStr(b.name)), ("description", JStr(b.description)), ("price", JInt(b.price)),
          ("category", JStr(b.category)), ("image", JStr(b.image))]
         + OptField("kcal", b.kcal) + OptField("order", b.order))
  }

  /** The record `addMenuItem` hands to the store for a new product sent by
      the admin page. */
  function NewProductRecord(form: MenuAdmin.ProductForm, menuLength: nat,
                            parseFloat: string -> int, parseInt: string -> int): Record {
    Whitelist(Spread(ItemBodyJson(MenuAdmin.SubmitItem(None, form, menuLength, parseFloat, parseInt).body)))
  }

  /** A product created from the admin page reaches the store without the
      `order` the page gave it (the list's length); when the calories were
      left empty its `kcal` is `undefined`, and the record is storable
      exactly when the calories were filled in. */
  lemma NewProductLosesOrder(form: MenuAdmin.ProductForm, menuLength: nat,
                             parseFloat: string -> int, parseInt: string -> int)
    ensures var req := MenuAdmin.SubmitItem(None, form, menuLength, parseFloat, parseInt);
            var rec := NewProductRecord(form, menuLength, parseFloat, parseInt);
            && req.m == POST && req.body.order == Some(menuLength)
            && "order" !in rec
            && Lookup(rec, "name") == Val(JStr(form.name))
            && Lookup(rec, "category") == Val(JStr(form.category))
            && (Lookup(rec, "kcal") == Undef <==> form.kcal == "")
            && (Storable(rec) <==> form.kcal != "")
            && (Storable(rec) ==> AddMenuItem(req.m, Some(ItemBodyJson(req.body)), true).write == Some(rec))
  {
    var req := MenuAdmin.SubmitItem(None, form, menuLength, parseFloat, parseInt);
    ProductRecord(req.body);
  }

  /** The record `addMenuItem` builds from a product's JSON: no `order`, the
      body's name and category, and `kcal` defined, and the record
      storable, exactly when the product has calories. */
  lemma ProductRecord(b: MenuAdmin.ItemBody)
    ensures var rec := Whitelist(Spread(ItemBodyJson(b)));
            && "order" !in rec
            && Lookup(rec, "name") == Val(JStr(b.name)) && Lookup(rec, "category") == Val(JStr(b.category))
            && (Lookup(rec, "kcal") == Undef <==> b.kcal.None?)
            && (Storable(rec) <==> b.kcal.Some?)
  {
    ItemBodyJsonFields(b);
    ItemBodyJsonPresent(b);
    WhitelistOf(Spread(ItemBodyJson(b)), b);
  }

  /** The same, for any spread body holding the product's fields. */
  lemma WhitelistOf(o: Record, b: MenuAdmin.ItemBody)
    requires Lookup(o, "name") == Val(JStr(b.name)) && Lookup(o, "category") == Val(JStr(b.category))
    requires Lookup(o, "description").Val? && Lookup(o, "price").Val? && Lookup(o, "image").Val?
    requires b.kcal.None? ==> Lookup(o, "kcal") == Undef
    requires b.kcal.Some? ==> Lookup(o, "kcal").Val?
    ensures var rec := Whitelist(o);
            && "order" !in rec
            && Lookup(rec, "name") == Val(JStr(b.name)) && Lookup(rec, "category") == Val(JStr(b.category))
            && (Lookup(rec, "kcal") == Undef <==> b.kcal.None?)
            && (Storable(rec) <==> b.kcal.Some?)
  {
    var rec := Whitelist(o);
    assert "kcal" in rec && rec["kcal"] == Lookup(o, "kcal");
  }

  /** As written: a product whose calories were left empty reaches the store
      with an `undefined` field, the store refuses it, and the endpoint
      answers 500 with nothing created. */
  lemma EmptyCaloriesRefused(form: MenuAdmin.ProductForm, menuLength: nat,
                             parseFloat: string -> int, parseInt: string -> int)
    requires form.kcal == ""
    ensures var req := MenuAdmin.SubmitItem(None, form, menuLength, parseFloat, parseInt);
            var rec := NewProductRecord(form, menuLength, parseFloat, parseInt);
            && !Storable(rec)
            && AddMenuItem(req.m, Some(ItemBodyJson(req.body)), Storable(rec))
               == Fail(500, "Error adding menu item")
  {
    NewProductLosesOrder(form, menuLength, parseFloat, parseInt);
  }

  /** `addMenuItem` as evidently intended: the whitelisted fields, with the
      `undefined` ones left out. */
  function AddMenuItemFixed(m: Method, body: Option<Json>, ok: bool): Handled<Record> {
    if m != POST then Handled(MethodNotAllowed, None)
    else if body.None? || body.value.JNull? || !ok then Fail(500, "Error adding menu item")
    else Done(201, "Item added successfully", DefinedOnly(Whitelist(Spread(body.value))))
  }

  /** Corrected: every product the admin page sends is storable and is
      created with 201, carrying `kcal` exactly when the calories were
      filled in, and never the page's `order`. */
  lemma EmptyCaloriesFixed(form: MenuAdmin.ProductForm, menuLength: nat,
                           parseFloat: string -> int, parseInt: string -> int)
    ensures var req := MenuAdmin.SubmitItem(None, form, menuLength, parseFloat, parseInt);
            var rec := DefinedOnly(NewProductRecord(form, menuLength, parseFloat, parseInt));
            && Storable(rec)
            && AddMenuItemFixed(req.m, Some(ItemBodyJson(req.body)), Storable(rec))
               == Done(201, "Item added successfully", rec)
            && ("kcal" in rec <==> form.kcal != "")
            && "order" !in rec
            && Lookup(rec, "name") == Val(JStr(form.name)) && Lookup(rec, "category") == Val(JStr(form.category))
  {
    NewProductLosesOrder(form, menuLength, parseFloat, parseInt);
  }

  /** The description, price, image and, when given, the calories of the
      product's JSON are all defined. */
  lemma ItemBodyJsonPresent(b: MenuAdmin.ItemBody)
    ensures var o := Spread(ItemBodyJson(b));
            && Lookup(o, "description").Val? && Lookup(o, "price").Val? && Lookup(o, "image").Val?
            && (b.kcal.Some? ==> Lookup(o, "kcal").Val?)
  {
    var fs := ItemBodyJson(b).fields;
    assert fs[1].0 == "description" && fs[2].0 == "price" && fs[4].0 == "image";
    if b.kcal.Some? {
      assert fs[5].0 == "kcal";
    }
  }

  /** What `addMenuItem` keeps of the spread body. */
  lemma AddedProduct(o: Record)
    ensures "order" !in Whitelist(o)
    ensures "name" in Whitelist(o) && Whitelist(o)["name"] == Lookup(o, "name")
    ensures "category" in Whitelist(o) && Whitelist(o)["category"] == Lookup(o, "category")
    ensures "kcal" in Whitelist(o) && Whitelist(o)["kcal"] == Lookup(o, "kcal")
  {
  }

  /** The name, category and calories the product's JSON carries. */
  lemma ItemBodyJsonFields(b: MenuAdmin.ItemBody)
    ensures Field(ItemBodyJson(b).fields, "name") == Some(JStr(b.name))
    ensures Field(ItemBodyJson(b).fields, "category") == Some(JStr(b.category))
    ensures b.kcal.None? ==> Field(ItemBodyJson(b).fields, "kcal").None?
    ensures var o := Spread(ItemBodyJson(b));
            && Lookup(o, "name") == Val(JStr(b.name)) && Lookup(o, "category") == Val(JStr(b.category))
            && (b.kcal.None? ==> Lookup(o, "kcal") == Undef)
  {
    var base := [("name", JStr(b.name)), ("description", JStr(b.description)), ("price", JInt(b.price)),
                 ("category", JStr(b.category)), ("image", JStr(b.image))];
    var kcal, order := OptField("kcal", b.kcal), OptField("order", b.order);
    var fs := base + kcal + order;
    assert fs == ItemBodyJson(b).fields;
    forall i | 0 <= i < |fs|
      ensures fs[i].0 == "name" ==> i == 0
      ensures fs[i].0 == "category" ==> i == 3
      ensures fs[i].0 == "kcal" ==> b.kcal.Some?
    {
      if i < |base| {
        assert fs[i] == base[i];
      } else if i < |base| + |kcal| {
        assert fs[i] == kcal[i - |base|];
      } else {
        assert fs[i] == order[i - |base| - |kcal|];
      }
    }
    FieldIs(fs, "name", JStr(b.name), 0);
    FieldIs(fs, "category", JStr(b.category), 3);
  }

  // ---------------------------------------------------------------------
  // addCategory

  function AddCategory(m: Method, body: Option<Json>, ok: bool): Handled<Record> {
    if m != POST then Handled(MethodNotAllowed, None)
    else if body.None? || body.value.JNull? then Fail(500, "Error creating category")
    else
      var name := Lookup(Spread(body.value), "name");
      if !SlotTruthy(name) then Fail(400, "Category name is required")
      else if !ok then Fail(500, "Error creating category")
      else Done(201, "Category created successfully", map["name" := name])
  }

  function AddCategoryEndpoint(build: Build, m: Method, header: Option<string>, verify: string -> Verification,
                               body: Option<Json>, ok: bool): Handled<Record> {
    Deployed(build, m, header, verify, AddCategory(m, body, ok))
  }

  /** A missing or empty name is refused with 400 and nothing is written;
      otherwise the new document holds the name and nothing else. */
  lemma AddCategorySpec(build: Build, m: Method, header: Option<string>, verify: string -> Verification,
                        body: Option<Json>, ok: bool)
    ensures var r := AddCategoryEndpoint(build, m, header, verify, body, ok);
            && (r.write.Some? ==>
                  m == POST && body.Some?
                  && r.write.value == map["name" := Lookup(Spread(body.value), "name")]
                  && SlotTruthy(r.write.value["name"]))
            && (m == POST && body.Some? && !body.value.JNull? && !SlotTruthy(Lookup(Spread(body.value), "name"))
                && (build == Source ==> IsAdmin(header, verify).allowed) ==>
                  r == Fail(400, "Category name is required"))
  {
  }

  /** A category created from the admin page is stored without the `order`
      the page sent, so it reads back with no order. */
  lemma NewCategoryLosesOrder(name: string, categoriesLength: nat)
    requires name != ""
    ensures var b := MenuAdmin.SubmitCategory(name, categoriesLength).value;
            AddCategory(POST, Some(JObj([("name", JStr(b.name)), ("order", JInt(b.order))])), true).write
              == Some(map["name" := Val(JStr(name))])
  {
    var fs := [("name", JStr(name)), ("order", JInt(categoriesLength))];
    assert Field(fs, "name") == Some(JStr(name));
  }

  // ---------------------------------------------------------------------
  // addHeroSlide

  /** `if (!newSlideData.type) newSlideData.type = 'horizontal'` */
  function WithDefaultType(o: Record): Record {
    if SlotTruthy(Lookup(o, "type")) then o else o["type" := Val(JStr("horizontal"))]
  }

  /** Assigning `type` on a body that is not an object throws, and the store
      refuses an array. */
  function AddHeroSlide(m: Method, body: Option<Json>, ok: bool): Handled<Record> {
    if m != POST then Handled(MethodNotAllowed, None)
    else if body.None? || !body.value.JObj? || !ok then Fail(500, "Error processing slide")
    else Done(201, "Slide added successfully", WithDefaultType(Spread(body.value)))
  }

  function AddHeroSlideEndpoint(build: Build, m: Method, header: Option<string>, verify: string -> Verification,
                                body: Option<Json>, ok: bool): Handled<Record> {
    Deployed(build, m, header, verify, AddHeroSlide(m, body, ok))
  }

  /** The stored slide keeps every field of the body, except that a missing
      or empty `type` becomes "horizontal"; a present one is kept. */
  lemma AddHeroSlideSpec(build: Build, m: Method, header: Option<string>, verify: string -> Verification,
                         body: Option<Json>, ok: bool)
    ensures var r := AddHeroSlideEndpoint(build, m, header, verify, body, ok);
            r.write.Some? ==>
              var o := Spread(body.value);
              && m == POST && body.value.JObj?
              && (SlotTruthy(Lookup(o, "type")) ==> r.write.value == o)
              && (!SlotTruthy(Lookup(o, "type")) ==> r.write.value["type"] == Val(JStr("horizontal")))
              && SlotTruthy(r.write.value["type"])
              && r.write.value.Keys == o.Keys + {"type"}
              && (forall k :: k in o && k != "type" ==> r.write.value[k] == o[k])
  {
  }

  // ---------------------------------------------------------------------
  // updateMenuOrder and updateCategoryOrder

  /** One `batch.update(doc(id), {order})`. */
  datatype OrderUpdate = OrderUpdate(id: string, order: Slot)

  /** The update for one element of the body; `None` when `doc(element.id)`
      throws (a `null` element, or an id that is not a non-empty text). */
  function EntryUpdate(e: Json): Option<OrderUpdate> {
    match Get(e, "id")
    case Defined(JStr(s)) => if s != "" then Some(OrderUpdate(s, Prop(e, "order"))) else None
    case _ => None
  }

  /** The batch the `forEach` builds, or `None` when it throws. */
  function OrderUpdates(entries: seq<Json>): Option<seq<OrderUpdate>> {
    if forall i :: 0 <= i < |entries| ==> EntryUpdate(entries[i]).Some? then
      Some(seq(|entries|, i requires 0 <= i < |entries| => EntryUpdate(entries[i]).value))
    else None
  }

  /** The `forEach` over the body, adding one update per element. */
  method CollectUpdates(entries: seq<Json>) returns (batch: Option<seq<OrderUpdate>>)
    ensures batch == OrderUpdates(entries)
  {
    var updates: seq<OrderUpdate> := [];
    for i := 0 to |entries|
      invariant |updates| == i
      invariant forall j :: 0 <= j < i ==> EntryUpdate(entries[j]).Some? && updates[j] == EntryUpdate(entries[j]).value
    {
      var u := EntryUpdate(entries[i]);
      if u.None? {
        return None;
      }
      updates := updates + [u.value];
    }
    assert updates == seq(|entries|, i requires 0 <= i < |entries| => EntryUpdate(entries[i]).value);
    return Some(updates);
  }

  /** An element whose `id` is a non-empty text, which `doc(id)` accepts. */
  predicate NamesDocument(e: Json) {
    Get(e, "id").Defined? && Get(e, "id").value.JStr? && Get(e, "id").value.s != ""
  }

  /** The batch succeeds exactly when every element names a document; it
      then holds one update per element, in order, setting that document's
      `order` to the element's `order` and nothing else. */
  lemma OrderUpdatesSpec(entries: seq<Json>)
    ensures OrderUpdates(entries).Some? <==> forall i :: 0 <= i < |entries| ==> NamesDocument(entries[i])
    ensures OrderUpdates(entries).Some? ==>
              var u := OrderUpdates(entries).value;
              && |u| == |entries|
              && forall i :: 0 <= i < |u| ==>
                   Get(entries[i], "id") == Defined(JStr(u[i].id)) && u[i].order == Prop(entries[i], "order")
  {
    forall i | 0 <= i < |entries|
      ensures EntryUpdate(entries[i]).Some? <==> NamesDocument(entries[i])
      ensures EntryUpdate(entries[i]).Some? ==>
                Get(entries[i], "id") == Defined(JStr(EntryUpdate(entries[i]).value.id))
                && EntryUpdate(entries[i]).value.order == Prop(entries[i], "order")
    {
    }
  }

  /** The two batch endpoints: `updateMenuOrder` over `menu` and
      `updateCategoryOrder` over `categories`. */
  datatype Ordered = MenuOrder | CategoryOrder

  /** The success and failure texts of each batch endpoint. */
  function BatchTexts(c: Ordered): (string, string) {
    match c
    case MenuOrder => ("Order updated successfully", "Error updating menu order")
    case CategoryOrder => ("Category order updated successfully", "Error updating category order")
  }

  /** The handler behind the gate. `committed` is the batch commit's outcome
      (the store refuses, among others, an `order` that is `undefined`). */
  function UpdateOrder(c: Ordered, m: Method, body: Option<Json>, committed: bool): Handled<seq<OrderUpdate>> {
    var (success, failure) := BatchTexts(c);
    if m != POST then Handled(MethodNotAllowed, None)
    else if body.None? || !body.value.JArr? then Fail(500, failure)
    else match OrderUpdates(body.value.elems)
      case None => Fail(500, failure)
      case Some(u) => if committed then Done(200, success, u) else Fail(500, failure)
  }

  /** The deployed endpoint, running the batch loop. */
  method UpdateOrderEndpoint(build: Build, c: Ordered, m: Method, header: Option<string>,
                             verify: string -> Verification, body: Option<Json>, committed: bool)
    returns (r: Handled<seq<OrderUpdate>>)
    ensures r == Deployed(build, m, header, verify, UpdateOrder(c, m, body, committed))
  {
    var (success, failure) := BatchTexts(c);
    var inner: Handled<seq<OrderUpdate>>;
    if m != POST {
      inner := Handled(MethodNotAllowed, None);
    } else if body.None? || !body.value.JArr? {
      inner := Fail(500, failure);
    } else {
      var batch := CollectUpdates(body.value.elems);
      if batch.None? || !committed {
        inner := Fail(500, failure);
      } else {
        inner := Done(200, success, batch.value);
      }
    }
    r := Deployed(build, m, header, verify, inner);
  }

  /** A batch is written only by a POST whose body is a list in which every
      element names a document, and only when the commit succeeds; the
      answer is then 200 and the write is one update per element. Any other
      POST gets the endpoint's 500. */
  lemma UpdateOrderSpec(c: Ordered, m: Method, body: Option<Json>, committed: bool)
    ensures var r := UpdateOrder(c, m, body, committed);
            && (m != POST ==> r == Handled(MethodNotAllowed, None))
            && (r.write.Some? <==>
                  m == POST && body.Some? && body.value.JArr? && committed
                  && forall i :: 0 <= i < |body.value.elems| ==> NamesDocument(body.value.elems[i]))
            && (r.write.Some? ==>
                  r.response == Response(200, Message(BatchTexts(c).0))
                  && |r.write.value| == |body.value.elems|
                  && forall i :: 0 <= i < |r.write.value| ==>
                       Get(body.value.elems[i], "id") == Defined(JStr(r.write.value[i].id))
                       && r.write.value[i].order == Prop(body.value.elems[i], "order"))
            && (m == POST && r.write.None? ==> r.response == Response(500, Message(BatchTexts(c).1)))
  {
    if m == POST && body.Some? && body.value.JArr? {
      OrderUpdatesSpec(body.value.elems);
    }
  }

  /** A menu item as `JSON.stringify` sends it in the admin page's list. */
  function ItemJson(it: Menu.MenuItem): Json {
    JObj([("id", JStr(it.id)), ("name", JStr(it.name)), ("description", JStr(it.description)),
          ("price", JInt(it.price)), ("category", JStr(it.category)), ("image", JStr(it.image))]
         + OptField("kcal", it.kcal) + OptField("order", it.order))
  }

  function OrderSlot(order: Option<int>): Slot {
    if order.Some? then Val(JInt(order.value)) else Undef
  }

  /** The id and the order a product's JSON carries. */
  lemma ItemJsonFields(it: Menu.MenuItem)
    ensures Field(ItemJson(it).fields, "id") == Some(JStr(it.id))
    ensures Field(ItemJson(it).fields, "order") == if it.order.Some? then Some(JInt(it.order.value)) else None
  {
    var base := [("id", JStr(it.id)), ("name", JStr(it.name)), ("description", JStr(it.description)),
                 ("price", JInt(it.price)), ("category", JStr(it.category)), ("image", JStr(it.image))];
    var kcal, order := OptField("kcal", it.kcal), OptField("order", it.order);
    var fs := base + kcal + order;
    assert fs == ItemJson(it).fields;
    forall i | 0 <= i < |fs|
      ensures fs[i].0 == "id" ==> i == 0
      ensures fs[i].0 == "order" ==> i == |fs| - 1 && it.order.Some?
    {
      if i < |base| {
        assert fs[i] == base[i];
      } else if i < |base| + |kcal| {
        assert fs[i] == kcal[i - |base|];
      } else {
        assert fs[i] == order[i - |base| - |kcal|];
      }
    }
    FieldIs(fs, "id", JStr(it.id), 0);
    if it.order.Some? {
      FieldIs(fs, "order", JInt(it.order.value), |fs| - 1);
    }
  }

  /** Saving the product list writes each product's `order` to its own
      document. */
  lemma SavedItemOrders(items: seq<Menu.MenuItem>)
    requires forall i :: 0 <= i < |items| ==> items[i].id != ""
    ensures OrderUpdates(seq(|items|, i requires 0 <= i < |items| => ItemJson(items[i])))
            == Some(seq(|items|, i requires 0 <= i < |items| => OrderUpdate(items[i].id, OrderSlot(items[i].order))))
  {
    var es := seq(|items|, i requires 0 <= i < |items| => ItemJson(items[i]));
    forall i | 0 <= i < |items|
      ensures EntryUpdate(es[i]) == Some(OrderUpdate(items[i].id, OrderSlot(items[i].order)))
    {
      ItemJsonFields(items[i]);
    }
    assert OrderUpdates(es).Some?;
    assert OrderUpdates(es).value == seq(|items|, i requires 0 <= i < |items| => OrderUpdate(items[i].id, OrderSlot(items[i].order)));
  }

  /** After a drag and a save, the product at position `i` of the list gets
      `order` `i` in the store. */
  lemma DraggedOrderSaved(items: seq<Menu.MenuItem>, active: string, over: string)
    requires active in MenuAdmin.ItemIds(items) && over != active
    requires forall i :: 0 <= i < |items| ==> items[i].id != ""
    ensures var r := MenuAdmin.DragItems(items, active, Some(over)).value;
            var u := OrderUpdates(seq(|r|, i requires 0 <= i < |r| => ItemJson(r[i])));
            && u.Some? && |u.value| == |r|
            && forall i :: 0 <= i < |r| ==> u.value[i] == OrderUpdate(r[i].id, Val(JInt(i)))
  {
    MenuAdmin.DragItemsSpec(items, active, Some(over));
    var r := MenuAdmin.DragItems(items, active, Some(over)).value;
    forall i | 0 <= i < |r| ensures r[i].id != "" {
      assert MenuAdmin.ItemIds(r)[i] == r[i].id;
      assert r[i].id in multiset(MenuAdmin.ItemIds(r));
      var j :| 0 <= j < |items| && MenuAdmin.ItemIds(items)[j] == r[i].id;
    }
    SavedItemOrders(r);
  }
}
