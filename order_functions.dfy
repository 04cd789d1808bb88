/** The order endpoints of the Cloud Functions: `addOrder`, which stores a
    new order with the status forced to "Pending" (the compiled copy also
    folds the legacy `customerDetails`/`items` keys into `customerInfo`/
    `orderItems`), and the admin endpoint `updateOrderStatus`. */
module OrderFunctions {
  import opened Maybe
  import opened JsonValue
  import opened Http
  import opened AdminGate
  import opened Document
  import opened FunctionsApi

  const Pending := Val(JStr("Pending"))

  /** The keys the normalisation sets or removes. */
  const Normalised: set<string> := {"customerInfo", "orderItems", "status", "createdAt", "customerDetails", "items"}

  // ---------------------------------------------------------------------
  // addOrder

  /** `functions/src/index.ts`: the body spread, `customerInfo` and
      `orderItems` set to the body's own values (so a missing one becomes
      `undefined`), the status "Pending" and the server timestamp. */
  function SourceOrder(o: Record): Record {
    o["customerInfo" := Lookup(o, "customerInfo")]["orderItems" := Lookup(o, "orderItems")]
     ["status" := Pending]["createdAt" := ServerTimestamp]
  }

  /** `functions/lib/index.js`: the same, with each canonical key falling
      back to its legacy name, and both legacy keys deleted afterwards. */
  function LegacyOrder(o: Record): Record {
    var n := o["customerInfo" := Or(Lookup(o, "customerInfo"), Lookup(o, "customerDetails"))]
              ["orderItems" := Or(Lookup(o, "orderItems"), Lookup(o, "items"))]
              ["status" := Pending]["createdAt" := ServerTimestamp];
    n - {"customerDetails", "items"}
  }

  /** The order `build` stores for the spread body `o`. */
  function StoredOrder(build: Build, o: Record): Record {
    match build
    case Source => SourceOrder(o)
    case Compiled => LegacyOrder(o)
  }

  /** `addOrder`, the same gate in both copies and open to everyone. A
      `null` body makes reading `customerInfo` throw; `ok` is the outcome of
      the store's `add` (which refuses, among others, `undefined` values). */
  function AddOrder(build: Build, m: Method, body: Option<Json>, ok: bool): Handled<Record> {
    match Gate(m, POST)
    case Some(r) => Handled(r, None)
    case None =>
      if body.None? || body.value.JNull? || !ok then Fail(500, "Error processing order")
      else Done(201, "Order received successfully", StoredOrder(build, Spread(body.value)))
  }

  /** The source copy stores every key of the body, forces the status to
      "Pending" whatever the client sent, stamps the creation time, and
      changes nothing else. */
  lemma SourceOrderSpec(o: Record)
    ensures var r := SourceOrder(o);
            && r.Keys == o.Keys + {"customerInfo", "orderItems", "status", "createdAt"}
            && r["status"] == Pending && r["createdAt"] == ServerTimestamp
            && r["customerInfo"] == Lookup(o, "customerInfo")
            && r["orderItems"] == Lookup(o, "orderItems")
            && forall k :: k in o && k != "status" && k != "createdAt" ==> r[k] == o[k]
  {
  }

  /** The compiled copy takes `customerInfo`, else `customerDetails`, and
      `orderItems`, else `items`; the legacy keys are gone; the status is
      "Pending"; every other key of the body is kept as it was. */
  lemma LegacyOrderSpec(o: Record)
    ensures var r := LegacyOrder(o);
            && r.Keys == o.Keys - {"customerDetails", "items"} + {"customerInfo", "orderItems", "status", "createdAt"}
            && "customerDetails" !in r && "items" !in r
            && r["status"] == Pending && r["createdAt"] == ServerTimestamp
            && (SlotTruthy(Lookup(o, "customerInfo")) ==> r["customerInfo"] == o["customerInfo"])
            && (!SlotTruthy(Lookup(o, "customerInfo")) ==> r["customerInfo"] == Lookup(o, "customerDetails"))
            && (SlotTruthy(Lookup(o, "orderItems")) ==> r["orderItems"] == o["orderItems"])
            && (!SlotTruthy(Lookup(o, "orderItems")) ==> r["orderItems"] == Lookup(o, "items"))
            && forall k :: k in o && k !in Normalised ==> r[k] == o[k]
  {
  }

  /** Normalising an order that the compiled copy already stored changes
      nothing, as long as both canonical fields came out truthy (a falsy one
      would be replaced by the now missing legacy key). */
  lemma LegacyOrderIdempotent(o: Record)
    requires SlotTruthy(LegacyOrder(o)["customerInfo"]) && SlotTruthy(LegacyOrder(o)["orderItems"])
    ensures LegacyOrder(LegacyOrder(o)) == LegacyOrder(o)
  {
    var r := LegacyOrder(o);
    LegacyOrderSpec(o);
    LegacyOrderSpec(r);
    assert LegacyOrder(r).Keys == r.Keys;
  }

  /** For a body that already uses the canonical names with truthy values,
      the two copies store the same order. */
  lemma CopiesAgreeOnCanonicalOrders(o: Record)
    requires "customerDetails" !in o && "items" !in o
    requires SlotTruthy(Lookup(o, "customerInfo")) && SlotTruthy(Lookup(o, "orderItems"))
    ensures LegacyOrder(o) == SourceOrder(o)
  {
    LegacyOrderSpec(o);
    SourceOrderSpec(o);
    assert LegacyOrder(o).Keys == SourceOrder(o).Keys;
  }

  /** The preflight gets 204 and other methods 405 in both copies, with no
      admin check; an order is stored only by a POST with a non-`null`
      body, always with the status "Pending", and is answered with 201. */
  lemma AddOrderSpec(build: Build, m: Method, body: Option<Json>, ok: bool)
    ensures var r := AddOrder(build, m, body, ok);
            && (m == OPTIONS ==> r == Handled(NoContent, None))
            && (m != OPTIONS && m != POST ==> r == Handled(MethodNotAllowed, None))
            && (r.write.Some? <==> m == POST && body.Some? && !body.value.JNull? && ok)
            && (r.write.Some? ==>
                  r.response == Response(201, Message("Order received successfully"))
                  && r.write.value["status"] == Pending
                  && r.write.value["createdAt"] == ServerTimestamp)
            && (m == POST && r.write.None? ==> r.response == Response(500, Message("Error processing order")))
  {
    if m == POST && body.Some? && !body.value.JNull? && ok {
      SourceOrderSpec(Spread(body.value));
      LegacyOrderSpec(Spread(body.value));
    }
  }

  // ---------------------------------------------------------------------
  // updateOrderStatus

  /** The store update: the document's id and the fields written. */
  datatype StatusPatch = StatusPatch(id: string, patch: Record)

  const StatusFailed := "Error updating order status"
  const StatusRequired := "Order ID and status are required"

  /** The handler behind the gate. Destructuring a `null` body throws; a
      falsy id or status is refused with 400; `doc(id)` throws for an id
      that is not a text; `ok` is the outcome of the store's `update`. */
  function UpdateOrderStatus(m: Method, body: Option<Json>, ok: bool): Handled<StatusPatch> {
    if m != PATCH then Handled(MethodNotAllowed, None)
    else if body.None? || body.value.JNull? then Fail(500, StatusFailed)
    else
      var id := Value(Get(body.value, "id"));
      var status := Value(Get(body.value, "status"));
      if !Truthy(id) || !Truthy(status) then Fail(400, StatusRequired)
      else if !id.value.JStr? || !ok then Fail(500, StatusFailed)
      else Done(200, "Order status updated successfully", StatusPatch(id.value.s, map["status" := Val(status.value)]))
  }

  function UpdateOrderStatusEndpoint(build: Build, m: Method, header: Option<string>, verify: string -> Verification,
                                     body: Option<Json>, ok: bool): Handled<StatusPatch> {
    Deployed(build, m, header, verify, UpdateOrderStatus(m, body, ok))
  }

  /** A missing id or status is refused with 400 and nothing is written;
      otherwise the only field written is `status`, to the body's value, on
      the document the body's id names; and in the sources nothing is
      written without the middleware's consent. */
  lemma UpdateOrderStatusSpec(build: Build, m: Method, header: Option<string>, verify: string -> Verification,
                              body: Option<Json>, ok: bool)
    ensures var r := UpdateOrderStatusEndpoint(build, m, header, verify, body, ok);
            var inner := UpdateOrderStatus(m, body, ok);
            && (m == PATCH && body.Some? && !body.value.JNull?
                && (!Truthy(Value(Get(body.value, "id"))) || !Truthy(Value(Get(body.value, "status"))))
                ==> inner == Handled(Response(400, Message(StatusRequired)), None))
            && (r.write.Some? <==>
                  (build == Source ==> IsAdmin(header, verify).allowed)
                  && m == PATCH && body.Some? && !body.value.JNull? && ok
                  && Get(body.value, "id").Defined? && Get(body.value, "id").value.JStr?
                  && Get(body.value, "id").value.s != ""
                  && Truthy(Value(Get(body.value, "status"))))
            && (r.write.Some? ==>
                  r.response == Response(200, Message("Order status updated successfully"))
                  && Get(body.value, "id") == Defined(JStr(r.write.value.id))
                  && r.write.value.patch.Keys == {"status"}
                  && r.write.value.patch["status"] == Val(Value(Get(body.value, "status")).value))
  {
    DeployedSpec(build, m, header, verify, UpdateOrderStatus(m, body, ok));
  }
}
