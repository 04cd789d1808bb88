/** The public order-status endpoint `api/getOrderStatus.ts`: the query
    parameter check, the lookup of the first order with the given short id,
    and the projection that answers with the order's progress but never with
    the customer's contact data. */
module OrderStatus {
  import opened Maybe
  import opened Seqs
  import opened Http
  import opened Cart
  import Checkout

  /** The `id` query parameter: absent, one value, or repeated (Vercel then
      hands an array). */
  datatype QueryId = NoId | OneId(text: string) | ManyIds(texts: seq<string>)

  /** An `orders` document as stored. `createdAt` is the server timestamp in
      milliseconds; the keys a legacy document lacks are `None`. */
  datatype StoredOrder = StoredOrder(shortOrderId: string, status: string,
                                     fulfillmentStatus: Option<string>, createdAt: Option<int>,
                                     items: Option<seq<Line>>, total: int, paymentMethod: string,
                                     customerDetails: Option<Checkout.Customer>,
                                     customerInfo: Option<Checkout.Customer>)

  /** One line as the endpoint returns it. */
  datatype PublicItem = PublicItem(name: string, quantity: int, price: int)

  /** The `sanitizedData` of the response. */
  datatype PublicOrder = PublicOrder(status: string, fulfillmentStatus: string, createdAt: string,
                                     items: seq<PublicItem>, total: int, paymentMethod: string,
                                     shortOrderId: string)

  /** The response, with the order for a 200. */
  datatype StatusReply = StatusReply(response: Response, order: Option<PublicOrder>)

  const DefaultFulfillment := "Pedido recibido"
  const IdRequired := "Order ID is required."
  const NotFound := "Order not found."
  const ServerError := "Internal Server Error"

  function MethodName(m: Method): string {
    match m
    case OPTIONS => "OPTIONS"
    case GET => "GET"
    case POST => "POST"
    case PUT => "PUT"
    case PATCH => "PATCH"
    case DELETE => "DELETE"
    case HEAD => "HEAD"
  }

  /** `!id || typeof id !== 'string'` fails for a missing, an empty or a
      repeated parameter; otherwise the text. */
  function ValidId(q: QueryId): (r: Option<string>)
    ensures r.Some? <==> q.OneId? && q.text != ""
    ensures r.Some? ==> r.value == q.text
  {
    match q
    case OneId(t) => if t != "" then Some(t) else None
    case _ => None
  }

  /** `where('shortOrderId', '==', id)`: the matching documents, in the order
      the store returns them. */
  function Matching(store: seq<StoredOrder>, id: string): seq<StoredOrder> {
    Filter(store, (o: StoredOrder) => o.shortOrderId == id)
  }

  function PublicLine(l: Line): PublicItem {
    PublicItem(l.name, l.quantity, l.price)
  }

  /** The projection; `None` when `createdAt.toDate()` or `items.map` throws
      on a document lacking the key. `isoText` is the date formatting. */
  function Project(o: StoredOrder, isoText: int -> string): Option<PublicOrder> {
    if o.createdAt.None? || o.items.None? then None
    else
      var lines := o.items.value;
      Some(PublicOrder(
        o.status,
        if o.fulfillmentStatus.Some? && o.fulfillmentStatus.value != "" then o.fulfillmentStatus.value
        else DefaultFulfillment,
        isoText(o.createdAt.value),
        seq(|lines|, i requires 0 <= i < |lines| => PublicLine(lines[i])),
        o.total, o.paymentMethod, o.shortOrderId))
  }

  /** The handler. */
  function GetOrderStatus(m: Method, q: QueryId, store: seq<StoredOrder>, isoText: int -> string): StatusReply {
    if m != GET then
      StatusReply(Response(405, Message("Method " + MethodName(m) + " Not Allowed")), None)
    else if ValidId(q).None? then
      StatusReply(Response(400, Message(IdRequired)), None)
    else
      var found := Matching(store, ValidId(q).value);
      if found == [] then StatusReply(Response(404, Message(NotFound)), None)
      else match Project(found[0], isoText)
        case None => StatusReply(Response(500, Message(ServerError)), None)
        case Some(p) => StatusReply(Response(200, Empty), Some(p))
  }

  /** The projection keeps the progress fields, defaults a missing or empty
      fulfilment status to "Pedido recibido", and returns every line, in
      order, as exactly its name, quantity and price. */
  lemma ProjectSpec(o: StoredOrder, isoText: int -> string)
    ensures Project(o, isoText).Some? <==> o.createdAt.Some? && o.items.Some?
    ensures Project(o, isoText).Some? ==>
              var p := Project(o, isoText).value;
              && p.status == o.status && p.total == o.total && p.paymentMethod == o.paymentMethod
              && p.shortOrderId == o.shortOrderId
              && p.createdAt == isoText(o.createdAt.value)
              && ((o.fulfillmentStatus == None || o.fulfillmentStatus == Some("")) ==> p.fulfillmentStatus == DefaultFulfillment)
              && (o.fulfillmentStatus.Some? && o.fulfillmentStatus.value != "" ==> p.fulfillmentStatus == o.fulfillmentStatus.value)
              && |p.items| == |o.items.value|
              && forall i :: 0 <= i < |p.items| ==>
                   p.items[i].name == o.items.value[i].name
                   && p.items[i].quantity == o.items.value[i].quantity
                   && p.items[i].price == o.items.value[i].price
  {
  }

  /** The answer never depends on the customer's contact data: two stores
      whose documents differ only in it get the same answer. */
  lemma NoContactData(m: Method, q: QueryId, s1: seq<StoredOrder>, s2: seq<StoredOrder>, isoText: int -> string)
    requires |s1| == |s2|
    requires forall i :: 0 <= i < |s1| ==>
               s1[i].(customerDetails := None, customerInfo := None) == s2[i].(customerDetails := None, customerInfo := None)
    ensures GetOrderStatus(m, q, s1, isoText) == GetOrderStatus(m, q, s2, isoText)
  {
    if m == GET && ValidId(q).Some? {
      var id := ValidId(q).value;
      MatchingAgree(s1, s2, id);
      var f1, f2 := Matching(s1, id), Matching(s2, id);
      if f1 != [] {
        assert f1[0].(customerDetails := None, customerInfo := None)
               == f2[0].(customerDetails := None, customerInfo := None);
      }
    }
  }

  /** Stores that agree apart from contact data match at the same places. */
  lemma {:induction false} MatchingAgree(s1: seq<StoredOrder>, s2: seq<StoredOrder>, id: string)
    requires |s1| == |s2|
    requires forall i :: 0 <= i < |s1| ==>
               s1[i].(customerDetails := None, customerInfo := None) == s2[i].(customerDetails := None, customerInfo := None)
    ensures |Matching(s1, id)| == |Matching(s2, id)|
    ensures forall i :: 0 <= i < |Matching(s1, id)| ==>
              Matching(s1, id)[i].(customerDetails := None, customerInfo := None)
              == Matching(s2, id)[i].(customerDetails := None, customerInfo := None)
  {
    if s1 != [] {
      assert s1[0].(customerDetails := None, customerInfo := None).shortOrderId == s1[0].shortOrderId;
      assert s2[0].(customerDetails := None, customerInfo := None).shortOrderId == s2[0].shortOrderId;
      MatchingAgree(s1[1..], s2[1..], id);
    }
  }

  /** The decision chain: a method other than GET gets 405 and a bad id 400,
      both whatever the store holds; an id no document carries gets 404;
      otherwise the answer is the projection of the first document with the
      id, whose short id is the one asked for. */
  lemma GetOrderStatusSpec(m: Method, q: QueryId, store: seq<StoredOrder>, isoText: int -> string)
    ensures var r := GetOrderStatus(m, q, store, isoText);
            && (m != GET ==> r.response.code == 405 && r.order.None?)
            && (m == GET && ValidId(q).None? ==> r == StatusReply(Response(400, Message(IdRequired)), None))
            && (m == GET && q.OneId? && q.text != "" ==>
                  ((forall i :: 0 <= i < |store| ==> store[i].shortOrderId != q.text)
                     <==> r.response.code == 404))
            && (r.response.code == 200 ==>
                  m == GET && q.OneId? && r.order.Some?
                  && r.order.value.shortOrderId == q.text
                  && exists i :: 0 <= i < |store| && store[i].shortOrderId == q.text
                                 && Project(store[i], isoText) == r.order
                                 && forall j :: 0 <= j < i ==> store[j].shortOrderId != q.text)
  {
    var r := GetOrderStatus(m, q, store, isoText);
    if m == GET && q.OneId? && q.text != "" {
      var id := q.text;
      var keep := (o: StoredOrder) => o.shortOrderId == id;
      if forall i :: 0 <= i < |store| ==> store[i].shortOrderId != id {
        FilterDropsAll(store, keep);
      } else {
        var k :| 0 <= k < |store| && store[k].shortOrderId == id;
        FilterMembership(store, keep, store[k]);
        FirstMatch(store, id);
      }
    }
  }

  /** The first matching document is the first document with the id. */
  lemma {:induction false} FirstMatch(store: seq<StoredOrder>, id: string)
    requires Matching(store, id) != []
    ensures exists i :: 0 <= i < |store| && store[i] == Matching(store, id)[0]
                        && store[i].shortOrderId == id
                        && forall j :: 0 <= j < i ==> store[j].shortOrderId != id
  {
    if store[0].shortOrderId != id {
      FirstMatch(store[1..], id);
      var i :| 0 <= i < |store[1..]| && store[1..][i] == Matching(store[1..], id)[0]
               && store[1..][i].shortOrderId == id
               && forall j :: 0 <= j < i ==> store[1..][j].shortOrderId != id;
      assert store[i + 1] == Matching(store, id)[0];
      assert forall j :: 0 < j < i + 1 ==> store[j] == store[1..][j - 1];
    } else {
      assert store[0] == Matching(store, id)[0];
    }
  }
}
