/** The order list of `AdminDashboard.jsx`: the documents of `orders` read
    with their ids and normalised so that legacy documents (contact data
    under `customerDetails`, lines under `items`) show like current ones,
    the search-and-status filter the table renders, and the local patch
    applied after a status change has been written. */
module AdminDashboard {
  import opened Maybe
  import opened JsString
  import opened Seqs
  import opened Cart
  import Checkout

  /** An `orders` document as the dashboard holds it: its id, the contact
      data under the current and the legacy key, the lines under the current
      and the legacy key, and its status. A key the document lacks is
      `None`. */
  datatype OrderRow = OrderRow(id: string, customerInfo: Option<Checkout.Customer>,
                               customerDetails: Option<Checkout.Customer>,
                               orderItems: Option<seq<Line>>, items: Option<seq<Line>>,
                               status: string)

  /** `a || b` on values that are objects or arrays when present: both are
      always truthy, so only a missing `a` falls back to `b`. */
  function Either<T>(a: Option<T>, b: Option<T>): Option<T> {
    if a.Some? then a else b
  }

  /** One document after the `map` that follows the read. */
  function Normalize(o: OrderRow): OrderRow {
    o.(customerInfo := Either(o.customerInfo, o.customerDetails),
       orderItems := Either(o.orderItems, o.items))
  }

  function NormalizeAll(orders: seq<OrderRow>): (r: seq<OrderRow>)
    ensures |r| == |orders|
    ensures forall i :: 0 <= i < |orders| ==> r[i] == Normalize(orders[i])
  {
    seq(|orders|, i requires 0 <= i < |orders| => Normalize(orders[i]))
  }

  /** The current keys win, the legacy keys fill in only where the current
      ones are missing, nothing else changes, a current document is left as
      it was, and normalising twice is normalising once. */
  lemma NormalizeSpec(o: OrderRow)
    ensures o.customerInfo.Some? ==> Normalize(o).customerInfo == o.customerInfo
    ensures o.customerInfo.None? ==> Normalize(o).customerInfo == o.customerDetails
    ensures o.orderItems.Some? ==> Normalize(o).orderItems == o.orderItems
    ensures o.orderItems.None? ==> Normalize(o).orderItems == o.items
    ensures Normalize(o).id == o.id && Normalize(o).status == o.status
    ensures Normalize(o).customerDetails == o.customerDetails && Normalize(o).items == o.items
    ensures o.customerInfo.Some? && o.orderItems.Some? ==> Normalize(o) == o
    ensures Normalize(Normalize(o)) == Normalize(o)
  {
  }

  /** The document `CheckoutPage` writes, read back under the id the store
      gave it: contact data and lines only under the legacy keys. */
  function FromCheckout(id: string, o: Checkout.Order): OrderRow {
    OrderRow(id, None, Some(o.customerDetails), None, Some(o.items), o.status)
  }

  /** Orders placed by the checkout show their customer and their lines
      once normalised. */
  lemma CheckoutOrdersNormalize(id: string, o: Checkout.Order)
    ensures Normalize(FromCheckout(id, o)).customerInfo == Some(o.customerDetails)
    ensures Normalize(FromCheckout(id, o)).orderItems == Some(o.items)
  {
  }

  /** `order.customerInfo.name.toLowerCase()` throws for an order without
      contact data; the filter reads it for every order. */
  predicate HasContact(o: OrderRow) {
    o.customerInfo.Some?
  }

  /** The search part of the test: the name, the phone or the id contains the
      term, all lower-cased. */
  predicate MatchesTerm(o: OrderRow, term: string) {
    o.customerInfo.Some?
    && (Includes(ToLower(o.customerInfo.value.name), ToLower(term))
        || Includes(ToLower(o.customerInfo.value.phone), ToLower(term))
        || Includes(ToLower(o.id), ToLower(term)))
  }

  /** The status part of the test. */
  predicate MatchesStatus(o: OrderRow, statusFilter: string) {
    statusFilter == "All" || o.status == statusFilter
  }

  predicate Shown(o: OrderRow, term: string, statusFilter: string) {
    MatchesTerm(o, term) && MatchesStatus(o, statusFilter)
  }

  /** `filteredOrders`; `None` when rendering throws because some order has
      no contact data. */
  function FilteredOrders(orders: seq<OrderRow>, term: string, statusFilter: string): Option<seq<OrderRow>> {
    if forall i :: 0 <= i < |orders| ==> HasContact(orders[i]) then
      Some(Filter(orders, (o: OrderRow) => Shown(o, term, statusFilter)))
    else None
  }

  /** The list fails to render exactly when an order has no contact data;
      otherwise an order is shown exactly when it matches both the search
      term and the status filter, and the shown orders keep their order. */
  lemma FilteredSpec(orders: seq<OrderRow>, term: string, statusFilter: string)
    ensures FilteredOrders(orders, term, statusFilter).None?
            <==> exists i :: 0 <= i < |orders| && !HasContact(orders[i])
    ensures FilteredOrders(orders, term, statusFilter).Some? ==>
              var shown := FilteredOrders(orders, term, statusFilter).value;
              && (forall o :: o in shown <==> o in orders && MatchesTerm(o, term) && MatchesStatus(o, statusFilter))
              && IsSubsequence(shown, orders)
  {
    var keep := (o: OrderRow) => Shown(o, term, statusFilter);
    forall o ensures o in Filter(orders, keep) <==> o in orders && keep(o) {
      FilterMembership(orders, keep, o);
    }
    FilterIsSubsequence(orders, keep);
  }

  /** Every text contains the empty text. */
  lemma IncludesEmpty(s: string)
    ensures Includes(s, ToLower(""))
  {
    assert ToLower("") == "";
    assert StartsWith(s, "");
  }

  /** With an empty search and the filter on `'All'`, every order is shown. */
  lemma EmptySearchShowsAll(orders: seq<OrderRow>)
    requires forall i :: 0 <= i < |orders| ==> HasContact(orders[i])
    ensures FilteredOrders(orders, "", "All") == Some(orders)
  {
    forall i | 0 <= i < |orders| ensures Shown(orders[i], "", "All") {
      IncludesEmpty(ToLower(orders[i].customerInfo.value.name));
    }
    FilterKeepsAll(orders, (o: OrderRow) => Shown(o, "", "All"));
  }

  /** After normalisation the list renders as long as every document has its
      contact data under one of the two keys, which orders from the checkout
      do. */
  lemma NormalizedOrdersRender(orders: seq<OrderRow>, term: string, statusFilter: string)
    requires forall i :: 0 <= i < |orders| ==>
               orders[i].customerInfo.Some? || orders[i].customerDetails.Some?
    ensures FilteredOrders(NormalizeAll(orders), term, statusFilter).Some?
  {
  }

  /** The local update after `updateDoc` succeeded; when it failed the list
      is kept. */
  function ChangeStatus(orders: seq<OrderRow>, orderId: string, newStatus: string, written: bool): seq<OrderRow> {
    if !written then orders
    else seq(|orders|, i requires 0 <= i < |orders| =>
               if orders[i].id == orderId then orders[i].(status := newStatus) else orders[i])
  }

  /** A status change touches only the orders with the id, and of those only
      the status; a failed write changes nothing. */
  lemma ChangeStatusSpec(orders: seq<OrderRow>, orderId: string, newStatus: string, written: bool)
    ensures |ChangeStatus(orders, orderId, newStatus, written)| == |orders|
    ensures written ==> forall i :: 0 <= i < |orders| ==>
              (orders[i].id == orderId ==> ChangeStatus(orders, orderId, newStatus, written)[i]
                                             == orders[i].(status := newStatus))
              && (orders[i].id != orderId ==> ChangeStatus(orders, orderId, newStatus, written)[i] == orders[i])
    ensures !written ==> ChangeStatus(orders, orderId, newStatus, written) == orders
  {
  }

  /** After a successful change, the changed order shows under a filter on
      its new status and an empty search. */
  lemma ChangedOrderShown(orders: seq<OrderRow>, orderId: string, newStatus: string, k: nat)
    requires k < |orders| && orders[k].id == orderId
    requires forall i :: 0 <= i < |orders| ==> HasContact(orders[i])
    ensures var after := ChangeStatus(orders, orderId, newStatus, true);
            && FilteredOrders(after, "", newStatus).Some?
            && after[k] in FilteredOrders(after, "", newStatus).value
            && after[k].status == newStatus
  {
    var after := ChangeStatus(orders, orderId, newStatus, true);
    assert HasContact(after[k]);
    IncludesEmpty(ToLower(after[k].customerInfo.value.name));
    FilterMembership(after, (o: OrderRow) => Shown(o, "", newStatus), after[k]);
  }
}
