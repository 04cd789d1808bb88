/** Placing an order from `CheckoutPage.jsx`: validation, the counter
    transaction that allocates the next short order id and writes the order,
    and the Wompi payment hand-off. The Firestore transaction is one atomic
    step of `OrderStore.PlaceOrder`; the generated document id, the widget's
    presence, the signature endpoint's reply and the widget's result are
    parameters. */
module Checkout {
  import opened Maybe
  import opened JsString
  import opened Cart
  import OutboundSignature

  /** The contact form. */
  datatype Customer = Customer(name: string, email: string, address: string, phone: string)

  /** The document the transaction writes (`createdAt` is a server
      timestamp and is not modelled). */
  datatype Order = Order(shortOrderId: string, customerDetails: Customer, items: seq<Line>,
                         total: int, paymentMethod: string, status: string,
                         fulfillmentStatus: string)

  /** Where the page has navigated to. */
  datatype Location = AtCheckout | AtSuccess | AtRejected

  /** What `new window.WidgetCheckout(...)` is opened with. */
  datatype Widget = Widget(currency: string, amountInCents: int, reference: string,
                           integrity: string, email: string, fullName: string,
                           phoneNumber: string, phoneNumberPrefix: string)

  /** The reply of `/api/getWompiSignature`: the signature, or a failure whose
      body may carry an `error` text. */
  datatype SignatureReply = Signed(signature: string) | SignFailed(error: Option<string>)

  const EmptyCartError := "El carrito está vacío."
  const MissingFieldsError := "Por favor, completa todos los campos de contacto."
  const NoCounterError := "Counter document does not exist!"
  const NoWidgetError := "El widget de Wompi no se ha cargado correctamente. Por favor, recarga la página."
  const SignatureError := "Error al generar la firma de pago."
  const OrderFailedError := "Ocurrió un error al realizar el pedido."

  /** The checks `handleSubmit` makes before touching the store. */
  function SubmitError(cart: seq<Line>, c: Customer): (r: Option<string>)
    ensures r.None? <==> |cart| > 0 && c.name != "" && c.address != "" && c.phone != "" && c.email != ""
    ensures |cart| == 0 ==> r == Some(EmptyCartError)
    ensures |cart| > 0 && r.Some? ==> r == Some(MissingFieldsError)
  {
    if |cart| == 0 then Some(EmptyCartError)
    else if c.name == "" || c.address == "" || c.phone == "" || c.email == "" then Some(MissingFieldsError)
    else None
  }

  /** The order payload for the allocated id. */
  function NewOrder(newId: int, c: Customer, cart: seq<Line>, paymentMethod: string): Order {
    Order(IntToString(newId), c, cart, Total(cart), paymentMethod, "Pending", "Pedido recibido")
  }

  /** `kebab_${orderId}` */
  function PaymentReference(orderId: string): (r: string)
    ensures |r| == 6 + |orderId| && r[6..] == orderId
  {
    "kebab_" + orderId
  }

  /** The widget configuration for the document id and the cart. */
  function WidgetFor(orderId: string, cart: seq<Line>, c: Customer, signature: string): Widget {
    Widget("COP", Total(cart) * 100, PaymentReference(orderId), signature, c.email, c.name, c.phone, "+57")
  }

  /** The message shown when the signature request fails: the body's
      `error`, unless it is missing or empty. */
  function SignFailureText(error: Option<string>): (r: string)
    ensures r != ""
    ensures error.Some? && error.value != "" ==> r == error.value
  {
    match error
    case Some(e) => if e != "" then e else SignatureError
    case None => SignatureError
  }

  /** The message shown when the transaction is rejected: the error's
      `message`, unless it is empty. */
  function TransactionFailureText(message: string): (r: string)
    ensures r != ""
    ensures message != "" ==> r == message
    ensures message == "" ==> r == OrderFailedError
  {
    if message != "" then message else OrderFailedError
  }

  /** The two documents the transaction touches: the `counters/orders`
      counter (`None` when the document does not exist) and the `orders`
      collection keyed by document id. `issued` records, in order, every id
      this store has handed out. */
  class OrderStore {
    var lastId: Option<int>
    var orders: map<string, Order>
    ghost var issued: seq<int>

    /** Every id handed out is below or at the counter, and they increase. */
    ghost predicate Valid()
      reads this
    {
      (|issued| > 0 ==> lastId.Some?)
      && (forall i :: 0 <= i < |issued| ==> issued[i] <= lastId.value)
      && Increasing(issued)
    }

    constructor(counter: Option<int>, existing: map<string, Order>)
      ensures lastId == counter && orders == existing && issued == []
      ensures Valid()
    {
      lastId, orders, issued := counter, existing, [];
    }

    /** The transaction of `handleSubmit`: a missing counter aborts with no
        write; otherwise the counter goes to `lastId + 1` and the order with
        that short id is stored under the generated `docId`, which names no
        existing order. `committed` is whether the store accepts the commit
        (security rules or the network may refuse it); a refused commit
        writes nothing. */
    method PlaceOrder(c: Customer, cart: seq<Line>, paymentMethod: string, docId: string, committed: bool)
      returns (r: Placement)
      requires Valid() && docId !in orders
      modifies this
      ensures Valid()
      ensures old(lastId).None? ==> r == NoCounter
      ensures old(lastId).Some? && !committed ==> r == Refused
      ensures !r.Placed? ==> lastId == old(lastId) && orders == old(orders) && issued == old(issued)
      ensures r.Placed? <==> old(lastId).Some? && committed
      ensures r.Placed? ==>
                && r.id == old(lastId).value + 1
                && lastId == Some(r.id)
                && orders == old(orders)[docId := NewOrder(r.id, c, cart, paymentMethod)]
                && |orders| == |old(orders)| + 1
                && issued == old(issued) + [r.id]
    {
      if lastId.None? {
        return NoCounter;
      }
      if !committed {
        return Refused;
      }
      var newId := lastId.value + 1;
      lastId := Some(newId);
      orders := orders[docId := NewOrder(newId, c, cart, paymentMethod)];
      issued := issued + [newId];
      return Placed(newId);
    }
  }

  /** How the counter transaction ended. */
  datatype Placement = Placed(id: int) | NoCounter | Refused

  /** Strictly increasing. */
  ghost predicate Increasing(s: seq<int>) {
    forall i, j :: 0 <= i < j < |s| ==> s[i] < s[j]
  }

  /** Ids handed out in increasing order never repeat a short order id. */
  lemma IssuedIdsDistinct(issued: seq<int>, i: nat, j: nat)
    requires Increasing(issued) && i < j < |issued|
    ensures IntToString(issued[i]) != IntToString(issued[j])
  {
    if IntToString(issued[i]) == IntToString(issued[j]) {
      IntToStringInjective(issued[i], issued[j]);
    }
  }

  /** The order placed for a cart carries the fixed initial statuses, the
      cart itself as its items, the cart's total and the allocated id. */
  lemma NewOrderContents(newId: int, c: Customer, cart: seq<Line>, paymentMethod: string)
    requires newId >= 0
    ensures var o := NewOrder(newId, c, cart, paymentMethod);
            o.status == "Pending" && o.fulfillmentStatus == "Pedido recibido"
            && o.items == cart && o.total == Total(cart) && o.paymentMethod == paymentMethod
            && o.customerDetails == c
            && DigitsValue(o.shortOrderId) == newId
  {
    NatToStringRoundTrip(newId);
  }

  /** The widget is opened in pesos with the cart's total in cents, under the
      reference `kebab_<document id>`, and the signature the endpoint computes
      for that reference and the cart's total hashes exactly the widget's
      reference, amount and currency. */
  lemma WidgetMatchesSignature(orderId: string, cart: seq<Line>, c: Customer, signature: string, secret: string)
    ensures var w := WidgetFor(orderId, cart, c, signature);
            w.currency == "COP" && w.amountInCents == Total(cart) * 100
            && w.reference == "kebab_" + orderId
            && OutboundSignature.Preimage(w.reference, Total(cart), secret)
               == w.reference + IntToString(w.amountInCents) + w.currency + secret
  {
  }

  /** The checkout page's state. */
  class CheckoutPage {
    var cart: seq<Line>
    var customer: Customer
    var paymentMethod: string
    var isSubmitting: bool
    var error: Option<string>
    var location: Location
    var widget: Option<Widget>

    constructor(cart0: seq<Line>, c: Customer, pm: string)
      ensures cart == cart0 && customer == c && paymentMethod == pm
      ensures !isSubmitting && error.None? && location == AtCheckout && widget.None?
    {
      cart, customer, paymentMethod := cart0, c, pm;
      isSubmitting, error, location, widget := false, None, AtCheckout, None;
    }

    /** `handleSubmit`. `docId` is the id Firestore generates for the new
        order document; `rejection` is `Some(message)` when the store refuses
        the commit with that error message; `widgetLoaded` and `reply` stand
        for `window.WidgetCheckout` and the signature endpoint. */
    method HandleSubmit(store: OrderStore, docId: string, rejection: Option<string>,
                        widgetLoaded: bool, reply: SignatureReply)
      requires store.Valid() && docId !in store.orders
      modifies this, store
      ensures store.Valid()
      ensures cart == old(cart) || cart == []
      ensures customer == old(customer) && paymentMethod == old(paymentMethod)
      // rejected before any transaction or write
      ensures SubmitError(old(cart), customer).Some? ==>
                error == SubmitError(old(cart), customer) && !isSubmitting
                && cart == old(cart) && location == old(location) && widget == old(widget)
                && unchanged(store)
      // a missing counter aborts with nothing written
      ensures SubmitError(old(cart), customer).None? && old(store.lastId).None? ==>
                error == Some(NoCounterError) && !isSubmitting && cart == old(cart)
                && location == old(location) && widget == old(widget)
                && store.lastId.None? && store.orders == old(store.orders)
      // a refused commit reports the store's message and writes nothing
      ensures SubmitError(old(cart), customer).None? && old(store.lastId).Some? && rejection.Some? ==>
                error == Some(TransactionFailureText(rejection.value)) && !isSubmitting && cart == old(cart)
                && location == old(location) && widget == old(widget)
                && store.lastId == old(store.lastId) && store.orders == old(store.orders)
      // otherwise the order is written with the next id
      ensures SubmitError(old(cart), customer).None? && old(store.lastId).Some? && rejection.None? ==>
                store.lastId == Some(old(store.lastId).value + 1)
                && store.orders == old(store.orders)[docId := NewOrder(old(store.lastId).value + 1, customer, old(cart), paymentMethod)]
      // cash and other non-wompi methods: clear and go to success
      ensures SubmitError(old(cart), customer).None? && old(store.lastId).Some? && rejection.None? && paymentMethod != "wompi" ==>
                cart == [] && location == AtSuccess && error.None? && isSubmitting
      // wompi: open the widget, or report why it could not be opened
      ensures SubmitError(old(cart), customer).None? && old(store.lastId).Some? && rejection.None? && paymentMethod == "wompi" ==>
                cart == old(cart) && location == old(location)
                && (!widgetLoaded ==> error == Some(NoWidgetError) && !isSubmitting && widget == old(widget))
                && (widgetLoaded && reply.SignFailed? ==>
                      error == Some(SignFailureText(reply.error)) && !isSubmitting && widget == old(widget))
                && (widgetLoaded && reply.Signed? ==>
                      widget == Some(WidgetFor(docId, cart, customer, reply.signature))
                      && error.None? && isSubmitting)
    {
      error := None;
      isSubmitting := true;
      var invalid := SubmitError(cart, customer);
      if invalid.Some? {
        error := invalid;
        isSubmitting := false;
        return;
      }
      var placed := store.PlaceOrder(customer, cart, paymentMethod, docId, rejection.None?);
      match placed {
        case NoCounter =>
          error := Some(NoCounterError);
          isSubmitting := false;
          return;
        case Refused =>
          error := Some(TransactionFailureText(rejection.value));
          isSubmitting := false;
          return;
        case Placed(_) =>
      }
      if paymentMethod == "wompi" {
        HandleWompiPayment(docId, widgetLoaded, reply);
        return;
      }
      cart := [];
      location := AtSuccess;
    }

    /** `handleWompiPayment` up to opening the widget. */
    method HandleWompiPayment(orderId: string, widgetLoaded: bool, reply: SignatureReply)
      modifies this
      ensures cart == old(cart) && customer == old(customer) && paymentMethod == old(paymentMethod)
      ensures location == old(location)
      ensures !widgetLoaded ==> error == Some(NoWidgetError) && !isSubmitting && widget == old(widget)
      ensures widgetLoaded && reply.SignFailed? ==>
                error == Some(SignFailureText(reply.error)) && !isSubmitting && widget == old(widget)
      ensures widgetLoaded && reply.Signed? ==>
                widget == Some(WidgetFor(orderId, cart, customer, reply.signature))
                && error == old(error) && isSubmitting == old(isSubmitting)
    {
      if !widgetLoaded {
        error := Some(NoWidgetError);
        isSubmitting := false;
        return;
      }
      match reply {
        case SignFailed(e) =>
          error := Some(SignFailureText(e));
          isSubmitting := false;
        case Signed(signature) =>
          widget := Some(WidgetFor(orderId, cart, customer, signature));
      }
    }

    /** The widget's result callback: an approved transaction clears the cart
        and goes to the success page; any other status goes to the rejected
        page and keeps the cart. */
    method OnWidgetResult(status: string)
      modifies this
      ensures status == "APPROVED" ==> cart == [] && location == AtSuccess
      ensures status != "APPROVED" ==> cart == old(cart) && location == AtRejected
      ensures error == old(error) && isSubmitting == old(isSubmitting) && widget == old(widget)
      ensures customer == old(customer) && paymentMethod == old(paymentMethod)
    {
      if status == "APPROVED" {
        cart := [];
        location := AtSuccess;
      } else {
        location := AtRejected;
      }
    }
  }
}
