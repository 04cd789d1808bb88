/** What the two Wompi event handlers share once an event is trusted: the
    order id carried in the payment reference, the status it maps to, and
    the write they ask of the store. */
module Reconcile {
  import opened Maybe
  import opened JsString
  import opened JsonValue
  import opened Http

  const ReferencePrefix := "kebab_"

  /** The patch a handler applies to `orders/<orderId>`: `api/wompiWebhook.ts`
      sets only `status`; `api/wompi.ts` also sets `wompiTransactionId`,
      which is `None` when the transaction carries no `id`. */
  datatype Patch =
    | StatusPatch(orderId: string, status: string)
    | StatusAndTransaction(orderId: string, status: string, transactionId: Option<Json>)
  {
    function OrderId(): string {
      match this
      case StatusPatch(id, _) => id
      case StatusAndTransaction(id, _, _) => id
    }
    function Status(): string {
      match this
      case StatusPatch(_, s) => s
      case StatusAndTransaction(_, s, _) => s
    }
  }

  /** A handler's answer together with the write it attempted, if any. */
  datatype Reaction = Reaction(response: Response, write: Option<Patch>)

  /** The answer of the catch-all `catch` block. */
  const Crash := Reaction(Response(500, Message("Error processing webhook")), None)

  /** The outcome of `reference.split('kebab_')[1]`: the element (`None` when
      the split has no second piece), or a thrown `TypeError`. */
  datatype Extracted = OrderIdText(id: Option<string>) | ExtractThrows

  /** `s.split('kebab_')[1]` on a string reference. */
  function OrderIdIn(reference: string): Option<string> {
    Piece(reference, ReferencePrefix, 1)
  }

  /** `transaction.reference?.split('kebab_')[1]` (`api/wompi.ts`): a missing
      or null reference yields `undefined`; a reference that is not a string
      has no `split` and throws. */
  function OrderIdOptional(reference: Option<Json>): (r: Extracted)
    ensures r.ExtractThrows? <==> reference.Some? && !reference.value.JNull? && !reference.value.JStr?
  {
    match reference
    case None => OrderIdText(None)
    case Some(JNull) => OrderIdText(None)
    case Some(JStr(s)) => OrderIdText(OrderIdIn(s))
    case Some(_) => ExtractThrows
  }

  /** `transaction.reference.split('kebab_')[1]` (`api/wompiWebhook.ts`):
      without optional chaining anything but a string throws. */
  function OrderIdStrict(reference: Option<Json>): (r: Extracted)
    ensures r.ExtractThrows? <==> !(reference.Some? && reference.value.JStr?)
  {
    match reference
    case Some(JStr(s)) => OrderIdText(OrderIdIn(s))
    case _ => ExtractThrows
  }

  /** `transaction.status === 'APPROVED' ? 'Approved' : 'Declined'` */
  function NewStatus(status: Option<Json>): (r: string)
    ensures r == "Approved" || r == "Declined"
    ensures r == "Approved" <==> status == Some(JStr("APPROVED"))
  {
    if status == Some(JStr("APPROVED")) then "Approved" else "Declined"
  }

  /** The reference the checkout builds for an order id is read back as that
      id, provided the id does not itself contain `kebab_`. */
  lemma ReferenceRoundTrip(orderId: string)
    requires !Includes(orderId, ReferencePrefix)
    ensures OrderIdIn(ReferencePrefix + orderId) == Some(orderId)
    ensures OrderIdOptional(Some(JStr(ReferencePrefix + orderId))) == OrderIdText(Some(orderId))
    ensures OrderIdStrict(Some(JStr(ReferencePrefix + orderId))) == OrderIdText(Some(orderId))
  {
    SplitAfterPrefix(ReferencePrefix, orderId);
  }

  /** A reference without `kebab_` in it yields no order id. */
  lemma ForeignReference(reference: string)
    requires !Includes(reference, ReferencePrefix)
    ensures OrderIdIn(reference) == None
  {
    SplitFree(reference, ReferencePrefix);
  }

  /** The extracted id never holds `kebab_` itself. */
  lemma ExtractedIdFree(reference: string)
    requires OrderIdIn(reference).Some?
    ensures !Includes(OrderIdIn(reference).value, ReferencePrefix)
  {
    SplitPiecesFree(reference, ReferencePrefix, 1);
  }
}
