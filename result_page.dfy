/** The payment result page of `ResultPage.jsx`: after the Wompi redirect it
    looks the order up by transaction id at most ten times, stopping at the
    first lookup that settles the payment. The store's answers are an oracle
    indexed by attempt; the one-second sleeps between attempts are not
    modelled. */
module PaymentResult {
  import opened Maybe
  import Cart

  /** One `getDocs` of the orders whose `wompiTransactionId` is the id: no
      match, the first match's `status` (`None` when it has none), or a
      failure with its message. */
  datatype Lookup = NoMatch | Match(status: Option<string>) | LookupFailed(message: string)

  /** What `checkStatus` concludes from one lookup. */
  datatype Verdict = StillPending | Paid | Refused | Broken(message: string)

  datatype Location = Here | AtSuccess | AtRejected

  const MaxChecks: nat := 10
  const NoIdError := "No se encontró un ID de transacción."
  const LookupErrorPrefix := "Error al verificar el estado del pedido: "
  const UnconfirmedError := "No se pudo confirmar el estado del pago. Por favor, contacta a soporte."

  /** `checkStatus` without its effects. */
  function Classify(l: Lookup): (v: Verdict)
    ensures v == Paid <==> l.Match? && (l.status == Some("Approved") || l.status == Some("APPROVED"))
    ensures v == Refused <==> l.Match? && (l.status == Some("Declined") || l.status == Some("DECLINED") || l.status == Some("ERROR"))
    ensures v.Broken? <==> l.LookupFailed?
    ensures v.Broken? ==> v.message == l.message
  {
    match l
    case NoMatch => StillPending
    case LookupFailed(m) => Broken(m)
    case Match(s) =>
      if s == Some("Approved") || s == Some("APPROVED") then Paid
      else if s == Some("Declined") || s == Some("DECLINED") || s == Some("ERROR") then Refused
      else StillPending
  }

  /** Where polling ends: the deciding verdict (`StillPending` when every
      attempt was pending) and how many lookups were made. */
  datatype PollEnd = PollEnd(verdict: Verdict, checks: nat)

  /** `pollForStatus` from attempt `i` on. */
  function PollFrom(answer: nat -> Lookup, i: nat): PollEnd
    requires i <= MaxChecks
    decreases MaxChecks - i
  {
    if i == MaxChecks then PollEnd(StillPending, i)
    else if Classify(answer(i)) == StillPending then PollFrom(answer, i + 1)
    else PollEnd(Classify(answer(i)), i + 1)
  }

  /** Polling from attempt `i` makes between one and `10 - i` lookups (none
      when there are no attempts left); it stops at the first lookup that
      is not pending, and ends pending only when every remaining attempt
      was. */
  lemma {:induction false} PollShape(answer: nat -> Lookup, i: nat)
    requires i <= MaxChecks
    ensures var p := PollFrom(answer, i);
            i <= p.checks <= MaxChecks
            && (i < MaxChecks ==> i < p.checks)
            && (forall k :: i <= k < p.checks - 1 ==> Classify(answer(k)) == StillPending)
            && (p.verdict != StillPending ==> p.checks > i && Classify(answer(p.checks - 1)) == p.verdict)
            && (p.verdict == StillPending <==>
                  p.checks == MaxChecks && forall k :: i <= k < MaxChecks ==> Classify(answer(k)) == StillPending)
    decreases MaxChecks - i
  {
    if i < MaxChecks && Classify(answer(i)) == StillPending {
      PollShape(answer, i + 1);
    }
  }

  /** Payment is taken as made only when some lookup, within the ten, saw
      `Approved` or `APPROVED`. */
  lemma PaidOnlyIfSeen(answer: nat -> Lookup)
    requires PollFrom(answer, 0).verdict == Paid
    ensures exists k :: 0 <= k < MaxChecks
              && answer(k).Match? && (answer(k).status == Some("Approved") || answer(k).status == Some("APPROVED"))
  {
    PollShape(answer, 0);
    var k := PollFrom(answer, 0).checks - 1;
    assert Classify(answer(k)) == Paid;
  }

  /** The page's state: its `status` and `error`, where it navigated to, the
      cart of the cart context, and how many lookups it has made. */
  class ResultPage {
    var status: string
    var error: Option<string>
    var location: Location
    var cart: seq<Cart.Line>
    var checks: nat

    constructor(cart0: seq<Cart.Line>)
      ensures status == "processing" && error.None? && location == Here && cart == cart0 && checks == 0
    {
      status, error, location, cart, checks := "processing", None, Here, cart0, 0;
    }

    /** `checkStatus`: one lookup and its effects; the result says whether
        polling should stop. */
    method CheckStatus(l: Lookup) returns (done: bool)
      modifies this
      ensures done <==> Classify(l) != StillPending
      ensures checks == old(checks) + 1
      ensures Classify(l) == Paid ==>
                cart == [] && location == AtSuccess && status == old(status) && error == old(error)
      ensures Classify(l) == Refused ==>
                cart == old(cart) && location == AtRejected && status == old(status) && error == old(error)
      ensures Classify(l).Broken? ==>
                cart == old(cart) && location == old(location)
                && status == "error" && error == Some(LookupErrorPrefix + l.message)
      ensures Classify(l) == StillPending ==>
                cart == old(cart) && location == old(location) && status == old(status) && error == old(error)
    {
      checks := checks + 1;
      var v := Classify(l);
      match v {
        case StillPending =>
          return false;
        case Paid =>
          cart := [];
          location := AtSuccess;
        case Refused =>
          location := AtRejected;
        case Broken(m) =>
          error := Some(LookupErrorPrefix + m);
          status := "error";
      }
      return true;
    }

    /** The mount effect: no transaction id is an error with no lookup at
        all; otherwise poll, and when ten lookups settle nothing, report
        that the payment could not be confirmed. */
    method OnMount(transactionId: Option<string>, answer: nat -> Lookup)
      modifies this
      ensures old(checks) <= checks <= old(checks) + MaxChecks
      ensures transactionId.None? || transactionId.value == "" ==>
                checks == old(checks) && status == "error" && error == Some(NoIdError)
                && cart == old(cart) && location == old(location)
      ensures transactionId.Some? && transactionId.value != "" ==>
                var p := PollFrom(answer, 0);
                checks == old(checks) + p.checks
                && (p.verdict == Paid ==>
                      cart == [] && location == AtSuccess && status == old(status) && error == old(error))
                && (p.verdict == Refused ==>
                      cart == old(cart) && location == AtRejected && status == old(status) && error == old(error))
                && (p.verdict.Broken? ==>
                      cart == old(cart) && location == old(location)
                      && status == "error" && error == Some(LookupErrorPrefix + p.verdict.message))
                && (p.verdict == StillPending ==>
                      cart == old(cart) && location == old(location)
                      && status == "error" && error == Some(UnconfirmedError))
    {
      if transactionId.None? || transactionId.value == "" {
        error := Some(NoIdError);
        status := "error";
        return;
      }
      PollShape(answer, 0);
      for i := 0 to MaxChecks
        invariant PollFrom(answer, 0) == PollFrom(answer, i)
        invariant checks == old(checks) + i
        invariant cart == old(cart) && location == old(location)
        invariant status == old(status) && error == old(error)
      {
        var done := CheckStatus(answer(i));
        if done {
          return;
        }
      }
      error := Some(UnconfirmedError);
      status := "error";
    }
  }
}
