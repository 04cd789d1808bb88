/** Who may call the administrative endpoints: the `isAdmin` middleware of
    `functions/src/index.ts`, which every admin Cloud Function runs before
    its own code, and the stricter header check of `api/setAdminClaim.ts`,
    which grants the `admin` claim. Firebase Auth is an oracle: `verify`
    stands for `verifyIdToken`, `lookup` for `getUserByEmail`. */
module AdminGate {
  import opened Maybe
  import opened JsString
  import opened JsonValue
  import opened Http

  /** What `verifyIdToken` does with a token: it rejects it, or decodes it
      into claims whose `admin` entry may be missing. */
  datatype Verification = Rejected | Decoded(admin: Option<Json>)

  const Bearer := "Bearer "

  /** `header?.split('Bearer ')[1]`: the text after the first `Bearer ` up to
      the next one, wherever in the header it stands. */
  function BearerToken(header: Option<string>): Option<string> {
    match header
    case None => None
    case Some(h) => Piece(h, Bearer, 1)
  }

  /** For a header written as `Bearer <token>`, the token comes back. */
  lemma BearerTokenRoundTrip(token: string)
    requires !Includes(token, Bearer)
    ensures BearerToken(Some(Bearer + token)) == Some(token)
  {
    SplitAfterPrefix(Bearer, token);
  }

  /** The middleware's decision, with the token it handed to the verifier
      (`None` when it did not call it). */
  datatype GateDecision = GateDecision(allowed: bool, verified: Option<string>)

  /** `isAdmin`: no token (or an empty one) is refused without asking the
      verifier; otherwise the handler runs only for a token the verifier
      accepts with a truthy `admin` claim. */
  function IsAdmin(header: Option<string>, verify: string -> Verification): GateDecision {
    var token := BearerToken(header);
    if token.None? || token.value == "" then GateDecision(false, None)
    else match verify(token.value)
      case Rejected => GateDecision(false, token)
      case Decoded(admin) => GateDecision(Truthy(admin), token)
  }

  /** The middleware lets a request through exactly when it carries a
      non-empty token that verifies with a truthy `admin` claim, and it only
      ever asks the verifier about that token. */
  lemma IsAdminSpec(header: Option<string>, verify: string -> Verification)
    ensures IsAdmin(header, verify).allowed
            <==> BearerToken(header).Some? && BearerToken(header).value != ""
                 && verify(BearerToken(header).value).Decoded?
                 && Truthy(verify(BearerToken(header).value).admin)
    ensures IsAdmin(header, verify).verified.None?
            <==> BearerToken(header).None? || BearerToken(header) == Some("")
    ensures IsAdmin(header, verify).verified.Some? ==> IsAdmin(header, verify).verified == BearerToken(header)
  {
  }

  /** What an admin Cloud Function sends: the middleware's 403, or what its
      own handler decided. */
  datatype Guarded<R> = Forbidden | Ran(result: R)

  const Unauthorized := Response(403, Message("Unauthorized"))

  /** An admin endpoint: the handler's outcome `handler` (which carries the
      endpoint's store writes) is produced only when the middleware lets the
      request through. */
  function AdminOnly<R>(header: Option<string>, verify: string -> Verification, handler: R): Guarded<R> {
    if IsAdmin(header, verify).allowed then Ran(handler) else Forbidden
  }

  /** Without a bearer token, every admin endpoint answers 403 and its
      handler never runs, whatever the verifier would say. */
  lemma NoTokenNoHandler<R>(header: Option<string>, verify: string -> Verification, handler: R)
    requires header.None? || !Includes(header.value, Bearer)
    ensures AdminOnly(header, verify, handler) == Forbidden
    ensures IsAdmin(header, verify).verified.None?
  {
    if header.Some? {
      SplitFree(header.value, Bearer);
    }
  }

  // ---------------------------------------------------------------------
  // api/setAdminClaim.ts

  /** The outcome of `setAdminClaim`: the response, the token given to the
      verifier, and the uid that received `{admin: true}`. */
  datatype ClaimOutcome = ClaimOutcome(response: Response, verified: Option<string>, granted: Option<string>)

  const NoToken := Response(403, Message("Unauthorized: No token provided."))
  const NotAdmin := Response(403, Message("Unauthorized: Admin privilege required."))
  const InvalidToken := Response(403, Message("Unauthorized: Invalid token."))
  const EmailRequired := Response(400, Message("Email is required."))
  const ClaimError := Response(500, Message("Error setting admin claim"))

  function SuccessText(email: Option<Json>): string {
    "Successfully made " + TemplateText(email) + " an admin."
  }

  /** The handler. `lookup` answers `getUserByEmail` with the user's uid
      (`None` when it throws), `claimed` says whether `setCustomUserClaims`
      succeeded. */
  function SetAdminClaim(m: Method, header: Option<string>, body: Option<Json>,
                         verify: string -> Verification, lookup: Json -> Option<string>,
                         claimed: bool): ClaimOutcome {
    if m == OPTIONS then ClaimOutcome(NoContent, None, None)
    else if m != POST then ClaimOutcome(MethodNotAllowed, None, None)
    else if header.None? || !StartsWith(header.value, Bearer) then ClaimOutcome(NoToken, None, None)
    else
      var token := Piece(header.value, Bearer, 1).GetOr("");
      match verify(token)
      case Rejected => ClaimOutcome(InvalidToken, Some(token), None)
      case Decoded(admin) =>
        if !Truthy(admin) then ClaimOutcome(NotAdmin, Some(token), None)
        else if body.None? || body.value.JNull? then ClaimOutcome(ClaimError, Some(token), None)
        else
          var email := Value(Get(body.value, "email"));
          if !Truthy(email) then ClaimOutcome(EmailRequired, Some(token), None)
          else match lookup(email.value)
            case None => ClaimOutcome(ClaimError, Some(token), None)
            case Some(uid) =>
              if claimed then ClaimOutcome(Response(200, Message(SuccessText(email))), Some(token), Some(uid))
              else ClaimOutcome(ClaimError, Some(token), None)
  }

  /** A header that starts with `Bearer ` always has a piece after it. */
  lemma BearerPiece(h: string)
    requires StartsWith(h, Bearer)
    ensures Piece(h, Bearer, 1).Some?
    ensures var rest := h[|Bearer|..];
            !Includes(rest, Bearer) ==> Piece(h, Bearer, 1) == Some(rest)
  {
    assert IndexOf(h, Bearer) == Some(0);
    assert h[..0] == "";
    var rest := h[|Bearer|..];
    if !Includes(rest, Bearer) {
      SplitFree(rest, Bearer);
    }
  }

  /** The order of the checks: the preflight and the method gate come before
      any authorisation; a missing or non-`Bearer ` header is refused without
      calling the verifier; a rejected token and a token without a truthy
      `admin` claim are refused; the email is checked only after all that;
      and a claim is granted only with a 200, to the user the email names. */
  lemma SetAdminClaimSpec(m: Method, header: Option<string>, body: Option<Json>,
                          verify: string -> Verification, lookup: Json -> Option<string>, claimed: bool)
    ensures var r := SetAdminClaim(m, header, body, verify, lookup, claimed);
            && (m == OPTIONS ==> r.response == NoContent && r.verified.None?)
            && (m != OPTIONS && m != POST ==> r.response == MethodNotAllowed && r.verified.None?)
            && (m == POST && (header.None? || !StartsWith(header.value, Bearer)) ==>
                  r.response == NoToken && r.verified.None? && r.granted.None?)
            && (r.verified.Some? ==> m == POST && header.Some? && StartsWith(header.value, Bearer)
                                     && Some(r.verified.value) == Piece(header.value, Bearer, 1))
            && (r.response == EmailRequired ==>
                  r.verified.Some? && verify(r.verified.value).Decoded?
                  && Truthy(verify(r.verified.value).admin))
            && (r.granted.Some? <==> r.response.code == 200)
            && (r.granted.Some? ==>
                  r.verified.Some? && verify(r.verified.value).Decoded? && Truthy(verify(r.verified.value).admin)
                  && body.Some? && Truthy(Value(Get(body.value, "email")))
                  && lookup(Value(Get(body.value, "email")).value) == r.granted)
  {
    if m == POST && header.Some? && StartsWith(header.value, Bearer) {
      BearerPiece(header.value);
    }
  }

  /** The older copy in `functions/src/index.ts`: the `isAdmin` middleware,
      then the method gate, then the claim with no email check (a missing
      email makes `getUserByEmail` throw). */
  function SetAdminClaimLegacy(m: Method, header: Option<string>, body: Option<Json>,
                               verify: string -> Verification, lookup: Json -> Option<string>,
                               claimed: bool): Guarded<(Response, Option<string>)> {
    AdminOnly(header, verify,
      if m != POST then (MethodNotAllowed, None)
      else if body.None? || body.value.JNull? then (ClaimError, None)
      else
        var email := Value(Get(body.value, "email"));
        match (if email.Some? then lookup(email.value) else None)
        case None => (ClaimError, None)
        case Some(uid) =>
          if claimed then (Response(200, Message(SuccessText(email))), Some(uid)) else (ClaimError, None))
  }

  /** In the older copy even the preflight needs an admin token, and a claim
      is granted only behind the middleware. */
  lemma SetAdminClaimLegacySpec(m: Method, header: Option<string>, body: Option<Json>,
                                verify: string -> Verification, lookup: Json -> Option<string>, claimed: bool)
    ensures var r := SetAdminClaimLegacy(m, header, body, verify, lookup, claimed);
            && (!IsAdmin(header, verify).allowed <==> r == Forbidden)
            && (r.Ran? && m != POST ==> r.result.0 == MethodNotAllowed)
            && (r.Ran? && r.result.1.Some? ==>
                  (m == POST && body.Some?
                   && lookup(Value(Get(body.value, "email")).value) == r.result.1
                   && r.result.0.code == 200))
  {
  }
}
