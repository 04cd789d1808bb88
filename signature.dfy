/** The outbound Wompi integrity signature: `api/getWompiSignature.ts` and the
    older, unvalidated `getWompiSignature` of `functions/lib/index.js`.
    SHA-256 is not modelled: every handler takes the hex-digest function as a
    parameter, and the properties are about what is hashed and what is
    answered. */
module OutboundSignature {
  import opened Maybe
  import opened JsString
  import opened Http

  /** `req.body` after `JSON.parse`, with the two fields the handler reads.
      A field left out of the body is `None`. */
  datatype SignatureRequest = SignatureRequest(reference: Option<string>, amount: Option<int>)

  /** A serverless function either fails to load or answers. */
  datatype Outcome = NotLoaded | Responded(response: Response)

  const Currency: string := "COP"

  /** `${reference}${amountInCents}${currency}${secret}` */
  function Preimage(reference: string, amount: int, secret: string): (r: string)
    ensures |r| == |reference| + |IntToString(amount * 100)| + |Currency| + |secret|
  {
    reference + IntToString(amount * 100) + Currency + secret
  }

  /** JavaScript truthiness of an optional string and an optional number. */
  predicate TruthyText(s: Option<string>) { s.Some? && s.value != "" }
  predicate TruthyAmount(a: Option<int>) { a.Some? && a.value != 0 }

  /** Whether the module loads: the top-level check throws when the
      environment variable is missing or empty. */
  predicate Loads(env: Option<string>) { TruthyText(env) }

  /** The Vercel handler. `body` is `None` when `req.body` is `null` or
      `undefined`, so that destructuring it throws and the catch answers 500. */
  function Handle(env: Option<string>, m: Method, body: Option<SignatureRequest>,
                  digest: string -> string): Outcome
  {
    if !Loads(env) then NotLoaded
    else if m == OPTIONS then Responded(NoContent)
    else if m != POST then Responded(MethodNotAllowed)
    else if body.None? then Responded(Response(500, Message("Error generating Wompi signature")))
    else if !TruthyText(env) then Responded(Response(500, Message("Wompi integrity secret is not configured.")))
    else if !TruthyText(body.value.reference) || !TruthyAmount(body.value.amount) then
      Responded(Response(400, Message("Missing reference or amount in request body.")))
    else
      var pre := Preimage(body.value.reference.value, body.value.amount.value, env.value);
      Responded(Response(200, SignatureBody(digest(pre))))
  }

  /** The handler answers 200 exactly for a POST with a truthy reference and
      amount, and then the signature is the digest of the preimage. */
  lemma HandleSucceeds(env: Option<string>, m: Method, body: Option<SignatureRequest>,
                       digest: string -> string)
    ensures Handle(env, m, body, digest).Responded? && Handle(env, m, body, digest).response.code == 200
            <==> Loads(env) && m == POST && body.Some?
                 && TruthyText(body.value.reference) && TruthyAmount(body.value.amount)
    ensures Handle(env, m, body, digest).Responded? && Handle(env, m, body, digest).response.code == 200 ==>
              Handle(env, m, body, digest).response.body
              == SignatureBody(digest(Preimage(body.value.reference.value, body.value.amount.value, env.value)))
  {
  }

  /** A falsy reference or amount (an amount of 0 included) is answered with
      400, and nothing is hashed: the answer is the same whatever the digest. */
  lemma HandleRejects(env: Option<string>, body: SignatureRequest, d1: string -> string, d2: string -> string)
    requires Loads(env)
    requires !TruthyText(body.reference) || !TruthyAmount(body.amount)
    ensures Handle(env, POST, Some(body), d1) == Responded(Response(400, Message("Missing reference or amount in request body.")))
    ensures Handle(env, POST, Some(body), d1) == Handle(env, POST, Some(body), d2)
  {
  }

  /** The preflight and the method gate come first: OPTIONS is 204, any
      other non-POST method 405, whatever the body. */
  lemma HandleGate(env: Option<string>, m: Method, body: Option<SignatureRequest>, digest: string -> string)
    requires Loads(env) && m != POST
    ensures Handle(env, m, body, digest) == Responded(if m == OPTIONS then NoContent else MethodNotAllowed)
  {
  }

  /** Once the module has loaded, the in-handler "secret not configured" 500
      can never be sent; a missing secret stops the module from loading. */
  lemma SecretCheckUnreachable(env: Option<string>, m: Method, body: Option<SignatureRequest>,
                               digest: string -> string)
    ensures !Loads(env) <==> Handle(env, m, body, digest) == NotLoaded
    ensures Handle(env, m, body, digest) != Responded(Response(500, Message("Wompi integrity secret is not configured.")))
  {
  }

  /** The preimage is the reference, then the amount in cents, then "COP",
      then the secret, in that order. */
  lemma PreimageLayout(reference: string, amount: int, secret: string)
    ensures var p := Preimage(reference, amount, secret);
            var n := |reference| + |IntToString(amount * 100)|;
            p[..|reference|] == reference
            && p[|reference|..n] == IntToString(amount * 100)
            && p[n..n + 3] == "COP"
            && p[n + 3..] == secret
  {
  }

  /** With the reference and the secret fixed, different amounts give
      different preimages. */
  lemma PreimageSeparatesAmounts(reference: string, a1: int, a2: int, secret: string)
    requires Preimage(reference, a1, secret) == Preimage(reference, a2, secret)
    ensures a1 == a2
  {
    var t1, t2 := IntToString(a1 * 100), IntToString(a2 * 100);
    var p := Preimage(reference, a1, secret);
    assert |t1| == |t2|;
    PreimageLayout(reference, a1, secret);
    PreimageLayout(reference, a2, secret);
    assert t1 == p[|reference|..|reference| + |t1|] == t2;
    IntToStringInjective(a1 * 100, a2 * 100);
  }

  /** Nothing separates the reference from the amount: the reference
      "kebab_1" with amount 11 and the reference "kebab_11" with amount 1
      hash the same text. */
  lemma ReferenceAmountBoundary(secret: string)
    ensures Preimage("kebab_1", 11, secret) == Preimage("kebab_11", 1, secret)
  {
    assert IntToString(1100) == "1100" by {
      assert NatToString(1100) == NatToString(110) + "0";
      assert NatToString(110) == NatToString(11) + "0";
      assert NatToString(11) == NatToString(1) + "1";
    }
    assert IntToString(100) == "100" by {
      assert NatToString(100) == NatToString(10) + "0";
      assert NatToString(10) == NatToString(1) + "0";
    }
  }

  /** `getWompiSignature` of `functions/lib/index.js`: every method is
      answered through the preflight first, the secret comes from the
      functions config, and the body is not validated: a missing reference
      prints as "undefined" and a missing amount makes the cents `NaN`. */
  function HandleLegacy(config: Option<string>, m: Method, body: Option<SignatureRequest>,
                        digest: string -> string): Response
  {
    if m == OPTIONS then NoContent
    else if m != POST then MethodNotAllowed
    else if body.None? then Response(500, Message("Error generating Wompi signature"))
    else if !TruthyText(config) then Response(500, Message("Wompi integrity secret is not configured."))
    else
      var reference := match body.value.reference case Some(r) => r case None => "undefined";
      var cents := match body.value.amount case Some(a) => IntToString(a * 100) case None => "NaN";
      Response(200, SignatureBody(digest(reference + cents + Currency + config.value)))
  }

  /** The legacy handler fails only for a missing body or secret, and for a
      request the validated handler accepts it signs the same preimage. */
  lemma LegacyAgrees(config: Option<string>, m: Method, body: Option<SignatureRequest>,
                     digest: string -> string)
    ensures m == POST && body.Some? ==>
              (HandleLegacy(config, m, body, digest).code == 500 <==> !TruthyText(config))
    ensures Handle(config, m, body, digest).Responded? && Handle(config, m, body, digest).response.code == 200 ==>
              HandleLegacy(config, m, body, digest) == Handle(config, m, body, digest).response
  {
  }

  /** With no reference and no amount the legacy handler still signs, the
      text "undefinedNaNCOP" followed by the secret. */
  lemma LegacyUnvalidated(config: string, digest: string -> string)
    requires config != ""
    ensures HandleLegacy(Some(config), POST, Some(SignatureRequest(None, None)), digest)
            == Response(200, SignatureBody(digest("undefinedNaNCOP" + config)))
  {
    assert "undefined" + "NaN" + Currency + config == "undefinedNaNCOP" + config;
  }
}
