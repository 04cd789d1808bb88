/** The header-signed Wompi webhook of `api/wompiWebhook.ts`: the
    `x-wompi-signature` header `t=<timestamp>,v1=<hash>` is split apart, the
    digest of timestamp, event id and integrity secret must equal the hash,
    and a `transaction.updated` event then patches the status of the order its
    reference names. The hex digest is a parameter; `writeOk` says whether
    the store accepted the patch. */
module WompiWebhook {
  import opened Maybe
  import opened JsString
  import opened JsonValue
  import opened Http
  import opened Reconcile

  /** `signature.split(',').map(s => s.split('=')[1])`, destructured into
      its first two elements. */
  function ParseHeader(header: string): (r: (Option<string>, Option<string>))
    ensures r.1.Some? ==> |Split(header, ",")| >= 2
  {
    var pieces := Split(header, ",");
    (Piece(pieces[0], "=", 1), if |pieces| >= 2 then Piece(pieces[1], "=", 1) else None)
  }

  /** `${timestamp}${wompiEvent.event.id}${wompiIntegritySecret}` */
  function SignedMessage(timestamp: Option<string>, eventId: Option<Json>, secret: string): string {
    (match timestamp case Some(t) => t case None => "undefined") + TemplateText(eventId) + secret
  }

  const NoSecret := Reaction(Response(500, Http.Message("Webhook secret not configured.")), None)
  const NoHeader := Reaction(Response(400, Http.Message("Missing signature.")), None)
  const BadSignature := Reaction(Response(401, Http.Message("Invalid webhook signature.")), None)
  const BadReference := Reaction(Response(400, Http.Message("Invalid order reference.")), None)
  const NoAction := Reaction(Response(200, Http.Message("Event received, but no action taken.")), None)

  /** The handler, on the request method, the integrity secret from the
      environment, the signature header and the parsed body (`None` when
      `req.body` is `undefined`). */
  function Respond(env: Option<string>, m: Method, header: Option<string>, body: Option<Json>,
                   digest: string -> string, writeOk: bool): Reaction
  {
    if m == OPTIONS then Reaction(NoContent, None)
    else if m != POST then Reaction(MethodNotAllowed, None)
    else if env.None? || env.value == "" then NoSecret
    else if header.None? || header.value == "" then NoHeader
    else
      var (timestamp, hash) := ParseHeader(header.value);
      // `wompiEvent.event.id` throws unless the body and its event are objects
      var event := if body.None? then TypeError else Get(body.value, "event");
      if !event.Defined? || event.value.JNull? then Crash
      else
        var eventId := Value(Get(event.value, "id"));
        if hash != Some(digest(SignedMessage(timestamp, eventId, env.value))) then BadSignature
        else
          // `wompiEvent.data.transaction` throws when `data` is missing or null
          var data := Value(Get(body.value, "data"));
          if data.None? || data.value.JNull? then Crash
          else
            var transaction := Value(Get(data.value, "transaction"));
            if Value(Get(event.value, "name")) == Some(JStr("transaction.updated")) && Truthy(transaction) then
              var tx := transaction.value;
              match OrderIdStrict(Value(Get(tx, "reference")))
              case ExtractThrows => Crash
              case OrderIdText(orderId) =>
                if orderId.Some? && orderId.value != "" then
                  var patch := StatusPatch(orderId.value, NewStatus(Value(Get(tx, "status"))));
                  if writeOk then Reaction(Response(200, Http.Message("Order status updated successfully.")), Some(patch))
                  else Reaction(Crash.response, Some(patch))
                else BadReference
            else NoAction
  }

  /** A header written as `t=<ts>,v1=<hash>`, where neither part holds a
      comma or an equals sign, parses back to its timestamp and hash. */
  lemma ParseHeaderRoundTrip(ts: string, hash: string)
    requires ',' !in ts && '=' !in ts && ',' !in hash && '=' !in hash
    ensures ParseHeader("t=" + ts + ",v1=" + hash) == (Some(ts), Some(hash))
  {
    var first, second := "t=" + ts, "v1=" + hash;
    assert "t=" + ts + ",v1=" + hash == first + "," + second;
    TwoPieces(first, second);
    assert first == "t" + "=" + ts && second == "v1" + "=" + hash;
    AfterEquals("t", ts);
    AfterEquals("v1", hash);
  }

  /** Two comma-free texts joined by a comma split back into the two. */
  lemma TwoPieces(first: string, second: string)
    requires ',' !in first && ',' !in second
    ensures Split(first + "," + second, ",") == [first, second]
  {
    assert first + "," + second == first + [','] + second && "," == [','];
    SplitAtChar(first, ',', second);
    SplitNoChar(second, ',');
  }

  /** `key=value`, with no `=` in either part, has `value` after its `=`. */
  lemma AfterEquals(key: string, value: string)
    requires '=' !in key && '=' !in value
    ensures Piece(key + "=" + value, "=", 1) == Some(value)
  {
    assert key + "=" + value == key + ['='] + value && "=" == ['='];
    SplitAtChar(key, '=', value);
    SplitNoChar(value, '=');
  }

  /** A header with no comma has no hash, so it can never match. */
  lemma NoCommaNoHash(header: string)
    requires ',' !in header
    ensures ParseHeader(header).1 == None
  {
    SplitNoChar(header, ',');
  }

  /** The checks run in a fixed order: the secret, then the header, then the
      hash; none of these failures writes anything. */
  lemma CheckOrder(env: Option<string>, header: Option<string>, body: Option<Json>,
                   digest: string -> string, writeOk: bool)
    ensures (env.None? || env.value == "") ==> Respond(env, POST, header, body, digest, writeOk) == NoSecret
    ensures env.Some? && env.value != "" && (header.None? || header.value == "") ==>
              Respond(env, POST, header, body, digest, writeOk) == NoHeader
    ensures env.Some? && env.value != "" && header.Some? && header.value != "" && body.Some?
            && Get(body.value, "event").Defined? && !Get(body.value, "event").value.JNull?
            && ParseHeader(header.value).1
               != Some(digest(SignedMessage(ParseHeader(header.value).0,
                                      Value(Get(Get(body.value, "event").value, "id")), env.value))) ==>
              Respond(env, POST, header, body, digest, writeOk) == BadSignature
  {
  }

  /** A store write happens only for a POST whose header hash is the digest
      of the header's timestamp, the event id and the secret, for a
      `transaction.updated` event carrying a transaction, and for the
      non-empty order id its reference names; only the status is written,
      "Approved" exactly for an `APPROVED` transaction. */
  lemma WriteOnlyWhenVerified(env: Option<string>, m: Method, header: Option<string>, body: Option<Json>,
                              digest: string -> string, writeOk: bool)
    requires Respond(env, m, header, body, digest, writeOk).write.Some?
    ensures m == POST && env.Some? && env.value != "" && header.Some? && body.Some?
    ensures var event := Get(body.value, "event").value;
            var (ts, hash) := ParseHeader(header.value);
            hash == Some(digest(SignedMessage(ts, Value(Get(event, "id")), env.value)))
            && Value(Get(event, "name")) == Some(JStr("transaction.updated"))
    ensures var data := Value(Get(body.value, "data")).value;
            var tx := Value(Get(data, "transaction"));
            var patch := Respond(env, m, header, body, digest, writeOk).write.value;
            && Truthy(tx)
            && OrderIdStrict(Value(Get(tx.value, "reference"))) == OrderIdText(Some(patch.OrderId()))
            && patch.OrderId() != ""
            && patch == StatusPatch(patch.OrderId(), NewStatus(Value(Get(tx.value, "status"))))
    ensures Respond(env, m, header, body, digest, writeOk).response.code == (if writeOk then 200 else 500)
  {
  }

  /** Once verified, an event that is not `transaction.updated`, or has no
      transaction, is acknowledged with 200 and nothing is written; a
      transaction whose reference has no text after `kebab_` gets 400. */
  lemma UnactionableEvents(secret: string, header: string, root: Json, digest: string -> string, writeOk: bool)
    requires secret != "" && header != ""
    requires Get(root, "event").Defined? && !Get(root, "event").value.JNull?
    requires var event := Get(root, "event").value;
             ParseHeader(header).1 == Some(digest(SignedMessage(ParseHeader(header).0, Value(Get(event, "id")), secret)))
    requires Value(Get(root, "data")).Some? && !Value(Get(root, "data")).value.JNull?
    ensures var event := Get(root, "event").value;
            var tx := Value(Get(Value(Get(root, "data")).value, "transaction"));
            !(Value(Get(event, "name")) == Some(JStr("transaction.updated")) && Truthy(tx)) ==>
              Respond(Some(secret), POST, Some(header), Some(root), digest, writeOk) == NoAction
    ensures var event := Get(root, "event").value;
            var tx := Value(Get(Value(Get(root, "data")).value, "transaction"));
            Value(Get(event, "name")) == Some(JStr("transaction.updated")) && Truthy(tx)
            && OrderIdStrict(Value(Get(tx.value, "reference"))) in {OrderIdText(None), OrderIdText(Some(""))} ==>
              Respond(Some(secret), POST, Some(header), Some(root), digest, writeOk) == BadReference
  {
  }
}
