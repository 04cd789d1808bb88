/** The Wompi event handler of `api/wompi.ts`: each name listed in
    `signature.properties` is resolved against the event one dot-separated
    key at a time, the resolved values are joined, the timestamp and the
    events secret are appended, and the digest of that text must equal
    `signature.checksum` before a `transaction.updated` event may patch the
    order its reference names. The hex digest is a parameter; `writeOk` says
    whether the store accepted the patch. */
module WompiEvents {
  import opened Maybe
  import opened JsString
  import opened JsonValue
  import opened Http
  import opened Reconcile

  /** One property path resolved against the event. */
  datatype Resolved = Found(value: Json) | Missing | Thrown

  /** `property.split('.')` */
  function Keys(property: string): (r: seq<string>)
    ensures |r| >= 1
  {
    Split(property, ".")
  }

  /** Walking `keys` from `v`: reading a property of `null` throws, and the
      first `undefined` stops the walk. */
  function Walk(v: Json, keys: seq<string>): Resolved
    decreases |keys|
  {
    if keys == [] then Found(v)
    else match Get(v, keys[0])
      case TypeError => Thrown
      case Undefined => Missing
      case Defined(x) => Walk(x, keys[1..])
  }

  /** Walking a path in two legs is walking the first leg and then, from
      where it ends, the second. */
  lemma {:induction false} WalkConcat(v: Json, a: seq<string>, b: seq<string>)
    ensures Walk(v, a + b) == (match Walk(v, a) case Found(x) => Walk(x, b) case r => r)
    decreases |a|
  {
    if a == [] {
      assert a + b == b;
    } else {
      assert (a + b)[0] == a[0] && (a + b)[1..] == a[1..] + b;
      match Get(v, a[0])
      case TypeError =>
      case Undefined =>
      case Defined(x) => WalkConcat(x, a[1..], b);
    }
  }

  /** The resolver loop of `api/wompi.ts`. */
  method ResolveProperty(root: Json, property: string) returns (r: Resolved)
    ensures r == Walk(root, Keys(property))
  {
    var keys := Split(property, ".");
    var value := root;
    var i := 0;
    while i < |keys|
      invariant 0 <= i <= |keys|
      invariant Walk(root, keys) == Walk(value, keys[i..])
    {
      assert keys[i..][0] == keys[i] && keys[i..][1..] == keys[i + 1..];
      match Get(value, keys[i]) {
        case TypeError => return Thrown;
        case Undefined => return Missing;
        case Defined(x) => value := x;
      }
      i := i + 1;
    }
    assert keys[i..] == [];
    return Found(value);
  }

  /** What one entry of `signature.properties` contributes, or `None` when
      computing it throws: an entry that is not a string has no `split`; a
      path that is not found is `null`, and `join` writes `null` as "". */
  function EntryText(root: Json, property: Json): Option<string> {
    match property
    case JStr(p) =>
      (match Walk(root, Keys(p))
       case Found(v) => Some(JoinText(v))
       case Missing => Some("")
       case Thrown => None)
    case _ => None
  }

  /** `signature.properties.map(resolve).join('')`; `None` when any entry
      throws. */
  function Concatenated(root: Json, props: seq<Json>): Option<string> {
    if props == [] then Some("")
    else Glue(EntryText(root, props[0]), Concatenated(root, props[1..]))
  }

  /** `map` and `join` as the loop that computes them. */
  method ConcatenateProperties(root: Json, props: seq<Json>) returns (r: Option<string>)
    ensures r == Concatenated(root, props)
  {
    var acc := "";
    var i := 0;
    GlueEmpty(Concatenated(root, props));
    while i < |props|
      invariant 0 <= i <= |props|
      invariant Concatenated(root, props) == Glue(Some(acc), Concatenated(root, props[i..]))
    {
      ConcatenatedStep(root, props, i);
      var entry := ResolveEntry(root, props[i]);
      if entry.None? {
        return None;
      }
      GlueAssoc(acc, entry.value, Concatenated(root, props[i + 1..]));
      acc := acc + entry.value;
      i := i + 1;
    }
    assert props[i..] == [];
    assert acc + "" == acc;
    return Some(acc);
  }

  /** One step of the join from position `i`. */
  lemma ConcatenatedStep(root: Json, props: seq<Json>, i: nat)
    requires i < |props|
    ensures Concatenated(root, props[i..]) == Glue(EntryText(root, props[i]), Concatenated(root, props[i + 1..]))
  {
    assert props[i..][0] == props[i] && props[i..][1..] == props[i + 1..];
  }

  lemma GlueEmpty(x: Option<string>)
    ensures Glue(Some(""), x) == x
  {
    if x.Some? { assert "" + x.value == x.value; }
  }

  lemma GlueAssoc(a: string, b: string, x: Option<string>)
    ensures Glue(Some(a), Glue(Some(b), x)) == Glue(Some(a + b), x)
  {
    if x.Some? { assert a + (b + x.value) == (a + b) + x.value; }
  }

  /** The callback given to `map`: resolve one listed property. */
  method ResolveEntry(root: Json, property: Json) returns (r: Option<string>)
    ensures r == EntryText(root, property)
  {
    if !property.JStr? {
      return None;
    }
    var resolved := ResolveProperty(root, property.s);
    match resolved {
      case Found(v) => r := Some(JoinText(v));
      case Missing => r := Some("");
      case Thrown => r := None;
    }
  }

  /** The joined text of two property lists laid end to end is the two
      texts in order; if either throws, so does the whole. */
  lemma {:induction false} ConcatenatedAppend(root: Json, a: seq<Json>, b: seq<Json>)
    ensures Concatenated(root, a + b) == Glue(Concatenated(root, a), Concatenated(root, b))
    decreases |a|
  {
    if a == [] {
      assert a + b == b;
      GlueEmpty(Concatenated(root, b));
    } else {
      var ab := a + b;
      assert ab[0] == a[0] && ab[1..] == a[1..] + b;
      ConcatenatedAppend(root, a[1..], b);
      GlueAssociative(EntryText(root, a[0]), Concatenated(root, a[1..]), Concatenated(root, b));
    }
  }

  lemma GlueAssociative(x: Option<string>, y: Option<string>, z: Option<string>)
    ensures Glue(x, Glue(y, z)) == Glue(Glue(x, y), z)
  {
    if x.Some? && y.Some? && z.Some? {
      assert x.value + (y.value + z.value) == (x.value + y.value) + z.value;
    }
  }

  /** Two optional texts one after the other; `None` if either is. */
  function Glue(x: Option<string>, y: Option<string>): Option<string> {
    match (x, y) case (Some(s), Some(t)) => Some(s + t) case _ => None
  }

  /** A path that resolves to nothing, like a path that resolves to `null`,
      contributes nothing: the text is the one the list without that entry
      gives. */
  lemma UnresolvedContributesNothing(root: Json, a: seq<Json>, p: string, b: seq<Json>)
    requires Walk(root, Keys(p)) == Missing || Walk(root, Keys(p)) == Found(JNull)
    ensures Concatenated(root, a + [JStr(p)] + b) == Concatenated(root, a + b)
  {
    ConcatenatedAppend(root, a + [JStr(p)], b);
    ConcatenatedAppend(root, a, [JStr(p)]);
    ConcatenatedAppend(root, a, b);
    assert Concatenated(root, [JStr(p)]) == Some("");
    match Concatenated(root, a) {
      case None =>
      case Some(x) => assert x + "" == x;
    }
  }

  const BadProperties := Reaction(Response(400, Message("Invalid signature properties.")), None)
  const BadChecksum := Reaction(Response(401, Message("Invalid webhook signature.")), None)
  const NoSecret := Reaction(Response(500, Message("Webhook events secret not configured.")), None)
  const BadReference := Reaction(Response(400, Message("Invalid order reference.")), None)
  const NoAction := Reaction(Response(200, Message("Event received, but no action taken.")), None)

  /** The text that is hashed. */
  function StringToSign(text: string, timestamp: Option<Json>, secret: string): string {
    text + TemplateText(timestamp) + secret
  }

  /** The handler, on the request method, the events secret from the
      environment and the parsed body (`None` when `req.body` is
      `undefined`). */
  function Respond(env: Option<string>, m: Method, body: Option<Json>,
                   digest: string -> string, writeOk: bool): Reaction
  {
    if m == OPTIONS then Reaction(NoContent, None)
    else if m != POST then Reaction(MethodNotAllowed, None)
    else if body.None? || body.value.JNull? then Crash
    else
      var root := body.value;
      var signature := Value(Get(root, "signature"));
      var timestamp := Value(Get(root, "timestamp"));
      if env.None? || env.value == "" then NoSecret
      else if signature.None? || signature.value.JNull? then Crash
      else match Get(signature.value, "properties")
        case Defined(JArr(props)) =>
          (match Concatenated(root, props)
           case None => Crash
           case Some(text) =>
             if Includes(text, "null") then BadProperties
             else if Get(signature.value, "checksum") != Defined(JStr(digest(StringToSign(text, timestamp, env.value))))
             then BadChecksum
             else Act(root, writeOk))
        case _ => Crash
  }

  /** `wompiEvent.event?.name` and `wompiEvent.data?.transaction`. */
  function EventName(root: Json): Option<Json> { GetOpt(Value(Get(root, "event")), "name") }
  function Transaction(root: Json): Option<Json> { GetOpt(Value(Get(root, "data")), "transaction") }

  /** After verification: only a `transaction.updated` event with a
      transaction leads to a write. */
  function Act(root: Json, writeOk: bool): Reaction {
    var transaction := Transaction(root);
    if EventName(root) == Some(JStr("transaction.updated")) && Truthy(transaction) then
      var tx := transaction.value;
      match OrderIdOptional(Value(Get(tx, "reference")))
      case ExtractThrows => Crash
      case OrderIdText(orderId) =>
        if orderId.Some? && orderId.value != "" then
          var patch := StatusAndTransaction(orderId.value, NewStatus(Value(Get(tx, "status"))), Value(Get(tx, "id")));
          if writeOk then Reaction(Response(200, Message("Order status updated successfully.")), Some(patch))
          else Reaction(Crash.response, Some(patch))
        else BadReference
    else NoAction
  }

  /** The handler with the resolver loop and the join loop; it answers as
      `Respond` does. */
  method Handle(env: Option<string>, m: Method, body: Option<Json>,
                digest: string -> string, writeOk: bool) returns (r: Reaction)
    ensures r == Respond(env, m, body, digest, writeOk)
  {
    if m == OPTIONS { return Reaction(NoContent, None); }
    if m != POST { return Reaction(MethodNotAllowed, None); }
    if body.None? || body.value.JNull? { return Crash; }
    var root := body.value;
    var signature := Value(Get(root, "signature"));
    var timestamp := Value(Get(root, "timestamp"));
    if env.None? || env.value == "" { return NoSecret; }
    if signature.None? || signature.value.JNull? { return Crash; }
    var props := Get(signature.value, "properties");
    if !(props.Defined? && props.value.JArr?) { return Crash; }
    var text := ConcatenateProperties(root, props.value.elems);
    if text.None? { return Crash; }
    if Includes(text.value, "null") { return BadProperties; }
    var calculated := digest(StringToSign(text.value, timestamp, env.value));
    if Get(signature.value, "checksum") != Defined(JStr(calculated)) { return BadChecksum; }
    return Act(root, writeOk);
  }

  // ---------------------------------------------------------------------
  // The decision chain

  /** A trusted event body as the handler reads it. */
  predicate WellFormed(body: Json, props: seq<Json>, text: string) {
    !body.JNull?
    && Value(Get(body, "signature")).Some?
    && Get(Value(Get(body, "signature")).value, "properties") == Defined(JArr(props))
    && Concatenated(body, props) == Some(text)
  }

  /** A missing events secret is answered with 500 before any property is
      resolved: the answer does not depend on the signature at all. */
  lemma SecretBeforeResolution(env: Option<string>, body: Json, digest: string -> string, writeOk: bool)
    requires !body.JNull? && (env.None? || env.value == "")
    ensures Respond(env, POST, Some(body), digest, writeOk) == NoSecret
  {
  }

  /** With a well-formed body, the 400 for bad properties is sent exactly
      when the joined text contains "null". */
  lemma BadPropertiesIffNull(secret: string, body: Json, props: seq<Json>, text: string,
                             digest: string -> string, writeOk: bool)
    requires secret != "" && WellFormed(body, props, text)
    ensures Respond(Some(secret), POST, Some(body), digest, writeOk) == BadProperties
            <==> Includes(text, "null")
  {
    if !Includes(text, "null") {
      var r := Respond(Some(secret), POST, Some(body), digest, writeOk);
      assert r == BadChecksum || r == Act(body, writeOk);
      ActNever400ForProperties(body, writeOk);
    }
  }

  /** The answers after verification are never the bad-properties answer. */
  lemma ActNever400ForProperties(root: Json, writeOk: bool)
    ensures Act(root, writeOk) != BadProperties
  {
  }

  /** A store write happens only for a POST whose checksum is the digest of
      the joined properties, the timestamp and the secret, for a
      `transaction.updated` event carrying a transaction, and for the
      non-empty order id its reference names; the status written is
      "Approved" exactly for an `APPROVED` transaction, and the transaction's
      `id` is written beside it. */
  lemma WriteOnlyWhenVerified(env: Option<string>, m: Method, body: Option<Json>,
                              digest: string -> string, writeOk: bool)
    requires Respond(env, m, body, digest, writeOk).write.Some?
    ensures m == POST && body.Some? && env.Some? && env.value != ""
    ensures var root := body.value;
            var signature := Value(Get(root, "signature")).value;
            var props := Get(signature, "properties").value.elems;
            var text := Concatenated(root, props).value;
            && !Includes(text, "null")
            && Get(signature, "checksum")
               == Defined(JStr(digest(StringToSign(text, Value(Get(root, "timestamp")), env.value))))
    ensures var root := body.value;
            var tx := Transaction(root);
            var patch := Respond(env, m, body, digest, writeOk).write.value;
            && EventName(root) == Some(JStr("transaction.updated")) && Truthy(tx)
            && OrderIdOptional(Value(Get(tx.value, "reference"))) == OrderIdText(Some(patch.OrderId()))
            && patch.OrderId() != ""
            && patch == StatusAndTransaction(patch.OrderId(), NewStatus(Value(Get(tx.value, "status"))),
                                             Value(Get(tx.value, "id")))
    ensures Respond(env, m, body, digest, writeOk).response.code == (if writeOk then 200 else 500)
  {
  }

  /** A checksum mismatch is answered with 401 and writes nothing. */
  lemma MismatchRejected(secret: string, body: Json, props: seq<Json>, text: string,
                         digest: string -> string, writeOk: bool)
    requires secret != "" && WellFormed(body, props, text) && !Includes(text, "null")
    requires Get(Value(Get(body, "signature")).value, "checksum")
             != Defined(JStr(digest(StringToSign(text, Value(Get(body, "timestamp")), secret))))
    ensures Respond(Some(secret), POST, Some(body), digest, writeOk) == BadChecksum
    ensures Respond(Some(secret), POST, Some(body), digest, writeOk).write.None?
  {
  }

  /** Once verified, an event other than `transaction.updated`, or one
      without a transaction, is acknowledged with 200 and nothing written. */
  lemma OtherEventsIgnored(root: Json, writeOk: bool)
    requires EventName(root) != Some(JStr("transaction.updated")) || !Truthy(Transaction(root))
    ensures Act(root, writeOk) == NoAction
  {
  }

  /** Once verified, a transaction whose reference has no text after
      `kebab_` is answered with 400 and nothing written. */
  lemma EmptyOrderIdRejected(root: Json, writeOk: bool)
    requires EventName(root) == Some(JStr("transaction.updated")) && Truthy(Transaction(root))
    requires OrderIdOptional(Value(Get(Transaction(root).value, "reference"))) in
               {OrderIdText(None), OrderIdText(Some(""))}
    ensures Act(root, writeOk) == BadReference
  {
  }

  /** Two non-null values whose texts meet to spell "null" trip the guard,
      although neither of them is `null`: the properties "a" and "b" of an
      event whose `a` is "nu" and whose `b` is "ll". */
  lemma NullAcrossBoundary()
    ensures Concatenated(JObj([("a", JStr("nu")), ("b", JStr("ll"))]), [JStr("a"), JStr("b")]) == Some("null")
  {
    var root := JObj([("a", JStr("nu")), ("b", JStr("ll"))]);
    assert IndexOf("a", ".") == None by {
      assert "a"[..1] == "a";
      assert !StartsWith("a", ".");
      assert "a"[1..] == "";
      assert IndexOf("", ".") == None;
    }
    assert IndexOf("b", ".") == None by {
      assert "b"[..1] == "b";
      assert !StartsWith("b", ".");
      assert "b"[1..] == "";
      assert IndexOf("", ".") == None;
    }
    assert Keys("a") == ["a"] && Keys("b") == ["b"];
    assert Get(root, "a") == Defined(JStr("nu"));
    assert Get(root, "b") == Defined(JStr("ll"));
    assert Walk(root, ["a"]) == Walk(JStr("nu"), []);
    assert Walk(root, ["b"]) == Walk(JStr("ll"), []);
    assert [JStr("a"), JStr("b")][1..] == [JStr("b")];
    assert "nu" + ("ll" + "") == "null";
  }
}
