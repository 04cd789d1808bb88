/** The HTTP surface shared by every handler: request methods, responses,
    and the CORS preflight / method gate each endpoint opens with. */
module Http {
  import opened Maybe

  datatype Method = OPTIONS | GET | POST | PUT | PATCH | DELETE | HEAD

  /** What a handler sends: a status code and which body. The message texts
      of the source are kept as `Message` payloads. */
  datatype Body =
    | Empty
    | Message(text: string)
    | SignatureBody(signature: string)

  datatype Response = Response(code: int, body: Body)

  const NoContent := Response(204, Empty)
  const MethodNotAllowed := Response(405, Message("Method Not Allowed"))

  /** The opening of a handler that answers the preflight itself:
      `OPTIONS` is answered with 204, any method other than `allowed` with
      405, and `allowed` lets the handler go on (`None`). */
  function Gate(m: Method, allowed: Method): Option<Response> {
    if m == OPTIONS then Some(NoContent)
    else if m != allowed then Some(MethodNotAllowed)
    else None
  }
}
