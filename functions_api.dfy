/** What the Cloud Functions of `functions/` have in common. The TypeScript
    sources (`functions/src/index.ts`) wrap every administrative endpoint in
    the `isAdmin` middleware, which runs before the endpoint's own method
    check; the compiled copy (`functions/lib/index.js`) has no middleware and
    answers every preflight with 204 before the method check. */
module FunctionsApi {
  import opened Maybe
  import opened Http
  import opened AdminGate

  /** Which copy of the functions is deployed. */
  datatype Build = Source | Compiled

  /** An endpoint's response and the store write it made. */
  datatype Handled<W> = Handled(response: Response, write: Option<W>)

  function Fail<W>(code: int, text: string): Handled<W> {
    Handled(Response(code, Message(text)), None)
  }

  function Done<W>(code: int, text: string, w: W): Handled<W> {
    Handled(Response(code, Message(text)), Some(w))
  }

  /** An administrative endpoint whose own handling is `inner`, as each copy
      deploys it. */
  function Deployed<W>(build: Build, m: Method, header: Option<string>,
                       verify: string -> Verification, inner: Handled<W>): Handled<W> {
    match build
    case Source =>
      (match AdminOnly(header, verify, inner)
       case Forbidden => Handled(Unauthorized, None)
       case Ran(h) => h)
    case Compiled =>
      if m == OPTIONS then Handled(NoContent, None) else inner
  }

  /** In the sources nothing but a 403 happens without the middleware's
      consent, not even the preflight; in the compiled copy the preflight is
      answered first and anything else reaches the handler, admin or not. */
  lemma DeployedSpec<W>(build: Build, m: Method, header: Option<string>,
                        verify: string -> Verification, inner: Handled<W>)
    ensures build == Source && !IsAdmin(header, verify).allowed ==>
              Deployed(build, m, header, verify, inner) == Handled(Unauthorized, None)
    ensures build == Source && IsAdmin(header, verify).allowed ==>
              Deployed(build, m, header, verify, inner) == inner
    ensures build == Compiled && m == OPTIONS ==> Deployed(build, m, header, verify, inner) == Handled(NoContent, None)
    ensures build == Compiled && m != OPTIONS ==> Deployed(build, m, header, verify, inner) == inner
    ensures Deployed(build, m, header, verify, inner).write.Some? ==>
              Deployed(build, m, header, verify, inner) == inner
              && (build == Source ==> IsAdmin(header, verify).allowed)
              && (build == Compiled ==> m != OPTIONS)
  {
  }
}
