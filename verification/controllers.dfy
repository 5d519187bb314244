/**
 * The request handlers of src/mocks/controllers.js as pure functions from the
 * registry and a request to the new registry and an outcome: a reply (status,
 * payload, delay before sending) or a thrown error. The delay is returned rather
 * than waited for.
 */
module Controllers {
  import opened Options
  import opened Errors
  import opened Schema
  import opened MockRegistry
  import Json
  import Keys
  import Text

  /** What a handler reads from the incoming request; `data` is the `data` field of the parsed body. */
  datatype HttpRequest = HttpRequest(verb: string, originalUrl: string, headers: Json.Value, data: Submission)

  datatype Payload =
    | Text(text: string)               // a fixed confirmation text
    | Listing(mocks: seq<MockDef>)     // every stored mock
    | Body(body: Option<Json.Value>)   // a matched response's body, possibly undefined

  datatype Outcome = Reply(status: int, payload: Payload, delayMs: int) | Raised(error: Error)

  datatype Handled = Handled(reg: Registry, outcome: Outcome)

  const DefaultWaitMs: int := 0

  /** `add`: forward `body.data`; 201 "CREATED" unless the registry threw. */
  function AddMocks(r: Registry, req: HttpRequest): (h: Handled)
    ensures h.reg == MockRegistry.Add(r, req.data).reg
    ensures h.outcome.Reply? <==> MockRegistry.Add(r, req.data).out.Ok?
    ensures h.outcome.Reply? ==> h.outcome == Reply(201, Text("CREATED"), 0)
    ensures h.outcome.Raised? ==> h.outcome.error == MockRegistry.Add(r, req.data).out.error
  {
    var s := MockRegistry.Add(r, req.data);
    match s.out
    case Ok(_) => Handled(s.reg, Reply(201, Text("CREATED"), DefaultWaitMs))
    case Err(e) => Handled(s.reg, Raised(e))
  }

  /** `list`: 200 with every stored mock, the registry untouched. */
  function ListMocks(r: Registry): (h: Handled)
    requires Valid(r)
    ensures h.reg == r
    ensures h.outcome.Reply? && h.outcome.status == 200 && h.outcome.payload.Listing?
    ensures h.outcome.payload.mocks == All(r)
    ensures |h.outcome.payload.mocks| == |r.entries|
    ensures forall k :: k in r.entries ==> r.entries[k] in h.outcome.payload.mocks
  {
    Handled(r, Reply(200, Listing(All(r)), DefaultWaitMs))
  }

  /** `clear`: 200 "DELETED", the registry emptied. */
  function ClearMocks(r: Registry): (h: Handled)
    ensures h.reg.entries == map[] && Valid(h.reg)
    ensures h.outcome == Reply(200, Text("DELETED"), 0)
  {
    Handled(MockRegistry.Clear(r), Reply(200, Text("DELETED"), DefaultWaitMs))
  }

  /** The lookup request: the full original URL, query string included, and the method as received. */
  function RequestOf(req: HttpRequest): (q: RequestSpec)
    ensures KeyOfRequest(q) == Keys.Join(req.originalUrl, req.verb)
  {
    RequestSpec(Some(req.originalUrl), Some(req.verb))
  }

  function NotFoundMessage(verb: string, path: string): string {
    verb + " " + path + " mock not found"
  }

  /** The delay before replying: the response's timeout, falling back to the default of 0 ms when it is falsy. */
  function WaitMs(s: ResponseSpec): (w: int)
    ensures w == s.timeout.GetOr(0)
  {
    match s.timeout
    case Some(t) => if t != 0 then t else DefaultWaitMs
    case None => DefaultWaitMs
  }

  /**
   * `find`: no match throws NotFound "<method> <url> mock not found"; an exhausted
   * sequence throws the registry's NotFound; otherwise the reply has the response's
   * status code and body (its headers are not sent) after its timeout.
   */
  function FindMock(r: Registry, req: HttpRequest): (h: Handled)
    requires Valid(r)
    ensures Valid(h.reg)
    ensures h.reg == MockRegistry.Find(r, RequestOf(req)).reg
    ensures MockRegistry.Find(r, RequestOf(req)).out == Ok(None) ==>
      h.outcome == Raised(NotFound(NotFoundMessage(req.verb, req.originalUrl)))
    ensures MockRegistry.Find(r, RequestOf(req)).out.Err? ==>
      h.outcome == Raised(MockRegistry.Find(r, RequestOf(req)).out.error)
    ensures h.outcome.Reply? ==>
      var found := MockRegistry.Find(r, RequestOf(req)).out.value.value;
      var spec := found.response.value.spec;
      && found.response.value.Single?
      && h.outcome == Reply(spec.statusCode.value, Body(spec.body), spec.timeout.GetOr(0))
      && StatusAbove < h.outcome.status < StatusBelow
  {
    var s := MockRegistry.Find(r, RequestOf(req));
    match s.out
    case Err(e) => Handled(s.reg, Raised(e))
    case Ok(None) => Handled(s.reg, Raised(NotFound(NotFoundMessage(req.verb, req.originalUrl))))
    case Ok(Some(found)) =>
      var spec := found.response.value.spec;
      Handled(s.reg, Reply(spec.statusCode.value, Body(spec.body), WaitMs(spec)))
  }

  /** Request headers take no part in matching: the outcome is the same whatever they are. */
  lemma HeadersIgnored(r: Registry, req: HttpRequest, headers: Json.Value)
    requires Valid(r)
    ensures FindMock(r, req.(headers := headers)) == FindMock(r, req)
  {
  }

  /**
   * A stored single response is replayed as submitted: Joi's defaults are not
   * applied, so a mock submitted without a body replies with an undefined body.
   */
  lemma ReplyUsesSubmittedResponse(r: Registry, req: HttpRequest)
    requires Valid(r)
    requires KeyOfRequest(RequestOf(req)) in r.entries
    requires r.entries[KeyOfRequest(RequestOf(req))].response.value.Single?
    ensures var spec := r.entries[KeyOfRequest(RequestOf(req))].response.value.spec;
      FindMock(r, req) == Handled(r, Reply(spec.statusCode.value, Body(spec.body), spec.timeout.GetOr(0)))
  {
  }

  /**
   * A mock submitted without a method is stored under "<path>__undefined", which no
   * request whose method is upper case and has no underscore can ever reach.
   */
  lemma MethodlessMockNeverServed(r: Registry, req: HttpRequest, k: string)
    requires Valid(r)
    requires k in r.entries && r.entries[k].request.verb.None?
    requires '_' !in req.verb && Text.Upper(req.verb) == req.verb
    ensures KeyOfRequest(RequestOf(req)) != k
  {
    var m := r.entries[k];
    assert k == Keys.Join(Keys.Render(m.request.path), "undefined");
    if KeyOfRequest(RequestOf(req)) == k {
      Keys.JoinInjective(req.originalUrl, req.verb, Keys.Render(m.request.path), "undefined");
      assert false;
    }
  }
}
