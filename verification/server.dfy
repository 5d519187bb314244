/**
 * One HTTP exchange end to end, as src/app.js wires it: the router picks a
 * handler, the handler runs against the registry, and a thrown error goes through
 * the error middleware.
 */
module Server {
  import opened Options
  import opened Errors
  import opened Schema
  import opened MockRegistry
  import opened Controllers
  import Routes
  import ErrorHandler
  import Json
  import Keys
  import Text

  datatype Response =
    | Sent(status: int, payload: Payload, delayMs: int)
    | Failed(reply: ErrorHandler.ErrorReply)

  datatype Exchange = Exchange(reg: Registry, response: Response)

  function Handle(r: Registry, req: HttpRequest): (h: Handled)
    requires Valid(r)
    ensures Valid(h.reg)
  {
    match Routes.Dispatch(req.verb, req.originalUrl)
    case List => ListMocks(r)
    case Add => AddMocks(r, req)
    case Clear => ClearMocks(r)
    case Find => FindMock(r, req)
  }

  /** Serve one request; every error the core throws reaches the client as 400, 404 or 409. */
  function Serve(r: Registry, req: HttpRequest): (x: Exchange)
    requires Valid(r)
    ensures Valid(x.reg)
    ensures x.response.Failed? ==> x.response.reply.status in {400, 404, 409}
    ensures x.response.Sent? && Routes.Dispatch(req.verb, req.originalUrl) == Routes.Find ==>
      StatusAbove < x.response.status < StatusBelow
  {
    var h := Handle(r, req);
    match h.outcome
    case Reply(status, payload, delay) => Exchange(h.reg, Sent(status, payload, delay))
    case Raised(e) => Exchange(h.reg, Failed(ErrorHandler.Handle(Name(e), Message(e))))
  }

  /** Each core error kind maps to its own status, and the body echoes its name and message. */
  lemma CoreErrorReplies(e: Error)
    ensures var reply := ErrorHandler.Handle(Name(e), Message(e));
      && reply.error == Name(e) && reply.message == Message(e)
      && (e.AlreadyExists? ==> reply.status == 409)
      && (e.NotFound? ==> reply.status == 404)
      && (e.Validation? ==> reply.status == 400)
  {
  }

  // ---------------------------------------------------------------------------
  // Scenarios

  const HelloBody: Json.Value := Json.Obj([("hello", Json.Str("world"))])

  const Hello: MockDef := MockDef(
    Some("Hello"),
    RequestSpec(Some("/hello"), Some("GET")),
    Some(Single(ResponseSpec(Some(HelloBody), None, Some(200), None))))

  function Post(url: string, data: Submission): HttpRequest {
    HttpRequest("POST", url, Json.EmptyObject, data)
  }

  function Get(url: string): HttpRequest {
    HttpRequest("GET", url, Json.EmptyObject, Batch([]))
  }

  lemma HelloFacts()
    ensures IsValid(Hello)
    ensures KeyOfRequest(Hello.request) == "/hello__GET"
    ensures StorageKey(Hello) == "/hello__GET"
    ensures !Routes.MatchesMocks("/hello")
  {
    assert Text.Upper("GET") == "GET";
    assert Routes.PathOf("/hello") == "/hello";
    assert Text.Lower("/hello") == "/hello";
  }

  /** The registry holding just the hello mock. */
  const AfterHello: Registry := Registry(["/hello__GET"], map["/hello__GET" := Hello])

  lemma PostMocksAdds()
    ensures Routes.Dispatch("POST", "/mocks") == Routes.Add
  {
    assert Routes.PathOf("/mocks") == "/mocks";
    assert Text.Lower("/mocks") == "/mocks";
    Routes.MocksRoutes("/mocks");
  }

  lemma HelloStored()
    ensures AddOne(Empty, Hello) == Step(AfterHello, Ok(()))
  {
    HelloFacts();
  }

  lemma HelloAdded()
    ensures AddMocks(Empty, Post("/mocks", One(Hello))) == Handled(AfterHello, Reply(201, Text("CREATED"), 0))
  {
    HelloStored();
    assert AddAll(Empty, [Hello]) == AddOne(Empty, Hello);
  }

  /** Registering the hello mock answers 201 "CREATED" and stores it, verbatim, under "/hello__GET". */
  lemma HelloRegisters()
    ensures Serve(Empty, Post("/mocks", One(Hello))) == Exchange(AfterHello, Sent(201, Text("CREATED"), 0))
  {
    PostMocksAdds();
    HelloAdded();
  }

  lemma HelloFound()
    ensures Valid(AfterHello)
    ensures FindMock(AfterHello, Get("/hello")) == Handled(AfterHello, Reply(200, Body(Some(HelloBody)), 0))
  {
    HelloFacts();
    var req := Get("/hello");
    assert KeyOfRequest(RequestOf(req)) == "/hello__GET";
    assert MockRegistry.Find(AfterHello, RequestOf(req)) == Step(AfterHello, Ok(Some(Hello)));
  }

  /** GET /hello then replays the stored status and body, with no delay. */
  lemma HelloReplays()
    ensures Valid(AfterHello)
    ensures Serve(AfterHello, Get("/hello")) == Exchange(AfterHello, Sent(200, Body(Some(HelloBody)), 0))
  {
    HelloFacts();
    HelloFound();
    Routes.OtherPathsReachFind("GET", "/hello");
  }

  lemma PostHelloMessage()
    ensures NotFoundMessage("POST", "/hello") == "POST /hello mock not found"
  {
  }

  lemma PostHelloMissed()
    ensures Valid(AfterHello)
    ensures FindMock(AfterHello, Post("/hello", Batch([])))
      == Handled(AfterHello, Raised(NotFound("POST /hello mock not found")))
  {
    HelloFound();
    Keys.SamePathKeyDeterminesMethod("/hello", "POST", "GET");
    var req := Post("/hello", Batch([]));
    assert KeyOfRequest(RequestOf(req)) == "/hello__POST";
    assert MockRegistry.Find(AfterHello, RequestOf(req)) == Step(AfterHello, Ok(None));
    PostHelloMessage();
  }

  /** POST /hello finds nothing: the method is part of the key, so it is a 404 naming the request. */
  lemma HelloWrongMethod()
    ensures Serve(AfterHello, Post("/hello", Batch([]))).response
      == Failed(ErrorHandler.ErrorReply(404, "NotFoundError", "POST /hello mock not found"))
  {
    HelloFacts();
    PostHelloMissed();
    Routes.OtherPathsReachFind("POST", "/hello");
  }

  lemma HelloQueryRouted()
    ensures Routes.Dispatch("GET", "/hello?x=1") == Routes.Find
  {
    HelloFacts();
    Routes.QueryIgnored("/hello", "x=1");
    Routes.OtherPathsReachFind("GET", "/hello?x=1");
  }

  lemma QueryMessage()
    ensures NotFoundMessage("GET", "/hello?x=1") == "GET /hello?x=1 mock not found"
  {
  }

  lemma HelloQueryMissed()
    ensures Valid(AfterHello)
    ensures FindMock(AfterHello, Get("/hello?x=1"))
      == Handled(AfterHello, Raised(NotFound("GET /hello?x=1 mock not found")))
  {
    HelloFound();
    var req := Get("/hello?x=1");
    assert KeyOfRequest(RequestOf(req)) != "/hello__GET" by {
      assert |KeyOfRequest(RequestOf(req))| == |"/hello?x=1__GET"|;
    }
    assert MockRegistry.Find(AfterHello, RequestOf(req)) == Step(AfterHello, Ok(None));
    QueryMessage();
  }

  /**
   * GET /hello?x=1 is routed to find (the router ignores the query string) but the
   * lookup key is built from the whole URL, so the hello mock is not matched.
   */
  lemma HelloWithQueryMissed()
    ensures Serve(AfterHello, Get("/hello?x=1")).response
      == Failed(ErrorHandler.ErrorReply(404, "NotFoundError", "GET /hello?x=1 mock not found"))
  {
    HelloQueryMissed();
    HelloQueryRouted();
  }

  /**
   * A mock registered for GET, POST or DELETE on "/mocks" is stored but can never
   * be served: those requests reach list, add and clear instead.
   */
  lemma MocksPathShadowed(r: Registry, verb: string, url: string, data: Submission)
    requires Valid(r)
    requires verb in {"GET", "POST", "DELETE"}
    requires Routes.MatchesMocks(url)
    ensures Serve(r, HttpRequest(verb, url, Json.EmptyObject, data)).response.Sent? ==>
      Serve(r, HttpRequest(verb, url, Json.EmptyObject, data)).response.payload.Text?
      || Serve(r, HttpRequest(verb, url, Json.EmptyObject, data)).response.payload.Listing?
  {
    Routes.MocksRoutes(url);
  }
}
