/** The service's route table and the dispatch of a request to one of its
    handlers.  The table holds the four routes the service registers plus a
    GET fallback; only what that table itself determines is modelled, and
    every request whose fate the web framework decides on its own (a wrong
    method on a declared path, an unmatched non-GET request, an empty
    `/greet/` segment, a segment the path extractor must percent-decode, a
    POST body the JSON extractor rejects) is reported as
    `Unrouted`, with no response claimed for it. */
module Router {
  import opened Handlers

  /** A request method; `OtherMethod` stands for every method other than
      GET and POST, so its token is never "GET" or "POST". */
  datatype Method = Get | Post | OtherMethod(token: string)

  /** A route's path: a literal path, or a literal prefix followed by exactly
      one non-empty path segment that is captured as a parameter. */
  datatype Pattern = Exact(path: string) | Capture(prefix: string)

  /** The handlers the service registers. */
  datatype Handler = HelloHandler | NotFoundHandler | GreetUserHandler | GreetUserPostHandler | FallbackHandler

  datatype Route = Route(verb: Method, pattern: Pattern, handler: Handler)

  /** What the router does with a request: invoke a handler with the
      captured segment (empty for a route without one), or leave the request
      to the framework. */
  datatype Dispatch = Invoke(handler: Handler, segment: string) | Unrouted

  /** The JSON body of a request: the value the extractor produced
      (`null` is `None`), or a body it rejected before any handler ran. */
  datatype Payload = Parsed(value: Option<GreetMe>) | Unparsable

  datatype Request = Request(verb: Method, path: string, body: Payload)

  const GreetPrefix: string := "/greet/"

  /** The routes, in the order they are registered. */
  const RouteTable: seq<Route> := [
    Route(Get, Exact("/hello"), HelloHandler),
    Route(Get, Exact("/"), NotFoundHandler),
    Route(Get, Capture(GreetPrefix), GreetUserHandler),
    Route(Post, Exact("/greetme"), GreetUserPostHandler)
  ]

  predicate Matches(p: Pattern, path: string)
  {
    match p
    case Exact(s) => path == s
    case Capture(prefix) => prefix < path && '/' !in path[|prefix|..]
  }

  /** The path a capturing pattern leaves undecided: its prefix with an
      empty segment. */
  predicate EmptyCapture(p: Pattern, path: string)
  {
    p.Capture? && path == p.prefix
  }

  /** The segment a pattern captures from a path it matches. */
  function Segment(p: Pattern, path: string): (s: string)
    requires Matches(p, path)
    ensures p.Capture? ==> path == p.prefix + s && s != "" && '/' !in s
    ensures p.Exact? ==> s == ""
  {
    match p
    case Exact(_) => ""
    case Capture(prefix) => path[|prefix|..]
  }

  /** The position of the first route of `table` whose pattern matches
      `path`, if there is one. */
  function Lookup(table: seq<Route>, path: string): (r: Option<nat>)
    ensures r.Some? ==> r.value < |table| && Matches(table[r.value].pattern, path)
    ensures r.Some? ==> forall j :: 0 <= j < r.value ==> !Matches(table[j].pattern, path)
    ensures r.None? <==> forall j :: 0 <= j < |table| ==> !Matches(table[j].pattern, path)
  {
    if |table| == 0 then None
    else if Matches(table[0].pattern, path) then Some(0)
    else
      match Lookup(table[1..], path)
      case None => None
      case Some(i) => Some(i + 1)
  }

  /** No path matches two routes of the table, so the order of registration
      does not matter and a match is unique. */
  lemma RoutesDisjoint(path: string, i: nat, j: nat)
    requires i < j < |RouteTable|
    ensures !(Matches(RouteTable[i].pattern, path) && Matches(RouteTable[j].pattern, path))
  {
    if Matches(RouteTable[2].pattern, path) {
      assert path[..|GreetPrefix|] == GreetPrefix;
      assert path != "/hello" by { assert |"/hello"| < |GreetPrefix|; }
      assert path != "/" by { assert |"/"| < |GreetPrefix|; }
      assert path != "/greetme" by { assert "/greetme"[6] != GreetPrefix[6]; }
    }
  }

  /** The dispatch of a request line: a matching route with the same
      method invokes its handler; an unmatched GET goes to the fallback.  A
      captured segment holding `%` is left to the framework's path
      extractor, which decodes it or rejects it before any handler runs. */
  function Resolve(m: Method, path: string): (d: Dispatch)
    ensures d.Invoke? && d.handler != FallbackHandler ==>
      exists i :: 0 <= i < |RouteTable| && RouteTable[i].verb == m && Matches(RouteTable[i].pattern, path)
                  && RouteTable[i].handler == d.handler && d.segment == Segment(RouteTable[i].pattern, path)
    ensures d.Invoke? ==> '%' !in d.segment
    ensures d.Invoke? && d.handler == FallbackHandler <==>
      m == Get && forall i :: 0 <= i < |RouteTable| ==> !Matches(RouteTable[i].pattern, path) && !EmptyCapture(RouteTable[i].pattern, path)
  {
    match Lookup(RouteTable, path)
    case Some(i) =>
      var route := RouteTable[i];
      var segment := Segment(route.pattern, path);
      if route.verb == m && '%' !in segment then Invoke(route.handler, segment) else Unrouted
    case None =>
      if m == Get && forall i :: 0 <= i < |RouteTable| ==> !EmptyCapture(RouteTable[i].pattern, path)
      then Invoke(FallbackHandler, "")
      else Unrouted
  }

  /** Each declared (method, path) pair reaches exactly its own handler. */
  lemma ResolveDeclared(segment: string)
    ensures Resolve(Get, "/hello") == Invoke(HelloHandler, "")
    ensures Resolve(Get, "/") == Invoke(NotFoundHandler, "")
    ensures Resolve(Post, "/greetme") == Invoke(GreetUserPostHandler, "")
    ensures segment != "" && '/' !in segment && '%' !in segment ==>
      Resolve(Get, GreetPrefix + segment) == Invoke(GreetUserHandler, segment)
  {
    assert Matches(RouteTable[0].pattern, "/hello");
    assert Matches(RouteTable[1].pattern, "/");
    assert Matches(RouteTable[3].pattern, "/greetme");
    RoutesDisjoint("/greetme", 2, 3);
    if segment != "" && '/' !in segment && '%' !in segment {
      var path := GreetPrefix + segment;
      assert path[|GreetPrefix|..] == segment;
      assert Matches(RouteTable[2].pattern, path);
      forall i | 0 <= i < |RouteTable| && i != 2
        ensures !Matches(RouteTable[i].pattern, path)
      {
        RoutesDisjoint(path, if i < 2 then i else 2, if i < 2 then 2 else i);
      }
    }
  }

  /** The path greeter is reached only through its own route, with the
      segment that follows the prefix. */
  lemma ResolveGreetUser(m: Method, path: string, segment: string)
    requires Resolve(m, path) == Invoke(GreetUserHandler, segment)
    ensures m == Get && path == GreetPrefix + segment && segment != "" && '/' !in segment && '%' !in segment
  {
  }

  /** A segment that holds `%` reaches no handler of the model, for any
      method: the framework's path extractor decodes it or rejects it. */
  lemma ResolveEncodedSegment(m: Method, segment: string)
    requires '%' in segment && '/' !in segment
    ensures Resolve(m, GreetPrefix + segment) == Unrouted
  {
    var path := GreetPrefix + segment;
    assert path[|GreetPrefix|..] == segment;
    assert Matches(RouteTable[2].pattern, path);
    forall i | 0 <= i < |RouteTable| && i != 2
      ensures !Matches(RouteTable[i].pattern, path)
    {
      RoutesDisjoint(path, if i < 2 then i else 2, if i < 2 then 2 else i);
    }
  }

  /** The fallback is what every GET path outside the table reaches. */
  lemma ResolveFallback(path: string)
    requires path != "/hello" && path != "/" && path != "/greetme" && !(GreetPrefix <= path)
    ensures Resolve(Get, path) == Invoke(FallbackHandler, "")
  {
  }

  /** The response the service sends for a request, when the route table
      decides it. */
  function Respond(req: Request): Option<Response>
  {
    match Resolve(req.verb, req.path)
    case Unrouted => None
    case Invoke(h, segment) =>
      match h
      case HelloHandler => Some(Hello())
      case NotFoundHandler => Some(NotFound())
      case GreetUserHandler => Some(GreetResponse(GreetUser(segment)))
      case GreetUserPostHandler =>
        if req.body.Parsed? then Some(GreetResponse(GreetUserPost(req.body.value))) else None
      case FallbackHandler => Some(Fallback())
  }

  /** GET /hello answers the fixed text whatever the request carries. */
  lemma RespondHello(body: Payload)
    ensures Respond(Request(Get, "/hello", body)) == Some(Response(OK, Text("Hello, World!")))
  {
  }

  /** GET / answers the root 404, distinct from the fallback's. */
  lemma RespondRoot(body: Payload)
    ensures Respond(Request(Get, "/", body)) == Some(Response(NOT_FOUND, Text("404 page not found")))
  {
    ResolveDeclared("");
  }

  /** GET /greet/<segment> greets a non-empty single segment that needs no
      percent-decoding by name. */
  lemma RespondGreetUser(segment: string, body: Payload)
    requires segment != "" && '/' !in segment && '%' !in segment
    ensures Respond(Request(Get, GreetPrefix + segment, body)) == Some(Response(OK, Json(Greet("Hello", segment))))
  {
    ResolveDeclared(segment);
  }

  /** POST /greetme echoes a valid payload and answers 400 with the invalid
      payload message otherwise. */
  lemma RespondGreetUserPost(payload: Option<GreetMe>)
    ensures ValidPayload(payload) ==>
      Respond(Request(Post, "/greetme", Parsed(payload))) == Some(Response(OK, Json(Greet(payload.value.input, payload.value.name))))
    ensures !ValidPayload(payload) ==>
      Respond(Request(Post, "/greetme", Parsed(payload))) == Some(Response(BAD_REQUEST, Text("Invalid request payload.")))
  {
    ResolveDeclared("");
  }

  /** Any other GET path answers the fallback's 404. */
  lemma RespondFallback(path: string, body: Payload)
    requires path != "/hello" && path != "/" && path != "/greetme" && !(GreetPrefix <= path)
    ensures Respond(Request(Get, path, body)) == Some(Response(NOT_FOUND, Text("Empty Response!")))
  {
  }

  /** Every response the route table decides is a 200 (the hello text or a
      JSON greeting), a 400 carrying an error's message, or one of the two
      fixed 404s. */
  lemma ResponseShape(req: Request)
    requires Respond(req).Some?
    ensures var r := Respond(req).value;
      || (r.status == OK && (r.body.Json? || r.body == Text("Hello, World!")))
      || (r.status == BAD_REQUEST && (r.body == Text(Display(MissingName)) || r.body == Text(Display(InvalidPayload))))
      || (r.status == NOT_FOUND && (r.body == Text("404 page not found") || r.body == Text("Empty Response!")))
  {
  }
}
