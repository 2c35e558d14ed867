/** The greeting service's request handlers: the payload types, the
    validation error type with its display text and its HTTP response, the
    two validating greeters and the three fixed responders.  Every handler is
    a total function of the data the framework extracted from the request. */
module Handlers {

  datatype Option<+T> = None | Some(value: T)

  /** The greeting sent back as a JSON object `{"greet": ..., "name": ...}`. */
  datatype Greet = Greet(greet: string, name: string)

  /** The JSON body accepted by the POST greeter, already deserialised. */
  datatype GreetMe = GreetMe(input: string, name: string)

  /** The validation errors a handler can return; they carry no data. */
  datatype ServerError = MissingName | InvalidPayload

  /** A handler's outcome before it is turned into a response. */
  datatype Result<+T> = Ok(value: T) | Err(error: ServerError)

  const OK: int := 200
  const BAD_REQUEST: int := 400
  const NOT_FOUND: int := 404

  /** A response body: plain text, or a greeting serialised as JSON. */
  datatype Body = Text(text: string) | Json(greeting: Greet)

  datatype Response = Response(status: int, body: Body)

  /** The human-readable message of an error. */
  function Display(e: ServerError): string
  {
    match e
    case MissingName => "Name parameter not provided."
    case InvalidPayload => "Invalid request payload."
  }

  lemma DisplayText()
    ensures Display(MissingName) == "Name parameter not provided."
    ensures Display(InvalidPayload) == "Invalid request payload."
  {
  }

  /** Distinct errors have distinct messages, so a client can tell them apart. */
  lemma DisplayInjective(a: ServerError, b: ServerError)
    ensures Display(a) == Display(b) <==> a == b
  {
  }

  /** The conversion of an error into a response: every variant becomes a
      400 whose plain-text body is that variant's message. */
  function IntoResponse(e: ServerError): (r: Response)
    ensures r.status == BAD_REQUEST
    ensures r.body == Text(Display(e))
  {
    match e
    case MissingName => Response(BAD_REQUEST, Text(Display(e)))
    case InvalidPayload => Response(BAD_REQUEST, Text(Display(e)))
  }

  /** The error is recoverable from its response. */
  lemma IntoResponseInjective(a: ServerError, b: ServerError)
    ensures IntoResponse(a) == IntoResponse(b) <==> a == b
  {
  }

  /** A greeter's `Result<Json<Greet>, ServerError>` as a response: a
      greeting is sent as JSON with the default status 200, an error by
      IntoResponse. */
  function GreetResponse(r: Result<Greet>): (resp: Response)
    ensures resp.status == OK <==> r.Ok?
    ensures r.Ok? ==> resp.body == Json(r.value)
    ensures r.Err? ==> resp == IntoResponse(r.error)
  {
    match r
    case Ok(g) => Response(OK, Json(g))
    case Err(e) => IntoResponse(e)
  }

  /** The path greeter: an empty name is rejected, any other name is
      greeted with "Hello" and passed through untouched. */
  function GreetUser(name: string): (r: Result<Greet>)
    ensures r.Ok? <==> name != ""
    ensures r.Ok? ==> r.value == Greet("Hello", name)
    ensures r.Err? ==> r.error == MissingName
  {
    if name == "" then Err(MissingName) else Ok(Greet("Hello", name))
  }

  /** The payload is present and neither of its fields is empty. */
  predicate ValidPayload(payload: Option<GreetMe>)
  {
    payload.Some? && payload.value.input != "" && payload.value.name != ""
  }

  /** The body greeter: a present payload with two non-empty fields is
      echoed back as a greeting; anything else is an invalid payload. */
  function GreetUserPost(payload: Option<GreetMe>): (r: Result<Greet>)
    ensures r.Ok? <==> ValidPayload(payload)
    ensures r.Ok? ==> r.value == Greet(payload.value.input, payload.value.name)
    ensures r.Err? ==> r.error == InvalidPayload
  {
    match payload
    case Some(body) =>
      if body.input != "" && body.name != "" then Ok(Greet(body.input, body.name))
      else Err(InvalidPayload)
    case None => Err(InvalidPayload)
  }

  /** Posting `{"input": "Hello", "name": n}` yields the same greeting as
      the path greeter for n; the two greeters only differ in the error they
      report for an empty name. */
  lemma GreetersAgree(name: string)
    ensures name != "" ==> GreetUserPost(Some(GreetMe("Hello", name))) == GreetUser(name)
    ensures name == "" ==>
      GreetUser(name) == Err(MissingName) && GreetUserPost(Some(GreetMe("Hello", name))) == Err(InvalidPayload)
  {
  }

  /** The plain hello handler; its status is the default 200. */
  function Hello(): Response
  {
    Response(OK, Text("Hello, World!"))
  }

  /** The responder registered for the root path. */
  function NotFound(): Response
  {
    Response(NOT_FOUND, Text("404 page not found"))
  }

  /** The responder for requests that match no route. */
  function Fallback(): Response
  {
    Response(NOT_FOUND, Text("Empty Response!"))
  }

  lemma HelloResponse()
    ensures Hello().status == OK && Hello().body == Text("Hello, World!")
  {
  }

  lemma NotFoundResponse()
    ensures NotFound().status == NOT_FOUND && NotFound().body == Text("404 page not found")
  {
  }

  /** Both 404 responders answer 404, with bodies that tell them apart. */
  lemma FallbackResponse()
    ensures Fallback().status == NOT_FOUND && Fallback().body == Text("Empty Response!")
    ensures Fallback().status == NotFound().status && Fallback().body != NotFound().body
  {
  }
}
