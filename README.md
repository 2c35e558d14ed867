# Greeting web service: handlers and routing

A model of a small HTTP greeting service (`src/main.rs`). On port 4000 it serves four routes:

- `GET /hello` answers the plain text "Hello, World!".
- `GET /` answers a fixed 404, "404 page not found".
- `GET /greet/:name` greets the path segment.
- `POST /greetme` greets with the `input` and `name` of a JSON body.

A GET request that matches no route gets a second fixed 404, "Empty Response!". The two greeters validate their input and either return a `Greet { greet, name }` (sent as JSON with status 200) or a `ServerError`. Each error variant has a fixed display message and becomes a 400 response whose plain-text body is that message.

The model has two modules. Both are pure: every handler in the source is a single `if` or `match` that returns a value.

- `Handlers` (`handlers.dfy`) holds:
  - the datatypes `Greet`, `GreetMe`, `ServerError`, `Result` and `Response`;
  - `Display` and `IntoResponse`, the error's message and its response;
  - the validators `GreetUser` and `GreetUserPost`;
  - `GreetResponse`, which turns a validator's `Result` into a response;
  - the fixed responders `Hello`, `NotFound` and `Fallback`.
- `Router` (`router.dfy`) holds:
  - the route table as data, `RouteTable`;
  - `Lookup`, which finds the route whose pattern matches a path;
  - `Resolve`, which dispatches a (method, path) pair to a handler;
  - `Respond`, which runs the whole request path from request to response.

`Respond` returns `None` for a request whose outcome the web framework decides on its own, not the route table. Its inputs are already extracted:

- the path segment, as the framework's matcher captured it, before any percent-decoding (a segment holding `%` is left to the framework's path extractor);
- the POST body, as the framework's JSON extractor parsed it (`Parsed(None)` is a JSON `null`; `Unparsable` is a body the extractor rejected).

Status codes are plain integers: 200, 400 and 404.

Two answers one might expect are not what the code gives:

- `GET /greet/` with an empty segment answering 400;
- `POST /greetme` with no body answering 400 "Invalid request payload.".

The model follows the code. The empty-name branch is proved for the handler itself (`GreetUser("")` is `Err(MissingName)`). Whether an empty segment reaches the handler is up to the framework's matcher, so `Resolve` leaves that path `Unrouted`. A request with no body never reaches the POST handler: the JSON extractor rejects it. Only a JSON `null` reaches the handler, and it answers 400 "Invalid request payload.".

## Model

| member | source | states |
|---|---|---|
| `Handlers.DisplayText` | src/main.rs:35-42 | `MissingName` displays exactly "Name parameter not provided." and `InvalidPayload` exactly "Invalid request payload." |
| `Handlers.DisplayInjective` | src/main.rs:37-40 | two errors have the same message if and only if they are the same variant |
| `Handlers.IntoResponse` | src/main.rs:48-57 | every error, whatever its variant, becomes status 400 with the plain-text body equal to its display message |
| `Handlers.IntoResponseInjective` | src/main.rs:50-55 | two errors give the same response if and only if they are the same variant, so the error can be read back from the response |
| `Handlers.GreetResponse` | src/main.rs:104-113 | a validator's result is answered with 200 exactly when it is a success; a success is sent as that greeting in JSON and an error as its `IntoResponse` |
| `Handlers.GreetUser` | src/main.rs:104-114 | succeeds if and only if the name is non-empty; a success is `Greet("Hello", name)` with the name unchanged; a failure is always `MissingName`, never `InvalidPayload` |
| `Handlers.GreetUserPost` | src/main.rs:119-131 | succeeds if and only if the payload is present and both `input` and `name` are non-empty; a success copies both fields through unchanged; a failure is always `InvalidPayload`, never `MissingName` |
| `Handlers.GreetersAgree` | src/main.rs:104-131 | posting input "Hello" with a non-empty name gives the same result as the path greeter; for an empty name the path greeter reports `MissingName` and the body greeter `InvalidPayload` |
| `Handlers.HelloResponse` | src/main.rs:88-91 | the hello handler answers status 200 with the text "Hello, World!" |
| `Handlers.NotFoundResponse` | src/main.rs:97-99 | the root responder answers 404 with "404 page not found" |
| `Handlers.FallbackResponse` | src/main.rs:134-136 | the fallback answers 404 with "Empty Response!"; it shares the root responder's status but not its body |
| `Router.Segment` | src/main.rs:77 | the captured segment is the rest of the path after `/greet/`; it is non-empty, holds no `/`, and prefix plus segment rebuilds the path |
| `Router.Lookup` | src/main.rs:74-78 | returns the first route whose pattern matches the path; returns none if and only if no route matches |
| `Router.RoutesDisjoint` | src/main.rs:74-78 | no path matches two routes of the table, so a matching route is unique |
| `Router.Resolve` | src/main.rs:74-79 | a handler other than the fallback is invoked only through a route with that handler, the request's method and a pattern that matches the path, with the segment that pattern captures, which never holds `%`; the fallback is invoked if and only if the method is GET, no route matches, and the path is not the bare `/greet/` |
| `Router.ResolveDeclared` | src/main.rs:75-78 | GET /hello, GET /, POST /greetme and GET /greet/<segment> (non-empty, no `/`, no `%`) each reach their own handler, the last with the segment as name |
| `Router.ResolveGreetUser` | src/main.rs:77 | the path greeter is reached only by a GET of `/greet/` followed by a non-empty segment without `/` or `%`, and the name it receives is that segment |
| `Router.ResolveEncodedSegment` | src/main.rs:77 | a `/greet/` segment holding `%` reaches no handler of the model, whatever the method: the `Path` extractor of src/main.rs:104 decodes it, or rejects it, before `greet_user` runs |
| `Router.ResolveFallback` | src/main.rs:79 | a GET of any path other than the declared ones and not under `/greet/` reaches the fallback |
| `Router.RespondHello` | src/main.rs:75 | GET /hello answers 200 "Hello, World!" whatever body the request carries |
| `Router.RespondRoot` | src/main.rs:76 | GET / answers 404 "404 page not found" whatever body the request carries |
| `Router.RespondGreetUser` | src/main.rs:77 | GET /greet/<segment>, for a non-empty segment without `/` or `%`, answers 200 with the JSON greeting `{greet: "Hello", name: segment}` |
| `Router.RespondGreetUserPost` | src/main.rs:78 | POST /greetme with a parsed payload answers 200 with the payload echoed as a greeting when the payload is valid, and 400 "Invalid request payload." otherwise |
| `Router.RespondFallback` | src/main.rs:79 | a GET of any undeclared path outside `/greet/` answers 404 "Empty Response!" |
| `Router.ResponseShape` | src/main.rs:74-136 | every response the route table decides is a 200 (hello text or a JSON greeting), a 400 carrying one of the two error messages, or one of the two fixed 404s |

## Left out

- Binding the TCP listener on 0.0.0.0:4000, the serve loop and the logging of their failures to standard error (src/main.rs:61-72, 81-85): these are I/O on the async runtime.
- JSON serialisation of `Greet` and deserialisation of `GreetMe`: these are library code. A greeting body is modelled as the `Greet` value itself. The POST body reaches the model already parsed, or marked `Unparsable`.
- The framework's own answers are not modelled. `Respond` returns `None` for each of these:
  - a wrong method on a declared path (for example POST /hello);
  - an unmatched request that is not a GET (the fallback is registered as `get(fallback)`);
  - GET `/greet/` with an empty segment;
  - GET `/greet/<segment>` with a segment holding `%`: the `Path` extractor decodes it, or answers its own 400 when it does not decode to UTF-8;
  - a POST body the JSON extractor rejects (no body, a wrong content type, malformed JSON).
- Router.RespondGreetUser: the name is the raw captured segment. Segments that need percent-decoding are left to the framework. The decoded name, and the extractor's rejection of a segment that does not decode, are not modelled.
- Router.Resolve: the framework's matcher is modelled only for the literal paths and the one-segment capture of the table. HEAD requests answered by GET routes, and query strings are not modelled.
- The method constructor `OtherMethod` stands for every method other than GET and POST. Its token is never "GET" or "POST"; the model does not enforce this.
- Response headers, such as the content type, are not modelled. The body's variant (`Text` or `Json`) stands for the content type.
- Concurrency and asynchronous execution of handlers. Every handler is a pure function with no shared state, so repeating a request always gives the same response.
