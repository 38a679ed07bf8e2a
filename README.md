# Minimal A2A "Parrot" server, modelled in Dafny

This project models the echo server in `a2a-samples/helloworld/minimum_server.py`. The server implements one agent endpoint of the agent-to-agent (A2A) protocol, and it does two things:

- `GET /.well-known/agent.json` returns a constant agent card for the "Parrot Agent". The card has one skill, `parrot`, and advertises streaming.
- `POST /` takes a JSON-RPC-shaped envelope. The method must be `message/send` or `message/stream`; any other method raises `NotImplementedError`. For those two methods the handler builds one response. The response echoes the request id, has `jsonrpc` `"2.0"`, and carries an agent message with a newly generated message id. That message has exactly one text part, whose text is the request's part texts joined by single spaces (`' '.join`). `message/send` returns the response itself. `message/stream` returns it as one server-sent event, `data: <json>\n\n`.

Files:

- `space_join.dfy` (module `SpaceJoin`) defines `' '.join` as the recursive `Join`. It has two independent partners: a left fold `JoinLeft`, and `SplitOnSpace`, which is Python's `str.split(' ')`. Lemmas connect `Join` to each partner. Splitting a join gets the parts back, and joining a split gets the string back.
- `agent_card.dfy` (module `AgentCards`) holds the card's datatypes and the constant `PublicAgentCard`.
- `dispatcher.dfy` (module `Dispatcher`) holds three things:
  - the request and response envelopes: the JSON-RPC id is the sum type `IntId | StrId`, and the field `method` is called `methodName` because `method` is a Dafny keyword;
  - the handler `Run`, which returns `NotImplementedError`, `Send(response)` or `Stream(chunks)`;
  - the endpoint `Post`, which rejects a body whose protocol tag is not `"2.0"` before `Run` sees it.

Lemmas relate the handler to the join, to the server-sent-event framing (`ParseSseEvent` undoes `SseEvent`) and to the agent card.

The model takes two things from the environment as parameters:

- `freshId`: the text of `uuid4().hex`;
- `serialize`: a function parameter standing for `json.dumps` of the response.

The model is pure because the handler is pure: it mutates nothing, and requests share no state.

Two consequences of what the code does:

- The response's message id is whatever `uuid4().hex` returns, and the code never compares it with the request's. So the model states only that the response carries the supplied `freshId` (`MessageIdIsFresh`).
- `message/send` returns the `response` dict, and `message/stream` frames `json.dumps` of that same dict. So the stream's one chunk frames `serialize` of the same response value that `Send` carries (`SendStreamAgree`).

## Model

| member | source | states |
|---|---|---|
| SpaceJoin.Join | a2a-samples/helloworld/minimum_server.py:84-86 | joining no strings gives a string of length 0; joining n >= 1 strings gives the sum of their lengths plus n - 1 (one space between each pair) |
| SpaceJoin.JoinShortLists | a2a-samples/helloworld/minimum_server.py:84-86 | an empty list joins to `""` and a single string joins to itself |
| SpaceJoin.JoinAppend | a2a-samples/helloworld/minimum_server.py:84-86 | the join of two non-empty lists concatenated is the two joins with exactly one space between them |
| SpaceJoin.JoinAgreesWithLeftFold | a2a-samples/helloworld/minimum_server.py:84-86 | the join equals the independent left fold that appends " " and each next string in input order |
| SpaceJoin.SplitOfJoin | a2a-samples/helloworld/minimum_server.py:84-86 | splitting the join of a non-empty list of space-free strings on ' ' gives back exactly that list, in order |
| SpaceJoin.JoinOfSplit | a2a-samples/helloworld/minimum_server.py:84-86 | joining the pieces of any string split on ' ' gives back that string |
| AgentCards.PublicAgentCard | a2a-samples/helloworld/minimum_server.py:25-45 | the constant card advertises streaming, has protocol version "0.2.5", has exactly one skill with id "parrot", and has input and output modes ["text"] |
| Dispatcher.PartTexts | a2a-samples/helloworld/minimum_server.py:85 | the texts of the request parts, one per part, in input order |
| Dispatcher.EchoText | a2a-samples/helloworld/minimum_server.py:84-86 | the output text equals the independent left fold of the part texts in input order; zero parts give ""; for n >= 1 parts its length is the sum of the part text lengths plus n - 1 |
| Dispatcher.BuildResponse | a2a-samples/helloworld/minimum_server.py:75-91 | the response echoes the request id, has jsonrpc "2.0", kind "message", role "agent" and the fresh message id, and has exactly one part, of kind "text", whose text is the space-join of the input texts |
| Dispatcher.SseEvent | a2a-samples/helloworld/minimum_server.py:99 | an event is the payload plus 8 framing characters |
| Dispatcher.Run | a2a-samples/helloworld/minimum_server.py:71-110 | the outcome is the error exactly when the method is neither message/send nor message/stream; it is Send exactly for message/send, carrying the built response; it is Stream exactly for message/stream, and then its only chunk is the event framing of the serialised built response |
| Dispatcher.Post | a2a-samples/helloworld/minimum_server.py:63-71 | a body is rejected before the handler exactly when its protocol tag is not "2.0"; otherwise the reply is the handler's outcome |
| Dispatcher.MalformedNeverDispatched | a2a-samples/helloworld/minimum_server.py:65 | a body whose jsonrpc is not "2.0" gets the validation error, whatever its method |
| Dispatcher.UnknownMethodFails | a2a-samples/helloworld/minimum_server.py:72-73 | a method outside {message/send, message/stream} yields NotImplementedError and neither a response nor a stream |
| Dispatcher.IdPreserved | a2a-samples/helloworld/minimum_server.py:76 | an integer request id comes back as the same integer and a string id as the same string |
| Dispatcher.EchoTextShortLists | a2a-samples/helloworld/minimum_server.py:84-86 | zero parts give the output text "" and one part gives its own text unchanged |
| Dispatcher.EchoRecoversParts | a2a-samples/helloworld/minimum_server.py:84-86 | when no part text contains a space, splitting the output text on ' ' recovers the part texts in input order |
| Dispatcher.EchoExtends | a2a-samples/helloworld/minimum_server.py:84-86 | adding a part at the end of a non-empty list appends one space and that part's text to the output text |
| Dispatcher.OutcomeIgnoresSenderFields | a2a-samples/helloworld/minimum_server.py:75-91 | two requests with the same id, method and part texts get the same outcome, whatever their role, message id and part kinds |
| Dispatcher.SendStreamAgree | a2a-samples/helloworld/minimum_server.py:93-99 | for the same body and fresh id, message/send returns a response and message/stream returns exactly one chunk; that chunk is the event framing of the serialised response, and parsing it gives the serialisation back |
| Dispatcher.RepliesDifferOnlyInMessageId | a2a-samples/helloworld/minimum_server.py:75-91 | responses built for the same request with two fresh ids are equal once the message id is replaced |
| Dispatcher.MessageIdIsFresh | a2a-samples/helloworld/minimum_server.py:80 | the response's message id differs from the request's exactly when the supplied fresh id does |
| Dispatcher.SseRoundTrip | a2a-samples/helloworld/minimum_server.py:99 | parsing the event built from a payload gives back that payload |
| Dispatcher.SseParseIsFraming | a2a-samples/helloworld/minimum_server.py:99 | any chunk that parses to a payload is exactly the event built from that payload |
| Dispatcher.StreamingCapabilityHonoured | a2a-samples/helloworld/minimum_server.py:96-99 | the card advertises streaming, and a message/stream request is indeed answered with a stream |
| Dispatcher.OutputMatchesCardModes | a2a-samples/helloworld/minimum_server.py:81-88 | every part in the response has a kind listed in the card's default output modes |
| Dispatcher.ParrotExamplesEchoed | a2a-samples/helloworld/minimum_server.py:34-41 | the one-part echo case applied to the card's examples: each example of the parrot skill ("hi", "hello world"), sent as a single part, comes back as exactly that text; this holds for any single text, not only for the examples |
| Dispatcher.DocstringExample | a2a-samples/helloworld/minimum_server.py:11 | the documented request (id 1, message/send, one part "Hi", message id "abc") is answered with id 1 and one text part "Hi" |
| Dispatcher.TwoPartExample | a2a-samples/helloworld/minimum_server.py:84-86 | parts "hi" and "world" give the output text "hi world" |

## Left out

- FastAPI routing, the 200 status of the decorator, and the HTTP status codes (422 for a validation error, 500 for the unhandled `NotImplementedError`) are left out. They are web-framework behaviour; the model only distinguishes the outcomes.
- Pydantic validation is modelled only for the `Literal['2.0']` protocol tag. The envelope datatypes rule out the other shape mismatches. Pydantic's lax type coercion (for example `true` or `1.0` becoming an integer id) is not modelled.
- Dispatcher.SendStreamAgree: the `message/send` body is serialised by the web framework, not by `json.dumps`, so the model relates the two outcomes only through the same response value and claims no byte-level equality between the two HTTP bodies.
- `uuid4().hex` is the parameter `freshId`. Its uniqueness across calls is a property of random generation and cannot be stated for a deterministic function.
- `json.dumps` is the function parameter `serialize`. The model does not state that its output is a single line or is valid JSON.
- The `StreamingResponse` transport, the `text/event-stream` media type and the four response headers are left out. They are transport configuration; the model keeps only the chunks the generator yields.
- `uvicorn.run` with host `localhost` and port 9999 is left out, because it is process launch, not logic.
- Asynchronous, concurrent serving is left out. Each call is independent and shares no state.
