/**
 The message endpoint `POST /` of the minimal A2A server: the request
 envelope, the echo response it builds, and the dispatch on the JSON-RPC
 method into a plain reply (`message/send`) or a one-event server-sent-event
 stream (`message/stream`).

 Two things the handler takes from its environment are parameters here:
 `freshId` is the hex text of the newly generated UUID, and `serialize`
 stands for the JSON serialiser applied to the response in the stream case.
 */
module Dispatcher {
  import opened SpaceJoin
  import opened AgentCards

  /** A JSON-RPC id is either an integer or a string; the variant is kept. */
  datatype RequestId = IntId(i: int) | StrId(s: string)

  datatype RequestPart = RequestPart(kind: string, text: string)

  datatype RequestMessage = RequestMessage(role: string, parts: seq<RequestPart>, messageId: string)

  datatype RequestParameters = RequestParameters(message: RequestMessage)

  datatype RequestEnvelope = RequestEnvelope(
    id: RequestId,
    jsonrpc: string,
    methodName: string,
    params: RequestParameters)

  datatype ResponsePart = ResponsePart(kind: string, text: string)

  datatype ResponseMessage = ResponseMessage(
    kind: string,
    messageId: string,
    parts: seq<ResponsePart>,
    role: string)

  datatype ResponseEnvelope = ResponseEnvelope(id: RequestId, jsonrpc: string, result: ResponseMessage)

  /** What the handler does with a validated envelope: raise `NotImplementedError`,
      return the response as it is, or stream it as a sequence of chunks. */
  datatype Outcome = NotImplementedError | Send(response: ResponseEnvelope) | Stream(chunks: seq<string>)

  /** What the endpoint does with a body: refuse it before the handler runs, or hand it over. */
  datatype Reply = ValidationError | Handled(outcome: Outcome)

  datatype Option<T> = None | Some(value: T)

  const SendMethod: string := "message/send"
  const StreamMethod: string := "message/stream"
  const SupportedMethods: set<string> := {SendMethod, StreamMethod}

  /** The texts of the parts, in order (the generator `part.text for part in parts`). */
  function PartTexts(parts: seq<RequestPart>): (texts: seq<string>)
    ensures |texts| == |parts|
    ensures forall i :: 0 <= i < |parts| ==> texts[i] == parts[i].text
  {
    if |parts| == 0 then [] else [parts[0].text] + PartTexts(parts[1..])
  }

  /** The text of the single output part: the part texts joined by single spaces.
      It agrees with the left fold and has one space fewer than there are parts. */
  function EchoText(req: RequestEnvelope): (text: string)
    ensures text == JoinLeft(PartTexts(req.params.message.parts))
    ensures |req.params.message.parts| == 0 ==> text == ""
    ensures |req.params.message.parts| > 0 ==>
              |text| == SumLengths(PartTexts(req.params.message.parts)) + |req.params.message.parts| - 1
  {
    JoinAgreesWithLeftFold(PartTexts(req.params.message.parts));
    Join(PartTexts(req.params.message.parts))
  }

  /** The response dictionary built for a supported method. */
  function BuildResponse(req: RequestEnvelope, freshId: string): (resp: ResponseEnvelope)
    ensures resp.id == req.id && resp.jsonrpc == "2.0"
    ensures resp.result.kind == "message" && resp.result.role == "agent"
    ensures resp.result.messageId == freshId
    ensures |resp.result.parts| == 1 && resp.result.parts[0].kind == "text"
    ensures resp.result.parts[0].text == EchoText(req)
  {
    ResponseEnvelope(
      id := req.id,
      jsonrpc := "2.0",
      result := ResponseMessage(
        kind := "message",
        messageId := freshId,
        parts := [ResponsePart(kind := "text", text := EchoText(req))],
        role := "agent"))
  }

  /** One server-sent event carrying `payload` as its data line. */
  function SseEvent(payload: string): (chunk: string)
    ensures |chunk| == |payload| + 8
  {
    "data: " + payload + "\n\n"
  }

  /** Reads the payload back out of an event built by `SseEvent`. */
  function ParseSseEvent(chunk: string): (payload: Option<string>)
  {
    if |chunk| >= 8 && chunk[..6] == "data: " && chunk[|chunk| - 2..] == "\n\n"
    then Some(chunk[6..|chunk| - 2])
    else None
  }

  /** The handler `run`: refuse unknown methods, otherwise build the echo
      response and return it directly or as a single event. */
  function Run(req: RequestEnvelope, freshId: string, serialize: ResponseEnvelope -> string): (o: Outcome)
    ensures o.NotImplementedError? <==> req.methodName !in SupportedMethods
    ensures o.Send? <==> req.methodName == SendMethod
    ensures o.Stream? <==> req.methodName == StreamMethod
    ensures o.Send? ==> o.response == BuildResponse(req, freshId)
    ensures o.Stream? ==> o.chunks == [SseEvent(serialize(BuildResponse(req, freshId)))]
  {
    if req.methodName !in SupportedMethods then NotImplementedError
    else
      var response := BuildResponse(req, freshId);
      if req.methodName == SendMethod then Send(response)
      else Stream([SseEvent(serialize(response))])
  }

  /** The endpoint: the schema check (the protocol tag must be `"2.0"`; the other
      field types are enforced by the datatypes themselves), then the handler. */
  function Post(req: RequestEnvelope, freshId: string, serialize: ResponseEnvelope -> string): (reply: Reply)
    ensures reply.ValidationError? <==> req.jsonrpc != "2.0"
    ensures reply.Handled? ==> reply.outcome == Run(req, freshId, serialize)
  {
    if req.jsonrpc == "2.0" then Handled(Run(req, freshId, serialize)) else ValidationError
  }

  // ---------------------------------------------------------------------
  // Properties of the handler

  /** A body with a wrong protocol tag never reaches the handler, whatever its method. */
  lemma MalformedNeverDispatched(req: RequestEnvelope, freshId: string, serialize: ResponseEnvelope -> string)
    requires req.jsonrpc != "2.0"
    ensures Post(req, freshId, serialize) == ValidationError
  {
  }

  /** An unsupported method yields the error on every body, and no response at all. */
  lemma UnknownMethodFails(req: RequestEnvelope, freshId: string, serialize: ResponseEnvelope -> string)
    requires req.methodName != SendMethod && req.methodName != StreamMethod
    ensures Run(req, freshId, serialize) == NotImplementedError
    ensures !Run(req, freshId, serialize).Send? && !Run(req, freshId, serialize).Stream?
  {
  }

  /** The response echoes the request id with its variant: an integer id stays
      the same integer, a string id the same string. */
  lemma IdPreserved(req: RequestEnvelope, freshId: string)
    ensures req.id.IntId? ==> BuildResponse(req, freshId).id == IntId(req.id.i)
    ensures req.id.StrId? ==> BuildResponse(req, freshId).id == StrId(req.id.s)
  {
  }

  /** No parts give the empty text; one part gives its text unchanged. */
  lemma EchoTextShortLists(req: RequestEnvelope)
    ensures |req.params.message.parts| == 0 ==> EchoText(req) == ""
    ensures |req.params.message.parts| == 1 ==> EchoText(req) == req.params.message.parts[0].text
  {
    JoinShortLists(if |req.params.message.parts| == 1 then req.params.message.parts[0].text else "");
  }

  /** The texts appear in input order: splitting the echo on spaces recovers
      the part texts when none of them contains a space. */
  lemma EchoRecoversParts(req: RequestEnvelope)
    requires |req.params.message.parts| > 0
    requires forall i :: 0 <= i < |req.params.message.parts| ==> ' ' !in req.params.message.parts[i].text
    ensures SplitOnSpace(EchoText(req)) == PartTexts(req.params.message.parts)
  {
    SplitOfJoin(PartTexts(req.params.message.parts));
  }

  /** Adding a part at the end appends a space and its text to the echo. */
  lemma EchoExtends(req: RequestEnvelope, p: RequestPart)
    requires |req.params.message.parts| > 0
    ensures var m := req.params.message;
            EchoText(req.(params := RequestParameters(m.(parts := m.parts + [p]))))
            == EchoText(req) + " " + p.text
  {
    var m := req.params.message;
    var longer := req.(params := RequestParameters(m.(parts := m.parts + [p])));
    PartTextsAppend(m.parts, [p]);
    assert PartTexts(longer.params.message.parts) == PartTexts(m.parts) + [p.text];
    JoinAppend(PartTexts(m.parts), [p.text]);
  }

  lemma {:induction false} PartTextsAppend(a: seq<RequestPart>, b: seq<RequestPart>)
    ensures PartTexts(a + b) == PartTexts(a) + PartTexts(b)
  {
    if |a| > 0 {
      assert (a + b)[1..] == a[1..] + b;
      PartTextsAppend(a[1..], b);
    }
  }

  /** Only the request id, the method and the part texts flow into the outcome:
      the sender's role, its message id and the parts' kinds do not. */
  lemma OutcomeIgnoresSenderFields(r1: RequestEnvelope, r2: RequestEnvelope, freshId: string, serialize: ResponseEnvelope -> string)
    requires r1.id == r2.id && r1.methodName == r2.methodName
    requires PartTexts(r1.params.message.parts) == PartTexts(r2.params.message.parts)
    ensures Run(r1, freshId, serialize) == Run(r2, freshId, serialize)
  {
  }

  /** For the same body and fresh id, the stream carries exactly one event whose
      data is the serialised response that `message/send` returns. */
  lemma SendStreamAgree(req: RequestEnvelope, freshId: string, serialize: ResponseEnvelope -> string)
    ensures var sent := Run(req.(methodName := SendMethod), freshId, serialize);
            var streamed := Run(req.(methodName := StreamMethod), freshId, serialize);
            sent.Send? && streamed.Stream? &&
            streamed.chunks == [SseEvent(serialize(sent.response))] &&
            ParseSseEvent(streamed.chunks[0]) == Some(serialize(sent.response))
  {
    SseRoundTrip(serialize(BuildResponse(req.(methodName := SendMethod), freshId)));
  }

  /** The two responses differ only in what the caller passes as the fresh id. */
  lemma RepliesDifferOnlyInMessageId(req: RequestEnvelope, id1: string, id2: string)
    ensures BuildResponse(req, id1).(result := BuildResponse(req, id1).result.(messageId := id2))
            == BuildResponse(req, id2)
  {
  }

  /** The response's message id is the fresh one, so it differs from the
      request's exactly when the fresh id does. */
  lemma MessageIdIsFresh(req: RequestEnvelope, freshId: string)
    ensures BuildResponse(req, freshId).result.messageId != req.params.message.messageId
            <==> freshId != req.params.message.messageId
  {
  }

  /** Framing then parsing gives the payload back. */
  lemma SseRoundTrip(payload: string)
    ensures ParseSseEvent(SseEvent(payload)) == Some(payload)
  {
    var chunk := SseEvent(payload);
    assert chunk[..6] == "data: ";
    assert chunk[|chunk| - 2..] == "\n\n";
    assert chunk[6..|chunk| - 2] == payload;
  }

  /** Whatever parses as an event is exactly the framing of its payload. */
  lemma SseParseIsFraming(chunk: string, payload: string)
    requires ParseSseEvent(chunk) == Some(payload)
    ensures SseEvent(payload) == chunk
  {
    assert chunk == chunk[..6] + chunk[6..|chunk| - 2] + chunk[|chunk| - 2..];
  }

  // ---------------------------------------------------------------------
  // The handler against the agent card

  /** The card's streaming capability is backed: a `message/stream` request is streamed. */
  lemma StreamingCapabilityHonoured(req: RequestEnvelope, freshId: string, serialize: ResponseEnvelope -> string)
    requires req.methodName == StreamMethod
    ensures PublicAgentCard().capabilities.streaming
    ensures Run(req, freshId, serialize).Stream?
  {
  }

  /** Every part the handler produces has a kind among the card's output modes. */
  lemma OutputMatchesCardModes(req: RequestEnvelope, freshId: string)
    ensures forall p :: p in BuildResponse(req, freshId).result.parts ==> p.kind in PublicAgentCard().defaultOutputModes
  {
  }

  /** The one-part case of the echo applied to the card's own examples: each
      example of the parrot skill, sent as a single part, comes back unchanged.
      Membership in the card plays no part in the proof; any single text would do. */
  lemma ParrotExamplesEchoed(req: RequestEnvelope, freshId: string, e: string)
    requires e in PublicAgentCard().skills[0].examples
    requires |req.params.message.parts| == 1 && req.params.message.parts[0].text == e
    ensures BuildResponse(req, freshId).result.parts == [ResponsePart("text", e)]
  {
    EchoTextShortLists(req);
  }

  // ---------------------------------------------------------------------
  // The usage examples

  /** The request of the module docstring: `"Hi"` from the user comes back as `"Hi"` from the agent. */
  lemma DocstringExample(freshId: string, serialize: ResponseEnvelope -> string)
    ensures var req := RequestEnvelope(IntId(1), "2.0", SendMethod,
              RequestParameters(RequestMessage("user", [RequestPart("text", "Hi")], "abc")));
            Post(req, freshId, serialize)
            == Handled(Send(ResponseEnvelope(IntId(1), "2.0",
                 ResponseMessage("message", freshId, [ResponsePart("text", "Hi")], "agent"))))
  {
  }

  /** Two parts `"hi"` and `"world"` are echoed as `"hi world"`. */
  lemma TwoPartExample(req: RequestEnvelope, freshId: string)
    requires req.params.message.parts == [RequestPart("text", "hi"), RequestPart("text", "world")]
    ensures BuildResponse(req, freshId).result.parts == [ResponsePart("text", "hi world")]
  {
    assert PartTexts(req.params.message.parts) == ["hi", "world"];
    assert ["hi", "world"][1..] == ["world"];
    assert Join(["hi", "world"]) == "hi" + " " + "world";
    assert "hi" + " " + "world" == "hi world";
    assert EchoText(req) == "hi world";
  }
}
