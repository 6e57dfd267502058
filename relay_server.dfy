/** The `/api/chat` relay (server.js): it turns the fields of the request
    into the turn list of a `generateContent` call, forwards the upstream
    answer as it is, and answers 500 when anything fails. */
module RelayServer {
  import opened Types
  import opened Json

  /** The request fields the handler reads; each is a string or absent. */
  datatype ChatRequest = ChatRequest(systemInstruction: Option<string>, message: Option<string>, imageBase64: Option<string>)

  datatype Part = TextPart(text: string) | InlineData(data: string, mimeType: string)

  datatype Content = Content(role: string, parts: seq<Part>)

  const ImageMimeType := "image/jpeg"

  function Count(present: bool): nat
  {
    if present then 1 else 0
  }

  /** The number of truthy fields among the three. */
  function TruthyFields(req: ChatRequest): nat
  {
    Count(Truthy(req.systemInstruction)) + Count(Truthy(req.message)) + Count(Truthy(req.imageBase64))
  }

  /** `contents` is the turn list the handler builds for `req`: one single-part
      user turn per truthy field, in the order system instruction, message,
      image, each carrying its field verbatim. */
  predicate IsContentsFor(req: ChatRequest, contents: seq<Content>)
  {
    && |contents| == TruthyFields(req)
    && (forall i | 0 <= i < |contents| :: contents[i].role == "user" && |contents[i].parts| == 1)
    && (Truthy(req.systemInstruction) ==>
          contents[0].parts[0] == TextPart(req.systemInstruction.value))
    && (Truthy(req.message) ==>
          contents[Count(Truthy(req.systemInstruction))].parts[0] == TextPart(req.message.value))
    && (Truthy(req.imageBase64) ==>
          contents[|contents| - 1].parts[0] == InlineData(req.imageBase64.value, ImageMimeType))
  }

  /** The conditional pushes that build `contents`. */
  method BuildContents(req: ChatRequest) returns (contents: seq<Content>)
    ensures IsContentsFor(req, contents)
    ensures |contents| <= 3
  {
    contents := [];
    if Truthy(req.systemInstruction) {
      contents := contents + [Content("user", [TextPart(req.systemInstruction.value)])];
    }
    if Truthy(req.message) {
      contents := contents + [Content("user", [TextPart(req.message.value)])];
    }
    if Truthy(req.imageBase64) {
      contents := contents + [Content("user", [InlineData(req.imageBase64.value, ImageMimeType)])];
    }
  }

  /** The description determines the list: no other turn, no other order. */
  lemma ContentsDetermined(req: ChatRequest, c1: seq<Content>, c2: seq<Content>)
    requires IsContentsFor(req, c1) && IsContentsFor(req, c2)
    ensures c1 == c2
  {
    forall i | 0 <= i < |c1|
      ensures c1[i] == c2[i]
    {
      assert c1[i].parts == [c1[i].parts[0]] && c2[i].parts == [c2[i].parts[0]];
    }
  }

  /** An image part appears exactly when the request carries an image. */
  lemma ImageTurnIffImage(req: ChatRequest, contents: seq<Content>)
    requires IsContentsFor(req, contents)
    ensures Truthy(req.imageBase64) <==>
              exists i | 0 <= i < |contents| :: contents[i].parts[0].InlineData?
  {
    if Truthy(req.imageBase64) {
      assert contents[|contents| - 1].parts[0].InlineData?;
    }
  }

  /** What the Gemini endpoint did with the request. */
  datatype Upstream = UpstreamUnreachable | UpstreamAnswered(body: Body)

  datatype Response = Response(status: nat, body: Json)

  const FailureBody := JObj(map["error" := JStr("Gemini server failed")])

  /** The handler: build the turns, call upstream, and answer with the
      upstream document unchanged (status 200, whatever the upstream status
      was), or with 500 and a fixed error body when the call or the parse
      of its answer throws. */
  method HandleChat(req: ChatRequest, upstream: Upstream) returns (sent: seq<Content>, response: Response)
    ensures IsContentsFor(req, sent)
    ensures upstream.UpstreamAnswered? && upstream.body.Parsed? ==> response == Response(200, upstream.body.doc)
    ensures !(upstream.UpstreamAnswered? && upstream.body.Parsed?) ==> response == Response(500, FailureBody)
  {
    sent := BuildContents(req);
    if upstream.UpstreamAnswered? && upstream.body.Parsed? {
      response := Response(200, upstream.body.doc);
    } else {
      response := Response(500, FailureBody);
    }
  }
}
