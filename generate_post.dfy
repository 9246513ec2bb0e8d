/** The `POST /api/generate-post` handler: forward the prompt to the hosted
    chat model as one user message and return the first text segment of
    its reply. */
module GeneratePost {
  import opened JsValues
  import opened Http

  datatype Message = Message(role: string, content: JsValue)

  /** The argument of `cohere.chat`. */
  datatype ChatRequest = ChatRequest(model: string, messages: seq<Message>)

  /** How the awaited `cohere.chat` call ends: it throws, or it returns a
      reply whose `message?.content` is either missing or an array of
      segments, each with an optional `text`. */
  datatype ChatReply = ChatThrew | ChatReturned(content: Option<seq<Option<string>>>)

  /** The JSON bodies the handler can send. */
  datatype Body = GeneratedText(generatedText: string) | ErrorBody(error: string)

  /** The chat call the handler made (if any) and the response it sent. */
  datatype Handled = Handled(call: Option<ChatRequest>, response: Response<Body>)

  const ChatModel := "command-a-03-2025"
  const FallbackText := "Failed to generate content"
  const GenerateError := "Failed to generate LinkedIn post"

  /** The request carries exactly one message: the prompt, in the user
      role, unchanged. */
  function ChatRequestFor(prompt: JsValue): (req: ChatRequest)
    ensures req.model == ChatModel
    ensures |req.messages| == 1
    ensures req.messages[0].role == "user" && req.messages[0].content == prompt
  {
    ChatRequest(ChatModel, [Message("user", prompt)])
  }

  /** `content[0].text || 'Failed to generate content'` when `content` is a
      non-empty array, the fallback text otherwise. The result is never
      empty, and it is either the first segment's text or the fallback. */
  function ExtractGeneratedText(content: Option<seq<Option<string>>>): (text: string)
    ensures text != ""
    ensures text == FallbackText || (content.Some? && |content.value| > 0 && content.value[0] == Some(text))
    ensures content.Some? && |content.value| > 0 && content.value[0].Some? && content.value[0].value != "" ==>
      text == content.value[0].value
  {
    match content
    case Some(segments) =>
      if |segments| > 0 then
        match segments[0]
        case Some(t) => if t != "" then t else FallbackText
        case None => FallbackText
      else FallbackText
    case None => FallbackText
  }

  /** Only the first segment is ever inspected. */
  lemma OnlyFirstSegmentCounts(a: seq<Option<string>>, b: seq<Option<string>>)
    requires |a| > 0 && |b| > 0 && a[0] == b[0]
    ensures ExtractGeneratedText(Some(a)) == ExtractGeneratedText(Some(b))
  {
  }

  /** A model reply that is exactly the fallback sentence cannot be told
      apart from a reply with no usable text. */
  lemma FallbackIsAmbiguous(rest: seq<Option<string>>)
    ensures ExtractGeneratedText(Some([Some(FallbackText)] + rest)) == ExtractGeneratedText(None)
    ensures ExtractGeneratedText(Some([])) == ExtractGeneratedText(None)
    ensures ExtractGeneratedText(Some([None] + rest)) == ExtractGeneratedText(None)
    ensures ExtractGeneratedText(Some([Some("")] + rest)) == ExtractGeneratedText(None)
  {
  }

  /** `POST` of the route. `body` is what `request.json()` yields (`None`
      when it throws); `chat` is how the model call ends. */
  function HandlePost(body: Option<JsValue>, chat: ChatReply): (h: Handled)
    // the model is called exactly when the body can be destructured
    ensures h.call.Some? <==> body.Some? && Destructurable(body.value)
    ensures h.call.Some? ==> h.call.value == ChatRequestFor(Prop(body.value, "prompt"))
    // every failure is a 500 with the fixed error, never anything else
    ensures h.response.status == 500 <==> h.call.None? || chat.ChatThrew?
    ensures h.response.status == 500 ==> h.response.body == ErrorBody(GenerateError)
    // otherwise 200 with the extracted text, fallback included
    ensures h.response.status != 500 ==>
      h.response.status == 200 && chat.ChatReturned? &&
      h.response.body == GeneratedText(ExtractGeneratedText(chat.content))
  {
    if body.None? || !Destructurable(body.value) then
      Handled(None, Response(500, ErrorBody(GenerateError)))
    else
      var call := ChatRequestFor(Prop(body.value, "prompt"));
      match chat
      case ChatThrew => Handled(Some(call), Response(500, ErrorBody(GenerateError)))
      case ChatReturned(content) =>
        Handled(Some(call), Response(200, GeneratedText(ExtractGeneratedText(content))))
  }

  /** A reply with no content array, or an empty one, is a success carrying
      the fallback text, not an error. */
  lemma MissingContentIsNotAnError(body: JsValue)
    requires Destructurable(body)
    ensures HandlePost(Some(body), ChatReturned(None)).response == Response(200, GeneratedText(FallbackText))
    ensures HandlePost(Some(body), ChatReturned(Some([]))).response == Response(200, GeneratedText(FallbackText))
  {
  }
}
