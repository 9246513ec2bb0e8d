/** `generateLinkedInPost`: build the prompt from the draft's fields, post it
    to `/api/generate-post`, and return the generated text or throw. */
module CohereClient {
  import opened JsValues
  import opened JsStrings
  import opened Http
  import GeneratePost

  datatype GenerateParams = GenerateParams(
    tone: string,
    targetReaction: string,
    topic: string,
    targetAudience: string,
    content: Option<string>)

  const Header := "Generate a LinkedIn post with the following specifications:"
  const ContextMarker := "\n\nExisting content/key points to consider:\n"
  const Closing :=
    "\n\nPlease generate a professional LinkedIn post that follows these guidelines and is tailored for the specified target audience.\n" +
    "   Avoid mentioning the tone, target reaction, target audience. Make sure to generate a post that is relevant to the topic and target audience. Display in text format, avoid using bold, italic, or any other formatting.\n" +
    "   Include hashtags, emojis in the post."
  const ClientError := "Failed to generate LinkedIn post"

  /** One labelled line of the specification list. */
  function FieldLine(name: string, value: string): string {
    "\n- " + name + ": " + value
  }

  /** The header and the four labelled lines, in their fixed order, each
      echoing its value verbatim. */
  function FieldLines(p: GenerateParams): string {
    Header + FieldLine("Tone", p.tone) + FieldLine("Target Reaction", p.targetReaction) +
    FieldLine("Topic", p.topic) + FieldLine("Target Audience", p.targetAudience)
  }

  /** `content && content.trim()`: the content is defined and holds some
      character that is not whitespace. */
  predicate HasExistingContent(content: Option<string>)
    ensures HasExistingContent(content) <==>
      content.Some? && exists i :: 0 <= i < |content.value| && !IsJsWhitespace(content.value[i])
  {
    content.Some? && content.value != "" && Trim(content.value) != ""
  }

  /** `prompt` starts with `fields` and ends with the closing instructions,
      the two not overlapping. */
  predicate Framed(prompt: string, fields: string) {
    |prompt| >= |fields| + |Closing| &&
    prompt[..|fields|] == fields && prompt[|prompt| - |Closing|..] == Closing
  }

  /** Reads the existing-content section back out of a prompt built for
      `p`: `None` when the prompt is framed by `p`'s field lines and the
      closing instructions with nothing between them (or is not so
      framed), the section's text when the marker stands between them. */
  function ContextSectionOf(prompt: string, p: GenerateParams): Option<string> {
    var fields := FieldLines(p);
    if !Framed(prompt, fields) then None
    else
      var middle := prompt[|fields|..|prompt| - |Closing|];
      if |middle| >= |ContextMarker| && middle[..|ContextMarker|] == ContextMarker
      then Some(middle[|ContextMarker|..])
      else None
  }

  /** The prompt construction of `generateLinkedInPost`, accumulated as the
      source does. The prompt starts with the field lines, ends with the
      closing instructions, and holds the untrimmed content between them
      exactly when the content is not blank. */
  method BuildPrompt(p: GenerateParams) returns (prompt: string)
    ensures Framed(prompt, FieldLines(p))
    ensures HasExistingContent(p.content) <==> |prompt| > |FieldLines(p)| + |Closing|
    ensures !HasExistingContent(p.content) ==> prompt == FieldLines(p) + Closing
    ensures ContextSectionOf(prompt, p) == if HasExistingContent(p.content) then p.content else None
  {
    prompt := FieldLines(p);
    ghost var fields := prompt;
    ghost var section := "";

    if p.content.Some? && p.content.value != "" && Trim(p.content.value) != "" {
      prompt := prompt + (ContextMarker + p.content.value);
      section := ContextMarker + p.content.value;
    }
    assert prompt == fields + section;

    prompt := prompt + Closing;
    FramedPrompt(p, section);
    if HasExistingContent(p.content) {
      ThreeParts(ContextMarker, p.content.value, "");
    }
  }

  /** What a prompt made of the field lines, a middle section and the
      closing instructions looks like from the outside. */
  lemma FramedPrompt(p: GenerateParams, section: string)
    ensures var prompt := FieldLines(p) + section + Closing;
      |prompt| == |FieldLines(p)| + |section| + |Closing| &&
      Framed(prompt, FieldLines(p)) &&
      ContextSectionOf(prompt, p) ==
        if |section| >= |ContextMarker| && section[..|ContextMarker|] == ContextMarker
        then Some(section[|ContextMarker|..]) else None
  {
    var fields := FieldLines(p);
    ThreeParts(fields, section, Closing);
  }

  /** How a string built from three parts splits back into them. */
  lemma ThreeParts(a: string, b: string, c: string)
    ensures |a + b + c| == |a| + |b| + |c|
    ensures (a + b + c)[..|a|] == a
    ensures (a + b + c)[|a + b + c| - |c|..] == c
    ensures (a + b + c)[|a|..|a + b + c| - |c|] == b
    ensures (a + b)[..|a|] == a && (a + b)[|a|..] == b
  {
  }

  /** How the `fetch` of `/api/generate-post` ends: it rejects, or a response
      arrives with its `ok` flag and, when the body is JSON, its value. */
  datatype ApiReply = FetchFailed | Reply(ok: bool, json: Option<JsValue>)

  /** The `try`/`catch` around the call: any failure, the inner
      "Failed to generate post" included, surfaces as the one fixed error;
      an ok reply returns `data.generatedText` as it is, `undefined`
      included. */
  function InterpretReply(reply: ApiReply): (r: Outcome<JsValue>)
    ensures r.Raised? ==> r.error == ClientError
    ensures r.Returned? <==> reply.Reply? && reply.ok && reply.json.Some? && Destructurable(reply.json.value)
    ensures r.Returned? ==> r.value == Prop(reply.json.value, "generatedText")
  {
    match reply
    case FetchFailed => Raised(ClientError)
    case Reply(ok, json) =>
      if !ok then Raised(ClientError)
      else if json.None? || !Destructurable(json.value) then Raised(ClientError)
      else Returned(Prop(json.value, "generatedText"))
  }

  /** The request body `JSON.stringify({ prompt })`. */
  function PromptBody(prompt: string): JsValue {
    Obj([("prompt", Str(prompt))])
  }

  /** `generateLinkedInPost`: the prompt it sends and how it ends, given how
      the request to the route ends. */
  method GenerateLinkedInPost(p: GenerateParams, reply: ApiReply) returns (sent: JsValue, r: Outcome<JsValue>)
    ensures sent.Obj? && Lookup(sent.members, "prompt").Str?
    ensures sent == PromptBody(Lookup(sent.members, "prompt").s)
    ensures Framed(Lookup(sent.members, "prompt").s, FieldLines(p))
    ensures !HasExistingContent(p.content) ==> Lookup(sent.members, "prompt").s == FieldLines(p) + Closing
    ensures ContextSectionOf(Lookup(sent.members, "prompt").s, p) ==
      if HasExistingContent(p.content) then p.content else None
    ensures r.Raised? <==> !(reply.Reply? && reply.ok && reply.json.Some? && Destructurable(reply.json.value))
    ensures r.Raised? ==> r.error == ClientError
    ensures r.Returned? ==> r.value == Prop(reply.json.value, "generatedText")
  {
    var prompt := BuildPrompt(p);
    sent := PromptBody(prompt);
    r := InterpretReply(reply);
  }

  /** The reply the browser gets from the route's response: `ok` for 2xx,
      and the JSON of the body. */
  function Relay(resp: Response<GeneratePost.Body>): ApiReply {
    Reply(200 <= resp.status < 300,
      Some(match resp.body
        case GeneratedText(t) => Obj([("generatedText", Str(t))])
        case ErrorBody(e) => Obj([("error", Str(e))])))
  }

  /** Client and route together: the route calls the model with exactly the
      prompt the client sent, as one user message; the client then returns
      the extracted text (the fallback sentence included) or throws its one
      fixed error when the model call failed. */
  lemma ClientOverRoute(prompt: string, chat: GeneratePost.ChatReply)
    ensures GeneratePost.HandlePost(Some(PromptBody(prompt)), chat).call ==
      Some(GeneratePost.ChatRequestFor(Str(prompt)))
    ensures InterpretReply(Relay(GeneratePost.HandlePost(Some(PromptBody(prompt)), chat).response)) ==
      if chat.ChatThrew? then Raised(ClientError)
      else Returned(Str(GeneratePost.ExtractGeneratedText(chat.content)))
  {
    var h := GeneratePost.HandlePost(Some(PromptBody(prompt)), chat);
    assert Prop(PromptBody(prompt), "prompt") == Str(prompt);
    if !chat.ChatThrew? {
      var t := GeneratePost.ExtractGeneratedText(chat.content);
      assert h.response.body == GeneratePost.GeneratedText(t);
      assert Prop(Obj([("generatedText", Str(t))]), "generatedText") == Str(t);
    }
  }
}
