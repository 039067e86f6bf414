/**
 * `POST /api/chat` (app/api/chat/route.ts): forwards the conversation to the
 * model behind a fixed system prompt (extended with the analysed document when
 * the client sends one) and an acknowledgement turn, and returns the reply.
 */
module ChatRoute {
  import opened Wrappers
  import opened JsStrings
  import opened Json
  import opened Http

  /** One turn sent to the model: its role and the text of its single part (`undefined` when absent). */
  datatype Content = Content(role: string, text: Option<JVal>)

  datatype ChatCall = ChatCall(model: string, contents: seq<Content>, temperature: real, maxOutputTokens: nat)

  datatype Outcome = Outcome(call: Option<ChatCall>, response: HttpResponse)

  const ModelName := "gemini-2.5-flash"
  const Temperature := 0.7
  const MaxOutputTokens := 2048

  /** The opening of the system prompt (its guidelines and formatting rules are not part of this model). */
  const SystemPrompt := "You are LegalEase AI, an expert Indian legal adviser assistant."

  const ContextIntro := "\n\nThe user has uploaded a legal document with the following analysis:\n"
  const ContextOutro := "\n\nUse this context to provide more specific and relevant answers."

  const Acknowledgement := "Understood. I am LegalEase AI, your Indian legal adviser assistant. I will provide helpful, accurate information about Indian law while being clear that my responses are informational and not legal advice. How can I help you today?"

  const Apology := "I apologize, but I couldn't generate a response. Please try again."
  const FailureMessage := "Failed to generate response. Please try again."

  /** `msg.role === "user" ? "user" : "model"`, with the message's `content` as the text. */
  function ToContent(msg: JVal): (c: Content)
    ensures c.role == "user" <==> Prop(msg, "role") == Some(JStr("user"))
    ensures c.role in {"user", "model"}
    ensures c.text == Prop(msg, "content")
  {
    Content(if Prop(msg, "role") == Some(JStr("user")) then "user" else "model", Prop(msg, "content"))
  }

  /** `messages.map(...)`: one turn per message, in order. */
  function History(messages: seq<JVal>): (h: seq<Content>)
    ensures |h| == |messages| && forall i :: 0 <= i < |messages| ==> h[i] == ToContent(messages[i])
    ensures forall c :: c in h ==> c.role in {"user", "model"}
  {
    seq(|messages|, i requires 0 <= i < |messages| => ToContent(messages[i]))
  }

  /** The first turn: the system prompt, followed by the serialised analysis when one is given. */
  function ContextPrompt(documentContext: Option<JVal>, stringify: JVal -> string): (p: string)
    ensures StartsWith(p, SystemPrompt)
    ensures TruthyProp(documentContext) ==> p == SystemPrompt + ContextIntro + stringify(documentContext.value) + ContextOutro
    ensures !TruthyProp(documentContext) ==> p == SystemPrompt
  {
    if TruthyProp(documentContext) then SystemPrompt + ContextIntro + stringify(documentContext.value) + ContextOutro
    else SystemPrompt
  }

  /** The request to the model: system prompt, acknowledgement, then one turn per message. */
  function BuildCall(messages: seq<JVal>, documentContext: Option<JVal>, stringify: JVal -> string): (call: ChatCall)
    ensures var contents := call.contents;
            && |contents| == |messages| + 2
            && contents[0] == Content("user", Some(JStr(ContextPrompt(documentContext, stringify))))
            && contents[1] == Content("model", Some(JStr(Acknowledgement)))
            && (forall i :: 0 <= i < |messages| ==> contents[i + 2] == ToContent(messages[i]))
    ensures call.model == ModelName && call.temperature == Temperature && call.maxOutputTokens == MaxOutputTokens
    // only the two roles the model accepts are ever sent
    ensures forall c :: c in call.contents ==> c.role in {"user", "model"}
  {
    var head := [Content("user", Some(JStr(ContextPrompt(documentContext, stringify)))), Content("model", Some(JStr(Acknowledgement)))];
    var history := History(messages);
    var contents := head + history;
    assert forall i :: 0 <= i < |history| ==> contents[i + 2] == history[i];
    ChatCall(ModelName, contents, Temperature, MaxOutputTokens)
  }

  /**
   * The handler, given the parsed request body (`None` when `request.json()`
   * rejects), the model's completion and `JSON.stringify(_, null, 2)`.
   */
  function ChatPost(body: Option<JVal>, completion: Completion, stringify: JVal -> string): (out: Outcome)
    // 400 exactly when `messages` is missing or not an array (an empty array passes)
    ensures out.response.status == 400 <==>
              body.Some? && !body.value.JNull? && !(TruthyProp(Prop(body.value, "messages")) && Prop(body.value, "messages").value.JArr?)
    // a `null` message cannot be read and fails the request before the call
    ensures out.call.Some? <==>
              body.Some? && !body.value.JNull? && out.response.status != 400
              && (forall i :: 0 <= i < |Prop(body.value, "messages").value.items| ==> !Prop(body.value, "messages").value.items[i].JNull?)
    ensures out.call.Some? ==>
              out.call.value == BuildCall(Prop(body.value, "messages").value.items, Prop(body.value, "documentContext"), stringify)
    // the reply is never empty: an empty one is replaced by an apology
    ensures out.response.status == 200 <==> out.call.Some? && completion.Reply?
    ensures out.response.status == 200 ==>
              Prop(out.response.body, "response") == Some(JStr(if completion.text == "" then Apology else completion.text))
    ensures out.response.status in {200, 400, 500}
  {
    if body.None? || body.value.JNull? then Outcome(None, ErrorResponse(500, FailureMessage))
    else
      var messages := Prop(body.value, "messages");
      if !TruthyProp(messages) || !messages.value.JArr? then
        Outcome(None, ErrorResponse(400, "Messages array is required"))
      else if exists i :: 0 <= i < |messages.value.items| && messages.value.items[i].JNull? then
        Outcome(None, ErrorResponse(500, FailureMessage))
      else
        var call := BuildCall(messages.value.items, Prop(body.value, "documentContext"), stringify);
        match completion
        case Failed(_) => Outcome(Some(call), ErrorResponse(500, FailureMessage))
        case Reply(text) =>
          var reply := if text == "" then Apology else text;
          Outcome(Some(call), HttpResponse(200, JObj(map["response" := JStr(reply)])))
  }
}
