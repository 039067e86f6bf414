/**
 * The demo chat page (app/chat/page.tsx): a message history that starts with
 * a greeting, a text input, and a canned assistant reply 1.5 s after each
 * send, chosen by keywords in the text that was sent.
 */
module ChatPage {
  import opened JsStrings

  datatype Role = User | Assistant

  /** A message; `timestamp` is the clock in milliseconds. */
  datatype Message = Message(id: string, role: Role, content: string, timestamp: nat)

  const Greeting := "Hello! I'm your AI legal assistant. I've analyzed your traffic violation notice. How can I help you understand it better?"

  const SuggestedQuestions: seq<string> := [
    "What does Section 279 mean?",
    "How much is the fine for my violation?",
    "Can I contest this challan?",
    "What happens if I don't pay on time?"
  ]

  const SectionReplyText := "Section 279 of the Motor Vehicles Act deals with rash driving or riding on a public way."
  const FineReplyText := "Based on your challan, the fine amount depends on:"
  const ContestReplyText := "Yes, you can contest this challan if you believe it was issued incorrectly."
  const GenericReplyText := "I understand you have questions about your legal document."

  /** The four canned replies; each text is the opening sentence of the reply the page shows. */
  datatype Reply = SectionReply | FineReply | ContestReply | GenericReply

  function ReplyText(r: Reply): string {
    match r
    case SectionReply => SectionReplyText
    case FineReply => FineReplyText
    case ContestReply => ContestReplyText
    case GenericReply => GenericReplyText
  }

  /** The if/else chain on the lower-cased text that was sent. */
  function ChooseReply(sent: string): (reply: Reply)
  {
    var l := Lower(sent);
    if Includes(l, "section 279") || Includes(l, "279") then SectionReply
    else if Includes(l, "fine") || Includes(l, "pay") then FineReply
    else if Includes(l, "contest") || Includes(l, "challenge") then ContestReply
    else GenericReply
  }

  /** The keyword tests in their order: "279" first, then fine or pay, then contest or challenge. */
  lemma ReplyPrecedence(sent: string)
    ensures Includes(Lower(sent), "279") ==> ChooseReply(sent) == SectionReply
    ensures !Includes(Lower(sent), "279") && (Includes(Lower(sent), "fine") || Includes(Lower(sent), "pay")) ==>
              ChooseReply(sent) == FineReply
    ensures !Includes(Lower(sent), "279") && !Includes(Lower(sent), "fine") && !Includes(Lower(sent), "pay") &&
            (Includes(Lower(sent), "contest") || Includes(Lower(sent), "challenge")) ==>
              ChooseReply(sent) == ContestReply
  {
    var l := Lower(sent);
    if Includes(l, "section 279") {
      assert "section 279" == "section " + "279";
      IncludesSuffixOfMatch(l, "section ", "279");
    }
  }

  /** The first test is the same as looking for "279" alone: "section 279" contains it. */
  lemma SectionTestIsJust279(sent: string)
    ensures ChooseReply(sent) == SectionReply <==> Includes(Lower(sent), "279")
  {
    var l := Lower(sent);
    if Includes(l, "section 279") {
      assert "section 279" == "section " + "279";
      IncludesSuffixOfMatch(l, "section ", "279");
    }
  }

  /** A text without any keyword gets the generic reply. */
  lemma NoKeywordGeneric(sent: string)
    requires var l := Lower(sent);
             !Includes(l, "279") && !Includes(l, "fine") && !Includes(l, "pay")
             && !Includes(l, "contest") && !Includes(l, "challenge")
    ensures ChooseReply(sent) == GenericReply
  {
    var l := Lower(sent);
    if Includes(l, "section 279") {
      assert "section 279" == "section " + "279";
      IncludesSuffixOfMatch(l, "section ", "279");
    }
  }

  /** The message a send appends: the input as typed, with the clock as id. */
  function UserMessage(text: string, now: nat): (m: Message)
    ensures m.role == User && m.content == text
  {
    Message(NatToString(now), User, text, now)
  }

  /** The message a reply timer appends, answering the text that was sent. */
  function AssistantMessage(sent: string, now: nat): (m: Message)
    ensures m.role == Assistant && m.content == ReplyText(ChooseReply(sent))
  {
    Message(NatToString(now + 1), Assistant, ReplyText(ChooseReply(sent)), now)
  }

  class ChatPage {
    var messages: seq<Message>
    var input: string
    var isTyping: bool
    /** The texts of the sends whose reply timer has not fired yet, oldest first. */
    var pending: seq<string>

    /** The history begins with the greeting and only grows. */
    predicate Valid()
      reads this
    {
      |messages| >= 1 && messages[0].role == Assistant && messages[0].content == Greeting
    }

    constructor(now: nat)
      ensures Valid() && messages == [Message("1", Assistant, Greeting, now)]
      ensures input == "" && !isTyping && pending == []
    {
      messages := [Message("1", Assistant, Greeting, now)];
      input := "";
      isTyping := false;
      pending := [];
    }

    /** Suggested questions show while the history has at most two messages. */
    predicate SuggestionsVisible()
      reads this
    {
      |messages| <= 2
    }

    /** Typing in the input. */
    method SetInput(text: string)
      modifies this`input
      ensures input == text
    {
      input := text;
    }

    /** A suggested question only fills the input; it does not send. */
    method HandleSuggestedQuestion(q: string)
      modifies this`input
      ensures input == q
    {
      input := q;
    }

    /** `handleSend`; `now` is the clock in milliseconds. A blank input is ignored. */
    method HandleSend(now: nat)
      requires Valid()
      modifies this`messages, this`input, this`isTyping, this`pending
      ensures Valid()
      ensures Trim(old(input)) == "" ==>
                messages == old(messages) && input == old(input) && isTyping == old(isTyping) && pending == old(pending)
      ensures Trim(old(input)) != "" ==>
                messages == old(messages) + [UserMessage(old(input), now)]
                && input == "" && isTyping && pending == old(pending) + [old(input)]
    {
      if Trim(input) == "" {
        return;
      }
      var sent := input;
      var history := messages;
      messages := history + [UserMessage(sent, now)];
      assert messages[0] == history[0];
      input := "";
      isTyping := true;
      pending := pending + [sent];
    }

    /** The oldest reply timer fires: one assistant message answering the text that was sent, and typing stops. */
    method ReplyTimer(now: nat)
      requires Valid()
      modifies this`messages, this`isTyping, this`pending
      ensures Valid()
      ensures old(pending) == [] ==> messages == old(messages) && isTyping == old(isTyping) && pending == []
      ensures old(pending) != [] ==>
                messages == old(messages) + [AssistantMessage(old(pending)[0], now)]
                && !isTyping && pending == old(pending)[1..]
    {
      if pending == [] {
        return;
      }
      var history := messages;
      messages := history + [AssistantMessage(pending[0], now)];
      assert messages[0] == history[0];
      isTyping := false;
      pending := pending[1..];
    }
  }
}
