/** The chat window (src/components/Ai/chatbot.jsx): each send appends the user's
    message and then exactly one reply from the assistant. */
module ChatbotUi {
  import opened JsValues
  import JsText

  datatype ChatMessage = ChatMessage(sender: string, text: JsValue)

  /** The round trip to `/api/chatbot`: it failed (network, or a body that is not JSON),
      or it gave a body with these `reply` and `response` fields. */
  datatype Exchange = FetchFailed(message: string) | Answered(reply: JsValue, response: JsValue)

  const NoResponseText: string := "No response from assistant."
  const FailureText: string := "Error talking to assistant. Please try again later."

  /** The bot's message for an exchange: `reply`, else `response`, else the fixed text;
      a failure gives the fixed error. */
  function BotMessage(x: Exchange): (m: ChatMessage)
    ensures m.sender == "bot" && Truthy(m.text)
    ensures x.FetchFailed? ==> m.text == Str(FailureText)
    ensures x.Answered? && Truthy(x.reply) ==> m.text == x.reply
    ensures x.Answered? && !Truthy(x.reply) && Truthy(x.response) ==> m.text == x.response
    ensures x.Answered? && !Truthy(x.reply) && !Truthy(x.response) ==> m.text == Str(NoResponseText)
  {
    match x
    case FetchFailed(_) => ChatMessage("bot", Str(FailureText))
    case Answered(reply, response) =>
      ChatMessage("bot", if Truthy(reply) then reply else if Truthy(response) then response else Str(NoResponseText))
  }

  class ChatWindow {
    var input: string
    var messages: seq<ChatMessage>
    /** Queries posted to the backend. */
    var sent: seq<string>

    constructor ()
      ensures input == "" && messages == [] && sent == []
    {
      input := "";
      messages := [];
      sent := [];
    }

    /** `sendMessage`. Input that is empty or only white space does nothing; otherwise
        the user's message is appended and posted, one bot message follows, and the
        input is cleared. */
    method SendMessage(x: Exchange)
      modifies this
      ensures JsText.AllSpace(old(input)) ==> input == old(input) && messages == old(messages) && sent == old(sent)
      ensures !JsText.AllSpace(old(input)) ==>
        && messages == old(messages) + [ChatMessage("user", Str(old(input))), BotMessage(x)]
        && sent == old(sent) + [old(input)]
        && input == ""
    {
      JsText.TrimEmpty(input);
      if JsText.Trim(input) == "" {
        return;
      }
      messages := messages + [ChatMessage("user", Str(input))];
      sent := sent + [input];
      messages := messages + [BotMessage(x)];
      input := "";
    }
  }
}
