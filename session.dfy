/** The chat window's conversation state: the message list, the loading
    flag, the input box and whether the suggestion chips show. A send runs
    in two steps around the awaited bot response, so a clear can come in
    between them. */
module Session {
  import opened Wrappers
  import opened Strings
  import opened Records

  datatype Sender = User | Bot

  /** A message of the conversation; its id is not modelled. */
  datatype Message = Message(from: Sender, body: Response)

  const WelcomeText: string :=
    "Namaskara! I'm Mangaluru Mitra. Ask me about local food, famous places, or even some Tulu phrases!"

  /** `initialMessage`. */
  const Welcome: Message := Message(Bot, Text(WelcomeText))

  const ErrorBefore: string := "A critical error occurred: "
  const ErrorAfter: string := ". Please check the browser's developer console for more details."

  /** The bot message a finished turn appends: the response, or a text that
      carries the error's message. */
  function BotMessage(outcome: Result<Response, string>): (m: Message)
    ensures m.from == Bot
    ensures outcome.Success? ==> m.body == outcome.value
    ensures outcome.Failure? ==> m.body.Text? && Mentions(m.body.content, outcome.error)
  {
    match outcome
    case Success(response) => Message(Bot, response)
    case Failure(error) =>
      MentionsInside(ErrorBefore, error, ErrorAfter);
      Message(Bot, Text(ErrorBefore + error + ErrorAfter))
  }

  /** The text the user sent, as it appears in the conversation. */
  function UserMessage(text: string): (m: Message)
    ensures m.from == User && m.body == Text(text)
  {
    Message(User, Text(text))
  }

  class ChatSession {
    var messages: seq<Message>
    var input: string
    var isLoading: bool
    var showSuggestions: bool

    /** The welcome message always opens the conversation. */
    ghost predicate Valid()
      reads this
    {
      messages != [] && messages[0] == Welcome
    }

    constructor ()
      ensures Valid()
      ensures messages == [Welcome] && input == "" && !isLoading && showSuggestions
    {
      messages := [Welcome];
      input := "";
      isLoading := false;
      showSuggestions := true;
    }

    /** `handleSend` up to the awaited bot response: a blank text (one that
        `trim` empties, by `BlankIsTrimmedEmpty`), or any text while a turn
        is in flight, is ignored; otherwise the user's message is appended
        and the session starts loading. */
    method Begin(text: string) returns (accepted: bool)
      requires Valid()
      modifies this
      ensures Valid()
      ensures accepted <==> !AllSpace(text) && !old(isLoading)
      ensures !accepted ==>
        && messages == old(messages) && isLoading == old(isLoading)
        && input == old(input) && showSuggestions == old(showSuggestions)
      ensures accepted ==>
        && messages == old(messages) + [UserMessage(text)]
        && isLoading && input == "" && !showSuggestions
    {
      if AllSpace(text) || isLoading {
        return false;
      }
      showSuggestions := false;
      messages := messages + [UserMessage(text)];
      input := "";
      isLoading := true;
      accepted := true;
    }

    /** `handleSend` after the bot response settles: exactly one bot message
        is appended, then the loading flag is cleared. */
    method Finish(outcome: Result<Response, string>)
      requires Valid() && isLoading
      modifies this`messages, this`isLoading
      ensures Valid()
      ensures messages == old(messages) + [BotMessage(outcome)]
      ensures !isLoading
    {
      messages := messages + [BotMessage(outcome)];
      isLoading := false;
    }

    /** A whole turn with nothing in between: the user's message then one
        bot message, and the session is no longer loading. */
    method Send(text: string, outcome: Result<Response, string>) returns (accepted: bool)
      requires Valid()
      modifies this
      ensures Valid()
      ensures accepted <==> !AllSpace(text) && !old(isLoading)
      ensures !accepted ==>
        && messages == old(messages) && isLoading == old(isLoading)
        && input == old(input) && showSuggestions == old(showSuggestions)
      ensures accepted ==>
        && messages == old(messages) + [UserMessage(text), BotMessage(outcome)]
        && !isLoading && input == "" && !showSuggestions
    {
      accepted := Begin(text);
      if accepted {
        Finish(outcome);
      }
    }

    /** `handleClearChat`: back to the welcome message with the suggestions
        shown; a turn in flight keeps loading. */
    method Clear()
      modifies this`messages, this`showSuggestions
      ensures Valid()
      ensures messages == [Welcome] && showSuggestions
    {
      messages := [Welcome];
      showSuggestions := true;
    }
  }

  /** A clear while a turn is in flight: the late bot message lands right
      after the welcome message, without the question it answers. */
  method ClearDuringTurn(text: string, outcome: Result<Response, string>) returns (session: ChatSession)
    requires !AllSpace(text)
    ensures session.messages == [Welcome, BotMessage(outcome)]
    ensures !session.isLoading && session.showSuggestions
  {
    session := new ChatSession();
    var accepted := session.Begin(text);
    assert accepted && session.isLoading;
    session.Clear();
    assert session.messages == [Welcome] && session.isLoading;
    session.Finish(outcome);
  }
}
