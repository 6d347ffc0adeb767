/**
 * The `ChatInterface` component's state hooks as the fields of an object,
 * and its event handlers as methods that update them in place. Each method is
 * specified by the transition of the `Conversation` module it performs on the
 * abstract value `Model()`, and keeps the invariant `Valid()`.
 */
module ChatStore {
  import opened Text
  import opened Sessions
  import Conversation

  class ChatInterface {
    var messages: seq<Conversation.Message>
    var inputValue: string
    var isTyping: bool
    var currentSessionId: string
    /** The `setTimeout` callbacks not yet run, earliest first. */
    var pending: seq<Conversation.PendingReply>
    /** The value `Date.now()` would return. */
    var clock: nat

    /** The state as a value. */
    function Model(): Conversation.Chat
      reads this
    {
      Conversation.Chat(messages, inputValue, isTyping, currentSessionId, pending, clock)
    }

    ghost predicate Valid()
      reads this
    {
      Conversation.Valid(Model())
    }

    /** Mounting at time `now`: the greeting alone, an empty input, session `'current'`. */
    constructor (now: nat)
      ensures Valid() && Model() == Conversation.Initial(now)
    {
      messages := [Conversation.Greeting(now)];
      inputValue := "";
      isTyping := false;
      currentSessionId := CurrentSessionId;
      pending := [];
      clock := now;
      Conversation.InitialValid(now);
    }

    /** The textarea's `onChange`. */
    method SetInput(value: string)
      requires Valid()
      modifies this
      ensures Valid() && Model() == Conversation.EditInput(old(Model()), value)
    {
      Conversation.EditInputPreservesValid(Model(), value);
      inputValue := value;
    }

    /** The clock advances by `elapsed` milliseconds. */
    method AdvanceClock(elapsed: nat)
      requires Valid()
      modifies this
      ensures Valid() && Model() == Conversation.Tick(old(Model()), elapsed)
    {
      Conversation.TickPreservesValid(Model(), elapsed);
      clock := clock + elapsed;
    }

    /** `handleSend`. */
    method HandleSend()
      requires Valid()
      modifies this
      ensures Valid() && Model() == Conversation.Send(old(Model()))
    {
      Conversation.SendPreservesValid(Model());
      if IsBlank(inputValue) {
        return;
      }
      var userMessage := Conversation.UserMessage(clock, inputValue);
      messages := messages + [userMessage];
      // The timer's closure keeps the input as it was before it is cleared.
      pending := pending + [Conversation.PendingReply(inputValue, clock + Conversation.ReplyDelay)];
      inputValue := "";
      isTyping := true;
    }

    /** The earliest timer fires: its reply is appended and the indicator lowered. */
    method DeliverReply()
      requires Valid() && Conversation.ReplyDue(Model())
      modifies this
      ensures Valid() && Model() == Conversation.DeliverReply(old(Model()))
    {
      Conversation.DeliverPreservesValid(Model());
      var aiMessage := Conversation.AiMessage(clock, pending[0].input);
      messages := messages + [aiMessage];
      isTyping := false;
      pending := pending[1..];
    }

    /** `newChat`. */
    method NewChat()
      requires Valid()
      modifies this
      ensures Valid() && Model() == Conversation.NewChat(old(Model()))
    {
      Conversation.NewChatPreservesValid(Model());
      messages := [Conversation.Greeting(clock)];
      currentSessionId := CurrentSessionId;
    }

    /** The `onClick` of a sidebar session. */
    method SelectSession(id: string)
      requires Valid()
      modifies this
      ensures Valid() && Model() == Conversation.SelectSession(old(Model()), id)
    {
      Conversation.SelectSessionPreservesValid(Model(), id);
      currentSessionId := id;
    }

    /** `handleKeyPress`. */
    method HandleKeyPress(key: string, shift: bool)
      requires Valid()
      modifies this
      ensures Valid() && Model() == Conversation.KeyPress(old(Model()), key, shift)
    {
      if Conversation.EnterSends(key, shift) {
        HandleSend();
      }
    }

    /** A click on the send button, which is disabled while blank or typing. */
    method ClickSend()
      requires Valid()
      modifies this
      ensures Valid() && Model() == Conversation.ClickSend(old(Model()))
    {
      if Conversation.SendEnabled(Model()) {
        HandleSend();
      }
    }

    /**
     * Whether the send button is enabled; reads the state and changes nothing.
     * It is enabled exactly when a click would change the state, that is when
     * some character of the input is not whitespace and no reply is being typed.
     */
    method SendButtonEnabled() returns (enabled: bool)
      ensures enabled <==> Conversation.SendEnabled(Model())
      ensures enabled <==> Conversation.ClickSend(Model()) != Model()
      ensures enabled <==> (exists i :: 0 <= i < |inputValue| && !IsSpace(inputValue[i])) && !isTyping
    {
      Conversation.ClickSendGuard(Model());
      BlankIffAllSpace(inputValue);
      enabled := Conversation.SendEnabled(Model());
    }

    /** The header title for the current state. */
    method Title() returns (title: string)
      ensures title == Conversation.Title(Model())
      ensures currentSessionId !in {"current", "1", "2", "3", "4"} ==> title == DefaultTitle
    {
      FixedHeaderTitles(clock, currentSessionId);
      title := Conversation.Title(Model());
    }
  }
}
