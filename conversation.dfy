/**
 * The state of the chat component as a value, and each event handler as a
 * transition on it. `Date.now()` is the `clock` field, advanced by `Tick`; the
 * `setTimeout(…, 1500)` of `handleSend` is an entry of `pending`, holding the
 * input captured at send time, and `DeliverReply` is the timer firing.
 */
module Conversation {
  import opened Wrappers
  import opened Text
  import opened Reply
  import opened Sessions

  datatype Role = User | Ai

  const GreetingText: string := "Hello! I'm Sparrow, your legal AI assistant. I can help you with legal questions, analyze documents, and provide research assistance. How can I help you today?"

  /**
   * A message body: text the user typed, the fixed greeting, or one of the
   * canned replies. The fixed texts are named rather than spelled out, and
   * `ContentText` gives the string the transcript shows.
   */
  datatype Content = Typed(text: string) | GreetingContent | Canned(guidance: Guidance)

  function ContentText(c: Content): string {
    match c
    case Typed(t) => t
    case GreetingContent => GreetingText
    case Canned(g) => GuidanceText(g)
  }

  /** A transcript entry; the source's string ids `'1'` and `Date.now().toString()` are numbers here. */
  datatype Message = Message(id: nat, role: Role, content: Content, timestamp: nat, documentSummary: Option<DocumentSummary>)

  /** Milliseconds between a send and its simulated reply. */
  const ReplyDelay: nat := 1500

  /** The greeting every conversation starts with (id `'1'`). */
  function Greeting(now: nat): Message {
    Message(1, Ai, GreetingContent, now, None)
  }

  /** The user message `handleSend` builds: id and timestamp from the clock, the untrimmed input. */
  function UserMessage(now: nat, input: string): Message {
    Message(now, User, Typed(input), now, None)
  }

  /** The reply the timer callback builds at time `now` for the captured `input` (id `Date.now() + 1`). */
  function AiMessage(now: nat, input: string): Message {
    Message(now + 1, Ai, Canned(Classify(input)), now, SummaryFor(input))
  }

  /** A scheduled reply: the input it will answer and the time its timer is due. */
  datatype PendingReply = PendingReply(input: string, due: nat)

  /** `messages`, `inputValue`, `isTyping`, `currentSessionId`, the scheduled timers and the clock. */
  datatype Chat = Chat(
    messages: seq<Message>,
    inputValue: string,
    isTyping: bool,
    currentSessionId: string,
    pending: seq<PendingReply>,
    clock: nat)

  /** What the transcript shows for each kind of message: the typed text, the greeting, the generated reply. */
  lemma ShownText(now: nat, input: string)
    ensures ContentText(UserMessage(now, input).content) == input
    ensures ContentText(Greeting(now).content) == GreetingText
    ensures ContentText(AiMessage(now, input).content) == GenerateAIResponse(input)
  {
  }

  /** The state on mount. */
  function Initial(now: nat): Chat {
    Chat([Greeting(now)], "", false, CurrentSessionId, [], now)
  }

  /** The textarea's `onChange`: the input becomes what was typed. */
  function EditInput(c: Chat, value: string): Chat {
    c.(inputValue := value)
  }

  /** Time passes. */
  function Tick(c: Chat, elapsed: nat): Chat {
    c.(clock := c.clock + elapsed)
  }

  /**
   * `handleSend`: a blank input is ignored; otherwise the user message goes
   * to the tail, the input is cleared, the typing indicator is raised and a
   * reply to the current input is scheduled. It does not look at `isTyping`.
   */
  function Send(c: Chat): Chat {
    if IsBlank(c.inputValue) then c
    else c.(messages := c.messages + [UserMessage(c.clock, c.inputValue)],
            inputValue := "",
            isTyping := true,
            pending := c.pending + [PendingReply(c.inputValue, c.clock + ReplyDelay)])
  }

  /** The earliest scheduled timer has come due. */
  predicate ReplyDue(c: Chat) {
    c.pending != [] && c.pending[0].due <= c.clock
  }

  /** The timer callback: append the reply to the captured input and lower the typing indicator. */
  function DeliverReply(c: Chat): Chat
    requires ReplyDue(c)
  {
    c.(messages := c.messages + [AiMessage(c.clock, c.pending[0].input)],
       isTyping := false,
       pending := c.pending[1..])
  }

  /** `newChat`: the transcript is the greeting alone and the active session is `'current'`. */
  function NewChat(c: Chat): Chat {
    c.(messages := [Greeting(c.clock)], currentSessionId := CurrentSessionId)
  }

  /** A click on a sidebar session. */
  function SelectSession(c: Chat, id: string): Chat {
    c.(currentSessionId := id)
  }

  /** `handleKeyPress`: Enter without Shift submits. */
  predicate EnterSends(key: string, shift: bool) {
    key == "Enter" && !shift
  }

  function KeyPress(c: Chat, key: string, shift: bool): Chat {
    if EnterSends(key, shift) then Send(c) else c
  }

  /** The send button's `disabled={!inputValue.trim() || isTyping}`, negated. */
  predicate SendEnabled(c: Chat) {
    !IsBlank(c.inputValue) && !c.isTyping
  }

  /** A click on the send button; a disabled button does not fire. */
  function ClickSend(c: Chat): Chat {
    if SendEnabled(c) then Send(c) else c
  }

  /** The header title of the state, looked up in the session list built at the current time. */
  function Title(c: Chat): string {
    HeaderTitle(ChatSessions(c.clock), c.currentSessionId)
  }

  /**
   * What every reachable state satisfies: the transcript starts with the
   * greeting; timestamps never decrease and never run ahead of the clock;
   * timers are queued in due order, none more than one delay ahead, each for a
   * non-blank input; and the typing indicator is only up while a reply is
   * pending.
   */
  predicate Valid(c: Chat) {
    && |c.messages| >= 1
    && c.messages[0] == Greeting(c.messages[0].timestamp)
    && (forall i, j :: 0 <= i < j < |c.messages| ==> c.messages[i].timestamp <= c.messages[j].timestamp)
    && (forall i :: 0 <= i < |c.messages| ==> c.messages[i].timestamp <= c.clock)
    && (forall i, j :: 0 <= i < j < |c.pending| ==> c.pending[i].due <= c.pending[j].due)
    && (forall i :: 0 <= i < |c.pending| ==> c.pending[i].due <= c.clock + ReplyDelay)
    && (forall i :: 0 <= i < |c.pending| ==> !IsBlank(c.pending[i].input))
    && (c.isTyping ==> c.pending != [])
  }

  lemma InitialValid(now: nat)
    ensures Valid(Initial(now))
    ensures Initial(now).messages == [Greeting(now)] && !Initial(now).isTyping && Initial(now).pending == []
  {
  }

  lemma EditInputPreservesValid(c: Chat, value: string)
    requires Valid(c)
    ensures Valid(EditInput(c, value))
  {
  }

  lemma TickPreservesValid(c: Chat, elapsed: nat)
    requires Valid(c)
    ensures Valid(Tick(c, elapsed))
  {
  }

  lemma NewChatPreservesValid(c: Chat)
    requires Valid(c)
    ensures Valid(NewChat(c))
  {
  }

  lemma SelectSessionPreservesValid(c: Chat, id: string)
    requires Valid(c)
    ensures Valid(SelectSession(c, id))
  {
  }

  lemma {:induction false} SendPreservesValid(c: Chat)
    requires Valid(c)
    ensures Valid(Send(c))
  {
    if !IsBlank(c.inputValue) {
      var d := Send(c);
      assert d.messages[0] == c.messages[0];
      forall i, j | 0 <= i < j < |d.messages| ensures d.messages[i].timestamp <= d.messages[j].timestamp {
        if j == |c.messages| {
          assert d.messages[i] == c.messages[i];
        }
      }
      forall i, j | 0 <= i < j < |d.pending| ensures d.pending[i].due <= d.pending[j].due {
        assert d.pending[i] == c.pending[i];
      }
    }
  }

  lemma {:induction false} DeliverPreservesValid(c: Chat)
    requires Valid(c) && ReplyDue(c)
    ensures Valid(DeliverReply(c))
  {
    var d := DeliverReply(c);
    assert d.messages[0] == c.messages[0];
    forall i, j | 0 <= i < j < |d.messages| ensures d.messages[i].timestamp <= d.messages[j].timestamp {
      if j == |c.messages| {
        assert d.messages[i] == c.messages[i];
      }
    }
    forall i, j | 0 <= i < j < |d.pending| ensures d.pending[i].due <= d.pending[j].due {
      assert d.pending[i] == c.pending[i + 1] && d.pending[j] == c.pending[j + 1];
    }
    forall i | 0 <= i < |d.pending| ensures !IsBlank(d.pending[i].input) && d.pending[i].due <= d.clock + ReplyDelay {
      assert d.pending[i] == c.pending[i + 1];
    }
  }

  /** A send changes the state exactly when the input is not blank. */
  lemma SendBlankIsNoop(c: Chat)
    ensures Send(c) == c <==> IsBlank(c.inputValue)
  {
    if !IsBlank(c.inputValue) {
      assert |Send(c).messages| == |c.messages| + 1;
    }
  }

  /**
   * A non-blank send appends one user message carrying the untrimmed input at
   * the tail, leaves the earlier messages alone, clears the input, raises the
   * typing indicator and schedules one reply to that input, due one delay later.
   */
  lemma SendAppendsUserMessage(c: Chat)
    requires !IsBlank(c.inputValue)
    ensures var d := Send(c);
      && |d.messages| == |c.messages| + 1
      && d.messages[..|c.messages|] == c.messages
      && d.messages[|c.messages|] == UserMessage(c.clock, c.inputValue)
      && d.messages[|c.messages|].role == User
      && d.messages[|c.messages|].id == c.clock && d.messages[|c.messages|].timestamp == c.clock
      && d.messages[|c.messages|].content == Typed(c.inputValue)
      && d.messages[|c.messages|].documentSummary == None
      && d.inputValue == "" && d.isTyping
      && d.pending == c.pending + [PendingReply(c.inputValue, c.clock + ReplyDelay)]
      && d.currentSessionId == c.currentSessionId && d.clock == c.clock
  {
    assert Send(c).messages[..|c.messages|] == c.messages;
  }

  /**
   * Delivering the due reply appends exactly one `ai` message at the tail,
   * answering the earliest captured input and carrying the fixed summary when
   * the summary rule fires, removes that timer and only that one from the
   * front of the queue, and lowers the typing indicator even when further
   * replies are still pending; the clock does not move.
   */
  lemma DeliverAppendsAiMessage(c: Chat)
    requires ReplyDue(c)
    ensures var d := DeliverReply(c);
      && |d.messages| == |c.messages| + 1
      && d.messages[..|c.messages|] == c.messages
      && d.messages[|c.messages|] == AiMessage(c.clock, c.pending[0].input)
      && d.messages[|c.messages|].role == Ai && d.messages[|c.messages|].id == c.clock + 1
      && d.messages[|c.messages|].content == Canned(Classify(c.pending[0].input))
      && (HasDocumentSummary(c.pending[0].input) ==> d.messages[|c.messages|].documentSummary == Some(AnalysisSummary))
      && (!HasDocumentSummary(c.pending[0].input) ==> d.messages[|c.messages|].documentSummary == None)
      && !d.isTyping && d.pending == c.pending[1..]
      && d.inputValue == c.inputValue && d.currentSessionId == c.currentSessionId && d.clock == c.clock
  {
    assert DeliverReply(c).messages[..|c.messages|] == c.messages;
  }

  /**
   * Send, then (whatever is typed meanwhile) the timer: the transcript grows by
   * exactly two messages, the user's and then the reply, and the reply answers
   * the input captured at send time, not the current contents of the input box.
   */
  lemma {:induction false} SendThenDeliver(c: Chat, typed: string, elapsed: nat)
    requires Valid(c) && c.pending == [] && !IsBlank(c.inputValue) && elapsed >= ReplyDelay
    ensures var t := Tick(EditInput(Send(c), typed), elapsed);
      && ReplyDue(t)
      && DeliverReply(t).messages ==
           c.messages + [UserMessage(c.clock, c.inputValue), AiMessage(c.clock + elapsed, c.inputValue)]
      && !DeliverReply(t).isTyping && DeliverReply(t).pending == []
      && DeliverReply(t).inputValue == typed
  {
    var t := Tick(EditInput(Send(c), typed), elapsed);
    assert t.pending == [PendingReply(c.inputValue, c.clock + ReplyDelay)];
  }

  /** `newChat` resets the transcript and the session id, touches nothing else, and is idempotent. */
  lemma NewChatResets(c: Chat)
    ensures NewChat(c).messages == [Greeting(c.clock)]
    ensures NewChat(c).messages[0].role == Ai && NewChat(c).messages[0].id == 1
    ensures NewChat(c).currentSessionId == "current" && Title(NewChat(c)) == "New Chat"
    ensures NewChat(c).inputValue == c.inputValue && NewChat(c).isTyping == c.isTyping
    ensures NewChat(c).pending == c.pending && NewChat(c).clock == c.clock
    ensures NewChat(NewChat(c)) == NewChat(c)
  {
    FixedHeaderTitles(c.clock, "current");
    assert ChatSessions(c.clock)[0].id == "current";
  }

  /**
   * `newChat` cancels no timer: a reply that was due before the reset lands in
   * the fresh conversation, right after the greeting.
   */
  lemma NewChatKeepsPendingReply(c: Chat)
    requires ReplyDue(c)
    ensures ReplyDue(NewChat(c))
    ensures DeliverReply(NewChat(c)).messages == [Greeting(c.clock), AiMessage(c.clock, c.pending[0].input)]
  {
  }

  /**
   * Selecting a session changes only the active id; the transcript is not
   * reloaded; the header then shows the selected session's title.
   */
  lemma SelectSessionOnlySetsId(c: Chat, k: nat)
    requires k < |ChatSessions(c.clock)|
    ensures var d := SelectSession(c, ChatSessions(c.clock)[k].id);
      && d.currentSessionId == ChatSessions(c.clock)[k].id
      && d.messages == c.messages && d.pending == c.pending && d.inputValue == c.inputValue
      && d.isTyping == c.isTyping && d.clock == c.clock
      && Title(d) == ChatSessions(c.clock)[k].title
  {
    FixedHeaderTitles(c.clock, "");
  }

  /** Enter without Shift submits like `handleSend`; Shift+Enter and every other key leave the state alone. */
  lemma KeyPressRule(c: Chat, key: string, shift: bool)
    ensures key == "Enter" && !shift ==> KeyPress(c, key, shift) == Send(c)
    ensures key != "Enter" || shift ==> KeyPress(c, key, shift) == c
  {
  }

  /** The send button fires exactly when the input is not blank and no reply is being typed. */
  lemma ClickSendGuard(c: Chat)
    ensures ClickSend(c) != c <==> !IsBlank(c.inputValue) && !c.isTyping
  {
    SendBlankIsNoop(c);
  }

  /**
   * Only the button honours the typing indicator: while a reply is pending,
   * a click does nothing but Enter sends, so a second reply is scheduled
   * beside the first.
   */
  lemma EnterBypassesTypingGuard(c: Chat)
    requires Valid(c) && c.isTyping && !IsBlank(c.inputValue)
    ensures ClickSend(c) == c
    ensures |KeyPress(c, "Enter", false).pending| == |c.pending| + 1 >= 2
  {
  }

  /**
   * Two sends in a row by Enter, then the first timer: the first reply
   * arrives, the indicator goes down, and the second reply is still pending —
   * so the typing indicator is not the same thing as "a reply is pending".
   */
  lemma {:induction false} TypingIndicatorDropsEarly(c: Chat, first: string, second: string)
    requires Valid(c) && c.pending == [] && !IsBlank(first) && !IsBlank(second)
    ensures var s1 := KeyPress(EditInput(c, first), "Enter", false);
      var s2 := Tick(KeyPress(EditInput(s1, second), "Enter", false), ReplyDelay);
      && ReplyDue(s2)
      && var d := DeliverReply(s2);
      && !d.isTyping && d.pending == [PendingReply(second, c.clock + ReplyDelay)]
      && d.messages == c.messages + [UserMessage(c.clock, first), UserMessage(c.clock, second),
                                     AiMessage(c.clock + ReplyDelay, first)]
  {
    var e1 := EditInput(c, first);
    var s1 := KeyPress(e1, "Enter", false);
    assert s1 == Send(e1);
    assert s1.messages == c.messages + [UserMessage(c.clock, first)];
    assert s1.pending == [PendingReply(first, c.clock + ReplyDelay)];
    var e2 := EditInput(s1, second);
    var t2 := KeyPress(e2, "Enter", false);
    assert t2 == Send(e2);
    assert t2.messages == c.messages + [UserMessage(c.clock, first), UserMessage(c.clock, second)];
    assert t2.pending == [PendingReply(first, c.clock + ReplyDelay), PendingReply(second, c.clock + ReplyDelay)];
    var s2 := Tick(t2, ReplyDelay);
    assert s2.clock == c.clock + ReplyDelay;
    assert s2.pending[0].input == first && s2.pending[1..] == [PendingReply(second, c.clock + ReplyDelay)];
    var reply := AiMessage(c.clock + ReplyDelay, first);
    assert DeliverReply(s2).messages == t2.messages + [reply];
  }
}
