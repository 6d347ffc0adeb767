# Sparrow chat session model

A Dafny model of the chat component of the Sparrow legal-assistant front end
(`Frontend/src/components/ChatInterface.tsx`). The component keeps a
transcript of messages, the text being typed, a "typing" indicator and the id
of the active sidebar session. Sending appends the user's message and
schedules a simulated reply 1500 ms later. The reply is chosen by
case-insensitive keyword matching and may carry a fixed document-analysis
summary. The sidebar shows a hard-coded list of sessions with their age
("Just now", "Nh ago", "Nd ago") and the header shows the active session's
title.

Modules, one per concern of the component:

- `Wrappers`: `Option`.
- `Text`: ASCII versions of `trim`, `toLowerCase` and `includes`, with their
  characterisations.
- `Reply`: `generateAIResponse` (`Classify` plus the literal reply texts
  `GuidanceText`), the `documentSummary` rule `SummaryFor`, and a
  table-driven reference classifier `FirstMatch` proved equal to the chain of
  conditionals.
- `RelativeTime`: `formatRelativeTime` as floor bucketing, its rendering to
  text and a parser proving the rendering lossless.
- `Sessions`: the five hard-coded sessions, `find` and the header title rule.
- `Conversation`: the component state as a value (`Chat`), each event handler
  as a transition, the invariant `Valid` that every transition preserves, and
  the lemmas about sending, replying, resetting and selecting.
- `ChatStore`: class `ChatInterface` whose fields are the component's state
  hooks; its methods update the fields in place and are each proved to perform
  the matching `Conversation` transition on `Model()` while keeping `Valid()`.

How the environment is modelled:

- `Date.now()` is the state's `clock` (milliseconds, a `nat`). It only moves
  forward, by the explicit `Tick` / `AdvanceClock` step.
- Each `setTimeout(…, 1500)` is an entry of `pending`. The entry holds the
  input captured when the send happened and its due time. `DeliverReply` is
  that timer firing: it needs the earliest entry to be due, appends the reply
  and lowers `isTyping`. Timers with one fixed delay fire in scheduling order,
  so `pending` is a FIFO queue.
- Message ids follow the source: the greeting has id 1, a user message has the
  clock value at send time, and a reply has the clock value at delivery plus 1.
  They are numbers here, not strings.
- A message body is `Typed(text)`, `GreetingContent` or `Canned(guidance)`.
  `ContentText` gives the string the transcript would show; the lemma
  `ShownText` ties it to the source's texts.

Behaviour of the code that the model keeps, although it may look unintended:

- Sends are not serialised. Only the send button checks `isTyping` (line
  570). Enter calls `handleSend` directly (lines 177-180), and `handleSend`
  never checks `isTyping` (line 119). So several replies can be pending at
  once, and the first delivery lowers the indicator while others are still
  pending (`TypingIndicatorDropsEarly`).
- `newChat` cancels no timer and leaves `isTyping` alone. A reply due before
  the reset lands in the new conversation (`NewChatKeepsPendingReply`).
- Ids come from `Date.now()` and are not guaranteed unique; no uniqueness is
  claimed.
- The header title uses `?.title || 'New Chat'`, so an empty title also shows
  "New Chat" (`HeaderTitleSpec`).

## Model

| member | source | states |
|---|---|---|
| Text.TrimStartSpec | Frontend/src/components/ChatInterface.tsx:119 | trimming the front removes exactly the leading whitespace and keeps the rest as a suffix |
| Text.TrimEndSpec | Frontend/src/components/ChatInterface.tsx:119 | trimming the back removes exactly the trailing whitespace and keeps the rest as a prefix |
| Text.BlankIffAllSpace | Frontend/src/components/ChatInterface.tsx:119 | `!s.trim()` holds exactly when every character of `s` is whitespace |
| Text.TrimIsInfix | Frontend/src/components/ChatInterface.tsx:119 | the trimmed string is a contiguous slice of the input |
| Text.ToLowerSpec | Frontend/src/components/ChatInterface.tsx:164 | lowercasing sends each upper-case letter to the letter 32 code points on, keeps every other character, leaves no upper-case letter, and is idempotent |
| Text.IncludesIff | Frontend/src/components/ChatInterface.tsx:164-170 | `s.includes(p)` holds exactly when `p` occurs at some position of `s` |
| Reply.SummaryFor | Frontend/src/components/ChatInterface.tsx:144-155 | a summary is attached iff the lowercased input contains "document" or "contract"; it is the fixed summary with 4 key points |
| Reply.ClassifyFirstMatch | Frontend/src/components/ChatInterface.tsx:163-174 | each reply is chosen exactly when its keyword is the first of contract, document, privacy present in the lowercased input; the fallback when none is |
| Reply.GuidanceTextInjective | Frontend/src/components/ChatInterface.tsx:165-173 | the four reply texts are pairwise different |
| Reply.GenerateAIResponseFirstMatch | Frontend/src/components/ChatInterface.tsx:163-174 | the first-match rule stated on the returned reply string, both directions for all four replies |
| Reply.SummaryIffContractOrDocumentReply | Frontend/src/components/ChatInterface.tsx:142-155 | a summary is attached exactly when the contract or document reply is chosen |
| Reply.FirstMatchIsLeastMatch | Frontend/src/components/ChatInterface.tsx:163-174 | a rule table answers with the reply of the least matching rule, or the fallback when no rule matches |
| Reply.ClassifyIsRuleTable | Frontend/src/components/ChatInterface.tsx:163-174 | the chain of conditionals equals the ordered rule table contract, document, privacy with the general reply last |
| Reply.CaseInsensitive | Frontend/src/components/ChatInterface.tsx:144 | lowercasing the input first changes neither the reply nor the summary |
| Reply.UpperCaseContract | Frontend/src/components/ChatInterface.tsx:144-165 | "CONTRACT" in upper case gets the contract reply and the fixed summary |
| Reply.ContractExample | Frontend/src/components/ChatInterface.tsx:144-165 | "Can you review my contract?" gets the contract reply and a 4-point summary |
| Reply.PrivacyAloneHasNoSummary | Frontend/src/components/ChatInterface.tsx:144-171 | privacy without contract or document gets the privacy reply and no summary |
| Reply.ContractOutranksPrivacy | Frontend/src/components/ChatInterface.tsx:164-171 | an input with both "privacy" and "contract" gets the contract reply and a summary |
| Reply.NoKeywordGeneralReply | Frontend/src/components/ChatInterface.tsx:144-173 | an input with no keyword gets the fallback reply and no summary |
| RelativeTime.FormatRelativeTimeBuckets | Frontend/src/components/ChatInterface.tsx:199-209 | under an hour is "Just now"; N hours or N days means the difference lies in the N-th whole hour or day (N from 1 to 23, or 1 to 6); a week or more is the locale date |
| RelativeTime.FormatRelativeTimeMonotone | Frontend/src/components/ChatInterface.tsx:199-209 | an older date never gets a fresher bucket |
| RelativeTime.NatToString | Frontend/src/components/ChatInterface.tsx:206-207 | the numeral printed in "Nh ago" / "Nd ago" is a non-empty string of digits with no leading zero, so with the round trip it is the canonical decimal numeral |
| RelativeTime.ParseNatToString | Frontend/src/components/ChatInterface.tsx:206-207 | reading the numeral back gives the number |
| RelativeTime.ParseRender | Frontend/src/components/ChatInterface.tsx:205-207 | every label other than the locale date is rendered losslessly |
| Sessions.Find | Frontend/src/components/ChatInterface.tsx:342 | `find` returns a listed session with the requested id, and nothing exactly when no session has it |
| Sessions.FindReturnsFirst | Frontend/src/components/ChatInterface.tsx:342 | `find` returns the first session with the id |
| Sessions.HeaderTitleSpec | Frontend/src/components/ChatInterface.tsx:342 | the title is the first matching session's non-empty title, otherwise "New Chat" |
| Sessions.FixedHeaderTitles | Frontend/src/components/ChatInterface.tsx:72-108 | on the fixed list each session id selects its own title; an unknown id shows "New Chat" |
| Sessions.FixedSessionLabels | Frontend/src/components/ChatInterface.tsx:72-108 | read within an hour of building the list, the sessions show Just now, 1h, 1d, 2d and 3d ago |
| Conversation.ShownText | Frontend/src/components/ChatInterface.tsx:121-142 | a user message shows the typed text, the greeting its text, a reply the text `generateAIResponse` returns for its input |
| Conversation.InitialValid | Frontend/src/components/ChatInterface.tsx:57-68 | the mounted state is the greeting alone, not typing, nothing pending, and satisfies the invariant |
| Conversation.EditInputPreservesValid | Frontend/src/components/ChatInterface.tsx:551-552 | editing the input keeps the invariant |
| Conversation.TickPreservesValid | Frontend/src/components/ChatInterface.tsx:122 | the clock moving forward keeps the invariant |
| Conversation.SendPreservesValid | Frontend/src/components/ChatInterface.tsx:118-161 | a send keeps the invariant: greeting first, sorted timestamps, timers in due order, typing only while something is pending |
| Conversation.DeliverPreservesValid | Frontend/src/components/ChatInterface.tsx:138-160 | a delivered reply keeps the invariant |
| Conversation.NewChatPreservesValid | Frontend/src/components/ChatInterface.tsx:187-197 | `newChat` keeps the invariant |
| Conversation.SelectSessionPreservesValid | Frontend/src/components/ChatInterface.tsx:250 | selecting a session keeps the invariant |
| Conversation.SendBlankIsNoop | Frontend/src/components/ChatInterface.tsx:119 | a send changes the state exactly when the input is not blank after trimming |
| Conversation.SendAppendsUserMessage | Frontend/src/components/ChatInterface.tsx:121-130 | a non-blank send appends exactly the user message with id and timestamp equal to the clock, the untrimmed input and no summary at the tail, keeps earlier messages, clears the input, raises the indicator and schedules a reply to that input 1500 ms later |
| Conversation.DeliverAppendsAiMessage | Frontend/src/components/ChatInterface.tsx:138-159 | delivery appends exactly the reply message for the earliest captured input (id clock+1, the classified reply, the fixed summary when the rule fires and none otherwise), removes exactly the first timer, lowers the indicator, and leaves the input, session and clock alone |
| Conversation.SendThenDeliver | Frontend/src/components/ChatInterface.tsx:118-160 | send then timer grows the transcript by exactly two messages, user then reply; the reply answers the input captured before it was cleared |
| Conversation.NewChatResets | Frontend/src/components/ChatInterface.tsx:187-197 | `newChat` leaves the greeting (id 1, ai) alone and session 'current' with title "New Chat", keeps input, indicator, timers and clock, and is idempotent |
| Conversation.NewChatKeepsPendingReply | Frontend/src/components/ChatInterface.tsx:138-197 | `newChat` cancels no timer: a due reply lands right after the new greeting |
| Conversation.SelectSessionOnlySetsId | Frontend/src/components/ChatInterface.tsx:250 | selecting a listed session sets only the active id, leaves the messages unchanged, and the header shows that session's title |
| Conversation.KeyPressRule | Frontend/src/components/ChatInterface.tsx:176-181 | Enter without Shift sends; for Shift+Enter or any other key the handler changes nothing (the key's own text input arrives separately as an `onChange` edit) |
| Conversation.ClickSendGuard | Frontend/src/components/ChatInterface.tsx:569-570 | the send button changes the state iff the input is non-blank and no reply is being typed |
| Conversation.EnterBypassesTypingGuard | Frontend/src/components/ChatInterface.tsx:177-180 | while typing, a click does nothing but Enter schedules a second pending reply |
| Conversation.TypingIndicatorDropsEarly | Frontend/src/components/ChatInterface.tsx:138-160 | two Enter sends then one timer: the first reply arrives, the indicator is down, the second reply is still pending |
| ChatStore.ChatInterface.constructor | Frontend/src/components/ChatInterface.tsx:57-68 | the initial state hooks |
| ChatStore.ChatInterface.SetInput | Frontend/src/components/ChatInterface.tsx:551-552 | `onChange` performs `EditInput` and keeps the invariant |
| ChatStore.ChatInterface.AdvanceClock | Frontend/src/components/ChatInterface.tsx:122 | time passing performs `Tick` and keeps the invariant |
| ChatStore.ChatInterface.HandleSend | Frontend/src/components/ChatInterface.tsx:118-161 | `handleSend` performs `Send` in place and keeps the invariant |
| ChatStore.ChatInterface.DeliverReply | Frontend/src/components/ChatInterface.tsx:138-160 | the timer callback performs `DeliverReply` in place and keeps the invariant |
| ChatStore.ChatInterface.NewChat | Frontend/src/components/ChatInterface.tsx:187-197 | `newChat` performs `NewChat` in place and keeps the invariant |
| ChatStore.ChatInterface.SelectSession | Frontend/src/components/ChatInterface.tsx:250 | the session click performs `SelectSession` in place and keeps the invariant |
| ChatStore.ChatInterface.HandleKeyPress | Frontend/src/components/ChatInterface.tsx:176-181 | `handleKeyPress` performs `KeyPress` by calling `HandleSend` on Enter |
| ChatStore.ChatInterface.ClickSend | Frontend/src/components/ChatInterface.tsx:567-570 | the enabled send button performs `Send`; the disabled one does nothing |
| ChatStore.ChatInterface.SendButtonEnabled | Frontend/src/components/ChatInterface.tsx:570 | the button is enabled exactly when a click would change the state, i.e. some input character is not whitespace and no reply is being typed |
| ChatStore.ChatInterface.Title | Frontend/src/components/ChatInterface.tsx:342 | the header title of the current state; "New Chat" for an id not in the list |

## Left out

- JSX rendering, animations, scroll-to-bottom and textarea auto-resize: presentation only.
- The sidebar open/closed flag (`sidebarOpen`) and `onBack`: view toggling with nothing to state.
- `navigator.clipboard` in `copyToClipboard`: a browser call.
- The dropdown actions (Rename, Export, Delete, Profile, Settings, Dark Mode, Sign Out) and the upload and feedback buttons: they have no handlers.
- `toLocaleDateString` and `toLocaleTimeString`: locale-dependent foreign calls. The date fallback is the `LocaleDate` label, and `Render` takes its text as a parameter.
- `trim` and `toLowerCase` cover ASCII only: the Unicode whitespace set (for example U+00A0, U+FEFF) and full Unicode case mapping are not modelled.
- Real timers and `Date`: the clock moves only by explicit steps, and a due timer may fire any time after its due time. Timer jitter and the event-loop order of other events are not modelled.
- A wall clock that steps backwards: `Date.now()` can jump back when the system time is adjusted, but `clock` only grows, and the `Valid` conjunct that timestamps never decrease relies on that.
- The floating-point division before `Math.floor` is exact integer floor division here. This holds for integer millisecond differences below 2^53.
- Message ids are numbers, not `toString()` results. Their uniqueness is not claimed, because `Date.now()` can repeat within a millisecond.
- `LandingPage.tsx`, `Navbar.tsx`, `App.tsx`, `Backend/server.js` and the `ai backend` Python files are not part of this model. They are marketing markup, DOM scrolling, a view switch, a placeholder HTTP route and an unconnected service.
