/**
 The shopping-assistant chat. The dialog keeps a transcript of what it
 shows and, separately, the history it sends to the model: every request
 carries the whole history. Opening with an empty transcript greets the
 user and starts a fresh history. A send whose input is blank after
 trimming does nothing; otherwise the user's words (untrimmed) join both
 lists. A reply joins both lists too; a failure adds a fixed apology to the
 transcript only, so the history keeps the unanswered question.
 The network exchange is an input: `Success(text)` or `Failure`.
 */
module Chatbot {
  import opened Js

  datatype Role = User | Model

  /** One turn, shown in the transcript or sent as part of the history. */
  datatype Message = Message(role: Role, text: string)

  const GREETING: Message :=
    Message(Model, "Hello! I am Zephyra, your personal beauty assistant. How can I help you today?")
  const APOLOGY: Message :=
    Message(Model, "I seem to be having trouble connecting. Please try again in a moment.")

  datatype ChatState = ChatState(
    isOpen: bool,
    messages: seq<Message>,
    input: string,
    isLoading: bool,
    history: seq<Message>)

  /** A freshly loaded page: closed, nothing said, nothing sent. */
  const INITIAL: ChatState := ChatState(false, [], "", false, [])

  /** Clicking the chat button, followed by the effect on `isOpen`: the
      effect runs only when `isOpen` changes, and greets only when the
      transcript is empty. */
  function Open(s: ChatState): (r: ChatState)
    ensures r.isOpen && r.input == s.input && r.isLoading == s.isLoading
    ensures !s.isOpen && s.messages == [] ==> r.messages == [GREETING] && r.history == []
    ensures !(!s.isOpen && s.messages == []) ==> r.messages == s.messages && r.history == s.history
  {
    if s.isOpen then s
    else if s.messages == [] then s.(isOpen := true, messages := [GREETING], history := [])
    else s.(isOpen := true)
  }

  /** The close button. Transcript and history are kept. */
  function Close(s: ChatState): (r: ChatState)
    ensures !r.isOpen && r.messages == s.messages && r.history == s.history
    ensures r.input == s.input && r.isLoading == s.isLoading
  {
    s.(isOpen := false)
  }

  /** Typing into the input box. */
  function Type(s: ChatState, text: string): (r: ChatState)
    ensures r.input == text && r.messages == s.messages && r.history == s.history
    ensures r.isOpen == s.isOpen && r.isLoading == s.isLoading
  {
    s.(input := text)
  }

  /** The state after the synchronous half of `handleSend`, and the history
      sent with the request, if one is made. */
  datatype SendResult = SendResult(state: ChatState, request: Option<seq<Message>>)

  /** The first half of `handleSend`, up to the request. */
  function Send(s: ChatState): (r: SendResult)
    ensures AllWhitespace(s.input) ==> r.state == s && r.request.None?
    ensures !AllWhitespace(s.input) ==>
      r.state.messages == s.messages + [Message(User, s.input)]
      && r.state.history == s.history + [Message(User, s.input)]
      && r.state.input == "" && r.state.isLoading
      && r.request == Some(r.state.history)
      && r.state.isOpen == s.isOpen
  {
    TrimEmptyIff(s.input);
    if Trim(s.input) == "" then SendResult(s, None)
    else
      var turn := Message(User, s.input);
      var t := s.(input := "", messages := s.messages + [turn], isLoading := true, history := s.history + [turn]);
      SendResult(t, Some(t.history))
  }

  /** What the request produced: the model's text, or a failure anywhere
      (a non-OK status, an unreadable body, a missing candidate). */
  datatype Outcome = Success(text: string) | Failure

  /** The second half of `handleSend`: the answer or the apology, then
      loading ends. */
  function Settle(s: ChatState, outcome: Outcome): (r: ChatState)
    ensures !r.isLoading && r.isOpen == s.isOpen && r.input == s.input
    ensures outcome.Success? ==>
      r.messages == s.messages + [Message(Model, outcome.text)]
      && r.history == s.history + [Message(Model, outcome.text)]
    ensures outcome.Failure? ==> r.messages == s.messages + [APOLOGY] && r.history == s.history
  {
    match outcome
    case Success(text) =>
      s.(messages := s.messages + [Message(Model, text)], history := s.history + [Message(Model, text)], isLoading := false)
    case Failure =>
      s.(messages := s.messages + [APOLOGY], isLoading := false)
  }

  /** A whole `handleSend`: send, then settle if a request was made. */
  function Exchange(s: ChatState, outcome: Outcome): (r: ChatState)
    ensures AllWhitespace(s.input) ==> r == s
    ensures !AllWhitespace(s.input) ==> r.input == "" && !r.isLoading
    ensures !AllWhitespace(s.input) && outcome.Success? ==>
      r.messages == s.messages + [Message(User, s.input)] + [Message(Model, outcome.text)]
      && r.history == s.history + [Message(User, s.input)] + [Message(Model, outcome.text)]
    ensures !AllWhitespace(s.input) && outcome.Failure? ==>
      r.messages == s.messages + [Message(User, s.input)] + [APOLOGY]
      && r.history == s.history + [Message(User, s.input)]
    ensures r.isOpen == s.isOpen
  {
    var sent := Send(s);
    if sent.request.None? then s else Settle(sent.state, outcome)
  }

  /** One user turn: what was typed and how the request went. */
  datatype Turn = Turn(text: string, outcome: Outcome)

  /** A sequence of typed turns, each sent and settled. The dialog's open
      state is untouched and neither list ever shrinks. */
  function Converse(s: ChatState, turns: seq<Turn>): (r: ChatState)
    ensures r.isOpen == s.isOpen
    ensures |r.messages| >= |s.messages| && |r.history| >= |s.history|
    decreases |turns|
  {
    if turns == [] then s
    else Converse(Exchange(Type(s, turns[0].text), turns[0].outcome), turns[1..])
  }

  /** Every typed text has a non-whitespace character. */
  predicate AllSent(turns: seq<Turn>) {
    forall k :: 0 <= k < |turns| ==> !AllWhitespace(turns[k].text)
  }

  /** How many of the turns failed. */
  function Failures(turns: seq<Turn>): (n: nat)
    ensures n <= |turns|
  {
    if turns == [] then 0
    else (if turns[0].outcome.Failure? then 1 else 0) + Failures(turns[1..])
  }

  /** The user turns of a list, in order. */
  function UserTurns(ms: seq<Message>): (r: seq<Message>)
    ensures |r| <= |ms|
    ensures forall m :: m in r <==> m in ms && m.role == User
  {
    if ms == [] then []
    else if ms[0].role == User then [ms[0]] + UserTurns(ms[1..])
    else UserTurns(ms[1..])
  }

  lemma {:induction false} UserTurnsAppend(a: seq<Message>, b: seq<Message>)
    ensures UserTurns(a + b) == UserTurns(a) + UserTurns(b)
  {
    if a == [] {
      assert a + b == b;
    } else {
      assert (a + b)[1..] == a[1..] + b;
      UserTurnsAppend(a[1..], b);
    }
  }

  /** An input of whitespace only trims to nothing, and then a send changes
      nothing and sends nothing. */
  lemma BlankInputIgnored(s: ChatState, outcome: Outcome)
    requires AllWhitespace(s.input)
    ensures Trim(s.input) == ""
    ensures Send(s).request.None? && Exchange(s, outcome) == s
  {
    TrimEmptyIff(s.input);
  }

  /** Each request ends with the user turn just typed, untrimmed, after the
      whole earlier history. */
  lemma RequestCarriesHistory(s: ChatState)
    requires Trim(s.input) != ""
    ensures Send(s).request == Some(s.history + [Message(User, s.input)])
  {
    TrimEmptyIff(s.input);
  }

  /** One exchange adds two transcript lines, and two history entries on
      success or one on failure; loading is over afterwards. */
  lemma ExchangeCounts(s: ChatState, outcome: Outcome)
    requires !AllWhitespace(s.input)
    ensures |Exchange(s, outcome).messages| == |s.messages| + 2
    ensures |Exchange(s, outcome).history| == |s.history| + (if outcome.Failure? then 1 else 2)
    ensures !Exchange(s, outcome).isLoading && Exchange(s, outcome).input == ""
  {
  }

  /** A conversation of `n` sent turns, `k` of them failed, adds `2n` lines
      to the transcript and `2n - k` entries to the history. */
  lemma {:induction false} ConverseCounts(s: ChatState, turns: seq<Turn>)
    requires AllSent(turns)
    ensures |Converse(s, turns).messages| == |s.messages| + 2 * |turns|
    ensures |Converse(s, turns).history| == |s.history| + 2 * |turns| - Failures(turns)
    decreases |turns|
  {
    if turns != [] {
      var t := Type(s, turns[0].text);
      ExchangeCounts(t, turns[0].outcome);
      assert AllSent(turns[1..]) by {
        forall k | 0 <= k < |turns[1..]| ensures !AllWhitespace(turns[1..][k].text) {
          assert turns[1..][k] == turns[k + 1];
        }
      }
      ConverseCounts(Exchange(t, turns[0].outcome), turns[1..]);
    }
  }

  /** The transcript and the history hold the same user turns, in the same
      order; an exchange keeps it so, whatever its outcome. */
  predicate SameQuestions(s: ChatState) {
    UserTurns(s.messages) == UserTurns(s.history)
  }

  lemma ExchangeKeepsQuestions(s: ChatState, outcome: Outcome)
    requires SameQuestions(s)
    ensures SameQuestions(Exchange(s, outcome))
  {
    var turn := Message(User, s.input);
    UserTurnsAppend(s.messages, [turn]);
    UserTurnsAppend(s.history, [turn]);
    UserTurnsAppend(s.messages + [turn], [APOLOGY]);
    if outcome.Success? {
      var reply := Message(Model, outcome.text);
      UserTurnsAppend(s.messages + [turn], [reply]);
      UserTurnsAppend(s.history + [turn], [reply]);
    }
  }

  lemma {:induction false} ConverseKeepsQuestions(s: ChatState, turns: seq<Turn>)
    requires SameQuestions(s)
    ensures SameQuestions(Converse(s, turns))
    decreases |turns|
  {
    if turns != [] {
      var t := Type(s, turns[0].text);
      ExchangeKeepsQuestions(t, turns[0].outcome);
      ConverseKeepsQuestions(Exchange(t, turns[0].outcome), turns[1..]);
    }
  }

  /** From a fresh page: opening greets with an empty history; after `n`
      sent turns with `k` failures the transcript holds `1 + 2n` lines and the
      history `2n - k` entries, with the same user questions in both. */
  lemma FirstConversation(turns: seq<Turn>)
    requires AllSent(turns)
    ensures Open(INITIAL).messages == [GREETING] && Open(INITIAL).history == []
    ensures |Converse(Open(INITIAL), turns).messages| == 1 + 2 * |turns|
    ensures |Converse(Open(INITIAL), turns).history| == 2 * |turns| - Failures(turns)
    ensures SameQuestions(Converse(Open(INITIAL), turns))
  {
    ConverseCounts(Open(INITIAL), turns);
    assert UserTurns([GREETING]) == [] by {
      assert [GREETING][1..] == [];
    }
    ConverseKeepsQuestions(Open(INITIAL), turns);
  }

  /** Reopening after closing neither greets again nor forgets the history. */
  lemma ReopenKeepsConversation(s: ChatState)
    requires s.messages != []
    ensures Open(Close(s)).messages == s.messages && Open(Close(s)).history == s.history
  {
  }
}
