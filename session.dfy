/** The conversation state of the chat page (frontend/src/App.js:5-56, 125-134): the
    message log, the draft and the loading flag, and the transitions `handleSend`
    makes on them. The request itself is an abstract event: `handleSend` dispatches
    the draft, and later the request settles with a response body or a failure. */
module Session {
  import opened Wrappers
  import opened Text
  import opened Render

  datatype Role = User | Assistant

  datatype Message = Message(role: Role, content: string)

  /** The assistant's first message, present from the start (written here as its
      three sentences, joined). */
  const Greeting: string := Welcome + Purpose + Advice
  const Welcome: string := "안녕하세요! "
  const Purpose: string := "배달 어플 리뷰를 입력하시면 긍정인지 부정인지 분류해 드립니다. "
  const Advice: string := "모호한 내용은 포함하지 마시고 한 문장으로 입력해주세요."

  /** The reply to a request that failed, whatever the failure. */
  const FailureNotice: string := "❌ 서버 연결에 실패했습니다. FastAPI 서버 상태를 확인하세요."

  /** The part of a successful response body the page reads: the sentiment (`None`
      when the body has none), and the confidence in ten-thousandths (`None` when it is
      missing or falsy). */
  datatype Analysis = Analysis(sentiment: Option<string>, confidence: Option<int>)

  /** The sentiment as the template writes it: a missing one reads `undefined`. */
  function ShownSentiment(body: Analysis): string {
    body.sentiment.GetOr("undefined")
  }

  /** How a dispatched request ends: with a response body, or with any failure the
      `catch` block receives (no connection, an error status, a bad body). */
  datatype Settlement = Resolved(body: Analysis) | Rejected

  /** The page's state (`messages`, `input`, `isLoading`) together with two things
      the model records to state properties: how many requests are in flight and
      the texts sent so far, in order. */
  datatype Snapshot = Snapshot(messages: seq<Message>, input: string, isLoading: bool,
                               inFlight: nat, sent: seq<string>)

  /** The state when the page opens. */
  function Initial(): Snapshot {
    Snapshot([Message(Assistant, Greeting)], "", false, 0, [])
  }

  /** `onChange` of the input box: the draft becomes the box's text. */
  function EditStep(st: Snapshot, text: string): Snapshot {
    st.(input := text)
  }

  /** `handleSend` up to its request: a blank draft does nothing; otherwise the raw
      draft is appended as a user message and dispatched, the draft is cleared and
      the flag is set. */
  function SendStep(st: Snapshot): Snapshot {
    if IsBlank(st.input) then st
    else st.(messages := st.messages + [Message(User, st.input)], input := "", isLoading := true,
             inFlight := st.inFlight + 1, sent := st.sent + [st.input])
  }

  /** `onKeyPress` of the input box: Enter calls `handleSend` whatever the flag. */
  function KeyStep(st: Snapshot, key: string): Snapshot {
    if key == "Enter" then SendStep(st) else st
  }

  /** A click on the send button, which is disabled while the flag is set. */
  function ClickStep(st: Snapshot): Snapshot {
    if st.isLoading then st else SendStep(st)
  }

  /** The assistant message a settlement appends. */
  function Reply(outcome: Settlement): Message {
    match outcome
    case Resolved(body) => Message(Assistant, FormatResult(ShownSentiment(body), body.confidence))
    case Rejected => Message(Assistant, FailureNotice)
  }

  /** The rest of `handleSend` once one of the requests in flight settles: the reply
      is appended and the `finally` block clears the flag. */
  function SettleStep(st: Snapshot, outcome: Settlement): Snapshot
    requires st.inFlight > 0
  {
    st.(messages := st.messages + [Reply(outcome)], isLoading := false, inFlight := st.inFlight - 1)
  }

  /** The contents of the user messages of a log, in order. */
  function UserTexts(log: seq<Message>): seq<string> {
    if log == [] then []
    else UserTexts(log[..|log| - 1]) + (if log[|log| - 1].role == User then [log[|log| - 1].content] else [])
  }

  /** The number of assistant messages in a log. */
  function Replies(log: seq<Message>): nat {
    if log == [] then 0
    else Replies(log[..|log| - 1]) + (if log[|log| - 1].role == Assistant then 1 else 0)
  }

  lemma AppendMessage(log: seq<Message>, m: Message)
    ensures UserTexts(log + [m]) == UserTexts(log) + (if m.role == User then [m.content] else [])
    ensures Replies(log + [m]) == Replies(log) + (if m.role == Assistant then 1 else 0)
  {
    assert (log + [m])[..|log|] == log;
  }

  /** What holds of every state the page reaches: the greeting comes first; the user
      messages are exactly the texts sent, in order; and every request that has
      settled has exactly one reply, so that once nothing is in flight there is one
      reply per request besides the greeting. The flag is never set with nothing in
      flight. */
  ghost predicate Consistent(st: Snapshot) {
    && |st.messages| >= 1 && st.messages[0] == Message(Assistant, Greeting)
    && UserTexts(st.messages) == st.sent
    && st.inFlight <= |st.sent|
    && Replies(st.messages) == 1 + |st.sent| - st.inFlight
    && (st.isLoading ==> st.inFlight > 0)
  }

  lemma InitialConsistent()
    ensures Consistent(Initial())
  {
    assert Initial().messages == [] + [Message(Assistant, Greeting)];
    AppendMessage([], Message(Assistant, Greeting));
  }

  /** A blank draft (empty, or white space only) leaves the whole state as it was and
      sends nothing. */
  lemma BlankDraftIsIgnored(st: Snapshot)
    requires forall i :: 0 <= i < |st.input| ==> IsWhiteSpace(st.input[i])
    ensures SendStep(st) == st && KeyStep(st, "Enter") == st && ClickStep(st) == st
  {
  }

  /** A draft with any other character in it is appended, untrimmed, after the
      unchanged log as a user message; the very same text is the one dispatched; the
      draft is cleared and the flag set. The invariant is kept. */
  lemma SendRecordsDraft(st: Snapshot)
    requires Consistent(st)
    requires exists i :: 0 <= i < |st.input| && !IsWhiteSpace(st.input[i])
    ensures var r := SendStep(st);
      && |r.messages| == |st.messages| + 1 && r.messages[..|st.messages|] == st.messages
      && r.messages[|st.messages|] == Message(User, st.input)
      && r.sent == st.sent + [st.input] && r.inFlight == st.inFlight + 1
      && r.input == "" && r.isLoading
      && Consistent(r)
  {
    var r := SendStep(st);
    AppendMessage(st.messages, Message(User, st.input));
    assert r.messages[..|st.messages|] == st.messages;
  }

  lemma SendKeepsConsistent(st: Snapshot)
    requires Consistent(st)
    ensures Consistent(SendStep(st))
  {
    if !IsBlank(st.input) {
      SendRecordsDraft(st);
    }
  }

  /** Every settlement, successful or not, appends exactly one assistant message after
      the unchanged log (the formatted result, or the failure notice) and clears the
      flag, even if another request is still in flight. The invariant is kept. */
  lemma SettleAppendsOneReply(st: Snapshot, outcome: Settlement)
    requires Consistent(st) && st.inFlight > 0
    ensures var r := SettleStep(st, outcome);
      && |r.messages| == |st.messages| + 1 && r.messages[..|st.messages|] == st.messages
      && r.messages[|st.messages|].role == Assistant
      && r.messages[|st.messages|].content
         == (if outcome.Resolved? then FormatResult(ShownSentiment(outcome.body), outcome.body.confidence) else FailureNotice)
      && !r.isLoading && r.input == st.input && r.sent == st.sent
      && Consistent(r)
  {
    var r := SettleStep(st, outcome);
    AppendMessage(st.messages, Reply(outcome));
    assert r.messages[..|st.messages|] == st.messages;
  }

  /** Something that happens on the page. */
  datatype Event = Typed(text: string) | KeyDown(key: string) | Clicked | Settled(outcome: Settlement)

  /** The effect of one event. A settlement with nothing in flight cannot happen and
      changes nothing. */
  function Step(st: Snapshot, e: Event): Snapshot {
    match e
    case Typed(text) => EditStep(st, text)
    case KeyDown(key) => KeyStep(st, key)
    case Clicked => ClickStep(st)
    case Settled(outcome) => if st.inFlight > 0 then SettleStep(st, outcome) else st
  }

  /** The state after a sequence of events. */
  function Run(st: Snapshot, events: seq<Event>): Snapshot
    decreases |events|
  {
    if events == [] then st else Run(Step(st, events[0]), events[1..])
  }

  lemma StepKeepsConsistent(st: Snapshot, e: Event)
    requires Consistent(st)
    ensures Consistent(Step(st, e))
    ensures st.messages <= Step(st, e).messages
  {
    match e
    case Typed(text) =>
    case KeyDown(key) =>
      SendKeepsConsistent(st);
      if key == "Enter" && !IsBlank(st.input) { SendRecordsDraft(st); }
    case Clicked =>
      SendKeepsConsistent(st);
      if !st.isLoading && !IsBlank(st.input) { SendRecordsDraft(st); }
    case Settled(outcome) =>
      if st.inFlight > 0 { SettleAppendsOneReply(st, outcome); }
  }

  /** Whatever happens, the invariant holds and the log only grows: the earlier log is
      a prefix of the later one, so the greeting stays first and no message is ever
      changed or removed. */
  lemma {:induction false} RunKeepsConsistent(st: Snapshot, events: seq<Event>)
    requires Consistent(st)
    ensures Consistent(Run(st, events))
    ensures st.messages <= Run(st, events).messages
    decreases |events|
  {
    if events != [] {
      StepKeepsConsistent(st, events[0]);
      RunKeepsConsistent(Step(st, events[0]), events[1..]);
    }
  }

  /** Every state the page reaches satisfies the invariant. */
  lemma Reachable(events: seq<Event>)
    ensures Consistent(Run(Initial(), events))
    ensures Run(Initial(), events).messages[0] == Message(Assistant, Greeting)
  {
    InitialConsistent();
    RunKeepsConsistent(Initial(), events);
  }

  /** At most one request in flight, and the flag says whether there is one. */
  ghost predicate SingleFlight(st: Snapshot) {
    st.inFlight <= 1 && (st.isLoading <==> st.inFlight == 1)
  }

  /** As long as the page is driven by the button alone (no Enter key), at most one
      request is ever in flight and the flag tracks it exactly. */
  lemma {:induction false} ButtonOnlyIsSingleFlight(st: Snapshot, events: seq<Event>)
    requires SingleFlight(st)
    requires forall i :: 0 <= i < |events| ==> events[i] != KeyDown("Enter")
    ensures SingleFlight(Run(st, events))
    decreases |events|
  {
    if events != [] {
      var next := Step(st, events[0]);
      assert SingleFlight(next);
      ButtonOnlyIsSingleFlight(next, events[1..]);
    }
  }

  /** `handleSend` itself does not look at the flag: from a state with nothing in
      flight, typing and pressing Enter twice dispatches two requests, and when the
      first settles the flag is cleared although the second is still in flight. */
  lemma EnterOverlapsRequests(st: Snapshot, first: string, second: string, outcome: Settlement)
    requires st.inFlight == 0 && !st.isLoading
    requires !IsBlank(first) && !IsBlank(second)
    ensures KeyStep(EditStep(KeyStep(EditStep(st, first), "Enter"), second), "Enter").inFlight == 2
    ensures KeyStep(EditStep(KeyStep(EditStep(st, first), "Enter"), second), "Enter").isLoading
    ensures KeyStep(EditStep(KeyStep(EditStep(st, first), "Enter"), second), "Enter").sent == st.sent + [first] + [second]
    ensures SettleStep(KeyStep(EditStep(KeyStep(EditStep(st, first), "Enter"), second), "Enter"), outcome).inFlight == 1
    ensures !SettleStep(KeyStep(EditStep(KeyStep(EditStep(st, first), "Enter"), second), "Enter"), outcome).isLoading
    ensures !SingleFlight(SettleStep(KeyStep(EditStep(KeyStep(EditStep(st, first), "Enter"), second), "Enter"), outcome))
  {
  }

  /** No sentence of the greeting, and not the failure notice, holds `*`. Each
      literal is checked on its own: together they make the solver's work much larger. */
  lemma WelcomeIsStarless() ensures '*' !in Welcome {}
  lemma PurposeIsStarless() ensures '*' !in Purpose {}
  lemma AdviceIsStarless() ensures '*' !in Advice {}
  lemma FailureNoticeIsStarless() ensures '*' !in FailureNotice {}

  /** Neither the greeting nor the failure notice holds `**`: both are drawn verbatim. */
  lemma FixedMessagesAreVerbatim(content: string)
    requires content == Greeting || content == FailureNotice
    ensures RenderContent(content) == Verbatim(content)
  {
    WelcomeIsStarless();
    PurposeIsStarless();
    AdviceIsStarless();
    FailureNoticeIsStarless();
    assert '*' !in content;
    NoFirstNoPair(content, '*', '*');
  }

  /** The page as an object whose fields `handleSend` updates step by step. The number
      of requests in flight and the texts sent are ghost: the page keeps neither. */
  class ChatPage {
    var messages: seq<Message>
    var input: string
    var isLoading: bool
    ghost var inFlight: nat
    ghost var sent: seq<string>

    ghost function State(): Snapshot
      reads this
    {
      Snapshot(messages, input, isLoading, inFlight, sent)
    }

    ghost predicate Valid()
      reads this
    {
      Consistent(State())
    }

    constructor ()
      ensures Valid() && State() == Initial()
    {
      messages := [Message(Assistant, Greeting)];
      input := "";
      isLoading := false;
      inFlight := 0;
      sent := [];
      InitialConsistent();
    }

    /** `setInput(e.target.value)`. */
    method Type(text: string)
      requires Valid()
      modifies this
      ensures Valid() && State() == EditStep(old(State()), text)
    {
      input := text;
    }

    /** `handleSend` up to its request; returns the text dispatched, if any. */
    method HandleSend() returns (request: Option<string>)
      requires Valid()
      modifies this
      ensures Valid() && State() == SendStep(old(State()))
      ensures request == if IsBlank(old(input)) then None else Some(old(input))
      ensures request.Some? ==> messages[|messages| - 1] == Message(User, request.value)
    {
      ghost var before := State();
      SendKeepsConsistent(before);
      if IsBlank(input) {
        return None;
      }
      var draft := input;
      messages := messages + [Message(User, draft)];
      input := "";
      isLoading := true;
      inFlight := inFlight + 1;
      sent := sent + [draft];
      request := Some(draft);
    }

    /** `onKeyPress`: Enter sends, with no regard for the flag. */
    method PressKey(key: string) returns (request: Option<string>)
      requires Valid()
      modifies this
      ensures Valid() && State() == KeyStep(old(State()), key)
      ensures request == if key == "Enter" && !IsBlank(old(input)) then Some(old(input)) else None
    {
      request := None;
      if key == "Enter" {
        request := HandleSend();
      }
    }

    /** A click on the send button, which does nothing while the flag is set. */
    method ClickSend() returns (request: Option<string>)
      requires Valid()
      modifies this
      ensures Valid() && State() == ClickStep(old(State()))
      ensures request == if !old(isLoading) && !IsBlank(old(input)) then Some(old(input)) else None
    {
      request := None;
      if !isLoading {
        request := HandleSend();
      }
    }

    /** One request in flight settles: its reply is appended and the flag cleared. */
    method Settle(outcome: Settlement)
      requires Valid() && inFlight > 0
      modifies this
      ensures Valid() && State() == SettleStep(old(State()), outcome)
    {
      ghost var before := State();
      SettleAppendsOneReply(before, outcome);
      messages := messages + [Reply(outcome)];
      isLoading := false;
      inFlight := inFlight - 1;
    }
  }

  /** A body without a sentiment is not a failure: the reply shows `undefined`, in red. */
  lemma MissingSentimentShowsUndefined(confidence: Option<int>)
    ensures Reply(Resolved(Analysis(None, confidence))).content == FormatResult("undefined", confidence)
    ensures RenderContent(FormatResult("undefined", confidence))
      == Emphasised(Lead, "undefined", Trail(PercentText(confidence)), Red)
  {
    assert '*' !in "undefined" && '긍' !in "undefined";
    NoFirstNoPair("undefined", '*', '*');
    NoFirstNoPair("undefined", '긍', '정');
    RenderResult("undefined", confidence);
  }

  /** A typical session: from the opening state (the greeting alone),
      one review is sent with the button, then the request settles. Either way there
      are three messages and the flag is clear; a failure shows the notice. */
  lemma Scenarios(st: Snapshot, review: string, outcome: Settlement)
    requires |st.messages| == 1 && st.inFlight == 0 && !st.isLoading
    requires !IsBlank(review)
    ensures |ClickStep(EditStep(st, review)).messages| == 2
    ensures ClickStep(EditStep(st, review)).messages[1] == Message(User, review)
    ensures ClickStep(EditStep(st, review)).isLoading && ClickStep(EditStep(st, review)).input == ""
    ensures |SettleStep(ClickStep(EditStep(st, review)), outcome).messages| == 3
    ensures !SettleStep(ClickStep(EditStep(st, review)), outcome).isLoading
    ensures outcome.Rejected? ==> SettleStep(ClickStep(EditStep(st, review)), outcome).messages[2].content == FailureNotice
  {
    assert ClickStep(EditStep(st, review)) == SendStep(EditStep(st, review));
  }

  /** The same scenario when the endpoint answers `긍정` at 0.87: the reply splits into
      the lead-in, `긍정` and a trailing text reading `87.00`. */
  lemma SuccessfulScenario(st: Snapshot, review: string, sentiment: string, confidence: Option<int>)
    requires |st.messages| == 1 && st.inFlight == 0 && !st.isLoading
    requires !IsBlank(review)
    requires sentiment == "긍정" && confidence == Some(8700)
    ensures SplitMarker(SettleStep(ClickStep(EditStep(st, review)), Resolved(Analysis(Some(sentiment), confidence))).messages[2].content)
      == [Lead, "긍정", Trail("87.00")]
  {
    var sent := ClickStep(EditStep(st, review));
    assert sent == SendStep(EditStep(st, review));
    var content := FormatResult(sentiment, confidence);
    assert SettleStep(sent, Resolved(Analysis(Some(sentiment), confidence))).messages[2].content == content;
    EightySevenExample(sentiment, confidence);
  }
}
