/**
  The conversation controller of the chat page (`Home` in frontend/src/app/page.tsx),
  as the code is written: four pieces of state (`messages`, `input`, `isLoading`,
  `error`) and the commands that change them.

  The asynchronous `handleSubmit` awaits twice, first `fetch` and then
  `response.json()`. It is split into `BeginSubmit`, everything before the request is
  sent, and `Complete`, everything after the request settles (`Settle` for the
  try/catch blocks, `Finish` for the finally block). Treating the two awaits as one
  step is sound because no state is written between them: the status check in
  between only decides whether the catch block runs. The request's result, including
  whether `data.response` can be read from its body, is an input, `Outcome`; `new Date()` is an input,
  `Instant`.
*/
module Chat {
  import opened Common
  import opened Text

  /** A moment as `new Date()` reports it; the controller never inspects it. */
  datatype Instant = Instant(millis: int)

  /**
    One transcript entry. `text` is `None` when it is JavaScript's `undefined`: the
    page copies `data.response` without checking that the field exists.
  */
  datatype Message = Message(text: Option<string>, isUser: bool, timestamp: Instant)

  datatype ChatState = ChatState(
    messages: seq<Message>,
    input: string,
    isLoading: bool,
    error: Option<string>)

  /** The state at mount: every `useState` initial value. */
  const Initial: ChatState := ChatState([], "", false, None)

  /** The header error set by a failed request. */
  const ConnectionError: string :=
    "Failed to connect to the AI assistant. Please ensure the backend is running."

  /** The synthesized bot reply appended by a failed request. */
  const Apology: string :=
    "I'm sorry, I'm having trouble connecting right now. Please make sure the backend server is running and try again."

  /**
    The body of an HTTP response as the page reads it. `Json(r)`: `response.json()`
    resolves to a value whose `.response` can be read; `r` is that string field, or
    `None` when it is missing (JavaScript's `undefined`). `Unreadable`: `response.json()`
    throws (the body is not JSON), or it resolves to `null`, so that reading `.response`
    throws a `TypeError`.
  */
  datatype Body = Json(response: Option<string>) | Unreadable

  /** How the `fetch` of `/chat` settles: a response with a status, or a thrown transport error. */
  datatype Outcome = Response(status: int, body: Body) | NetworkError

  /** `Response.ok`: the status is in the range 200-299. */
  predicate IsOkStatus(status: int) {
    200 <= status <= 299
  }

  /**
    The try block runs to its end: the fetch did not throw, the status is ok (else
    the page throws its own `HTTP error!`), `response.json()` did not throw, and
    reading `data.response` did not throw.
  */
  predicate Succeeds(o: Outcome) {
    o.Response? && IsOkStatus(o.status) && o.body.Json?
  }

  /** Result of the synchronous half of `handleSubmit`: the new state and the query sent, if any. */
  datatype Begun = Begun(next: ChatState, query: Option<string>)

  /**
    `handleSubmit` up to the first `await`. A whitespace-only input is ignored; otherwise the
    untrimmed input becomes a user message, the input box is emptied, the loading flag
    is raised, the error is cleared, and the same untrimmed text is the query.
    The page itself does not test `isLoading` here; it relies on the textarea and the
    submit button being disabled while loading, so the precondition states that guard.
  */
  function BeginSubmit(s: ChatState, now: Instant): (r: Begun)
    requires !s.isLoading
    ensures r.query.None? <==> IsBlank(JavaScript, s.input)
    ensures r.query.None? ==> r.next == s
    ensures r.query.Some? ==>
      && r.query.value == s.input
      && |r.next.messages| == |s.messages| + 1
      && r.next.messages[..|s.messages|] == s.messages
      && r.next.messages[|s.messages|] == Message(Some(s.input), true, now)
      && r.next.input == ""
      && r.next.isLoading
      && r.next.error == None
  {
    TrimEmptyIffBlank(JavaScript, s.input);
    if Trim(JavaScript, s.input) == [] then
      Begun(s, None)
    else
      var user := Message(Some(s.input), true, now);
      Begun(s.(messages := s.messages + [user], input := "", isLoading := true, error := None),
            Some(s.input))
  }

  /** The bot message that the try block or the catch block appends. */
  function Reply(o: Outcome, now: Instant): (m: Message)
    ensures !m.isUser && m.timestamp == now
    ensures Succeeds(o) ==> m.text == o.body.response
    ensures !Succeeds(o) ==> m.text == Some(Apology)
  {
    if Succeeds(o) then Message(o.body.response, false, now) else Message(Some(Apology), false, now)
  }

  /**
    The try and catch blocks after the awaits: exactly one bot message is appended to
    whatever transcript is current (the page uses the functional `prev => [...prev, m]`
    form), and a failure of any kind sets the header error.
  */
  function Settle(s: ChatState, o: Outcome, now: Instant): (r: ChatState)
    ensures |r.messages| == |s.messages| + 1 && r.messages[..|s.messages|] == s.messages
    ensures r.messages[|s.messages|] == Reply(o, now)
    ensures r.error == (if Succeeds(o) then s.error else Some(ConnectionError))
    ensures r.input == s.input && r.isLoading == s.isLoading
  {
    var withReply := s.(messages := s.messages + [Reply(o, now)]);
    if Succeeds(o) then withReply else withReply.(error := Some(ConnectionError))
  }

  /** The finally block: the loading flag drops whatever happened. */
  function Finish(s: ChatState): (r: ChatState)
    ensures !r.isLoading
    ensures r.messages == s.messages && r.input == s.input && r.error == s.error
  {
    s.(isLoading := false)
  }

  /** `handleSubmit` after its awaits: settle the turn, then leave the loading state. */
  function Complete(s: ChatState, o: Outcome, now: Instant): (r: ChatState)
    ensures |r.messages| == |s.messages| + 1 && r.messages[..|s.messages|] == s.messages
    ensures !r.messages[|s.messages|].isUser
    ensures Succeeds(o) ==> r.messages[|s.messages|].text == o.body.response && r.error == s.error
    ensures !Succeeds(o) ==> r.messages[|s.messages|].text == Some(Apology) && r.error == Some(ConnectionError)
    ensures !r.isLoading && r.input == s.input
  {
    Finish(Settle(s, o, now))
  }

  /** `clearChat`: empties the transcript and the error; the input box and the loading flag are untouched. */
  function ClearChat(s: ChatState): (r: ChatState)
    ensures r.messages == [] && r.error == None
    ensures r.input == s.input && r.isLoading == s.isLoading
  {
    s.(messages := [], error := None)
  }

  /** `setInput`: the textarea's `onChange`, and the clear-input button with the empty string. */
  function SetInput(s: ChatState, text: string): (r: ChatState)
    ensures r.input == text
    ensures r.messages == s.messages && r.isLoading == s.isLoading && r.error == s.error
  {
    s.(input := text)
  }

  /** `handleSuggestionClick`: the suggestion only fills the input box; nothing is sent. */
  function PickSuggestion(s: ChatState, suggestion: string): (r: ChatState)
    ensures r.input == suggestion
    ensures r.messages == s.messages && r.isLoading == s.isLoading && r.error == s.error
  {
    SetInput(s, suggestion)
  }

  /**
    A picked suggestion is what the next submit sends, verbatim and as the only new user
    message; picking a blank suggestion leaves nothing to send.
  */
  lemma PickThenSubmit(s: ChatState, suggestion: string, now: Instant)
    requires !s.isLoading
    ensures var b := BeginSubmit(PickSuggestion(s, suggestion), now);
      && (b.query == Some(suggestion) <==> !IsBlank(JavaScript, suggestion))
      && (b.query.Some? ==> b.next.messages == s.messages + [Message(Some(suggestion), true, now)])
  {
  }

  /** The submit button's enabling rule: `disabled={isLoading || !input.trim()}`. */
  predicate SubmitEnabled(s: ChatState) {
    !(s.isLoading || Trim(JavaScript, s.input) == [])
  }

  /**
    The submit button is enabled exactly when pressing it would send a request: the
    page is not loading and `BeginSubmit` accepts the input.
  */
  lemma SubmitEnabledIffSends(s: ChatState, now: Instant)
    ensures SubmitEnabled(s) <==> !s.isLoading && BeginSubmit(s, now).query.Some?
  {
    TrimEmptyIffBlank(JavaScript, s.input);
  }

  /**
    One whole accepted turn: the transcript grows by exactly the user message and then
    exactly one bot reply, every earlier message is kept, the query is the untrimmed
    input, and the turn ends with the loading flag down and the input box empty.
  */
  lemma AcceptedTurn(s: ChatState, sent: Instant, o: Outcome, answered: Instant)
    requires !s.isLoading && !IsBlank(JavaScript, s.input)
    ensures var b := BeginSubmit(s, sent);
      var t := Complete(b.next, o, answered);
      && b.query == Some(s.input)
      && t.messages == s.messages + [Message(Some(s.input), true, sent), Reply(o, answered)]
      && !t.isLoading && t.input == ""
      && (t.error == None <==> Succeeds(o))
  {
    var b := BeginSubmit(s, sent);
    var t := Complete(b.next, o, answered);
    assert t.messages == b.next.messages + [Reply(o, answered)];
  }

  /**
    The code as written lets a reply outlive `clearChat`: a turn cleared while its
    request is in flight still appends its reply, so the cleared transcript starts
    with a bot message that answers no visible question.
  */
  lemma StaleReplyAfterClear(s: ChatState, sent: Instant, o: Outcome, answered: Instant)
    requires !s.isLoading && !IsBlank(JavaScript, s.input)
    ensures var t := Complete(ClearChat(BeginSubmit(s, sent).next), o, answered);
      t.messages == [Reply(o, answered)] && !t.messages[0].isUser
  {
  }

  /** `Math.min(scrollHeight, 120)`: the height the resize effect writes. */
  const MaxInputHeight: nat := 120

  /** The textarea's CSS `minHeight`. */
  const MinInputHeight: nat := 50

  /**
    The resize effect: the textarea is first set to `auto` so that `scrollHeight` is the
    content's own height, then set to that height capped at 120 pixels.
  */
  function AutoHeight(scrollHeight: nat): (h: nat)
    ensures h <= MaxInputHeight && h <= scrollHeight
    ensures h == scrollHeight || h == MaxInputHeight
  {
    if scrollHeight < MaxInputHeight then scrollHeight else MaxInputHeight
  }

  /** The height the browser renders: the written height, held within the CSS min and max. */
  function RenderedHeight(scrollHeight: nat): (h: nat)
  {
    var written := AutoHeight(scrollHeight);
    if written < MinInputHeight then MinInputHeight
    else if written > MaxInputHeight then MaxInputHeight
    else written
  }

  function Distance(a: int, b: int): nat {
    if a <= b then b - a else a - b
  }

  /**
    The rendered height is the admissible height (between 50 and 120 pixels) closest to
    the content's height: the content's own height when it fits, 50 when it is shorter,
    120 when it is taller.
  */
  lemma RenderedHeightIsNearestFit(scrollHeight: nat)
    ensures MinInputHeight <= RenderedHeight(scrollHeight) <= MaxInputHeight
    ensures forall c :: MinInputHeight <= c <= MaxInputHeight ==>
      Distance(RenderedHeight(scrollHeight), scrollHeight) <= Distance(c, scrollHeight)
  {
  }
}
