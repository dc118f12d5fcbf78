/**
  The chat page driven by user and network events, with the one addition the page
  lacks: an epoch counter that makes a reply arriving after "clear chat" harmless.

  Events follow what the page lets through. The textarea and the submit button are
  disabled while loading, so typing and submitting are dropped then; the
  clear-input button is never disabled; the suggestion list is shown only on an empty
  transcript and the clear-chat button only on a non-empty one.

  Every clear advances the epoch, and every request remembers the epoch it was sent
  in. A reply whose epoch is no longer current is discarded; it still ends the
  loading state, because the request it belongs to is over.
*/
module ChatSession {
  import opened Common
  import opened Text
  import opened Chat

  /**
    The page's state plus the epoch bookkeeping: `epoch` counts clears, and
    `inFlight` holds the epoch of the outstanding request, if there is one.
  */
  datatype Session = Session(chat: ChatState, epoch: nat, inFlight: Option<nat>)

  const Start: Session := Session(Initial, 0, None)

  datatype Event =
    | Type(text: string)                     // the textarea's onChange
    | ClearInput                             // the clear-input button
    | Pick(suggestion: string)               // a click on a suggested question
    | Submit(now: Instant)                   // the submit button, or Enter without Shift
    | Settled(outcome: Outcome, now: Instant) // the awaited request settles
    | ClearAll                               // the clear-chat button

  /** Sending a turn: the page's own `BeginSubmit`, tagged with the current epoch when a request goes out. */
  function Begin(s: Session, now: Instant): (r: Session)
    requires !s.chat.isLoading
    ensures r.chat == BeginSubmit(s.chat, now).next && r.epoch == s.epoch
    ensures r.inFlight == (if IsBlank(JavaScript, s.chat.input) then s.inFlight else Some(s.epoch))
  {
    var b := BeginSubmit(s.chat, now);
    if b.query.Some? then Session(b.next, s.epoch, Some(s.epoch)) else s.(chat := b.next)
  }

  /**
    A request settles. In the epoch it was sent in, the page's `Complete` applies
    unchanged. In a later epoch the transcript and the error are left alone and only the
    loading flag drops.
  */
  function Resolve(s: Session, o: Outcome, now: Instant): (r: Session)
    requires s.inFlight.Some?
    ensures s.inFlight == Some(s.epoch) ==> r.chat == Complete(s.chat, o, now)
    ensures s.inFlight != Some(s.epoch) ==>
      r.chat.messages == s.chat.messages && r.chat.error == s.chat.error && r.chat.input == s.chat.input
    ensures !r.chat.isLoading && r.inFlight == None && r.epoch == s.epoch
  {
    var chat := if s.inFlight == Some(s.epoch) then Complete(s.chat, o, now) else Finish(s.chat);
    Session(chat, s.epoch, None)
  }

  /** `clearChat`, which also starts a new epoch so that an outstanding reply becomes stale. */
  function Clear(s: Session): (r: Session)
    ensures r.chat == ClearChat(s.chat) && r.inFlight == s.inFlight
    ensures r.epoch > s.epoch
  {
    Session(ClearChat(s.chat), s.epoch + 1, s.inFlight)
  }

  /**
    One event, with the page's enabling rules deciding whether it reaches the controller.
    A submission sends a request exactly when the submit button is enabled; only the
    clear-chat button starts a new epoch; only the settling request ends the loading
    state; only submitting, settling and clearing change the transcript; and while
    loading the input box changes only through the clear-input button, or through a
    suggestion when a clear has emptied the transcript and brought the suggestions back.
  */
  function Step(s: Session, e: Event): (r: Session)
    ensures e.Submit? && s.inFlight.None? ==> (r.inFlight.Some? <==> SubmitEnabled(s.chat))
    ensures e.Submit? && SubmitEnabled(s.chat) ==> r.inFlight == Some(s.epoch)
    ensures r.epoch != s.epoch ==> e.ClearAll? && |s.chat.messages| > 0 && r.epoch == s.epoch + 1
    ensures s.chat.isLoading && !r.chat.isLoading ==> e.Settled?
    ensures r.chat.messages != s.chat.messages ==> e.Submit? || e.Settled? || e.ClearAll?
    ensures s.chat.isLoading && r.chat.input != s.chat.input ==>
      e.ClearInput? || (e.Pick? && |s.chat.messages| == 0)
  {
    match e
    case Type(text) => if s.chat.isLoading then s else s.(chat := SetInput(s.chat, text))
    case ClearInput => s.(chat := SetInput(s.chat, ""))
    case Pick(text) => if |s.chat.messages| > 0 then s else s.(chat := PickSuggestion(s.chat, text))
    case Submit(now) =>
      TrimEmptyIffBlank(JavaScript, s.chat.input);
      if s.chat.isLoading then s else Begin(s, now)
    case Settled(o, now) => if s.inFlight.None? then s else Resolve(s, o, now)
    case ClearAll => if |s.chat.messages| == 0 then s else Clear(s)
  }

  /** A sequence of events, applied in order. */
  function Run(s: Session, es: seq<Event>): Session
    decreases |es|
  {
    if |es| == 0 then s else Run(Step(s, es[0]), es[1..])
  }

  /** User and bot messages alternate, starting with a user message. */
  predicate Alternating(ms: seq<Message>) {
    forall i :: 0 <= i < |ms| ==> (ms[i].isUser <==> i % 2 == 0)
  }

  /** Every user message carries text that is not blank. */
  predicate UserTurnsNonBlank(ms: seq<Message>) {
    forall i :: 0 <= i < |ms| && ms[i].isUser ==> ms[i].text.Some? && !IsBlank(JavaScript, ms[i].text.value)
  }

  /**
    The invariant of the guarded controller: loading exactly while a request is
    outstanding; the transcript is a run of question/answer pairs; and it ends in an
    unanswered question exactly when the outstanding request belongs to the current epoch.
  */
  predicate Consistent(s: Session) {
    && (s.chat.isLoading <==> s.inFlight.Some?)
    && (s.inFlight.Some? ==> s.inFlight.value <= s.epoch)
    && Alternating(s.chat.messages)
    && UserTurnsNonBlank(s.chat.messages)
    && (|s.chat.messages| % 2 == 1 <==> s.inFlight == Some(s.epoch))
  }

  lemma StartConsistent()
    ensures Consistent(Start)
  {
  }

  lemma {:induction false} AppendKeepsAlternating(ms: seq<Message>, m: Message)
    requires Alternating(ms) && (m.isUser <==> |ms| % 2 == 0)
    ensures Alternating(ms + [m])
  {
    var ms' := ms + [m];
    forall i | 0 <= i < |ms'|
      ensures ms'[i].isUser <==> i % 2 == 0
    {
      if i < |ms| {
        assert ms'[i] == ms[i];
      }
    }
  }

  lemma {:induction false} AppendKeepsNonBlank(ms: seq<Message>, m: Message)
    requires UserTurnsNonBlank(ms)
    requires m.isUser ==> m.text.Some? && !IsBlank(JavaScript, m.text.value)
    ensures UserTurnsNonBlank(ms + [m])
  {
    var ms' := ms + [m];
    forall i | 0 <= i < |ms'| && ms'[i].isUser
      ensures ms'[i].text.Some? && !IsBlank(JavaScript, ms'[i].text.value)
    {
      if i < |ms| {
        assert ms'[i] == ms[i];
      }
    }
  }

  /** Every event keeps the invariant. */
  lemma {:induction false} StepKeepsConsistent(s: Session, e: Event)
    requires Consistent(s)
    ensures Consistent(Step(s, e))
  {
    match e
    case Submit(now) =>
      if !s.chat.isLoading && !IsBlank(JavaScript, s.chat.input) {
        var user := Message(Some(s.chat.input), true, now);
        assert BeginSubmit(s.chat, now).next.messages == s.chat.messages + [user];
        AppendKeepsAlternating(s.chat.messages, user);
        AppendKeepsNonBlank(s.chat.messages, user);
      }
    case Settled(o, now) =>
      if s.inFlight == Some(s.epoch) {
        var bot := Reply(o, now);
        assert Complete(s.chat, o, now).messages == s.chat.messages + [bot];
        AppendKeepsAlternating(s.chat.messages, bot);
        AppendKeepsNonBlank(s.chat.messages, bot);
      }
    case _ =>
  }

  /** Every run of events from a consistent session ends in a consistent session. */
  lemma {:induction false} RunKeepsConsistent(s: Session, es: seq<Event>)
    requires Consistent(s)
    ensures Consistent(Run(s, es))
    decreases |es|
  {
    if |es| > 0 {
      StepKeepsConsistent(s, es[0]);
      RunKeepsConsistent(Step(s, es[0]), es[1..]);
    }
  }

  /**
    Whatever the user and the network do, once nothing is outstanding every question
    in the transcript has exactly one answer right after it.
  */
  lemma {:induction false} IdleTranscriptIsAnswered(es: seq<Event>)
    ensures var s := Run(Start, es);
      !s.chat.isLoading ==> |s.chat.messages| % 2 == 0 && Alternating(s.chat.messages)
  {
    StartConsistent();
    RunKeepsConsistent(Start, es);
  }

  /** A reply from before the latest clear never touches the transcript or the error. */
  lemma StaleReplyDiscarded(s: Session, o: Outcome, now: Instant)
    requires s.inFlight.Some? && s.inFlight.value < s.epoch
    ensures var r := Step(s, Settled(o, now));
      r.chat.messages == s.chat.messages && r.chat.error == s.chat.error && !r.chat.isLoading
  {
  }

  /** While a turn is in flight a second submission is dropped: nothing is appended, nothing is sent. */
  lemma SecondSubmitDropped(s: Session, now: Instant)
    requires Consistent(s) && s.inFlight.Some?
    ensures Step(s, Submit(now)) == s
  {
  }

  /**
    Clear while a turn is in flight, then let the reply arrive: the transcript stays
    empty, unlike the page as written (`Chat.StaleReplyAfterClear`).
  */
  lemma ClearThenReplyStaysEmpty(s: Session, sent: Instant, o: Outcome, answered: Instant)
    requires Consistent(s) && !s.chat.isLoading && !IsBlank(JavaScript, s.chat.input)
    ensures Run(s, [Submit(sent), ClearAll, Settled(o, answered)]).chat.messages == []
  {
    var s1 := Step(s, Submit(sent));
    assert |s1.chat.messages| > 0;
    var s2 := Step(s1, ClearAll);
    var s3 := Step(s2, Settled(o, answered));
    assert Run(s2, [Settled(o, answered)]) == Run(s3, []);
    assert Run(s1, [ClearAll, Settled(o, answered)]) == Run(s2, [Settled(o, answered)]);
  }
}
