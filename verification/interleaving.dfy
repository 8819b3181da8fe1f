/**
 * One section instance over time.  Clicks, typed input and network answers
 * arrive in any order; a click on a disabled button does nothing, as the
 * browser does not fire `onClick` for it.  The invariant `Consistent` ties
 * the busy flags to the actions actually in flight and counts toasts
 * against requests sent.
 */
module Interleaving {
  import opened Optional
  import opened ApiClient
  import opened Sections
  import opened FormFields
  import opened Dispatcher

  /** The props a section instance is rendered with; `parse` stands for `Number`. */
  datatype Section = Section(title: string, empresa: Option<string>, parse: string -> int)

  datatype Event =
    | Click(action: Action)                       // a button is pressed
    | Type(text: string)                          // the section's input changes
    | Answer(caption: string, answer: FetchOutcome)  // the network answers the call of that button

  /**
   * The instance's state, the actions in flight by caption, the toasts
   * shown so far and the requests sent so far.
   */
  datatype Session = Session(state: State, inFlight: map<string, Action>, toasts: seq<Notification>, sent: seq<Request>)

  const Fresh: Session := Session(InitialState, map[], [], [])

  /**
   * One event.  The logs of requests and toasts only grow, by at most one
   * entry each; typing touches neither the flags nor the calls in flight.
   */
  function Step(sec: Section, s: Session, e: Event): (r: Session)
    ensures s.sent <= r.sent && |r.sent| <= |s.sent| + 1
    ensures s.toasts <= r.toasts && |r.toasts| <= |s.toasts| + 1
    ensures e.Type? ==> r.inFlight == s.inFlight && r.state.loading == s.state.loading
    ensures e.Click? ==> r.toasts == s.toasts
    ensures e.Answer? ==> r.sent == s.sent
  {
    match e
    case Click(a) =>
      if Disabled(s.state, sec.title, a.caption) then s
      else
        var (st, req) := Start(s.state, sec.title, sec.empresa, a);
        Session(st, s.inFlight[a.caption := a], s.toasts, s.sent + [req])
    case Type(text) =>
      s.(state := s.state.(fields := Edit(s.state.fields, Classify(sec.title), text, sec.parse)))
    case Answer(c, answer) =>
      if c !in s.inFlight then s
      else
        var (st, note) := Settle(s.state, sec.title, s.inFlight[c], Normalize(answer));
        var shown := if note.Some? then [note.value] else [];
        Session(st, s.inFlight - {c}, s.toasts + shown, s.sent)
  }

  function Run(sec: Section, s: Session, events: seq<Event>): Session
    decreases |events|
  {
    if |events| == 0 then s else Run(sec, Step(sec, s, events[0]), events[1..])
  }

  /**
   * A button's flag is up exactly while a call of that button is in flight,
   * at most one call per button is in flight, and every request sent has
   * either produced exactly one toast or is still in flight.
   */
  ghost predicate Consistent(title: string, s: Session) {
    && (forall c :: IsLoading(s.state.loading, LoadingKey(title, c)) <==> c in s.inFlight)
    && (forall c :: c in s.inFlight ==> s.inFlight[c].caption == c)
    && |s.sent| == |s.toasts| + |s.inFlight|
  }

  lemma FreshConsistent(title: string)
    ensures Consistent(title, Fresh)
  {
  }

  lemma {:induction false} StepConsistent(sec: Section, s: Session, e: Event)
    requires Consistent(sec.title, s)
    ensures Consistent(sec.title, Step(sec, s, e))
  {
    var s' := Step(sec, s, e);
    match e
    case Click(a) =>
      if !Disabled(s.state, sec.title, a.caption) {
        forall c
          ensures IsLoading(s'.state.loading, LoadingKey(sec.title, c)) <==> c in s'.inFlight
        {
          LoadingKeyInjective(sec.title, c, a.caption);
        }
      }
    case Type(_) =>
    case Answer(c0, answer) =>
      if c0 in s.inFlight {
        forall c
          ensures IsLoading(s'.state.loading, LoadingKey(sec.title, c)) <==> c in s'.inFlight
        {
          LoadingKeyInjective(sec.title, c, c0);
        }
        assert (s.inFlight - {c0}).Keys == s.inFlight.Keys - {c0};
      }
  }

  lemma {:induction false} RunConsistent(sec: Section, s: Session, events: seq<Event>)
    requires Consistent(sec.title, s)
    ensures Consistent(sec.title, Run(sec, s, events))
    decreases |events|
  {
    if |events| > 0 {
      StepConsistent(sec, s, events[0]);
      RunConsistent(sec, Step(sec, s, events[0]), events[1..]);
    }
  }

  /**
   * From a fresh instance, after any sequence of events: flags match the
   * calls in flight, and once nothing is in flight every request sent has
   * produced exactly one toast.
   */
  lemma OneToastPerRequest(sec: Section, events: seq<Event>)
    ensures Consistent(sec.title, Run(sec, Fresh, events))
    ensures Run(sec, Fresh, events).inFlight == map[] ==>
      |Run(sec, Fresh, events).toasts| == |Run(sec, Fresh, events).sent|
  {
    FreshConsistent(sec.title);
    RunConsistent(sec, Fresh, events);
  }

  /** A second click on a button whose call is in flight is ignored: no duplicate submission. */
  lemma NoDuplicateDispatch(sec: Section, s: Session, a: Action)
    requires Consistent(sec.title, s)
    requires a.caption in s.inFlight
    ensures Step(sec, s, Click(a)) == s
  {
  }

  /** Every answer to a call in flight shows exactly one toast and ends that call. */
  lemma AnswerShowsOneToast(sec: Section, s: Session, c: string, answer: FetchOutcome)
    requires Consistent(sec.title, s)
    requires c in s.inFlight
    ensures |Step(sec, s, Answer(c, answer)).toasts| == |s.toasts| + 1
    ensures c !in Step(sec, s, Answer(c, answer)).inFlight
    ensures !IsLoading(Step(sec, s, Answer(c, answer)).state.loading, LoadingKey(sec.title, c))
  {
  }

  /** No event of `events` answers the button captioned `c`. */
  predicate NoAnswerFor(events: seq<Event>, c: string) {
    forall i :: 0 <= i < |events| ==> !(events[i].Answer? && events[i].caption == c)
  }

  /** No event of `events` types into the section's input. */
  predicate NoTyping(events: seq<Event>) {
    forall i :: 0 <= i < |events| ==> !events[i].Type?
  }

  /**
   * A button whose call is in flight stays in flight, and its button stays
   * disabled, through any events that do not answer that call.
   */
  lemma {:induction false} BusyUntilAnswered(sec: Section, s: Session, events: seq<Event>, c: string)
    requires Consistent(sec.title, s)
    requires c in s.inFlight
    requires NoAnswerFor(events, c)
    ensures c in Run(sec, s, events).inFlight
    ensures Disabled(Run(sec, s, events).state, sec.title, c)
    decreases |events|
  {
    if |events| == 0 {
      assert IsLoading(s.state.loading, LoadingKey(sec.title, c));
    } else {
      var s1 := Step(sec, s, events[0]);
      StepConsistent(sec, s, events[0]);
      assert c in s1.inFlight;
      assert NoAnswerFor(events[1..], c) by {
        forall i | 0 <= i < |events[1..]|
          ensures !(events[1..][i].Answer? && events[1..][i].caption == c)
        {
          assert events[1..][i] == events[i + 1];
        }
      }
      BusyUntilAnswered(sec, s1, events[1..], c);
    }
  }

  /** A button that a click started stays disabled until its call is answered. */
  lemma ClickedStaysBusy(sec: Section, s: Session, a: Action, events: seq<Event>)
    requires Consistent(sec.title, s)
    requires !Disabled(s.state, sec.title, a.caption)
    requires NoAnswerFor(events, a.caption)
    ensures Disabled(Run(sec, Step(sec, s, Click(a)), events).state, sec.title, a.caption)
  {
    StepConsistent(sec, s, Click(a));
    BusyUntilAnswered(sec, Step(sec, s, Click(a)), events, a.caption);
  }

  /**
   * Once the input of an input section is unset, it stays unset and every
   * button of the section stays disabled until something is typed.
   */
  lemma {:induction false} MissingUntilTyped(sec: Section, s: Session, events: seq<Event>, c: string)
    requires HasInput(Classify(sec.title))
    requires MissingInput(s.state.fields, Classify(sec.title))
    requires NoTyping(events)
    ensures MissingInput(Run(sec, s, events).state.fields, Classify(sec.title))
    ensures Disabled(Run(sec, s, events).state, sec.title, c)
    decreases |events|
  {
    if |events| > 0 {
      var s1 := Step(sec, s, events[0]);
      assert !events[0].Type?;
      assert MissingInput(s1.state.fields, Classify(sec.title));
      assert NoTyping(events[1..]) by {
        forall i | 0 <= i < |events[1..]|
          ensures !events[1..][i].Type?
        {
          assert events[1..][i] == events[i + 1];
        }
      }
      MissingUntilTyped(sec, s1, events[1..], c);
    }
  }

  /**
   * In an input section, a successful answer disables every button of the
   * section, and they stay disabled until the input is typed again.
   */
  lemma SuccessDisablesUntilTyped(sec: Section, s: Session, c: string, r: Response, events: seq<Event>, c2: string)
    requires HasInput(Classify(sec.title))
    requires c in s.inFlight
    requires r.ok
    requires NoTyping(events)
    ensures Disabled(Run(sec, Step(sec, s, Answer(c, Responded(r))), events).state, sec.title, c2)
  {
    var s1 := Step(sec, s, Answer(c, Responded(r)));
    assert Normalize(Responded(r)) == Returned(true);
    assert MissingInput(s1.state.fields, Classify(sec.title));
    MissingUntilTyped(sec, s1, events, c2);
  }
}
