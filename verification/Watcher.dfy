/**
 The watcher: one main loop and the subscriber goroutines it starts, meeting on unbuffered
 channels. A label names one atomic step; a label that is not enabled does nothing, so every
 sequence of labels is an interleaving.
 */
module Watcher {
  import opened Lrps

  /** A `checkForEvents` goroutine. It holds the event or error it is blocked on sending. */
  datatype Subscriber =
    | Subscribing
    | Reading
    | SendingEvent(event: LrpEvent)
    | SendingError
    | Finished

  datatype MainLoop = Selecting | InSync | Stopped

  /** A call that the main loop makes on the handler; it makes no other while one lasts. */
  datatype Call = HandleEvent(event: LrpEvent) | SyncBegin | SyncEnd

  datatype Option<T> = None | Some(value: T)

  /** What the event source returns: an event, none, or an error, and of the errors only one is survived. */
  datatype NextResult = Event(event: Option<LrpEvent>) | UnrecognizedType(event: Option<LrpEvent>) | SourceError

  /** `source` is the shared cell; a source is known by the subscriber that opened it. */
  datatype State = State(
    subscribers: seq<Subscriber>,
    main: MainLoop,
    source: Option<nat>,
    openedSources: set<nat>,
    closedSources: set<nat>,
    fetched: seq<LrpEvent>,
    calls: seq<Call>)

  const START := State([Subscribing], Selecting, None, {}, {}, [], [])

  datatype Label =
    | SubscribeSucceeds(subscriber: nat)
    | SubscribeFails(subscriber: nat)
    | Next(subscriber: nat, result: NextResult)
    | ReceiveEvent(subscriber: nat)
    | ReceiveError(subscriber: nat)
    | StartSync
    | FinishSync
    | Signal

  predicate Is(s: State, i: nat, status: Subscriber) {
    i < |s.subscribers| && s.subscribers[i] == status
  }

  function CloseSource(s: State): State {
    if s.source.Some? then s.(closedSources := s.closedSources + {s.source.value}) else s
  }

  function Fetch(s: State, i: nat, event: Option<LrpEvent>): State
    requires i < |s.subscribers|
  {
    if event.None? then s
    else s.(subscribers := s.subscribers[i := SendingEvent(event.value)], fetched := s.fetched + [event.value])
  }

  function Step(s: State, l: Label): State {
    match l
    case SubscribeSucceeds(i) =>
      if !Is(s, i, Subscribing) then s
      else s.(subscribers := s.subscribers[i := Reading], source := Some(i), openedSources := s.openedSources + {i})
    case SubscribeFails(i) =>
      if !Is(s, i, Subscribing) then s else s.(subscribers := s.subscribers[i := SendingError])
    case Next(i, result) =>
      if !Is(s, i, Reading) then s
      else (match result
            case Event(event) => Fetch(s, i, event)
            case UnrecognizedType(event) => Fetch(s, i, event)
            case SourceError => s.(subscribers := s.subscribers[i := SendingError]))
    case ReceiveEvent(i) =>
      if s.main.Selecting? && i < |s.subscribers| && s.subscribers[i].SendingEvent?
      then s.(subscribers := s.subscribers[i := Reading], calls := s.calls + [HandleEvent(s.subscribers[i].event)])
      else s
    case ReceiveError(i) =>
      if s.main.Selecting? && Is(s, i, SendingError)
      then CloseSource(s).(subscribers := s.subscribers[i := Finished] + [Subscribing])
      else s
    case StartSync =>
      if s.main.Selecting? then s.(main := InSync, calls := s.calls + [SyncBegin]) else s
    case FinishSync =>
      if s.main.InSync? then s.(main := Selecting, calls := s.calls + [SyncEnd]) else s
    case Signal =>
      if s.main.Selecting? then CloseSource(s).(main := Stopped) else s
  }

  function Run(labels: seq<Label>): State {
    if labels == [] then START else Step(Run(labels[..|labels| - 1]), labels[|labels| - 1])
  }

  // ---------------------------------------------------------------- what every interleaving keeps

  function Handled(calls: seq<Call>): seq<LrpEvent> {
    if calls == [] then []
    else
      var last := calls[|calls| - 1];
      Handled(calls[..|calls| - 1]) + if last.HandleEvent? then [last.event] else []
  }

  /** The event a subscriber holds, if any. */
  function InFlight(s: State): seq<LrpEvent> {
    if s.subscribers != [] && s.subscribers[|s.subscribers| - 1].SendingEvent?
    then [s.subscribers[|s.subscribers| - 1].event] else []
  }

  /** Syncs begin and end in turn, and nothing comes in between. */
  predicate Alternates(calls: seq<Call>, syncing: bool) {
    if calls == [] then !syncing
    else
      var prefix := calls[..|calls| - 1];
      match calls[|calls| - 1]
      case HandleEvent(_) => !syncing && Alternates(prefix, false)
      case SyncBegin => syncing && Alternates(prefix, false)
      case SyncEnd => !syncing && Alternates(prefix, true)
  }

  /** Only the last subscriber can still send. */
  predicate SingleSubscriber(s: State) {
    s.subscribers != [] && forall i :: 0 <= i < |s.subscribers| - 1 ==> s.subscribers[i].Finished?
  }

  /** Every fetched event was handed to the handler, in order and once, except the one in flight. */
  predicate NothingLost(s: State) {
    s.fetched == Handled(s.calls) + InFlight(s)
  }

  /** At most one source is open, and while the loop runs a reading subscriber reads an open one that the cell names. */
  predicate SourcesTracked(s: State) {
    var last := |s.subscribers| - 1;
    && (s.subscribers != [] ==> !s.subscribers[last].Finished?)
    && (forall i :: i in s.openedSources ==> i <= last)
    && (forall i :: i in s.openedSources && i !in s.closedSources ==> i == last)
    && (last in s.openedSources <==> s.source == Some(last))
    && (s.source.Some? ==> s.source.value in s.openedSources)
    && (s.subscribers != [] && (s.subscribers[last].Reading? || s.subscribers[last].SendingEvent?) ==>
          last in s.openedSources)
    && (s.subscribers != [] && s.subscribers[last].Subscribing? ==> last !in s.openedSources)
    && (s.closedSources <= s.openedSources)
    && (!s.main.Stopped? ==> last !in s.closedSources)
  }

  predicate Invariant(s: State) {
    && SingleSubscriber(s) && NothingLost(s) && SourcesTracked(s)
    && Alternates(s.calls, s.main.InSync?)
  }

  lemma CallsSnoc(calls: seq<Call>, call: Call)
    ensures Handled(calls + [call]) == Handled(calls) + if call.HandleEvent? then [call.event] else []
    ensures forall syncing :: Alternates(calls + [call], syncing) <==>
              match call
              case HandleEvent(_) => !syncing && Alternates(calls, false)
              case SyncBegin => syncing && Alternates(calls, false)
              case SyncEnd => !syncing && Alternates(calls, true)
  {
    assert (calls + [call])[..|calls|] == calls;
  }

  lemma RunSnoc(labels: seq<Label>, last: Label)
    ensures Run(labels + [last]) == Step(Run(labels), last)
  {
    hide Step;
    assert (labels + [last])[..|labels|] == labels;
  }

  lemma SourcesStep(s: State, l: Label)
    requires SingleSubscriber(s) && SourcesTracked(s)
    ensures SingleSubscriber(Step(s, l)) && SourcesTracked(Step(s, l))
  {
  }

  lemma EventsStep(s: State, l: Label)
    requires SingleSubscriber(s) && NothingLost(s) && Alternates(s.calls, s.main.InSync?)
    ensures NothingLost(Step(s, l)) && Alternates(Step(s, l).calls, Step(s, l).main.InSync?)
  {
    hide Handled, Alternates;
    assert Handled(s.calls) + [] == Handled(s.calls);
    match l
    case ReceiveEvent(i) =>
      if s.main.Selecting? && i < |s.subscribers| && s.subscribers[i].SendingEvent? {
        CallsSnoc(s.calls, HandleEvent(s.subscribers[i].event));
        var handled := Handled(s.calls + [HandleEvent(s.subscribers[i].event)]);
        assert handled + [] == handled;
      }
    case StartSync =>
      CallsSnoc(s.calls, SyncBegin);
      assert Handled(s.calls + [SyncBegin]) == Handled(s.calls);
    case FinishSync =>
      CallsSnoc(s.calls, SyncEnd);
      assert Handled(s.calls + [SyncEnd]) == Handled(s.calls);
    case _ =>
  }

  lemma InvariantStep(s: State, l: Label)
    requires Invariant(s)
    ensures Invariant(Step(s, l))
  {
    hide Step, SingleSubscriber, SourcesTracked, NothingLost, Alternates;
    SourcesStep(s, l);
    EventsStep(s, l);
  }

  /** In every interleaving: one live subscriber, no event lost, repeated or reordered, one open source, no
      overlapping syncs. */
  lemma {:induction false} WatcherIsSafe(labels: seq<Label>)
    ensures Invariant(Run(labels))
  {
    if labels != [] {
      hide Step, Invariant;
      WatcherIsSafe(labels[..|labels| - 1]);
      InvariantStep(Run(labels[..|labels| - 1]), labels[|labels| - 1]);
    }
  }

  // ---------------------------------------------------------------- what is heard and handed over

  /** The events that the source returned to a reading subscriber, read off the labels. */
  function Heard(labels: seq<Label>): seq<LrpEvent> {
    if labels == [] then []
    else
      var prefix := labels[..|labels| - 1];
      Heard(prefix) + HeardAt(Run(prefix), labels[|labels| - 1])
  }

  function HeardAt(s: State, l: Label): seq<LrpEvent> {
    if l.Next? && Is(s, l.subscriber, Reading) && !l.result.SourceError? && l.result.event.Some?
    then [l.result.event.value] else []
  }

  /** The events of a subscriber that is received while the loop selects, read off the labels. */
  function Received(labels: seq<Label>): seq<LrpEvent> {
    if labels == [] then []
    else
      var prefix := labels[..|labels| - 1];
      Received(prefix) + ReceivedAt(Run(prefix), labels[|labels| - 1])
  }

  function ReceivedAt(s: State, l: Label): seq<LrpEvent> {
    if && l.ReceiveEvent? && s.main.Selecting? && l.subscriber < |s.subscribers|
       && s.subscribers[l.subscriber].SendingEvent?
    then [s.subscribers[l.subscriber].event] else []
  }

  /** In every interleaving: the log of fetched events is what the source returned, the handler got what was
      received, and the two differ by the event in flight only. */
  lemma {:induction false} HeardIsHandedOver(labels: seq<Label>)
    ensures Run(labels).fetched == Heard(labels) && Handled(Run(labels).calls) == Received(labels)
    ensures Heard(labels) == Received(labels) + InFlight(Run(labels))
  {
    WatcherIsSafe(labels);
    if labels != [] {
      hide Step, InFlight, SourcesTracked, SingleSubscriber, Alternates, HeardAt, ReceivedAt, Handled;
      HeardIsHandedOver(labels[..|labels| - 1]);
      LogStep(Run(labels[..|labels| - 1]), labels[|labels| - 1]);
    }
  }

  lemma LogStep(s: State, l: Label)
    ensures Step(s, l).fetched == s.fetched + HeardAt(s, l)
    ensures Handled(Step(s, l).calls) == Handled(s.calls) + ReceivedAt(s, l)
  {
    hide Handled;
    assert s.fetched + [] == s.fetched && Handled(s.calls) + [] == Handled(s.calls);
    if l.ReceiveEvent? && ReceivedAt(s, l) != [] {
      CallsSnoc(s.calls, HandleEvent(s.subscribers[l.subscriber].event));
    }
    CallsSnoc(s.calls, SyncBegin);
    CallsSnoc(s.calls, SyncEnd);
  }

  /** A label after another. */
  function Steps(s: State, labels: seq<Label>): State {
    if labels == [] then s else Step(Steps(s, labels[..|labels| - 1]), labels[|labels| - 1])
  }

  lemma {:induction false} RunSteps(labels: seq<Label>, more: seq<Label>)
    ensures Run(labels + more) == Steps(Run(labels), more)
  {
    hide Step;
    if more == [] {
      assert labels + more == labels;
    } else {
      RunSteps(labels, more[..|more| - 1]);
      assert (labels + more)[..|labels + more| - 1] == labels + more[..|more| - 1];
    }
  }

  lemma TwoSteps(s: State, a: Label, b: Label)
    ensures Steps(s, [a, b]) == Step(Step(s, a), b)
  {
    hide Step;
    assert [a, b][..1] == [a] && [a][..0] == [];
    assert Steps(s, [a]) == Step(s, a);
  }

  /** While the loop selects, an event that a reading subscriber gets reaches the handler, and the subscriber reads on,
      whether or not the source complained about its type; an answer without an event changes nothing. */
  lemma EventComesThrough(s: State, i: nat, event: LrpEvent, result: NextResult)
    requires s.main.Selecting? && Is(s, i, Reading)
    requires result in {Event(Some(event)), UnrecognizedType(Some(event))}
    ensures var after := Steps(s, [Next(i, result), ReceiveEvent(i)]);
            && after.calls == s.calls + [HandleEvent(event)] && after.main.Selecting?
            && after.subscribers == s.subscribers && after.fetched == s.fetched + [event]
    ensures Step(s, Next(i, Event(None))) == s && Step(s, Next(i, UnrecognizedType(None))) == s
  {
    TwoSteps(s, Next(i, result), ReceiveEvent(i));
    var held := s.subscribers[i := SendingEvent(event)];
    assert held[i := Reading] == s.subscribers;
  }

  /** A subscription that fails, or a source that breaks, leads to a fresh subscription once the loop is told, and the
      source in the cell is closed. */
  lemma ErrorLeadsToResubscription(s: State, i: nat, l: Label)
    requires s.main.Selecting?
    requires (l == SubscribeFails(i) && Is(s, i, Subscribing)) || (l == Next(i, SourceError) && Is(s, i, Reading))
    ensures var after := Steps(s, [l, ReceiveError(i)]);
            && after.subscribers == s.subscribers[i := Finished] + [Subscribing]
            && after.main.Selecting? && after.calls == s.calls
            && (s.source.Some? ==> s.source.value in after.closedSources)
  {
    TwoSteps(s, l, ReceiveError(i));
    var told := s.subscribers[i := SendingError];
    assert told[i := Finished] == s.subscribers[i := Finished];
  }

  /** A sync request is one begin and one end on the handler, and then the loop selects again. */
  lemma SyncComesThrough(s: State)
    requires s.main.Selecting?
    ensures Step(s, StartSync) == s.(main := InSync, calls := s.calls + [SyncBegin])
    ensures Steps(s, [StartSync, FinishSync]) == s.(calls := s.calls + [SyncBegin] + [SyncEnd])
  {
    TwoSteps(s, StartSync, FinishSync);
    hide Steps, CloseSource, Fetch, Is;
    assert Step(s, StartSync).calls == s.calls + [SyncBegin];
  }

  /** Whatever has happened: until it is stopped, the watcher can go on to hear any new event and hand it over. */
  lemma CanAlwaysHear(labels: seq<Label>, event: LrpEvent) returns (more: seq<Label>)
    requires !Run(labels).main.Stopped?
    ensures var calls := Run(labels + more).calls;
            calls != [] && calls[|calls| - 1] == HandleEvent(event) && Run(labels).calls < calls
    ensures exists i :: Next(i, Event(Some(event))) in more
  {
    WatcherIsSafe(labels);
    hide Run, Steps, NothingLost, Alternates;
    var s := Run(labels);
    assert !s.subscribers[|s.subscribers| - 1].Finished?;
    hide SourcesTracked;
    var rest, i := ToReading(s);
    more := rest + [Next(i, Event(Some(event))), ReceiveEvent(i)];
    RunSteps(labels, rest);
    RunSteps(labels + rest, [Next(i, Event(Some(event))), ReceiveEvent(i)]);
    assert labels + more == (labels + rest) + [Next(i, Event(Some(event))), ReceiveEvent(i)];
    EventComesThrough(Steps(s, rest), i, event, Event(Some(event)));
    assert more[|rest|] == Next(i, Event(Some(event)));
  }

  /** The labels that bring a watcher that is not stopped to read again. */
  lemma ToReading(s: State) returns (labels: seq<Label>, i: nat)
    requires SingleSubscriber(s) && !s.main.Stopped? && !s.subscribers[|s.subscribers| - 1].Finished?
    ensures var after := Steps(s, labels);
            after.main.Selecting? && Is(after, i, Reading) && s.calls <= after.calls
  {
    if s.main.InSync? {
      var rest;
      rest, i := ToReadingSelecting(Step(s, FinishSync));
      labels := [FinishSync] + rest;
      StepsFrom(s, FinishSync, rest);
    } else {
      labels, i := ToReadingSelecting(s);
    }
  }

  lemma {:induction false} StepsFrom(s: State, l: Label, rest: seq<Label>)
    ensures Steps(s, [l] + rest) == Steps(Step(s, l), rest)
  {
    hide Step;
    if rest == [] {
      assert [l] + rest == [l] && [l][..0] == [];
    } else {
      StepsFrom(s, l, rest[..|rest| - 1]);
      assert ([l] + rest)[..|[l] + rest| - 1] == [l] + rest[..|rest| - 1];
    }
  }

  lemma ToReadingSelecting(s: State) returns (labels: seq<Label>, i: nat)
    requires s.subscribers != [] && s.main.Selecting? && !s.subscribers[|s.subscribers| - 1].Finished?
    ensures var after := Steps(s, labels);
            after.main.Selecting? && Is(after, i, Reading) && s.calls <= after.calls
  {
    i := |s.subscribers| - 1;
    match s.subscribers[i]
    case Reading => labels := [];
    case Subscribing =>
      labels := [SubscribeSucceeds(i)];
      StepsFrom(s, SubscribeSucceeds(i), []);
    case SendingEvent(_) =>
      labels := [ReceiveEvent(i)];
      StepsFrom(s, ReceiveEvent(i), []);
    case SendingError =>
      labels := [ReceiveError(i), SubscribeSucceeds(i + 1)];
      TwoSteps(s, ReceiveError(i), SubscribeSucceeds(i + 1));
      i := i + 1;
  }

  // ---------------------------------------------------------------- shutdown

  /** Among the labels, the subscription succeeds, and does so before any failure of it. */
  predicate Succeeds(i: nat, labels: seq<Label>) {
    exists j :: 0 <= j < |labels| && labels[j] == SubscribeSucceeds(i) && SubscribeFails(i) !in labels[..j]
  }

  lemma SucceedsSnoc(i: nat, labels: seq<Label>, last: Label)
    ensures Succeeds(i, labels + [last]) <==>
              Succeeds(i, labels) || (last == SubscribeSucceeds(i) && SubscribeFails(i) !in labels)
  {
    var all := labels + [last];
    assert all[..|labels|] == labels;
    forall j | 0 <= j < |labels| ensures all[..j] == labels[..j] {
    }
    if Succeeds(i, labels) {
      var j :| 0 <= j < |labels| && labels[j] == SubscribeSucceeds(i) && SubscribeFails(i) !in labels[..j];
      assert all[j] == SubscribeSucceeds(i);
    }
    if last == SubscribeSucceeds(i) && SubscribeFails(i) !in labels {
      assert all[|labels|] == SubscribeSucceeds(i);
    }
  }

  /** A stopped watcher after the labels `more`: every opened source is closed, except that of a subscription that
      was on its way at the signal and has succeeded since. */
  predicate Closing(s: State, last: nat, subscribing: bool, more: seq<Label>) {
    && s.main.Stopped? && |s.subscribers| == last + 1
    && (forall i :: 0 <= i < last ==> s.subscribers[i].Finished?)
    && (s.subscribers[last].Subscribing? <==>
          subscribing && SubscribeSucceeds(last) !in more && SubscribeFails(last) !in more)
    && s.openedSources == s.closedSources + (if subscribing && Succeeds(last, more) then {last} else {})
    && (subscribing ==> last !in s.closedSources)
  }

  lemma ClosingStep(s: State, last: nat, subscribing: bool, more: seq<Label>, l: Label)
    requires Closing(s, last, subscribing, more)
    ensures Closing(Step(s, l), last, subscribing, more + [l])
  {
    SucceedsSnoc(last, more, l);
    if SubscribeSucceeds(last) in more && SubscribeFails(last) !in more {
      SucceedsUnlessFailed(last, more);
    }
    hide Succeeds, Fetch;
  }

  lemma SucceedsUnlessFailed(i: nat, labels: seq<Label>)
    requires SubscribeSucceeds(i) in labels && SubscribeFails(i) !in labels
    ensures Succeeds(i, labels)
  {
    var j :| 0 <= j < |labels| && labels[j] == SubscribeSucceeds(i);
    assert SubscribeFails(i) !in labels[..j];
  }

  lemma SignalStep(s: State)
    requires SingleSubscriber(s) && SourcesTracked(s) && s.main.Selecting?
    ensures Closing(Step(s, Signal), |s.subscribers| - 1, s.subscribers[|s.subscribers| - 1].Subscribing?, [])
  {
    assert forall i :: i in s.openedSources <==> i in CloseSource(s).closedSources;
  }

  lemma SignalCloses(labels: seq<Label>)
    requires Run(labels).main.Selecting?
    ensures var s := Run(labels);
            && s.subscribers != []
            && Closing(Run(labels + [Signal]), |s.subscribers| - 1, s.subscribers[|s.subscribers| - 1].Subscribing?, [])
  {
    WatcherIsSafe(labels);
    RunSnoc(labels, Signal);
    hide Run, Step, Closing, NothingLost, Alternates, SourcesTracked;
    SignalStep(Run(labels));
  }

  lemma {:induction false} StaysClosing(labels: seq<Label>, more: seq<Label>)
    requires Run(labels).main.Selecting?
    ensures var s := Run(labels);
            && s.subscribers != []
            && Closing(Run(labels + [Signal] + more), |s.subscribers| - 1,
                       s.subscribers[|s.subscribers| - 1].Subscribing?, more)
  {
    hide Run, Step, Closing;
    SignalCloses(labels);
    var signalled := labels + [Signal];
    if more == [] {
      assert signalled + more == signalled;
    } else {
      var prefix, l := more[..|more| - 1], more[|more| - 1];
      StaysClosing(labels, prefix);
      assert more == prefix + [l];
      assert signalled + more == (signalled + prefix) + [l];
      RunSnoc(signalled + prefix, l);
      var s := Run(labels);
      var last := |s.subscribers| - 1;
      ClosingStep(Run(signalled + prefix), last, s.subscribers[last].Subscribing?, prefix, l);
    }
  }

  /** For every run up to a signal that is taken, and everything after it: the watcher is stopped, and every source
      ever opened is closed exactly unless a subscription was on its way at the signal and then succeeds. */
  lemma ShutdownClosesIff(labels: seq<Label>, more: seq<Label>)
    requires Run(labels).main.Selecting?
    ensures var s, e := Run(labels), Run(labels + [Signal] + more);
            var last := |s.subscribers| - 1;
            && e.main.Stopped? && last >= 0
            && (e.openedSources == e.closedSources <==> !(s.subscribers[last].Subscribing? && Succeeds(last, more)))
            && e.openedSources - e.closedSources <= {last} && e.closedSources <= e.openedSources
  {
    hide Succeeds, Step;
    StaysClosing(labels, more);
  }

  /** The failing family is not empty: a subscription that succeeds after the signal leaves its source open for good. */
  lemma LateSubscriptionStaysOpen(more: seq<Label>)
    ensures var s := Run([Signal, SubscribeSucceeds(0)] + more);
            s.main.Stopped? && 0 in s.openedSources - s.closedSources
  {
    var later := [SubscribeSucceeds(0)] + more;
    assert later[0] == SubscribeSucceeds(0) && later[..0] == [];
    ShutdownClosesIff([], later);
    assert [] + [Signal] + later == [Signal, SubscribeSucceeds(0)] + more;
    var e := Run([] + [Signal] + later);
    assert e.openedSources == e.closedSources + (e.openedSources - e.closedSources);
    var i :| i in e.openedSources - e.closedSources;
  }
}
