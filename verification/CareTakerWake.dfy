/** The caretaker's wake-up channel.

    Any number of goroutines call Signal, which first counts the signal under a mutex and then
    makes a non-blocking send on a channel of capacity one.  The caretaker's own loop receives,
    drains the channel, takes a snapshot of the counter, reconciles, and waits again; a timer may
    also start a reconcile, and cancellation stops the loop.  Each of these is one step, in any
    order the scheduler likes.  `now` is a logical clock that numbers the steps. */
module CareTakerWake {

  /** One call of Signal: its number is the counter value it produced; `sentAt` is the time its
      send step finished, or -1 while that step is still to come. */
  datatype Signal = Signal(number: nat, sentAt: int) {
    predicate Sent() { sentAt >= 0 }
  }

  datatype Loop =
    | StartupCount                 // Run is about to count its own "startup" signal
    | StartupSend(index: nat)      // and then to send it
    | Waiting                      // in the select
    | Draining                     // received a token, emptying the channel
    | Snapshotting                 // about to read the signal counter
    | Reconciling(signalled: bool)
    | Stopped

  datatype State = State(
    now: nat,
    token: bool,                   // the channel holds its one token
    signalCount: nat,
    signals: seq<Signal>,
    loop: Loop,
    snapshotAt: int,               // time of the latest counter snapshot, -1 if none
    snapshotCount: nat)            // its value

  datatype Event =
    | Count                        // some goroutine enters Signal
    | Send(index: nat)             // and performs its send
    | LoopStep                     // the loop continues; a waiting loop takes the token if there is one
    | TimerFires                   // the waiting loop takes the timer branch instead
    | Cancel                       // the context is done and the loop notices

  const INITIAL := State(0, false, 0, [], StartupCount, -1, 0)

  function CountSignal(s: State): State {
    s.(signalCount := s.signalCount + 1, signals := s.signals + [Signal(s.signalCount + 1, -1)])
  }

  /** The non-blocking send: afterwards the channel holds a token, whether this send put it there
      or found it full. */
  function SendSignal(s: State, index: nat): State
    requires index < |s.signals|
  {
    s.(token := true, signals := s.signals[index := s.signals[index].(sentAt := s.now)])
  }

  function AdvanceLoop(s: State): State {
    match s.loop
    case StartupCount => CountSignal(s).(loop := StartupSend(|s.signals|))
    case StartupSend(i) => if i < |s.signals| then SendSignal(s, i).(loop := Waiting) else s
    case Waiting => if s.token then s.(token := false, loop := Draining) else s
    case Draining => if s.token then s.(token := false) else s.(loop := Snapshotting)
    case Snapshotting => s.(loop := Reconciling(true), snapshotAt := s.now, snapshotCount := s.signalCount)
    case Reconciling(_) => s.(loop := Waiting)
    case Stopped => s
  }

  function Step(s: State, e: Event): State {
    var t := s.(now := s.now + 1);
    match e
    case Count => CountSignal(t)
    case Send(i) => if i < |s.signals| && !s.signals[i].Sent() then SendSignal(t, i) else t
    case LoopStep => AdvanceLoop(t)
    case TimerFires => if s.loop.Waiting? then t.(loop := Reconciling(false)) else t
    case Cancel => if s.loop.Waiting? || s.loop.Reconciling? then t.(loop := Stopped) else t
  }

  function Run(s: State, events: seq<Event>): State
    decreases |events|
  {
    if events == [] then s else Run(Step(s, events[0]), events[1..])
  }

  /** A counter snapshot is still to come, or a token that will lead to one is in the channel. */
  predicate SnapshotPending(s: State) {
    s.token || s.loop.Draining? || s.loop.Snapshotting?
  }

  /** The latest snapshot was taken after this signal's send finished, and counted it. */
  predicate Observed(s: State, signal: Signal) {
    signal.sentAt < s.snapshotAt && signal.number <= s.snapshotCount
  }

  ghost predicate Inv(s: State) {
    && s.snapshotAt <= s.now
    && s.snapshotCount <= s.signalCount
    && (s.loop.StartupSend? ==> s.loop.index < |s.signals|)
    && (forall i :: 0 <= i < |s.signals| ==>
          && -1 <= s.signals[i].sentAt <= s.now
          && 1 <= s.signals[i].number <= s.signalCount)
    && (s.loop.Stopped? || forall i :: 0 <= i < |s.signals| && s.signals[i].Sent() ==>
          SnapshotPending(s) || Observed(s, s.signals[i]))
  }

  lemma StepKeepsInv(s: State, e: Event)
    requires Inv(s)
    ensures Inv(Step(s, e))
  {
    var s' := Step(s, e);
    forall i | 0 <= i < |s'.signals| && s'.signals[i].Sent() && !s'.loop.Stopped?
      ensures SnapshotPending(s') || Observed(s', s'.signals[i])
    {
      if i < |s.signals| && s'.signals[i] == s.signals[i] {
        assert SnapshotPending(s) || Observed(s, s.signals[i]);
      }
    }
  }

  lemma {:induction false} RunKeepsInv(s: State, events: seq<Event>)
    requires Inv(s)
    ensures Inv(Run(s, events))
    decreases |events|
  {
    if events != [] {
      StepKeepsInv(s, events[0]);
      RunKeepsInv(Step(s, events[0]), events[1..]);
    }
  }

  /** No lost wake-up: in every interleaving, unless the loop was cancelled, a signal whose send
      has finished either still has a token or snapshot ahead of it, or was counted by a snapshot
      taken after that send. */
  lemma NoLostWakeup(events: seq<Event>, i: nat)
    requires i < |Run(INITIAL, events).signals|
    requires Run(INITIAL, events).signals[i].Sent() && !Run(INITIAL, events).loop.Stopped?
    ensures
      var s := Run(INITIAL, events);
      SnapshotPending(s) || Observed(s, s.signals[i])
  {
    RunKeepsInv(INITIAL, events);
  }

  /** When the loop sleeps on an empty channel, every finished signal has been reconciled. */
  lemma SleepingMeansObserved(events: seq<Event>)
    requires Run(INITIAL, events).loop.Waiting? && !Run(INITIAL, events).token
    ensures
      var s := Run(INITIAL, events);
      forall i :: 0 <= i < |s.signals| && s.signals[i].Sent() ==> Observed(s, s.signals[i])
  {
    RunKeepsInv(INITIAL, events);
  }

  /** How many steps the loop needs, undisturbed, until it sleeps on an empty channel. */
  function StepsToSleep(s: State): nat {
    match s.loop
    case StartupCount => 6
    case StartupSend(_) => 5
    case Waiting => if s.token then 4 else 0
    case Draining => if s.token then 8 else 3
    case Snapshotting => if s.token then 6 else 2
    case Reconciling(_) => if s.token then 5 else 1
    case Stopped => 0
  }

  /** The loop makes progress: from any state the signallers leave behind, at most eight steps of
      its own bring it to sleep with every finished signal observed. */
  lemma {:induction false} LoopReachesSleep(s: State) returns (events: seq<Event>)
    requires Inv(s) && !s.loop.Stopped?
    ensures |events| <= 8 && forall i :: 0 <= i < |events| ==> events[i] == LoopStep
    ensures
      var s' := Run(s, events);
      && s'.loop.Waiting? && !s'.token
      && forall i :: 0 <= i < |s'.signals| && s'.signals[i].Sent() ==> Observed(s', s'.signals[i])
    ensures |events| <= StepsToSleep(s)
    decreases StepsToSleep(s)
  {
    if s.loop.Waiting? && !s.token {
      events := [];
    } else {
      StepKeepsInv(s, LoopStep);
      var rest := LoopReachesSleep(Step(s, LoopStep));
      events := [LoopStep] + rest;
    }
  }
}
