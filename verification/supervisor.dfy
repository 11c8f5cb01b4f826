/**
 * The spawned server under the orchestrator: the end of `main()` in
 * panel.freecloud.ltd/hysteria.js.  After the spawn the orchestrator only
 * reacts to events: a signal it receives is passed on to the child, a spawn
 * error exits with status 1, and the child's exit ends the orchestrator with
 * `code || 0`.
 */
module Supervisor {
  import opened Wrappers

  /** The two signals the orchestrator installs handlers for. */
  datatype Signal = SIGINT | SIGTERM

  function SignalName(s: Signal): string
  {
    match s
    case SIGINT => "SIGINT"
    case SIGTERM => "SIGTERM"
  }

  /** What happens after the spawn, in order. */
  datatype ChildEvent =
    | SignalReceived(signal: Signal)                             // delivered to the orchestrator
    | SpawnError(message: string)                          // the child's `error` event
    | ChildExited(code: Option<int>, killedBy: Option<string>) // the child's `exit` event

  /** `code || 0`: a null code (the child was killed by a signal) and a zero code both give 0. */
  function ExitStatus(code: Option<int>): int
  {
    match code
    case Some(c) => c
    case None => 0
  }

  /** The handler for a received signal kills the child with the same signal. */
  function Relay(s: Signal): (forwarded: string)
  {
    SignalName(s)
  }

  /** The status an event ends the orchestrator with, or None when it does not end it. */
  function Terminates(e: ChildEvent): Option<int>
  {
    match e
    case SignalReceived(_) => None
    case SpawnError(_) => Some(1)
    case ChildExited(code, _) => Some(ExitStatus(code))
  }

  /** The signals forwarded to the child, and the exit status once one is decided. */
  datatype Supervision = Supervision(relayed: seq<string>, exit: Option<int>)

  /** Runs the event handlers over the events; after `process.exit` nothing else is handled. */
  function Supervise(events: seq<ChildEvent>): Supervision
  {
    if events == [] then Supervision([], None)
    else match Terminates(events[0])
      case Some(status) => Supervision([], Some(status))
      case None =>
        var rest := Supervise(events[1..]);
        Supervision([Relay(events[0].signal)] + rest.relayed, rest.exit)
  }

  /** Index of the first event that ends the orchestrator, or the length when none does. */
  function FirstTerminal(events: seq<ChildEvent>): (i: nat)
    ensures i <= |events|
    ensures forall k :: 0 <= k < i ==> events[k].SignalReceived?
    ensures i < |events| ==> !events[i].SignalReceived?
  {
    if events == [] || !events[0].SignalReceived? then 0 else 1 + FirstTerminal(events[1..])
  }

  /**
   * The supervision against the first terminating event: every signal
   * received before it is forwarded once, in order and unchanged; the
   * orchestrator exits exactly when such an event occurs, with 1 for a spawn
   * error and `code || 0` for the child's exit.
   */
  lemma {:induction false} SuperviseSpec(events: seq<ChildEvent>)
    ensures var r := Supervise(events); var i := FirstTerminal(events);
      && |r.relayed| == i
      && (forall k :: 0 <= k < i ==> r.relayed[k] == SignalName(events[k].signal))
      && (r.exit.Some? <==> i < |events|)
      && (i < |events| && events[i].SpawnError? ==> r.exit == Some(1))
      && (i < |events| && events[i].ChildExited? ==> r.exit == Some(ExitStatus(events[i].code)))
  {
    if events != [] && events[0].SignalReceived? {
      SuperviseSpec(events[1..]);
    }
  }

  /** Events after the first terminating one are never handled. */
  lemma {:induction false} LaterEventsIgnored(events: seq<ChildEvent>, later: seq<ChildEvent>)
    requires FirstTerminal(events) < |events|
    ensures Supervise(events + later) == Supervise(events)
  {
    assert (events + later)[0] == events[0];
    if events[0].SignalReceived? {
      assert (events + later)[1..] == events[1..] + later;
      LaterEventsIgnored(events[1..], later);
    }
  }

  /**
   * A relayed SIGTERM that kills the child ends the orchestrator with status 0:
   * the child's code is null and `null || 0` is 0.
   */
  lemma ShutdownBySignalExitsZero(s: Signal)
    ensures Supervise([SignalReceived(s), ChildExited(None, Some(Relay(s)))]) ==
            Supervision([Relay(s)], Some(0))
  {
  }
}
