/**
 The Go runner as a protocol: one poll loop and one goroutine per dispatched
 execution, interleaved step by step over the shared slots. Responses, timers
 and handler results are the environment's choice.
 */
module RunnerProtocol {
  import opened Wrappers
  import opened RunnerParts

  /** Where one run's goroutine is. */
  datatype Phase =
    | Handling    // the handler, then the log drain
    | Acking      // in the ack loop
    | Acked       // the ack loop has returned
    | Deleted     // removed from the map, slot not yet signalled
    | Signalled
    | Done        // the wait group knows

  /** A dispatched execution, with the replies to its ack attempts. */
  datatype Run = Run(id: Id, phase: Phase, acks: seq<AckReply>, cancelled: bool)

  /** A work assignment; `safe` is the ingest guard's verdict on its identifiers. */
  datatype Assignment = Assignment(id: Id, safe: bool)

  datatype Stage = Check | Fast | Graceful | Hard

  /** Where the loop is; `snap` is the in-flight map its poll request reported. */
  datatype Loop =
    | Top
    | TokenDiscarded
    | Polling(snap: map<Id, Handle>)
    | Cancelling(snap: map<Id, Handle>, cancels: seq<Id>, work: seq<Assignment>)
    | Dispatching(snap: map<Id, Handle>, work: seq<Assignment>)
    | Backoff(snap: map<Id, Handle>)
    | RetryWait
    | Draining(error: Option<Fatal>, stage: Stage)
    | Returned(error: Option<Fatal>)

  datatype Options = Options(maxInflight: int, limits: Limits)

  datatype State = State(
    slots: Slots,
    runs: seq<Run>,
    loop: Loop,
    streaks: Streaks,
    history: seq<Reply>,
    stopping: bool,    // the context has been cancelled
    waiting: int       // the wait group's counter
  )

  datatype Step =
    | Stop
    | LoopExit
    | DiscardToken
    | Snapshot
    | PollFails(status: nat)
    | PollSucceeds(cancels: seq<Id>, work: seq<Assignment>)
    | CancelOne
    | CancelsDone
    | DispatchOne
    | DispatchDone
    | WakeUp
    | BackoffElapses
    | RetryElapses
    | DrainStarts
    | DrainTimesOut
    | RunReturns
    | HandlerReturns(h: Handle)
    | AckAttempt(h: Handle, reply: AckReply)
    | DeleteEntry(h: Handle)
    | SignalSlot(h: Handle)
    | GoroutineEnds(h: Handle)

  function Init(): State {
    State(Slots(map[], false), [], Top, Streaks(0, 0), [], false, 0)
  }

  predicate At(s: State, h: Handle, phase: Phase) {
    h < |s.runs| && s.runs[h].phase == phase
  }

  predicate Enabled(o: Options, s: State, step: Step) {
    match step
    case Stop => true
    case LoopExit => s.stopping && (s.loop.Top? || s.loop.Polling? || s.loop.Backoff? || s.loop.RetryWait?)
    case DiscardToken => s.loop.Top? && !s.stopping
    case Snapshot => s.loop.TokenDiscarded?
    case PollFails(_) => s.loop.Polling? && !s.stopping
    case PollSucceeds(_, _) => s.loop.Polling?
    case CancelOne => s.loop.Cancelling? && s.loop.cancels != []
    case CancelsDone => s.loop.Cancelling? && s.loop.cancels == []
    case DispatchOne => s.loop.Dispatching? && s.loop.work != []
    case DispatchDone => s.loop.Dispatching? && s.loop.work == []
    case WakeUp => s.loop.Backoff? && s.slots.token
    case BackoffElapses => s.loop.Backoff?
    case RetryElapses => s.loop.RetryWait?
    case DrainStarts => s.loop.Draining? && s.loop.stage.Check?
    case DrainTimesOut => s.loop.Draining? && s.loop.stage.Graceful?
    case RunReturns => s.loop.Draining? && !s.loop.stage.Check? && s.waiting == 0
    case HandlerReturns(h) => At(s, h, Handling)
    case AckAttempt(h, _) => At(s, h, Acking)
    case DeleteEntry(h) => At(s, h, Acked)
    case SignalSlot(h) => At(s, h, Deleted)
    case GoroutineEnds(h) => At(s, h, Signalled)
  }

  function SetPhase(runs: seq<Run>, h: Handle, phase: Phase): seq<Run>
    requires h < |runs|
  {
    runs[h := runs[h].(phase := phase)]
  }

  /** Call the cancel functions in `hs`. */
  function CancelRuns(runs: seq<Run>, hs: set<Handle>): seq<Run> {
    seq(|runs|, h requires 0 <= h < |runs| => if h in hs then runs[h].(cancelled := true) else runs[h])
  }

  function AtCapacity(o: Options, snap: map<Id, Handle>): bool {
    |snap| >= o.maxInflight
  }

  function Apply(o: Options, s: State, step: Step): State
    requires Enabled(o, s, step)
  {
    match step
    case Stop => s.(stopping := true)
    case LoopExit => s.(loop := Draining(None, Check))
    case DiscardToken => s.(loop := TokenDiscarded, slots := s.slots.Receive())
    case Snapshot => s.(loop := Polling(s.slots.inflight))
    case PollFails(status) =>
      var s' := s.(history := s.history + [Failed(status)]);
      (match Judge(o.limits, s.streaks, Failed(status))
       case Continue(next) => s'.(streaks := next, loop := RetryWait)
       case Stop(error) => s'.(loop := Draining(Some(error), Check)))
    case PollSucceeds(cancels, work) =>
      s.(history := s.history + [Delivered], streaks := Streaks(0, 0),
         loop := Cancelling(s.loop.snap, cancels, work))
    case CancelOne =>
      s.(loop := s.loop.(cancels := s.loop.cancels[1..]),
         runs := CancelRuns(s.runs, s.slots.Reached(s.loop.cancels[0])))
    case CancelsDone => s.(loop := Dispatching(s.loop.snap, s.loop.work))
    case DispatchOne =>
      var a := s.loop.work[0];
      var s' := s.(loop := s.loop.(work := s.loop.work[1..]));
      if !a.safe then s'
      else
        var (slots, started) := s.slots.Admit(a.id, |s.runs|);
        if started then
          s'.(slots := slots, runs := s.runs + [Run(a.id, Handling, [], false)], waiting := s.waiting + 1)
        else s'
    case DispatchDone =>
      s.(loop := if AtCapacity(o, s.loop.snap) then Backoff(s.loop.snap) else Top)
    case WakeUp => s.(loop := Top, slots := s.slots.Receive())
    case BackoffElapses => s.(loop := Top)
    case RetryElapses => s.(loop := Top)
    case DrainStarts =>
      s.(loop := s.loop.(stage := if s.slots.inflight == map[] then Fast else Graceful))
    case DrainTimesOut =>
      s.(loop := s.loop.(stage := Hard), runs := CancelRuns(s.runs, s.slots.inflight.Values))
    case RunReturns => s.(loop := Returned(s.loop.error))
    case HandlerReturns(h) => s.(runs := SetPhase(s.runs, h, Acking))
    case AckAttempt(h, reply) =>
      var acks := s.runs[h].acks + [reply];
      s.(runs := s.runs[h := s.runs[h].(acks := acks, phase := if MoreAcks(acks) then Acking else Acked)])
    case DeleteEntry(h) =>
      s.(runs := SetPhase(s.runs, h, Deleted), slots := s.slots.Delete(s.runs[h].id))
    case SignalSlot(h) =>
      s.(runs := SetPhase(s.runs, h, Signalled), slots := s.slots.Signal())
    case GoroutineEnds(h) =>
      s.(runs := SetPhase(s.runs, h, Done), waiting := s.waiting - 1)
  }

  ghost predicate StepAt(o: Options, states: seq<State>, steps: seq<Step>, i: nat)
    requires i < |steps| < |states|
  {
    Enabled(o, states[i], steps[i]) && states[i + 1] == Apply(o, states[i], steps[i])
  }

  /** A behaviour: from the initial state, one enabled step after another. */
  ghost predicate IsBehaviour(o: Options, states: seq<State>, steps: seq<Step>) {
    && |states| == |steps| + 1
    && states[0] == Init()
    && forall i :: 0 <= i < |steps| ==> StepAt(o, states, steps, i)
  }
}
