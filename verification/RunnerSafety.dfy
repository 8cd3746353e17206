/** What every interleaving of the runner keeps, and the guarantees that follow. */
module RunnerSafety {
  import opened Wrappers
  import opened RunnerParts
  import opened RunnerProtocol

  // ----- The in-flight map -----

  /** Dispatched and not yet removed from the map. */
  predicate Live(r: Run) {
    r.phase.Handling? || r.phase.Acking? || r.phase.Acked?
  }

  /** The map holds exactly the live runs, each under its own handle. */
  ghost predicate MapExact(inflight: map<Id, Handle>, runs: seq<Run>) {
    && (forall id :: id in inflight ==>
          inflight[id] < |runs| && runs[inflight[id]].id == id && Live(runs[inflight[id]]))
    && (forall h :: 0 <= h < |runs| && Live(runs[h]) ==>
          runs[h].id in inflight && inflight[runs[h].id] == h)
  }

  // ----- The ack sequences -----

  predicate AckInv(r: Run) {
    match r.phase
    case Handling => r.acks == []
    case Acking => AckPrefix(r.acks) && MoreAcks(r.acks)
    case _ => AckComplete(r.acks)
  }

  ghost predicate AcksInv(runs: seq<Run>) {
    forall h :: 0 <= h < |runs| ==> AckInv(runs[h])
  }

  // ----- The wait group -----

  function Unfinished(runs: seq<Run>): nat {
    if runs == [] then 0
    else Unfinished(runs[..|runs| - 1]) + if runs[|runs| - 1].phase.Done? then 0 else 1
  }

  // ----- The wake-up -----

  ghost predicate HasSnap(loop: Loop) {
    loop.Polling? || loop.Cancelling? || loop.Dispatching? || loop.Backoff?
  }

  ghost predicate SomeDeleted(runs: seq<Run>) {
    exists h :: 0 <= h < |runs| && runs[h].phase.Deleted?
  }

  ghost predicate StillThere(snap: map<Id, Handle>, inflight: map<Id, Handle>) {
    forall id :: id in snap ==> id in inflight && inflight[id] == snap[id]
  }

  /** Nothing in the snapshot has left unless a token is there or about to be. */
  ghost predicate WakeInv(s: State) {
    HasSnap(s.loop) ==> s.slots.token || SomeDeleted(s.runs) || StillThere(s.loop.snap, s.slots.inflight)
  }

  // ----- The streaks -----

  ghost predicate StreakInv(o: Options, s: State) {
    match s.loop
    case Draining(Some(error), _) =>
      s.history != [] && Tolerable(o.limits, s.history[..|s.history| - 1]) && FatalReason(o.limits, s.history) == Some(error)
    case Returned(Some(error)) =>
      s.history != [] && Tolerable(o.limits, s.history[..|s.history| - 1]) && FatalReason(o.limits, s.history) == Some(error)
    case _ =>
      Tolerable(o.limits, s.history) && s.streaks == StreaksOf(s.history)
  }

  predicate Ready(o: Options) {
    o.limits.conflicts >= 1 && o.limits.auth >= 1
  }

  ghost predicate Inv(o: Options, s: State) {
    && MapExact(s.slots.inflight, s.runs)
    && AcksInv(s.runs)
    && s.waiting == Unfinished(s.runs)
    && WakeInv(s)
    && StreakInv(o, s)
    && (s.loop.Backoff? ==> AtCapacity(o, s.loop.snap))
    && (s.loop.Returned? ==> s.waiting == 0)
  }

  // ----- Counting -----

  lemma {:induction false} UnfinishedUpdate(runs: seq<Run>, h: nat, r: Run)
    requires h < |runs|
    ensures Unfinished(runs[h := r])
         == Unfinished(runs) + (if r.phase.Done? then 0 else 1) - (if runs[h].phase.Done? then 0 else 1)
    decreases |runs|
  {
    var n := |runs| - 1;
    var updated := runs[h := r];
    if h == n {
      assert updated[..n] == runs[..n];
    } else {
      assert updated[..n] == runs[..n][h := r];
      UnfinishedUpdate(runs[..n], h, r);
    }
  }

  lemma UnfinishedAppend(runs: seq<Run>, r: Run)
    ensures Unfinished(runs + [r]) == Unfinished(runs) + if r.phase.Done? then 0 else 1
  {
    assert (runs + [r])[..|runs|] == runs;
  }

  lemma {:induction false} UnfinishedSamePhases(a: seq<Run>, b: seq<Run>)
    requires |a| == |b| && forall h :: 0 <= h < |a| ==> a[h].phase == b[h].phase
    ensures Unfinished(a) == Unfinished(b)
    decreases |a|
  {
    if a != [] {
      UnfinishedSamePhases(a[..|a| - 1], b[..|b| - 1]);
    }
  }

  lemma {:induction false} UnfinishedZero(runs: seq<Run>, h: nat)
    requires h < |runs| && Unfinished(runs) == 0
    ensures runs[h].phase.Done?
    decreases |runs|
  {
    if h < |runs| - 1 {
      UnfinishedZero(runs[..|runs| - 1], h);
    }
  }

  lemma {:induction false} UnfinishedPositive(runs: seq<Run>, h: nat)
    requires h < |runs| && !runs[h].phase.Done?
    ensures Unfinished(runs) > 0
    decreases |runs|
  {
    if h < |runs| - 1 {
      UnfinishedPositive(runs[..|runs| - 1], h);
    }
  }

  // ----- Preservation, part by part -----

  /** A run moves without entering or leaving the map. */
  lemma MapKept(inflight: map<Id, Handle>, runs: seq<Run>, h: Handle, r: Run)
    requires MapExact(inflight, runs) && h < |runs|
    requires r.id == runs[h].id && Live(r) == Live(runs[h])
    ensures MapExact(inflight, runs[h := r])
  {
  }

  lemma MapAfterDelete(inflight: map<Id, Handle>, runs: seq<Run>, h: Handle)
    requires MapExact(inflight, runs) && h < |runs| && runs[h].phase.Acked?
    ensures MapExact(inflight - {runs[h].id}, SetPhase(runs, h, Deleted))
  {
    assert inflight[runs[h].id] == h;
  }

  lemma MapAfterAdmit(inflight: map<Id, Handle>, runs: seq<Run>, id: Id)
    requires MapExact(inflight, runs) && id !in inflight
    ensures MapExact(inflight[id := |runs|], runs + [Run(id, Handling, [], false)])
  {
  }

  lemma MapAfterCancel(inflight: map<Id, Handle>, runs: seq<Run>, hs: set<Handle>)
    requires MapExact(inflight, runs)
    ensures MapExact(inflight, CancelRuns(runs, hs))
  {
  }

  predicate LoopStep(step: Step) {
    !(step.HandlerReturns? || step.AckAttempt? || step.DeleteEntry? || step.SignalSlot? || step.GoroutineEnds?)
  }

  lemma MapStep(o: Options, s: State, step: Step)
    requires MapExact(s.slots.inflight, s.runs) && Enabled(o, s, step)
    ensures MapExact(Apply(o, s, step).slots.inflight, Apply(o, s, step).runs)
  {
    match step
    case CancelOne =>
      MapAfterCancel(s.slots.inflight, s.runs, s.slots.Reached(s.loop.cancels[0]));
    case DrainTimesOut => MapAfterCancel(s.slots.inflight, s.runs, s.slots.inflight.Values);
    case DispatchOne =>
      var id := s.loop.work[0].id;
      if id !in s.slots.inflight {
        MapAfterAdmit(s.slots.inflight, s.runs, id);
      }
    case DeleteEntry(h) => MapAfterDelete(s.slots.inflight, s.runs, h);
    case HandlerReturns(h) => MapKept(s.slots.inflight, s.runs, h, Apply(o, s, step).runs[h]);
    case AckAttempt(h, _) => MapKept(s.slots.inflight, s.runs, h, Apply(o, s, step).runs[h]);
    case SignalSlot(h) => MapKept(s.slots.inflight, s.runs, h, Apply(o, s, step).runs[h]);
    case GoroutineEnds(h) => MapKept(s.slots.inflight, s.runs, h, Apply(o, s, step).runs[h]);
    case _ =>
  }

  lemma AckExtends(acks: seq<AckReply>, reply: AckReply)
    requires AckPrefix(acks) && MoreAcks(acks)
    ensures AckPrefix(acks + [reply])
  {
  }

  lemma AcksStep(o: Options, s: State, step: Step)
    requires AcksInv(s.runs) && Enabled(o, s, step)
    ensures AcksInv(Apply(o, s, step).runs)
  {
    if step.AckAttempt? {
      AckExtends(s.runs[step.h].acks, step.reply);
    }
  }

  lemma WaitLoopStep(o: Options, s: State, step: Step)
    requires s.waiting == Unfinished(s.runs) && Enabled(o, s, step) && LoopStep(step)
    ensures Apply(o, s, step).waiting == Unfinished(Apply(o, s, step).runs)
  {
    if step.CancelOne? || step.DrainTimesOut? {
      UnfinishedSamePhases(s.runs, Apply(o, s, step).runs);
    } else if step.DispatchOne? {
      UnfinishedAppend(s.runs, Run(s.loop.work[0].id, Handling, [], false));
    }
  }

  lemma WaitRunStep(o: Options, s: State, step: Step)
    requires s.waiting == Unfinished(s.runs) && Enabled(o, s, step) && !LoopStep(step)
    ensures Apply(o, s, step).waiting == Unfinished(Apply(o, s, step).runs)
  {
    UnfinishedUpdate(s.runs, step.h, Apply(o, s, step).runs[step.h]);
  }

  lemma WaitStep(o: Options, s: State, step: Step)
    requires s.waiting == Unfinished(s.runs) && Enabled(o, s, step)
    ensures Apply(o, s, step).waiting == Unfinished(Apply(o, s, step).runs)
  {
    if LoopStep(step) {
      WaitLoopStep(o, s, step);
    } else {
      WaitRunStep(o, s, step);
    }
  }

  lemma WakeLoopStep(o: Options, s: State, step: Step)
    requires WakeInv(s) && Enabled(o, s, step) && LoopStep(step)
    ensures WakeInv(Apply(o, s, step))
  {
    var s' := Apply(o, s, step);
    if HasSnap(s'.loop) && !step.Snapshot? && SomeDeleted(s.runs) {
      var h :| 0 <= h < |s.runs| && s.runs[h].phase.Deleted?;
      assert s'.runs[h].phase.Deleted?;
    }
  }

  lemma WakeRunStep(o: Options, s: State, step: Step)
    requires WakeInv(s) && Enabled(o, s, step) && !LoopStep(step)
    ensures WakeInv(Apply(o, s, step))
  {
    var s' := Apply(o, s, step);
    if step.DeleteEntry? {
      assert s'.runs[step.h].phase.Deleted?;
    } else if !step.SignalSlot? && SomeDeleted(s.runs) {
      var h :| 0 <= h < |s.runs| && s.runs[h].phase.Deleted?;
      assert s'.runs[h].phase.Deleted?;
    }
  }

  lemma StreakStep(o: Options, s: State, step: Step)
    requires Ready(o) && StreakInv(o, s) && Enabled(o, s, step)
    ensures StreakInv(o, Apply(o, s, step))
  {
    var s' := Apply(o, s, step);
    if step.PollFails? || step.PollSucceeds? {
      var reply := if step.PollFails? then Failed(step.status) else Delivered;
      JudgeByHistory(o.limits, s.history, reply);
      assert s'.history[..|s'.history| - 1] == s.history;
      if FatalReason(o.limits, s.history + [reply]).None? {
        TolerableStep(o.limits, s.history, reply);
      }
    }
  }

  lemma InvInit(o: Options)
    requires Ready(o)
    ensures Inv(o, Init())
  {
    assert Tolerable(o.limits, []);
  }

  lemma InvStep(o: Options, s: State, step: Step)
    requires Ready(o) && Inv(o, s) && Enabled(o, s, step)
    ensures Inv(o, Apply(o, s, step))
  {
    MapStep(o, s, step);
    AcksStep(o, s, step);
    WaitStep(o, s, step);
    if LoopStep(step) {
      WakeLoopStep(o, s, step);
    } else {
      WakeRunStep(o, s, step);
    }
    StreakStep(o, s, step);
    if step.GoroutineEnds? {
      UnfinishedPositive(s.runs, step.h);
    }
  }

  lemma {:induction false} InvAlways(o: Options, states: seq<State>, steps: seq<Step>, i: nat)
    requires Ready(o) && IsBehaviour(o, states, steps) && i < |states|
    ensures Inv(o, states[i])
    decreases i
  {
    if i == 0 {
      InvInit(o);
    } else {
      InvAlways(o, states, steps, i - 1);
      assert StepAt(o, states, steps, i - 1);
      InvStep(o, states[i - 1], steps[i - 1]);
    }
  }

  // ----- One run per execution id -----

  /** Two live runs with one id are one run. */
  predicate SameLiveRun(runs: seq<Run>, h: Handle, k: Handle) {
    if h < |runs| && k < |runs| && Live(runs[h]) && Live(runs[k]) && runs[h].id == runs[k].id then h == k else true
  }

  /**
   In every reachable state the map's keys are the ids of the live runs, each
   mapped to that run's own handle, so no id ever has two live runs.
   */
  lemma InFlightExact(o: Options, states: seq<State>, steps: seq<Step>, i: nat, h: Handle, k: Handle)
    requires Ready(o) && IsBehaviour(o, states, steps) && i < |states|
    ensures MapExact(states[i].slots.inflight, states[i].runs)
    ensures SameLiveRun(states[i].runs, h, k)
  {
    InvAlways(o, states, steps, i);
  }

  /** A re-delivered id that is still running starts nothing and replaces no handle. */
  lemma RedeliveryIgnored(o: Options, states: seq<State>, steps: seq<Step>, i: nat, h: Handle)
    requires Ready(o) && IsBehaviour(o, states, steps) && i < |steps| && steps[i].DispatchOne?
    requires h < |states[i].runs| && Live(states[i].runs[h])
    requires assert StepAt(o, states, steps, i); states[i].runs[h].id == states[i].loop.work[0].id
    ensures states[i + 1].runs == states[i].runs && states[i + 1].slots == states[i].slots
  {
    InvAlways(o, states, steps, i);
    assert StepAt(o, states, steps, i);
  }

  /** The handles stored under an id are those of its live runs: at most one, and never a finished run's. */
  lemma ReachedExact(o: Options, states: seq<State>, steps: seq<Step>, i: nat, id: Id)
    requires Ready(o) && IsBehaviour(o, states, steps) && i < |states|
    ensures states[i].slots.Reached(id)
         == set h | 0 <= h < |states[i].runs| && Live(states[i].runs[h]) && states[i].runs[h].id == id
  {
    InvAlways(o, states, steps, i);
    var s := states[i];
    if id in s.slots.inflight {
      assert Live(s.runs[s.slots.inflight[id]]);
    }
  }

  /** A server cancel reaches the live run with that id, and no other run. */
  lemma CancelReachesTheRun(o: Options, states: seq<State>, steps: seq<Step>, i: nat, h: Handle)
    requires Ready(o) && IsBehaviour(o, states, steps) && i < |steps| && steps[i].CancelOne?
    requires h < |states[i].runs|
    ensures h < |states[i + 1].runs|
    ensures assert StepAt(o, states, steps, i);
            states[i + 1].runs[h].cancelled
       <==> states[i].runs[h].cancelled || (Live(states[i].runs[h]) && states[i].runs[h].id == states[i].loop.cancels[0])
  {
    InvAlways(o, states, steps, i);
    assert StepAt(o, states, steps, i);
    var s, id := states[i], states[i].loop.cancels[0];
    assert id in s.slots.inflight ==> (s.slots.inflight[id] == h <==> Live(s.runs[h]) && s.runs[h].id == id);
  }

  // ----- No lost wake-up -----

  lemma SubmapSize(a: map<Id, Handle>, b: map<Id, Handle>)
    requires forall id :: id in a ==> id in b
    ensures |a| <= |b|
  {
    assert a.Keys <= b.Keys;
    SubsetSize(a.Keys, b.Keys);
  }

  lemma {:induction false} SubsetSize(a: set<Id>, b: set<Id>)
    requires a <= b
    ensures |a| <= |b|
    decreases a
  {
    if a != {} {
      var x :| x in a;
      SubsetSize(a - {x}, b - {x});
    }
  }

  /**
   While the loop waits in the capacity backoff with no token, and no run is
   between its delete and its signal, everything the poll reported is still in
   flight and the runner really is full.
   */
  lemma NoLostWakeup(o: Options, states: seq<State>, steps: seq<Step>, i: nat)
    requires Ready(o) && IsBehaviour(o, states, steps) && i < |states|
    requires states[i].loop.Backoff? && !states[i].slots.token && !SomeDeleted(states[i].runs)
    ensures StillThere(states[i].loop.snap, states[i].slots.inflight)
    ensures |states[i].slots.inflight| >= o.maxInflight
  {
    InvAlways(o, states, steps, i);
    SubmapSize(states[i].loop.snap, states[i].slots.inflight);
  }

  /** A slot freed since the snapshot ends the wait at once, or after one run's signal. */
  lemma FreedSlotEndsTheWait(o: Options, states: seq<State>, steps: seq<Step>, i: nat)
    requires Ready(o) && IsBehaviour(o, states, steps) && i < |states|
    requires states[i].loop.Backoff? && !StillThere(states[i].loop.snap, states[i].slots.inflight)
    ensures Enabled(o, states[i], WakeUp)
         || exists h :: Enabled(o, states[i], SignalSlot(h)) && Enabled(o, Apply(o, states[i], SignalSlot(h)), WakeUp)
  {
    InvAlways(o, states, steps, i);
    if !states[i].slots.token {
      var h :| 0 <= h < |states[i].runs| && states[i].runs[h].phase.Deleted?;
      assert Enabled(o, states[i], SignalSlot(h));
    }
  }

  // ----- Polls report every unacked execution -----

  function Progress(p: Phase): nat {
    match p
    case Handling => 0
    case Acking => 1
    case Acked => 2
    case Deleted => 3
    case Signalled => 4
    case Done => 5
  }

  lemma RunStep(o: Options, s: State, step: Step, h: Handle)
    requires Enabled(o, s, step) && h < |s.runs|
    ensures h < |Apply(o, s, step).runs|
    ensures Apply(o, s, step).runs[h].id == s.runs[h].id
    ensures Progress(s.runs[h].phase) <= Progress(Apply(o, s, step).runs[h].phase)
  {
  }

  /** A run keeps its id and only moves forward. */
  lemma {:induction false} RunsProgress(o: Options, states: seq<State>, steps: seq<Step>, i: nat, j: nat, h: Handle)
    requires IsBehaviour(o, states, steps) && i <= j < |states| && h < |states[i].runs|
    ensures h < |states[j].runs|
    ensures states[j].runs[h].id == states[i].runs[h].id
    ensures Progress(states[i].runs[h].phase) <= Progress(states[j].runs[h].phase)
    decreases j - i
  {
    if i < j {
      RunsProgress(o, states, steps, i, j - 1, h);
      assert StepAt(o, states, steps, j - 1);
      RunStep(o, states[j - 1], steps[j - 1], h);
    }
  }

  /**
   Every poll snapshot taken after a run was dispatched and before its last ack
   attempt lists that execution, so its lease is renewed until it is acked.
   */
  lemma PollsListUntilLastAck(
      o: Options, states: seq<State>, steps: seq<Step>, poll: nat, ack: nat, h: Handle)
    requires Ready(o) && IsBehaviour(o, states, steps)
    requires poll < ack < |steps| && steps[poll].Snapshot?
    requires h < |states[poll].runs| && steps[ack].AckAttempt? && steps[ack].h == h
    ensures states[poll + 1].loop.Polling?
    ensures states[poll].runs[h].id in states[poll + 1].loop.snap
    ensures states[poll + 1].loop.snap[states[poll].runs[h].id] == h
  {
    InvAlways(o, states, steps, poll);
    RunsProgress(o, states, steps, poll, ack, h);
    assert StepAt(o, states, steps, ack) && StepAt(o, states, steps, poll);
  }

  // ----- Acks -----

  /**
   Whatever the server answers, a run that has left the ack loop made one to
   three attempts, and every attempt but the last had no answer or a 5xx.
   */
  lemma AckAttempts(o: Options, states: seq<State>, steps: seq<Step>, i: nat, h: Handle)
    requires Ready(o) && IsBehaviour(o, states, steps) && i < |states| && h < |states[i].runs|
    ensures forall k :: 0 <= k < |states[i].runs[h].acks| - 1 ==> Retryable(states[i].runs[h].acks[k])
    ensures |states[i].runs[h].acks| <= 3
    ensures !states[i].runs[h].phase.Handling? && !states[i].runs[h].phase.Acking? ==>
              AckComplete(states[i].runs[h].acks)
  {
    InvAlways(o, states, steps, i);
    assert AckInv(states[i].runs[h]);
  }

  // ----- The drain -----

  /** When `Run` returns, every dispatched run has finished its acks and the map is empty. */
  lemma ReturnedMeansDrained(o: Options, states: seq<State>, steps: seq<Step>, i: nat)
    requires Ready(o) && IsBehaviour(o, states, steps) && i < |states| && states[i].loop.Returned?
    ensures states[i].slots.inflight == map[]
    ensures forall h :: 0 <= h < |states[i].runs| ==> states[i].runs[h].phase.Done? && AckComplete(states[i].runs[h].acks)
  {
    InvAlways(o, states, steps, i);
    var s := states[i];
    forall h | 0 <= h < |s.runs|
      ensures s.runs[h].phase.Done? && AckComplete(s.runs[h].acks)
    {
      UnfinishedZero(s.runs, h);
      assert AckInv(s.runs[h]);
    }
    assert forall id :: id !in s.slots.inflight;
  }

  // ----- Fatal polls -----

  /**
   The loop gives up with an error exactly on a poll that makes the history
   final: a 403, or a run of 401s or 409s that has reached its limit.
   */
  lemma StopsExactlyWhenFinal(o: Options, states: seq<State>, steps: seq<Step>, i: nat)
    requires Ready(o) && IsBehaviour(o, states, steps) && i < |steps| && steps[i].PollFails?
    ensures Tolerable(o.limits, states[i].history)
    ensures states[i + 1].history == states[i].history + [Failed(steps[i].status)]
    ensures match FatalReason(o.limits, states[i + 1].history)
            case Some(error) => states[i + 1].loop == Draining(Some(error), Check)
            case None => states[i + 1].loop == RetryWait && states[i + 1].streaks == StreaksOf(states[i + 1].history)
  {
    InvAlways(o, states, steps, i);
    assert StepAt(o, states, steps, i);
    JudgeByHistory(o.limits, states[i].history, Failed(steps[i].status));
  }

  // ----- Capacity -----

  function Capacity(o: Options): nat {
    if o.maxInflight < 0 then 0 else o.maxInflight
  }

  function Free(o: Options, reported: nat): nat {
    if o.maxInflight - reported < 0 then 0 else o.maxInflight - reported
  }

  /** The server's side of the bargain: no response carries more work than the request had room for. */
  ghost predicate ServerRespectsCapacity(o: Options, states: seq<State>, steps: seq<Step>)
    requires IsBehaviour(o, states, steps)
  {
    forall i :: 0 <= i < |steps| && steps[i].PollSucceeds? ==>
      assert StepAt(o, states, steps, i);
      |steps[i].work| <= Free(o, |states[i].loop.snap|)
  }

  ghost predicate CapacityInv(o: Options, s: State) {
    && |s.slots.inflight| <= Capacity(o)
    && match s.loop
       case Polling(snap) => s.slots.inflight.Keys <= snap.Keys && |snap| <= Capacity(o)
       case Cancelling(_, _, work) => |s.slots.inflight| + |work| <= Capacity(o)
       case Dispatching(_, work) => |s.slots.inflight| + |work| <= Capacity(o)
       case _ => true
  }

  lemma CapacityLoopStep(o: Options, s: State, step: Step)
    requires CapacityInv(o, s) && Enabled(o, s, step) && LoopStep(step)
    requires step.PollSucceeds? ==> |step.work| <= Free(o, |s.loop.snap|)
    ensures CapacityInv(o, Apply(o, s, step))
  {
    if step.PollSucceeds? {
      SubsetSize(s.slots.inflight.Keys, s.loop.snap.Keys);
    } else if step.DispatchOne? {
      var id := s.loop.work[0].id;
      assert s.slots.inflight[id := |s.runs|].Keys == s.slots.inflight.Keys + {id};
    }
  }

  lemma CapacityRunStep(o: Options, s: State, step: Step)
    requires CapacityInv(o, s) && Enabled(o, s, step) && !LoopStep(step)
    ensures CapacityInv(o, Apply(o, s, step))
  {
    var s' := Apply(o, s, step);
    assert s'.loop == s.loop && s'.slots.inflight.Keys <= s.slots.inflight.Keys;
    SubsetSize(s'.slots.inflight.Keys, s.slots.inflight.Keys);
  }

  /**
   If every response carries at most the room its request reported, the
   in-flight set never exceeds the limit, in any interleaving.
   */
  lemma {:induction false} NeverOverCapacity(o: Options, states: seq<State>, steps: seq<Step>, i: nat)
    requires IsBehaviour(o, states, steps) && i < |states|
    requires ServerRespectsCapacity(o, states, steps)
    ensures CapacityInv(o, states[i])
    ensures |states[i].slots.inflight| <= Capacity(o)
    decreases i
  {
    if i > 0 {
      NeverOverCapacity(o, states, steps, i - 1);
      assert StepAt(o, states, steps, i - 1);
      if LoopStep(steps[i - 1]) {
        CapacityLoopStep(o, states[i - 1], steps[i - 1]);
      } else {
        CapacityRunStep(o, states[i - 1], steps[i - 1]);
      }
    }
  }

  /** One more enabled step makes a longer behaviour. */
  lemma Extend(o: Options, states: seq<State>, steps: seq<Step>, step: Step)
      returns (longer: seq<State>, taken: seq<Step>)
    requires IsBehaviour(o, states, steps) && Enabled(o, states[|steps|], step)
    ensures IsBehaviour(o, longer, taken) && states <= longer && longer[|taken|] == Apply(o, states[|steps|], step)
  {
    longer, taken := states + [Apply(o, states[|steps|], step)], steps + [step];
    forall i | 0 <= i < |taken| ensures StepAt(o, longer, taken, i) {
      assert i < |steps| ==> StepAt(o, states, steps, i);
    }
  }

  /** Assignments that would all be dispatched: acceptable, with different ids, none of them running. */
  predicate Fresh(inflight: map<Id, Handle>, work: seq<Assignment>)
    decreases |work|
  {
    work == [] ||
    (work[0].safe && work[0].id !in inflight && Fresh(inflight[work[0].id := 0], work[1..]))
  }

  /** Which handles the running ids have plays no part. */
  lemma {:induction false} FreshByKeys(a: map<Id, Handle>, b: map<Id, Handle>, work: seq<Assignment>)
    requires a.Keys == b.Keys && Fresh(a, work)
    ensures Fresh(b, work)
    decreases |work|
  {
    if work != [] {
      FreshByKeys(a[work[0].id := 0], b[work[0].id := 0], work[1..]);
    }
  }

  /** Steps of the loop alone that dispatch everything it holds. */
  lemma {:induction false} DispatchAll(o: Options, states: seq<State>, steps: seq<Step>)
      returns (longer: seq<State>, taken: seq<Step>)
    requires IsBehaviour(o, states, steps)
    requires states[|steps|].loop.Dispatching? && Fresh(states[|steps|].slots.inflight, states[|steps|].loop.work)
    ensures IsBehaviour(o, longer, taken) && states <= longer
    ensures |longer[|taken|].slots.inflight| == |states[|steps|].slots.inflight| + |states[|steps|].loop.work|
    decreases |states[|steps|].loop.work|
  {
    var s := states[|steps|];
    if s.loop.work == [] {
      longer, taken := states, steps;
    } else {
      var id := s.loop.work[0].id;
      var more, done := Extend(o, states, steps, DispatchOne);
      assert more[|done|].slots.inflight == s.slots.inflight[id := |s.runs|];
      FreshByKeys(s.slots.inflight[id := 0], s.slots.inflight[id := |s.runs|], s.loop.work[1..]);
      longer, taken := DispatchAll(o, more, done);
    }
  }

  /** A behaviour that goes on from the given states to one over the limit. */
  ghost predicate OverLimit(o: Options, states: seq<State>, longer: seq<State>, taken: seq<Step>) {
    IsBehaviour(o, longer, taken) && states <= longer && |longer[|taken|].slots.inflight| > Capacity(o)
  }

  /**
   Without that bargain the limit does not hold: from any poll during which no
   run has ended, a response with more fresh work than the reported room takes
   the loop over the limit.
   */
  lemma Overdelivered(o: Options, states: seq<State>, steps: seq<Step>, work: seq<Assignment>)
    requires IsBehaviour(o, states, steps)
    requires states[|steps|].loop.Polling? && states[|steps|].slots.inflight == states[|steps|].loop.snap
    requires Fresh(states[|steps|].loop.snap, work) && |work| > Free(o, |states[|steps|].loop.snap|)
    ensures exists longer, taken :: OverLimit(o, states, longer, taken)
  {
    var longer, taken := Extend(o, states, steps, PollSucceeds([], work));
    longer, taken := Extend(o, longer, taken, CancelsDone);
    longer, taken := DispatchAll(o, longer, taken);
    assert OverLimit(o, states, longer, taken);
  }

  /** For every limit there is such a run: the first poll of all. */
  lemma LimitRestsOnTheServer(o: Options, work: seq<Assignment>)
    requires Fresh(map[], work) && |work| > Capacity(o)
    ensures exists longer, taken :: OverLimit(o, [Init()], longer, taken)
  {
    var states, steps := Extend(o, [Init()], [], DiscardToken);
    states, steps := Extend(o, states, steps, Snapshot);
    Overdelivered(o, states, steps, work);
    var longer, taken :| OverLimit(o, states, longer, taken);
    assert OverLimit(o, [Init()], longer, taken);
  }
}
