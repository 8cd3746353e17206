/**
 When the runner waits, what wakes it, what starts and what cancels a run: laws over
 whole behaviours that say the loop does these things, not only that it is safe when
 it has done them.
 */
module RunnerPacing {
  import opened Wrappers
  import opened RunnerParts
  import opened RunnerProtocol
  import opened RunnerSafety

  // ----- A full runner waits, and only a full one -----

  /** The two ends of the capacity backoff. */
  predicate Waits(step: Step) {
    step.WakeUp? || step.BackoffElapses?
  }

  ghost predicate Waited(steps: seq<Step>, i: nat, j: nat)
    requires j <= |steps|
  {
    exists k :: i < k < j && Waits(steps[k])
  }

  /** Where the loop may be after a successful poll that reported `n` executions, up to its next snapshot. */
  predicate Paced(o: Options, n: nat, waited: bool, loop: Loop) {
    match loop
    case Cancelling(snap, _, _) => |snap| == n && !waited
    case Dispatching(snap, _) => |snap| == n && !waited
    case Backoff(_) => !waited && n >= o.maxInflight
    case Top => waited <==> n >= o.maxInflight
    case TokenDiscarded => waited <==> n >= o.maxInflight
    case Draining(_, _) => true
    case Returned(_) => true
    case _ => false
  }

  lemma PacedStep(o: Options, n: nat, waited: bool, s: State, step: Step)
    requires Paced(o, n, waited, s.loop) && Enabled(o, s, step) && !step.Snapshot?
    ensures Paced(o, n, waited || Waits(step), Apply(o, s, step).loop)
  {
  }

  lemma WaitedStep(steps: seq<Step>, i: nat, j: nat)
    requires i < j < |steps|
    ensures Waited(steps, i, j + 1) <==> Waited(steps, i, j) || Waits(steps[j])
  {
    if Waited(steps, i, j) {
      var k :| i < k < j && Waits(steps[k]);
      assert i < k < j + 1;
    }
  }

  lemma {:induction false} PacedUntil(o: Options, states: seq<State>, steps: seq<Step>, i: nat, j: nat, n: nat)
    requires IsBehaviour(o, states, steps) && i < j <= |steps| && steps[i].PollSucceeds?
    requires states[i].loop.Polling? && n == |states[i].loop.snap|
    requires forall k :: i < k < j ==> !steps[k].Snapshot?
    ensures Paced(o, n, Waited(steps, i, j), states[j].loop)
    decreases j
  {
    if j == i + 1 {
      assert StepAt(o, states, steps, i);
      assert !Waited(steps, i, j);
    } else {
      PacedUntil(o, states, steps, i, j - 1, n);
      assert StepAt(o, states, steps, j - 1);
      PacedStep(o, n, Waited(steps, i, j - 1), states[j - 1], steps[j - 1]);
      WaitedStep(steps, i, j - 1);
    }
  }

  /**
   Between a successful poll and the next snapshot the loop goes through the capacity
   backoff exactly if the poll reported at least as many executions as the limit.
   */
  lemma WaitsExactlyWhenFull(o: Options, states: seq<State>, steps: seq<Step>, i: nat, j: nat)
    requires IsBehaviour(o, states, steps) && i < j < |steps| && steps[i].PollSucceeds? && steps[j].Snapshot?
    requires forall k :: i < k < j ==> !steps[k].Snapshot?
    ensures states[i].loop.Polling?
    ensures (exists k :: i < k < j && (steps[k].WakeUp? || steps[k].BackoffElapses?))
       <==> |states[i].loop.snap| >= o.maxInflight
  {
    assert StepAt(o, states, steps, i) && StepAt(o, states, steps, j);
    PacedUntil(o, states, steps, i, j, |states[i].loop.snap|);
    assert Waited(steps, i, j) <==> exists k :: i < k < j && (steps[k].WakeUp? || steps[k].BackoffElapses?);
  }

  /** Where the loop may be after a failed poll that is not final. */
  predicate Retrying(elapsed: bool, loop: Loop) {
    match loop
    case RetryWait => !elapsed
    case Top => elapsed
    case TokenDiscarded => elapsed
    case Draining(_, _) => true
    case Returned(_) => true
    case _ => false
  }

  lemma RetryingStep(o: Options, elapsed: bool, s: State, step: Step)
    requires Retrying(elapsed, s.loop) && Enabled(o, s, step) && !step.Snapshot?
    ensures Retrying(elapsed || step.RetryElapses?, Apply(o, s, step).loop)
  {
  }

  ghost predicate Elapsed(steps: seq<Step>, i: nat, j: nat)
    requires j <= |steps|
  {
    exists k :: i < k < j && steps[k].RetryElapses?
  }

  lemma {:induction false} RetryingUntil(o: Options, states: seq<State>, steps: seq<Step>, i: nat, j: nat)
    requires IsBehaviour(o, states, steps) && i < j <= |steps| && steps[i].PollFails?
    requires forall k :: i < k < j ==> !steps[k].Snapshot?
    ensures Retrying(Elapsed(steps, i, j), states[j].loop)
    decreases j
  {
    if j == i + 1 {
      assert StepAt(o, states, steps, i);
      assert !Elapsed(steps, i, j);
    } else {
      RetryingUntil(o, states, steps, i, j - 1);
      assert StepAt(o, states, steps, j - 1);
      RetryingStep(o, Elapsed(steps, i, j - 1), states[j - 1], steps[j - 1]);
      if Elapsed(steps, i, j - 1) {
        var k :| i < k < j - 1 && steps[k].RetryElapses?;
        assert i < k < j;
      }
    }
  }

  /** After a failed poll there is no other before the retry delay has passed. */
  lemma RetriesAfterDelay(o: Options, states: seq<State>, steps: seq<Step>, i: nat, j: nat)
    requires IsBehaviour(o, states, steps) && i < j < |steps| && steps[i].PollFails? && steps[j].Snapshot?
    requires forall k :: i < k < j ==> !steps[k].Snapshot?
    ensures exists k :: i < k < j && steps[k].RetryElapses?
  {
    assert StepAt(o, states, steps, j);
    RetryingUntil(o, states, steps, i, j);
  }

  // ----- What wakes it -----

  /** Step `k` signalled a freed slot, and no token was received from then on. */
  ghost predicate SignalledAt(steps: seq<Step>, k: nat, i: nat)
    requires i <= |steps|
  {
    k < i && steps[k].SignalSlot? && forall m :: k < m < i ==> !steps[m].DiscardToken? && !steps[m].WakeUp?
  }

  lemma {:induction false} TokenWasSent(o: Options, states: seq<State>, steps: seq<Step>, i: nat)
    requires IsBehaviour(o, states, steps) && i <= |steps| && states[i].slots.token
    ensures exists k :: SignalledAt(steps, k, i)
    decreases i
  {
    if i > 0 {
      assert StepAt(o, states, steps, i - 1);
      if steps[i - 1].SignalSlot? {
        assert SignalledAt(steps, i - 1, i);
      } else {
        TokenWasSent(o, states, steps, i - 1);
        var k :| SignalledAt(steps, k, i - 1);
        assert SignalledAt(steps, k, i);
      }
    }
  }

  /** A wait ends early only for a slot freed after the loop last took a token, which it does before every snapshot. */
  lemma WakesForAFreedSlot(o: Options, states: seq<State>, steps: seq<Step>, j: nat)
    requires IsBehaviour(o, states, steps) && j < |steps| && steps[j].WakeUp?
    ensures exists k :: SignalledAt(steps, k, j)
  {
    assert StepAt(o, states, steps, j);
    TokenWasSent(o, states, steps, j);
  }

  // ----- Stopping -----

  ghost predicate StoppedBefore(steps: seq<Step>, i: nat)
    requires i <= |steps|
  {
    exists k :: 0 <= k < i && steps[k].Stop?
  }

  lemma {:induction false} StoppingMeansStop(o: Options, states: seq<State>, steps: seq<Step>, i: nat)
    requires IsBehaviour(o, states, steps) && i <= |steps|
    ensures states[i].stopping <==> StoppedBefore(steps, i)
    decreases i
  {
    if i > 0 {
      StoppingMeansStop(o, states, steps, i - 1);
      assert StepAt(o, states, steps, i - 1);
      if StoppedBefore(steps, i - 1) {
        var k :| 0 <= k < i - 1 && steps[k].Stop?;
        assert 0 <= k < i;
      }
    }
  }

  /** The loop ended without an error: it may only have been told to. */
  predicate EndedQuietly(loop: Loop) {
    (loop.Draining? || loop.Returned?) && loop.error.None?
  }

  lemma {:induction false} EndsQuietlyWhenStopped(o: Options, states: seq<State>, steps: seq<Step>, i: nat)
    requires IsBehaviour(o, states, steps) && i <= |steps| && EndedQuietly(states[i].loop)
    ensures exists k :: 0 <= k < i && steps[k].Stop?
    decreases i
  {
    StoppingMeansStop(o, states, steps, i);
    if i > 0 {
      assert StepAt(o, states, steps, i - 1);
      if EndedQuietly(states[i - 1].loop) {
        EndsQuietlyWhenStopped(o, states, steps, i - 1);
        var k :| 0 <= k < i - 1 && steps[k].Stop?;
        assert 0 <= k < i;
      }
    }
  }

  /** Once told to stop, the loop begins no further poll. */
  lemma NoPollBeginsAfterStop(o: Options, states: seq<State>, steps: seq<Step>, i: nat, j: nat)
    requires IsBehaviour(o, states, steps) && i < j < |steps| && steps[i].Stop?
    ensures !steps[j].DiscardToken? && !steps[j].PollFails?
  {
    StoppingMeansStop(o, states, steps, j);
    assert StepAt(o, states, steps, j);
  }

  /** A stop is heeded at once wherever the loop polls or waits, and ends it without an error. */
  lemma StopIsHeeded(o: Options, states: seq<State>, steps: seq<Step>, i: nat)
    requires IsBehaviour(o, states, steps) && i <= |steps| && StoppedBefore(steps, i)
    requires var loop := states[i].loop; loop.Top? || loop.Polling? || loop.Backoff? || loop.RetryWait?
    ensures Enabled(o, states[i], LoopExit) && EndedQuietly(Apply(o, states[i], LoopExit).loop)
  {
    StoppingMeansStop(o, states, steps, i);
  }

  /** A drain can time out exactly if something was in flight as it began. */
  lemma DrainIsTimed(o: Options, states: seq<State>, steps: seq<Step>, i: nat)
    requires IsBehaviour(o, states, steps) && i < |steps| && steps[i].DrainStarts?
    ensures Enabled(o, states[i + 1], DrainTimesOut) <==> states[i].slots.inflight != map[]
  {
    assert StepAt(o, states, steps, i);
  }

  // ----- What starts a run -----

  /** Some earlier response assigned the execution, with identifiers the ingest guard accepts. */
  ghost predicate Assigned(steps: seq<Step>, i: nat, id: Id)
    requires i <= |steps|
  {
    exists k :: 0 <= k < i && steps[k].PollSucceeds? && Assignment(id, true) in steps[k].work
  }

  ghost predicate WorkAssigned(steps: seq<Step>, i: nat, loop: Loop)
    requires i <= |steps|
  {
    loop.Cancelling? || loop.Dispatching? ==>
      forall a :: a in loop.work && a.safe ==> Assigned(steps, i, a.id)
  }

  lemma AssignedStays(steps: seq<Step>, i: nat, id: Id)
    requires i < |steps| && Assigned(steps, i, id)
    ensures Assigned(steps, i + 1, id)
  {
    var k :| 0 <= k < i && steps[k].PollSucceeds? && Assignment(id, true) in steps[k].work;
    assert 0 <= k < i + 1;
  }

  lemma {:induction false} WorkWasAssigned(o: Options, states: seq<State>, steps: seq<Step>, i: nat)
    requires IsBehaviour(o, states, steps) && i <= |steps|
    ensures WorkAssigned(steps, i, states[i].loop)
    decreases i
  {
    if i > 0 {
      WorkWasAssigned(o, states, steps, i - 1);
      assert StepAt(o, states, steps, i - 1);
      var loop, was := states[i].loop, states[i - 1].loop;
      if loop.Cancelling? || loop.Dispatching? {
        forall a | a in loop.work && a.safe ensures Assigned(steps, i, a.id) {
          if steps[i - 1].PollSucceeds? {
            assert a == Assignment(a.id, true);
          } else {
            assert a in was.work;
            AssignedStays(steps, i - 1, a.id);
          }
        }
      }
    }
  }

  /** Every run is of an execution a response assigned and the ingest guard let through. */
  lemma {:induction false} RunsWereAssigned(o: Options, states: seq<State>, steps: seq<Step>, i: nat, h: Handle)
    requires IsBehaviour(o, states, steps) && i <= |steps| && h < |states[i].runs|
    ensures Assigned(steps, i, states[i].runs[h].id)
    decreases i
  {
    if i > 0 {
      assert StepAt(o, states, steps, i - 1);
      if h < |states[i - 1].runs| {
        RunsWereAssigned(o, states, steps, i - 1, h);
        RunStep(o, states[i - 1], steps[i - 1], h);
        AssignedStays(steps, i - 1, states[i].runs[h].id);
      } else {
        WorkWasAssigned(o, states, steps, i - 1);
        var a := states[i - 1].loop.work[0];
        assert a in states[i - 1].loop.work;
        AssignedStays(steps, i - 1, a.id);
      }
    }
  }

  /** And every such assignment that is not running already starts one, over the limit or not. */
  lemma AssignmentsStart(o: Options, states: seq<State>, steps: seq<Step>, i: nat)
    requires IsBehaviour(o, states, steps) && i < |steps| && steps[i].DispatchOne?
    requires assert StepAt(o, states, steps, i);
             states[i].loop.work[0].safe && states[i].loop.work[0].id !in states[i].slots.inflight
    ensures var id, h := states[i].loop.work[0].id, |states[i].runs|;
            && states[i + 1].runs == states[i].runs + [Run(id, Handling, [], false)]
            && states[i + 1].slots.inflight == states[i].slots.inflight[id := h]
  {
    assert StepAt(o, states, steps, i);
  }

  // ----- What cancels one -----

  /** A drain that runs out of time cancels every live run, and leaves the finished ones alone. */
  lemma DrainCancelsTheRest(o: Options, states: seq<State>, steps: seq<Step>, i: nat, h: Handle)
    requires Ready(o) && IsBehaviour(o, states, steps) && i < |steps| && steps[i].DrainTimesOut?
    requires h < |states[i].runs|
    ensures h < |states[i + 1].runs|
    ensures states[i + 1].runs[h].cancelled <==> states[i].runs[h].cancelled || Live(states[i].runs[h])
  {
    InvAlways(o, states, steps, i);
    assert StepAt(o, states, steps, i);
    var s := states[i];
    if Live(s.runs[h]) {
      assert s.runs[h].id in s.slots.inflight && s.slots.inflight[s.runs[h].id] == h;
      assert h in s.slots.inflight.Values;
    } else {
      assert h !in s.slots.inflight.Values;
    }
  }

  /** Nothing else cancels a run: the server by its id, or a drain out of time. */
  lemma CancelledOnlyWhenAsked(o: Options, states: seq<State>, steps: seq<Step>, i: nat, h: Handle)
    requires Ready(o) && IsBehaviour(o, states, steps) && i < |steps| && h < |states[i].runs|
    requires !states[i].runs[h].cancelled
    ensures h < |states[i + 1].runs|
    ensures states[i + 1].runs[h].cancelled && !steps[i].DrainTimesOut? ==>
              && steps[i].CancelOne? && states[i].loop.Cancelling? && states[i].loop.cancels != []
              && states[i].loop.cancels[0] == states[i].runs[h].id
  {
    assert StepAt(o, states, steps, i);
    RunStep(o, states[i], steps[i], h);
    if steps[i].CancelOne? {
      CancelReachesTheRun(o, states, steps, i, h);
    }
  }

  // ----- Acks, in numbers -----

  /**
   A complete ack sequence: one to three attempts; all but the last had no answer or a
   status of 500 or more; the last is the third, or was accepted, or was refused with
   a lower status.
   */
  lemma AckCompleteExact(acks: seq<AckReply>)
    ensures AckComplete(acks) <==>
              && 1 <= |acks| <= 3
              && (forall k :: 0 <= k < |acks| - 1 ==> acks[k].NoAnswer? || (acks[k].Refused? && acks[k].status >= 500))
              && (|acks| == 3 || acks[|acks| - 1].Accepted?
                  || (acks[|acks| - 1].Refused? && acks[|acks| - 1].status < 500))
  {
  }
}
