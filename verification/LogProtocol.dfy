/**
 The writer as a protocol: any number of senders, one shutdown signal and one
 flusher, interleaved. Nothing is lost, duplicated or reordered on the way to
 `PushEvents`; what an acknowledged flush means depends on when it is closed.
 */
module LogProtocol {
  import opened Sequences
  import opened LogBatches

  /** What the flusher does once a running flush is over. */
  datatype After = Resume | CloseAck(ack: nat, before: nat)

  datatype Mode =
    | Idle                     // waiting in the select
    | Flushing(after: After)
    | Draining                 // the shutdown branch, emptying the channel
    | FinalFlush
    | Exited

  /** A closed flush ack: how many events the channel had accepted before the request. */
  datatype Closed = Closed(ack: nat, before: nat, running: bool)

  datatype State = State(
    channel: seq<Cmd>,
    accepted: seq<WorkEvent>,  // every event the channel ever took
    buffer: seq<WorkEvent>,
    posts: seq<Post>,
    mode: Mode,
    closed: seq<Closed>,
    shutdown: bool,
    atShutdown: nat            // events accepted before the shutdown signal
  )

  datatype Step =
    | Send(event: WorkEvent)
    | RequestFlush(ack: nat)
    | Shutdown
    | TakeEvent
    | TakeFlush
    | Tick
    | PostChunk
    | FlushEnds
    | BeginDrain
    | DrainTake
    | DrainEmpty
    | Exit

  function Init(): State {
    State([], [], [], [], Idle, [], false, 0)
  }

  predicate Enabled(s: State, step: Step) {
    match step
    case Send(_) => |s.channel| < CHANNEL_CAPACITY
    case RequestFlush(_) => |s.channel| < CHANNEL_CAPACITY
    case Shutdown => !s.shutdown
    case TakeEvent => s.mode.Idle? && s.channel != [] && s.channel[0].Event?
    case TakeFlush => s.mode.Idle? && s.channel != [] && s.channel[0].Flush?
    case Tick => s.mode.Idle?
    case PostChunk => (s.mode.Flushing? || s.mode.FinalFlush?) && s.buffer != []
    case FlushEnds => s.mode.Flushing? && s.buffer == []
    case BeginDrain => s.mode.Idle? && s.shutdown
    case DrainTake => s.mode.Draining? && s.channel != []
    case DrainEmpty => s.mode.Draining? && s.channel == []
    case Exit => s.mode.FinalFlush? && s.buffer == []
  }

  function Apply(o: Origin, s: State, step: Step): State
    requires Enabled(s, step)
  {
    match step
    case Send(e) => s.(channel := s.channel + [Event(e)], accepted := s.accepted + [e])
    case RequestFlush(ack) => s.(channel := s.channel + [Flush(ack, |s.accepted|)])
    case Shutdown => s.(shutdown := true, atShutdown := |s.accepted|)
    case TakeEvent =>
      var buffer := s.buffer + [s.channel[0].event];
      s.(channel := s.channel[1..], buffer := buffer,
         mode := if |buffer| >= FLUSH_THRESHOLD then Flushing(Resume) else Idle)
    case TakeFlush =>
      s.(channel := s.channel[1..], mode := Flushing(CloseAck(s.channel[0].ack, s.channel[0].before)))
    case Tick => s.(mode := Flushing(Resume))
    case PostChunk =>
      s.(posts := s.posts + [NextPost(o, s.buffer, s.mode.FinalFlush?)],
         buffer := s.buffer[ChunkSize(s.buffer)..])
    case FlushEnds =>
      s.(mode := Idle, closed := match s.mode.after
                                 case Resume => s.closed
                                 case CloseAck(ack, before) => s.closed + [Closed(ack, before, true)])
    case BeginDrain => s.(mode := Draining)
    case DrainTake =>
      (match s.channel[0]
       case Event(e) => s.(channel := s.channel[1..], buffer := s.buffer + [e])
       case Flush(ack, before) =>
         s.(channel := s.channel[1..], closed := s.closed + [Closed(ack, before, false)]))
    case DrainEmpty => s.(mode := FinalFlush)
    case Exit => s.(mode := Exited)
  }

  ghost predicate StepAt(o: Origin, states: seq<State>, steps: seq<Step>, i: nat)
    requires i < |steps| < |states|
  {
    Enabled(states[i], steps[i]) && states[i + 1] == Apply(o, states[i], steps[i])
  }

  /** A behaviour: from the initial state, one enabled step after another. */
  ghost predicate IsBehaviour(o: Origin, states: seq<State>, steps: seq<Step>) {
    && |states| == |steps| + 1
    && states[0] == Init()
    && forall i :: 0 <= i < |steps| ==> StepAt(o, states, steps, i)
  }

  // ----- Invariants -----

  /** Posted, then buffered, then queued: together exactly what was accepted, in order. */
  ghost predicate Conserved(o: Origin, s: State) {
    Posted(s.posts) + EnrichAll(o, s.buffer + Events(s.channel)) == EnrichAll(o, s.accepted)
  }

  predicate PostSizes(posts: seq<Post>) {
    forall i :: 0 <= i < |posts| ==>
      1 <= |posts[i].events| <= if posts[i].draining then MAX_PER_POST else FLUSH_THRESHOLD
  }

  predicate SizeInv(s: State) {
    && PostSizes(s.posts)
    && |s.channel| <= CHANNEL_CAPACITY
    && (s.mode.Idle? ==> |s.buffer| < FLUSH_THRESHOLD)
    && (s.mode.Flushing? ==> |s.buffer| <= FLUSH_THRESHOLD)
  }

  /** A queued flush request stands behind exactly the events accepted before it. */
  ghost predicate QueuedAt(s: State, i: nat)
    requires i < |s.channel|
  {
    s.channel[i].Flush? ==>
      s.channel[i].before == |Posted(s.posts)| + |s.buffer| + |Events(s.channel[..i])|
  }

  ghost predicate FlushInv(s: State) {
    && (forall i :: 0 <= i < |s.channel| ==> QueuedAt(s, i))
    && (s.mode.Flushing? && s.mode.after.CloseAck? ==>
          s.mode.after.before == |Posted(s.posts)| + |s.buffer|)
    && (forall i :: 0 <= i < |s.closed| ==>
          s.closed[i].before <= |Posted(s.posts)| + if s.closed[i].running then 0 else |s.buffer|)
  }

  ghost predicate ShutdownInv(s: State) {
    && (s.mode.Draining? || s.mode.FinalFlush? || s.mode.Exited? ==> s.shutdown)
    && (s.shutdown ==> s.atShutdown <= |s.accepted|)
    && (s.mode.FinalFlush? || s.mode.Exited? ==> s.atShutdown <= |Posted(s.posts)| + |s.buffer|)
    && (s.mode.Exited? ==> s.buffer == [])
  }

  ghost predicate Inv(o: Origin, s: State) {
    Conserved(o, s) && SizeInv(s) && FlushInv(s) && ShutdownInv(s)
  }

  // ----- Preservation -----

  lemma EventsTake(cmds: seq<Cmd>)
    requires cmds != []
    ensures Events(cmds) == Events([cmds[0]]) + Events(cmds[1..])
  {
    assert cmds == [cmds[0]] + cmds[1..];
    EventsConcat([cmds[0]], cmds[1..]);
  }

  lemma ConservedSend(o: Origin, s: State, e: WorkEvent)
    requires Conserved(o, s) && Enabled(s, Send(e))
    ensures Conserved(o, Apply(o, s, Send(e)))
  {
    EventsConcat(s.channel, [Event(e)]);
    assert s.buffer + (Events(s.channel) + [e]) == (s.buffer + Events(s.channel)) + [e];
    EnrichConcat(o, s.buffer + Events(s.channel), [e]);
    EnrichConcat(o, s.accepted, [e]);
  }

  lemma ConservedPost(o: Origin, s: State)
    requires Conserved(o, s) && Enabled(s, PostChunk)
    ensures Conserved(o, Apply(o, s, PostChunk))
  {
    var n := ChunkSize(s.buffer);
    var p := NextPost(o, s.buffer, s.mode.FinalFlush?);
    PostedAppend(s.posts, p);
    assert s.buffer + Events(s.channel) == s.buffer[..n] + (s.buffer[n..] + Events(s.channel));
    var rest := s.buffer[n..] + Events(s.channel);
    EnrichConcat(o, s.buffer[..n], rest);
    Assoc(Posted(s.posts), p.events, EnrichAll(o, rest));
  }

  /** Chunk by chunk, the protocol's flush makes the posts of the flush loop. */
  lemma PostChunkFollowsFlush(o: Origin, s: State)
    requires Enabled(s, PostChunk)
    ensures var s' := Apply(o, s, PostChunk);
            s'.posts + Flushes(o, s'.buffer, s.mode.FinalFlush?) == s.posts + Flushes(o, s.buffer, s.mode.FinalFlush?)
  {
    var p := NextPost(o, s.buffer, s.mode.FinalFlush?);
    var rest := Flushes(o, s.buffer[ChunkSize(s.buffer)..], s.mode.FinalFlush?);
    assert (s.posts + [p]) + rest == s.posts + ([p] + rest);
  }

  lemma ConservedStep(o: Origin, s: State, step: Step)
    requires Conserved(o, s) && Enabled(s, step)
    ensures Conserved(o, Apply(o, s, step))
  {
    match step
    case Send(e) => ConservedSend(o, s, e);
    case RequestFlush(ack) =>
      EventsConcat(s.channel, [Flush(ack, |s.accepted|)]);
      assert Events(s.channel) + [] == Events(s.channel);
    case TakeEvent =>
      EventsTake(s.channel);
      assert s.buffer + Events(s.channel) == (s.buffer + [s.channel[0].event]) + Events(s.channel[1..]);
    case DrainTake =>
      EventsTake(s.channel);
      if s.channel[0].Event? {
        assert s.buffer + Events(s.channel) == (s.buffer + [s.channel[0].event]) + Events(s.channel[1..]);
      }
    case PostChunk => ConservedPost(o, s);
    case _ =>
  }

  lemma SizeStep(o: Origin, s: State, step: Step)
    requires SizeInv(s) && Enabled(s, step)
    ensures SizeInv(Apply(o, s, step))
  {
  }

  /** Posted and buffered together: what has left the channel. */
  ghost function Taken(s: State): nat {
    |Posted(s.posts)| + |s.buffer|
  }

  lemma ConservedCount(o: Origin, s: State)
    requires Conserved(o, s)
    ensures |s.accepted| == Taken(s) + |Events(s.channel)|
  {
  }

  lemma TakenStep(o: Origin, s: State, step: Step)
    requires Enabled(s, step)
    ensures Taken(Apply(o, s, step))
         == Taken(s) + if (step.TakeEvent? || step.DrainTake?) && s.channel[0].Event? then 1 else 0
    ensures |Posted(s.posts)| <= |Posted(Apply(o, s, step).posts)|
  {
    if step.PostChunk? {
      PostedAppend(s.posts, NextPost(o, s.buffer, s.mode.FinalFlush?));
    }
  }

  /** Taking the head of the channel leaves the rest of the queue where it stood. */
  lemma QueueAfterTake(s: State, s': State)
    requires s.channel != [] && s'.channel == s.channel[1..]
    requires Taken(s') == Taken(s) + |Events([s.channel[0]])|
    requires forall i :: 0 <= i < |s.channel| ==> QueuedAt(s, i)
    ensures forall i :: 0 <= i < |s'.channel| ==> QueuedAt(s', i)
  {
    forall i | 0 <= i < |s'.channel|
      ensures QueuedAt(s', i)
    {
      assert QueuedAt(s, i + 1);
      assert s.channel[..i + 1] == [s.channel[0]] + s'.channel[..i];
      EventsConcat([s.channel[0]], s'.channel[..i]);
    }
  }

  lemma QueueAfterAppend(s: State, s': State, c: Cmd)
    requires s'.channel == s.channel + [c] && Taken(s') == Taken(s)
    requires forall i :: 0 <= i < |s.channel| ==> QueuedAt(s, i)
    requires c.Flush? ==> c.before == Taken(s) + |Events(s.channel)|
    ensures forall i :: 0 <= i < |s'.channel| ==> QueuedAt(s', i)
  {
    forall i | 0 <= i < |s'.channel|
      ensures QueuedAt(s', i)
    {
      assert s'.channel[..i] == s.channel[..i];
      if i < |s.channel| {
        assert QueuedAt(s, i);
      } else {
        assert s.channel[..i] == s.channel;
      }
    }
  }

  lemma QueueStep(o: Origin, s: State, step: Step)
    requires Conserved(o, s) && FlushInv(s) && Enabled(s, step)
    ensures forall i :: 0 <= i < |Apply(o, s, step).channel| ==> QueuedAt(Apply(o, s, step), i)
  {
    var s' := Apply(o, s, step);
    TakenStep(o, s, step);
    ConservedCount(o, s);
    if step.Send? {
      QueueAfterAppend(s, s', Event(step.event));
    } else if step.RequestFlush? {
      QueueAfterAppend(s, s', Flush(step.ack, |s.accepted|));
    } else if step.TakeEvent? || step.TakeFlush? || step.DrainTake? {
      QueueAfterTake(s, s');
    } else {
      forall i | 0 <= i < |s'.channel|
        ensures QueuedAt(s', i)
      {
        assert QueuedAt(s, i);
      }
    }
  }

  lemma HeadFlush(s: State)
    requires FlushInv(s) && s.channel != [] && s.channel[0].Flush?
    ensures s.channel[0].before == Taken(s)
  {
    assert QueuedAt(s, 0);
  }

  lemma FlushStep(o: Origin, s: State, step: Step)
    requires Conserved(o, s) && FlushInv(s) && Enabled(s, step)
    ensures FlushInv(Apply(o, s, step))
  {
    QueueStep(o, s, step);
    TakenStep(o, s, step);
    if (step.TakeFlush? || step.DrainTake?) && s.channel[0].Flush? {
      HeadFlush(s);
    }
  }

  lemma ShutdownStep(o: Origin, s: State, step: Step)
    requires Conserved(o, s) && ShutdownInv(s) && Enabled(s, step)
    ensures ShutdownInv(Apply(o, s, step))
  {
    TakenStep(o, s, step);
    ConservedCount(o, s);
  }

  lemma InvInit(o: Origin)
    ensures Inv(o, Init())
  {
  }

  lemma InvStep(o: Origin, s: State, step: Step)
    requires Inv(o, s) && Enabled(s, step)
    ensures Inv(o, Apply(o, s, step))
  {
    ConservedStep(o, s, step);
    SizeStep(o, s, step);
    FlushStep(o, s, step);
    ShutdownStep(o, s, step);
  }

  lemma {:induction false} InvAlways(o: Origin, states: seq<State>, steps: seq<Step>, i: nat)
    requires IsBehaviour(o, states, steps) && i < |states|
    ensures Inv(o, states[i])
    decreases i
  {
    if i == 0 {
      InvInit(o);
    } else {
      InvAlways(o, states, steps, i - 1);
      assert StepAt(o, states, steps, i - 1);
      InvStep(o, states[i - 1], steps[i - 1]);
    }
  }

  // ----- Guarantees -----

  /** The events posted so far are a prefix of the events accepted, stamped. */
  lemma PostedIsPrefix(o: Origin, states: seq<State>, steps: seq<Step>, i: nat)
    requires IsBehaviour(o, states, steps) && i < |states|
    ensures Conserved(o, states[i])
    ensures Posted(states[i].posts) <= EnrichAll(o, states[i].accepted)
    ensures forall p :: p in states[i].posts ==> 1 <= |p.events| <= if p.draining then 100 else 32
    ensures |states[i].channel| <= 256
    ensures forall e :: Enabled(states[i], Send(e)) <==> |states[i].channel| < 256
    ensures forall ack :: Enabled(states[i], RequestFlush(ack)) <==> |states[i].channel| < 256
  {
    InvAlways(o, states, steps, i);
  }

  lemma PrefixOfPosted(o: Origin, s: State, n: nat)
    requires Conserved(o, s) && n <= |Posted(s.posts)|
    ensures n <= |s.accepted| && EnrichAll(o, s.accepted[..n]) == Posted(s.posts)[..n]
  {
    assert EnrichAll(o, s.accepted)[..n] == Posted(s.posts)[..n];
    assert EnrichAll(o, s.accepted[..n]) == EnrichAll(o, s.accepted)[..n];
  }

  /**
   A flush ack closed by the running flusher means that every event accepted
   before the request has been handed to `PushEvents`.
   */
  lemma RunningFlushIsComplete(o: Origin, states: seq<State>, steps: seq<Step>, i: nat, c: Closed)
    requires IsBehaviour(o, states, steps) && i < |states| && c in states[i].closed && c.running
    ensures c.before <= |Posted(states[i].posts)| && c.before <= |states[i].accepted|
    ensures EnrichAll(o, states[i].accepted[..c.before]) == Posted(states[i].posts)[..c.before]
  {
    InvAlways(o, states, steps, i);
    PrefixOfPosted(o, states[i], c.before);
  }

  /**
   During the shutdown drain an ack is closed before the final flush: at that
   moment the events before the request are all posted exactly when the buffer
   is empty.
   */
  lemma DrainFlushExact(o: Origin, states: seq<State>, steps: seq<Step>, i: nat)
    requires IsBehaviour(o, states, steps) && i < |steps|
    requires steps[i].DrainTake? && (assert StepAt(o, states, steps, i); states[i].channel[0].Flush?)
    ensures states[i].channel[0].before <= |Posted(states[i + 1].posts)| <==> states[i].buffer == []
  {
    InvAlways(o, states, steps, i);
    assert StepAt(o, states, steps, i);
    HeadFlush(states[i]);
  }

  /** Once the flusher has exited, every ack it closed, in either state, is honoured. */
  lemma ExitHonoursAcks(o: Origin, states: seq<State>, steps: seq<Step>, i: nat, c: Closed)
    requires IsBehaviour(o, states, steps) && i < |states| && states[i].mode.Exited? && c in states[i].closed
    ensures c.before <= |Posted(states[i].posts)|
  {
    InvAlways(o, states, steps, i);
  }

  /** Everything accepted before the shutdown signal has been posted when the flusher exits. */
  lemma ShutdownPostsEverything(o: Origin, states: seq<State>, steps: seq<Step>, i: nat)
    requires IsBehaviour(o, states, steps) && i < |states| && states[i].mode.Exited?
    ensures states[i].atShutdown <= |Posted(states[i].posts)| && states[i].atShutdown <= |states[i].accepted|
    ensures EnrichAll(o, states[i].accepted[..states[i].atShutdown]) == Posted(states[i].posts)[..states[i].atShutdown]
  {
    InvAlways(o, states, steps, i);
    PrefixOfPosted(o, states[i], states[i].atShutdown);
  }

  /** A concrete drain in which a flush is acknowledged with an event still unposted. */
  lemma DrainAckTooEarly(o: Origin, e: WorkEvent) returns (states: seq<State>, steps: seq<Step>)
    ensures IsBehaviour(o, states, steps)
    ensures |states[|steps|].closed| == 1 && states[|steps|].closed[0].before == 1
    ensures states[|steps|].posts == []
  {
    var s0 := Init();
    var s1 := Apply(o, s0, Send(e));
    var s2 := Apply(o, s1, RequestFlush(0));
    assert s2.channel == [Event(e), Flush(0, 1)] && s2.channel[1..] == [Flush(0, 1)];
    var s3 := Apply(o, s2, Shutdown);
    var s4 := Apply(o, s3, BeginDrain);
    var s5 := Apply(o, s4, DrainTake);
    var s6 := Apply(o, s5, DrainTake);
    steps := [Send(e), RequestFlush(0), Shutdown, BeginDrain, DrainTake, DrainTake];
    states := [s0, s1, s2, s3, s4, s5, s6];
  }

  // ----- Flushes happen, and are complete -----

  lemma {:induction false} FlushRuns(o: Origin, states: seq<State>, steps: seq<Step>, i: nat, j: nat)
    requires IsBehaviour(o, states, steps) && i <= j < |states| && states[i].mode.Flushing?
    requires forall k :: i <= k < j ==> states[k].mode.Flushing?
    ensures Posted(states[j].posts) + EnrichAll(o, states[j].buffer)
         == Posted(states[i].posts) + EnrichAll(o, states[i].buffer)
    ensures !states[j].mode.Flushing? ==> states[j].buffer == [] && states[j].mode.Idle?
    decreases j
  {
    if i < j {
      FlushRuns(o, states, steps, i, j - 1);
      assert StepAt(o, states, steps, j - 1);
      if steps[j - 1].PostChunk? {
        ChunkMoves(o, states[j - 1]);
      }
    }
  }

  lemma ChunkMoves(o: Origin, s: State)
    requires Enabled(s, PostChunk)
    ensures var t := Apply(o, s, PostChunk);
            Posted(t.posts) + EnrichAll(o, t.buffer) == Posted(s.posts) + EnrichAll(o, s.buffer)
  {
    var n := ChunkSize(s.buffer);
    var p := NextPost(o, s.buffer, s.mode.FinalFlush?);
    PostedAppend(s.posts, p);
    assert s.buffer == s.buffer[..n] + s.buffer[n..];
    EnrichConcat(o, s.buffer[..n], s.buffer[n..]);
    Assoc(Posted(s.posts), p.events, EnrichAll(o, s.buffer[n..]));
  }

  /** What starts a flush: the ticker, a flush request, and the 32nd buffered event. */
  predicate StartsFlush(s: State, step: Step) {
    step.Tick? || step.TakeFlush? || (step.TakeEvent? && |s.buffer| == 31)
  }

  /** The flusher leaves its select for a flush in exactly these cases. */
  lemma FlushesExactlyWhenDue(o: Origin, states: seq<State>, steps: seq<Step>, i: nat)
    requires IsBehaviour(o, states, steps) && i < |steps| && states[i].mode.Idle?
    ensures states[i + 1].mode.Flushing? <==> StartsFlush(states[i], steps[i])
  {
    InvAlways(o, states, steps, i);
    assert StepAt(o, states, steps, i);
  }

  /** When a flush is over, what was buffered as it began has been posted, in order, and the buffer is empty. */
  lemma FlushPostsTheBuffer(o: Origin, states: seq<State>, steps: seq<Step>, i: nat, j: nat)
    requires IsBehaviour(o, states, steps) && i < j < |states| && states[i].mode.Idle?
    requires StartsFlush(states[i], steps[i]) && states[j].mode.Idle?
    requires forall k :: i < k < j ==> !states[k].mode.Idle?
    ensures states[j].buffer == []
    ensures Posted(states[j].posts) == Posted(states[i].posts) + EnrichAll(o, states[i + 1].buffer)
  {
    FlushesExactlyWhenDue(o, states, steps, i);
    assert StepAt(o, states, steps, i);
    StaysFlushing(o, states, steps, i + 1, j);
    FlushRuns(o, states, steps, i + 1, j);
    assert Posted(states[j].posts) + EnrichAll(o, states[j].buffer) == Posted(states[j].posts);
  }

  lemma {:induction false} StaysFlushing(o: Origin, states: seq<State>, steps: seq<Step>, i: nat, j: nat)
    requires IsBehaviour(o, states, steps) && i <= j < |states| && states[i].mode.Flushing?
    requires forall k :: i <= k < j ==> !states[k].mode.Idle?
    ensures forall k :: i <= k < j ==> states[k].mode.Flushing?
    decreases j
  {
    if i < j {
      StaysFlushing(o, states, steps, i, j - 1);
      if i < j - 1 {
        assert StepAt(o, states, steps, j - 2);
      }
    }
  }

  // ----- Every flush request is acknowledged in turn -----

  function Requested(steps: seq<Step>): seq<nat> {
    if steps == [] then []
    else Requested(steps[..|steps| - 1]) + match steps[|steps| - 1]
                                           case RequestFlush(ack) => [ack]
                                           case _ => []
  }

  function ClosedAcks(closed: seq<Closed>): (acks: seq<nat>)
    ensures |acks| == |closed| && forall i :: 0 <= i < |closed| ==> acks[i] == closed[i].ack
  {
    seq(|closed|, i requires 0 <= i < |closed| => closed[i].ack)
  }

  /** The request a running flush will acknowledge when it ends. */
  function Pending(mode: Mode): seq<nat> {
    if mode.Flushing? && mode.after.CloseAck? then [mode.after.ack] else []
  }

  lemma {:induction false} AcksAppend(cmds: seq<Cmd>, cmd: Cmd)
    ensures Acks(cmds + [cmd]) == Acks(cmds) + if cmd.Flush? then [cmd.ack] else []
    decreases |cmds|
  {
    if cmds == [] {
      assert cmds + [cmd] == [cmd] && [cmd][1..] == [];
    } else {
      assert (cmds + [cmd])[1..] == cmds[1..] + [cmd];
      AcksAppend(cmds[1..], cmd);
    }
  }

  lemma ClosedAppend(closed: seq<Closed>, c: Closed)
    ensures ClosedAcks(closed + [c]) == ClosedAcks(closed) + [c.ack]
  {
  }

  function AcksOf(s: State): seq<nat> {
    ClosedAcks(s.closed) + Pending(s.mode) + Acks(s.channel)
  }

  lemma AcksStep(o: Origin, s: State, step: Step)
    requires Enabled(s, step)
    ensures AcksOf(Apply(o, s, step)) == AcksOf(s) + if step.RequestFlush? then [step.ack] else []
  {
    match step
    case Send(e) => AcksAppend(s.channel, Event(e));
    case RequestFlush(ack) => AcksAppend(s.channel, Flush(ack, |s.accepted|));
    case FlushEnds =>
      if s.mode.after.CloseAck? {
        ClosedAppend(s.closed, Closed(s.mode.after.ack, s.mode.after.before, true));
      }
    case DrainTake =>
      if s.channel[0].Flush? {
        ClosedAppend(s.closed, Closed(s.channel[0].ack, s.channel[0].before, false));
      }
    case _ =>
  }

  /** Acks closed, pending and queued are together the flush requests, in the order they were made. */
  lemma {:induction false} AcksInOrder(o: Origin, states: seq<State>, steps: seq<Step>, i: nat)
    requires IsBehaviour(o, states, steps) && i < |states|
    ensures ClosedAcks(states[i].closed) + Pending(states[i].mode) + Acks(states[i].channel) == Requested(steps[..i])
    decreases i
  {
    if i > 0 {
      AcksInOrder(o, states, steps, i - 1);
      assert StepAt(o, states, steps, i - 1);
      AcksStep(o, states[i - 1], steps[i - 1]);
      assert steps[..i][..i - 1] == steps[..i - 1];
    }
  }

  // ----- The shutdown -----

  lemma {:induction false} ShutdownMark(o: Origin, states: seq<State>, steps: seq<Step>, k: nat, i: nat)
    requires IsBehaviour(o, states, steps) && k < i < |states| && steps[k].Shutdown?
    ensures states[i].shutdown && states[i].atShutdown == |states[k].accepted|
    ensures states[k].accepted <= states[i].accepted
    decreases i
  {
    assert StepAt(o, states, steps, i - 1);
    if k < i - 1 {
      ShutdownMark(o, states, steps, k, i - 1);
    }
  }

  /** Whatever had been accepted when the shutdown was signalled has been posted, first, when the flusher exits. */
  lemma ShutdownLosesNothing(o: Origin, states: seq<State>, steps: seq<Step>, k: nat, i: nat)
    requires IsBehaviour(o, states, steps) && k < i < |states| && steps[k].Shutdown? && states[i].mode.Exited?
    ensures EnrichAll(o, states[k].accepted) <= Posted(states[i].posts)
  {
    ShutdownMark(o, states, steps, k, i);
    ShutdownPostsEverything(o, states, steps, i);
    assert states[i].accepted[..|states[k].accepted|] == states[k].accepted;
  }
}
