/**
 The streaming log writer: handlers send events into a bounded channel, a
 flusher goroutine batches and posts them. Events, batches, and the flusher's
 flush loop.
 */
module LogBatches {
  import opened Sequences

  datatype WorkEvent = WorkEvent(level: string, message: string, fields: map<string, string>)

  /** What every event of one execution is stamped with; `tags` is empty for none. */
  datatype Origin = Origin(jobKey: string, runnerId: string, tags: string)

  const MAX_PER_POST: nat := 100
  const FLUSH_THRESHOLD: nat := 32
  const CHANNEL_CAPACITY: nat := 256

  function Stamp(fields: map<string, string>, key: string, value: string): map<string, string> {
    if key in fields then fields else fields[key := value]
  }

  /** The event as posted: stamped, without overwriting what the caller set. */
  function Enrich(o: Origin, e: WorkEvent): (r: WorkEvent)
    ensures r.level == e.level && r.message == e.message
    ensures forall k :: k in e.fields ==> k in r.fields && r.fields[k] == e.fields[k]
    ensures "job_key" !in e.fields ==> "job_key" in r.fields && r.fields["job_key"] == o.jobKey
    ensures "runner_id" !in e.fields ==> "runner_id" in r.fields && r.fields["runner_id"] == o.runnerId
    ensures "runner_tags" !in e.fields ==>
              if o.tags == "" then "runner_tags" !in r.fields
              else "runner_tags" in r.fields && r.fields["runner_tags"] == o.tags
    ensures forall k :: k in r.fields ==> k in e.fields || k in {"job_key", "runner_id", "runner_tags"}
  {
    var named := Stamp(Stamp(e.fields, "job_key", o.jobKey), "runner_id", o.runnerId);
    e.(fields := if o.tags == "" then named else Stamp(named, "runner_tags", o.tags))
  }

  function EnrichAll(o: Origin, es: seq<WorkEvent>): (r: seq<WorkEvent>)
    ensures |r| == |es|
  {
    seq(|es|, i requires 0 <= i < |es| => Enrich(o, es[i]))
  }

  lemma EnrichConcat(o: Origin, a: seq<WorkEvent>, b: seq<WorkEvent>)
    ensures EnrichAll(o, a + b) == EnrichAll(o, a) + EnrichAll(o, b)
  {
  }

  /** One call of `PushEvents`; `draining` tells the final flush from a running one. */
  datatype Post = Post(events: seq<WorkEvent>, draining: bool)

  /** Every event handed to `PushEvents`, in order. */
  function Posted(posts: seq<Post>): seq<WorkEvent> {
    if posts == [] then [] else Posted(posts[..|posts| - 1]) + posts[|posts| - 1].events
  }

  lemma PostedAppend(posts: seq<Post>, p: Post)
    ensures Posted(posts + [p]) == Posted(posts) + p.events
  {
    assert (posts + [p])[..|posts|] == posts;
  }

  function ChunkSize(buffer: seq<WorkEvent>): nat {
    if MAX_PER_POST > |buffer| then |buffer| else MAX_PER_POST
  }

  /** One turn of the flush loop: the first chunk of the buffer, as posted. */
  function NextPost(o: Origin, buffer: seq<WorkEvent>, draining: bool): Post {
    Post(EnrichAll(o, buffer[..ChunkSize(buffer)]), draining)
  }

  /** The posts a whole flush makes. */
  function Flushes(o: Origin, buffer: seq<WorkEvent>, draining: bool): seq<Post> {
    if buffer == [] then []
    else [NextPost(o, buffer, draining)] + Flushes(o, buffer[ChunkSize(buffer)..], draining)
  }

  lemma {:induction false} PostedConcat(a: seq<Post>, b: seq<Post>)
    ensures Posted(a + b) == Posted(a) + Posted(b)
    decreases |b|
  {
    if b == [] {
      assert a + b == a;
    } else {
      var n := |b| - 1;
      PostedConcat(a, b[..n]);
      assert a + b == (a + b[..n]) + [b[n]];
      PostedAppend(a + b[..n], b[n]);
      Assoc(Posted(a), Posted(b[..n]), b[n].events);
    }
  }

  lemma PostedOne(p: Post)
    ensures Posted([p]) == p.events
  {
    PostedAppend([], p);
    assert [] + [p] == [p];
  }

  /** Full posts but for the last, which is not empty. */
  predicate Chunked(posts: seq<Post>) {
    && (forall i :: 0 <= i < |posts| ==> 1 <= |posts[i].events| <= 100)
    && forall i :: 0 <= i < |posts| - 1 ==> |posts[i].events| == 100
  }

  lemma ChunkedCons(p: Post, rest: seq<Post>)
    requires Chunked(rest) && 1 <= |p.events| <= MAX_PER_POST
    requires rest == [] || |p.events| == MAX_PER_POST
    ensures Chunked([p] + rest)
  {
  }

  /** A flush posts the whole buffer, in order, in full chunks but for the last. */
  lemma {:induction false} FlushesAll(o: Origin, buffer: seq<WorkEvent>, draining: bool)
    ensures Posted(Flushes(o, buffer, draining)) == EnrichAll(o, buffer)
    ensures Chunked(Flushes(o, buffer, draining))
    decreases |buffer|
  {
    if buffer != [] {
      var n := ChunkSize(buffer);
      var p, rest := NextPost(o, buffer, draining), Flushes(o, buffer[n..], draining);
      FlushesAll(o, buffer[n..], draining);
      ChunkedCons(p, rest);
      PostedConcat([p], rest);
      PostedOne(p);
      EnrichConcat(o, buffer[..n], buffer[n..]);
      assert buffer == buffer[..n] + buffer[n..];
    }
  }

  /** A command on the channel: an event, or a flush request waiting on `ack`. */
  datatype Cmd = Event(event: WorkEvent) | Flush(ack: nat, before: nat)

  function Events(cmds: seq<Cmd>): seq<WorkEvent> {
    if cmds == [] then []
    else if cmds[0].Event? then [cmds[0].event] + Events(cmds[1..])
    else Events(cmds[1..])
  }

  function Acks(cmds: seq<Cmd>): seq<nat> {
    if cmds == [] then []
    else if cmds[0].Flush? then [cmds[0].ack] + Acks(cmds[1..])
    else Acks(cmds[1..])
  }

  lemma {:induction false} EventsConcat(a: seq<Cmd>, b: seq<Cmd>)
    ensures Events(a + b) == Events(a) + Events(b)
    decreases |a|
  {
    if a == [] {
      assert a + b == b;
    } else {
      assert (a + b)[1..] == a[1..] + b;
      EventsConcat(a[1..], b);
    }
  }

  /** A closed ack, with the number of posts that had been made by then. */
  datatype Closing = Closing(ack: nat, posts: nat)

  /** Acks closed one after another with no post in between. */
  function Closings(acks: seq<nat>, posts: nat): seq<Closing> {
    seq(|acks|, i requires 0 <= i < |acks| => Closing(acks[i], posts))
  }

  /** The flusher's own state, changed only by its goroutine. */
  class Flusher {
    const origin: Origin
    var buffer: seq<WorkEvent>
    var posts: seq<Post>
    var closed: seq<Closing>

    constructor (origin: Origin)
      ensures this.origin == origin && buffer == [] && posts == [] && closed == []
    {
      this.origin := origin;
      buffer := [];
      posts := [];
      closed := [];
    }

    /** The `flush` closure: post and drop one chunk after another. */
    method FlushBuffer(draining: bool)
      modifies this`buffer, this`posts
      ensures buffer == []
      ensures posts == old(posts) + Flushes(origin, old(buffer), draining)
      ensures Posted(posts[|old(posts)|..]) == EnrichAll(origin, old(buffer))
      ensures Chunked(posts[|old(posts)|..])
    {
      ghost var all := posts + Flushes(origin, buffer, draining);
      while |buffer| > 0
        invariant posts + Flushes(origin, buffer, draining) == all
        decreases |buffer|
      {
        var n := MAX_PER_POST;
        if n > |buffer| {
          n := |buffer|;
        }
        var chunk := EnrichFirst(n);
        Assoc(posts, [Post(chunk, draining)], Flushes(origin, buffer[n..], draining));
        posts := posts + [Post(chunk, draining)];
        buffer := buffer[n..];
      }
      assert posts + [] == posts;
      Appended(old(posts), Flushes(origin, old(buffer), draining));
      FlushesAll(origin, old(buffer), draining);
    }

    /** The chunk of a post: the first `n` events, stamped. */
    method EnrichFirst(n: nat) returns (chunk: seq<WorkEvent>)
      requires n <= |buffer|
      ensures chunk == EnrichAll(origin, buffer[..n])
    {
      chunk := [];
      for i := 0 to n
        invariant chunk == EnrichAll(origin, buffer[..i])
      {
        chunk := chunk + [Enrich(origin, buffer[i])];
      }
    }

    /** The running branch: an event may fill the buffer and flush it; a flush request posts, then acks. */
    method TakeCommand(cmd: Cmd)
      modifies this
      ensures var taken := old(buffer) + Events([cmd]);
        if cmd.Flush? || |taken| >= FLUSH_THRESHOLD
        then buffer == [] && posts == old(posts) + Flushes(origin, taken, false)
        else buffer == taken && posts == old(posts)
      ensures closed == old(closed) + Closings(Acks([cmd]), |posts|)
    {
      assert [cmd][1..] == [];
      match cmd
      case Event(e) =>
        assert Events([cmd]) == [e];
        buffer := buffer + [e];
        if |buffer| >= FLUSH_THRESHOLD {
          FlushBuffer(false);
        }
        assert Closings(Acks([cmd]), |posts|) == [] && closed + [] == closed;
      case Flush(ack, _) =>
        assert buffer + [] == buffer;
        FlushBuffer(false);
        closed := closed + [Closing(ack, |posts|)];
        assert Closings(Acks([cmd]), |posts|) == [Closing(ack, |posts|)];
    }

    /**
     The shutdown branch: empty the channel, closing acks on the way, then flush
     once and exit. Every ack is closed before the first of the last posts.
     */
    method DrainAndExit(queue: seq<Cmd>)
      modifies this
      ensures buffer == []
      ensures posts == old(posts) + Flushes(origin, old(buffer) + Events(queue), true)
      ensures closed == old(closed) + Closings(Acks(queue), |old(posts)|)
    {
      var left := queue;
      ghost var acks, taken := [], buffer + Events(queue);
      assert closed + Closings([], |posts|) == closed;
      while left != []
        invariant buffer + Events(left) == taken
        invariant acks + Acks(left) == Acks(queue)
        invariant closed == old(closed) + Closings(acks, |posts|)
        invariant posts == old(posts)
        decreases |left|
      {
        match left[0] {
          case Event(e) =>
            Assoc(buffer, [e], Events(left[1..]));
            buffer := buffer + [e];
          case Flush(ack, _) =>
            Assoc(acks, [ack], Acks(left[1..]));
            Assoc(old(closed), Closings(acks, |posts|), [Closing(ack, |posts|)]);
            assert Closings(acks + [ack], |posts|) == Closings(acks, |posts|) + [Closing(ack, |posts|)];
            closed := closed + [Closing(ack, |posts|)];
            acks := acks + [ack];
        }
        left := left[1..];
      }
      assert buffer == taken && acks == Acks(queue);
      FlushBuffer(true);
    }
  }
}
