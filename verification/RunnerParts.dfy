/**
 The sequential parts of the Go runner: the shared in-flight map with its
 one-slot wake-up token, the bounded ack loop, and the streak counters that
 decide when a failing poll is final.
 */
module RunnerParts {
  import opened Wrappers

  type Id = string

  /** Stands for one run's cancel function: the position of the run. */
  type Handle = nat

  // ----- The shared slots -----

  /** What the runner's goroutines share: the in-flight map and the `slotFreed` token. */
  datatype Slots = Slots(inflight: map<Id, Handle>, token: bool) {
    /** `dispatch` under its lock: refused when the id is already running. */
    function Admit(id: Id, h: Handle): (Slots, bool) {
      if id in inflight then (this, false) else (this.(inflight := inflight[id := h]), true)
    }

    /** The first half of `removeInflight`, under the lock. */
    function Delete(id: Id): Slots {
      this.(inflight := inflight - {id})
    }

    /** The second half of `removeInflight`: leave a token unless one is there. */
    function Signal(): Slots {
      this.(token := true)
    }

    /** The cancel handles stored under an id: one while it is in flight, else none. */
    function Reached(id: Id): set<Handle> {
      if id in inflight then {inflight[id]} else {}
    }

    /** Receive the token if there is one. */
    function Receive(): Slots {
      this.(token := false)
    }
  }

  class Runner {
    var inflight: map<Id, Handle>
    var slotFreed: bool
    var cancelled: set<Handle>    // the handles that have been called

    function View(): Slots
      reads this
    {
      Slots(inflight, slotFreed)
    }

    constructor ()
      ensures View() == Slots(map[], false) && cancelled == {}
    {
      inflight := map[];
      slotFreed := false;
      cancelled := {};
    }

    method TryDispatch(id: Id, cancel: Handle) returns (started: bool)
      modifies this`inflight
      ensures (View(), started) == old(View()).Admit(id, cancel)
    {
      if id in inflight {
        return false;
      }
      inflight := inflight[id := cancel];
      return true;
    }

    method DeleteInflight(id: Id)
      modifies this`inflight
      ensures View() == old(View()).Delete(id)
    {
      inflight := inflight - {id};
    }

    method SignalSlotFreed()
      modifies this`slotFreed
      ensures View() == old(View()).Signal()
    {
      if !slotFreed {
        slotFreed := true;
      }
    }

    method DiscardStaleToken() returns (received: bool)
      modifies this`slotFreed
      ensures View() == old(View()).Receive() && received == old(slotFreed)
    {
      received := slotFreed;
      if slotFreed {
        slotFreed := false;
      }
    }

    /** One snapshot of the ids, each listed once, in no particular order. */
    method InflightIDs() returns (ids: seq<Id>)
      ensures |ids| == |inflight|
      ensures forall id :: id in ids <==> id in inflight
    {
      ids := [];
      var left := inflight.Keys;
      while left != {}
        invariant left <= inflight.Keys
        invariant |ids| + |left| == |inflight|
        invariant forall id :: id in ids <==> id in inflight.Keys - left
        decreases left
      {
        var id :| id in left;
        ids := ids + [id];
        left := left - {id};
      }
    }

    /** A server cancel: look the handle up under the lock, call it outside. */
    method CancelInflight(id: Id)
      modifies this`cancelled
      ensures View() == old(View())
      ensures cancelled == old(cancelled) + View().Reached(id)
    {
      if id in inflight {
        cancelled := cancelled + {inflight[id]};
      }
    }
  }

  // ----- Acks -----

  /** How one ack attempt ends: accepted, no answer, or a non-2xx status. */
  datatype AckReply = Accepted | NoAnswer | Refused(status: nat)

  const ACK_ATTEMPTS: nat := 3

  predicate Retryable(r: AckReply) {
    r.NoAnswer? || (r.Refused? && r.status >= 500)
  }

  /** Whether another attempt follows the replies so far. */
  predicate MoreAcks(acks: seq<AckReply>) {
    acks == [] || (|acks| < ACK_ATTEMPTS && Retryable(acks[|acks| - 1]))
  }

  /** A prefix of an ack sequence: every reply but the last asked for a repeat. */
  predicate AckPrefix(acks: seq<AckReply>) {
    |acks| <= ACK_ATTEMPTS && forall i :: 0 <= i < |acks| - 1 ==> Retryable(acks[i])
  }

  /** A whole ack sequence: a prefix that calls for nothing more. */
  predicate AckComplete(acks: seq<AckReply>) {
    AckPrefix(acks) && !MoreAcks(acks)
  }

  /** The ack loop, against any server: `server(k)` is the reply to attempt `k`. */
  method AckResult(server: nat -> AckReply) returns (acks: seq<AckReply>)
    ensures AckComplete(acks)
    ensures forall i :: 0 <= i < |acks| ==> acks[i] == server(i + 1)
  {
    acks := [];
    var attempt := 1;
    while true
      invariant 1 <= attempt <= ACK_ATTEMPTS
      invariant |acks| == attempt - 1
      invariant forall i :: 0 <= i < |acks| ==> acks[i] == server(i + 1) && Retryable(acks[i])
      decreases ACK_ATTEMPTS - attempt
    {
      var reply := server(attempt);
      acks := acks + [reply];
      if reply == Accepted {
        return;
      }
      if reply == Refused(403) {
        return;
      }
      if attempt >= ACK_ATTEMPTS || !Retryable(reply) {
        return;
      }
      attempt := attempt + 1;
    }
  }

  /** One to three attempts, and the sequence is fixed by the server's replies. */
  lemma AckSequenceDetermined(server: nat -> AckReply, a: seq<AckReply>, b: seq<AckReply>)
    requires AckComplete(a) && forall i :: 0 <= i < |a| ==> a[i] == server(i + 1)
    requires AckComplete(b) && forall i :: 0 <= i < |b| ==> b[i] == server(i + 1)
    ensures a == b && 1 <= |a| <= 3
  {
    assert forall i :: 0 <= i < |a| && i < |b| ==> a[i] == b[i];
  }

  // ----- Poll failures -----

  /** How one poll ends: a response, or an error with its HTTP status (0 for none). */
  datatype Reply = Delivered | Failed(status: nat)

  datatype Fatal = OwnershipDenied | AuthFailed(count: nat) | InstanceConflict(count: nat)

  datatype Limits = Limits(conflicts: nat, auth: nat)

  const DEFAULT_STREAK: nat := 3

  /** The constructor's reading of the two streak options: unset means the default. */
  function EffectiveLimits(conflicts: int, auth: int): (l: Limits)
    ensures l.conflicts >= 1 && l.auth >= 1
    ensures l.conflicts == conflicts || (conflicts <= 0 && l.conflicts == 3)
    ensures l.auth == auth || (auth <= 0 && l.auth == 3)
  {
    Limits(if conflicts <= 0 then DEFAULT_STREAK else conflicts, if auth <= 0 then DEFAULT_STREAK else auth)
  }

  datatype Streaks = Streaks(conflicts: nat, auth: nat)

  datatype Verdict = Continue(next: Streaks) | Stop(error: Fatal)

  /** One poll's outcome against the running counters. */
  function Judge(l: Limits, s: Streaks, reply: Reply): Verdict {
    match reply
    case Delivered => Continue(Streaks(0, 0))
    case Failed(status) =>
      if status == 403 then Stop(OwnershipDenied)
      else if status == 401 then
        if s.auth + 1 >= l.auth then Stop(AuthFailed(s.auth + 1))
        else Continue(Streaks(0, s.auth + 1))
      else if status == 409 then
        if s.conflicts + 1 >= l.conflicts then Stop(InstanceConflict(s.conflicts + 1))
        else Continue(Streaks(s.conflicts + 1, 0))
      else Continue(Streaks(0, 0))
  }

  /** Length of the run of failures with this status that ends the history. */
  function TrailingRun(h: seq<Reply>, status: nat): nat {
    if h == [] || h[|h| - 1] != Failed(status) then 0
    else 1 + TrailingRun(h[..|h| - 1], status)
  }

  /** Why a history is final, read off the history alone. */
  function FatalReason(l: Limits, h: seq<Reply>): Option<Fatal> {
    if h != [] && h[|h| - 1] == Failed(403) then Some(OwnershipDenied)
    else if h != [] && TrailingRun(h, 401) >= l.auth then Some(AuthFailed(TrailingRun(h, 401)))
    else if h != [] && TrailingRun(h, 409) >= l.conflicts then Some(InstanceConflict(TrailingRun(h, 409)))
    else None
  }

  predicate Tolerable(l: Limits, h: seq<Reply>) {
    forall n :: 0 <= n <= |h| ==> FatalReason(l, h[..n]).None?
  }

  function StreaksOf(h: seq<Reply>): (s: Streaks)
    ensures s.conflicts == 0 || s.auth == 0
  {
    Streaks(TrailingRun(h, 409), TrailingRun(h, 401))
  }

  /** The counters are a summary of the history: judging by them is judging by it. */
  lemma JudgeByHistory(l: Limits, h: seq<Reply>, reply: Reply)
    requires l.conflicts >= 1 && l.auth >= 1
    ensures Judge(l, StreaksOf(h), reply)
         == match FatalReason(l, h + [reply])
            case Some(error) => Stop(error)
            case None => Continue(StreaksOf(h + [reply]))
  {
    var h' := h + [reply];
    assert h'[..|h'| - 1] == h && h'[|h'| - 1] == reply;
  }

  lemma TolerableStep(l: Limits, h: seq<Reply>, reply: Reply)
    requires Tolerable(l, h) && FatalReason(l, h + [reply]).None?
    ensures Tolerable(l, h + [reply])
  {
    var h' := h + [reply];
    forall n | 0 <= n <= |h'|
      ensures FatalReason(l, h'[..n]).None?
    {
      if n <= |h| {
        assert h'[..n] == h[..n];
      } else {
        assert h'[..n] == h';
      }
    }
  }

  /**
   The poll loop's failure handling over a sequence of outcomes: it reads until
   the first history that is final, or to the end.
   */
  method ReadPolls(l: Limits, replies: seq<Reply>) returns (read: nat, stop: Option<Fatal>)
    requires l.conflicts >= 1 && l.auth >= 1
    ensures read <= |replies|
    ensures stop == FatalReason(l, replies[..read])
    ensures stop.None? ==> read == |replies| && Tolerable(l, replies)
    ensures stop.Some? ==> read > 0 && Tolerable(l, replies[..read - 1])
  {
    var consecutiveConflicts: nat, consecutiveAuthFailures: nat := 0, 0;
    read := 0;
    while read < |replies|
      invariant 0 <= read <= |replies|
      invariant Streaks(consecutiveConflicts, consecutiveAuthFailures) == StreaksOf(replies[..read])
      invariant Tolerable(l, replies[..read])
    {
      ghost var h, reply := replies[..read], replies[read];
      assert replies[..read + 1] == h + [reply];
      JudgeByHistory(l, h, reply);
      if FatalReason(l, h + [reply]).None? {
        TolerableStep(l, h, reply);
      }
      match replies[read] {
        case Delivered =>
          consecutiveConflicts := 0;
          consecutiveAuthFailures := 0;
        case Failed(status) =>
          if status == 403 {
            return read + 1, Some(OwnershipDenied);
          }
          if status == 401 {
            consecutiveAuthFailures := consecutiveAuthFailures + 1;
            if consecutiveAuthFailures >= l.auth {
              return read + 1, Some(AuthFailed(consecutiveAuthFailures));
            }
            consecutiveConflicts := 0;
          } else {
            consecutiveAuthFailures := 0;
            if status == 409 {
              consecutiveConflicts := consecutiveConflicts + 1;
              if consecutiveConflicts >= l.conflicts {
                return read + 1, Some(InstanceConflict(consecutiveConflicts));
              }
            } else {
              consecutiveConflicts := 0;
            }
          }
      }
      read := read + 1;
    }
    assert replies[..read] == replies;
    stop := None;
  }
}
