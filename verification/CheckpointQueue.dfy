/** The bounded queue of recovery checkpoints: a newer checkpoint pushes out the oldest one waiting. */
module CheckpointQueue {
  import opened Wrappers

  const QUEUE_CAPACITY: nat := 4

  type Bytes = string

  datatype Work = Work(session: nat, revision: nat, stage: Bytes, source: string, base: Option<string>)

  datatype Queue = Queue(pending: seq<Work>, closed: bool, highWater: nat, coalesced: nat)

  const EMPTY: Queue := Queue([], false, 0, 0)

  /** Work is refused once the queue is closed. */
  function Pushed(q: Queue, work: Work): Option<Queue> {
    if q.closed then None else
      var full := |q.pending| >= QUEUE_CAPACITY;
      var kept := if full then q.pending[1..] else q.pending;
      Some(Queue(kept + [work], false, Max(q.highWater, |kept| + 1), q.coalesced + if full then 1 else 0))
  }

  /** The worker waits while there is nothing to take and the queue is open. */
  predicate MayReceive(q: Queue) {
    q.pending != [] || q.closed
  }

  function Popped(q: Queue): (Queue, Option<Work>)
    requires MayReceive(q)
  {
    if q.pending == [] then (q, None) else (q.(pending := q.pending[1..]), Some(q.pending[0]))
  }

  /** A queue with all the work it ever accepted and, in order, the positions of what was taken from it. */
  datatype History = History(queue: Queue, submitted: seq<Work>, taken: seq<nat>)

  const START: History := History(EMPTY, [], [])

  /** Accepted work is taken, waiting or pushed out; what waits is the newest; what was taken came in order. */
  predicate Kept(h: History) {
    var waiting := |h.queue.pending|;
    && waiting <= h.queue.highWater <= QUEUE_CAPACITY
    && |h.submitted| == |h.taken| + waiting + h.queue.coalesced
    && h.queue.pending == h.submitted[|h.submitted| - waiting..]
    && (forall i | 0 <= i < |h.taken| :: h.taken[i] < |h.submitted| - waiting)
    && (forall i, j | 0 <= i < j < |h.taken| :: h.taken[i] < h.taken[j])
    && (waiting == 0 && h.submitted != [] ==> h.taken != [] && h.taken[|h.taken| - 1] == |h.submitted| - 1)
  }

  function Submitted(h: History, work: Work): History {
    match Pushed(h.queue, work)
    case None => h
    case Some(queue) => History(queue, h.submitted + [work], h.taken)
  }

  function Taken(h: History): History
    requires Kept(h) && MayReceive(h.queue)
  {
    var next := Popped(h.queue);
    if next.1.None? then h.(queue := next.0)
    else History(next.0, h.submitted, h.taken + [|h.submitted| - |h.queue.pending|])
  }

  function Closed(h: History): History {
    h.(queue := h.queue.(closed := true))
  }

  lemma SubmissionIsKept(h: History, work: Work)
    requires Kept(h)
    ensures Kept(Submitted(h, work))
    ensures !h.queue.closed ==> Submitted(h, work).submitted == h.submitted + [work]
  {
    var after := Submitted(h, work);
    if !h.queue.closed {
      var n := |h.submitted| - |h.queue.pending|;
      assert (h.submitted + [work])[n..] == h.submitted[n..] + [work];
      assert (h.submitted + [work])[n..][1..] == (h.submitted + [work])[n + 1..];
    }
  }

  lemma TakingIsKept(h: History)
    requires Kept(h) && MayReceive(h.queue)
    ensures Kept(Taken(h))
    ensures h.queue.pending != [] ==>
              |Taken(h).taken| == |h.taken| + 1
              && h.submitted[Taken(h).taken[|h.taken|]] == h.queue.pending[0]
  {
    if h.queue.pending != [] {
      var n := |h.submitted| - |h.queue.pending|;
      assert h.submitted[n..][1..] == h.submitted[n + 1..];
      assert h.submitted[n] == h.submitted[n..][0];
    }
  }

  /** The newest accepted work is never pushed out: it waits last, or it was the last to be taken. */
  lemma NewestIsKept(h: History)
    requires Kept(h) && h.submitted != []
    ensures if h.queue.pending != [] then h.queue.pending[|h.queue.pending| - 1] == h.submitted[|h.submitted| - 1]
            else h.taken != [] && h.submitted[h.taken[|h.taken| - 1]] == h.submitted[|h.submitted| - 1]
  {
    var n := |h.submitted| - |h.queue.pending|;
    if h.queue.pending != [] {
      assert h.submitted[n..][|h.queue.pending| - 1] == h.submitted[n + |h.queue.pending| - 1];
    }
  }

  // ---- The queue as the program keeps it ----

  class RecoveryQueue {
    var pending: seq<Work>
    var closed: bool
    var highWater: nat
    var coalesced: nat

    ghost function View(): Queue
      reads this
    {
      Queue(pending, closed, highWater, coalesced)
    }

    constructor ()
      ensures View() == EMPTY
    {
      pending, closed, highWater, coalesced := [], false, 0, 0;
    }

    method Submit(work: Work) returns (accepted: bool)
      modifies this
      ensures accepted <==> !old(closed)
      ensures accepted ==> Pushed(old(View()), work) == Some(View())
      ensures !accepted ==> View() == old(View())
    {
      if closed { return false; }
      if |pending| >= QUEUE_CAPACITY {
        pending := pending[1..];
        coalesced := coalesced + 1;
      }
      pending := pending + [work];
      highWater := Max(highWater, |pending|);
      return true;
    }

    method Recv() returns (work: Option<Work>)
      requires MayReceive(View())
      modifies this`pending
      ensures Popped(old(View())) == (View(), work)
    {
      if pending != [] {
        work := Some(pending[0]);
        pending := pending[1..];
      } else {
        work := None;
      }
    }

    method Stats() returns (waiting: nat, most: nat, dropped: nat)
      ensures waiting == |View().pending| && most == View().highWater && dropped == View().coalesced
    {
      return |pending|, highWater, coalesced;
    }

    method Close()
      modifies this`closed
      ensures View() == old(View()).(closed := true)
    {
      closed := true;
    }
  }

  /** Work is pushed out only when four are waiting, and then it is the oldest; the high water is the most that ever
      waited. */
  lemma PushesOutExactlyWhenFull(q: Queue, work: Work)
    requires |q.pending| <= QUEUE_CAPACITY
    ensures Pushed(q, work).None? <==> q.closed
    ensures !q.closed ==>
              var after := Pushed(q, work).value;
              && !after.closed
              && (|q.pending| < 4 ==> after.pending == q.pending + [work] && after.coalesced == q.coalesced)
              && (|q.pending| == 4 ==>
                    after.pending == q.pending[1..] + [work] && after.coalesced == q.coalesced + 1)
              && after.highWater >= q.highWater && after.highWater >= |after.pending|
              && (after.highWater == q.highWater || after.highWater == |after.pending|)
  {
  }

  /** The worker waits exactly on an open queue with nothing in it; it gets the oldest work, or learns that a closed
      queue has been drained. */
  lemma WaitsExactlyWhenOpenAndEmpty(q: Queue)
    ensures !MayReceive(q) <==> !q.closed && |q.pending| == 0
    ensures MayReceive(q) ==>
              if |q.pending| > 0 then Popped(q) == (q.(pending := q.pending[1..]), Some(q.pending[0]))
              else q.closed && Popped(q) == (q, None)
  {
  }
}
