/** Progress of the warm scheduler: once producers fall silent, the worker empties the queue. */
module WarmDrain {
  import opened Wrappers
  import opened WarmKeys
  import opened WarmQueue
  import opened WarmSystem

  /** Every key the worker may still have to warm. */
  ghost function Pending(q: Queue, disk: Disk): set<Key> {
    q.latest.Keys + q.scheduled + set key | key in disk && disk[key].building && key.project in q.dirty
  }

  predicate IsPending(q: Queue, disk: Disk, key: Key) {
    Known(q, key) || (key in disk && disk[key].building && key.project in q.dirty)
  }

  lemma PushAddsNoWork(q: Queue, disk: Disk, key: Key)
    requires Unscheduled(q) != {} && IsPending(Pushed(q), disk, key)
    ensures IsPending(q, disk, key)
  {
  }

  lemma DrainAddsNoWork(q: Queue, disk: Disk, key: Key)
    requires q.dirty != {} && IsPending(Drained(q, disk), disk, key)
    ensures IsPending(q, disk, key)
  {
    var root := Least(q.dirty);
    InsertRecoveredFrame(q.(dirty := q.dirty - {root}), disk, Recovered(disk, root));
  }

  lemma {:induction false} RetryAddsNoWork(q: Queue, disk: Disk, key: Key)
    requires IsPending(Retry(q, disk), disk, key)
    ensures IsPending(q, disk, key)
    decreases FreeSlots(q), if Unscheduled(q) == {} then 1 else 0, |q.dirty|
  {
    if Unscheduled(q) != {} {
      if TrySend(q) == Sent {
        RetryAddsNoWork(Pushed(q), disk, key);
        PushAddsNoWork(q, disk, key);
      }
    } else if |q.latest| < WARM_LATEST_CAPACITY && q.dirty != {} {
      DrainMakesProgress(q, disk);
      RetryAddsNoWork(Drained(q, disk), disk, key);
      DrainAddsNoWork(q, disk, key);
    }
  }

  /** The stored descriptor is of the generation the target names. */
  predicate IsCurrent(disk: Disk, key: Key, target: Target) {
    key in disk && target.sceneGeneration == Some(disk[key].generation)
  }

  /** A job without a target, with a target whose warm will find it stale, or with one that is no Scene's and so has
      no stored descriptor to leave Building. */
  predicate Stray(q: Queue, disk: Disk, key: Key) {
    Known(q, key) && (key in q.latest ==> !IsCurrent(disk, key, q.latest[key]))
  }

  ghost function Strays(q: Queue, disk: Disk): set<Key> {
    set key | key in q.latest.Keys + q.scheduled && Stray(q, disk, key)
  }

  lemma DrainAddsNoStray(q: Queue, disk: Disk, key: Key)
    requires q.dirty != {} && Stray(Drained(q, disk), disk, key)
    ensures Stray(q, disk, key)
  {
    var root := Least(q.dirty);
    InsertRecoveredFrame(q.(dirty := q.dirty - {root}), disk, Recovered(disk, root));
  }

  /** What the retry loop brings back from disk is current. */
  lemma {:induction false} RetryAddsNoStray(q: Queue, disk: Disk, key: Key)
    requires Stray(Retry(q, disk), disk, key)
    ensures Stray(q, disk, key)
    decreases FreeSlots(q), if Unscheduled(q) == {} then 1 else 0, |q.dirty|
  {
    if Unscheduled(q) != {} {
      if TrySend(q) == Sent { RetryAddsNoStray(Pushed(q), disk, key); }
    } else if |q.latest| < WARM_LATEST_CAPACITY && q.dirty != {} {
      DrainMakesProgress(q, disk);
      RetryAddsNoStray(Drained(q, disk), disk, key);
      DrainAddsNoStray(q, disk, key);
    }
  }

  predicate NextIsCurrent(s: System)
    requires s.queue.channel != []
  {
    var job := Taken(NextReceived(s)).worker.job;
    job.Some? && IsCurrent(s.disk, s.queue.channel[0], job.value)
  }

  /** The worker takes up its next job. If there is a target for it and the target is current, the Scene then leaves
      Building, published or failed for good; otherwise the worker does nothing to it. */
  function Warmed(s: System): System
    requires s.queue.channel != []
  {
    var warmed := Taken(NextReceived(s));
    if NextIsCurrent(s) then Settled(warmed, s.queue.channel[0]) else warmed
  }

  ghost function Cycle(s: System): System
    requires s.queue.channel != []
  {
    Finished(Warmed(s))
  }

  ghost predicate Working(s: System) {
    Invariant(s) && s.worker.Idle? && s.senderOpen && s.queue.receiverAlive
  }

  lemma WarmedKeepsInvariant(s: System)
    requires Working(s) && s.queue.channel != []
    ensures Invariant(Warmed(s))
  {
    StepKeepsInvariant(s, Receive);
    var received := NextReceived(s);
    StepKeepsInvariant(received, Take);
    if NextIsCurrent(s) {
      StepKeepsInvariant(Taken(received), Settle(s.queue.channel[0]));
    }
  }

  lemma CycleKeepsWorking(s: System)
    requires Working(s) && s.queue.channel != []
    ensures Working(Cycle(s))
  {
    WarmedKeepsInvariant(s);
    var warmed := Warmed(s);
    StepKeepsInvariant(warmed, Finish);
    RetryKeepsReceiver(warmed.queue.(scheduled := warmed.queue.scheduled - {warmed.worker.key}), warmed.disk);
  }

  ghost function Released(s: System): Queue
    requires s.queue.channel != []
  {
    Warmed(s).queue.(scheduled := Warmed(s).queue.scheduled - {s.queue.channel[0]})
  }

  lemma WarmedReleasesItsJob(s: System, key: Key)
    requires Working(s) && s.queue.channel != []
    requires IsPending(Released(s), Warmed(s).disk, key)
    ensures IsPending(s.queue, s.disk, key) && (NextIsCurrent(s) ==> key != s.queue.channel[0])
  {
  }

  lemma WarmedLeavesNoStray(s: System, key: Key)
    requires Working(s) && s.queue.channel != []
    requires Stray(Released(s), Warmed(s).disk, key)
    ensures Stray(s.queue, s.disk, key) && key != s.queue.channel[0]
  {
  }

  lemma CycleAddsNoWork(s: System, key: Key)
    requires Working(s) && s.queue.channel != []
    requires IsPending(Cycle(s).queue, Cycle(s).disk, key)
    ensures IsPending(Released(s), Warmed(s).disk, key)
  {
    assert Cycle(s).queue == Retry(Released(s), Warmed(s).disk);
    RetryAddsNoWork(Released(s), Warmed(s).disk, key);
  }

  lemma CyclePending(s: System)
    requires Working(s) && s.queue.channel != []
    ensures Pending(Cycle(s).queue, Cycle(s).disk)
            <= Pending(s.queue, s.disk) - (if NextIsCurrent(s) then {s.queue.channel[0]} else {})
  {
    forall key | key in Pending(Cycle(s).queue, Cycle(s).disk)
      ensures IsPending(s.queue, s.disk, key) && (NextIsCurrent(s) ==> key != s.queue.channel[0])
    {
      CycleAddsNoWork(s, key);
      WarmedReleasesItsJob(s, key);
    }
  }

  lemma CycleAddsNoStray(s: System, key: Key)
    requires Working(s) && s.queue.channel != []
    requires Stray(Cycle(s).queue, Cycle(s).disk, key)
    ensures Stray(Released(s), Warmed(s).disk, key)
  {
    assert Cycle(s).queue == Retry(Released(s), Warmed(s).disk);
    RetryAddsNoStray(Released(s), Warmed(s).disk, key);
  }

  lemma CycleStrays(s: System)
    requires Working(s) && s.queue.channel != []
    ensures Strays(Cycle(s).queue, Cycle(s).disk) <= Strays(s.queue, s.disk) - {s.queue.channel[0]}
  {
    forall key | key in Strays(Cycle(s).queue, Cycle(s).disk)
      ensures Stray(s.queue, s.disk, key) && key != s.queue.channel[0]
    {
      CycleAddsNoStray(s, key);
      WarmedLeavesNoStray(s, key);
    }
  }

  lemma NextIsKnown(s: System)
    requires Working(s) && s.queue.channel != []
    ensures s.queue.channel[0] in Pending(s.queue, s.disk)
    ensures !NextIsCurrent(s) ==> s.queue.channel[0] in Strays(s.queue, s.disk)
  {
    assert s.queue.channel[0] in Queued(s.queue.channel);
  }

  ghost function Left(s: System): nat {
    |Pending(s.queue, s.disk)| + |Strays(s.queue, s.disk)|
  }

  /** A round adds nothing to do and takes its job away: out of what is pending if its target was current, and else
      out of the strays, which recovery never adds to. */
  lemma CycleTakesItsJobAway(s: System)
    requires Working(s) && s.queue.channel != []
    ensures Pending(Cycle(s).queue, Cycle(s).disk) <= Pending(s.queue, s.disk)
    ensures Strays(Cycle(s).queue, Cycle(s).disk) <= Strays(s.queue, s.disk) - {s.queue.channel[0]}
    ensures NextIsCurrent(s) ==> s.queue.channel[0] !in Pending(Cycle(s).queue, Cycle(s).disk)
    ensures Left(Cycle(s)) < Left(s)
  {
    CyclePending(s);
    CycleStrays(s);
    NextIsKnown(s);
    var key := s.queue.channel[0];
    if NextIsCurrent(s) {
      ProperSubsetSize(Pending(Cycle(s).queue, Cycle(s).disk), Pending(s.queue, s.disk), key);
      SubsetSize(Strays(Cycle(s).queue, Cycle(s).disk), Strays(s.queue, s.disk));
    } else {
      SubsetSize(Pending(Cycle(s).queue, Cycle(s).disk), Pending(s.queue, s.disk));
      ProperSubsetSize(Strays(Cycle(s).queue, Cycle(s).disk), Strays(s.queue, s.disk), key);
    }
  }

  ghost function RunAlone(s: System): System
    requires Working(s)
    decreases Left(s)
  {
    if s.queue.channel == [] then s
    else
      CycleKeepsWorking(s);
      CycleTakesItsJobAway(s);
      RunAlone(Cycle(s))
  }

  lemma ProperSubsetSize(a: set<Key>, b: set<Key>, key: Key)
    requires a <= b - {key} && key in b
    ensures |a| < |b|
  {
    SubsetSize(a, b - {key});
  }

  /** Left to itself the worker empties the queue: nothing stays in `latest`, scheduled or dirty, and no
      promise is left open. */
  lemma {:induction false} WorkerEmptiesTheQueue(s: System)
    requires Working(s)
    ensures var end := RunAlone(s);
      && end.queue.latest == map[] && end.queue.scheduled == {} && end.queue.dirty == {}
      && end.promised == map[]
    decreases Left(s)
  {
    if s.queue.channel == [] {
      NothingIsLeft(s);
    } else {
      CycleKeepsWorking(s);
      CycleTakesItsJobAway(s);
      WorkerEmptiesTheQueue(Cycle(s));
    }
  }

  lemma NothingIsLeft(s: System)
    requires Working(s) && s.queue.channel == []
    ensures s.queue.latest == map[] && s.queue.scheduled == {} && s.queue.dirty == {} && s.promised == map[]
  {
    assert Queued([]) == {};
    forall key: Key ensures key !in s.promised {
      assert !Represented(s.queue, key);
    }
  }
}
