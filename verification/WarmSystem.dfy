/** The whole warm scheduler as a state machine of whole calls: producers, one worker, the stored descriptors,
    and a ledger of what was promised. Its theorems hold in every state of every run. */
module WarmSystem {
  import opened Wrappers
  import opened WarmKeys
  import opened WarmQueue

  /** `job` is what the worker found in `latest` for the key it received. */
  datatype Worker = Idle | Received(key: Key) | Warming(key: Key, job: Option<Target>)

  /** `promised[k]` is the generation of the last record of Scene key `k` that was admitted while it was owed. The
      entry goes when the worker takes that generation, the key is cancelled or removed, or its descriptor leaves
      Building or is gone. */
  datatype System = System(
    queue: Queue,
    worker: Worker,
    senderOpen: bool,
    disk: Disk,
    promised: map<Key, nat>)

  const INITIAL: System := System(WarmQueue.EMPTY, Idle, true, map[], map[])

  datatype Action =
    | Advance(key: Key)
    | Settle(key: Key)
    | Remove(key: Key)
    | Discard(key: Key)
    | RecordTarget(key: Key, target: Target)
    | AwaitSlot(key: Key, target: Target)
    | CancelTarget(key: Key)
    | Receive
    | Take
    | Fail(error: string)
    | Finish
    | CloseSender
    | WorkerDies

  /** A producer holds a sender and does not pass a full queue. It advanced its Scene some time before it records it;
      since then the Scene may have been advanced again, recorded, settled or removed. */
  predicate Recordable(s: System, key: Key, target: Target) {
    && s.senderOpen && !Blocked(s.queue, key, target)
    && (target.sceneGeneration.None? <==> !key.target.SceneTarget?)
  }

  /** The recorded generation is on file, or an older one than on file, and the Scene still waits for its build. */
  predicate Owed(disk: Disk, key: Key, target: Target) {
    && target.sceneGeneration.Some? && key in disk && disk[key].building
    && target.sceneGeneration.value <= disk[key].generation
  }

  /** A record of the key puts its target into `latest`; otherwise it leaves that to the recovery from disk. */
  predicate Lands(q: Queue, key: Key) {
    Known(q, key) || |q.latest| < WARM_LATEST_CAPACITY
  }

  /** A late record: it puts a target into `latest` that is older than `generation`, or that the Scene was removed
      after, so that a warm finds it stale. */
  predicate Overtakes(q: Queue, disk: Disk, key: Key, generation: nat, target: Target) {
    Lands(q, key) && !(Owed(disk, key, target) && generation <= target.sceneGeneration.value)
  }

  /** What is promised once a target is recorded: its own generation, unless it leaves a newer one to the recovery;
      a target that is not owed ends the promise it overtakes. */
  function Noted(q: Queue, disk: Disk, promised: map<Key, nat>, key: Key, target: Target): map<Key, nat> {
    if Owed(disk, key, target) then
      if key in promised && target.sceneGeneration.value <= promised[key] && !Lands(q, key) then promised
      else promised[key := target.sceneGeneration.value]
    else if key in promised && Lands(q, key) then promised - {key}
    else promised
  }

  ghost predicate Enabled(s: System, a: Action) {
    match a
    case Advance(key) => key.target.SceneTarget?
    case Settle(key) => key in s.disk
    case Remove(key) => key.target.SceneTarget?
    case Discard(key) => key.target.SceneTarget?
    case RecordTarget(key, target) => Recordable(s, key, target)
    case AwaitSlot(key, target) => s.senderOpen && Blocked(s.queue, key, target)
    case CancelTarget(_) => true
    case Receive => s.worker.Idle? && s.queue.receiverAlive && s.queue.channel != []
    case Take => s.worker.Received?
    case Fail(_) => s.worker.Warming? && s.worker.job.Some?
    case Finish => s.worker.Warming?
    case CloseSender => true
    case WorkerDies => true
  }

  ghost function Apply(s: System, a: Action): System
    requires Enabled(s, a)
  {
    match a
    case Advance(key) =>
      var generation := if key in s.disk then s.disk[key].generation + 1 else 1;
      s.(disk := s.disk[key := Stored(generation, true)])
    case Settle(key) => Settled(s, key)
    case Remove(key) =>
      s.(queue := Cancel(s.queue, key), disk := s.disk - {key}, promised := s.promised - {key})
    case Discard(key) => s.(disk := s.disk - {key}, promised := s.promised - {key})
    case RecordTarget(key, target) =>
      Recorded(s, key, target)
    case AwaitSlot(key, _) => s.(queue := s.queue.(failures := s.queue.failures - {key}))
    case CancelTarget(key) => s.(queue := Cancel(s.queue, key), promised := s.promised - {key})
    case Receive => NextReceived(s)
    case Take => Taken(s)
    case Fail(error) => s.(queue := s.queue.(failures := s.queue.failures[s.worker.key := error]))
    case Finish => Finished(s)
    case CloseSender => s.(senderOpen := false)
    case WorkerDies => s.(queue := s.queue.(channel := [], receiverAlive := false), worker := Idle)
  }

  function Recorded(s: System, key: Key, target: Target): System
    requires !Blocked(s.queue, key, target)
  {
    s.(queue := Record(s.queue, key, target).0, promised := NotePromised(s, key, target))
  }

  function Settled(s: System, key: Key): System
    requires key in s.disk
  {
    s.(disk := s.disk[key := s.disk[key].(building := false)], promised := s.promised - {key})
  }

  function NextReceived(s: System): System
    requires s.queue.channel != []
  {
    s.(queue := s.queue.(channel := s.queue.channel[1..]), worker := Received(s.queue.channel[0]))
  }

  function Taken(s: System): System
    requires s.worker.Received?
  {
    var key := s.worker.key;
    var (queue, target) := TakeLatest(s.queue, key);
    var promised := if target.Some? && Covers(target.value, s.promised, key)
                    then s.promised - {key} else s.promised;
    s.(queue := queue, worker := Warming(key, target), promised := promised)
  }

  ghost function Finished(s: System): System
    requires s.worker.Warming?
  {
    s.(queue := FinishAndRetry(s.queue, s.disk, s.worker.key, s.senderOpen), worker := Idle)
  }

  function NotePromised(s: System, key: Key, target: Target): map<Key, nat>
    requires !Blocked(s.queue, key, target)
  {
    if Record(s.queue, key, target).1 then Noted(s.queue, s.disk, s.promised, key, target) else s.promised
  }

  /** A target of the promised generation or a newer one. */
  predicate Covers(target: Target, promised: map<Key, nat>, key: Key) {
    target.sceneGeneration.Some? && key in promised && promised[key] <= target.sceneGeneration.value
  }

  /** A run: states joined by enabled actions, starting empty. */
  ghost predicate IsRun(states: seq<System>, actions: seq<Action>) {
    && |states| == |actions| + 1
    && states[0] == INITIAL
    && forall i | 0 <= i < |actions| :: StepAt(states, actions, i)
  }

  ghost predicate StepAt(states: seq<System>, actions: seq<Action>, i: nat)
    requires |states| == |actions| + 1 && i < |actions|
  {
    Enabled(states[i], actions[i]) && states[i + 1] == Apply(states[i], actions[i])
  }

  function Held(w: Worker): set<Key> {
    if w.Idle? then {} else {w.key}
  }

  function Queued(channel: seq<Key>): set<Key> {
    set key | key in channel
  }

  predicate Distinct(keys: seq<Key>) {
    forall i, j | 0 <= i < j < |keys| :: keys[i] != keys[j]
  }

  /** While the worker lives, `scheduled` is exactly the keys in the channel and the one it holds. */
  predicate ExactSchedule(q: Queue, held: set<Key>) {
    q.receiverAlive ==>
      q.scheduled == Queued(q.channel) + held && Distinct(q.channel) && Queued(q.channel) !! held
  }

  const WARM_SPACE: nat := WARM_LATEST_CAPACITY + WARM_QUEUE_CAPACITY + 1

  predicate Bounded(q: Queue) {
    && |q.channel| <= WARM_QUEUE_CAPACITY
    && |q.scheduled| <= WARM_QUEUE_CAPACITY + 1
    && |q.dirty| <= WARM_DIRTY_PROJECT_CAPACITY
    && |q.latest.Keys + q.scheduled| <= WARM_SPACE
  }

  /** No stall: pending work means a job is in the channel or with the worker. */
  predicate Live(q: Queue, held: set<Key>) {
    q.latest != map[] || q.dirty != {} ==> q.channel != [] || held != {}
  }

  predicate Represented(q: Queue, key: Key) {
    key in q.latest || (key.project in q.dirty && key !in q.scheduled)
  }

  predicate Ledger(disk: Disk, promised: map<Key, nat>) {
    forall key | key in promised ::
      key.target.SceneTarget? && key in disk && disk[key].building && promised[key] <= disk[key].generation
  }

  predicate Fresh(q: Queue, promised: map<Key, nat>) {
    forall key | key in q.latest && key in promised :: Covers(q.latest[key], promised, key)
  }

  predicate NothingLost(q: Queue, promised: map<Key, nat>) {
    forall key | key in promised :: Represented(q, key)
  }

  predicate QueueSound(q: Queue, held: set<Key>, senderOpen: bool) {
    && |held| <= 1
    && (!q.receiverAlive ==> held == {})
    && ExactSchedule(q, held)
    && Bounded(q)
    && (q.receiverAlive && senderOpen ==> Live(q, held))
  }

  ghost predicate PromisesKept(q: Queue, disk: Disk, promised: map<Key, nat>) {
    && Ledger(disk, promised)
    && Fresh(q, promised)
    && (q.receiverAlive ==> NothingLost(q, promised))
  }

  ghost predicate Invariant(s: System) {
    && QueueSound(s.queue, Held(s.worker), s.senderOpen)
    && PromisesKept(s.queue, s.disk, s.promised)
  }

  lemma UnionSize(a: set<Key>, b: set<Key>)
    ensures |a + b| <= |a| + |b|
  {
    assert a + b == a + (b - a);
    assert |a + b| == |a| + |b - a|;
    assert b == (b - a) + (b * a);
    assert |b| == |b - a| + |b * a|;
  }

  lemma {:induction false} QueuedSize(channel: seq<Key>)
    ensures |Queued(channel)| <= |channel|
  {
    if channel != [] {
      QueuedSize(channel[1..]);
      assert Queued(channel) == Queued(channel[1..]) + {channel[0]};
      UnionSize(Queued(channel[1..]), {channel[0]});
    }
  }

  lemma PushKeeps(q: Queue, held: set<Key>, key: Key)
    requires q.receiverAlive && |q.channel| < WARM_QUEUE_CAPACITY
    requires ExactSchedule(q, held) && |held| <= 1 && key !in q.scheduled
    ensures var after := q.(scheduled := q.scheduled + {key}, channel := q.channel + [key]);
      && ExactSchedule(after, held)
      && |after.scheduled| <= |after.channel| + |held|
  {
    var after := q.(scheduled := q.scheduled + {key}, channel := q.channel + [key]);
    assert Queued(after.channel) == Queued(q.channel) + {key};
    QueuedSize(after.channel);
    UnionSize(Queued(after.channel), held);
  }

  /** What one record may change, as far as space is concerned. */
  lemma RecordFrameKeys(q: Queue, key: Key, target: Target, after: Queue)
    requires !Blocked(q, key, target) && after == Record(q, key, target).0
    ensures after.latest.Keys <= q.latest.Keys + {key}
    ensures !Known(q, key) && |q.latest| >= WARM_LATEST_CAPACITY
      ==> after.latest == q.latest && after.scheduled == q.scheduled
  {
  }

  lemma RecordFrameDirty(q: Queue, key: Key, target: Target, after: Queue)
    requires !Blocked(q, key, target) && after == Record(q, key, target).0
    ensures after.dirty <= q.dirty
      || (after.dirty == q.dirty + {key.project} && |q.dirty| < WARM_DIRTY_PROJECT_CAPACITY)
  {
  }

  lemma RecordFrameSent(q: Queue, key: Key, target: Target, after: Queue)
    requires !Blocked(q, key, target) && after == Record(q, key, target).0
    ensures (after.scheduled == q.scheduled && after.channel == q.channel)
      || (after.scheduled == q.scheduled + {key} && after.channel == q.channel + [key]
          && q.receiverAlive && |q.channel| < WARM_QUEUE_CAPACITY)
  {
  }

  /** A key unknown to a queue with room in `latest` finds room for itself. */
  lemma OneMoreKeyFits(latest: map<Key, Target>, scheduled: set<Key>, key: Key)
    requires |latest.Keys + scheduled| <= WARM_SPACE && |scheduled| <= WARM_QUEUE_CAPACITY + 1
    requires key in latest || key in scheduled || |latest| < WARM_LATEST_CAPACITY
    ensures |latest.Keys + scheduled + {key}| <= WARM_SPACE
  {
    if key in latest || key in scheduled {
      assert latest.Keys + scheduled + {key} == latest.Keys + scheduled;
    } else {
      UnionSize(latest.Keys, scheduled);
      assert |latest.Keys| == |latest|;
      UnionSize(latest.Keys + scheduled, {key});
    }
  }

  lemma RecordKeepsSpace(q: Queue, key: Key, target: Target)
    requires !Blocked(q, key, target) && Bounded(q)
    ensures |Record(q, key, target).0.latest.Keys + Record(q, key, target).0.scheduled| <= WARM_SPACE
  {
    var after := Record(q, key, target).0;
    RecordFrameKeys(q, key, target, after);
    RecordFrameSent(q, key, target, after);
    if Known(q, key) || |q.latest| < WARM_LATEST_CAPACITY {
      OneMoreKeyFits(q.latest, q.scheduled, key);
      SubsetSize(after.latest.Keys + after.scheduled, q.latest.Keys + q.scheduled + {key});
    }
  }

  lemma RecordKeepsCounts(q: Queue, key: Key, target: Target)
    requires !Blocked(q, key, target) && Bounded(q)
    requires q.receiverAlive ==> |q.scheduled| <= |q.channel| + 1
    ensures var after := Record(q, key, target).0;
      && |after.channel| <= WARM_QUEUE_CAPACITY
      && |after.scheduled| <= WARM_QUEUE_CAPACITY + 1
      && |after.dirty| <= WARM_DIRTY_PROJECT_CAPACITY
  {
    var after := Record(q, key, target).0;
    RecordFrameDirty(q, key, target, after);
    RecordFrameSent(q, key, target, after);
    UnionSize(q.scheduled, {key});
    if after.dirty <= q.dirty { SubsetSize(after.dirty, q.dirty); }
  }

  lemma RecordKeepsBounds(q: Queue, key: Key, target: Target)
    requires !Blocked(q, key, target) && Bounded(q)
    requires q.receiverAlive ==> |q.scheduled| <= |q.channel| + 1
    ensures Bounded(Record(q, key, target).0)
  {
    RecordKeepsSpace(q, key, target);
    RecordKeepsCounts(q, key, target);
  }

  /** An admitted key is sent only when it was not scheduled, so the schedule stays exact. */
  lemma RecordKeepsSchedule(q: Queue, held: set<Key>, key: Key, target: Target)
    requires !Blocked(q, key, target) && |held| <= 1
    requires ExactSchedule(q, held)
    ensures ExactSchedule(Record(q, key, target).0, held)
  {
    if key !in q.scheduled && TrySend(q) == Sent {
      PushKeeps(q, held, key);
    }
  }

  lemma RecordKeepsSupply(q: Queue, held: set<Key>, key: Key, target: Target)
    requires !Blocked(q, key, target) && q.receiverAlive
    requires ExactSchedule(q, held)
    ensures Live(q, held) ==> Live(Record(q, key, target).0, held)
  {
    if !Known(q, key) && |q.latest| >= WARM_LATEST_CAPACITY {
      assert q.latest != map[];
    }
  }

  lemma RecordKeepsQueue(q: Queue, held: set<Key>, senderOpen: bool, key: Key, target: Target)
    requires QueueSound(q, held, senderOpen) && !Blocked(q, key, target)
    ensures QueueSound(Record(q, key, target).0, held, senderOpen)
  {
    ScheduleSize(q, held);
    RecordKeepsBounds(q, key, target);
    RecordKeepsSchedule(q, held, key, target);
    if q.receiverAlive {
      RecordKeepsSupply(q, held, key, target);
    }
    QueueStaysSound(q, Record(q, key, target).0, held, senderOpen);
  }

  lemma QueueStaysSound(q: Queue, after: Queue, held: set<Key>, senderOpen: bool)
    requires QueueSound(q, held, senderOpen)
    requires after.receiverAlive == q.receiverAlive && ExactSchedule(after, held) && Bounded(after)
    requires q.receiverAlive ==> (Live(q, held) ==> Live(after, held))
    ensures QueueSound(after, held, senderOpen)
  {
  }

  lemma NotedIsOnFile(q: Queue, disk: Disk, promised: map<Key, nat>, key: Key, target: Target)
    requires Ledger(disk, promised) && (target.sceneGeneration.None? <==> !key.target.SceneTarget?)
    ensures Ledger(disk, Noted(q, disk, promised, key, target))
  {
  }

  lemma RecordKeepsPromises(s: System, key: Key, target: Target)
    requires PromisesKept(s.queue, s.disk, s.promised) && Recordable(s, key, target)
    ensures PromisesKept(Recorded(s, key, target).queue, s.disk, Recorded(s, key, target).promised)
  {
    NotedIsOnFile(s.queue, s.disk, s.promised, key, target);
  }

  lemma ScheduleSize(q: Queue, held: set<Key>)
    requires ExactSchedule(q, held) && |held| <= 1
    ensures q.receiverAlive ==> |q.scheduled| <= |q.channel| + 1
  {
    QueuedSize(q.channel);
    UnionSize(Queued(q.channel), held);
  }

  lemma {:induction false} InsertRecoveredSize(q: Queue, disk: Disk, keys: seq<Key>)
    requires forall key | key in keys :: key in disk
    requires |q.latest| <= WARM_LATEST_CAPACITY
    ensures |InsertRecovered(q, disk, keys).0.latest| <= WARM_LATEST_CAPACITY
    decreases |keys|
  {
    if keys != [] {
      if Known(q, keys[0]) {
        InsertRecoveredSize(q, disk, keys[1..]);
      } else if |q.latest| < WARM_LATEST_CAPACITY {
        InsertRecoveredSize(q.(latest := q.latest[keys[0] := RecoveredTarget(disk, keys[0])]), disk, keys[1..]);
      }
    }
  }

  lemma DrainedKeepsQueue(q: Queue, disk: Disk)
    requires q.dirty != {} && |q.latest| < WARM_LATEST_CAPACITY
    requires ExactSchedule(q, {}) && Bounded(q) && q.receiverAlive
    ensures ExactSchedule(Drained(q, disk), {}) && Bounded(Drained(q, disk))
    ensures Drained(q, disk).receiverAlive
  {
    var root := Least(q.dirty);
    var keys := Recovered(disk, root);
    var popped := q.(dirty := q.dirty - {root});
    InsertRecoveredFrame(popped, disk, keys);
    InsertRecoveredSize(popped, disk, keys);
    var after := InsertRecovered(popped, disk, keys).0;
    ScheduleSize(q, {});
    UnionSize(after.latest.Keys, after.scheduled);
    assert |after.latest.Keys| == |after.latest|;
    SubsetSize(q.dirty - {root}, q.dirty);
    assert q.dirty - {root} + {root} == q.dirty;
  }

  lemma PushedKeepsQueue(q: Queue)
    requires Unscheduled(q) != {} && TrySend(q) == Sent
    requires ExactSchedule(q, {}) && Bounded(q)
    ensures ExactSchedule(Pushed(q), {}) && Bounded(Pushed(q)) && Pushed(q).receiverAlive
  {
    var key := LeastKey(Unscheduled(q));
    PushKeeps(q, {}, key);
    assert Pushed(q).latest.Keys + Pushed(q).scheduled == q.latest.Keys + q.scheduled;
  }

  lemma NothingWaitsUnsent(q: Queue)
    requires ExactSchedule(q, {}) && q.receiverAlive && Unscheduled(q) == {}
    ensures q.latest != map[] ==> q.channel != []
  {
    if q.latest != map[] {
      var key :| key in q.latest;
      assert key !in Unscheduled(q);
      assert key in Queued(q.channel);
    }
  }

  predicate BetweenPasses(q: Queue) {
    ExactSchedule(q, {}) && Bounded(q) && q.receiverAlive
  }

  predicate Retried(q: Queue) {
    QueueSound(q, {}, true) && q.receiverAlive
  }

  /** The loop stops where nothing waits unsent and no dirty Project can be drained, or where the channel is full. */
  lemma StoppingLeavesWork(q: Queue)
    requires BetweenPasses(q)
    requires if Unscheduled(q) != {} then TrySend(q) == Full else |q.latest| >= WARM_LATEST_CAPACITY || q.dirty == {}
    ensures Retried(q)
  {
    if Unscheduled(q) == {} { NothingWaitsUnsent(q); }
  }

  lemma {:induction false} RetryEndsWell(q: Queue, disk: Disk)
    requires BetweenPasses(q)
    ensures Retried(Retry(q, disk))
    decreases FreeSlots(q), if Unscheduled(q) == {} then 1 else 0, |q.dirty|
  {
    if Unscheduled(q) != {} {
      if TrySend(q) == Sent {
        PushedKeepsQueue(q);
        RetryEndsWell(Pushed(q), disk);
      } else {
        StoppingLeavesWork(q);
      }
    } else if |q.latest| >= WARM_LATEST_CAPACITY || q.dirty == {} {
      StoppingLeavesWork(q);
    } else {
      DrainMakesProgress(q, disk);
      DrainedKeepsQueue(q, disk);
      RetryEndsWell(Drained(q, disk), disk);
    }
  }

  /** Every exit of the retry loop leaves the worker a job if any work is pending. */
  lemma RetryKeepsQueue(q: Queue, disk: Disk)
    requires ExactSchedule(q, {}) && Bounded(q) && q.receiverAlive
    ensures QueueSound(Retry(q, disk), {}, true)
    ensures Retry(q, disk).receiverAlive
  {
    RetryEndsWell(q, disk);
  }

  /** What a drained Project owed is in `latest` afterwards, or the Project is dirty again: removing it
      left a dirty slot, so an overflow finds room to put it back. */
  lemma DrainedKeepsPromises(q: Queue, disk: Disk, promised: map<Key, nat>)
    requires q.dirty != {} && |q.dirty| <= WARM_DIRTY_PROJECT_CAPACITY && q.receiverAlive
    requires PromisesKept(q, disk, promised)
    ensures PromisesKept(Drained(q, disk), disk, promised)
  {
    var root := Least(q.dirty);
    var keys := Recovered(disk, root);
    var popped := q.(dirty := q.dirty - {root});
    InsertRecoveredFrame(popped, disk, keys);
    var after := Drained(q, disk);
    forall key | key in promised
      ensures Represented(after, key)
    {
      if key !in after.latest && key.project == root {
        assert key in BuildingKeys(disk, root);
        assert key in keys;
      }
    }
  }

  lemma PushedKeepsPromises(q: Queue, disk: Disk, promised: map<Key, nat>)
    requires Unscheduled(q) != {} && q.receiverAlive
    requires PromisesKept(q, disk, promised)
    ensures PromisesKept(Pushed(q), disk, promised)
  {
  }

  /** What every pass of the retry loop keeps. */
  ghost predicate Retrying(q: Queue, disk: Disk, promised: map<Key, nat>) {
    ExactSchedule(q, {}) && Bounded(q) && q.receiverAlive && PromisesKept(q, disk, promised)
  }

  lemma PushedKeeps(q: Queue, disk: Disk, promised: map<Key, nat>)
    requires Unscheduled(q) != {} && TrySend(q) == Sent && Retrying(q, disk, promised)
    ensures Retrying(Pushed(q), disk, promised)
  {
    PushedKeepsQueue(q);
    PushedKeepsPromises(q, disk, promised);
  }

  lemma DrainedKeeps(q: Queue, disk: Disk, promised: map<Key, nat>)
    requires q.dirty != {} && |q.latest| < WARM_LATEST_CAPACITY && Retrying(q, disk, promised)
    ensures Retrying(Drained(q, disk), disk, promised)
  {
    DrainedKeepsQueue(q, disk);
    DrainedKeepsPromises(q, disk, promised);
  }

  /** One pass of the retry loop, if it does not stop there. */
  ghost function NextPass(q: Queue, disk: Disk): Option<Queue>
    requires q.receiverAlive
  {
    if Unscheduled(q) != {} then if TrySend(q) == Sent then Some(Pushed(q)) else None
    else if |q.latest| < WARM_LATEST_CAPACITY && q.dirty != {} then Some(Drained(q, disk))
    else None
  }

  lemma PassKeeps(q: Queue, disk: Disk, promised: map<Key, nat>)
    requires Retrying(q, disk, promised)
    ensures NextPass(q, disk).Some? ==> Retrying(NextPass(q, disk).value, disk, promised)
  {
    if Unscheduled(q) != {} {
      if TrySend(q) == Sent { PushedKeeps(q, disk, promised); }
    } else if |q.latest| < WARM_LATEST_CAPACITY && q.dirty != {} {
      DrainedKeeps(q, disk, promised);
    }
  }

  lemma PassIsProgress(q: Queue, disk: Disk)
    requires q.receiverAlive && NextPass(q, disk).Some?
    ensures var next := NextPass(q, disk).value;
            || FreeSlots(next) < FreeSlots(q)
            || (FreeSlots(next) == FreeSlots(q) && Unscheduled(q) == {} && Unscheduled(next) != {})
            || (FreeSlots(next) == FreeSlots(q) && Unscheduled(q) == {} && |next.dirty| < |q.dirty|)
  {
    if Unscheduled(q) == {} { DrainMakesProgress(q, disk); }
  }

  lemma RetryTakesPasses(q: Queue, disk: Disk)
    requires q.receiverAlive
    ensures Retry(q, disk) == if NextPass(q, disk).Some? then Retry(NextPass(q, disk).value, disk) else q
  {
  }

  lemma {:induction false} RetryKeepsPromises(q: Queue, disk: Disk, promised: map<Key, nat>)
    requires Retrying(q, disk, promised)
    ensures Retrying(Retry(q, disk), disk, promised)
    decreases FreeSlots(q), if Unscheduled(q) == {} then 1 else 0, |q.dirty|
  {
    var next := NextPass(q, disk);
    PassKeeps(q, disk, promised);
    RetryTakesPasses(q, disk);
    if next.Some? {
      PassIsProgress(q, disk);
      RetryKeepsPromises(next.value, disk, promised);
    }
  }

  lemma ReleaseKeeps(q: Queue, key: Key, disk: Disk, promised: map<Key, nat>)
    requires ExactSchedule(q, {key}) && Bounded(q) && q.receiverAlive
    requires PromisesKept(q, disk, promised)
    ensures Retrying(q.(scheduled := q.scheduled - {key}), disk, promised)
  {
    var after := q.(scheduled := q.scheduled - {key});
    assert after.scheduled == Queued(q.channel);
    SubsetSize(after.scheduled, q.scheduled);
    SubsetSize(after.latest.Keys + after.scheduled, q.latest.Keys + q.scheduled);
  }

  lemma FinishKeepsQueue(s: System)
    requires Invariant(s) && s.worker.Warming?
    ensures QueueSound(Finished(s).queue, {}, s.senderOpen)
  {
    ReleaseKeeps(s.queue, s.worker.key, s.disk, s.promised);
    if s.senderOpen {
      RetryKeepsQueue(s.queue.(scheduled := s.queue.scheduled - {s.worker.key}), s.disk);
    }
  }

  lemma FinishKeepsPromises(s: System)
    requires Invariant(s) && s.worker.Warming?
    ensures PromisesKept(Finished(s).queue, s.disk, s.promised)
  {
    ReleaseKeeps(s.queue, s.worker.key, s.disk, s.promised);
    if s.senderOpen {
      RetryKeepsPromises(s.queue.(scheduled := s.queue.scheduled - {s.worker.key}), s.disk, s.promised);
    }
  }

  lemma ReceiveKeepsQueue(q: Queue, senderOpen: bool)
    requires QueueSound(q, {}, senderOpen) && q.receiverAlive && q.channel != []
    ensures QueueSound(q.(channel := q.channel[1..]), {q.channel[0]}, senderOpen)
  {
    assert Queued(q.channel) == {q.channel[0]} + Queued(q.channel[1..]);
  }

  /** Removing a key from `latest` alone keeps the schedule; whoever removes it settles its promise. */
  lemma DropKeepsQueue(q: Queue, held: set<Key>, senderOpen: bool, key: Key)
    requires QueueSound(q, held, senderOpen)
    ensures QueueSound(Cancel(q, key), held, senderOpen)
  {
    SubsetSize(Cancel(q, key).latest.Keys + q.scheduled, q.latest.Keys + q.scheduled);
  }

  lemma TakeKeeps(s: System)
    requires Invariant(s) && s.worker.Received?
    ensures Invariant(Taken(s))
  {
    var key := s.worker.key;
    DropKeepsQueue(s.queue, {key}, s.senderOpen, key);
    if key !in s.queue.latest {
      assert s.queue.latest - {key} == s.queue.latest;
    }
    assert Taken(s).queue == Cancel(s.queue, key);
  }

  lemma CancelKeepsPromises(q: Queue, disk: Disk, promised: map<Key, nat>, key: Key)
    requires PromisesKept(q, disk, promised)
    ensures PromisesKept(Cancel(q, key), disk, promised - {key})
    ensures PromisesKept(Cancel(q, key), disk - {key}, promised - {key})
  {
  }

  lemma DiscardKeepsPromises(q: Queue, disk: Disk, promised: map<Key, nat>, key: Key)
    requires PromisesKept(q, disk, promised)
    ensures PromisesKept(q, disk - {key}, promised - {key})
  {
  }

  lemma DiskKeepsPromises(q: Queue, disk: Disk, promised: map<Key, nat>, key: Key, stored: Stored)
    requires PromisesKept(q, disk, promised)
    requires key.target.SceneTarget?
    ensures key in disk && stored.building && stored.generation >= disk[key].generation
      ==> PromisesKept(q, disk[key := stored], promised)
    ensures PromisesKept(q, disk[key := stored], promised - {key})
  {
  }

  /** Steps that leave `latest` and the schedule alone, and put no job into the channel. */
  lemma OutsideKeepsInvariant(s: System, a: Action)
    requires Invariant(s) && Enabled(s, a)
    requires a.Settle? || a.AwaitSlot? || a.Fail? || a.CloseSender? || a.WorkerDies?
    ensures Invariant(Apply(s, a))
  {
  }

  /** Every step keeps the schedule exact and bounded, the worker supplied and every promise represented. */
  lemma StepKeepsInvariant(s: System, a: Action)
    requires Invariant(s) && Enabled(s, a)
    ensures Invariant(Apply(s, a))
  {
    var q := s.queue;
    match a
    case Advance(key) => DiskKeepsPromises(q, s.disk, s.promised, key, Apply(s, a).disk[key]);
    case Settle(_) => OutsideKeepsInvariant(s, a);
    case Remove(key) =>
      DropKeepsQueue(q, Held(s.worker), s.senderOpen, key);
      CancelKeepsPromises(q, s.disk, s.promised, key);
    case Discard(key) => DiscardKeepsPromises(q, s.disk, s.promised, key);
    case RecordTarget(key, target) =>
      RecordKeepsQueue(q, Held(s.worker), s.senderOpen, key, target);
      RecordKeepsPromises(s, key, target);
    case AwaitSlot(_, _) => OutsideKeepsInvariant(s, a);
    case CancelTarget(key) =>
      DropKeepsQueue(q, Held(s.worker), s.senderOpen, key);
      CancelKeepsPromises(q, s.disk, s.promised, key);
    case Receive => ReceiveKeepsQueue(q, s.senderOpen);
    case Take => TakeKeeps(s);
    case Fail(_) => OutsideKeepsInvariant(s, a);
    case Finish =>
      FinishKeepsQueue(s);
      FinishKeepsPromises(s);
    case CloseSender => OutsideKeepsInvariant(s, a);
    case WorkerDies => OutsideKeepsInvariant(s, a);
  }

  lemma RunStepKeepsInvariant(states: seq<System>, actions: seq<Action>, i: nat)
    requires IsRun(states, actions) && i < |actions| && Invariant(states[i])
    ensures Invariant(states[i + 1])
  {
    assert StepAt(states, actions, i);
    StepKeepsInvariant(states[i], actions[i]);
  }

  lemma InitialHolds()
    ensures Invariant(INITIAL)
  {
    assert INITIAL.queue == WarmQueue.EMPTY;
    assert Queued([]) == {};
    assert INITIAL.queue.latest.Keys + INITIAL.queue.scheduled == {};
  }

  lemma {:induction false} RunKeepsInvariant(states: seq<System>, actions: seq<Action>, i: nat)
    requires IsRun(states, actions) && i < |states|
    ensures Invariant(states[i])
  {
    if i == 0 {
      InitialHolds();
    } else {
      RunKeepsInvariant(states, actions, i - 1);
      RunStepKeepsInvariant(states, actions, i - 1);
    }
  }

  /** In every reachable state the queue names at most eleven keys and four dirty Projects. */
  lemma SpaceIsBounded(states: seq<System>, actions: seq<Action>, i: nat)
    requires IsRun(states, actions) && i < |states|
    ensures var q := states[i].queue;
      |q.latest.Keys + q.scheduled| <= 11 && |q.dirty| <= 4 && |q.channel| <= 2
  {
    RunKeepsInvariant(states, actions, i);
  }

  /** In every reachable state with a live worker a scheduled key has exactly one job: one place in the
      channel or the worker's hands. So no key is warmed twice at once. */
  lemma OneJobPerScheduledKey(states: seq<System>, actions: seq<Action>, i: nat, key: Key)
    requires IsRun(states, actions) && i < |states| && states[i].queue.receiverAlive
    ensures var s := states[i];
      && (key in s.queue.scheduled <==> key in s.queue.channel || key in Held(s.worker))
      && !(key in s.queue.channel && key in Held(s.worker))
      && forall j, k | 0 <= j < k < |s.queue.channel| :: s.queue.channel[j] != s.queue.channel[k]
  {
    RunKeepsInvariant(states, actions, i);
  }

  /** While the worker lives and a sender exists, pending work always comes with a job. */
  lemma NeverStalls(states: seq<System>, actions: seq<Action>, i: nat)
    requires IsRun(states, actions) && i < |states|
    requires states[i].queue.receiverAlive && states[i].senderOpen
    ensures var s := states[i];
      s.queue.latest != map[] || s.queue.dirty != {} ==> s.queue.channel != [] || !s.worker.Idle?
  {
    RunKeepsInvariant(states, actions, i);
  }

  /** The events that settle an admitted invalidation: it is withdrawn, its descriptor leaves Building or is gone, the
      worker takes a target at least as new, or a late record overtakes it. */
  predicate Discharges(s: System, a: Action, key: Key, generation: nat) {
    match a
    case CancelTarget(k) => k == key
    case Remove(k) => k == key
    case Discard(k) => k == key
    case Settle(k) => k == key
    case Take =>
      && s.worker.Received? && s.worker.key == key && key in s.queue.latest
      && s.queue.latest[key].sceneGeneration.Some?
      && generation <= s.queue.latest[key].sceneGeneration.value
    case RecordTarget(k, target) => k == key && Overtakes(s.queue, s.disk, key, generation, target)
    case _ => false
  }

  predicate Promised(s: System, key: Key, generation: nat) {
    key in s.promised && generation <= s.promised[key]
  }

  lemma PromiseSurvivesStep(s: System, a: Action, key: Key, generation: nat)
    requires Invariant(s) && Enabled(s, a) && s.queue.receiverAlive
    requires Promised(s, key, generation) && !Discharges(s, a, key, generation)
    ensures Promised(Apply(s, a), key, generation)
  {
    if a.RecordTarget? {
      NotedKeepsOthers(s.queue, s.disk, s.promised, key, generation, a.key, a.target);
    } else {
      PromiseSurvivesOther(s, a, key, generation);
    }
  }

  lemma PromiseSurvivesOther(s: System, a: Action, key: Key, generation: nat)
    requires Enabled(s, a) && !a.RecordTarget?
    requires Promised(s, key, generation) && !Discharges(s, a, key, generation)
    ensures Promised(Apply(s, a), key, generation)
  {
  }

  /** Only a late record of the key takes its promise back. */
  lemma NotedKeepsOthers(q: Queue, disk: Disk, promised: map<Key, nat>, key: Key, generation: nat, other: Key,
                         target: Target)
    requires Ledger(disk, promised) && key in promised && generation <= promised[key]
    requires other == key ==> !Overtakes(q, disk, key, generation, target)
    ensures var noted := Noted(q, disk, promised, other, target); key in noted && generation <= noted[key]
  {
  }

  lemma AliveBefore(s: System, a: Action)
    requires Enabled(s, a) && Apply(s, a).queue.receiverAlive
    ensures s.queue.receiverAlive
  {
    if a == Finish && s.senderOpen {
      RetryKeepsReceiver(s.queue.(scheduled := s.queue.scheduled - {s.worker.key}), s.disk);
    }
  }

  lemma DrainedKeepsReceiver(q: Queue, disk: Disk)
    requires q.dirty != {}
    ensures Drained(q, disk).receiverAlive == q.receiverAlive
  {
    InsertRecoveredFrame(q.(dirty := q.dirty - {Least(q.dirty)}), disk, Recovered(disk, Least(q.dirty)));
  }

  lemma PassKeepsReceiver(q: Queue, disk: Disk)
    requires q.receiverAlive
    ensures NextPass(q, disk).Some? ==> NextPass(q, disk).value.receiverAlive
  {
    if q.dirty != {} { DrainedKeepsReceiver(q, disk); }
  }

  lemma {:induction false} RetryKeepsReceiver(q: Queue, disk: Disk)
    ensures Retry(q, disk).receiverAlive == q.receiverAlive
    decreases FreeSlots(q), if Unscheduled(q) == {} then 1 else 0, |q.dirty|
  {
    if q.receiverAlive {
      RetryTakesPasses(q, disk);
      PassKeepsReceiver(q, disk);
      if NextPass(q, disk).Some? {
        PassIsProgress(q, disk);
        RetryKeepsReceiver(NextPass(q, disk).value, disk);
      }
    } else {
      DeadRetryIsDead(q, disk);
    }
  }

  lemma {:induction false} DeadRetryIsDead(q: Queue, disk: Disk)
    requires !q.receiverAlive
    ensures !Retry(q, disk).receiverAlive
    decreases FreeSlots(q), if Unscheduled(q) == {} then 1 else 0, |q.dirty|
  {
    if Unscheduled(q) == {} && |q.latest| < WARM_LATEST_CAPACITY && q.dirty != {} {
      DrainMakesProgress(q, disk);
      DrainedKeepsReceiver(q, disk);
      DeadRetryIsDead(Drained(q, disk), disk);
    }
  }

  /** The run once admitted Scene `key` at `generation`, while its descriptor was Building. */
  ghost predicate AdmittedAt(states: seq<System>, actions: seq<Action>, i: nat, key: Key, generation: nat)
    requires IsRun(states, actions) && i < |actions|
  {
    && StepAt(states, actions, i)
    && actions[i].RecordTarget? && actions[i].key == key
    && actions[i].target.sceneGeneration == Some(generation)
    && Record(states[i].queue, key, actions[i].target).1
    && Owed(states[i].disk, key, actions[i].target)
  }

  ghost predicate Undischarged(states: seq<System>, actions: seq<Action>, i: nat, j: nat, key: Key, generation: nat)
    requires IsRun(states, actions) && j < |states|
  {
    forall t | i < t < j :: !DischargedAt(states, actions, t, key, generation)
  }

  ghost predicate DischargedAt(states: seq<System>, actions: seq<Action>, t: nat, key: Key, generation: nat)
    requires IsRun(states, actions) && t < |actions|
  {
    Discharges(states[t], actions[t], key, generation)
  }

  lemma AdmissionPromises(states: seq<System>, actions: seq<Action>, i: nat, key: Key, generation: nat)
    requires IsRun(states, actions) && i < |actions|
    requires AdmittedAt(states, actions, i, key, generation)
    ensures Promised(states[i + 1], key, generation)
  {
    assert StepAt(states, actions, i);
  }

  lemma AliveBeforeRunStep(states: seq<System>, actions: seq<Action>, t: nat)
    requires IsRun(states, actions) && t < |actions| && states[t + 1].queue.receiverAlive
    ensures states[t].queue.receiverAlive
  {
    assert StepAt(states, actions, t);
    AliveBefore(states[t], actions[t]);
  }

  lemma PromiseSurvivesRunStep(states: seq<System>, actions: seq<Action>, t: nat, key: Key, generation: nat)
    requires IsRun(states, actions) && t < |actions| && states[t].queue.receiverAlive
    requires Promised(states[t], key, generation) && !DischargedAt(states, actions, t, key, generation)
    ensures Promised(states[t + 1], key, generation)
  {
    assert StepAt(states, actions, t);
    RunKeepsInvariant(states, actions, t);
    PromiseSurvivesStep(states[t], actions[t], key, generation);
  }

  lemma UndischargedBefore(states: seq<System>, actions: seq<Action>, i: nat, j: nat, key: Key, generation: nat)
    requires IsRun(states, actions) && i < j - 1 < |actions| && Undischarged(states, actions, i, j, key, generation)
    ensures Undischarged(states, actions, i, j - 1, key, generation)
    ensures !DischargedAt(states, actions, j - 1, key, generation)
  {
  }

  lemma {:induction false} PromiseLasts(states: seq<System>, actions: seq<Action>, i: nat, j: nat, key: Key,
                                        generation: nat)
    requires IsRun(states, actions) && i < j < |states|
    requires Promised(states[i + 1], key, generation)
    requires Undischarged(states, actions, i, j, key, generation)
    requires states[j].queue.receiverAlive
    ensures Promised(states[j], key, generation)
  {
    if i < j - 1 {
      AliveBeforeRunStep(states, actions, j - 1);
      UndischargedBefore(states, actions, i, j, key, generation);
      PromiseLasts(states, actions, i, j - 1, key, generation);
      PromiseSurvivesRunStep(states, actions, j - 1, key, generation);
    }
  }

  /** No admitted invalidation is lost: until it is settled, `latest` holds a target at least as new, or the
      key's Project is dirty and the key is one of those its recovery will find, at a generation at least as new. */
  lemma NoInvalidationIsLost(states: seq<System>, actions: seq<Action>, i: nat, j: nat, key: Key, generation: nat)
    requires IsRun(states, actions) && i < j < |states|
    requires AdmittedAt(states, actions, i, key, generation)
    requires Undischarged(states, actions, i, j, key, generation)
    requires states[j].queue.receiverAlive
    ensures var s := states[j];
      || (key in s.queue.latest && s.queue.latest[key].sceneGeneration.Some?
          && generation <= s.queue.latest[key].sceneGeneration.value)
      || (key.project in s.queue.dirty && key in Recovered(s.disk, key.project)
          && !Known(s.queue, key) && generation <= s.disk[key].generation)
  {
    AdmissionPromises(states, actions, i, key, generation);
    PromiseLasts(states, actions, i, j, key, generation);
    RunKeepsInvariant(states, actions, j);
    var s := states[j];
    assert Represented(s.queue, key);
    assert key in BuildingKeys(s.disk, key.project);
  }
}
