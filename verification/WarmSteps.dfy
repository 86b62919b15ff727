/** The warm scheduler with the lock given back where the program gives it back. `record` sends outside the lock and
    locks again only to undo; `retry_unscheduled` sends, and reads stored descriptors, outside it. Each locked section
    and each unlocked send or read is a step; any number of producers may be between two of theirs. The worker lives. */
module WarmSteps {
  import opened Wrappers
  import opened WarmKeys
  import opened WarmQueue
  import WarmSystem

  /** What the worker is about: a job, or a place in the retry loop. `found` is what it read of a Project it popped. */
  datatype Hand =
    | Resting
    | Received(key: Key)
    | Warming(key: Key, job: Option<Target>)
    | Ending(key: Key, sender: bool)
    | Looking
    | Pushing(key: Key)
    | PushRefused(key: Key)
    | Checking
    | Reading(root: nat)
    | Merging(root: nat, found: Disk)

  /** `sending` are the keys whose producer has given the lock back and not yet tried to send, `refused` those whose
      producer found the channel full and has not yet locked again. */
  datatype Machine = Machine(
    queue: Queue,
    hand: Hand,
    sending: set<Key>,
    refused: set<Key>,
    senderOpen: bool,
    disk: Disk,
    promised: map<Key, nat>)

  const START: Machine := Machine(EMPTY, Resting, {}, {}, true, map[], map[])

  datatype Step =
    | Begin(key: Key, target: Target)
    | Send(key: Key)
    | Undo(key: Key)
    | Receive
    | Take
    | CloneSender
    | Release
    | Look
    | Push
    | UndoPush
    | Check
    | Read
    | Merge
    | Advance(key: Key)
    | Settle(key: Key)
    | Remove(key: Key)
    | Discard(key: Key)
    | Withdraw(key: Key)
    | CloseSender

  function MidRecord(m: Machine): set<Key> {
    m.sending + m.refused
  }

  /** The key of the worker's job, or the one it is putting into the channel. */
  function Held(hand: Hand): set<Key> {
    if hand.Received? || hand.Warming? || hand.Ending? || hand.Pushing? || hand.PushRefused? then {hand.key} else {}
  }

  predicate Recordable(m: Machine, key: Key, target: Target) {
    && m.senderOpen && !Blocked(m.queue, key, target)
    && (target.sceneGeneration.None? <==> !key.target.SceneTarget?)
  }

  ghost predicate Enabled(m: Machine, step: Step) {
    match step
    case Begin(key, target) => Recordable(m, key, target)
    case Send(key) => key in m.sending
    case Undo(key) => key in m.refused
    case Receive => m.hand.Resting? && m.queue.channel != []
    case Take => m.hand.Received?
    case CloneSender => m.hand.Warming?
    case Release => m.hand.Ending?
    case Look => m.hand.Looking?
    case Push => m.hand.Pushing?
    case UndoPush => m.hand.PushRefused?
    case Check => m.hand.Checking?
    case Read => m.hand.Reading?
    case Merge => m.hand.Merging?
    case Advance(key) => key.target.SceneTarget?
    case Settle(key) => key in m.disk
    case Remove(key) => key.target.SceneTarget?
    case Discard(key) => key.target.SceneTarget?
    case Withdraw(_) => true
    case CloseSender => true
  }

  datatype Begun = Answered(accepted: bool) | MustSend

  /** `record` up to the point where it drops the lock. */
  function BeginRecord(q: Queue, key: Key, target: Target): (Queue, Begun)
    requires !Blocked(q, key, target)
  {
    var q := q.(failures := q.failures - {key});
    if !Known(q, key) && |q.latest| >= WARM_LATEST_CAPACITY then
      if target.sceneGeneration.None? then (q, Answered(false))
      else (q.(dirty := q.dirty + {key.project}), Answered(true))
    else
      var q := q.(latest := q.latest[key := target]);
      if key in q.scheduled then (q, Answered(true))
      else (q.(scheduled := q.scheduled + {key}), MustSend)
  }

  function AfterBegin(m: Machine, key: Key, target: Target): Machine
    requires !Blocked(m.queue, key, target)
  {
    var (queue, begun) := BeginRecord(m.queue, key, target);
    m.(queue := queue,
       sending := if begun == MustSend then m.sending + {key} else m.sending,
       promised := WarmSystem.Noted(m.queue, m.disk, m.promised, key, target))
  }

  function Unscheduling(q: Queue, key: Key): Queue {
    q.(scheduled := q.scheduled - {key})
  }

  function AfterSend(m: Machine, key: Key): Machine {
    if |m.queue.channel| < WARM_QUEUE_CAPACITY
    then m.(sending := m.sending - {key}, queue := m.queue.(channel := m.queue.channel + [key]))
    else m.(sending := m.sending - {key}, refused := m.refused + {key})
  }

  function AfterUndo(m: Machine, key: Key): Machine {
    m.(refused := m.refused - {key}, queue := Unscheduling(m.queue, key))
  }

  function AfterReceive(m: Machine): Machine
    requires m.queue.channel != []
  {
    m.(hand := Received(m.queue.channel[0]), queue := m.queue.(channel := m.queue.channel[1..]))
  }

  function AfterTake(m: Machine, key: Key): Machine {
    var (queue, target) := TakeLatest(m.queue, key);
    m.(queue := queue, hand := Warming(key, target),
       promised := if target.Some? && WarmSystem.Covers(target.value, m.promised, key)
                   then m.promised - {key} else m.promised)
  }

  /** The worker retries if it found a sender before it locked, whatever has become of it since. */
  function AfterRelease(m: Machine, key: Key, sender: bool): Machine {
    m.(queue := Unscheduling(m.queue, key), hand := if sender then Looking else Resting)
  }

  ghost function AfterLook(m: Machine): Machine {
    if Unscheduled(m.queue) == {} then m.(hand := Checking)
    else
      var key := LeastKey(Unscheduled(m.queue));
      m.(queue := m.queue.(scheduled := m.queue.scheduled + {key}), hand := Pushing(key))
  }

  function AfterPush(m: Machine, key: Key): Machine {
    if |m.queue.channel| < WARM_QUEUE_CAPACITY
    then m.(queue := m.queue.(channel := m.queue.channel + [key]), hand := Looking)
    else m.(hand := PushRefused(key))
  }

  function AfterUndoPush(m: Machine, key: Key): Machine {
    m.(queue := Unscheduling(m.queue, key), hand := Resting)
  }

  ghost function AfterCheck(m: Machine): Machine {
    if |m.queue.latest| >= WARM_LATEST_CAPACITY || m.queue.dirty == {} then m.(hand := Resting)
    else
      var root := Least(m.queue.dirty);
      m.(queue := m.queue.(dirty := m.queue.dirty - {root}), hand := Reading(root))
  }

  /** The Building Scenes of a Project, as its recovery reads them. */
  function BuildingScenes(disk: Disk, root: nat): Disk {
    map key | key in disk && key.project == root && disk[key].building :: disk[key]
  }

  ghost function AfterMerge(m: Machine, root: nat, found: Disk): Machine {
    m.(queue := WarmQueue.Merge(m.queue, found, root, Recovered(found, root)), hand := Looking)
  }

  function AfterAdvance(m: Machine, key: Key): Machine {
    m.(disk := m.disk[key := Stored(if key in m.disk then m.disk[key].generation + 1 else 1, true)])
  }

  ghost function Apply(m: Machine, step: Step): Machine
    requires Enabled(m, step)
  {
    match step
    case Begin(key, target) => AfterBegin(m, key, target)
    case Send(key) => AfterSend(m, key)
    case Undo(key) => AfterUndo(m, key)
    case Receive => AfterReceive(m)
    case Take => AfterTake(m, m.hand.key)
    case CloneSender => m.(hand := Ending(m.hand.key, m.senderOpen))
    case Release => AfterRelease(m, m.hand.key, m.hand.sender)
    case Look => AfterLook(m)
    case Push => AfterPush(m, m.hand.key)
    case UndoPush => AfterUndoPush(m, m.hand.key)
    case Check => AfterCheck(m)
    case Read => m.(hand := Merging(m.hand.root, BuildingScenes(m.disk, m.hand.root)))
    case Merge => AfterMerge(m, m.hand.root, m.hand.found)
    case Advance(key) => AfterAdvance(m, key)
    case Settle(key) => m.(disk := m.disk[key := m.disk[key].(building := false)], promised := m.promised - {key})
    case Remove(key) => m.(queue := Cancel(m.queue, key), disk := m.disk - {key}, promised := m.promised - {key})
    case Discard(key) => m.(disk := m.disk - {key}, promised := m.promised - {key})
    case Withdraw(key) => m.(queue := Cancel(m.queue, key), promised := m.promised - {key})
    case CloseSender => m.(senderOpen := false)
  }

  datatype Run = Run(states: seq<Machine>, steps: seq<Step>)

  ghost predicate IsRun(run: Run) {
    && |run.states| == |run.steps| + 1 && run.states[0] == START
    && forall t | 0 <= t < |run.steps| :: StepAt(run, t)
  }

  ghost predicate StepAt(run: Run, t: nat)
    requires |run.states| == |run.steps| + 1 && t < |run.steps|
  {
    Enabled(run.states[t], run.steps[t]) && run.states[t + 1] == Apply(run.states[t], run.steps[t])
  }

  // ----- one job for every scheduled key

  /** The keys in the channel, with the worker and with the producers, all different, are the scheduled ones. */
  predicate Exact(q: Queue, hand: Hand, mid: set<Key>) {
    && q.scheduled == WarmSystem.Queued(q.channel) + Held(hand) + mid
    && WarmSystem.Distinct(q.channel)
    && WarmSystem.Queued(q.channel) !! Held(hand) !! mid
  }

  predicate Sound(m: Machine) {
    && Exact(m.queue, m.hand, MidRecord(m))
    && m.sending !! m.refused
    && m.queue.receiverAlive
    && |m.queue.channel| <= WARM_QUEUE_CAPACITY
    && (m.hand.Ending? && !m.hand.sender ==> !m.senderOpen)
    && (m.hand.PushRefused? ==> |m.queue.channel| == WARM_QUEUE_CAPACITY)
    && |m.queue.dirty| <= WARM_DIRTY_PROJECT_CAPACITY
  }

  lemma BeginFrame(q: Queue, key: Key, target: Target)
    requires !Blocked(q, key, target)
    ensures var (after, begun) := BeginRecord(q, key, target);
      && after.channel == q.channel && after.receiverAlive == q.receiverAlive
      && after.scheduled == (if begun == MustSend then q.scheduled + {key} else q.scheduled)
      && (begun == MustSend ==> key !in q.scheduled)
      && (after.dirty != q.dirty ==>
            && after.dirty == q.dirty + {key.project}
            && (key.project in q.dirty || |q.dirty| < WARM_DIRTY_PROJECT_CAPACITY))
  {
  }

  lemma OneMoreDirty(dirty: set<nat>, root: nat)
    requires root in dirty || |dirty| < WARM_DIRTY_PROJECT_CAPACITY
    requires |dirty| <= WARM_DIRTY_PROJECT_CAPACITY
    ensures |dirty + {root}| <= WARM_DIRTY_PROJECT_CAPACITY
  {
    if root in dirty { assert dirty + {root} == dirty; }
  }

  lemma BeginKeepsSound(m: Machine, key: Key, target: Target)
    requires Sound(m) && !Blocked(m.queue, key, target)
    ensures Sound(AfterBegin(m, key, target))
  {
    BeginFrame(m.queue, key, target);
    if AfterBegin(m, key, target).queue.dirty != m.queue.dirty { OneMoreDirty(m.queue.dirty, key.project); }
    if BeginRecord(m.queue, key, target).1 == MustSend {
      SchedulingKeepsExact(m.queue, AfterBegin(m, key, target).queue, m.hand, MidRecord(m), key);
      assert MidRecord(AfterBegin(m, key, target)) == MidRecord(m) + {key};
      assert key !in MidRecord(m);
    }
  }

  lemma SchedulingKeepsExact(q: Queue, after: Queue, hand: Hand, mid: set<Key>, key: Key)
    requires Exact(q, hand, mid) && key !in q.scheduled
    requires after.channel == q.channel && after.scheduled == q.scheduled + {key}
    ensures Exact(after, hand, mid + {key})
  {
  }

  lemma QueuedAppend(channel: seq<Key>, key: Key)
    ensures WarmSystem.Queued(channel + [key]) == WarmSystem.Queued(channel) + {key}
    ensures WarmSystem.Distinct(channel) && key !in channel ==> WarmSystem.Distinct(channel + [key])
  {
  }

  /** A producer's key, or the worker's, moves into the channel. */
  lemma SendingKeepsExact(q: Queue, hand: Hand, mid: set<Key>, key: Key, left: Hand)
    requires Exact(q, hand, mid)
    requires (key in mid && left == hand) || (Held(hand) == {key} && Held(left) == {})
    ensures Exact(q.(channel := q.channel + [key]), left, mid - {key})
  {
    QueuedAppend(q.channel, key);
    assert key !in WarmSystem.Queued(q.channel);
  }

  lemma SendKeepsSound(m: Machine, key: Key)
    requires Sound(m) && key in m.sending
    ensures Sound(AfterSend(m, key))
  {
    var after := AfterSend(m, key);
    if |m.queue.channel| < WARM_QUEUE_CAPACITY {
      SendingKeepsExact(m.queue, m.hand, MidRecord(m), key, m.hand);
      assert MidRecord(after) == MidRecord(m) - {key};
    } else {
      assert MidRecord(after) == MidRecord(m);
    }
  }

  lemma UndoKeepsSound(m: Machine, key: Key)
    requires Sound(m) && key in m.refused
    ensures Sound(AfterUndo(m, key))
  {
    assert MidRecord(AfterUndo(m, key)) == MidRecord(m) - {key};
  }

  lemma ReceivingKeepsExact(q: Queue, mid: set<Key>)
    requires Exact(q, Resting, mid) && q.channel != []
    ensures Exact(q.(channel := q.channel[1..]), Received(q.channel[0]), mid)
  {
    var channel := q.channel;
    assert channel == [channel[0]] + channel[1..];
    assert WarmSystem.Queued(channel) == {channel[0]} + WarmSystem.Queued(channel[1..]);
  }

  lemma ReceiveKeepsSound(m: Machine)
    requires Sound(m) && m.hand.Resting? && m.queue.channel != []
    ensures Sound(AfterReceive(m))
  {
    ReceivingKeepsExact(m.queue, MidRecord(m));
  }

  lemma ReleaseKeepsSound(m: Machine, key: Key, sender: bool)
    requires Sound(m) && m.hand == Ending(key, sender)
    ensures Sound(AfterRelease(m, key, sender))
  {
    assert AfterRelease(m, key, sender).queue.scheduled == WarmSystem.Queued(m.queue.channel) + MidRecord(m);
  }

  lemma LookKeepsSound(m: Machine)
    requires Sound(m) && m.hand.Looking?
    ensures Sound(AfterLook(m))
  {
  }

  lemma PushKeepsSound(m: Machine, key: Key)
    requires Sound(m) && m.hand == Pushing(key)
    ensures Sound(AfterPush(m, key))
  {
    if |m.queue.channel| < WARM_QUEUE_CAPACITY {
      SendingKeepsExact(m.queue, m.hand, MidRecord(m), key, Looking);
      assert key !in MidRecord(m) && MidRecord(m) - {key} == MidRecord(m);
    }
  }

  lemma UndoPushKeepsSound(m: Machine, key: Key)
    requires Sound(m) && m.hand == PushRefused(key)
    ensures Sound(AfterUndoPush(m, key))
  {
    assert AfterUndoPush(m, key).queue.scheduled == WarmSystem.Queued(m.queue.channel) + MidRecord(m);
  }

  lemma CheckFrame(m: Machine)
    requires m.hand.Checking? && |m.queue.dirty| <= WARM_DIRTY_PROJECT_CAPACITY
    ensures var after := AfterCheck(m);
      && after == m.(queue := m.queue.(dirty := after.queue.dirty), hand := after.hand)
      && |after.queue.dirty| <= WARM_DIRTY_PROJECT_CAPACITY && (after.hand.Resting? || after.hand.Reading?)
  {
    if AfterCheck(m).hand.Reading? { SubsetSize(AfterCheck(m).queue.dirty, m.queue.dirty); }
  }

  lemma CheckKeepsSound(m: Machine)
    requires Sound(m) && m.hand.Checking?
    ensures Sound(AfterCheck(m))
  {
    CheckFrame(m);
  }

  lemma BuildingScenesFound(disk: Disk, root: nat)
    ensures var found := BuildingScenes(disk, root);
      && BuildingKeys(found, root) == found.Keys == BuildingKeys(disk, root)
      && forall key | key in found :: found[key] == disk[key]
  {
  }

  lemma MergeFrame(q: Queue, disk: Disk, root: nat, keys: seq<Key>)
    requires forall key | key in keys :: key in disk
    ensures var after := WarmQueue.Merge(q, disk, root, keys);
      && after == q.(latest := after.latest, dirty := after.dirty)
      && after.latest == InsertRecovered(q, disk, keys).0.latest
      && (after.dirty == q.dirty || after.dirty == q.dirty + {root})
      && (|q.dirty| <= WARM_DIRTY_PROJECT_CAPACITY ==> |after.dirty| <= WARM_DIRTY_PROJECT_CAPACITY)
  {
    InsertRecoveredFrame(q, disk, keys);
    if root in q.dirty { assert q.dirty + {root} == q.dirty; }
  }

  lemma MergeKeepsSound(m: Machine, root: nat, found: Disk)
    requires Sound(m) && m.hand == Merging(root, found)
    ensures Sound(AfterMerge(m, root, found))
  {
    MergeFrame(m.queue, found, root, Recovered(found, root));
  }

  lemma StepKeepsSound(m: Machine, step: Step)
    requires Sound(m) && Enabled(m, step)
    ensures Sound(Apply(m, step))
  {
    match step
    case Begin(key, target) => BeginKeepsSound(m, key, target);
    case Send(key) => SendKeepsSound(m, key);
    case Undo(key) => UndoKeepsSound(m, key);
    case Receive => ReceiveKeepsSound(m);
    case Release => ReleaseKeepsSound(m, m.hand.key, m.hand.sender);
    case Look => LookKeepsSound(m);
    case Push => PushKeepsSound(m, m.hand.key);
    case UndoPush => UndoPushKeepsSound(m, m.hand.key);
    case Check => CheckKeepsSound(m);
    case Merge => MergeKeepsSound(m, m.hand.root, m.hand.found);
    case _ =>
  }

  lemma {:induction false} RunKeepsSound(run: Run, t: nat)
    requires IsRun(run) && t < |run.states|
    ensures Sound(run.states[t])
  {
    if t == 0 {
      assert START.queue == EMPTY && WarmSystem.Queued([]) == {};
    } else {
      RunKeepsSound(run, t - 1);
      assert StepAt(run, t - 1);
      StepKeepsSound(run.states[t - 1], run.steps[t - 1]);
    }
  }

  /** In every run a scheduled key has exactly one job: in the channel, with the worker, or with one producer that is
      still sending it. Nobody else's key is scheduled. */
  lemma OneJobInEveryRun(run: Run, t: nat, key: Key)
    requires IsRun(run) && t < |run.states|
    ensures var m := run.states[t];
      var jobs := multiset(m.queue.channel) + multiset(Held(m.hand)) + multiset(m.sending) + multiset(m.refused);
      jobs[key] == if key in m.queue.scheduled then 1 else 0
  {
    RunKeepsSound(run, t);
    var m := run.states[t];
    DistinctOnce(m.queue.channel, key);
    assert key in m.queue.channel <==> key in WarmSystem.Queued(m.queue.channel);
    assert key in MidRecord(m) <==> key in m.sending || key in m.refused;
  }

  lemma {:induction false} DistinctOnce(channel: seq<Key>, key: Key)
    requires WarmSystem.Distinct(channel)
    ensures multiset(channel)[key] == if key in channel then 1 else 0
  {
    if channel != [] {
      var last := |channel| - 1;
      assert channel == channel[..last] + [channel[last]];
      DistinctOnce(channel[..last], key);
    }
  }

  // ----- space

  /** At most `limit` producers are between two steps of theirs at any moment. */
  predicate FewProducers(run: Run, limit: nat) {
    forall m | m in run.states :: |MidRecord(m)| <= limit
  }

  predicate Spacious(q: Queue, limit: nat) {
    |q.latest.Keys + q.scheduled| <= WARM_LATEST_CAPACITY + WARM_QUEUE_CAPACITY + limit
  }

  lemma ScheduledSize(m: Machine)
    requires Sound(m)
    ensures |m.queue.scheduled| <= WARM_QUEUE_CAPACITY + |Held(m.hand)| + |MidRecord(m)|
  {
    var queued := WarmSystem.Queued(m.queue.channel);
    WarmSystem.QueuedSize(m.queue.channel);
    WarmSystem.UnionSize(queued + Held(m.hand), MidRecord(m));
    WarmSystem.UnionSize(queued, Held(m.hand));
  }

  lemma OneMoreName(latest: set<Key>, scheduled: set<Key>, key: Key, limit: nat)
    requires |latest| < WARM_LATEST_CAPACITY && |scheduled| <= WARM_QUEUE_CAPACITY + limit
    ensures |latest + scheduled + {key}| <= WARM_LATEST_CAPACITY + WARM_QUEUE_CAPACITY + limit
  {
    WarmSystem.UnionSize(latest, scheduled);
    WarmSystem.UnionSize(latest + scheduled, {key});
  }

  lemma MustSendGrows(m: Machine, key: Key, target: Target)
    requires Sound(m) && !Blocked(m.queue, key, target) && BeginRecord(m.queue, key, target).1 == MustSend
    ensures |MidRecord(AfterBegin(m, key, target))| == |MidRecord(m)| + 1
  {
    assert MidRecord(AfterBegin(m, key, target)) == MidRecord(m) + {key} && key !in MidRecord(m);
  }

  lemma KeysGrow(latest: map<Key, Target>, key: Key, target: Target)
    ensures latest[key := target].Keys == latest.Keys + {key}
  {
  }

  lemma UnionGrows(a: set<Key>, b: set<Key>, key: Key)
    ensures a + {key} + (b + {key}) == a + b + {key}
    ensures key in b ==> a + {key} + b == a + b + {key}
  {
  }

  lemma BeginNames(q: Queue, key: Key, target: Target)
    requires Known(q, key) || |q.latest| < WARM_LATEST_CAPACITY
    ensures var after := BeginRecord(q, key, target).0;
      after.latest.Keys + after.scheduled == q.latest.Keys + q.scheduled + {key}
  {
    KeysGrow(q.latest, key, target);
    UnionGrows(q.latest.Keys, q.scheduled, key);
  }

  lemma BeginKeepsSpace(m: Machine, key: Key, target: Target, limit: nat)
    requires Sound(m) && !Blocked(m.queue, key, target) && Spacious(m.queue, limit)
    requires |MidRecord(AfterBegin(m, key, target))| <= limit
    ensures Spacious(AfterBegin(m, key, target).queue, limit)
  {
    var q := m.queue;
    if Known(q, key) {
      BeginNames(q, key, target);
      assert q.latest.Keys + q.scheduled + {key} == q.latest.Keys + q.scheduled;
    } else if |q.latest| < WARM_LATEST_CAPACITY {
      BeginNames(q, key, target);
      MustSendGrows(m, key, target);
      ScheduledSize(m);
      assert |q.latest.Keys| == |q.latest| && |Held(m.hand)| <= 1;
      OneMoreName(q.latest.Keys, q.scheduled, key, limit);
    }
  }

  lemma MergeKeepsSpace(m: Machine, root: nat, found: Disk, limit: nat)
    requires Sound(m) && m.hand == Merging(root, found) && Spacious(m.queue, limit)
    requires |MidRecord(m)| <= limit
    ensures Spacious(AfterMerge(m, root, found).queue, limit)
  {
    var keys := Recovered(found, root);
    MergeFrame(m.queue, found, root, keys);
    InsertRecoveredFrame(m.queue, found, keys);
    var after := InsertRecovered(m.queue, found, keys).0;
    if |m.queue.latest| >= WARM_LATEST_CAPACITY {
      FullTakesNothing(m.queue, found, keys);
    } else {
      WarmSystem.InsertRecoveredSize(m.queue, found, keys);
      ScheduledSize(m);
      WarmSystem.UnionSize(after.latest.Keys, after.scheduled);
      assert |after.latest.Keys| == |after.latest|;
    }
  }

  lemma {:induction false} FullTakesNothing(q: Queue, disk: Disk, keys: seq<Key>)
    requires forall key | key in keys :: key in disk
    requires |q.latest| >= WARM_LATEST_CAPACITY
    ensures InsertRecovered(q, disk, keys).0 == q
    decreases |keys|
  {
    if keys != [] && Known(q, keys[0]) { FullTakesNothing(q, disk, keys[1..]); }
  }

  lemma LookNamesNoKey(m: Machine)
    requires m.hand.Looking?
    ensures AfterLook(m).queue.latest == m.queue.latest
    ensures AfterLook(m).queue.scheduled <= m.queue.latest.Keys + m.queue.scheduled
  {
  }

  /** Every other step names no new key. */
  lemma OtherStepsNameNoKey(m: Machine, step: Step, after: Queue)
    requires Enabled(m, step) && !step.Begin? && !step.Merge? && !step.Look? && after == Apply(m, step).queue
    ensures after.latest.Keys <= m.queue.latest.Keys && after.scheduled <= m.queue.scheduled
  {
  }

  lemma StepKeepsSpace(m: Machine, step: Step, after: Machine, limit: nat)
    requires Sound(m) && Enabled(m, step) && Spacious(m.queue, limit) && after == Apply(m, step)
    requires |MidRecord(m)| <= limit && |MidRecord(after)| <= limit
    ensures Spacious(after.queue, limit)
  {
    if step.Begin? {
      BeginKeepsSpace(m, step.key, step.target, limit);
    } else if step.Merge? {
      MergeKeepsSpace(m, m.hand.root, m.hand.found, limit);
    } else if step.Look? {
      LookNamesNoKey(m);
      SubsetSize(after.queue.latest.Keys + after.queue.scheduled, m.queue.latest.Keys + m.queue.scheduled);
    } else {
      OtherStepsNameNoKey(m, step, after.queue);
      SubsetSize(after.queue.latest.Keys + after.queue.scheduled, m.queue.latest.Keys + m.queue.scheduled);
    }
  }

  /** With at most `limit` producers between their steps, the scheduler never names more than ten keys and one for
      each of them, and never more than four dirty Projects. */
  lemma SpaceIsBounded(run: Run, t: nat, limit: nat)
    requires IsRun(run) && t < |run.states| && FewProducers(run, limit)
    ensures var q := run.states[t].queue; |q.latest.Keys + q.scheduled| <= 10 + limit && |q.dirty| <= 4
  {
    RunKeepsSound(run, t);
    RunKeepsSpace(run, t, limit);
  }

  lemma RunStepKeepsSpace(run: Run, t: nat, limit: nat)
    requires IsRun(run) && t < |run.steps| && FewProducers(run, limit)
    requires Spacious(run.states[t].queue, limit)
    ensures Spacious(run.states[t + 1].queue, limit)
  {
    RunKeepsSound(run, t);
    assert StepAt(run, t) && run.states[t] in run.states && run.states[t + 1] in run.states;
    StepKeepsSpace(run.states[t], run.steps[t], run.states[t + 1], limit);
  }

  lemma StartIsSpacious(limit: nat)
    ensures Spacious(START.queue, limit)
  {
    assert START.queue.latest.Keys + START.queue.scheduled == {};
  }

  lemma {:induction false} RunKeepsSpace(run: Run, t: nat, limit: nat)
    requires IsRun(run) && t < |run.states| && FewProducers(run, limit)
    ensures Spacious(run.states[t].queue, limit)
  {
    if t == 0 {
      StartIsSpacious(limit);
    } else {
      RunKeepsSpace(run, t - 1, limit);
      RunStepKeepsSpace(run, t - 1, limit);
    }
  }

  // ----- supply

  predicate HasWork(q: Queue) {
    q.latest != map[] || q.dirty != {}
  }

  /** Somebody is about to hand the worker a job, or it is at work and will look for one. */
  predicate Attended(m: Machine) {
    m.queue.channel != [] || !m.hand.Resting? || MidRecord(m) != {}
  }

  predicate Supplied(m: Machine) {
    m.senderOpen && HasWork(m.queue) ==> Attended(m)
  }

  /** The two steps that leave work to nobody: the last producer's undo when channel and worker have meanwhile been
      drained, and the worker's leaving the loop when a key has become unscheduled since it looked. */
  predicate Strands(m: Machine, step: Step) {
    && m.senderOpen && m.queue.channel == []
    && match step
       case Undo(key) => m.hand.Resting? && MidRecord(m) == {key} && HasWork(m.queue)
       case Check => MidRecord(m) == {} && m.queue.latest != map[]
                     && (m.queue.dirty == {} || |m.queue.latest| >= WARM_LATEST_CAPACITY)
       case _ => false
  }

  /** A scheduled key has a job somewhere. */
  lemma ScheduledIsAttended(m: Machine, key: Key)
    requires Sound(m) && key in m.queue.scheduled
    ensures Attended(m)
  {
    assert key in WarmSystem.Queued(m.queue.channel) || key in Held(m.hand) || key in MidRecord(m);
  }

  lemma BeginKeepsSupply(m: Machine, key: Key, target: Target)
    requires Sound(m) && Supplied(m) && Recordable(m, key, target)
    ensures Supplied(AfterBegin(m, key, target))
  {
    var after := AfterBegin(m, key, target);
    if BeginRecord(m.queue, key, target).1 == MustSend {
      assert key in MidRecord(after);
    } else if key in m.queue.scheduled {
      ScheduledIsAttended(m, key);
    } else {
      assert |m.queue.latest| >= WARM_LATEST_CAPACITY;
      assert HasWork(m.queue);
    }
  }

  lemma SendKeepsSupply(m: Machine, key: Key)
    requires Sound(m) && key in m.sending
    ensures Attended(AfterSend(m, key))
  {
    if |m.queue.channel| >= WARM_QUEUE_CAPACITY { assert m.queue.channel != []; }
  }

  lemma UndoStrandsExactlyWhenAlone(m: Machine, key: Key)
    requires Sound(m) && key in m.refused
    ensures Supplied(AfterUndo(m, key)) <==> !Strands(m, Undo(key))
  {
    assert MidRecord(AfterUndo(m, key)) == MidRecord(m) - {key};
    assert MidRecord(m) - {key} == {} <==> MidRecord(m) == {key};
  }

  lemma CheckStrandsExactlyWhenLate(m: Machine)
    requires Sound(m) && m.hand.Checking?
    ensures Supplied(AfterCheck(m)) <==> !Strands(m, Check)
  {
    if |m.queue.latest| >= WARM_LATEST_CAPACITY { assert m.queue.latest != map[]; }
  }

  /** Whatever else happens brings no work, and takes neither job nor producer away. */
  lemma OutsideKeepsSupply(m: Machine, step: Step)
    requires Supplied(m) && Enabled(m, step)
    requires step.Remove? || step.Withdraw? || step.Advance? || step.Settle? || step.Discard?
    ensures Supplied(Apply(m, step))
  {
    assert MidRecord(Apply(m, step)) == MidRecord(m);
  }

  lemma WorkerKeepsSupply(m: Machine, step: Step)
    requires Sound(m) && Enabled(m, step)
    requires step.Receive? || step.Take? || step.CloneSender? || step.Release? || step.Look? || step.Push?
             || step.Read? || step.Merge? || step.CloseSender?
    ensures Supplied(Apply(m, step))
  {
  }

  /** From a supplied state exactly these two steps lead to one that is not. */
  lemma SupplyEndsExactlyWhenStranded(m: Machine, step: Step)
    requires Sound(m) && Supplied(m) && Enabled(m, step)
    ensures Supplied(Apply(m, step)) <==> !Strands(m, step)
  {
    match step
    case Begin(key, target) => BeginKeepsSupply(m, key, target);
    case Send(key) => SendKeepsSupply(m, key);
    case Undo(key) => UndoStrandsExactlyWhenAlone(m, key);
    case Check => CheckStrandsExactlyWhenLate(m);
    case UndoPush => assert m.queue.channel != [];
    case Remove(_) => OutsideKeepsSupply(m, step);
    case Withdraw(_) => OutsideKeepsSupply(m, step);
    case Advance(_) => OutsideKeepsSupply(m, step);
    case Settle(_) => OutsideKeepsSupply(m, step);
    case Discard(_) => OutsideKeepsSupply(m, step);
    case _ => WorkerKeepsSupply(m, step);
  }

  ghost predicate StrandsAt(run: Run, t: nat)
    requires IsRun(run) && t < |run.steps|
  {
    Strands(run.states[t], run.steps[t])
  }

  /** In every run without such a step, pending work comes with a job in the channel, a worker at work or a producer
      between its steps. */
  lemma {:induction false} RunStaysSupplied(run: Run, t: nat)
    requires IsRun(run) && t < |run.states|
    requires forall k | 0 <= k < t :: !StrandsAt(run, k)
    ensures Supplied(run.states[t])
  {
    if t > 0 {
      RunStaysSupplied(run, t - 1);
      RunKeepsSound(run, t - 1);
      assert StepAt(run, t - 1) && !StrandsAt(run, t - 1);
      SupplyEndsExactlyWhenStranded(run.states[t - 1], run.steps[t - 1]);
    }
  }
}
