/** What becomes of promised invalidations when the lock is given back: which step can lose one, and exactly when. */
module WarmPromises {
  import opened Wrappers
  import opened WarmKeys
  import opened WarmQueue
  import opened WarmSteps
  import WarmSystem

  // ----- what a recovered batch brings in

  function Unknown(q: Queue, keys: seq<Key>): seq<Key> {
    if keys == [] then []
    else if Known(q, keys[0]) then Unknown(q, keys[1..])
    else [keys[0]] + Unknown(q, keys[1..])
  }

  function Room(q: Queue): nat {
    if |q.latest| < WARM_LATEST_CAPACITY then WARM_LATEST_CAPACITY - |q.latest| else 0
  }

  /** The unknown keys for which there is room, in order. */
  function Fitting(q: Queue, keys: seq<Key>): seq<Key> {
    if |Unknown(q, keys)| <= Room(q) then Unknown(q, keys) else Unknown(q, keys)[..Room(q)]
  }

  lemma {:induction false} UnknownKeys(q: Queue, keys: seq<Key>, key: Key)
    ensures key in Unknown(q, keys) <==> key in keys && !Known(q, key)
  {
    if keys != [] { UnknownKeys(q, keys[1..], key); }
  }

  lemma {:induction false} OthersStayUnknown(q: Queue, key: Key, target: Target, keys: seq<Key>)
    requires key !in keys
    ensures Unknown(q.(latest := q.latest[key := target]), keys) == Unknown(q, keys)
  {
    if keys != [] { OthersStayUnknown(q, key, target, keys[1..]); }
  }

  ghost predicate GoneIn(q: Queue, after: Queue, fitting: seq<Key>) {
    forall key :: key in after.latest <==> key in q.latest || key in fitting
  }

  /** Exactly the first unknown keys that there is room for go in; the flag says that there are more. */
  lemma {:induction false} FittingKeysGoIn(q: Queue, disk: Disk, keys: seq<Key>)
    requires WarmSystem.Distinct(keys) && forall key | key in keys :: key in disk
    ensures var (after, overflow) := InsertRecovered(q, disk, keys);
      && GoneIn(q, after, Fitting(q, keys))
      && (overflow <==> |Unknown(q, keys)| > Room(q))
    decreases |keys|
  {
    if keys != [] {
      var key, rest := keys[0], keys[1..];
      assert WarmSystem.Distinct(rest) && key !in rest;
      if Known(q, key) {
        FittingKeysGoIn(q, disk, rest);
      } else if Room(q) > 0 {
        var q1 := q.(latest := q.latest[key := RecoveredTarget(disk, key)]);
        FittingKeysGoIn(q1, disk, rest);
        OthersStayUnknown(q, key, RecoveredTarget(disk, key), rest);
        FirstFits(q, q1, keys);
      }
    }
  }

  lemma FirstFits(q: Queue, q1: Queue, keys: seq<Key>)
    requires keys != [] && !Known(q, keys[0]) && Room(q) > 0 && Room(q1) == Room(q) - 1
    requires Unknown(q1, keys[1..]) == Unknown(q, keys[1..])
    ensures Fitting(q, keys) == [keys[0]] + Fitting(q1, keys[1..])
  {
  }

  lemma RecoveredAreDistinct(disk: Disk, root: nat)
    ensures WarmSystem.Distinct(Recovered(disk, root))
  {
    AscendingAscends(BuildingKeys(disk, root));
  }

  // ----- promises

  /** The worker has the key's Project in hand and will find the key, or has found it, new enough. */
  predicate InHand(hand: Hand, key: Key, generation: nat) {
    match hand
    case Reading(root) => root == key.project
    case Merging(root, found) => root == key.project && key in found && generation <= found[key].generation
    case _ => false
  }

  /** `latest` holds a target new enough; or the key is unknown, and its Project is dirty or in the worker's hand. */
  predicate Kept(m: Machine, key: Key)
    requires key in m.promised
  {
    if key in m.queue.latest then WarmSystem.Covers(m.queue.latest[key], m.promised, key)
    else key !in m.queue.scheduled && (key.project in m.queue.dirty || InHand(m.hand, key, m.promised[key]))
  }

  predicate AllKept(m: Machine) {
    forall key | key in m.promised :: Kept(m, key)
  }

  predicate OnlyBuilding(hand: Hand) {
    hand.Merging? ==> forall key | key in hand.found :: key.project == hand.root && hand.found[key].building
  }

  predicate Keeping(m: Machine) {
    WarmSystem.Ledger(m.disk, m.promised) && OnlyBuilding(m.hand) && AllKept(m)
  }

  lemma HandKept(m: Machine, step: Step)
    requires Enabled(m, step) && OnlyBuilding(m.hand)
    ensures OnlyBuilding(Apply(m, step).hand)
  {
  }

  lemma LedgerKept(m: Machine, step: Step)
    requires Enabled(m, step) && WarmSystem.Ledger(m.disk, m.promised) && OnlyBuilding(m.hand)
    ensures WarmSystem.Ledger(Apply(m, step).disk, Apply(m, step).promised) && OnlyBuilding(Apply(m, step).hand)
  {
    HandKept(m, step);
  }

  lemma BeginKeepsPromises(m: Machine, key: Key, target: Target)
    requires WarmSystem.Ledger(m.disk, m.promised) && AllKept(m) && Recordable(m, key, target)
    ensures AllKept(AfterBegin(m, key, target))
  {
    var after := AfterBegin(m, key, target);
    forall k | k in after.promised ensures Kept(after, k) {
      if k != key { assert Kept(m, k); }
    }
  }

  lemma TakeKeepsPromises(m: Machine, key: Key)
    requires AllKept(m) && m.hand == Received(key)
    ensures AllKept(AfterTake(m, key))
  {
    var after := AfterTake(m, key);
    forall k | k in after.promised ensures Kept(after, k) { assert Kept(m, k); }
  }

  lemma CheckKeepsPromises(m: Machine)
    requires AllKept(m) && m.hand.Checking?
    ensures AllKept(AfterCheck(m))
  {
    forall k | k in m.promised ensures Kept(AfterCheck(m), k) { assert Kept(m, k); }
  }

  lemma ReadKeepsPromises(m: Machine)
    requires WarmSystem.Ledger(m.disk, m.promised) && AllKept(m) && m.hand.Reading?
    ensures AllKept(Apply(m, Read))
  {
    forall k | k in m.promised ensures Kept(Apply(m, Read), k) { assert Kept(m, k); }
  }

  lemma OtherStepsKeepPromises(m: Machine, step: Step, after: Machine)
    requires AllKept(m) && Enabled(m, step) && after == Apply(m, step)
    requires !step.Begin? && !step.Take? && !step.Check? && !step.Read? && !step.Merge?
    ensures AllKept(after)
  {
    forall k | k in after.promised ensures Kept(after, k) { assert Kept(m, k); }
  }

  lemma StepKeepsPromises(m: Machine, step: Step)
    requires Keeping(m) && Enabled(m, step) && !step.Merge?
    ensures Keeping(Apply(m, step))
  {
    LedgerKept(m, step);
    if step.Begin? {
      BeginKeepsPromises(m, step.key, step.target);
    } else if step.Take? {
      TakeKeepsPromises(m, m.hand.key);
    } else if step.Check? {
      CheckKeepsPromises(m);
    } else if step.Read? {
      ReadKeepsPromises(m);
    } else {
      OtherStepsKeepPromises(m, step, Apply(m, step));
    }
  }

  // ----- merging

  ghost function Incoming(q: Queue, root: nat, found: Disk): seq<Key> {
    Fitting(q, Recovered(found, root))
  }

  /** A promised Scene that the queue does not know is shadowed if it fits with a generation older than the promised
      one; it is forgotten if it does not fit and other Projects have all dirty slots. */
  ghost predicate Loses(m: Machine, root: nat, found: Disk, key: Key)
    requires key in m.promised
  {
    && key.project == root && !Known(m.queue, key)
    && if key in found && key in Incoming(m.queue, root, found) then found[key].generation < m.promised[key]
       else root !in m.queue.dirty && |m.queue.dirty| >= WARM_DIRTY_PROJECT_CAPACITY
  }

  lemma FittingAreUnknown(q: Queue, keys: seq<Key>, key: Key)
    requires key in Fitting(q, keys)
    ensures key in keys && !Known(q, key)
  {
    UnknownKeys(q, keys, key);
  }

  lemma MergedLatest(q: Queue, root: nat, found: Disk, key: Key)
    ensures var after := WarmQueue.Merge(q, found, root, Recovered(found, root));
      && (key in after.latest <==> key in q.latest || key in Incoming(q, root, found))
      && (key in q.latest ==> key in after.latest && after.latest[key] == q.latest[key])
      && (key in Incoming(q, root, found) ==>
            key in found && !Known(q, key) && key.project == root
            && key in after.latest && after.latest[key] == RecoveredTarget(found, key))
  {
    var keys := Recovered(found, root);
    RecoveredAreDistinct(found, root);
    FittingKeysGoIn(q, found, keys);
    InsertRecoveredFrame(q, found, keys);
    MergeFrame(q, found, root, keys);
    if key in Incoming(q, root, found) { FittingAreUnknown(q, keys, key); }
  }

  /** A Project that found no room for one of its Scenes is dirty again exactly if it was, or a slot is left. */
  lemma MergedDirty(q: Queue, root: nat, found: Disk)
    ensures var after := WarmQueue.Merge(q, found, root, Recovered(found, root));
      var full := |Unknown(q, Recovered(found, root))| > Room(q);
      && q.dirty <= after.dirty <= q.dirty + {root}
      && (root in after.dirty <==> root in q.dirty || (full && |q.dirty| < WARM_DIRTY_PROJECT_CAPACITY))
  {
    var keys := Recovered(found, root);
    RecoveredAreDistinct(found, root);
    FittingKeysGoIn(q, found, keys);
    MergeFrame(q, found, root, keys);
    InsertRecoveredFrame(q, found, keys);
  }

  lemma LeftOutMeansFull(q: Queue, keys: seq<Key>, key: Key)
    requires key in keys && !Known(q, key) && key !in Fitting(q, keys)
    ensures |Unknown(q, keys)| > Room(q)
  {
    UnknownKeys(q, keys, key);
  }

  lemma MergeKeepsOneExactlyWhen(m: Machine, root: nat, found: Disk, key: Key)
    requires Keeping(m) && m.hand == Merging(root, found) && key in m.promised
    ensures Kept(AfterMerge(m, root, found), key) <==> !Loses(m, root, found, key)
  {
    assert Kept(m, key);
    MergedLatest(m.queue, root, found, key);
    MergedDirty(m.queue, root, found);
    MergeFrame(m.queue, found, root, Recovered(found, root));
    if key in found && key.project == root && !Known(m.queue, key) && key !in Incoming(m.queue, root, found) {
      assert key in BuildingKeys(found, root);
      LeftOutMeansFull(m.queue, Recovered(found, root), key);
    }
  }

  ghost predicate LosesSome(m: Machine, root: nat, found: Disk) {
    exists key | key in m.promised :: Loses(m, root, found, key)
  }

  /** Folding the recovered Scenes in keeps every promise exactly if it forgets and shadows none. */
  lemma MergeKeepsPromisesExactlyWhen(m: Machine, root: nat, found: Disk)
    requires Keeping(m) && m.hand == Merging(root, found)
    ensures Keeping(AfterMerge(m, root, found)) <==> !LosesSome(m, root, found)
  {
    forall key | key in m.promised
      ensures Kept(AfterMerge(m, root, found), key) <==> !Loses(m, root, found, key)
    {
      MergeKeepsOneExactlyWhen(m, root, found, key);
    }
  }

  /** What a loss takes: more new Scenes than `latest` has room for and four other dirty Projects, or a promise renewed
      after the Project was read. */
  lemma LossNeedsPressure(m: Machine, root: nat, found: Disk, key: Key)
    requires Keeping(m) && m.hand == Merging(root, found) && key in m.promised && Loses(m, root, found, key)
    ensures || (|m.queue.latest| + |Unknown(m.queue, Recovered(found, root))| > WARM_LATEST_CAPACITY
                && root !in m.queue.dirty && |m.queue.dirty| >= WARM_DIRTY_PROJECT_CAPACITY)
            || (root in m.queue.dirty && key in found && found[key].generation < m.promised[key])
  {
    assert Kept(m, key);
    if !(key in found && key in Incoming(m.queue, root, found)) {
      assert key in BuildingKeys(found, root);
      LeftOutMeansFull(m.queue, Recovered(found, root), key);
    }
  }

  ghost predicate LosesAt(run: Run, t: nat)
    requires IsRun(run) && t < |run.steps|
  {
    var m := run.states[t];
    run.steps[t].Merge? && m.hand.Merging? && LosesSome(m, m.hand.root, m.hand.found)
  }

  ghost predicate NoLoss(run: Run, t: nat)
    requires IsRun(run) && t <= |run.steps|
  {
    forall k | 0 <= k < t :: !LosesAt(run, k)
  }

  lemma {:induction false} RunKeepsPromises(run: Run, t: nat)
    requires IsRun(run) && t < |run.states| && NoLoss(run, t)
    ensures Keeping(run.states[t])
  {
    if t > 0 {
      RunKeepsPromises(run, t - 1);
      var m := run.states[t - 1];
      assert StepAt(run, t - 1) && !LosesAt(run, t - 1);
      if run.steps[t - 1].Merge? {
        MergeKeepsPromisesExactlyWhen(m, m.hand.root, m.hand.found);
      } else {
        StepKeepsPromises(m, run.steps[t - 1]);
      }
    }
  }

  // ----- over whole runs

  /** A producer got past the first locked section of `record` with a Scene that waits for its build. */
  ghost predicate AdmittedAt(run: Run, t: nat, key: Key, generation: nat)
    requires IsRun(run) && t < |run.steps|
  {
    && run.steps[t].Begin? && run.steps[t].key == key
    && run.steps[t].target.sceneGeneration == Some(generation)
    && WarmSystem.Owed(run.states[t].disk, key, run.steps[t].target)
  }

  /** The events that settle it: it is withdrawn, its descriptor leaves Building or is gone, the worker takes a target
      at least as new, or a late record overtakes it. */
  predicate DischargedAt(run: Run, t: nat, key: Key, generation: nat)
    requires |run.states| == |run.steps| + 1 && t < |run.steps|
  {
    var m := run.states[t];
    match run.steps[t]
    case Withdraw(k) => k == key
    case Remove(k) => k == key
    case Discard(k) => k == key
    case Settle(k) => k == key
    case Take =>
      && m.hand == Received(key) && key in m.queue.latest && m.queue.latest[key].sceneGeneration.Some?
      && generation <= m.queue.latest[key].sceneGeneration.value
    case Begin(k, target) => k == key && WarmSystem.Overtakes(m.queue, m.disk, key, generation, target)
    case _ => false
  }

  predicate Promised(m: Machine, key: Key, generation: nat) {
    key in m.promised && generation <= m.promised[key]
  }

  lemma {:induction false} PromiseLasts(run: Run, from: nat, t: nat, key: Key, generation: nat)
    requires IsRun(run) && from < t < |run.states| && AdmittedAt(run, from, key, generation)
    requires forall k | from < k < t :: !DischargedAt(run, k, key, generation)
    ensures Promised(run.states[t], key, generation)
  {
    assert StepAt(run, t - 1);
    if t > from + 1 {
      PromiseLasts(run, from, t - 1, key, generation);
      assert !DischargedAt(run, t - 1, key, generation);
    }
  }

  /** In every run without a losing merge, an admitted invalidation is where the worker will come to it: in `latest`
      at a generation at least as new, or unknown with its Project dirty or in the worker's hand. */
  lemma NoInvalidationIsLost(run: Run, from: nat, t: nat, key: Key, generation: nat)
    requires IsRun(run) && from < t < |run.states| && AdmittedAt(run, from, key, generation)
    requires forall k | from < k < t :: !DischargedAt(run, k, key, generation)
    requires NoLoss(run, t)
    ensures var m := run.states[t];
      || (key in m.queue.latest && m.queue.latest[key].sceneGeneration.Some?
          && generation <= m.queue.latest[key].sceneGeneration.value)
      || (!Known(m.queue, key) && key in m.disk && m.disk[key].building && generation <= m.disk[key].generation
          && (key.project in m.queue.dirty || InHand(m.hand, key, generation)))
  {
    PromiseLasts(run, from, t, key, generation);
    RunKeepsPromises(run, t);
    assert Kept(run.states[t], key);
  }
}
