/** What the worker is handed. A ledger is written from the calls alone, for Models, Project roots and Scenes alike:
    the last target recorded for a key, until it is taken, cancelled, or removed after a send to nobody. In every run
    `latest` is that ledger, and a take hands over exactly its entry. */
module WarmLedger {
  import opened Wrappers
  import opened WarmKeys
  import opened WarmQueue
  import opened WarmSystem

  type Entries = map<Key, Target>

  predicate FindsRoom(entries: Entries, scheduled: set<Key>, key: Key) {
    key in entries || key in scheduled || |entries| < WARM_LATEST_CAPACITY
  }

  /** A target made from a stored descriptor. */
  function FromDisk(disk: Disk, keys: set<Key>): Entries {
    map key | key in keys && key in disk :: Target(Some(disk[key].generation), 0)
  }

  /** The entries after one call; `back` are the keys that a retry brought back from disk. */
  function Entered(s: System, a: Action, entries: Entries, back: set<Key>): Entries {
    match a
    case RecordTarget(key, target) =>
      if !FindsRoom(entries, s.queue.scheduled, key) then entries
      else if key in s.queue.scheduled || s.queue.receiverAlive then entries[key := target]
      else entries - {key}
    case CancelTarget(key) => entries - {key}
    case Remove(key) => entries - {key}
    case Take => if s.worker.Received? then entries - {s.worker.key} else entries
    case Finish => entries + FromDisk(s.disk, back)
    case _ => entries
  }

  ghost function Ledger(states: seq<System>, actions: seq<Action>, i: nat): Entries
    requires |states| == |actions| + 1 && i < |states|
  {
    if i == 0 then map[] else
    var before := Ledger(states, actions, i - 1);
    Entered(states[i - 1], actions[i - 1], before, states[i].queue.latest.Keys - before.Keys)
  }

  // ----- what a retry brings back

  /** A retry keeps every target that waits; the others it leaves are of Building Scenes of dirty Projects. */
  ghost predicate BringsBack(q: Queue, disk: Disk, after: Queue) {
    && q.latest.Keys <= after.latest.Keys
    && (forall key | key in q.latest :: after.latest[key] == q.latest[key])
    && forall key | key in after.latest && key !in q.latest ::
         && key in disk && disk[key].building && key.project in q.dirty && key !in q.scheduled
         && after.latest[key] == Target(Some(disk[key].generation), 0)
  }

  lemma DrainedBringsBack(q: Queue, disk: Disk)
    requires q.dirty != {}
    ensures BringsBack(q, disk, Drained(q, disk)) && Drained(q, disk).dirty <= q.dirty
    ensures Drained(q, disk).scheduled == q.scheduled
  {
    var root := Least(q.dirty);
    InsertRecoveredFrame(q.(dirty := q.dirty - {root}), disk, Recovered(disk, root));
  }

  lemma {:induction false} RetryBringsBack(q: Queue, disk: Disk)
    requires q.receiverAlive
    ensures BringsBack(q, disk, Retry(q, disk))
    decreases FreeSlots(q), if Unscheduled(q) == {} then 1 else 0, |q.dirty|
  {
    if Unscheduled(q) != {} {
      if TrySend(q) == Sent { RetryBringsBack(Pushed(q), disk); }
    } else if |q.latest| < WARM_LATEST_CAPACITY && q.dirty != {} {
      DrainMakesProgress(q, disk);
      DrainedBringsBack(q, disk);
      DrainedKeepsReceiver(q, disk);
      RetryBringsBack(Drained(q, disk), disk);
    }
  }

  /** A retry that has something to send and nobody to send it to gives everything up. */
  lemma RetryToNobodyClears(q: Queue, disk: Disk)
    requires !q.receiverAlive && Unscheduled(q) != {}
    ensures var after := Retry(q, disk);
      after.latest == map[] && after.scheduled == {} && after.dirty == {} && after.channel == q.channel
  {
  }

  // ----- the ledger is `latest`

  lemma RemovedAgain(entries: Entries, key: Key, target: Target)
    ensures entries[key := target] - {key} == entries - {key}
  {
  }

  lemma PlacedRecordEnters(q: Queue, key: Key, target: Target)
    requires FindsRoom(q.latest, q.scheduled, key) && (key in q.scheduled || q.receiverAlive)
    ensures Record(q, key, target).0.latest == q.latest[key := target]
  {
  }

  lemma UnsentRecordLeaves(q: Queue, key: Key, target: Target)
    requires FindsRoom(q.latest, q.scheduled, key) && key !in q.scheduled && !q.receiverAlive
    ensures Record(q, key, target).0.latest == q.latest - {key}
  {
    RemovedAgain(q.latest, key, target);
  }

  lemma RecordEnters(q: Queue, key: Key, target: Target)
    requires !Blocked(q, key, target)
    ensures Record(q, key, target).0.latest
            == if !FindsRoom(q.latest, q.scheduled, key) then q.latest
               else if key in q.scheduled || q.receiverAlive then q.latest[key := target]
               else q.latest - {key}
  {
    if FindsRoom(q.latest, q.scheduled, key) {
      if key in q.scheduled || q.receiverAlive {
        PlacedRecordEnters(q, key, target);
      } else {
        UnsentRecordLeaves(q, key, target);
      }
    }
  }

  /** Nothing is lost or changed, and what is new was read from disk. */
  predicate GrowsFromDisk(entries: Entries, disk: Disk, after: Entries) {
    && entries.Keys <= after.Keys
    && (forall key | key in entries :: after[key] == entries[key])
    && forall key | key in after && key !in entries ::
         key in disk && after[key] == Target(Some(disk[key].generation), 0)
  }

  lemma GrownByRecovery(entries: Entries, disk: Disk, after: Entries)
    requires GrowsFromDisk(entries, disk, after)
    ensures after == entries + FromDisk(disk, after.Keys - entries.Keys)
  {
    var sum := entries + FromDisk(disk, after.Keys - entries.Keys);
    assert sum.Keys == after.Keys;
    forall key | key in sum ensures sum[key] == after[key] {}
  }

  lemma FinishEnters(s: System)
    requires s.worker.Warming? && s.queue.receiverAlive
    ensures BringsBack(s.queue.(scheduled := s.queue.scheduled - {s.worker.key}), s.disk, Finished(s).queue)
  {
    if s.senderOpen { RetryBringsBack(s.queue.(scheduled := s.queue.scheduled - {s.worker.key}), s.disk); }
  }

  lemma LedgerEnters(s: System, a: Action)
    requires Invariant(s) && Enabled(s, a)
    ensures var after := Apply(s, a).queue.latest;
      after == Entered(s, a, s.queue.latest, after.Keys - s.queue.latest.Keys)
  {
    if a.Finish? {
      FinishEnters(s);
      GrownByRecovery(s.queue.latest, s.disk, Finished(s).queue.latest);
    } else if a.RecordTarget? {
      RecordEnters(s.queue, a.key, a.target);
    } else {
      OtherCallEnters(s, a);
    }
  }

  lemma OtherCallEnters(s: System, a: Action)
    requires Enabled(s, a) && !a.Finish? && !a.RecordTarget?
    ensures Apply(s, a).queue.latest == Entered(s, a, s.queue.latest, {})
  {
    if a == Take && s.worker.key !in s.queue.latest {
      assert s.queue.latest - {s.worker.key} == s.queue.latest;
    }
  }

  /** In every run `latest` holds exactly what the ledger says. */
  lemma {:induction false} LatestIsTheLedger(states: seq<System>, actions: seq<Action>, i: nat)
    requires IsRun(states, actions) && i < |states|
    ensures states[i].queue.latest == Ledger(states, actions, i)
  {
    if i > 0 {
      LatestIsTheLedger(states, actions, i - 1);
      RunKeepsInvariant(states, actions, i - 1);
      assert StepAt(states, actions, i - 1);
      LedgerEnters(states[i - 1], actions[i - 1]);
    }
  }

  /** And a take hands the worker exactly the ledger's entry for the job it received, or nothing if there is none. */
  lemma TakeYieldsTheEntry(states: seq<System>, actions: seq<Action>, i: nat)
    requires IsRun(states, actions) && i < |actions| && actions[i] == Take
    ensures states[i].worker.Received?
    ensures var key, entries := states[i].worker.key, Ledger(states, actions, i);
      && states[i + 1].worker == Warming(key, if key in entries then Some(entries[key]) else None)
      && key !in states[i + 1].queue.latest
  {
    assert StepAt(states, actions, i);
    LatestIsTheLedger(states, actions, i);
  }

  // ----- one target, from its record to the worker

  /** The record at `i` put its target where the worker will look for it. */
  ghost predicate PlacedAt(states: seq<System>, actions: seq<Action>, i: nat, key: Key, target: Target)
    requires IsRun(states, actions) && i < |actions|
  {
    && actions[i] == RecordTarget(key, target)
    && FindsRoom(states[i].queue.latest, states[i].queue.scheduled, key)
    && (key in states[i].queue.scheduled || states[i].queue.receiverAlive)
  }

  /** The calls after which another target stands for the key, or none. */
  predicate Displaces(s: System, a: Action, key: Key) {
    match a
    case RecordTarget(k, _) => k == key
    case CancelTarget(k) => k == key
    case Remove(k) => k == key
    case Take => s.worker.Received? && s.worker.key == key
    case _ => false
  }

  ghost predicate Undisplaced(states: seq<System>, actions: seq<Action>, i: nat, j: nat, key: Key)
    requires IsRun(states, actions) && j < |states|
  {
    forall t | i < t < j :: !Displaces(states[t], actions[t], key)
  }

  lemma EntryStays(states: seq<System>, actions: seq<Action>, i: nat, key: Key)
    requires IsRun(states, actions) && i < |actions| && !Displaces(states[i], actions[i], key)
    requires key in Ledger(states, actions, i)
    ensures key in Ledger(states, actions, i + 1)
    ensures Ledger(states, actions, i + 1)[key] == Ledger(states, actions, i)[key]
  {
  }

  lemma EntryIsMade(states: seq<System>, actions: seq<Action>, i: nat, key: Key, target: Target)
    requires IsRun(states, actions) && i < |actions| && PlacedAt(states, actions, i, key, target)
    ensures key in Ledger(states, actions, i + 1) && Ledger(states, actions, i + 1)[key] == target
  {
    LatestIsTheLedger(states, actions, i);
  }

  lemma {:induction false} EntryStands(states: seq<System>, actions: seq<Action>, i: nat, j: nat, key: Key,
                                       target: Target)
    requires IsRun(states, actions) && i < j < |states| && PlacedAt(states, actions, i, key, target)
    requires Undisplaced(states, actions, i, j, key)
    ensures key in Ledger(states, actions, j) && Ledger(states, actions, j)[key] == target
  {
    if i == j - 1 {
      EntryIsMade(states, actions, i, key, target);
    } else {
      EntryStands(states, actions, i, j - 1, key, target);
      assert !Displaces(states[j - 1], actions[j - 1], key);
      EntryStays(states, actions, j - 1, key);
    }
  }

  /** A recorded target of any kind stands in `latest` as recorded until another call displaces it, and if that call
      is the worker's take, the worker is handed that very target. */
  lemma RecordedTargetIsDelivered(states: seq<System>, actions: seq<Action>, i: nat, j: nat, key: Key, target: Target)
    requires IsRun(states, actions) && i < j < |states| && PlacedAt(states, actions, i, key, target)
    requires Undisplaced(states, actions, i, j, key)
    ensures key in states[j].queue.latest && states[j].queue.latest[key] == target
    ensures j < |actions| && actions[j] == Take && states[j].worker == Received(key) ==>
              states[j + 1].worker == Warming(key, Some(target))
  {
    EntryStands(states, actions, i, j, key, target);
    LatestIsTheLedger(states, actions, j);
    if j < |actions| && actions[j] == Take { TakeYieldsTheEntry(states, actions, j); }
  }

  /** A record is answered with yes exactly if its target then stands in `latest`, or is a Scene's that found no room
      and whose Project is then dirty. */
  lemma AnswerIsTrue(q: Queue, key: Key, target: Target)
    requires !Blocked(q, key, target)
    ensures var (after, accepted) := Record(q, key, target);
      && (accepted <==> (key in after.latest && after.latest[key] == target)
                        || (target.sceneGeneration.Some? && !FindsRoom(q.latest, q.scheduled, key)
                            && key.project in after.dirty))
      && (accepted <==> if FindsRoom(q.latest, q.scheduled, key) then key in q.scheduled || q.receiverAlive
                        else target.sceneGeneration.Some?)
  {
  }

  /** A producer waits exactly while its Scene finds no room and one more dirty Project would be one too many. */
  lemma WaitsExactlyWhileNothingFits(q: Queue, key: Key, target: Target)
    requires |q.dirty| <= WARM_DIRTY_PROJECT_CAPACITY
    ensures Blocked(q, key, target)
            <==> target.sceneGeneration.Some? && !FindsRoom(q.latest, q.scheduled, key)
                 && |q.dirty + {key.project}| > WARM_DIRTY_PROJECT_CAPACITY
  {
    if key.project in q.dirty { assert q.dirty + {key.project} == q.dirty; }
  }
}
