/** The bounded warm queue as a value: what one atomic call of `LatestWarmState` does to it.
    A call is atomic here; `WarmSteps` takes the two calls apart that release the lock half-way. */
module WarmQueue {
  import opened Wrappers
  import opened WarmKeys

  const WARM_QUEUE_CAPACITY: nat := 2
  const WARM_LATEST_CAPACITY: nat := 8
  const WARM_DIRTY_PROJECT_CAPACITY: nat := 4

  /** What the worker is to warm; only Scene targets carry a generation. */
  datatype Target = Target(sceneGeneration: Option<nat>, buildGeneration: nat)

  /** The part of a stored Scene descriptor the queue looks at. */
  datatype Stored = Stored(generation: nat, building: bool)

  /** Scene descriptors by key. A Scene is in the map when its manifest entry and descriptor can be read. */
  type Disk = map<Key, Stored>

  /** The maps and sets behind the lock, and the bounded channel to the worker. */
  datatype Queue = Queue(
    latest: map<Key, Target>,
    scheduled: set<Key>,
    dirty: set<nat>,
    failures: map<Key, string>,
    channel: seq<Key>,
    receiverAlive: bool)

  const EMPTY: Queue := Queue(map[], {}, {}, map[], [], true)

  datatype SendResult = Sent | Full | Disconnected

  function TrySend(q: Queue): SendResult {
    if !q.receiverAlive then Disconnected
    else if |q.channel| >= WARM_QUEUE_CAPACITY then Full
    else Sent
  }

  predicate Known(q: Queue, key: Key) {
    key in q.latest || key in q.scheduled
  }

  /** A Scene target that fits nowhere: its producer waits on the condition variable. */
  predicate Blocked(q: Queue, key: Key, target: Target) {
    && !Known(q, key) && |q.latest| >= WARM_LATEST_CAPACITY
    && target.sceneGeneration.Some?
    && key.project !in q.dirty && |q.dirty| >= WARM_DIRTY_PROJECT_CAPACITY
  }

  function Record(q: Queue, key: Key, target: Target): (Queue, bool)
    requires !Blocked(q, key, target)
  {
    var q := q.(failures := q.failures - {key});
    if !Known(q, key) && |q.latest| >= WARM_LATEST_CAPACITY then
      if target.sceneGeneration.None? then (q, false)
      else (q.(dirty := q.dirty + {key.project}), true)
    else
      var q := q.(latest := q.latest[key := target]);
      if key in q.scheduled then (q, true)
      else match TrySend(q)
        case Sent => (q.(scheduled := q.scheduled + {key}, channel := q.channel + [key]), true)
        case Full => (q, true)
        case Disconnected => (q.(latest := q.latest - {key}, dirty := q.dirty - {key.project}), false)
  }

  function TakeLatest(q: Queue, key: Key): (Queue, Option<Target>) {
    if key in q.latest then (q.(latest := q.latest - {key}), Some(q.latest[key])) else (q, None)
  }

  function Cancel(q: Queue, key: Key): Queue {
    q.(latest := q.latest - {key})
  }

  /** Keys of a Project whose stored descriptor is Building, in key order. */
  ghost function Recovered(disk: Disk, project: nat): seq<Key> {
    Ascending(BuildingKeys(disk, project))
  }

  ghost function BuildingKeys(disk: Disk, project: nat): set<Key> {
    set key | key in disk && key.project == project && disk[key].building
  }

  function RecoveredTarget(disk: Disk, key: Key): Target
    requires key in disk
  {
    Target(Some(disk[key].generation), 0)
  }

  /** Insert recovered targets in order until `latest` is full; the flag reports that one did not fit. */
  ghost function InsertRecovered(q: Queue, disk: Disk, keys: seq<Key>): (Queue, bool)
    requires forall key | key in keys :: key in disk
    decreases |keys|
  {
    if keys == [] then (q, false)
    else if Known(q, keys[0]) then InsertRecovered(q, disk, keys[1..])
    else if |q.latest| >= WARM_LATEST_CAPACITY then (q, true)
    else
      InsertRecovered(q.(latest := q.latest[keys[0] := RecoveredTarget(disk, keys[0])]), disk, keys[1..])
  }

  /** Fold one Project's recovered targets in; on overflow it stays dirty if a slot is left. */
  ghost function Merge(q: Queue, disk: Disk, root: nat, keys: seq<Key>): Queue
    requires forall key | key in keys :: key in disk
  {
    var (q, overflow) := InsertRecovered(q, disk, keys);
    if overflow && (root in q.dirty || |q.dirty| < WARM_DIRTY_PROJECT_CAPACITY)
    then q.(dirty := q.dirty + {root})
    else q
  }

  function Unscheduled(q: Queue): set<Key> {
    q.latest.Keys - q.scheduled
  }

  function FreeSlots(q: Queue): nat {
    if |q.channel| < WARM_QUEUE_CAPACITY then WARM_QUEUE_CAPACITY - |q.channel| else 0
  }

  /** What a recovered batch leaves: only `latest` grows, and a changed or overfull `latest` means
      some key is waiting to be sent. This is why the retry loop below terminates. */
  lemma {:induction false} InsertRecoveredFrame(q: Queue, disk: Disk, keys: seq<Key>)
    requires forall key | key in keys :: key in disk
    ensures var (after, overflow) := InsertRecovered(q, disk, keys);
      && after == q.(latest := after.latest)
      && q.latest.Keys <= after.latest.Keys
      && (forall key | key in q.latest :: after.latest[key] == q.latest[key])
      && (forall key | key in after.latest && key !in q.latest ::
            key in keys && key !in q.scheduled && after.latest[key] == RecoveredTarget(disk, key))
      && (overflow ==> |after.latest| >= WARM_LATEST_CAPACITY)
      && (!overflow ==> forall key | key in keys :: Known(after, key))
    decreases |keys|
  {
    if keys != [] {
      if Known(q, keys[0]) {
        InsertRecoveredFrame(q, disk, keys[1..]);
      } else if |q.latest| < WARM_LATEST_CAPACITY {
        InsertRecoveredFrame(q.(latest := q.latest[keys[0] := RecoveredTarget(disk, keys[0])]), disk, keys[1..]);
      }
    }
  }

  /** The least waiting key, sent. */
  ghost function Pushed(q: Queue): Queue
    requires Unscheduled(q) != {}
  {
    var key := LeastKey(Unscheduled(q));
    q.(scheduled := q.scheduled + {key}, channel := q.channel + [key])
  }

  /** The least dirty Project, turned back into waiting keys. */
  ghost function Drained(q: Queue, disk: Disk): Queue
    requires q.dirty != {}
  {
    var root := Least(q.dirty);
    Merge(q.(dirty := q.dirty - {root}), disk, root, Recovered(disk, root))
  }

  /** A batch that leaves no key waiting inserted none, so it cannot have filled `latest`. */
  lemma OverflowLeavesWork(q: Queue, disk: Disk, keys: seq<Key>)
    requires forall key | key in keys :: key in disk
    requires Unscheduled(q) == {} && |q.latest| < WARM_LATEST_CAPACITY
    ensures InsertRecovered(q, disk, keys).1 ==> Unscheduled(InsertRecovered(q, disk, keys).0) != {}
  {
    InsertRecoveredFrame(q, disk, keys);
    var after := InsertRecovered(q, disk, keys).0;
    if Unscheduled(after) == {} {
      forall key | key in after.latest ensures key in q.latest {
        assert key !in Unscheduled(after);
      }
      assert after.latest.Keys == q.latest.Keys;
      assert |after.latest| == |after.latest.Keys| == |q.latest.Keys| == |q.latest|;
    }
  }

  lemma DrainMakesProgress(q: Queue, disk: Disk)
    requires Unscheduled(q) == {} && |q.latest| < WARM_LATEST_CAPACITY && q.dirty != {}
    ensures Drained(q, disk).channel == q.channel
    ensures Unscheduled(Drained(q, disk)) == {} ==> |Drained(q, disk).dirty| < |q.dirty|
  {
    var root := Least(q.dirty);
    var popped := q.(dirty := q.dirty - {root});
    InsertRecoveredFrame(popped, disk, Recovered(disk, root));
    OverflowLeavesWork(popped, disk, Recovered(disk, root));
  }

  /** Send waiting keys, least first; when none waits, turn the least dirty Project back into keys. */
  ghost function Retry(q: Queue, disk: Disk): Queue
    decreases FreeSlots(q), if Unscheduled(q) == {} then 1 else 0, |q.dirty|
  {
    if Unscheduled(q) != {} then
      match TrySend(q)
      case Sent => Retry(Pushed(q), disk)
      case Full => q
      case Disconnected => q.(latest := map[], scheduled := {}, dirty := {})
    else if |q.latest| >= WARM_LATEST_CAPACITY || q.dirty == {} then q
    else
      DrainMakesProgress(q, disk);
      Retry(Drained(q, disk), disk)
  }

  ghost function FinishAndRetry(q: Queue, disk: Disk, key: Key, sender: bool): Queue {
    var q := q.(scheduled := q.scheduled - {key});
    if sender then Retry(q, disk) else q
  }
}
