/** Histories, from the empty scheduler on, in which giving the lock back leaves work behind: two that strand it, one
    that forgets a promised Scene, one that shadows it and one, with two producers, that overtakes it. */
module WarmRaces {
  import opened Wrappers
  import opened WarmKeys
  import opened WarmQueue
  import opened WarmSteps
  import opened WarmPlays
  import WarmPromises
  import WarmSystem

  ghost predicate EndsAt(steps: seq<Step>, m: Machine) {
    Plays(START, steps) && Outcome(START, steps) == m
  }

  /** Some history ends here. */
  ghost predicate Reached(m: Machine) {
    exists steps :: EndsAt(steps, m)
  }

  lemma ReachedByRun(m: Machine) returns (run: Run)
    requires Reached(m)
    ensures IsRun(run) && run.states[|run.steps|] == m
  {
    var steps :| EndsAt(steps, m);
    PlayIsRun(steps);
    run := Run(States(START, steps), steps);
  }

  lemma ReachedIsSound(m: Machine)
    requires Reached(m)
    ensures Sound(m)
  {
    var run := ReachedByRun(m);
    RunKeepsSound(run, |run.steps|);
  }

  lemma StartIsReached()
    ensures Reached(START)
  {
    assert EndsAt([], START);
  }

  lemma PlayIsReached(m: Machine, steps: seq<Step>, after: Machine)
    requires Reached(m) && Plays(m, steps) && after == Outcome(m, steps)
    ensures Reached(after)
  {
    var before :| EndsAt(before, m);
    PlaysOn(START, before, steps);
    assert EndsAt(before + steps, after);
  }

  lemma Go(m: Machine, step: Step, after: Machine)
    requires Reached(m) && Enabled(m, step) && after == Apply(m, step)
    ensures Reached(after)
  {
    OneStepPlays(m, step);
    PlayIsReached(m, [step], after);
  }

  lemma Admit(m: Machine, key: Key, target: Target, after: Machine)
    requires Reached(m) && Recordable(m, key, target) && after == Recorded(m, key, target)
    ensures Reached(after)
  {
    ReachedIsSound(m);
    RecordPlays(m, key, target);
    PlayIsReached(m, RecordSteps(m.queue, key, target), after);
  }

  // ----- Models that keep the scheduler busy

  const TARGET: Target := Target(None, 1)

  function ModelKey(n: nat): Key {
    Key(9, ModelTarget(n))
  }

  predicate IsModel(key: Key, from: nat, upTo: nat) {
    key.project == 9 && key.target.ModelTarget? && from <= key.target.id < upTo
  }

  ghost function Models(from: nat, upTo: nat): (keys: set<Key>)
    ensures forall key :: key in keys <==> IsModel(key, from, upTo)
  {
    var keys := set n | from <= n < upTo :: ModelKey(n);
    assert forall key | IsModel(key, from, upTo) :: key == ModelKey(key.target.id);
    keys
  }

  function Targets(keys: set<Key>): map<Key, Target> {
    map key | key in keys :: TARGET
  }

  predicate OnlyScenesPromised(m: Machine) {
    forall key | key in m.promised :: key.target.SceneTarget?
  }

  function WithLatest(m: Machine, latest: map<Key, Target>): Machine {
    m.(queue := m.queue.(latest := latest))
  }

  lemma RecordWaits(q: Queue, key: Key)
    requires !Known(q, key) && q.failures == map[] && q.receiverAlive
    requires |q.latest| < WARM_LATEST_CAPACITY && |q.channel| >= WARM_QUEUE_CAPACITY
    ensures !Blocked(q, key, TARGET) && Record(q, key, TARGET).0 == q.(latest := q.latest[key := TARGET])
  {
    assert q.failures - {key} == map[];
  }

  /** A Model recorded while the channel is full just waits. */
  lemma ModelWaits(m: Machine, key: Key, after: Machine)
    requires Reached(m) && m.senderOpen && !key.target.SceneTarget? && !Known(m.queue, key)
    requires m.queue.failures == map[] && m.queue.receiverAlive && OnlyScenesPromised(m)
    requires |m.queue.latest| < WARM_LATEST_CAPACITY && |m.queue.channel| >= WARM_QUEUE_CAPACITY
    requires after == WithLatest(m, m.queue.latest[key := TARGET])
    ensures Reached(after)
  {
    RecordWaits(m.queue, key);
    Admit(m, key, TARGET, after);
  }

  lemma UpdateOfSum(left: map<Key, Target>, right: map<Key, Target>, key: Key)
    ensures (left + right)[key := TARGET] == left + right[key := TARGET]
  {
  }

  lemma OneMoreTarget(latest: map<Key, Target>, keys: set<Key>, key: Key)
    requires key !in latest && key !in keys
    ensures (latest + Targets(keys))[key := TARGET] == latest + Targets(keys + {key})
    ensures |latest + Targets(keys + {key})| == |latest + Targets(keys)| + 1
  {
    assert Targets(keys + {key}) == Targets(keys)[key := TARGET];
    UpdateOfSum(latest, Targets(keys), key);
  }

  lemma OneMoreModel(latest: map<Key, Target>, from: nat, last: nat)
    requires from <= last && ModelKey(last) !in latest
    ensures var before := latest + Targets(Models(from, last));
      && ModelKey(last) !in before
      && before[ModelKey(last) := TARGET] == latest + Targets(Models(from, last + 1))
      && |latest + Targets(Models(from, last + 1))| == |before| + 1
  {
    assert Models(from, last + 1) == Models(from, last) + {ModelKey(last)};
    OneMoreTarget(latest, Models(from, last), ModelKey(last));
  }

  lemma NoModels(latest: map<Key, Target>, from: nat)
    ensures latest - Models(from, from) == latest
  {
  }

  lemma OneModelLess(latest: map<Key, Target>, from: nat, last: nat)
    requires from <= last
    ensures latest - Models(from, last) - {ModelKey(last)} == latest - Models(from, last + 1)
  {
    assert Models(from, last + 1) == Models(from, last) + {ModelKey(last)};
  }

  /** So do several, until `latest` is full. */
  lemma {:induction false} ModelsWait(m: Machine, from: nat, upTo: nat, after: Machine)
    requires Reached(m) && m.senderOpen && from <= upTo && m.queue.failures == map[] && m.queue.receiverAlive
    requires OnlyScenesPromised(m) && forall n | from <= n < upTo :: !Known(m.queue, ModelKey(n))
    requires |m.queue.latest| + (upTo - from) <= WARM_LATEST_CAPACITY && |m.queue.channel| >= WARM_QUEUE_CAPACITY
    requires after == WithLatest(m, m.queue.latest + Targets(Models(from, upTo)))
    ensures Reached(after) && |after.queue.latest| == |m.queue.latest| + (upTo - from)
    decreases upTo - from
  {
    if from == upTo {
      assert Models(from, upTo) == {};
      assert m.queue.latest + Targets({}) == m.queue.latest;
      assert after == m;
    } else {
      var last := upTo - 1;
      var before := WithLatest(m, m.queue.latest + Targets(Models(from, last)));
      ModelsWait(m, from, last, before);
      OneMoreModel(m.queue.latest, from, last);
      assert !Known(m.queue, ModelKey(last));
      ModelWaits(before, ModelKey(last), after);
    }
  }

  lemma ModelIsWithdrawn(m: Machine, key: Key, after: Machine)
    requires Reached(m) && key !in m.promised && after == WithLatest(m, m.queue.latest - {key})
    ensures Reached(after)
  {
    assert m.promised - {key} == m.promised;
    Go(m, Withdraw(key), after);
  }

  lemma {:induction false} ModelsAreWithdrawn(m: Machine, from: nat, upTo: nat, after: Machine)
    requires Reached(m) && from <= upTo && after == WithLatest(m, m.queue.latest - Models(from, upTo))
    requires OnlyScenesPromised(m)
    ensures Reached(after)
    decreases upTo - from
  {
    if from == upTo {
      NoModels(m.queue.latest, from);
      assert after == m;
    } else {
      var last := upTo - 1;
      var before := WithLatest(m, m.queue.latest - Models(from, last));
      ModelsAreWithdrawn(m, from, last, before);
      OneModelLess(m.queue.latest, from, last);
      ModelIsWithdrawn(before, ModelKey(last), after);
    }
  }

  const P0: Key := ModelKey(0)
  const P1: Key := ModelKey(1)
  const P2: Key := ModelKey(2)

  function Idle(queue: Queue): Machine {
    Machine(queue, Resting, {}, {}, true, map[], map[])
  }

  const ONE_SENT: Queue := Queue(map[P0 := TARGET], {P0}, {}, map[], [P0], true)

  /** The channel filled by two Models. */
  const TWO_SENT: Queue := Queue(map[P0 := TARGET, P1 := TARGET], {P0, P1}, {}, map[], [P0, P1], true)

  lemma OneSentIsReached()
    ensures Reached(Idle(ONE_SENT))
  {
    StartIsReached();
    assert Record(EMPTY, P0, TARGET).0 == ONE_SENT;
    Admit(START, P0, TARGET, Idle(ONE_SENT));
  }

  lemma SecondIsSent()
    ensures !Blocked(ONE_SENT, P1, TARGET) && Record(ONE_SENT, P1, TARGET).0 == TWO_SENT
  {
  }

  lemma TwoSentIsReached()
    ensures Reached(Idle(TWO_SENT))
  {
    OneSentIsReached();
    SecondIsSent();
    Admit(Idle(ONE_SENT), P1, TARGET, Idle(TWO_SENT));
  }

  // ----- work stranded

  /** A third Model is refused; its producer has yet to undo. */
  const THIRD_REFUSED: Machine := Machine(
    Queue(map[P0 := TARGET, P1 := TARGET, P2 := TARGET], {P0, P1, P2}, {}, map[], [P0, P1], true),
    Resting, {}, {P2}, true, map[], map[])

  lemma ThirdBegins()
    ensures !Blocked(TWO_SENT, P2, TARGET)
    ensures AfterBegin(Idle(TWO_SENT), P2, TARGET) == THIRD_REFUSED.(sending := {P2}, refused := {})
  {
    assert TWO_SENT.failures - {P2} == map[] && |TWO_SENT.latest| == 2;
    assert TWO_SENT.latest[P2 := TARGET] == THIRD_REFUSED.queue.latest;
  }

  lemma ThirdIsRefused()
    ensures Reached(THIRD_REFUSED)
  {
    TwoSentIsReached();
    ThirdBegins();
    var begun := THIRD_REFUSED.(sending := {P2}, refused := {});
    Go(Idle(TWO_SENT), Begin(P2, TARGET), begun);
    assert {P2} - {P2} == {};
    Go(begun, Send(P2), THIRD_REFUSED);
  }

  /** The worker receives, warms and releases its next job. */
  function JobDone(q: Queue): Queue
    requires q.channel != []
  {
    q.(channel := q.channel[1..], latest := q.latest - {q.channel[0]}, scheduled := q.scheduled - {q.channel[0]})
  }

  lemma TakenFromLatest(q: Queue, key: Key)
    ensures TakeLatest(q, key).0 == q.(latest := q.latest - {key})
  {
    if key !in q.latest { assert q.latest - {key} == q.latest; }
  }

  lemma JobIsDone(m: Machine, key: Key, after: Machine)
    requires Reached(m) && m.hand.Resting? && m.senderOpen && m.queue.channel != [] && m.queue.channel[0] == key
    requires key in m.queue.latest && key in m.promised ==>
               !WarmSystem.Covers(m.queue.latest[key], m.promised, key)
    requires after == m.(queue := JobDone(m.queue), hand := Looking)
    ensures Reached(after)
  {
    var received := AfterReceive(m);
    TakenFromLatest(received.queue, key);
    var taken := AfterTake(received, key);
    Go(m, Receive, received);
    Go(received, Take, taken);
    var ending := taken.(hand := Ending(key, true));
    Go(taken, CloneSender, ending);
    Go(ending, Release, after);
  }

  lemma NothingWaits(m: Machine)
    requires Reached(m) && m.hand.Looking? && m.queue.latest.Keys <= m.queue.scheduled
    ensures Reached(m.(hand := Checking))
    ensures m.queue.dirty == {} ==> Reached(m.(hand := Resting))
  {
    assert Unscheduled(m.queue) == {};
    Go(m, Look, m.(hand := Checking));
    if m.queue.dirty == {} { Go(m.(hand := Checking), Check, m.(hand := Resting)); }
  }

  function Refused(latest: map<Key, Target>, scheduled: set<Key>, channel: seq<Key>, hand: Hand): Machine {
    Machine(Queue(latest, scheduled, {}, map[], channel, true), hand, {}, {P2}, true, map[], map[])
  }

  /** One Model waits, and nobody will ever look for it. */
  const STRANDED: Machine := Idle(Queue(map[P2 := TARGET], {}, {}, map[], [], true))

  lemma DrainedButForTwo()
    ensures Reached(Refused(map[P1 := TARGET, P2 := TARGET], {P1, P2}, [P1], Resting))
  {
    ThirdIsRefused();
    var after := Refused(map[P1 := TARGET, P2 := TARGET], {P1, P2}, [P1], Looking);
    FirstJobDone(THIRD_REFUSED.queue, after.queue);
    JobIsDone(THIRD_REFUSED, P0, after);
    NothingWaits(after);
  }

  /** The worker finds nothing that waits, since the refused key is still scheduled. */
  lemma DrainedButForOne()
    ensures Reached(Refused(map[P2 := TARGET], {P2}, [], Checking))
    ensures Reached(Refused(map[P2 := TARGET], {P2}, [], Resting))
  {
    DrainedButForTwo();
    var before := Refused(map[P1 := TARGET, P2 := TARGET], {P1, P2}, [P1], Resting);
    var after := Refused(map[P2 := TARGET], {P2}, [], Looking);
    LastJobDone(before.queue, after.queue);
    JobIsDone(before, P1, after);
    NothingWaits(after);
  }

  lemma FirstJobDone(q: Queue, after: Queue)
    requires q == THIRD_REFUSED.queue
    requires after == Queue(map[P1 := TARGET, P2 := TARGET], {P1, P2}, {}, map[], [P1], true)
    ensures JobDone(q) == after
  {
    assert q.latest - {P0} == after.latest;
  }

  lemma LastJobDone(q: Queue, after: Queue)
    requires q == Queue(map[P1 := TARGET, P2 := TARGET], {P1, P2}, {}, map[], [P1], true)
    requires after == Queue(map[P2 := TARGET], {P2}, {}, map[], [], true)
    ensures JobDone(q) == after
  {
    assert q.latest - {P1} == after.latest;
  }

  /** Three records, the worker drains both jobs, and only then the third producer undoes. */
  lemma UndoCanStrand()
    ensures var before := Refused(map[P2 := TARGET], {P2}, [], Resting);
      && Reached(before) && Enabled(before, Undo(P2)) && Strands(before, Undo(P2))
      && Apply(before, Undo(P2)) == STRANDED && !Supplied(STRANDED)
  {
    DrainedButForOne();
    assert P2 in STRANDED.queue.latest;
    assert {P2} - {P2} == {};
  }

  /** The same, but the undo comes after the worker's last look and before it leaves the loop. */
  lemma CheckCanStrand()
    ensures var before := STRANDED.(hand := Checking);
      && Reached(before) && Enabled(before, Check) && Strands(before, Check)
      && Apply(before, Check) == STRANDED && !Supplied(STRANDED)
  {
    DrainedButForOne();
    assert {P2} - {P2} == {};
    Go(Refused(map[P2 := TARGET], {P2}, [], Checking), Undo(P2), STRANDED.(hand := Checking));
    assert P2 in STRANDED.queue.latest;
  }

  // ----- a Project read and overtaken

  const SCENE: Key := Key(0, SceneTarget(0))

  const FIRST: Disk := map[SCENE := Stored(1, true)]
  const SECOND: Disk := map[SCENE := Stored(2, true)]

  function Busy(queue: Queue, hand: Hand, disk: Disk, promised: map<Key, nat>): Machine {
    Machine(queue, hand, {}, {}, true, disk, promised)
  }

  /** A Scene recorded while `latest` is full makes its Project dirty. */
  lemma SceneTurnsDirty(m: Machine, key: Key, target: Target, after: Machine)
    requires Reached(m) && m.senderOpen && key.target.SceneTarget? && !Known(m.queue, key)
    requires key in m.disk && m.disk[key].building && target.sceneGeneration == Some(m.disk[key].generation)
    requires key in m.promised ==> m.promised[key] <= m.disk[key].generation
    requires |m.queue.latest| >= WARM_LATEST_CAPACITY && |m.queue.dirty| < WARM_DIRTY_PROJECT_CAPACITY
    requires m.queue.failures == map[]
    requires after == m.(queue := m.queue.(dirty := m.queue.dirty + {key.project}),
                         promised := m.promised[key := m.disk[key].generation])
    ensures Reached(after)
  {
    assert m.queue.failures - {key} == map[];
    NotedAnew(m, key, target);
    Admit(m, key, target, after);
  }

  lemma NotedAnew(m: Machine, key: Key, target: Target)
    requires WarmSystem.Owed(m.disk, key, target)
    requires key in m.promised ==> m.promised[key] <= target.sceneGeneration.value
    ensures WarmSystem.Noted(m.queue, m.disk, m.promised, key, target)
            == m.promised[key := target.sceneGeneration.value]
  {
    if key in m.promised && m.promised[key] == target.sceneGeneration.value {
      assert m.promised[key := target.sceneGeneration.value] == m.promised;
    }
  }

  ghost const EIGHT: map<Key, Target> := TWO_SENT.latest + Targets(Models(2, 8))

  lemma EightWait()
    ensures Reached(Idle(TWO_SENT.(latest := EIGHT))) && |EIGHT| == 8
  {
    TwoSentIsReached();
    ModelsWait(Idle(TWO_SENT), 2, 8, Idle(TWO_SENT.(latest := EIGHT)));
  }

  lemma ProjectTurnsDirty(q: Queue)
    requires Reached(Idle(q)) && |q.latest| >= WARM_LATEST_CAPACITY && !Known(q, SCENE)
    requires q.dirty == {} && q.failures == map[]
    ensures Reached(Busy(q.(dirty := {0}), Resting, FIRST, map[SCENE := 1]))
  {
    var advanced := Busy(q, Resting, FIRST, map[]);
    assert map[][SCENE := Stored(1, true)] == FIRST;
    Go(Idle(q), Advance(SCENE), advanced);
    assert map[][SCENE := 1] == map[SCENE := 1];
    SceneTurnsDirty(advanced, SCENE, Target(Some(1), 1), Busy(q.(dirty := {0}), Resting, FIRST, map[SCENE := 1]));
  }

  lemma WithdrawBack(latest: map<Key, Target>)
    requires |latest| >= WARM_LATEST_CAPACITY && SCENE !in latest && latest - Models(2, 8) == TWO_SENT.latest
    requires Reached(Idle(TWO_SENT.(latest := latest)))
    ensures Reached(Busy(TWO_SENT.(dirty := {0}), Resting, FIRST, map[SCENE := 1]))
  {
    ProjectTurnsDirty(TWO_SENT.(latest := latest));
    var full := Busy(TWO_SENT.(latest := latest, dirty := {0}), Resting, FIRST, map[SCENE := 1]);
    ModelsAreWithdrawn(full, 2, 8, WithLatest(full, TWO_SENT.latest));
  }

  lemma EightAreTwoAndSix()
    ensures EIGHT - Models(2, 8) == TWO_SENT.latest && SCENE !in EIGHT
  {
  }

  lemma AgainTwoSent()
    ensures Reached(Busy(TWO_SENT.(dirty := {0}), Resting, FIRST, map[SCENE := 1]))
  {
    EightWait();
    EightAreTwoAndSix();
    WithdrawBack(EIGHT);
  }

  const ONE_LEFT: Queue := Queue(map[P1 := TARGET], {P1}, {}, map[], [P1], true)

  lemma OneJobIsLeft()
    ensures Reached(Busy(ONE_LEFT.(dirty := {0}), Looking, FIRST, map[SCENE := 1]))
  {
    AgainTwoSent();
    assert TWO_SENT.latest - {P0} == ONE_LEFT.latest;
    assert JobDone(TWO_SENT.(dirty := {0})) == ONE_LEFT.(dirty := {0});
    JobIsDone(Busy(TWO_SENT.(dirty := {0}), Resting, FIRST, map[SCENE := 1]), P0,
              Busy(ONE_LEFT.(dirty := {0}), Looking, FIRST, map[SCENE := 1]));
  }

  lemma OnlyDirty(root: nat)
    ensures Least({root}) == root
  {
  }

  lemma SceneIsFound(disk: Disk)
    requires disk.Keys == {SCENE} && disk[SCENE].building
    ensures BuildingScenes(disk, 0) == disk && Recovered(disk, 0) == [SCENE]
  {
    assert BuildingKeys(disk, 0) == {SCENE};
    assert LeastKey({SCENE}) == SCENE;
    assert Ascending({SCENE} - {SCENE}) == [];
  }

  /** The worker has read Project 0 and is about to lock again; one job waits in the channel. */
  lemma ProjectIsRead()
    ensures Reached(Busy(ONE_LEFT, Merging(0, FIRST), FIRST, map[SCENE := 1]))
  {
    OneJobIsLeft();
    var looking := Busy(ONE_LEFT.(dirty := {0}), Looking, FIRST, map[SCENE := 1]);
    NothingWaits(looking);
    OnlyDirty(0);
    var reading := Busy(ONE_LEFT, Reading(0), FIRST, map[SCENE := 1]);
    Go(looking.(hand := Checking), Check, reading);
    SceneIsFound(FIRST);
    Go(reading, Read, Busy(ONE_LEFT, Merging(0, FIRST), FIRST, map[SCENE := 1]));
  }

  const TWO_AGAIN: Queue :=
    Queue(map[P1 := TARGET, ModelKey(8) := TARGET], {P1, ModelKey(8)}, {}, map[], [P1, ModelKey(8)], true)

  ghost const EIGHT_AGAIN: map<Key, Target> := TWO_AGAIN.latest + Targets(Models(9, 15))

  lemma EighthRecorded()
    ensures !Blocked(ONE_LEFT, ModelKey(8), TARGET) && Record(ONE_LEFT, ModelKey(8), TARGET).0 == TWO_AGAIN
  {
  }

  lemma EighthIsSent(m: Machine)
    requires Reached(m) && m.senderOpen && m.queue == ONE_LEFT && OnlyScenesPromised(m)
    ensures Reached(m.(queue := TWO_AGAIN))
  {
    EighthRecorded();
    Admit(m, ModelKey(8), TARGET, m.(queue := TWO_AGAIN));
  }

  lemma TwoAgainHasRoom()
    ensures |TWO_AGAIN.latest| == 2 && forall n | 9 <= n < 15 :: !Known(TWO_AGAIN, ModelKey(n))
  {
  }

  lemma LatestFillsUp(m: Machine)
    requires Reached(m) && m.senderOpen && m.queue == ONE_LEFT && OnlyScenesPromised(m)
    ensures Reached(m.(queue := TWO_AGAIN.(latest := EIGHT_AGAIN))) && |EIGHT_AGAIN| == 8
  {
    EighthIsSent(m);
    TwoAgainHasRoom();
    SevenMoreWait(m.(queue := TWO_AGAIN));
  }

  lemma SevenMoreWait(m: Machine)
    requires Reached(m) && m.senderOpen && OnlyScenesPromised(m)
    requires m.queue.failures == map[] && m.queue.receiverAlive && |m.queue.channel| >= WARM_QUEUE_CAPACITY
    requires |m.queue.latest| == 2 && forall n | 9 <= n < 15 :: !Known(m.queue, ModelKey(n))
    ensures Reached(WithLatest(m, m.queue.latest + Targets(Models(9, 15))))
    ensures |m.queue.latest + Targets(Models(9, 15))| == 8
  {
    ModelsWait(m, 9, 15, WithLatest(m, m.queue.latest + Targets(Models(9, 15))));
  }

  // ----- forgotten

  function SceneKey(root: nat): Key {
    Key(root, SceneTarget(0))
  }

  function AlsoDirty(m: Machine, root: nat): Machine {
    m.(queue := m.queue.(dirty := m.queue.dirty + {root}), disk := m.disk[SceneKey(root) := Stored(1, true)],
       promised := m.promised[SceneKey(root) := 1])
  }

  lemma AnotherTurnsDirty(m: Machine, root: nat)
    requires Reached(m) && m.senderOpen && m.queue.failures == map[] && !Known(m.queue, SceneKey(root))
    requires SceneKey(root) !in m.disk && SceneKey(root) !in m.promised
    requires |m.queue.latest| >= WARM_LATEST_CAPACITY && |m.queue.dirty| < WARM_DIRTY_PROJECT_CAPACITY
    ensures Reached(AlsoDirty(m, root))
  {
    var advanced := m.(disk := m.disk[SceneKey(root) := Stored(1, true)]);
    Go(m, Advance(SceneKey(root)), advanced);
    SceneTurnsDirty(advanced, SceneKey(root), Target(Some(1), 1), AlsoDirty(m, root));
  }

  predicate OnlyModels(q: Queue) {
    forall key | key in q.latest.Keys + q.scheduled :: key.target.ModelTarget?
  }

  predicate FirstRoots(roots: set<nat>, n: nat) {
    |roots| == n && forall root | root in roots :: 1 <= root <= n
  }

  /** Every key with a descriptor or a promise is of one of the first Projects. */
  predicate Among(keys: set<Key>, n: nat) {
    forall key | key in keys :: key.project <= n
  }

  /** Project 0 has been read, `latest` is full of Models, and the first `n` other Projects are dirty. */
  ghost predicate Crowded(m: Machine, n: nat) {
    && m.senderOpen && m.hand == Merging(0, FIRST) && m.queue.failures == map[]
    && |m.queue.latest| >= WARM_LATEST_CAPACITY && OnlyModels(m.queue) && FirstRoots(m.queue.dirty, n)
    && SCENE in m.promised && SCENE in m.disk && m.disk[SCENE].building
    && Among(m.disk.Keys, n) && Among(m.promised.Keys, n)
  }

  lemma CrowdGrows(m: Machine, n: nat)
    requires Crowded(m, n)
    ensures Crowded(AlsoDirty(m, n + 1), n + 1)
    ensures SceneKey(n + 1) !in m.disk.Keys && SceneKey(n + 1) !in m.promised.Keys
    ensures SceneKey(n + 1) !in m.queue.latest.Keys + m.queue.scheduled
  {
  }

  lemma AnotherCrowds(m: Machine, n: nat) returns (after: Machine)
    requires Reached(m) && Crowded(m, n) && n < WARM_DIRTY_PROJECT_CAPACITY
    ensures Reached(after) && Crowded(after, n + 1)
  {
    CrowdGrows(m, n);
    AnotherTurnsDirty(m, n + 1);
    after := AlsoDirty(m, n + 1);
  }

  lemma {:induction false} OthersCrowd(m: Machine, n: nat) returns (after: Machine)
    requires Reached(m) && Crowded(m, 0) && n <= WARM_DIRTY_PROJECT_CAPACITY
    ensures Reached(after) && Crowded(after, n)
  {
    if n == 0 {
      after := m;
    } else {
      var before := OthersCrowd(m, n - 1);
      after := AnotherCrowds(before, n - 1);
    }
  }

  lemma LatestIsFull() returns (full: Machine)
    ensures Reached(full) && Crowded(full, 0)
  {
    ProjectIsRead();
    var read := Busy(ONE_LEFT, Merging(0, FIRST), FIRST, map[SCENE := 1]);
    LatestFillsUp(read);
    full := read.(queue := TWO_AGAIN.(latest := EIGHT_AGAIN));
    EightAreModels(full.queue);
    FullIsCrowded(full);
  }

  lemma FullIsCrowded(m: Machine)
    requires m == Busy(m.queue, Merging(0, FIRST), FIRST, map[SCENE := 1]) && m.queue.failures == map[]
    requires |m.queue.latest| >= WARM_LATEST_CAPACITY && OnlyModels(m.queue) && m.queue.dirty == {}
    ensures Crowded(m, 0)
  {
  }

  lemma EightAreModels(q: Queue)
    requires q == TWO_AGAIN.(latest := EIGHT_AGAIN)
    ensures OnlyModels(q)
  {
  }

  /** Folding the read Scene in now forgets it: a promised Building Scene is in no place the worker looks at. */
  lemma ForgottenHere(m: Machine)
    requires Crowded(m, WARM_DIRTY_PROJECT_CAPACITY)
    ensures SCENE in m.promised && WarmPromises.Loses(m, 0, FIRST, SCENE)
    ensures var after := AfterMerge(m, 0, FIRST);
      && after.promised == m.promised && after.disk == m.disk
      && !Known(after.queue, SCENE) && SCENE.project !in after.queue.dirty && after.hand == Looking
  {
    WarmPromises.MergedLatest(m.queue, 0, FIRST, SCENE);
    WarmPromises.MergedDirty(m.queue, 0, FIRST);
    MergeFrame(m.queue, FIRST, 0, Recovered(FIRST, 0));
    assert SCENE !in m.queue.latest.Keys + m.queue.scheduled;
  }

  /** While Project 0 is read, Models fill `latest` again and four other Projects the dirty slots. */
  lemma MergeCanForget() returns (before: Machine, after: Machine)
    ensures Reached(before) && before.hand == Merging(0, FIRST) && after == AfterMerge(before, 0, FIRST)
    ensures SCENE in before.promised && WarmPromises.Loses(before, 0, FIRST, SCENE)
    ensures SCENE in after.promised && SCENE in after.disk && after.disk[SCENE].building
    ensures !Known(after.queue, SCENE) && SCENE.project !in after.queue.dirty && after.hand == Looking
  {
    var full := LatestIsFull();
    before := OthersCrowd(full, WARM_DIRTY_PROJECT_CAPACITY);
    ForgottenHere(before);
    after := AfterMerge(before, 0, FIRST);
  }

  // ----- shadowed

  const P8: Key := ModelKey(8)

  /** What recovery made of the first generation. */
  const STALE: Target := Target(Some(1), 0)

  lemma AdvancedWhileRead()
    ensures Reached(Busy(ONE_LEFT, Merging(0, FIRST), SECOND, map[SCENE := 1]))
  {
    ProjectIsRead();
    assert FIRST[SCENE := Stored(2, true)] == SECOND;
    Go(Busy(ONE_LEFT, Merging(0, FIRST), FIRST, map[SCENE := 1]), Advance(SCENE),
       Busy(ONE_LEFT, Merging(0, FIRST), SECOND, map[SCENE := 1]));
  }

  lemma RenewedAs(m: Machine, after: Machine)
    requires m == Busy(m.queue, Merging(0, FIRST), SECOND, map[SCENE := 1]) && m.queue.dirty == {}
    requires after == Busy(m.queue.(dirty := {0}), Merging(0, FIRST), SECOND, map[SCENE := 2])
    ensures after == m.(queue := m.queue.(dirty := m.queue.dirty + {0}), promised := m.promised[SCENE := 2])
  {
    assert map[SCENE := 1][SCENE := 2] == map[SCENE := 2];
  }

  lemma RenewedWhileFull(m: Machine, after: Machine)
    requires Reached(m) && m == Busy(m.queue, Merging(0, FIRST), SECOND, map[SCENE := 1])
    requires |m.queue.latest| >= WARM_LATEST_CAPACITY && !Known(m.queue, SCENE)
    requires m.queue.failures == map[] && m.queue.dirty == {}
    requires after == Busy(m.queue.(dirty := {0}), Merging(0, FIRST), SECOND, map[SCENE := 2])
    ensures Reached(after)
  {
    RenewedAs(m, after);
    SceneTurnsDirty(m, SCENE, Target(Some(2), 1), after);
  }

  lemma EightCanGo()
    ensures EIGHT_AGAIN - Models(9, 15) == TWO_AGAIN.latest && SCENE !in EIGHT_AGAIN
  {
  }

  lemma EightAreWithdrawn(m: Machine, after: Machine)
    requires Reached(m) && m == Busy(m.queue, Merging(0, FIRST), SECOND, map[SCENE := 2])
    requires after == WithLatest(m, m.queue.latest - Models(9, 15))
    ensures Reached(after)
  {
    ModelsAreWithdrawn(m, 9, 15, after);
  }

  /** The Scene is recorded again, at its second generation, while the first one has already been read. */
  lemma RecordedAgain()
    ensures Reached(Busy(TWO_AGAIN.(dirty := {0}), Merging(0, FIRST), SECOND, map[SCENE := 2]))
  {
    AdvancedWhileRead();
    LatestFillsUp(Busy(ONE_LEFT, Merging(0, FIRST), SECOND, map[SCENE := 1]));
    EightCanGo();
    var full := Busy(TWO_AGAIN.(latest := EIGHT_AGAIN), Merging(0, FIRST), SECOND, map[SCENE := 1]);
    var renewed := Busy(TWO_AGAIN.(latest := EIGHT_AGAIN, dirty := {0}), Merging(0, FIRST), SECOND, map[SCENE := 2]);
    RenewedWhileFull(full, renewed);
    EightAreWithdrawn(renewed, Busy(TWO_AGAIN.(dirty := {0}), Merging(0, FIRST), SECOND, map[SCENE := 2]));
  }

  const WITH_STALE: Queue := TWO_AGAIN.(latest := TWO_AGAIN.latest[SCENE := STALE], dirty := {0})

  lemma StaleGoesIn()
    ensures var q := TWO_AGAIN.(dirty := {0}); WarmQueue.Merge(q, FIRST, 0, Recovered(FIRST, 0)) == WITH_STALE
  {
    SceneIsFound(FIRST);
    var q := TWO_AGAIN.(dirty := {0});
    assert |q.latest| == 2;
    assert InsertRecovered(WITH_STALE, FIRST, []) == (WITH_STALE, false);
    assert [SCENE][1..] == [];
    assert InsertRecovered(q, FIRST, [SCENE]) == (WITH_STALE, false);
  }

  /** Folding the first generation in takes the room of the promised second one. */
  lemma MergeCanShadow()
    ensures var before := Busy(TWO_AGAIN.(dirty := {0}), Merging(0, FIRST), SECOND, map[SCENE := 2]);
      && Reached(before) && WarmPromises.Loses(before, 0, FIRST, SCENE)
      && AfterMerge(before, 0, FIRST) == Busy(WITH_STALE, Looking, SECOND, map[SCENE := 2])
      && Reached(Busy(WITH_STALE, Looking, SECOND, map[SCENE := 2]))
  {
    RecordedAgain();
    StaleGoesIn();
    var before := Busy(TWO_AGAIN.(dirty := {0}), Merging(0, FIRST), SECOND, map[SCENE := 2]);
    WarmPromises.MergedLatest(before.queue, 0, FIRST, SCENE);
    Go(before, Step.Merge, Busy(WITH_STALE, Looking, SECOND, map[SCENE := 2]));
  }

  /** The worker again, holding nothing, with the second generation stored and promised. */
  function Later(queue: Queue, hand: Hand): Machine {
    Busy(queue, hand, SECOND, map[SCENE := 2])
  }

  const STALE_NEXT: Queue :=
    Queue(map[P8 := TARGET, SCENE := STALE], {P8, SCENE}, {}, map[], [P8, SCENE], true)

  lemma ChannelIsFull()
    ensures Reached(Later(WITH_STALE, Resting))
  {
    MergeCanShadow();
    assert SCENE in Unscheduled(WITH_STALE);
    RefusedPlays(Later(WITH_STALE, Looking));
    PlayIsReached(Later(WITH_STALE, Looking), [Look, Push, UndoPush], Later(WITH_STALE, Resting));
  }

  lemma OneMoreJobDone()
    ensures JobDone(WITH_STALE) == STALE_WAITS
  {
    assert WITH_STALE.latest - {P1} == map[P8 := TARGET, SCENE := STALE];
  }

  const STALE_WAITS: Queue := Queue(map[P8 := TARGET, SCENE := STALE], {P8}, {0}, map[], [P8], true)

  lemma StaleWaits()
    ensures Reached(Later(STALE_WAITS, Looking))
  {
    ChannelIsFull();
    OneMoreJobDone();
    JobIsDone(Later(WITH_STALE, Resting), P1, Later(STALE_WAITS, Looking));
  }

  lemma StaleComesNext()
    ensures Unscheduled(STALE_WAITS) == {SCENE} && Pushed(STALE_WAITS) == STALE_NEXT.(dirty := {0})
  {
    assert Unscheduled(STALE_WAITS) == {SCENE};
    assert LeastKey({SCENE}) == SCENE;
  }

  lemma StaleIsPushed()
    ensures Reached(Later(STALE_NEXT.(dirty := {0}), Looking))
  {
    StaleWaits();
    StaleComesNext();
    PushPlays(Later(STALE_WAITS, Looking));
    PlayIsReached(Later(STALE_WAITS, Looking), [Look, Push], Later(STALE_NEXT.(dirty := {0}), Looking));
  }

  /** The dirty Project is read once more; its Scene is known, so nothing goes in and the Project is done with. */
  lemma StaleIsPassedOver()
    ensures Reached(Later(STALE_NEXT, Resting))
  {
    StaleIsPushed();
    var dirty := STALE_NEXT.(dirty := {0});
    NothingWaits(Later(dirty, Looking));
    OnlyDirty(0);
    assert |dirty.latest| == 2;
    Go(Later(dirty, Checking), Check, Later(STALE_NEXT, Reading(0)));
    SceneIsFound(SECOND);
    Go(Later(STALE_NEXT, Reading(0)), Read, Later(STALE_NEXT, Merging(0, SECOND)));
    KnownSceneIsSkipped();
    Go(Later(STALE_NEXT, Merging(0, SECOND)), Step.Merge, Later(STALE_NEXT, Looking));
    NothingWaits(Later(STALE_NEXT, Looking));
  }

  lemma KnownSceneIsSkipped()
    ensures WarmQueue.Merge(STALE_NEXT, SECOND, 0, Recovered(SECOND, 0)) == STALE_NEXT
  {
    SceneIsFound(SECOND);
    assert [SCENE][1..] == [];
    assert InsertRecovered(STALE_NEXT, SECOND, []) == (STALE_NEXT, false);
  }

  const STALE_LEFT: Queue := Queue(map[SCENE := STALE], {SCENE}, {}, map[], [SCENE], true)

  lemma OnlyStaleIsLeft()
    ensures Reached(Later(STALE_LEFT, Resting))
  {
    StaleIsPassedOver();
    assert STALE_NEXT.latest - {P8} == STALE_LEFT.latest;
    assert JobDone(STALE_NEXT) == STALE_LEFT;
    JobIsDone(Later(STALE_NEXT, Resting), P8, Later(STALE_LEFT, Looking));
    NothingWaits(Later(STALE_LEFT, Looking));
  }

  /** The end of it: the scheduler is empty and at rest, the Scene is Building at the promised second generation, and
      no target of that generation was ever taken. */
  lemma ShadowedSceneIsLost()
    ensures Reached(Later(EMPTY, Resting))
  {
    OnlyStaleIsLeft();
    assert STALE_LEFT.latest - {SCENE} == map[];
    assert JobDone(STALE_LEFT) == EMPTY;
    JobIsDone(Later(STALE_LEFT, Resting), SCENE, Later(EMPTY, Looking));
    NothingWaits(Later(EMPTY, Looking));
  }

  // ----- overtaken

  const NEW: Target := Target(Some(2), 1)
  const LATE: Target := Target(Some(1), 2)

  /** One Scene scheduled, at its second generation on file. */
  function Sent(target: Target, hand: Hand, promised: map<Key, nat>): Machine {
    var channel := if hand.Resting? then [SCENE] else [];
    Busy(Queue(map[SCENE := target], {SCENE}, {}, map[], channel, true), hand, SECOND, promised)
  }

  /** Two producers advanced the Scene one after the other; the second one recorded it. */
  const TWICE_ADVANCED: seq<Step> := [Advance(SCENE), Advance(SCENE), Begin(SCENE, NEW), Send(SCENE)]

  /** Then the first one records it, and the worker takes the job and does what it does to the end. */
  const PASSED_OVER: seq<Step> := [Begin(SCENE, LATE), Receive, Take, CloneSender, Release, Look, Check]

  lemma NewIsSent()
    ensures Plays(START, TWICE_ADVANCED)
    ensures Outcome(START, TWICE_ADVANCED) == Sent(NEW, Resting, map[SCENE := 2])
  {
    var first, second := Busy(EMPTY, Resting, FIRST, map[]), Busy(EMPTY, Resting, SECOND, map[]);
    assert map[][SCENE := Stored(1, true)] == FIRST && FIRST[SCENE := Stored(2, true)] == SECOND;
    NewIsRecorded(second);
    StepThenPlays(first, Advance(SCENE), [Begin(SCENE, NEW), Send(SCENE)]);
    StepThenPlays(START, Advance(SCENE), [Advance(SCENE), Begin(SCENE, NEW), Send(SCENE)]);
  }

  lemma NewIsRecorded(m: Machine)
    requires m == Busy(EMPTY, Resting, SECOND, map[])
    ensures Plays(m, [Begin(SCENE, NEW), Send(SCENE)])
    ensures Outcome(m, [Begin(SCENE, NEW), Send(SCENE)]) == Sent(NEW, Resting, map[SCENE := 2])
  {
    var begun := Apply(m, Begin(SCENE, NEW));
    assert begun.promised == map[SCENE := 2] && begun.sending - {SCENE} == {};
    assert Apply(begun, Send(SCENE)) == Sent(NEW, Resting, map[SCENE := 2]);
    OneStepPlays(begun, Send(SCENE));
    StepThenPlays(m, Begin(SCENE, NEW), [Send(SCENE)]);
  }

  /** The late record replaces the target of the newer generation. */
  lemma LateOvertakes(m: Machine)
    requires m == Sent(NEW, Resting, map[SCENE := 2])
    ensures Enabled(m, Begin(SCENE, LATE)) && WarmSystem.Overtakes(m.queue, m.disk, SCENE, 2, LATE)
    ensures Apply(m, Begin(SCENE, LATE)) == Sent(LATE, Resting, map[SCENE := 1])
  {
    assert map[SCENE := 2][SCENE := 1] == map[SCENE := 1];
    assert map[SCENE := NEW][SCENE := LATE] == map[SCENE := LATE];
    assert m.queue.failures - {SCENE} == map[];
  }

  lemma LateIsWarmed(m: Machine, after: Machine)
    requires m == Sent(LATE, Resting, map[SCENE := 1]) && after == Busy(EMPTY, Looking, SECOND, map[])
    ensures Plays(m, [Receive, Take, CloneSender, Release])
    ensures Outcome(m, [Receive, Take, CloneSender, Release]) == after
  {
    var received := Sent(LATE, Received(SCENE), map[SCENE := 1]);
    assert AfterReceive(m) == received;
    assert map[SCENE := LATE] - {SCENE} == map[] && map[SCENE := 1] - {SCENE} == map[] && {SCENE} - {SCENE} == {};
    var taken := Busy(EMPTY.(scheduled := {SCENE}), Warming(SCENE, Some(LATE)), SECOND, map[]);
    assert AfterTake(received, SCENE) == taken;
    var ending := taken.(hand := Ending(SCENE, true));
    assert Apply(ending, Release) == after;
    OneStepPlays(ending, Release);
    StepThenPlays(taken, CloneSender, [Release]);
    StepThenPlays(received, Take, [CloneSender, Release]);
    StepThenPlays(m, Receive, [Take, CloneSender, Release]);
  }

  lemma NothingIsFound(m: Machine)
    requires m == Busy(EMPTY, Looking, SECOND, map[])
    ensures Plays(m, [Look, Check]) && Outcome(m, [Look, Check]) == m.(hand := Resting)
  {
    assert Unscheduled(m.queue) == {};
    OneStepPlays(m.(hand := Checking), Check);
    StepThenPlays(m, Look, [Check]);
  }

  /** Of two records of one Scene that come in the other order than their advances, the late one takes the place of
      the newer target. The scheduler comes to rest with the Scene Building at the second generation, which was
      recorded, and whose target was never taken. */
  lemma RecordCanOvertake()
    ensures Plays(START, TWICE_ADVANCED) && Plays(START, TWICE_ADVANCED + PASSED_OVER)
    ensures Outcome(START, TWICE_ADVANCED) == Sent(NEW, Resting, map[SCENE := 2])
    ensures Apply(Sent(NEW, Resting, map[SCENE := 2]), Begin(SCENE, LATE)) == Sent(LATE, Resting, map[SCENE := 1])
    ensures WarmSystem.Overtakes(Sent(NEW, Resting, map[SCENE := 2]).queue, SECOND, SCENE, 2, LATE)
    ensures Outcome(START, TWICE_ADVANCED + PASSED_OVER) == Busy(EMPTY, Resting, SECOND, map[])
  {
    NewIsSent();
    var sent, late := Sent(NEW, Resting, map[SCENE := 2]), Sent(LATE, Resting, map[SCENE := 1]);
    LateOvertakes(sent);
    LateIsWarmed(late, Busy(EMPTY, Looking, SECOND, map[]));
    NothingIsFound(Busy(EMPTY, Looking, SECOND, map[]));
    PlaysOn(late, [Receive, Take, CloneSender, Release], [Look, Check]);
    StepThenPlays(sent, Begin(SCENE, LATE), [Receive, Take, CloneSender, Release] + [Look, Check]);
    assert [Begin(SCENE, LATE)] + ([Receive, Take, CloneSender, Release] + [Look, Check]) == PASSED_OVER;
    PlaysOn(START, TWICE_ADVANCED, PASSED_OVER);
  }
}
