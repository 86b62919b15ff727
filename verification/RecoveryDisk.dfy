/** Recovery checkpoints on disk: a stage file and a metadata file replaced one after the other by a worker that may
    fail or die between any two steps. Digests and encodings stand for what they were made from. */
module RecoveryDisk {
  import opened Wrappers
  import opened CheckpointQueue

  const FORMAT_VERSION: nat := 1

  datatype Metadata = Metadata(
    formatVersion: nat,
    session: nat,
    revision: nat,
    source: string,
    base: Option<string>,
    stageDigest: Option<Bytes>,
    createdAt: nat)

  datatype Disk = Disk(stage: Option<Bytes>, metadata: Option<Metadata>)

  const BARE: Disk := Disk(None, None)

  /** The metadata of a checkpoint; a digest is the bytes it was made from, and an empty one is none. */
  function Describe(work: Work, time: nat): Metadata {
    Metadata(FORMAT_VERSION, work.session, work.revision, work.source, work.base, Some(work.stage), time)
  }

  /** A store for session zero cannot be made, nor a checkpoint without a source stage. */
  predicate Writable(work: Work) {
    work.session != 0 && work.source != ""
  }

  predicate ValidMetadata(session: nat, m: Metadata) {
    m.formatVersion == FORMAT_VERSION && m.session == session && m.stageDigest.Some?
  }

  datatype Inspection = Nothing | Checkpoint(metadata: Metadata) | Incomplete | Unusable

  function Inspect(session: nat, disk: Disk): Inspection {
    if disk == BARE then Nothing
    else if disk.stage.None? || disk.metadata.None? then Incomplete
    else if !ValidMetadata(session, disk.metadata.value) then Unusable
    else if disk.metadata.value.stageDigest != disk.stage then Unusable
    else Checkpoint(disk.metadata.value)
  }

  /** What inspection accepts, and what it says: both files are there, and the metadata is of this format and session
      with the stage's own digest. */
  lemma CheckpointIsAcceptedExactlyWhen(session: nat, disk: Disk)
    ensures Inspect(session, disk).Checkpoint? <==>
            && disk.stage.Some? && disk.metadata.Some?
            && disk.metadata.value.formatVersion == FORMAT_VERSION && disk.metadata.value.session == session
            && disk.metadata.value.stageDigest == Some(disk.stage.value)
    ensures Inspect(session, disk).Checkpoint? ==> Inspect(session, disk).metadata == disk.metadata.value
    ensures Inspect(session, disk).Nothing? <==> disk.stage.None? && disk.metadata.None?
    ensures Inspect(session, disk).Incomplete? <==> disk.stage.Some? != disk.metadata.Some?
  {
  }

  /** The metadata says everything about the work: session, revision, source, base, and the stage by its digest. */
  lemma MetadataSaysItsWork(work: Work, time: nat)
    ensures var m := Describe(work, time);
      && m.formatVersion == 1 && m.session == work.session && m.revision == work.revision && m.source == work.source
      && m.base == work.base && m.stageDigest == Some(work.stage) && m.createdAt == time
  {
  }

  // ---- The store as the program runs it ----

  class RecoveryStore {
    const session: nat
    /** Whether every access to the file system succeeds; if not, any may fail. */
    const reliable: bool
    var stage: Option<Bytes>
    var metadata: Option<Metadata>

    ghost function View(): Disk
      reads this
    {
      Disk(stage, metadata)
    }

    constructor (session: nat, reliable: bool)
      requires session != 0
      ensures this.session == session && this.reliable == reliable && View() == BARE
    {
      this.session, this.reliable, stage, metadata := session, reliable, None, None;
    }

    /** Stage first, metadata second; what a failure leaves is what a crash at that point would. */
    method WriteCheckpoint(work: Work, time: nat) returns (r: Option<Metadata>)
      requires work.session == session
      modifies this`stage, this`metadata
      ensures r.Some? ==> work.source != "" && r.value == Describe(work, time)
                          && View() == Disk(Some(work.stage), Some(Describe(work, time)))
      ensures r.None? ==> View() == old(View()) || View() == old(View()).(stage := Some(work.stage))
      ensures reliable ==> (r.Some? <==> work.source != "")
    {
      if work.source == "" { return None; }
      if !reliable { if * { return None; } }
      stage := Some(work.stage);
      if !reliable { if * { return None; } }
      metadata := Some(Describe(work, time));
      return Some(Describe(work, time));
    }

    method Look() returns (r: Option<Option<Metadata>>)
      ensures r == Some(None) ==> Inspect(session, View()) == Nothing
      ensures r.Some? && r.value.Some? ==> Inspect(session, View()) == Checkpoint(r.value.value)
      ensures reliable ==>
        (r.Some? <==> Inspect(session, View()) == Nothing || Inspect(session, View()).Checkpoint?)
    {
      if stage.None? && metadata.None? { return Some(None); }
      if stage.None? || metadata.None? { return None; }
      if !reliable { if * { return None; } }
      var read := metadata.value;
      if !ValidMetadata(session, read) { return None; }
      if !reliable { if * { return None; } }
      if stage != read.stageDigest { return None; }
      return Some(Some(read));
    }
  }

  // ---- Queue, worker and disk together ----

  /** What the worker is doing, with the position of the work it holds. */
  datatype Worker = Idle(ok: bool) | Holding(position: nat) | StageInstalled(position: nat)

  datatype System = System(history: History, worker: Worker, disks: map<nat, Disk>)

  datatype Event =
    | Submit(work: Work)
    | Close
    | Take
    | InstallStage
    | InstallMetadata(time: nat)
    | Fail
    | Clear(session: nat)

  const INITIAL: System := System(START, Idle(true), map[])

  function DiskOf(s: System, session: nat): Disk {
    if session in s.disks then s.disks[session] else BARE
  }

  predicate Enabled(s: System, event: Event) {
    match event
    case Take => s.worker.Idle? && s.history.queue.pending != []
    case InstallStage =>
      s.worker.Holding? && s.worker.position < |s.history.submitted| && Writable(s.history.submitted[s.worker.position])
    case InstallMetadata(_) =>
      s.worker.StageInstalled? && s.worker.position < |s.history.submitted|
    case Fail => !s.worker.Idle?
    case _ => true
  }

  function Apply(s: System, event: Event): System
    requires Enabled(s, event) && Kept(s.history)
  {
    match event
    case Submit(work) => s.(history := Submitted(s.history, work))
    case Close => s.(history := Closed(s.history))
    case Take => System(Taken(s.history), Holding(|s.history.submitted| - |s.history.queue.pending|), s.disks)
    case InstallStage =>
      var work := s.history.submitted[s.worker.position];
      System(s.history, StageInstalled(s.worker.position),
             s.disks[work.session := DiskOf(s, work.session).(stage := Some(work.stage))])
    case InstallMetadata(time) =>
      var work := s.history.submitted[s.worker.position];
      System(s.history, Idle(true),
             s.disks[work.session := DiskOf(s, work.session).(metadata := Some(Describe(work, time)))])
    case Fail => s.(worker := Idle(false))
    case Clear(session) => s.(disks := s.disks - {session})
  }

  // ---- Invariants ----

  /** The metadata on disk describes taken work, at the given position. */
  predicate Describes(s: System, session: nat, position: nat) {
    var disk := DiskOf(s, session);
    && disk.metadata.Some? && position < |s.history.submitted|
    && s.history.submitted[position].session == session
    && disk.metadata.value == Describe(s.history.submitted[position], disk.metadata.value.createdAt)
    && s.history.taken != [] && position <= s.history.taken[|s.history.taken| - 1]
  }

  ghost predicate MetadataIsTaken(s: System, session: nat) {
    DiskOf(s, session).metadata.Some? ==> exists position: nat :: Describes(s, session, position)
  }

  /** The stage on disk is the one its worker last installed. */
  predicate HoldsLast(s: System) {
    match s.worker
    case Idle(_) => true
    case Holding(position) => s.history.taken != [] && position == s.history.taken[|s.history.taken| - 1]
    case StageInstalled(position) =>
      && s.history.taken != [] && position == s.history.taken[|s.history.taken| - 1]
      && position < |s.history.submitted|
  }

  ghost predicate Sound(s: System) {
    Kept(s.history) && HoldsLast(s) && forall session: nat :: MetadataIsTaken(s, session)
  }

  lemma StepKeepsHistory(s: System, event: Event)
    requires Sound(s) && Enabled(s, event)
    ensures Kept(Apply(s, event).history) && HoldsLast(Apply(s, event))
    ensures s.history.submitted <= Apply(s, event).history.submitted
    ensures s.history.taken <= Apply(s, event).history.taken
  {
    match event
    case Submit(work) => SubmissionIsKept(s.history, work);
    case Take => TakingIsKept(s.history);
    case _ =>
  }

  lemma LastTakenGrows(s: System, event: Event, position: nat, session: nat)
    requires Sound(s) && Enabled(s, event) && Describes(s, session, position)
    requires DiskOf(Apply(s, event), session).metadata == DiskOf(s, session).metadata
    ensures Describes(Apply(s, event), session, position)
  {
    StepKeepsHistory(s, event);
    var after := Apply(s, event).history.taken;
    if event.Take? {
      TakingIsKept(s.history);
      assert s.history.taken[|s.history.taken| - 1] < after[|after| - 1];
    }
  }

  /** Metadata changes only where it is installed or cleared. */
  lemma MetadataChanges(s: System, event: Event, session: nat)
    requires Sound(s) && Enabled(s, event)
    ensures var before, after := DiskOf(s, session).metadata, DiskOf(Apply(s, event), session).metadata;
            || after == before || after.None?
            || (event.InstallMetadata? && s.history.submitted[s.worker.position].session == session)
  {
  }

  lemma InstalledMetadataIsTaken(s: System, event: Event, session: nat)
    requires Sound(s) && Enabled(s, event) && event.InstallMetadata?
    requires s.history.submitted[s.worker.position].session == session
    ensures Describes(Apply(s, event), session, s.worker.position)
  {
  }

  lemma StepKeepsMetadata(s: System, event: Event, session: nat)
    requires Sound(s) && Enabled(s, event)
    ensures MetadataIsTaken(Apply(s, event), session)
  {
    MetadataChanges(s, event, session);
    if event.InstallMetadata? && s.history.submitted[s.worker.position].session == session {
      InstalledMetadataIsTaken(s, event, session);
    } else if DiskOf(Apply(s, event), session).metadata.Some? {
      assert MetadataIsTaken(s, session);
      var position: nat :| Describes(s, session, position);
      LastTakenGrows(s, event, position, session);
    }
  }

  lemma StepIsSound(s: System, event: Event)
    requires Sound(s) && Enabled(s, event)
    ensures Sound(Apply(s, event))
  {
    StepKeepsHistory(s, event);
    forall session: nat ensures MetadataIsTaken(Apply(s, event), session) {
      StepKeepsMetadata(s, event, session);
    }
  }

  /** Whatever the moment of a crash, a checkpoint that inspection accepts is one that was taken from the queue:
      its metadata and its stage belong to the same work. */
  lemma AcceptedCheckpointIsWhole(s: System, session: nat)
    requires Sound(s) && Inspect(session, DiskOf(s, session)).Checkpoint?
    ensures exists position: nat ::
      && position < |s.history.submitted|
      && DiskOf(s, session).stage == Some(s.history.submitted[position].stage)
      && Inspect(session, DiskOf(s, session)).metadata
         == Describe(s.history.submitted[position], Inspect(session, DiskOf(s, session)).metadata.createdAt)
  {
    assert MetadataIsTaken(s, session);
    var position: nat :| Describes(s, session, position);
  }

  // ---- Runs ----

  ghost predicate StepAt(states: seq<System>, events: seq<Event>, t: nat)
    requires |states| == |events| + 1 && t < |events|
  {
    Kept(states[t].history) && Enabled(states[t], events[t]) && states[t + 1] == Apply(states[t], events[t])
  }

  ghost predicate IsRun(states: seq<System>, events: seq<Event>) {
    && |states| == |events| + 1
    && states[0] == INITIAL
    && forall t | 0 <= t < |events| :: StepAt(states, events, t)
  }

  lemma {:induction false} RunIsSound(states: seq<System>, events: seq<Event>, t: nat)
    requires IsRun(states, events) && t < |states|
    ensures Sound(states[t])
    decreases t
  {
    if t > 0 {
      RunIsSound(states, events, t - 1);
      assert StepAt(states, events, t - 1);
      StepIsSound(states[t - 1], events[t - 1]);
    }
  }

  /** In every run and at every moment, an accepted checkpoint is whole. */
  lemma RunRestoresWholeCheckpoints(states: seq<System>, events: seq<Event>, t: nat, session: nat)
    requires IsRun(states, events) && t < |states|
    requires Inspect(session, DiskOf(states[t], session)).Checkpoint?
    ensures exists position: nat ::
      && position < |states[t].history.submitted|
      && DiskOf(states[t], session).stage == Some(states[t].history.submitted[position].stage)
      && Inspect(session, DiskOf(states[t], session)).metadata
         == Describe(states[t].history.submitted[position],
                     Inspect(session, DiskOf(states[t], session)).metadata.createdAt)
  {
    RunIsSound(states, events, t);
    AcceptedCheckpointIsWhole(states[t], session);
  }

  /** The session's checkpoints are submitted in revision order. */
  predicate Ordered(submitted: seq<Work>, session: nat) {
    forall i, j | 0 <= i < j < |submitted| && submitted[i].session == submitted[j].session == session ::
      submitted[i].revision <= submitted[j].revision
  }

  predicate GoesForward(before: Option<Metadata>, after: Option<Metadata>) {
    before.Some? ==> after.Some? && before.value.revision <= after.value.revision
  }

  lemma StepGoesForward(s: System, event: Event, session: nat)
    requires Sound(s) && Enabled(s, event) && event != Clear(session)
    requires Ordered(s.history.submitted, session)
    ensures GoesForward(DiskOf(s, session).metadata, DiskOf(Apply(s, event), session).metadata)
  {
    if event.InstallMetadata? && s.history.submitted[s.worker.position].session == session
       && DiskOf(s, session).metadata.Some? {
      assert MetadataIsTaken(s, session);
      var position: nat :| Describes(s, session, position);
      assert position <= s.worker.position;
    }
  }

  lemma {:induction false} SubmissionsGrow(states: seq<System>, events: seq<Event>, start: nat, now: nat)
    requires IsRun(states, events) && start <= now < |states|
    ensures states[start].history.submitted <= states[now].history.submitted
    decreases now
  {
    if start < now {
      SubmissionsGrow(states, events, start, now - 1);
      RunIsSound(states, events, now - 1);
      assert StepAt(states, events, now - 1);
      StepKeepsHistory(states[now - 1], events[now - 1]);
    }
  }

  /** With a session's checkpoints submitted in revision order, the revision on disk never goes back, until the
      session is cleared: not over failures, and not over checkpoints that were pushed out. */
  lemma {:induction false} RevisionNeverGoesBack(states: seq<System>, events: seq<Event>, start: nat, now: nat,
                                                 session: nat)
    requires IsRun(states, events) && start <= now < |states|
    requires Ordered(states[now].history.submitted, session)
    requires forall t | start <= t < now :: events[t] != Clear(session)
    ensures GoesForward(DiskOf(states[start], session).metadata, DiskOf(states[now], session).metadata)
    decreases now
  {
    if start < now {
      SubmissionsGrow(states, events, now - 1, now);
      RevisionNeverGoesBack(states, events, start, now - 1, session);
      RunIsSound(states, events, now - 1);
      assert StepAt(states, events, now - 1);
      StepGoesForward(states[now - 1], events[now - 1], session);
    }
  }

  // ---- What a drained queue has written ----

  function LastTaken(s: System): Work
    requires Kept(s.history) && s.history.taken != []
  {
    s.history.submitted[s.history.taken[|s.history.taken| - 1]]
  }

  predicate OnDisk(disk: Disk, work: Work) {
    && disk.stage == Some(work.stage) && disk.metadata.Some?
    && disk.metadata.value == Describe(work, disk.metadata.value.createdAt)
  }

  /** A worker that finished its last work well has left it on disk. */
  ghost predicate Delivered(s: System) {
    Kept(s.history) && s.history.taken != [] ==>
      match s.worker
      case Idle(ok) => ok ==> Writable(LastTaken(s)) && OnDisk(DiskOf(s, LastTaken(s).session), LastTaken(s))
      case Holding(_) => true
      case StageInstalled(_) =>
        Writable(LastTaken(s)) && DiskOf(s, LastTaken(s).session).stage == Some(LastTaken(s).stage)
  }

  lemma LastTakenStays(s: System, event: Event)
    requires Sound(s) && Enabled(s, event) && !event.Take? && s.history.taken != []
    ensures Apply(s, event).history.taken == s.history.taken && Sound(Apply(s, event))
    ensures LastTaken(Apply(s, event)) == LastTaken(s)
  {
    StepIsSound(s, event);
  }

  lemma StepDelivers(s: System, event: Event)
    requires Sound(s) && Enabled(s, event) && Delivered(s) && !event.Clear?
    ensures Delivered(Apply(s, event))
  {
    StepIsSound(s, event);
    if event.Take? || s.history.taken == [] {
    } else {
      LastTakenStays(s, event);
    }
  }

  lemma {:induction false} RunDelivers(states: seq<System>, events: seq<Event>, t: nat)
    requires IsRun(states, events) && t < |states| && forall k | 0 <= k < t :: !events[k].Clear?
    ensures Delivered(states[t])
    decreases t
  {
    if t > 0 {
      RunDelivers(states, events, t - 1);
      RunIsSound(states, events, t - 1);
      assert StepAt(states, events, t - 1);
      StepDelivers(states[t - 1], events[t - 1]);
    }
  }

  /** Once the queue is drained and the last write succeeded, inspection yields the newest checkpoint submitted,
      however many were pushed out on the way. */
  lemma DrainedQueueLeavesNewest(states: seq<System>, events: seq<Event>, t: nat)
    requires IsRun(states, events) && t < |states| && forall k | 0 <= k < t :: !events[k].Clear?
    requires states[t].worker == Idle(true) && states[t].history.queue.pending == []
        && states[t].history.submitted != []
    ensures var submitted := states[t].history.submitted;
            var newest := submitted[|submitted| - 1];
            var seen := Inspect(newest.session, DiskOf(states[t], newest.session));
            seen.Checkpoint? && seen.metadata == Describe(newest, seen.metadata.createdAt)
            && DiskOf(states[t], newest.session).stage == Some(newest.stage)
  {
    RunIsSound(states, events, t);
    RunDelivers(states, events, t);
    NewestIsKept(states[t].history);
  }
}
