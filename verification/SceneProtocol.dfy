/** One Scene's cache files as shared state: locked publishers that write three files one after the other and may
    die between any two writes, an unlocked writer, unlocked removal, and readers that look at the files at arbitrary
    moments. */
module SceneProtocol {
  import opened Wrappers
  import opened SceneCache
  import opened SceneBuild

  /** Who holds the Scene's generation lock, with what it has read and how many files it has written. */
  datatype Holder =
    | Free
    | Advancing(read: Option<Descriptor>, config: nat)
    | Publishing(descriptor: Descriptor, index: SceneIndex, spatial: SpatialIndex, written: nat)
    | Removing

  /** The three files, and the lock. */
  datatype Disk = Disk(
    descriptor: Option<Descriptor>,
    index: Option<SceneIndex>,
    spatial: Option<SpatialIndex>,
    holder: Holder)

  const FRESH: Disk := Disk(None, None, None, Free)

  datatype File = DescriptorFile | IndexFile | SpatialFile

  /** The moments of one `load_activation`: descriptor, then descriptor and index file, then descriptor again. */
  datatype Reads = Reads(first: nat, second: nat, file: nat, last: nat)

  /** Geometry extracted for one owned prim. */
  datatype Payload = Payload(path: string, blob: nat, byteSize: nat, localBounds: Option<nat>)

  datatype Event =
    | LockAdvance(config: nat)
    | CommitAdvance
    | LockBuild(expected: Descriptor, descriptor: Descriptor, index: SceneIndex, spatial: SpatialIndex)
    | LockRepair(seen: Reads, payloads: seq<Payload>)
    | LockPrimCount(expectation: Option<Descriptor>, config: nat, primCount: nat)
    | WriteIndex
    | WriteSpatial
    | WriteDescriptor
    | LockRemove
    | Unlink(file: File)
    | EndRemove
    | Abandon
    | Terminalize(generation: nat)

  // ----- readers

  datatype Loaded<T> = Missing | Found(value: T) | Corrupt

  /** `load_index`, given the descriptor and the index file it happened to see. */
  function LoadIndex(scene: nat, descriptor: Option<Descriptor>, file: Option<SceneIndex>): Loaded<SceneIndex> {
    if descriptor.None? || file.None? then Missing
    else if OfIndex(file.value) != descriptor.value.indexDigest then Missing
    else if ValidIndex(file.value, scene, descriptor.value.generation) then Found(file.value)
    else Corrupt
  }

  predicate Activatable(d: Descriptor) {
    d.state.Partial? || d.state.Ready?
  }

  datatype Activation = Activation(descriptor: Descriptor, index: SceneIndex)

  /** `load_activation`, given what its four reads saw. */
  function LoadActivation(scene: nat, first: Option<Descriptor>, second: Option<Descriptor>,
                          file: Option<SceneIndex>, last: Option<Descriptor>): Option<Activation>
  {
    if first.None? || !Activatable(first.value) then None
    else
      var index := LoadIndex(scene, second, file);
      if !index.Found? || last.None? then None
      else if last.value.generation != first.value.generation
           || last.value.indexDigest != first.value.indexDigest
           || !Activatable(last.value) then None
      else Some(Activation(last.value, index.value))
  }

  // ----- publishers

  /** The descriptor that names the files written with it. */
  function Published(d: Descriptor, index: SceneIndex, spatial: SpatialIndex): Descriptor {
    d.(indexDigest := OfIndex(index), spatialDigest := Some(OfSpatial(spatial)))
  }

  /** `publish_generation_if_current` up to its first write: the descriptor must be the expected one, whole. */
  function Granted(scene: nat, disk: Disk, expected: Descriptor, d: Descriptor, index: SceneIndex,
                   spatial: SpatialIndex): bool
  {
    && disk.descriptor == Some(expected)
    && ValidIndex(index, scene, d.generation) && ValidSpatial(spatial, scene, d.generation)
  }

  function Invalidation(scene: nat, read: Option<Descriptor>, config: nat): Descriptor {
    Invalidated(scene, if read.None? then 1 else read.value.generation + 1, config)
  }

  predicate CompatibleIdentity(scene: nat, expected: Descriptor, current: Descriptor) {
    && expected.scene == scene && current.scene == scene
    && expected.schemaVersion == current.schemaVersion
    && expected.generation == current.generation
    && expected.configHash == current.configHash
    && expected.sourceStamp == current.sourceStamp
    && expected.sourceContentHash == current.sourceContentHash
  }

  datatype PrimCountPlan =
    | Publish(descriptor: Descriptor, index: SceneIndex, spatial: SpatialIndex)
    | RetryableCurrent
    | Stale
    | Fails

  function EmptyIndex(scene: nat, generation: nat): SceneIndex {
    SceneIndex(INDEX_SCHEMA_VERSION, scene, generation, [])
  }

  function LoadSpatial(scene: nat, descriptor: Option<Descriptor>, file: Option<SpatialIndex>): Loaded<SpatialIndex> {
    if descriptor.None? || descriptor.value.spatialDigest.None? || file.None? then Missing
    else if OfSpatial(file.value) != descriptor.value.spatialDigest.value then Missing
    else if ValidSpatial(file.value, scene, descriptor.value.generation) then Found(file.value)
    else Corrupt
  }

  /** `publish_prim_count_if_current` up to its first write. */
  function PlanPrimCount(scene: nat, disk: Disk, expected: Option<Descriptor>, config: nat,
                         primCount: nat): PrimCountPlan {
    if expected.None? && disk.descriptor.Some? then RetryableCurrent
    else if expected.Some?
            && !(disk.descriptor.Some? && CompatibleIdentity(scene, expected.value, disk.descriptor.value))
      then Stale
    else
      var d := if disk.descriptor.Some? then disk.descriptor.value
          else Invalidated(scene, 1, config).(state := Partial);
      var mayLack := expected.None? || d.state.Empty? || d.state.Building? || d.state.FallbackRequired?;
      var index := LoadIndex(scene, disk.descriptor, disk.index);
      if index.Corrupt? || (index.Missing? && !(mayLack && d.indexDigest == Zero)) then Fails
      else
        var index := if index.Found? then index.value else EmptyIndex(scene, d.generation);
        var spatial := LoadSpatial(scene, disk.descriptor, disk.spatial);
        if spatial.Corrupt? || (spatial.Missing? && !(mayLack && d.spatialDigest.None?)) then Fails
        else if primCount < d.cacheableCount then Fails
        else
          var spatial := if spatial.Found? then spatial.value else BuildSpatialIndex(index);
          Publish(d.(primCount := primCount, primCountReady := true), index, spatial)
  }

  // ----- targeted repair

  /** Put the extracted geometry into the first row that owns its path. */
  function Fill(entries: seq<Entry>, payload: Payload): (r: Option<seq<Entry>>)
    ensures r.None? <==> forall entry | entry in entries :: entry.kind != OwnedPrim(payload.path)
    ensures r.Some? ==> |r.value| == |entries|
  {
    if entries == [] then None
    else if entries[0].kind == OwnedPrim(payload.path) then Some([Filled(entries[0], payload)] + entries[1..])
    else
      var rest := Fill(entries[1..], payload);
      if rest.None? then None else Some([entries[0]] + rest.value)
  }

  function Filled(entry: Entry, payload: Payload): Entry {
    entry.(cacheable := true, geometry := Some(BlobRef(Hex(payload.blob), payload.byteSize)),
           contentHash := Some(payload.blob),
           bounds := if entry.bounds.None? then payload.localBounds else entry.bounds)
  }

  function FillAll(entries: seq<Entry>, payloads: seq<Payload>): (r: Option<seq<Entry>>)
    ensures r.Some? ==> |r.value| == |entries|
    decreases |payloads|
  {
    if payloads == [] then Some(entries)
    else
      var first := Fill(entries, payloads[0]);
      if first.None? then None else FillAll(first.value, payloads[1..])
  }

  function RepairIndex(index: SceneIndex, payloads: seq<Payload>): Option<SceneIndex> {
    var filled := FillAll(index.entries, payloads);
    if filled.None? then None
    else Some(index.(entries := AssignParents(SortByAddress(filled.value))))
  }

  function CacheableCount(entries: seq<Entry>): (n: nat)
    ensures n <= |entries|
  {
    if entries == [] then 0 else (if entries[0].cacheable then 1 else 0) + CacheableCount(entries[1..])
  }

  function GeometryBytes(entries: seq<Entry>): nat {
    if entries == [] then 0
    else (if entries[0].geometry.Some? then entries[0].geometry.value.byteSize else 0) + GeometryBytes(entries[1..])
  }

  function RepairedDescriptor(expected: Descriptor, index: SceneIndex): Descriptor {
    expected.(primCount := |index.entries|, cacheableCount := CacheableCount(index.entries),
              estimatedCpuBytes := GeometryBytes(index.entries), estimatedGpuBytes := GeometryBytes(index.entries))
  }

  // ----- steps

  function WithHolder(disk: Disk, holder: Holder): Disk {
    disk.(holder := holder)
  }

  function PublishFrom(disk: Disk, d: Descriptor, index: SceneIndex, spatial: SpatialIndex): Disk {
    WithHolder(disk, Publishing(Published(d, index, spatial), index, spatial, 0))
  }

  /** What a publisher does that captured `expected` earlier: nothing, unless the descriptor is still that one. */
  function CompareAndLock(scene: nat, disk: Disk, expected: Descriptor, d: Descriptor, index: SceneIndex,
                          spatial: SpatialIndex): Disk
  {
    if Granted(scene, disk, expected, d, index, spatial) then PublishFrom(disk, d, index, spatial) else disk
  }

  function MarkedTerminal(disk: Disk, generation: nat): Disk {
    if disk.descriptor.Some? && disk.descriptor.value.generation == generation && disk.descriptor.value.state.Building?
    then disk.(descriptor := Some(disk.descriptor.value.(state := FallbackRequired)))
    else disk
  }

  function Unlinked(disk: Disk, file: File): Disk {
    match file
    case DescriptorFile => disk.(descriptor := None)
    case IndexFile => disk.(index := None)
    case SpatialFile => disk.(spatial := None)
  }

  /** Builds and repairs publish the generation they captured. A file may be removed at any moment: one Scene's
      removal holds the lock, the removal of all derived state does not. */
  predicate Enabled(scene: nat, disk: Disk, event: Event) {
    match event
    case LockAdvance(_) => disk.holder.Free?
    case CommitAdvance =>
      disk.holder.Advancing? && (disk.holder.read.Some? ==> disk.holder.read.value.generation < GENERATION_MAX)
    case LockBuild(expected, d, _, _) =>
      disk.holder.Free? && d.generation == expected.generation && d.scene == expected.scene
    case LockRepair(_, _) => disk.holder.Free?
    case LockPrimCount(_, _, _) => disk.holder.Free?
    case WriteIndex => disk.holder.Publishing? && disk.holder.written == 0
    case WriteSpatial => disk.holder.Publishing? && disk.holder.written == 1
    case WriteDescriptor =>
      disk.holder.Publishing? && disk.holder.written == 2 && ValidDescriptor(disk.holder.descriptor)
    case LockRemove => disk.holder.Free?
    case Unlink(_) => true
    case EndRemove => disk.holder.Removing?
    case Abandon => !disk.holder.Free?
    case Terminalize(_) => true
  }

  function PlannedPrimCount(scene: nat, disk: Disk, expected: Option<Descriptor>, config: nat, primCount: nat): Disk {
    match PlanPrimCount(scene, disk, expected, config, primCount)
    case Publish(d, index, spatial) => PublishFrom(disk, d, index, spatial)
    case _ => disk
  }

  function Apply(scene: nat, disk: Disk, event: Event): Disk
    requires Enabled(scene, disk, event) && !event.LockRepair?
  {
    match event
    case LockAdvance(config) => WithHolder(disk, Advancing(disk.descriptor, config))
    case CommitAdvance =>
      disk.(descriptor := Some(Invalidation(scene, disk.holder.read, disk.holder.config)), holder := Free)
    case LockBuild(expected, d, index, spatial) => CompareAndLock(scene, disk, expected, d, index, spatial)
    case LockPrimCount(expected, config, primCount) => PlannedPrimCount(scene, disk, expected, config, primCount)
    case WriteIndex => disk.(index := Some(disk.holder.index), holder := disk.holder.(written := 1))
    case WriteSpatial => disk.(spatial := Some(disk.holder.spatial), holder := disk.holder.(written := 2))
    case WriteDescriptor => disk.(descriptor := Some(disk.holder.descriptor), holder := Free)
    case LockRemove => WithHolder(disk, Removing)
    case Unlink(file) => Unlinked(disk, file)
    case EndRemove => WithHolder(disk, Free)
    case Abandon => WithHolder(disk, Free)
    case Terminalize(generation) => MarkedTerminal(disk, generation)
  }

  /** A history of one Scene: states joined by events. A repair's event also says when its activation was read. */
  datatype Run = Run(scene: nat, states: seq<Disk>, events: seq<Event>)

  predicate InOrder(seen: Reads, now: nat) {
    seen.first <= seen.second <= seen.file <= seen.last <= now
  }

  /** What a reader gets that looks at the files at the given moments. */
  function ActivationAt(run: Run, seen: Reads): Option<Activation>
    requires seen.first < |run.states| && seen.second < |run.states|
    requires seen.file < |run.states| && seen.last < |run.states|
  {
    LoadActivation(run.scene, run.states[seen.first].descriptor, run.states[seen.second].descriptor,
                   run.states[seen.file].index, run.states[seen.last].descriptor)
  }

  function Repaired(scene: nat, disk: Disk, activation: Option<Activation>, payloads: seq<Payload>): Disk {
    if activation.None? then disk
    else
      var index := RepairIndex(activation.value.index, payloads);
      if index.None? then disk
      else
        var expected := activation.value.descriptor;
        CompareAndLock(scene, disk, expected, RepairedDescriptor(expected, index.value), index.value,
                       BuildSpatialIndex(index.value))
  }

  ghost predicate StepAt(run: Run, t: nat)
    requires |run.states| == |run.events| + 1 && t < |run.events|
  {
    && Enabled(run.scene, run.states[t], run.events[t])
    && match run.events[t]
       case LockRepair(seen, payloads) =>
         && InOrder(seen, t)
         && run.states[t + 1] == Repaired(run.scene, run.states[t], ActivationAt(run, seen), payloads)
       case event => run.states[t + 1] == Apply(run.scene, run.states[t], event)
  }

  ghost predicate IsRun(run: Run) {
    && |run.states| == |run.events| + 1
    && run.states[0] == FRESH
    && forall t | 0 <= t < |run.events| :: StepAt(run, t)
  }
}
