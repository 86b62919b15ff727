/** The records that advances, builds, repairs and prim counts leave, field by field. */
module SceneFields {
  import opened Wrappers
  import opened SceneOrder
  import opened SceneCache
  import opened SceneBuild
  import opened SceneProtocol
  import opened SceneSafety
  import opened ScenePublishing

  // ----- counting

  function CacheableRows(entries: seq<Entry>): set<nat> {
    set i: nat | i < |entries| && entries[i].cacheable
  }

  lemma {:induction false} CacheableCountCounts(entries: seq<Entry>)
    ensures CacheableCount(entries) == |CacheableRows(entries)|
  {
    if entries == [] {
      assert CacheableRows(entries) == {};
    } else {
      var rest := entries[1..];
      CacheableCountCounts(rest);
      var moved := Moved(CacheableRows(rest));
      MovedSize(CacheableRows(rest));
      forall i: nat ensures i in CacheableRows(entries) <==> (i == 0 && entries[0].cacheable) || i in moved {
        if i > 0 && i in CacheableRows(entries) { assert i - 1 in CacheableRows(rest); }
      }
      assert CacheableRows(entries) == moved + if entries[0].cacheable then {0} else {};
    }
  }

  function Moved(rows: set<nat>): set<nat> {
    set i | i in rows :: i + 1
  }

  lemma {:induction false} MovedSize(rows: set<nat>)
    ensures |Moved(rows)| == |rows|
    decreases rows
  {
    if rows == {} {
      assert Moved(rows) == {};
    } else {
      var row :| row in rows;
      MovedSize(rows - {row});
      assert row + 1 !in Moved(rows - {row});
      assert Moved(rows) == Moved(rows - {row}) + {row + 1} by {
        forall n ensures n in Moved(rows) <==> n in Moved(rows - {row}) + {row + 1} {
          if n in Moved(rows) && n != row + 1 { assert n - 1 in rows - {row}; }
        }
      }
    }
  }

  /** Added up over the rows. */
  function Total(rows: seq<Entry>, size: Entry -> nat): nat {
    if rows == [] then 0 else Total(rows[..|rows| - 1], size) + size(rows[|rows| - 1])
  }

  lemma {:induction false} TotalFromTheFront(rows: seq<Entry>, size: Entry -> nat)
    requires rows != []
    ensures Total(rows, size) == size(rows[0]) + Total(rows[1..], size)
  {
    if |rows| > 1 {
      var front := rows[..|rows| - 1];
      TotalFromTheFront(front, size);
      assert front[1..] == rows[1..][..|rows[1..]| - 1];
    }
  }

  function GeometrySize(row: Entry): nat {
    if row.geometry.Some? then row.geometry.value.byteSize else 0
  }

  function PayloadSize(row: Entry): nat {
    GeometrySize(row) + (if row.material.Some? then row.material.value.byteSize else 0)
    + (if row.animation.Some? then row.animation.value.byteSize else 0)
  }

  lemma {:induction false} BytesAddUp(rows: seq<Entry>)
    ensures GeometryBytes(rows) == Total(rows, GeometrySize) && PayloadBytes(rows) == Total(rows, PayloadSize)
  {
    if rows != [] {
      TotalFromTheFront(rows, GeometrySize);
      TotalFromTheFront(rows, PayloadSize);
      BytesAddUp(rows[1..]);
    }
  }

  // ----- descriptors

  predicate SameIdentity(left: Descriptor, right: Descriptor) {
    && left.schemaVersion == right.schemaVersion && left.scene == right.scene && left.generation == right.generation
    && left.sourceStamp == right.sourceStamp && left.configHash == right.configHash
  }

  predicate NamesFiles(d: Descriptor, index: SceneIndex, spatial: SpatialIndex) {
    d.indexDigest == OfIndex(index) && d.spatialDigest == Some(OfSpatial(spatial))
  }

  predicate CountsRows(d: Descriptor, rows: seq<Entry>, size: Entry -> nat) {
    && d.primCount == |rows| && d.cacheableCount == |CacheableRows(rows)|
    && d.estimatedCpuBytes == Total(rows, size) && d.estimatedGpuBytes == Total(rows, size)
  }

  /** An advance leaves the next generation: Building, nothing counted, nothing named. */
  lemma AdvanceLeaves(run: Run, t: nat)
    requires IsRun(run) && t < |run.events| && run.events[t].CommitAdvance?
    ensures run.states[t + 1].descriptor.Some? && run.states[t].holder.Advancing?
    ensures var d, read := run.states[t + 1].descriptor.value, run.states[t].holder.read;
      && d.scene == run.scene && d.schemaVersion == DESCRIPTOR_SCHEMA_VERSION
      && d.generation == (if read.Some? then read.value.generation else 0) + 1
      && d.sourceStamp == ManagedGeneration(d.generation) && d.sourceContentHash == None
      && d.configHash == run.states[t].holder.config
      && d.state == Building && d.primCount == 0 && !d.primCountReady && d.cacheableCount == 0
      && d.estimatedCpuBytes == 0 && d.estimatedGpuBytes == 0
      && d.indexDigest == Zero && d.spatialDigest == None
    ensures run.states[t + 1].index == run.states[t].index && run.states[t + 1].spatial == run.states[t].spatial
  {
    assert StepAt(run, t);
  }

  /** A removal takes one file and leaves the others. */
  lemma RemovalLeaves(run: Run, t: nat)
    requires IsRun(run) && t < |run.events| && run.events[t].Unlink?
    ensures var before, after, file := run.states[t], run.states[t + 1], run.events[t].file;
      && after.descriptor == (if file == DescriptorFile then None else before.descriptor)
      && after.index == (if file == IndexFile then None else before.index)
      && after.spatial == (if file == SpatialFile then None else before.spatial)
      && after.holder == before.holder
  {
    assert StepAt(run, t);
  }

  /** A build's descriptor: the identity it captured; Building gives way to what its caller asked for, any other state
      stays; a source hash the captured descriptor lacks is the caller's; the counts and sizes of the built rows. */
  lemma BuildLeaves(captured: Descriptor, caller: Descriptor, index: SceneIndex, spatial: SpatialIndex)
    ensures var d := Published(BuiltDescriptor(captured, caller, index.entries, PayloadBytes(index.entries)),
                               index, spatial);
      && SameIdentity(captured, d) && NamesFiles(d, index, spatial) && CountsRows(d, index.entries, PayloadSize)
      && d.primCountReady == captured.primCountReady
      && (captured.state != Building ==> d.state == captured.state)
      && (captured.state == Building ==> d.state == caller.state)
      && (captured.sourceContentHash.Some? ==> d.sourceContentHash == captured.sourceContentHash)
      && (captured.sourceContentHash.None? ==> d.sourceContentHash == caller.sourceContentHash)
  {
    CacheableCountCounts(index.entries);
    BytesAddUp(index.entries);
  }

  /** A build goes ahead exactly if the descriptor on file is of its caller's generation, schema, configuration and
      stamp, and no two different source hashes are known. */
  lemma BuildCapturesExactlyWhen(current: Option<Descriptor>, caller: Descriptor)
    ensures CaptureForBuild(current, caller).Some? <==>
            && current.Some? && current.value.generation == caller.generation
            && current.value.schemaVersion == caller.schemaVersion
            && current.value.configHash == caller.configHash && current.value.sourceStamp == caller.sourceStamp
            && (current.value.sourceContentHash == None || caller.sourceContentHash == None
                || current.value.sourceContentHash == caller.sourceContentHash)
    ensures CaptureForBuild(current, caller).Some? ==> CaptureForBuild(current, caller) == current
  {
  }

  /** A repair's descriptor: state, identity and source hash stay; the counts and sizes are those of the repaired
      rows. */
  lemma RepairLeaves(expected: Descriptor, index: SceneIndex, spatial: SpatialIndex)
    ensures var d := Published(RepairedDescriptor(expected, index), index, spatial);
      && SameIdentity(expected, d) && d.state == expected.state && d.sourceContentHash == expected.sourceContentHash
      && d.primCountReady == expected.primCountReady
      && NamesFiles(d, index, spatial) && CountsRows(d, index.entries, GeometrySize)
  {
    CacheableCountCounts(index.entries);
    BytesAddUp(index.entries);
  }

  // ----- prim counts

  /** What is counted for is still there: nothing, where nothing was expected, or the same Scene, schema, generation,
      configuration, stamp and source hash. */
  predicate StillExpected(scene: nat, disk: Disk, expected: Option<Descriptor>) {
    match expected
    case None => disk.descriptor.None?
    case Some(e) =>
      && disk.descriptor.Some? && e.scene == scene && SameIdentity(e, disk.descriptor.value)
      && e.sourceContentHash == disk.descriptor.value.sourceContentHash
  }

  /** A Scene that was never built may lack its files. */
  predicate NeverBuilt(d: Descriptor) {
    d.state == Empty || d.state == Building || d.state == FallbackRequired
  }

  /** The named index is on file and validates, or none was ever named. */
  predicate IndexServes(scene: nat, disk: Disk) {
    match disk.descriptor
    case None => true
    case Some(d) =>
      if disk.index.Some? && d.indexDigest == OfIndex(disk.index.value)
      then ValidIndex(disk.index.value, scene, d.generation)
      else NeverBuilt(d) && d.indexDigest == Zero
  }

  predicate SpatialServes(scene: nat, disk: Disk) {
    match disk.descriptor
    case None => true
    case Some(d) =>
      if disk.spatial.Some? && d.spatialDigest == Some(OfSpatial(disk.spatial.value))
      then ValidSpatial(disk.spatial.value, scene, d.generation)
      else NeverBuilt(d) && d.spatialDigest == None
  }

  lemma CountIsPublishedExactlyWhen(scene: nat, disk: Disk, expected: Option<Descriptor>, config: nat, primCount: nat)
    ensures PlanPrimCount(scene, disk, expected, config, primCount).Publish? <==>
            && StillExpected(scene, disk, expected) && IndexServes(scene, disk) && SpatialServes(scene, disk)
            && (disk.descriptor.Some? ==> disk.descriptor.value.cacheableCount <= primCount)
    ensures PlanPrimCount(scene, disk, expected, config, primCount).Stale? <==>
            expected.Some? && !StillExpected(scene, disk, expected)
    ensures PlanPrimCount(scene, disk, expected, config, primCount).RetryableCurrent? <==>
            expected.None? && !StillExpected(scene, disk, expected)
  {
  }

  /** A published count changes the count alone; it names the files that are there, or new ones without rows. */
  lemma CountLeaves(scene: nat, disk: Disk, expected: Option<Descriptor>, config: nat, primCount: nat)
    requires PlanPrimCount(scene, disk, expected, config, primCount).Publish?
    ensures var plan := PlanPrimCount(scene, disk, expected, config, primCount);
      var d, was := plan.descriptor, disk.descriptor;
      && d.primCount == primCount && d.primCountReady
      && (was.Some? ==>
            && SameIdentity(was.value, d) && d.state == was.value.state
            && d.sourceContentHash == was.value.sourceContentHash && d.cacheableCount == was.value.cacheableCount
            && d.estimatedCpuBytes == was.value.estimatedCpuBytes
            && d.estimatedGpuBytes == was.value.estimatedGpuBytes)
      && (was.None? ==>
            && d.scene == scene && d.generation == 1 && d.state == Partial && d.configHash == config
            && d.sourceStamp == ManagedGeneration(1) && d.sourceContentHash == None && d.cacheableCount == 0)
      && (if was.Some? && was.value.indexDigest != Zero then Some(plan.index) == disk.index
          else plan.index.entries == [] && plan.index.scene == scene && plan.index.generation == d.generation)
      && (if was.Some? && was.value.spatialDigest.Some? then Some(plan.spatial) == disk.spatial
          else plan.spatial == BuildSpatialIndex(plan.index))
  {
  }

  // ----- rows of a build

  /** Every row with bounds is a spatial row, in row order, and nothing else is. */
  lemma {:induction false} SpatialListsBounds(rows: seq<Entry>, address: Address, bounds: nat)
    ensures SpatialEntry(address, bounds) in SpatialEntries(rows)
            <==> exists row | row in rows :: row.address == address && row.bounds == Some(bounds)
  {
    if rows != [] {
      SpatialListsBounds(rows[..|rows| - 1], address, bounds);
      assert rows == rows[..|rows| - 1] + [rows[|rows| - 1]];
    }
  }

  // ----- what validates

  /** A row as it must be: of its Scene, its parent another row, its geometry cacheable and named by its own digest. */
  predicate SoundRow(index: SceneIndex, i: nat)
    requires i < |index.entries|
  {
    var row := index.entries[i];
    && row.address.scene == index.scene
    && (row.parent == None || (row.parent.value < |index.entries| && row.parent.value != i))
    && (row.geometry == None
        || (row.cacheable && row.contentHash.Some? && row.geometry.value.blob == Hex(row.contentHash.value)))
  }

  /** An index validates exactly if it has the schema, the Scene and the generation, sound rows, and addresses that
      ascend at any distance. */
  lemma IndexValidatesExactlyWhen(index: SceneIndex, scene: nat, generation: nat)
    ensures ValidIndex(index, scene, generation) <==>
            && index.schemaVersion == 2 && index.scene == scene && index.generation == generation
            && (forall i | 0 <= i < |index.entries| :: SoundRow(index, i))
            && forall i, j | 0 <= i < j < |index.entries| ::
                 AddressLess(index.entries[i].address, index.entries[j].address)
  {
    if StrictlyOrdered(index.entries) {
      forall i, j | 0 <= i < j < |index.entries|
        ensures AddressLess(index.entries[i].address, index.entries[j].address)
      {
        OrderedAtAnyDistance(index.entries, i, j);
      }
    }
    forall i | 0 <= i < |index.entries| ensures ValidEntry(index, i) <==> SoundRow(index, i) {}
  }

  lemma {:induction false} PlacesAscend(rows: seq<SpatialEntry>, i: nat, j: nat)
    requires SpatiallyOrdered(rows) && i < j < |rows|
    ensures AddressLess(rows[i].address, rows[j].address)
    decreases j
  {
    if i + 1 < j {
      PlacesAscend(rows, i, j - 1);
      AddressLessIsTransitive(rows[i].address, rows[j - 1].address, rows[j].address);
    }
  }

  lemma SpatialValidatesExactlyWhen(spatial: SpatialIndex, scene: nat, generation: nat)
    ensures ValidSpatial(spatial, scene, generation) <==>
            && spatial.schemaVersion == 1 && spatial.scene == scene && spatial.generation == generation
            && (forall i | 0 <= i < |spatial.entries| :: spatial.entries[i].address.scene == scene)
            && forall i, j | 0 <= i < j < |spatial.entries| ::
                 AddressLess(spatial.entries[i].address, spatial.entries[j].address)
  {
    if SpatiallyOrdered(spatial.entries) {
      forall i, j | 0 <= i < j < |spatial.entries|
        ensures AddressLess(spatial.entries[i].address, spatial.entries[j].address)
      {
        PlacesAscend(spatial.entries, i, j);
      }
    }
  }

  lemma DescriptorValidatesExactlyWhen(d: Descriptor)
    ensures ValidDescriptor(d) <==> d.schemaVersion == 3 && d.cacheableCount <= d.primCount
  {
  }
}
