/** The three publishers of a Scene's cache as the program runs them: a managed build, a targeted repair and a prim
    count. What they publish is what `SceneProtocol` says publishers publish. */
module ScenePublishing {
  import opened Wrappers
  import opened SceneCache
  import opened SceneBuild
  import opened SceneProtocol
  import opened SceneSafety
  import opened SceneStore

  /** The three files of one publication are on file, and its descriptor names them. */
  predicate OnFile(disk: Disk, d: Descriptor, index: SceneIndex, spatial: SpatialIndex) {
    disk == Disk(Some(Published(d, index, spatial)), Some(index), Some(spatial), Free)
  }

  // ---- Prim counts ----

  datatype PrimCountPublication = Counted(descriptor: Descriptor) | Retryable(descriptor: Descriptor) | StaleCount

  /** What an answer means, and what it leaves on file. */
  predicate CountAnswers(before: Disk, after: Disk, plan: PrimCountPlan, r: Result<PrimCountPublication, Failure>) {
    match r
    case Ok(Counted(d)) =>
      plan.Publish? && d == Published(plan.descriptor, plan.index, plan.spatial)
      && OnFile(after, plan.descriptor, plan.index, plan.spatial)
    case Ok(Retryable(d)) => plan.RetryableCurrent? && before.descriptor == Some(d) && after == before
    case Ok(StaleCount) => plan.Stale? && after == before
    case Err(_) => after == before || (plan.Publish? && PartlyPublished(before, after, plan.index, plan.spatial))
  }

  /** What a count plans to publish validates. */
  lemma CountIsPublishable(scene: nat, disk: Disk, expected: Option<Descriptor>, config: nat, primCount: nat)
    requires Intact(scene, disk) && PlanPrimCount(scene, disk, expected, config, primCount).Publish?
    ensures var plan := PlanPrimCount(scene, disk, expected, config, primCount);
      Publishable(plan.descriptor, plan.index, plan.spatial)
  {
    var plan := PlanPrimCount(scene, disk, expected, config, primCount);
    assert ValidIndex(plan.index, scene, plan.descriptor.generation);
    SpatialIndexIsValid(plan.index, scene, plan.descriptor.generation);
  }

  method PublishPrimCountIfCurrent(store: SceneCacheStore, scene: nat, expected: Option<Descriptor>, config: nat,
                                   primCount: nat) returns (r: Result<PrimCountPublication, Failure>)
    requires Quiet(store.scenes)
    modifies store
    ensures Quiet(store.scenes) && SameElsewhere(old(store.scenes), store.scenes, scene)
    ensures var before := Files(old(store.scenes), scene);
            CountAnswers(before, Files(store.scenes, scene),
                         PlanPrimCount(scene, before, expected, config, primCount), r)
    ensures var before := Files(old(store.scenes), scene);
            store.reliable && Intact(scene, before) ==>
              (r.Err? <==> PlanPrimCount(scene, before, expected, config, primCount).Fails?)
  {
    ghost var disk := Files(store.scenes, scene);
    var current := store.LoadDescriptor(scene);
    if current.Err? { return Err(current.error); }
    var d;
    if expected.None? {
      if current.value.Some? { return Ok(Retryable(current.value.value)); }
      d := Invalidated(scene, 1, config).(state := Partial);
    } else {
      if current.value.None? || !CompatibleIdentity(scene, expected.value, current.value.value) {
        return Ok(StaleCount);
      }
      d := current.value.value;
    }
    var mayLack := expected.None? || d.state.Empty? || d.state.Building? || d.state.FallbackRequired?;
    var index := store.LoadIndex(scene);
    if index.Err? { return Err(index.error); }
    if index.value.None? && !(mayLack && d.indexDigest == Zero) { return Err(Invalid); }
    var rows := if index.value.Some? then index.value.value else EmptyIndex(scene, d.generation);
    var spatial := store.LoadSpatial(scene);
    if spatial.Err? { return Err(spatial.error); }
    if spatial.value.None? && !(mayLack && d.spatialDigest.None?) { return Err(Invalid); }
    var places := if spatial.value.Some? then spatial.value.value else BuildSpatialIndex(rows);
    if primCount < d.cacheableCount { return Err(Invalid); }
    d := d.(primCount := primCount, primCountReady := true);
    assert PlanPrimCount(scene, disk, expected, config, primCount) == Publish(d, rows, places);
    CountIsPublishable(scene, disk, expected, config, primCount);
    var published := store.PublishGeneration(d, rows, places);
    if published.Err? { return Err(published.error); }
    return Ok(Counted(published.value));
  }

  // ---- Targeted repairs ----

  /** The first row that owns the path. */
  method FindOwned(entries: array<Entry>, path: string) returns (found: Option<nat>)
    ensures found.Some? ==> found.value < entries.Length && entries[found.value].kind == OwnedPrim(path)
                            && forall k | 0 <= k < found.value :: entries[k].kind != OwnedPrim(path)
    ensures found.None? ==> forall k | 0 <= k < entries.Length :: entries[k].kind != OwnedPrim(path)
  {
    for k := 0 to entries.Length
      invariant forall j | 0 <= j < k :: entries[j].kind != OwnedPrim(path)
    {
      if entries[k].kind == OwnedPrim(path) { return Some(k); }
    }
    return None;
  }

  lemma {:induction false} FillAt(entries: seq<Entry>, payload: Payload, at: nat)
    requires at < |entries| && entries[at].kind == OwnedPrim(payload.path)
    requires forall k | 0 <= k < at :: entries[k].kind != OwnedPrim(payload.path)
    ensures Fill(entries, payload) == Some(entries[at := Filled(entries[at], payload)])
  {
    if at > 0 {
      FillAt(entries[1..], payload, at - 1);
      assert entries[at := Filled(entries[at], payload)]
          == [entries[0]] + entries[1..][at - 1 := Filled(entries[at], payload)];
    } else {
      assert entries[0 := Filled(entries[0], payload)] == [Filled(entries[0], payload)] + entries[1..];
    }
  }

  /** Payload by payload, in place; a payload whose path no row owns ends it. */
  method FillPayloads(entries: array<Entry>, payloads: seq<Payload>) returns (ok: bool)
    modifies entries
    ensures ok <==> FillAll(old(entries[..]), payloads).Some?
    ensures ok ==> entries[..] == FillAll(old(entries[..]), payloads).value
  {
    for i := 0 to |payloads|
      invariant FillAll(entries[..], payloads[i..]) == FillAll(old(entries[..]), payloads)
    {
      assert payloads[i..][1..] == payloads[i + 1..];
      ghost var before := entries[..];
      var found := FindOwned(entries, payloads[i].path);
      if found.None? {
        assert forall entry | entry in before :: entry.kind != OwnedPrim(payloads[i].path);
        return false;
      }
      FillAt(before, payloads[i], found.value);
      entries[found.value] := Filled(entries[found.value], payloads[i]);
      assert entries[..] == before[found.value := Filled(before[found.value], payloads[i])];
    }
    return true;
  }

  /** The repaired index: filled, sorted and linked again, in place. */
  method RepairRows(index: SceneIndex, payloads: seq<Payload>) returns (repaired: Option<SceneIndex>)
    ensures repaired == RepairIndex(index, payloads)
  {
    var rows := new Entry[|index.entries|](i requires 0 <= i < |index.entries| => index.entries[i]);
    assert rows[..] == index.entries;
    var ok := FillPayloads(rows, payloads);
    if !ok { return None; }
    var sorted := SortByAddress(rows[..]);
    SameLength(rows[..], sorted);
    var linked := new Entry[|sorted|](i requires 0 <= i < |sorted| => sorted[i]);
    assert linked[..] == sorted;
    AssignParentIndexes(linked);
    return Some(index.(entries := linked[..]));
  }

  lemma SameLength(unsorted: seq<Entry>, sorted: seq<Entry>)
    requires multiset(unsorted) == multiset(sorted)
    ensures |unsorted| == |sorted|
  {
    assert |multiset(unsorted)| == |unsorted| && |multiset(sorted)| == |sorted|;
  }

  datatype RepairOutcome = Waiting | CasLost | RepairDone(descriptor: Descriptor)

  /** What a repair's answer means: it replaced the very descriptor it was asked to repair, or nothing. */
  predicate RepairAnswers(scene: nat, before: Disk, after: Disk, expected: Descriptor, payloads: seq<Payload>,
                          r: Result<RepairOutcome, Failure>)
  {
    var activation :=
        SceneProtocol.LoadActivation(scene, before.descriptor, before.descriptor, before.index, before.descriptor);
    match r
    case Ok(Waiting) => activation.None? && after == before
    case Ok(CasLost) => activation.Some? && activation.value.descriptor != expected && after == before
    case Ok(RepairDone(d)) =>
      && activation.Some? && activation.value.descriptor == expected
      && var index := RepairIndex(activation.value.index, payloads);
         && index.Some?
         && d == Published(RepairedDescriptor(expected, index.value), index.value, BuildSpatialIndex(index.value))
         && OnFile(after, RepairedDescriptor(expected, index.value), index.value, BuildSpatialIndex(index.value))
    case Err(_) =>
      after == before ||
      (activation.Some? && RepairIndex(activation.value.index, payloads).Some?
       && var index := RepairIndex(activation.value.index, payloads).value;
          PartlyPublished(before, after, index, BuildSpatialIndex(index)))
  }

  /** Reasons for a repair to fail that lie in the files and payloads alone. */
  predicate RepairFails(scene: nat, disk: Disk, expected: Descriptor, payloads: seq<Payload>) {
    if disk.descriptor.Some? && (disk.descriptor.value.state == Partial || disk.descriptor.value.state == Ready)
       && SceneProtocol.LoadIndex(scene, disk.descriptor, disk.index) == Corrupt
    then true
    else
      && disk.descriptor == Some(expected)
      && SceneProtocol.LoadActivation(scene, disk.descriptor, disk.descriptor, disk.index, disk.descriptor).Some?
      && var index := RepairIndex(disk.index.value, payloads);
         index.Some? ==> !Publishable(RepairedDescriptor(expected, index.value), index.value,
                                      BuildSpatialIndex(index.value))
  }

  method PersistScenePayloads(store: SceneCacheStore, scene: nat, expected: Descriptor, payloads: seq<Payload>)
    returns (r: Result<RepairOutcome, Failure>)
    requires Quiet(store.scenes)
    modifies store
    ensures Quiet(store.scenes) && SameElsewhere(old(store.scenes), store.scenes, scene)
    ensures RepairAnswers(scene, Files(old(store.scenes), scene), Files(store.scenes, scene), expected, payloads, r)
    ensures store.reliable && Intact(scene, Files(old(store.scenes), scene)) ==>
              (r.Err? <==> RepairFails(scene, Files(old(store.scenes), scene), expected, payloads))
  {
    var activation := store.LoadActivation(scene);
    if activation.Err? { return Err(activation.error); }
    if activation.value.None? { return Ok(Waiting); }
    if activation.value.value.descriptor != expected { return Ok(CasLost); }
    if !store.reliable { if * { return Err(Invalid); } }
    var index := RepairRows(activation.value.value.index, payloads);
    if index.None? { return Err(Invalid); }
    if !store.reliable { if * { return Err(Io); } }
    var spatial := BuildSpatialIndex(index.value);
    var published :=
        store.PublishGenerationIfCurrent(expected, RepairedDescriptor(expected, index.value), index.value, spatial);
    if published.Err? { return Err(published.error); }
    match published.value
    case NotCurrent => return Ok(CasLost);
    case Replaced(d) => return Ok(RepairDone(d));
  }

  // ---- Managed builds ----

  function BlobBytes(blob: Option<BlobRef>): nat {
    match blob case None => 0 case Some(found) => found.byteSize
  }

  /** A build counts geometry, material and animation. */
  function PayloadBytes(entries: seq<Entry>): nat {
    if entries == [] then 0
    else BlobBytes(entries[0].geometry) + BlobBytes(entries[0].material) + BlobBytes(entries[0].animation)
         + PayloadBytes(entries[1..])
  }

  predicate BuiltOnFile(after: Disk, captured: Descriptor, caller: Descriptor, index: SceneIndex,
                        spatial: SpatialIndex)
  {
    OnFile(after, BuiltDescriptor(captured, caller, index.entries, PayloadBytes(index.entries)), index, spatial)
  }

  /** What a build's answer means. A lookup that cannot be published afterwards is an error although the Scene's
      files are in place. */
  predicate BuildAnswers(before: Disk, after: Disk, caller: Descriptor, index: SceneIndex, spatial: SpatialIndex,
                         r: Result<bool, Failure>)
  {
    var captured := CaptureForBuild(before.descriptor, caller);
    match r
    case Ok(false) => after == before && captured.None?
    case Ok(true) => captured.Some? && BuiltOnFile(after, captured.value, caller, index, spatial)
    case Err(_) =>
      || PartlyPublished(before, after, index, spatial)
      || (captured.Some? && BuiltOnFile(after, captured.value, caller, index, spatial))
  }

  /** A managed build and its publication, the built index and spatial index being given. */
  method BuildAndPublishManaged(store: SceneCacheStore, caller: Descriptor, index: SceneIndex, spatial: SpatialIndex)
    returns (r: Result<bool, Failure>)
    requires Quiet(store.scenes)
    modifies store
    ensures Quiet(store.scenes) && SameElsewhere(old(store.scenes), store.scenes, caller.scene)
    ensures BuildAnswers(Files(old(store.scenes), caller.scene), Files(store.scenes, caller.scene), caller, index,
                         spatial, r)
    ensures var before := Files(old(store.scenes), caller.scene);
            store.reliable && Intact(caller.scene, before) ==>
              (r.Err? <==> var captured := CaptureForBuild(before.descriptor, caller);
                           captured.Some?
                           && !Publishable(BuiltDescriptor(captured.value, caller, index.entries,
                                                           PayloadBytes(index.entries)), index, spatial))
  {
    var current := store.LoadDescriptor(caller.scene);
    if current.Err? { return Err(current.error); }
    var captured := CaptureForBuild(current.value, caller);
    if captured.None? { return Ok(false); }
    if !store.reliable { if * { return Err(Io); } }
    var expected := captured.value;
    var d := BuiltDescriptor(expected, caller, index.entries, PayloadBytes(index.entries));
    var published := store.PublishGenerationIfCurrent(expected, d, index, spatial);
    if published.Err? { return Err(published.error); }
    if published.value.NotCurrent? { return Ok(false); }
    if !store.reliable { if * { return Err(Io); } }
    return Ok(true);
  }
}
