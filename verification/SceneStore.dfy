/** The Scene cache store as the program runs it: files replaced in order, where every access to the file system
    may fail. Each locked operation runs whole; what another thread sees between its writes is the subject of
    `SceneProtocol`, whose states and transitions these methods are measured by. */
module SceneStore {
  import opened Wrappers
  import opened SceneCache
  import opened SceneProtocol

  datatype Failure = Io | Invalid | Overflow

  datatype Cas = Replaced(descriptor: Descriptor) | NotCurrent

  /** The Scene's files, no operation being under way. */
  function Files(scenes: map<nat, Disk>, scene: nat): Disk {
    if scene in scenes then scenes[scene] else FRESH
  }

  predicate Quiet(scenes: map<nat, Disk>) {
    forall scene | scene in scenes :: scenes[scene].holder.Free?
  }

  ghost predicate SameElsewhere(before: map<nat, Disk>, after: map<nat, Disk>, scene: nat) {
    forall other: nat | other != scene :: Files(after, other) == Files(before, other)
  }

  /** The next generation is on file: a Building descriptor naming no index. */
  predicate Advanced(scene: nat, before: Disk, after: Disk) {
    && after.descriptor.Some?
    && after.descriptor.value
        == Invalidated(scene, after.descriptor.value.generation, after.descriptor.value.configHash)
    && (before.descriptor.Some? ==> after.descriptor.value.generation > before.descriptor.value.generation)
  }

  /** Some files may be gone; no file has been replaced. */
  predicate PartlyRemoved(before: Disk, after: Disk) {
    && (after.descriptor == before.descriptor || after.descriptor.None?)
    && (after.index == before.index || after.index.None?)
    && (after.spatial == before.spatial || after.spatial.None?)
    && after.holder.Free?
  }

  predicate PartlyCleared(before: map<nat, Disk>, after: map<nat, Disk>) {
    forall scene | scene in after :: scene in before && PartlyRemoved(before[scene], after[scene])
  }

  /** What a publication leaves that stops at one of its writes. */
  predicate PartlyPublished(before: Disk, after: Disk, index: SceneIndex, spatial: SpatialIndex) {
    || after == before
    || after == before.(index := Some(index))
    || after == before.(index := Some(index), spatial := Some(spatial))
  }

  /** A publication of other files than those named leaves nothing behind that a load would accept, so a reader
      sees the old index or none. */
  lemma PartialPublicationIsInvisible(scene: nat, before: Disk, after: Disk, index: SceneIndex, spatial: SpatialIndex)
    requires PartlyPublished(before, after, index, spatial)
    requires LoadIndex(scene, after.descriptor, after.index).Found?
    ensures LoadIndex(scene, after.descriptor, after.index).value == index
            || LoadIndex(scene, after.descriptor, after.index) == LoadIndex(scene, before.descriptor, before.index)
    ensures OfIndex(LoadIndex(scene, after.descriptor, after.index).value) == before.descriptor.value.indexDigest
  {
  }

  /** There is no descriptor, or one that a load accepts. */
  predicate Intact(scene: nat, disk: Disk) {
    disk.descriptor.Some? ==> disk.descriptor.value.scene == scene && ValidDescriptor(disk.descriptor.value)
  }

  /** Generations end where 64 bits do. */
  predicate CanAdvance(scene: nat, disk: Disk) {
    Intact(scene, disk) && (disk.descriptor.Some? ==> disk.descriptor.value.generation < GENERATION_MAX)
  }

  /** The three records of a publication validate. */
  predicate Publishable(d: Descriptor, index: SceneIndex, spatial: SpatialIndex) {
    && ValidIndex(index, d.scene, d.generation) && ValidSpatial(spatial, d.scene, d.generation)
    && ValidDescriptor(d)
  }

  class SceneCacheStore {
    /** Whether every access to the file system succeeds; if not, any may fail. */
    const reliable: bool
    var scenes: map<nat, Disk>

    constructor (reliable: bool)
      ensures this.reliable == reliable && scenes == map[]
    {
      this.reliable := reliable;
      scenes := map[];
    }

    method LoadDescriptor(scene: nat) returns (r: Result<Option<Descriptor>, Failure>)
      ensures r.Ok? ==> r.value == Files(scenes, scene).descriptor
                        && Intact(scene, Files(scenes, scene))
      ensures reliable ==> (r.Ok? <==> Intact(scene, Files(scenes, scene)))
    {
      if !reliable { if * { return Err(Io); } }
      var read := Files(scenes, scene).descriptor;
      if read.Some? && (read.value.scene != scene || !ValidDescriptor(read.value)) { return Err(Invalid); }
      return Ok(read);
    }

    method PublishDescriptor(d: Descriptor) returns (r: Result<(), Failure>)
      requires Quiet(scenes)
      modifies this
      ensures Quiet(scenes) && SameElsewhere(old(scenes), scenes, d.scene)
      ensures r.Ok? ==> ValidDescriptor(d)
                        && Files(scenes, d.scene) == Files(old(scenes), d.scene).(descriptor := Some(d))
      ensures r.Err? ==> scenes == old(scenes)
      ensures reliable ==> (r.Ok? <==> ValidDescriptor(d))
    {
      if !ValidDescriptor(d) { return Err(Invalid); }
      if !reliable { if * { return Err(Io); } }
      scenes := scenes[d.scene := Files(scenes, d.scene).(descriptor := Some(d))];
      return Ok(());
    }

    /** Both the mutation's boundary and the forced one: read, step by one, write the Building descriptor. */
    method AdvanceGeneration(scene: nat, config: nat) returns (r: Result<nat, Failure>)
      requires Quiet(scenes)
      modifies this
      ensures Quiet(scenes) && SameElsewhere(old(scenes), scenes, scene)
      ensures r.Ok? ==>
        && Files(scenes, scene)
           == Files(old(scenes), scene).(
                descriptor := Some(Invalidation(scene, Files(old(scenes), scene).descriptor, config)))
        && r.value == Files(scenes, scene).descriptor.value.generation <= GENERATION_MAX
        && Advanced(scene, Files(old(scenes), scene), Files(scenes, scene))
      ensures r.Err? ==> scenes == old(scenes)
      ensures reliable ==> (r.Ok? <==> CanAdvance(scene, Files(old(scenes), scene)))
    {
      var current := LoadDescriptor(scene);
      if current.Err? { return Err(current.error); }
      var generation := 1;
      if current.value.Some? {
        if current.value.value.generation >= GENERATION_MAX { return Err(Overflow); }
        generation := current.value.value.generation + 1;
      }
      var published := PublishDescriptor(Invalidated(scene, generation, config));
      if published.Err? { return Err(published.error); }
      return Ok(generation);
    }

    method PublishGeneration(d: Descriptor, index: SceneIndex, spatial: SpatialIndex)
      returns (r: Result<Descriptor, Failure>)
      requires Quiet(scenes)
      modifies this
      ensures Quiet(scenes) && SameElsewhere(old(scenes), scenes, d.scene)
      ensures r.Ok? ==>
        && r.value == Published(d, index, spatial)
        && ValidIndex(index, d.scene, d.generation) && ValidSpatial(spatial, d.scene, d.generation)
        && Files(scenes, d.scene) == Disk(Some(r.value), Some(index), Some(spatial), Free)
      ensures r.Err? ==> PartlyPublished(Files(old(scenes), d.scene), Files(scenes, d.scene), index, spatial)
      ensures reliable ==> (r.Ok? <==> Publishable(d, index, spatial))
    {
      if !ValidIndex(index, d.scene, d.generation) { return Err(Invalid); }
      if !ValidSpatial(spatial, d.scene, d.generation) { return Err(Invalid); }
      if !reliable { if * { return Err(Io); } }
      scenes := scenes[d.scene := Files(scenes, d.scene).(index := Some(index))];
      if !reliable { if * { return Err(Io); } }
      scenes := scenes[d.scene := Files(scenes, d.scene).(spatial := Some(spatial))];
      var published := PublishDescriptor(Published(d, index, spatial));
      if published.Err? { return Err(published.error); }
      return Ok(Published(d, index, spatial));
    }

    method PublishGenerationIfCurrent(expected: Descriptor, d: Descriptor, index: SceneIndex, spatial: SpatialIndex)
      returns (r: Result<Cas, Failure>)
      requires Quiet(scenes) && d.scene == expected.scene
      modifies this
      ensures Quiet(scenes) && SameElsewhere(old(scenes), scenes, d.scene)
      ensures r.Ok? && r.value.Replaced? ==>
        && Granted(d.scene, Files(old(scenes), d.scene), expected, d, index, spatial)
        && r.value.descriptor == Published(d, index, spatial)
        && Files(scenes, d.scene) == Disk(Some(r.value.descriptor), Some(index), Some(spatial), Free)
      ensures r.Ok? && r.value.NotCurrent? ==>
        scenes == old(scenes) && Files(old(scenes), d.scene).descriptor != Some(expected)
      ensures r.Err? ==> PartlyPublished(Files(old(scenes), d.scene), Files(scenes, d.scene), index, spatial)
      ensures reliable ==>
        (r.Ok? <==> Intact(d.scene, Files(old(scenes), d.scene))
                    && (Files(old(scenes), d.scene).descriptor == Some(expected) ==> Publishable(d, index, spatial)))
    {
      var current := LoadDescriptor(expected.scene);
      if current.Err? { return Err(current.error); }
      if current.value != Some(expected) { return Ok(NotCurrent); }
      var published := PublishGeneration(d, index, spatial);
      if published.Err? { return Err(published.error); }
      return Ok(Replaced(published.value));
    }

    method RemoveScene(scene: nat) returns (r: Result<(), Failure>)
      requires Quiet(scenes)
      modifies this
      ensures Quiet(scenes) && SameElsewhere(old(scenes), scenes, scene)
      ensures r.Ok? ==> Files(scenes, scene) == FRESH
      ensures r.Err? ==> PartlyRemoved(Files(old(scenes), scene), Files(scenes, scene))
      ensures reliable ==> r.Ok?
    {
      if !reliable {
        var disk := Files(scenes, scene);
        if * { disk := disk.(descriptor := None); }
        if * { disk := disk.(index := None); }
        if * { disk := disk.(spatial := None); }
        if * {
          scenes := scenes[scene := disk];
          return Err(Io);
        }
      }
      scenes := scenes[scene := FRESH];
      if !reliable { if * { return Err(Io); } }
      return Ok(());
    }

    method RemoveAllDerivedCache() returns (r: Result<(), Failure>)
      requires Quiet(scenes)
      modifies this
      ensures Quiet(scenes)
      ensures r.Ok? ==> forall scene: nat :: Files(scenes, scene) == FRESH
      ensures r.Err? ==> forall scene | scene in old(scenes) ::
          PartlyRemoved(Files(old(scenes), scene), Files(scenes, scene))
      ensures reliable ==> r.Ok?
    {
      if !reliable {
        if * {
          assert PartlyCleared(scenes, map[]);
          var left: map<nat, Disk> :| PartlyCleared(scenes, left);
          assert PartlyCleared(scenes, left);
          scenes := left;
          return Err(Io);
        }
      }
      scenes := map[];
      if !reliable { if * { return Err(Io); } }
      return Ok(());
    }

    method LoadIndex(scene: nat) returns (r: Result<Option<SceneIndex>, Failure>)
      ensures r.Ok? && r.value.Some? ==>
        SceneProtocol.LoadIndex(scene, Files(scenes, scene).descriptor, Files(scenes, scene).index)
            == Found(r.value.value)
      ensures r.Ok? && r.value.None? ==>
        SceneProtocol.LoadIndex(scene, Files(scenes, scene).descriptor, Files(scenes, scene).index) == Missing
      ensures reliable ==>
        (r.Ok? <==> Intact(scene, Files(scenes, scene))
                    && SceneProtocol.LoadIndex(scene, Files(scenes, scene).descriptor, Files(scenes, scene).index)
                       != Corrupt)
    {
      var read := LoadDescriptor(scene);
      if read.Err? { return Err(read.error); }
      if read.value.None? { return Ok(None); }
      if !reliable { if * { return Err(Io); } }
      var file := Files(scenes, scene).index;
      if file.None? || OfIndex(file.value) != read.value.value.indexDigest { return Ok(None); }
      if !ValidIndex(file.value, scene, read.value.value.generation) { return Err(Invalid); }
      return Ok(Some(file.value));
    }

    method LoadSpatial(scene: nat) returns (r: Result<Option<SpatialIndex>, Failure>)
      ensures r.Ok? && r.value.Some? ==>
        SceneProtocol.LoadSpatial(scene, Files(scenes, scene).descriptor, Files(scenes, scene).spatial)
            == Found(r.value.value)
      ensures r.Ok? && r.value.None? ==>
        SceneProtocol.LoadSpatial(scene, Files(scenes, scene).descriptor, Files(scenes, scene).spatial) == Missing
      ensures reliable ==>
        (r.Ok? <==> Intact(scene, Files(scenes, scene))
                    && SceneProtocol.LoadSpatial(scene, Files(scenes, scene).descriptor, Files(scenes, scene).spatial)
                       != Corrupt)
    {
      var read := LoadDescriptor(scene);
      if read.Err? { return Err(read.error); }
      if read.value.None? || read.value.value.spatialDigest.None? { return Ok(None); }
      if !reliable { if * { return Err(Io); } }
      var file := Files(scenes, scene).spatial;
      if file.None? || OfSpatial(file.value) != read.value.value.spatialDigest.value { return Ok(None); }
      if !ValidSpatial(file.value, scene, read.value.value.generation) { return Err(Invalid); }
      return Ok(Some(file.value));
    }

    method LoadActivation(scene: nat) returns (r: Result<Option<Activation>, Failure>)
      ensures var disk := Files(scenes, scene);
              r.Ok? ==>
                r.value
                == SceneProtocol.LoadActivation(scene, disk.descriptor, disk.descriptor, disk.index, disk.descriptor)
      ensures r.Ok? && r.value.Some? ==> r.value.value.descriptor.scene == scene
      ensures var disk := Files(scenes, scene);
              reliable ==>
                (r.Ok? <==> Intact(scene, disk)
                            && (disk.descriptor.Some? && Activatable(disk.descriptor.value) ==>
                                  SceneProtocol.LoadIndex(scene, disk.descriptor, disk.index) != Corrupt))
    {
      var read := LoadDescriptor(scene);
      if read.Err? { return Err(read.error); }
      if read.value.None? || !Activatable(read.value.value) { return Ok(None); }
      var index := LoadIndex(scene);
      if index.Err? { return Err(index.error); }
      if index.value.None? { return Ok(None); }
      var current := LoadDescriptor(scene);
      if current.Err? { return Err(current.error); }
      if current.value.None? { return Ok(None); }
      if current.value.value.generation != read.value.value.generation
         || current.value.value.indexDigest != read.value.value.indexDigest
         || !Activatable(current.value.value) {
        return Ok(None);
      }
      return Ok(Some(Activation(current.value.value, index.value.value)));
    }

    method MarkWarmFailureTerminal(scene: nat, generation: nat)
      requires Quiet(scenes)
      modifies this
      ensures Quiet(scenes) && SameElsewhere(old(scenes), scenes, scene)
      ensures || Files(scenes, scene) == Files(old(scenes), scene)
              || Files(scenes, scene) == MarkedTerminal(Files(old(scenes), scene), generation)
      ensures reliable && Intact(scene, Files(old(scenes), scene)) ==>
                Files(scenes, scene) == MarkedTerminal(Files(old(scenes), scene), generation)
    {
      var read := LoadDescriptor(scene);
      if read.Err? || read.value.None? { return; }
      var d := read.value.value;
      if d.generation != generation || !d.state.Building? { return; }
      var published := PublishDescriptor(d.(state := FallbackRequired));
    }
  }
}
