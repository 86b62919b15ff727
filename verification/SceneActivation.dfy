/** When a reader is given something: exactly which files load, what a reader gets whose reads nobody disturbs, and
    what it gets after a build, an advance and a failed warm. */
module SceneActivation {
  import opened Wrappers
  import opened SceneCache
  import opened SceneBuild
  import opened SceneProtocol
  import opened SceneSafety
  import opened SceneRaces

  // ----- quiet files

  /** The index on file is the one that the descriptor on file names. */
  predicate IndexInPlace(disk: Disk) {
    && disk.descriptor.Some? && disk.index.Some?
    && disk.descriptor.value.indexDigest == OfIndex(disk.index.value)
  }

  predicate SpatialInPlace(disk: Disk) {
    && disk.descriptor.Some? && disk.spatial.Some?
    && disk.descriptor.value.spatialDigest == Some(OfSpatial(disk.spatial.value))
  }

  /** Of files that stay as they are, the index loads exactly if it is the named one and validates. */
  lemma IndexLoadsExactlyWhen(scene: nat, disk: Disk)
    ensures var loaded := LoadIndex(scene, disk.descriptor, disk.index);
      && (loaded.Found? <==> IndexInPlace(disk)
                             && ValidIndex(disk.index.value, scene, disk.descriptor.value.generation))
      && (loaded.Found? ==> loaded.value == disk.index.value)
      && (loaded.Missing? <==> !IndexInPlace(disk))
  {
  }

  lemma SpatialLoadsExactlyWhen(scene: nat, disk: Disk)
    ensures var loaded := LoadSpatial(scene, disk.descriptor, disk.spatial);
      && (loaded.Found? <==> SpatialInPlace(disk)
                             && ValidSpatial(disk.spatial.value, scene, disk.descriptor.value.generation))
      && (loaded.Found? ==> loaded.value == disk.spatial.value)
      && (loaded.Missing? <==> !SpatialInPlace(disk))
  {
  }

  /** What `load_activation` yields of files that stay as they are. */
  function OnQuietFiles(scene: nat, disk: Disk): Option<Activation> {
    LoadActivation(scene, disk.descriptor, disk.descriptor, disk.index, disk.descriptor)
  }

  /** It yields the pair on file, exactly if the descriptor is Partial or Ready and names that very index, which
      validates. */
  lemma ActivatesExactlyWhen(scene: nat, disk: Disk)
    ensures OnQuietFiles(scene, disk).Some? <==>
            && IndexInPlace(disk)
            && (disk.descriptor.value.state == Partial || disk.descriptor.value.state == Ready)
            && ValidIndex(disk.index.value, scene, disk.descriptor.value.generation)
    ensures OnQuietFiles(scene, disk).Some? ==>
              OnQuietFiles(scene, disk).value == Activation(disk.descriptor.value, disk.index.value)
  {
  }

  // ----- readers in a run

  /** An event that touches neither the descriptor nor the index file. */
  predicate LeavesFiles(event: Event) {
    match event
    case CommitAdvance => false
    case WriteIndex => false
    case WriteDescriptor => false
    case Unlink(file) => file.SpatialFile?
    case Terminalize(_) => false
    case _ => true
  }

  predicate Untouched(run: Run, from: nat, to: nat)
    requires from <= to <= |run.events|
  {
    forall t | from <= t < to :: LeavesFiles(run.events[t])
  }

  lemma {:induction false} FilesStay(run: Run, from: nat, now: nat)
    requires IsRun(run) && from <= now < |run.states| && Untouched(run, from, now)
    ensures run.states[now].descriptor == run.states[from].descriptor
    ensures run.states[now].index == run.states[from].index
    decreases now
  {
    if from < now {
      FilesStay(run, from, now - 1);
      assert StepAt(run, now - 1) && LeavesFiles(run.events[now - 1]);
    }
  }

  /** A reader whose reads nobody disturbs, at whatever moments, gets what the files say. */
  lemma UndisturbedReaderGetsTheFiles(run: Run, seen: Reads)
    requires IsRun(run) && InOrder(seen, |run.events|) && Untouched(run, seen.first, seen.last)
    ensures ActivationAt(run, seen) == OnQuietFiles(run.scene, run.states[seen.first])
  {
    FilesStay(run, seen.first, seen.second);
    FilesStay(run, seen.first, seen.file);
    FilesStay(run, seen.first, seen.last);
  }

  /** From the moment at which a publication has written its descriptor. */
  ghost predicate PublishedAt(run: Run, t: nat, index: SceneIndex, state: CacheState)
    requires IsRun(run) && t < |run.events|
  {
    && run.events[t].WriteDescriptor? && run.states[t].holder.Publishing?
    && run.states[t].holder.index == index && run.states[t].holder.descriptor.state == state
  }

  /** The publisher's own index is still on file when it writes its descriptor. */
  ghost predicate WrittenIndexIsThere(run: Run, t: nat)
    requires IsRun(run) && t < |run.events|
  {
    run.states[t].holder.Publishing? && run.states[t].index == Some(run.states[t].holder.index)
  }

  /** After a publication that made a Partial or Ready Scene, a reader that nobody disturbs is given exactly the index
      that was published, with the descriptor that names it; after any other publication, nothing. */
  lemma PublicationIsActivated(run: Run, t: nat, seen: Reads, index: SceneIndex, state: CacheState)
    requires IsRun(run) && t < |run.events| && PublishedAt(run, t, index, state) && WrittenIndexIsThere(run, t)
    requires t < seen.first && InOrder(seen, |run.events|) && Untouched(run, t + 1, seen.last)
    ensures run.states[t + 1].descriptor.Some?
    ensures ActivationAt(run, seen)
            == if state == Partial || state == Ready
               then Some(Activation(run.states[t + 1].descriptor.value, index)) else None
  {
    assert StepAt(run, t);
    RunIsSound(run, t);
    UndisturbedReaderGetsTheFiles(run, seen);
    FilesStay(run, t + 1, seen.first);
    ActivatesExactlyWhen(run.scene, run.states[t + 1]);
  }

  /** After an advance, until something is published, nothing is activated, whatever becomes of the index file. */
  lemma AdvanceEndsActivation(run: Run, t: nat, seen: Reads)
    requires IsRun(run) && t < |run.events| && run.events[t].CommitAdvance?
    requires t < seen.first && InOrder(seen, |run.events|)
    requires forall k | t < k < seen.first :: !run.events[k].WriteDescriptor?
    ensures ActivationAt(run, seen).None?
  {
    assert StepAt(run, t);
    StaysInactive(run, t + 1, seen.first);
  }

  /** Nor is it after a failed warm was marked terminal. */
  lemma TerminalMarkingEndsActivation(run: Run, t: nat, seen: Reads)
    requires IsRun(run) && t < |run.events| && run.events[t].Terminalize?
    requires var d := run.states[t].descriptor;
             d.Some? && d.value.generation == run.events[t].generation && d.value.state == Building
    requires t < seen.first && InOrder(seen, |run.events|)
    requires forall k | t < k < seen.first :: !run.events[k].WriteDescriptor?
    ensures run.states[t + 1].descriptor == Some(run.states[t].descriptor.value.(state := FallbackRequired))
    ensures ActivationAt(run, seen).None?
  {
    assert StepAt(run, t);
    StaysInactive(run, t + 1, seen.first);
  }

  predicate Inactive(d: Option<Descriptor>) {
    d.None? || d.value.state == Empty || d.value.state == Building || d.value.state == FallbackRequired
  }

  lemma {:induction false} StaysInactive(run: Run, from: nat, now: nat)
    requires IsRun(run) && from <= now < |run.states| && Inactive(run.states[from].descriptor)
    requires forall k | from <= k < now :: !run.events[k].WriteDescriptor?
    ensures Inactive(run.states[now].descriptor)
    decreases now
  {
    if from < now {
      StaysInactive(run, from, now - 1);
      assert StepAt(run, now - 1);
    }
  }

  /** A build that nobody disturbs, from its lock to the reader. */
  lemma BuildIsActivated(scene: nat, disk: Disk, d: Descriptor, index: SceneIndex, spatial: SpatialIndex)
    requires disk.descriptor.Some? && disk.holder.Free? && ValidDescriptor(d)
    requires d.scene == disk.descriptor.value.scene && d.generation == disk.descriptor.value.generation
    requires ValidIndex(index, scene, d.generation) && ValidSpatial(spatial, scene, d.generation)
    ensures Plays(scene, disk, Rebuild(disk.descriptor.value, d, index, spatial))
    ensures var after := Outcome(scene, disk, Rebuild(disk.descriptor.value, d, index, spatial));
      OnQuietFiles(scene, after)
      == if d.state == Partial || d.state == Ready
         then Some(Activation(d.(indexDigest := OfIndex(index), spatialDigest := Some(OfSpatial(spatial))), index))
         else None
  {
    RebuildPlays(scene, disk, d, index, spatial);
  }

  /** The marking touches no other generation, and no descriptor that is not Building. */
  lemma TerminalMarkingSparesOthers(run: Run, t: nat)
    requires IsRun(run) && t < |run.events| && run.events[t].Terminalize?
    ensures var d := run.states[t].descriptor;
      d.None? || d.value.generation != run.events[t].generation || d.value.state != Building ==>
        run.states[t + 1] == run.states[t]
    ensures run.states[t + 1].index == run.states[t].index && run.states[t + 1].spatial == run.states[t].spatial
  {
    assert StepAt(run, t);
  }
}
