/** What every history of a Scene's files keeps: descriptors only name files that validate, readers get an index
    that was published or nothing, generations go forward, and a generation once left is dead. */
module SceneSafety {
  import opened Wrappers
  import opened SceneCache
  import opened SceneProtocol

  /** The digests of a descriptor name an index and a spatial index valid for its generation, or nothing. */
  predicate Names(scene: nat, d: Descriptor) {
    && d.scene == scene
    && !d.indexDigest.OfSpatial?
    && (d.indexDigest.OfIndex? ==> ValidIndex(d.indexDigest.index, scene, d.generation))
    && (d.spatialDigest.Some? ==>
          d.spatialDigest.value.OfSpatial? && ValidSpatial(d.spatialDigest.value.spatial, scene, d.generation))
  }

  /** The lock protects the generation a holder works on, as long as the descriptor is not removed. */
  predicate HolderAgrees(scene: nat, disk: Disk) {
    match disk.holder
    case Advancing(read, _) =>
      disk.descriptor.Some? ==> read.Some? && read.value.generation == disk.descriptor.value.generation
    case Publishing(d, index, spatial, written) =>
      && written <= 2
      && Names(scene, d)
      && d.indexDigest == OfIndex(index)
      && (disk.descriptor.Some? ==> d.generation == disk.descriptor.value.generation)
    case _ => true
  }

  predicate Sound(scene: nat, disk: Disk) {
    && (disk.descriptor.Some? ==> Names(scene, disk.descriptor.value))
    && HolderAgrees(scene, disk)
  }

  lemma CompareAndLockIsSound(scene: nat, disk: Disk, expected: Descriptor, d: Descriptor, index: SceneIndex,
                              spatial: SpatialIndex)
    requires Sound(scene, disk) && disk.holder.Free?
    requires d.generation == expected.generation && d.scene == expected.scene
    ensures Sound(scene, CompareAndLock(scene, disk, expected, d, index, spatial))
  {
  }

  lemma PrimCountIsSound(scene: nat, disk: Disk, expected: Option<Descriptor>, config: nat, primCount: nat)
    requires Sound(scene, disk) && disk.holder.Free?
    ensures Sound(scene, PlannedPrimCount(scene, disk, expected, config, primCount))
  {
    var plan := PlanPrimCount(scene, disk, expected, config, primCount);
    if plan.Publish? {
      assert ValidIndex(plan.index, scene, plan.descriptor.generation);
      SceneBuild.SpatialIndexIsValid(plan.index, scene, plan.descriptor.generation);
      assert ValidSpatial(plan.spatial, scene, plan.descriptor.generation);
    }
  }

  lemma StepIsSound(scene: nat, disk: Disk, event: Event)
    requires Sound(scene, disk) && Enabled(scene, disk, event) && !event.LockRepair?
    ensures Sound(scene, Apply(scene, disk, event))
  {
    match event
    case LockBuild(expected, d, index, spatial) =>
      CompareAndLockIsSound(scene, disk, expected, d, index, spatial);
    case LockPrimCount(expected, config, primCount) =>
      PrimCountIsSound(scene, disk, expected, config, primCount);
    case _ =>
  }

  lemma RepairIsSound(scene: nat, disk: Disk, activation: Option<Activation>, payloads: seq<Payload>)
    requires Sound(scene, disk) && disk.holder.Free?
    ensures Sound(scene, Repaired(scene, disk, activation, payloads))
  {
    if activation.Some? && RepairIndex(activation.value.index, payloads).Some? {
      var index := RepairIndex(activation.value.index, payloads).value;
      var expected := activation.value.descriptor;
      CompareAndLockIsSound(scene, disk, expected, RepairedDescriptor(expected, index), index,
                            SceneBuild.BuildSpatialIndex(index));
    }
  }

  lemma RunStepIsSound(run: Run, t: nat)
    requires IsRun(run) && t < |run.events| && Sound(run.scene, run.states[t])
    ensures Sound(run.scene, run.states[t + 1])
  {
    assert StepAt(run, t);
    if run.events[t].LockRepair? {
      RepairIsSound(run.scene, run.states[t], ActivationAt(run, run.events[t].seen), run.events[t].payloads);
    } else {
      StepIsSound(run.scene, run.states[t], run.events[t]);
    }
  }

  lemma {:induction false} RunIsSound(run: Run, t: nat)
    requires IsRun(run) && t < |run.states|
    ensures Sound(run.scene, run.states[t])
  {
    if t != 0 {
      RunIsSound(run, t - 1);
      RunStepIsSound(run, t - 1);
    }
  }

  // ----- readers

  /** `load_index` by a reader that sees the descriptor at one moment and the file at another. */
  function LoadIndexAt(run: Run, descriptor: nat, file: nat): Loaded<SceneIndex>
    requires descriptor < |run.states| && file < |run.states|
  {
    LoadIndex(run.scene, run.states[descriptor].descriptor, run.states[file].index)
  }

  /** Event `t` finished publishing an index. */
  ghost predicate Publishes(run: Run, t: nat, index: SceneIndex, generation: nat)
    requires IsRun(run) && t < |run.events|
  {
    && StepAt(run, t)
    && run.events[t].WriteDescriptor?
    && run.states[t].holder.index == index
    && run.states[t].holder.descriptor.generation == generation
  }

  /** The index a stored descriptor names was published, at the descriptor's generation, at some earlier event. */
  lemma {:induction false} NamedIndexWasPublished(run: Run, t: nat) returns (origin: nat)
    requires IsRun(run) && t < |run.states|
    requires run.states[t].descriptor.Some? && run.states[t].descriptor.value.indexDigest.OfIndex?
    ensures origin < t
    ensures var d := run.states[t].descriptor.value; Publishes(run, origin, d.indexDigest.index, d.generation)
  {
    assert t != 0;
    assert StepAt(run, t - 1);
    RunIsSound(run, t - 1);
    if run.events[t - 1].WriteDescriptor? {
      origin := t - 1;
    } else {
      DigestIsCarriedOver(run, t - 1);
      origin := NamedIndexWasPublished(run, t - 1);
    }
  }

  lemma DigestIsCarriedOver(run: Run, t: nat)
    requires IsRun(run) && t < |run.events| && !run.events[t].WriteDescriptor?
    requires run.states[t + 1].descriptor.Some? && run.states[t + 1].descriptor.value.indexDigest.OfIndex?
    ensures run.states[t].descriptor.Some?
    ensures run.states[t].descriptor.value.indexDigest == run.states[t + 1].descriptor.value.indexDigest
    ensures run.states[t].descriptor.value.generation == run.states[t + 1].descriptor.value.generation
  {
    assert StepAt(run, t);
  }

  /** However crashes and publishers interleave with its two reads, `load_index` reports no corruption, and an
      index it returns is valid for the descriptor it read and was published with it. */
  lemma LoadedIndexIsThePublishedOne(run: Run, descriptor: nat, file: nat)
    requires IsRun(run) && descriptor < |run.states| && file < |run.states|
    ensures !LoadIndexAt(run, descriptor, file).Corrupt?
    ensures LoadIndexAt(run, descriptor, file).Found? ==>
      var d := run.states[descriptor].descriptor.value;
      var index := LoadIndexAt(run, descriptor, file).value;
      && d.indexDigest == OfIndex(index) && ValidIndex(index, run.scene, d.generation)
      && exists origin: nat :: origin < descriptor && Publishes(run, origin, index, d.generation)
  {
    RunIsSound(run, descriptor);
    if LoadIndexAt(run, descriptor, file).Found? {
      var origin := NamedIndexWasPublished(run, descriptor);
    }
  }

  // ----- generations

  /** Between two moments nobody removed the descriptor. */
  ghost predicate KeepsDescriptor(run: Run, from: nat, to: nat)
    requires IsRun(run) && to < |run.states|
  {
    forall t | from <= t < to :: !RemovesAt(run, t)
  }

  predicate RemovesAt(run: Run, t: nat)
    requires t < |run.events|
  {
    run.events[t] == Unlink(DescriptorFile)
  }

  lemma StepGoesForward(run: Run, t: nat)
    requires IsRun(run) && t < |run.events| && !RemovesAt(run, t) && run.states[t].descriptor.Some?
    ensures run.states[t + 1].descriptor.Some?
    ensures run.states[t].descriptor.value.generation <= run.states[t + 1].descriptor.value.generation
  {
    assert StepAt(run, t);
    RunIsSound(run, t);
  }

  /** Generations never decrease while the descriptor is not removed. */
  lemma {:induction false} GenerationsGoForward(run: Run, from: nat, to: nat)
    requires IsRun(run) && from <= to < |run.states|
    requires KeepsDescriptor(run, from, to) && run.states[from].descriptor.Some?
    ensures run.states[to].descriptor.Some?
    ensures run.states[from].descriptor.value.generation <= run.states[to].descriptor.value.generation
  {
    if from < to {
      assert forall t | from <= t < to - 1 :: !RemovesAt(run, t);
      GenerationsGoForward(run, from, to - 1);
      assert !RemovesAt(run, to - 1);
      StepGoesForward(run, to - 1);
    }
  }

  /** What a managed build compares with later: the stored descriptor, if it fits what its caller was told. */
  function CaptureForBuild(current: Option<Descriptor>, caller: Descriptor): Option<Descriptor> {
    if current.None? || current.value.generation != caller.generation then None
    else if current.value.schemaVersion != caller.schemaVersion
         || current.value.configHash != caller.configHash
         || current.value.sourceStamp != caller.sourceStamp
         || (current.value.sourceContentHash.Some? && caller.sourceContentHash.Some?
             && current.value.sourceContentHash != caller.sourceContentHash) then None
    else current
  }

  /** The descriptor a managed build offers. */
  function BuiltDescriptor(captured: Descriptor, caller: Descriptor, entries: seq<Entry>, bytes: nat): Descriptor {
    captured.(
      state := if captured.state.Building? && !caller.state.Building? then caller.state else captured.state,
      sourceContentHash := if captured.sourceContentHash.None? then caller.sourceContentHash
                           else captured.sourceContentHash,
      primCount := |entries|, cacheableCount := CacheableCount(entries),
      estimatedCpuBytes := bytes, estimatedGpuBytes := bytes)
  }

  /** An advance happened, and the descriptor was not removed since. */
  ghost predicate AdvancedPast(run: Run, advance: nat, now: nat, past: nat)
    requires IsRun(run)
  {
    && advance < now < |run.states|
    && StepAt(run, advance)
    && run.events[advance].CommitAdvance?
    && past < run.states[advance + 1].descriptor.value.generation
    && KeepsDescriptor(run, advance + 1, now)
  }

  /** A publisher at work is at work on a newer generation, also one that was waiting when the advance came. */
  lemma NoPublisherOfADeadGeneration(run: Run, advance: nat, now: nat, past: nat)
    requires IsRun(run) && AdvancedPast(run, advance, now, past)
    ensures run.states[now].descriptor.Some? && past < run.states[now].descriptor.value.generation
    ensures run.states[now].holder.Publishing? ==> past < run.states[now].holder.descriptor.generation
  {
    GenerationsGoForward(run, advance + 1, now);
    RunIsSound(run, now);
  }

  /** A managed build of a dead generation publishes nothing, whether it captured its descriptor before the
      advance or after: the capture finds no match, or the comparison fails. */
  lemma BuildOfADeadGenerationIsRefused(run: Run, advance: nat, now: nat, captured: nat, caller: Descriptor,
                                        index: SceneIndex, spatial: SpatialIndex, bytes: nat)
    requires IsRun(run) && AdvancedPast(run, advance, now, caller.generation) && captured <= now
    ensures var capture := CaptureForBuild(run.states[captured].descriptor, caller);
      capture.Some? ==>
        CompareAndLock(run.scene, run.states[now], capture.value,
                       BuiltDescriptor(capture.value, caller, index.entries, bytes), index, spatial) == run.states[now]
    ensures advance < captured ==> CaptureForBuild(run.states[captured].descriptor, caller).None?
  {
    NoPublisherOfADeadGeneration(run, advance, now, caller.generation);
    if advance < captured {
      assert KeepsDescriptor(run, advance + 1, captured);
      NoPublisherOfADeadGeneration(run, advance, captured, caller.generation);
    }
  }

  /** A prim count based on a dead generation is stale, and one based on no descriptor at all is told to retry. */
  lemma PrimCountOfADeadGenerationIsStale(run: Run, advance: nat, now: nat, expected: Option<Descriptor>, config: nat,
                                          primCount: nat)
    requires IsRun(run) && AdvancedPast(run, advance, now, if expected.Some? then expected.value.generation else 0)
    ensures PlanPrimCount(run.scene, run.states[now], expected, config, primCount)
      == if expected.Some? then Stale else RetryableCurrent
  {
    NoPublisherOfADeadGeneration(run, advance, now, if expected.Some? then expected.value.generation else 0);
  }

  // ----- activation

  /** Without removals the pair from `load_activation` agrees on the generation. */
  lemma ActivationAgreesOnGeneration(run: Run, seen: Reads)
    requires IsRun(run) && InOrder(seen, |run.events|) && KeepsDescriptor(run, seen.first, seen.last)
    requires ActivationAt(run, seen).Some?
    ensures ValidIndex(ActivationAt(run, seen).value.index, run.scene,
                       ActivationAt(run, seen).value.descriptor.generation)
  {
    GenerationsGoForward(run, seen.first, seen.second);
    assert KeepsDescriptor(run, seen.second, seen.last);
    GenerationsGoForward(run, seen.second, seen.last);
    RunIsSound(run, seen.second);
  }
}
