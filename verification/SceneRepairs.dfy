/** Targeted repairs of one generation, in any interleaving: the geometry one of them filled in stays filled in. */
module SceneRepairs {
  import opened Wrappers
  import opened SceneOrder
  import opened SceneCache
  import opened SceneBuild
  import opened SceneProtocol
  import opened SceneSafety

  ghost predicate HasGeometryIn(entries: seq<Entry>, path: string) {
    exists i | 0 <= i < |entries| :: entries[i].kind == OwnedPrim(path) && entries[i].geometry.Some?
  }

  /** The index a descriptor names has geometry for a path. */
  ghost predicate HasGeometry(d: Option<Descriptor>, path: string) {
    d.Some? && d.value.indexDigest.OfIndex? && HasGeometryIn(d.value.indexDigest.index.entries, path)
  }

  lemma {:induction false} FillKeeps(entries: seq<Entry>, payload: Payload, path: string)
    requires Fill(entries, payload).Some?
    ensures HasGeometryIn(entries, path) || path == payload.path ==> HasGeometryIn(Fill(entries, payload).value, path)
  {
    var after := Fill(entries, payload).value;
    if entries[0].kind == OwnedPrim(payload.path) {
      assert after[0].kind == OwnedPrim(payload.path) && after[0].geometry.Some?;
      if i :| 0 < i < |entries| && entries[i].kind == OwnedPrim(path) && entries[i].geometry.Some? {
        assert after[i] == entries[i];
      }
    } else {
      FillKeeps(entries[1..], payload, path);
      var rest := Fill(entries[1..], payload).value;
      if HasGeometryIn(entries, path) && !(entries[0].kind == OwnedPrim(path) && entries[0].geometry.Some?) {
        var i :| 0 <= i < |entries| && entries[i].kind == OwnedPrim(path) && entries[i].geometry.Some?;
        assert entries[1..][i - 1] == entries[i];
      }
      if HasGeometryIn(rest, path) {
        var i :| 0 <= i < |rest| && rest[i].kind == OwnedPrim(path) && rest[i].geometry.Some?;
        assert after[i + 1] == rest[i];
      } else if HasGeometryIn(entries, path) {
        assert after[0] == entries[0];
      }
    }
  }

  lemma {:induction false} FillAllKeeps(entries: seq<Entry>, payloads: seq<Payload>, path: string)
    requires FillAll(entries, payloads).Some?
    ensures HasGeometryIn(entries, path) || (exists payload | payload in payloads :: payload.path == path)
      ==> HasGeometryIn(FillAll(entries, payloads).value, path)
    decreases |payloads|
  {
    if payloads != [] {
      FillKeeps(entries, payloads[0], path);
      FillAllKeeps(Fill(entries, payloads[0]).value, payloads[1..], path);
    }
  }

  lemma SortAndParentsKeepGeometry(entries: seq<Entry>, path: string)
    requires HasGeometryIn(entries, path)
    ensures HasGeometryIn(AssignParents(SortByAddress(entries)), path)
  {
    var i :| 0 <= i < |entries| && entries[i].kind == OwnedPrim(path) && entries[i].geometry.Some?;
    var sorted := SortByAddress(entries);
    assert entries[i] in multiset(entries) && entries[i] in multiset(sorted) && entries[i] in sorted;
    var k :| 0 <= k < |sorted| && sorted[k] == entries[i];
    assert AssignParents(sorted)[k] == Parented(sorted, sorted[k]);
  }

  /** A repaired index has geometry wherever the old one had and wherever a payload was given. */
  lemma RepairKeepsGeometry(index: SceneIndex, payloads: seq<Payload>, path: string)
    requires RepairIndex(index, payloads).Some?
    ensures HasGeometryIn(index.entries, path) || (exists payload | payload in payloads :: payload.path == path)
      ==> HasGeometryIn(RepairIndex(index, payloads).value.entries, path)
  {
    FillAllKeeps(index.entries, payloads, path);
    var filled := FillAll(index.entries, payloads).value;
    if HasGeometryIn(filled, path) { SortAndParentsKeepGeometry(filled, path); }
  }

  // ----- a repaired index validates

  predicate NamesPrims(entries: seq<Entry>) {
    forall i | 0 <= i < |entries| :: entries[i].kind.OwnedPrim? ==> entries[i].kind.primPath != ""
  }

  lemma {:induction false} FillShape(entries: seq<Entry>, payload: Payload)
    requires Fill(entries, payload).Some?
    ensures var after := Fill(entries, payload).value;
      forall i | 0 <= i < |entries| :: after[i] == entries[i] || after[i] == Filled(entries[i], payload)
  {
    if entries[0].kind != OwnedPrim(payload.path) {
      FillShape(entries[1..], payload);
      var rest := Fill(entries[1..], payload).value;
      forall i | 0 <= i < |entries|
        ensures ([entries[0]] + rest)[i] == entries[i] || ([entries[0]] + rest)[i] == Filled(entries[i], payload)
      {
        if i > 0 { assert rest[i - 1] == entries[1..][i - 1] || rest[i - 1] == Filled(entries[1..][i - 1], payload); }
      }
    }
  }

  lemma FillKeepsValid(index: SceneIndex, payload: Payload)
    requires ValidIndex(index, index.scene, index.generation) && NamesPrims(index.entries)
    requires Fill(index.entries, payload).Some?
    ensures var after := index.(entries := Fill(index.entries, payload).value);
      ValidIndex(after, index.scene, index.generation) && NamesPrims(after.entries)
  {
    FillShape(index.entries, payload);
    var after := index.(entries := Fill(index.entries, payload).value);
    forall i | 0 <= i < |after.entries| ensures ValidEntry(after, i) {
      assert ValidEntry(index, i);
    }
    forall i | 0 < i < |after.entries| ensures AddressLess(after.entries[i - 1].address, after.entries[i].address) {
      assert AddressLess(index.entries[i - 1].address, index.entries[i].address);
    }
  }

  lemma {:induction false} FillAllKeepsValid(index: SceneIndex, payloads: seq<Payload>)
    requires ValidIndex(index, index.scene, index.generation) && NamesPrims(index.entries)
    requires FillAll(index.entries, payloads).Some?
    ensures var after := index.(entries := FillAll(index.entries, payloads).value);
      ValidIndex(after, index.scene, index.generation) && NamesPrims(after.entries)
    decreases |payloads|
  {
    if payloads != [] {
      FillKeepsValid(index, payloads[0]);
      FillAllKeepsValid(index.(entries := Fill(index.entries, payloads[0]).value), payloads[1..]);
    }
  }

  /** Repairing a valid index gives a valid pair and a valid descriptor, so a repair is refused only by the
      comparison of descriptors. */
  lemma RepairValidates(activation: Activation, payloads: seq<Payload>, scene: nat)
    requires ValidIndex(activation.index, scene, activation.descriptor.generation)
    requires NamesPrims(activation.index.entries) && RepairIndex(activation.index, payloads).Some?
    requires ValidDescriptor(activation.descriptor)
    ensures var index := RepairIndex(activation.index, payloads).value;
      && ValidIndex(index, scene, activation.descriptor.generation)
      && ValidSpatial(BuildSpatialIndex(index), scene, activation.descriptor.generation)
      && ValidDescriptor(RepairedDescriptor(activation.descriptor, index))
  {
    FillAllKeepsValid(activation.index, payloads);
    var filled := activation.index.(entries := FillAll(activation.index.entries, payloads).value);
    SortKeepsSorted(filled.entries);
    ParentsKeepIndexValid(filled, scene, activation.descriptor.generation);
    SpatialIndexIsValid(filled.(entries := AssignParents(filled.entries)), scene, activation.descriptor.generation);
  }

  // ----- histories of repairs

  /** From one moment to another only repairs that read in that time, prim counts, failed warms and crashes. */
  ghost predicate OnlyRepairs(run: Run, from: nat, to: nat)
    requires IsRun(run) && to < |run.states|
  {
    && from <= to
    && run.states[from].holder.Free? && run.states[from].descriptor.Some?
    && forall t | from <= t < to :: RepairingAt(run, from, t)
  }

  predicate RepairingAt(run: Run, from: nat, t: nat)
    requires t < |run.events|
  {
    match run.events[t]
    case LockRepair(seen, _) => from <= seen.first
    case LockPrimCount(_, _, _) => true
    case WriteIndex => true
    case WriteSpatial => true
    case WriteDescriptor => true
    case Abandon => true
    case Terminalize(_) => true
    case _ => false
  }

  /** A publisher at work is about to publish at least the geometry now named. */
  ghost predicate PublisherKeeps(disk: Disk, path: string) {
    disk.holder.Publishing? && HasGeometry(disk.descriptor, path) ==> HasGeometryIn(disk.holder.index.entries, path)
  }

  ghost predicate KeptAt(run: Run, from: nat, now: nat, path: string)
    requires IsRun(run) && now < |run.states|
  {
    && PublisherKeeps(run.states[now], path)
    && forall t | from <= t <= now :: HasGeometry(run.states[t].descriptor, path)
                                      ==> HasGeometry(run.states[now].descriptor, path)
  }

  /** A granted repair works on an index with all the geometry of the descriptor it replaces, although it read
      index and descriptor at different moments: geometry only grew in between. */
  lemma GrantedRepairIsCurrent(run: Run, from: nat, t: nat, path: string)
    requires IsRun(run) && from <= t < |run.events| && run.events[t].LockRepair? && StepAt(run, t)
    requires from <= run.events[t].seen.first
    requires KeptAt(run, from, run.events[t].seen.second, path)
    requires run.states[t].holder.Free?
    ensures PublisherKeeps(run.states[t + 1], path)
  {
    var activation := ActivationAt(run, run.events[t].seen);
    if activation.Some? && RepairIndex(activation.value.index, run.events[t].payloads).Some? {
      RepairKeepsGeometry(activation.value.index, run.events[t].payloads, path);
    }
  }

  lemma PrimCountKeepsGeometry(scene: nat, disk: Disk, expected: Option<Descriptor>, config: nat, primCount: nat,
                               path: string)
    requires disk.holder.Free?
    ensures PublisherKeeps(PlannedPrimCount(scene, disk, expected, config, primCount), path)
    ensures PlannedPrimCount(scene, disk, expected, config, primCount).descriptor == disk.descriptor
  {
  }

  lemma StepKeepsGeometry(run: Run, from: nat, t: nat, path: string)
    requires IsRun(run) && from <= t < |run.events| && RepairingAt(run, from, t)
    requires KeptAt(run, from, t, path)
    requires run.events[t].LockRepair? ==>
      run.events[t].seen.second <= t && KeptAt(run, from, run.events[t].seen.second, path)
    ensures PublisherKeeps(run.states[t + 1], path)
    ensures HasGeometry(run.states[t].descriptor, path) ==> HasGeometry(run.states[t + 1].descriptor, path)
  {
    assert StepAt(run, t);
    RunIsSound(run, t);
    match run.events[t]
    case LockRepair(_, _) => GrantedRepairIsCurrent(run, from, t, path);
    case LockPrimCount(expected, config, primCount) =>
      PrimCountKeepsGeometry(run.scene, run.states[t], expected, config, primCount, path);
    case _ =>
  }

  lemma {:induction false} GeometryIsKept(run: Run, from: nat, to: nat, now: nat, path: string)
    requires IsRun(run) && to < |run.states| && OnlyRepairs(run, from, to) && from <= now <= to
    ensures KeptAt(run, from, now, path)
    decreases now
  {
    if from < now {
      var t := now - 1;
      assert RepairingAt(run, from, t) && StepAt(run, t);
      GeometryIsKept(run, from, to, t, path);
      if run.events[t].LockRepair? {
        GeometryIsKept(run, from, to, run.events[t].seen.second, path);
      }
      StepKeepsGeometry(run, from, t, path);
    }
  }

  /** The repair locked at `lock` reached its last write at `publish` without giving up the lock. */
  ghost predicate RepairPublished(run: Run, lock: nat, publish: nat)
    requires IsRun(run)
  {
    && lock < publish < |run.events|
    && run.events[lock].LockRepair? && run.states[lock + 1].holder.Publishing?
    && run.events[publish].WriteDescriptor?
    && forall t | lock < t < publish :: KeepsHolderAt(run, t)
  }

  predicate KeepsHolderAt(run: Run, t: nat)
    requires t < |run.events|
  {
    !run.events[t].WriteDescriptor? && !run.events[t].Abandon?
  }

  lemma {:induction false} HolderPersists(run: Run, lock: nat, publish: nat, now: nat)
    requires IsRun(run) && RepairPublished(run, lock, publish) && lock < now <= publish
    ensures run.states[now].holder.Publishing?
    ensures run.states[now].holder.index == run.states[lock + 1].holder.index
    decreases now
  {
    if lock + 1 < now {
      assert KeepsHolderAt(run, now - 1) && StepAt(run, now - 1);
      HolderPersists(run, lock, publish, now - 1);
    }
  }

  lemma PublishedRepairHasItsGeometry(run: Run, lock: nat, publish: nat, payload: Payload)
    requires IsRun(run) && RepairPublished(run, lock, publish) && payload in run.events[lock].payloads
    ensures HasGeometry(run.states[publish + 1].descriptor, payload.path)
  {
    assert StepAt(run, lock) && StepAt(run, publish);
    RunIsSound(run, lock);
    RunIsSound(run, publish);
    HolderPersists(run, lock, publish, publish);
    var activation := ActivationAt(run, run.events[lock].seen);
    RepairKeepsGeometry(activation.value.index, run.events[lock].payloads, payload.path);
  }

  /** No repair is lost: after a repair published, every later descriptor names an index that validates and has
      geometry for each path that repair filled. */
  lemma NoRepairIsLost(run: Run, from: nat, to: nat, lock: nat, publish: nat, now: nat, payload: Payload)
    requires IsRun(run) && to < |run.states| && OnlyRepairs(run, from, to)
    requires RepairPublished(run, lock, publish) && payload in run.events[lock].payloads
    requires from <= publish < now <= to
    ensures HasGeometry(run.states[now].descriptor, payload.path)
    ensures ValidIndex(run.states[now].descriptor.value.indexDigest.index, run.scene,
                       run.states[now].descriptor.value.generation)
  {
    PublishedRepairHasItsGeometry(run, lock, publish, payload);
    GeometryIsKept(run, from, to, now, payload.path);
    RunIsSound(run, now);
  }
}
