/** What a targeted repair puts into the rows of an index, row by row and field by field, and how long that stays. */
module SceneRows {
  import opened Wrappers
  import opened SceneOrder
  import opened SceneCache
  import opened SceneBuild
  import opened SceneProtocol
  import opened SceneSafety
  import opened SceneRepairs
  import SceneRaces

  // ----- one repair

  /** Row `i` is the one that a payload for `path` goes to. */
  predicate Owns(entries: seq<Entry>, i: nat, path: string) {
    && i < |entries| && entries[i].kind == OwnedPrim(path)
    && forall j | 0 <= j < i :: entries[j].kind != OwnedPrim(path)
  }

  predicate LastGiven(payloads: seq<Payload>, path: string, k: nat) {
    && k < |payloads| && payloads[k].path == path
    && forall j | k < j < |payloads| :: payloads[j].path != path
  }

  predicate FirstWithBounds(payloads: seq<Payload>, path: string, k: nat) {
    && k < |payloads| && payloads[k].path == path && payloads[k].localBounds.Some?
    && forall j | 0 <= j < k && payloads[j].path == path :: payloads[j].localBounds.None?
  }

  predicate Unnamed(payloads: seq<Payload>, path: string) {
    forall k | 0 <= k < |payloads| :: payloads[k].path != path
  }

  /** Everything that no repair touches; a parent link is set anew. */
  predicate SameRest(row: Entry, after: Entry) {
    && after.address == row.address && after.transform == row.transform && after.bimEnabled == row.bimEnabled
    && after.material == row.material && after.animation == row.animation && after.semanticKey == row.semanticKey
    && after.kind == row.kind
  }

  predicate SameGeometry(row: Entry, after: Entry) {
    && after.geometry == row.geometry && after.contentHash == row.contentHash && after.bounds == row.bounds
    && after.cacheable == row.cacheable
  }

  /** The row names the payload's blob. */
  predicate Names(row: Entry, payload: Payload) {
    && row.cacheable && row.geometry == Some(BlobRef(Hex(payload.blob), payload.byteSize))
    && row.contentHash == Some(payload.blob)
  }

  /** Bounds that were there stay; else they are those of the first payload for the path that has any. */
  ghost predicate BoundsTaken(row: Entry, payloads: seq<Payload>, path: string, after: Entry) {
    if row.bounds.Some? then after.bounds == row.bounds
    else if exists k: nat :: FirstWithBounds(payloads, path, k)
    then exists k: nat :: FirstWithBounds(payloads, path, k) && after.bounds == payloads[k].localBounds
    else after.bounds.None?
  }

  /** One row before and after: the owner of a path that payloads name has the blob of the last of them; every other
      row is as it was. */
  ghost predicate RowRepaired(entries: seq<Entry>, payloads: seq<Payload>, i: nat, after: Entry)
    requires i < |entries|
  {
    var row := entries[i];
    && SameRest(row, after)
    && if row.kind.OwnedPrim? && Owns(entries, i, row.kind.primPath) && !Unnamed(payloads, row.kind.primPath) then
         && (exists k: nat :: LastGiven(payloads, row.kind.primPath, k) && Names(after, payloads[k]))
         && BoundsTaken(row, payloads, row.kind.primPath, after)
       else SameGeometry(row, after)
  }

  ghost predicate RowsRepaired(entries: seq<Entry>, payloads: seq<Payload>, after: seq<Entry>) {
    |after| == |entries| && forall i | 0 <= i < |entries| :: RowRepaired(entries, payloads, i, after[i])
  }

  predicate SameKinds(entries: seq<Entry>, after: seq<Entry>) {
    |after| == |entries| && forall i | 0 <= i < |entries| :: after[i].kind == entries[i].kind
  }

  lemma OwnersStay(entries: seq<Entry>, after: seq<Entry>, i: nat, path: string)
    requires SameKinds(entries, after)
    ensures Owns(entries, i, path) <==> Owns(after, i, path)
  {
  }

  /** What one payload does. */
  predicate RowFilled(entries: seq<Entry>, payload: Payload, i: nat, after: Entry)
    requires i < |entries|
  {
    && SameRest(entries[i], after)
    && if Owns(entries, i, payload.path) then
         && Names(after, payload)
         && after.bounds == if entries[i].bounds.Some? then entries[i].bounds else payload.localBounds
       else SameGeometry(entries[i], after)
  }

  lemma {:induction false} FillFillsTheOwner(entries: seq<Entry>, payload: Payload, i: nat)
    requires Fill(entries, payload).Some? && i < |entries|
    ensures RowFilled(entries, payload, i, Fill(entries, payload).value[i])
  {
    if entries[0].kind == OwnedPrim(payload.path) {
      assert i > 0 ==> !Owns(entries, i, payload.path);
    } else if i > 0 {
      FillFillsTheOwner(entries[1..], payload, i - 1);
      assert Owns(entries, i, payload.path) <==> Owns(entries[1..], i - 1, payload.path) by {
        if Owns(entries[1..], i - 1, payload.path) {
          forall j | 0 <= j < i ensures entries[j].kind != OwnedPrim(payload.path) {
            if j > 0 { assert entries[1..][j - 1] == entries[j]; }
          }
        }
        if Owns(entries, i, payload.path) {
          forall j | 0 <= j < i - 1 ensures entries[1..][j].kind != OwnedPrim(payload.path) {
            assert entries[1..][j] == entries[j + 1];
          }
        }
      }
    }
  }

  lemma FillKeepsKinds(entries: seq<Entry>, payload: Payload)
    requires Fill(entries, payload).Some?
    ensures SameKinds(entries, Fill(entries, payload).value)
  {
    forall i | 0 <= i < |entries| ensures Fill(entries, payload).value[i].kind == entries[i].kind {
      FillFillsTheOwner(entries, payload, i);
    }
  }

  lemma LastOfMore(payloads: seq<Payload>, path: string, k: nat)
    requires payloads != [] && LastGiven(payloads[1..], path, k)
    ensures LastGiven(payloads, path, k + 1)
  {
    forall j | k + 1 < j < |payloads| ensures payloads[j].path != path { assert payloads[j] == payloads[1..][j - 1]; }
  }

  lemma UnnamedInParts(payloads: seq<Payload>, path: string)
    requires payloads != []
    ensures Unnamed(payloads, path) <==> payloads[0].path != path && Unnamed(payloads[1..], path)
  {
    if Unnamed(payloads, path) {
      forall k | 0 <= k < |payloads| - 1 ensures payloads[1..][k].path != path {
        assert payloads[1..][k] == payloads[k + 1];
      }
    }
    if payloads[0].path != path && Unnamed(payloads[1..], path) {
      forall k | 0 <= k < |payloads| ensures payloads[k].path != path {
        if k > 0 { assert payloads[1..][k - 1] == payloads[k]; }
      }
    }
  }

  lemma FirstWithBoundsInParts(payloads: seq<Payload>, path: string, k: nat)
    requires payloads != [] && !(payloads[0].path == path && payloads[0].localBounds.Some?)
    ensures FirstWithBounds(payloads[1..], path, k) ==> FirstWithBounds(payloads, path, k + 1)
    ensures k > 0 && FirstWithBounds(payloads, path, k) ==> FirstWithBounds(payloads[1..], path, k - 1)
  {
    if FirstWithBounds(payloads[1..], path, k) {
      forall j | 0 <= j < k + 1 && payloads[j].path == path ensures payloads[j].localBounds.None? {
        if j > 0 { assert payloads[1..][j - 1] == payloads[j]; }
      }
    }
  }

  lemma BoundsInParts(row: Entry, first: Entry, payloads: seq<Payload>, path: string, after: Entry)
    requires payloads != []
    requires first.bounds
             == if payloads[0].path == path && row.bounds.None? then payloads[0].localBounds else row.bounds
    requires if Unnamed(payloads[1..], path) then after.bounds == first.bounds
             else BoundsTaken(first, payloads[1..], path, after)
    ensures BoundsTaken(row, payloads, path, after)
  {
    if row.bounds.None? {
      if payloads[0].path == path && payloads[0].localBounds.Some? {
        assert FirstWithBounds(payloads, path, 0);
      } else {
        forall k: nat { FirstWithBoundsInParts(payloads, path, k); }
        if k: nat :| FirstWithBounds(payloads, path, k) {
          assert k > 0 && FirstWithBounds(payloads[1..], path, k - 1);
          var m: nat :| FirstWithBounds(payloads[1..], path, m) && after.bounds == payloads[1..][m].localBounds;
          assert FirstWithBounds(payloads, path, m + 1) && payloads[m + 1] == payloads[1..][m];
        }
      }
    }
  }

  lemma RowInParts(entries: seq<Entry>, first: seq<Entry>, payloads: seq<Payload>, i: nat, after: Entry)
    requires payloads != [] && i < |entries| && SameKinds(entries, first)
    requires RowFilled(entries, payloads[0], i, first[i]) && RowRepaired(first, payloads[1..], i, after)
    ensures RowRepaired(entries, payloads, i, after)
  {
    var row := entries[i];
    if row.kind.OwnedPrim? && Owns(entries, i, row.kind.primPath) {
      var path := row.kind.primPath;
      OwnersStay(entries, first, i, path);
      UnnamedInParts(payloads, path);
      if !Unnamed(payloads, path) {
        LastNamesIt(payloads, path, first[i], after);
        BoundsInParts(row, first[i], payloads, path, after);
      }
    }
  }

  lemma LastNamesIt(payloads: seq<Payload>, path: string, first: Entry, after: Entry)
    requires payloads != []
    requires if Unnamed(payloads[1..], path) then payloads[0].path == path && Names(first, payloads[0])
                                                  && SameGeometry(first, after)
             else exists k: nat :: LastGiven(payloads[1..], path, k) && Names(after, payloads[1..][k])
    ensures exists k: nat :: LastGiven(payloads, path, k) && Names(after, payloads[k])
  {
    if Unnamed(payloads[1..], path) {
      assert LastGiven(payloads, path, 0) by {
        forall j | 0 < j < |payloads| ensures payloads[j].path != path { assert payloads[j] == payloads[1..][j - 1]; }
      }
    } else {
      var k: nat :| LastGiven(payloads[1..], path, k) && Names(after, payloads[1..][k]);
      LastOfMore(payloads, path, k);
      assert payloads[k + 1] == payloads[1..][k];
    }
  }

  lemma {:induction false} FillAllRepairs(entries: seq<Entry>, payloads: seq<Payload>)
    requires FillAll(entries, payloads).Some?
    ensures RowsRepaired(entries, payloads, FillAll(entries, payloads).value)
    decreases |payloads|
  {
    if payloads != [] {
      var first, after := Fill(entries, payloads[0]).value, FillAll(entries, payloads).value;
      FillKeepsKinds(entries, payloads[0]);
      FillAllRepairs(first, payloads[1..]);
      forall i | 0 <= i < |entries| ensures RowRepaired(entries, payloads, i, after[i]) {
        FillFillsTheOwner(entries, payloads[0], i);
        assert RowRepaired(first, payloads[1..], i, after[i]);
        RowInParts(entries, first, payloads, i, after[i]);
      }
    }
  }

  lemma SameAddressesStayOrdered(entries: seq<Entry>, after: seq<Entry>)
    requires StrictlyOrdered(entries) && |after| == |entries|
    requires forall i | 0 <= i < |entries| :: after[i].address == entries[i].address
    ensures StrictlyOrdered(after)
  {
    forall i | 0 < i < |after| ensures AddressLess(after[i - 1].address, after[i].address) {
      assert AddressLess(entries[i - 1].address, entries[i].address);
    }
  }

  /** A repair of a valid index changes, row by row, exactly what its payloads say. */
  lemma RepairChangesItsRows(index: SceneIndex, payloads: seq<Payload>, scene: nat, generation: nat)
    requires ValidIndex(index, scene, generation) && RepairIndex(index, payloads).Some?
    ensures var repaired := RepairIndex(index, payloads).value;
      && RowsRepaired(index.entries, payloads, repaired.entries)
      && repaired.schemaVersion == index.schemaVersion && repaired.scene == index.scene
      && repaired.generation == index.generation
  {
    var filled := FillAll(index.entries, payloads).value;
    FillAllRepairs(index.entries, payloads);
    assert forall i | 0 <= i < |filled| :: RowRepaired(index.entries, payloads, i, filled[i]);
    SameAddressesStayOrdered(index.entries, filled);
    SortKeepsSorted(filled);
    var linked := AssignParents(filled);
    forall i | 0 <= i < |linked| ensures RowRepaired(index.entries, payloads, i, linked[i]) {
      assert RowRepaired(index.entries, payloads, i, filled[i]);
      ParentsAside(index.entries, payloads, i, filled[i], linked[i]);
    }
  }

  lemma ParentsAside(entries: seq<Entry>, payloads: seq<Payload>, i: nat, filled: Entry, linked: Entry)
    requires i < |entries| && RowRepaired(entries, payloads, i, filled)
    requires linked == filled.(parent := linked.parent)
    ensures RowRepaired(entries, payloads, i, linked)
  {
  }

  predicate HasOwner(entries: seq<Entry>, path: string) {
    exists i | 0 <= i < |entries| :: entries[i].kind == OwnedPrim(path)
  }

  lemma {:induction false} RepairRefusesExactlyWhen(entries: seq<Entry>, payloads: seq<Payload>)
    ensures FillAll(entries, payloads).None? <==>
            exists k | 0 <= k < |payloads| :: !HasOwner(entries, payloads[k].path)
    decreases |payloads|
  {
    if payloads != [] {
      assert Fill(entries, payloads[0]).None? <==> !HasOwner(entries, payloads[0].path);
      if Fill(entries, payloads[0]).Some? {
        var first := Fill(entries, payloads[0]).value;
        FillKeepsKinds(entries, payloads[0]);
        RepairRefusesExactlyWhen(first, payloads[1..]);
        forall k | 0 <= k < |payloads| - 1
          ensures payloads[1..][k] == payloads[k + 1]
          ensures HasOwner(first, payloads[k + 1].path) <==> HasOwner(entries, payloads[k + 1].path)
        {
          SameOwners(entries, first, payloads[k + 1].path);
        }
      }
    }
  }

  lemma SameOwners(entries: seq<Entry>, after: seq<Entry>, path: string)
    requires SameKinds(entries, after)
    ensures HasOwner(entries, path) <==> HasOwner(after, path)
  {
    if i :| 0 <= i < |entries| && entries[i].kind == OwnedPrim(path) { assert after[i].kind == OwnedPrim(path); }
    if i :| 0 <= i < |after| && after[i].kind == OwnedPrim(path) { assert entries[i].kind == OwnedPrim(path); }
  }

  // ----- over whole runs

  ghost predicate RowIn(entries: seq<Entry>, path: string, payload: Payload) {
    exists i: nat :: Owns(entries, i, path) && Names(entries[i], payload)
  }

  /** The index a descriptor names has the payload's blob in the row that owns the path. */
  ghost predicate RowNamed(d: Option<Descriptor>, path: string, payload: Payload) {
    d.Some? && d.value.indexDigest.OfIndex? && RowIn(d.value.indexDigest.index.entries, path, payload)
  }

  lemma RepairedRowIsIn(index: SceneIndex, payloads: seq<Payload>, scene: nat, generation: nat, path: string, k: nat)
    requires ValidIndex(index, scene, generation) && RepairIndex(index, payloads).Some?
    requires LastGiven(payloads, path, k)
    ensures RowIn(RepairIndex(index, payloads).value.entries, path, payloads[k])
  {
    RepairChangesItsRows(index, payloads, scene, generation);
    var after := RepairIndex(index, payloads).value.entries;
    RepairRefusesExactlyWhen(index.entries, payloads);
    assert HasOwner(index.entries, payloads[k].path);
    var i := FirstOwner(index.entries, path);
    assert RowRepaired(index.entries, payloads, i, after[i]);
    assert SameKinds(index.entries, after) by {
      forall j | 0 <= j < |after| ensures after[j].kind == index.entries[j].kind {
        assert RowRepaired(index.entries, payloads, j, after[j]);
      }
    }
    OwnersStay(index.entries, after, i, path);
    var last: nat :| LastGiven(payloads, path, last) && Names(after[i], payloads[last]);
    assert last == k;
  }

  lemma {:induction false} FirstOwner(entries: seq<Entry>, path: string) returns (i: nat)
    requires HasOwner(entries, path)
    ensures Owns(entries, i, path)
  {
    if entries[0].kind == OwnedPrim(path) {
      i := 0;
    } else {
      var k :| 0 <= k < |entries| && entries[k].kind == OwnedPrim(path);
      assert entries[1..][k - 1] == entries[k];
      var rest := FirstOwner(entries[1..], path);
      i := rest + 1;
      assert entries[i] == entries[1..][rest];
      forall j | 0 <= j < i ensures entries[j].kind != OwnedPrim(path) {
        if j > 0 { assert entries[j] == entries[1..][j - 1]; }
      }
    }
  }

  /** A repair leaves the rows of the paths it does not name as it read them. */
  lemma UnnamedRowStays(index: SceneIndex, payloads: seq<Payload>, scene: nat, generation: nat, path: string,
                        payload: Payload)
    requires ValidIndex(index, scene, generation) && RepairIndex(index, payloads).Some? && Unnamed(payloads, path)
    ensures RowIn(RepairIndex(index, payloads).value.entries, path, payload) <==> RowIn(index.entries, path, payload)
  {
    RepairChangesItsRows(index, payloads, scene, generation);
    var after := RepairIndex(index, payloads).value.entries;
    forall i: nat | i < |after|
      ensures Owns(index.entries, i, path) && Names(index.entries[i], payload)
              <==> Owns(after, i, path) && Names(after[i], payload)
    {
      assert RowRepaired(index.entries, payloads, i, after[i]);
      assert SameKinds(index.entries, after) by {
        forall j | 0 <= j < |after| ensures after[j].kind == index.entries[j].kind {
          assert RowRepaired(index.entries, payloads, j, after[j]);
        }
      }
      OwnersStay(index.entries, after, i, path);
    }
  }

  ghost predicate GrantedAt(run: Run, t: nat)
    requires IsRun(run) && t < |run.events|
  {
    && run.events[t].LockRepair? && InOrder(run.events[t].seen, t)
    && run.states[t].holder.Free? && run.states[t + 1].holder.Publishing?
  }

  /** A granted repair is about to publish another row for a path it does not name exactly if the index it read had
      another row there than the descriptor it replaces; it then read index and descriptor of different
      publications. */
  lemma RepairTakesRowBackExactlyWhen(run: Run, t: nat, path: string, payload: Payload)
    requires IsRun(run) && t < |run.events| && GrantedAt(run, t) && Unnamed(run.events[t].payloads, path)
    requires RowNamed(run.states[t].descriptor, path, payload)
    ensures var a := ActivationAt(run, run.events[t].seen);
      && a.Some?
      && (RowIn(run.states[t + 1].holder.index.entries, path, payload) <==> RowIn(a.value.index.entries, path, payload))
      && (!RowIn(run.states[t + 1].holder.index.entries, path, payload) ==> SceneRaces.MixesAt(run, run.events[t].seen))
  {
    assert StepAt(run, t);
    var a := ActivationAt(run, run.events[t].seen).value;
    UnnamedRowStays(a.index, run.events[t].payloads, run.scene, a.index.generation, path, payload);
  }

  /** The event that took the lock for the publisher at work. */
  lemma {:induction false} LockOf(run: Run, now: nat) returns (t: nat)
    requires IsRun(run) && now < |run.states| && run.states[now].holder.Publishing?
    ensures t < now && run.states[t].holder.Free? && run.states[t + 1].holder.Publishing?
    ensures run.events[t].LockBuild? || run.events[t].LockRepair? || run.events[t].LockPrimCount?
    ensures run.states[t + 1].holder.index == run.states[now].holder.index
    ensures forall k | t < k < now :: KeepsHolderAt(run, k)
    decreases now
  {
    assert StepAt(run, now - 1);
    if run.events[now - 1].LockBuild? || run.events[now - 1].LockRepair? || run.events[now - 1].LockPrimCount? {
      t := now - 1;
    } else {
      t := LockOf(run, now - 1);
    }
  }

  lemma PublishedRowIsNamed(run: Run, lock: nat, publish: nat, path: string, k: nat)
    requires IsRun(run) && RepairPublished(run, lock, publish) && LastGiven(run.events[lock].payloads, path, k)
    ensures RowNamed(run.states[publish + 1].descriptor, path, run.events[lock].payloads[k])
  {
    assert StepAt(run, lock) && StepAt(run, publish);
    RunIsSound(run, lock);
    RunIsSound(run, publish);
    HolderPersists(run, lock, publish, publish);
    var a := ActivationAt(run, run.events[lock].seen).value;
    RepairedRowIsIn(a.index, run.events[lock].payloads, run.scene, a.index.generation, path, k);
  }

  /** A repair that names neither this path nor, in one activation, two publications. */
  ghost predicate Spares(run: Run, lock: nat, path: string)
    requires IsRun(run) && lock < |run.events| && run.events[lock].LockRepair?
  {
    StepAt(run, lock) && Unnamed(run.events[lock].payloads, path) && !SceneRaces.MixesAt(run, run.events[lock].seen)
  }

  ghost predicate SparedUntil(run: Run, publish: nat, now: nat, path: string)
    requires IsRun(run)
  {
    forall lock: nat, later: nat | publish < later < now && RepairPublished(run, lock, later) :: Spares(run, lock, path)
  }

  lemma LockKeepsRow(run: Run, t: nat, path: string, payload: Payload)
    requires IsRun(run) && t < |run.events| && run.states[t].holder.Free? && run.states[t + 1].holder.Publishing?
    requires run.events[t].LockPrimCount? || (run.events[t].LockRepair? && Spares(run, t, path))
    requires RowNamed(run.states[t].descriptor, path, payload)
    ensures RowIn(run.states[t + 1].holder.index.entries, path, payload)
  {
    assert StepAt(run, t);
    if run.events[t].LockRepair? { RepairTakesRowBackExactlyWhen(run, t, path, payload); }
  }

  lemma WriteKeepsRow(run: Run, publish: nat, t: nat, path: string, payload: Payload, lock: nat)
    requires IsRun(run) && publish < t < |run.events| && run.events[t].WriteDescriptor?
    requires publish < lock < t && run.states[t].holder.Publishing?
    requires run.states[lock + 1].holder.Publishing? && run.states[lock + 1].holder.index == run.states[t].holder.index
    requires RowIn(run.states[lock + 1].holder.index.entries, path, payload)
    ensures RowNamed(run.states[t + 1].descriptor, path, payload)
  {
    assert StepAt(run, t);
    RunIsSound(run, t);
  }

  /** The row that a repair filled stays named as the repair filled it, over every interleaving of repairs, prim
      counts, failed warms and crashes, until another repair of the same path is published, or one that read index and
      descriptor of different publications. */
  lemma {:induction false} RepairedRowStands(run: Run, from: nat, to: nat, lock: nat, publish: nat, now: nat,
                                             path: string, k: nat)
    requires IsRun(run) && to < |run.states| && OnlyRepairs(run, from, to)
    requires RepairPublished(run, lock, publish) && LastGiven(run.events[lock].payloads, path, k)
    requires from <= publish < now <= to && SparedUntil(run, publish, now, path)
    ensures RowNamed(run.states[now].descriptor, path, run.events[lock].payloads[k])
    decreases now
  {
    var payload := run.events[lock].payloads[k];
    if now == publish + 1 {
      PublishedRowIsNamed(run, lock, publish, path, k);
    } else {
      var t := now - 1;
      assert RepairingAt(run, from, t) && StepAt(run, t);
      if run.events[t].WriteDescriptor? {
        var begun := LockOf(run, t);
        assert !KeepsHolderAt(run, publish);
        assert begun > publish;
        RepairedRowStands(run, from, to, lock, publish, begun, path, k);
        assert RepairingAt(run, from, begun);
        if run.events[begun].LockRepair? { assert RepairPublished(run, begun, t); }
        LockKeepsRow(run, begun, path, payload);
        WriteKeepsRow(run, publish, t, path, payload, begun);
      } else {
        RepairedRowStands(run, from, to, lock, publish, t, path, k);
      }
    }
  }
}
