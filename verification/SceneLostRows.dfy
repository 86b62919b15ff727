/** A history in which a repair takes another repair's row back: it read the descriptor before and after, and the
    index in between, of publications that put the first index back. */
module SceneLostRows {
  import opened Wrappers
  import opened SceneOrder
  import opened SceneCache
  import opened SceneBuild
  import opened SceneProtocol
  import opened SceneRepairs
  import opened SceneRows
  import opened SceneRaces

  // ----- one repair more

  /** A run, and one more event. */
  function Further(run: Run, event: Event, after: Disk): Run {
    Run(run.scene, run.states + [after], run.events + [event])
  }

  function Now(run: Run): Disk
    requires run.states != []
  {
    run.states[|run.states| - 1]
  }

  lemma FurtherIsRun(run: Run, event: Event, after: Disk)
    requires IsRun(run) && Enabled(run.scene, Now(run), event)
    requires match event
             case LockRepair(seen, payloads) =>
               && InOrder(seen, |run.events|)
               && after == Repaired(run.scene, Now(run), ActivationAt(run, seen), payloads)
             case _ => after == Apply(run.scene, Now(run), event)
    ensures IsRun(Further(run, event, after))
  {
    var more := Further(run, event, after);
    forall t | 0 <= t < |more.events| ensures StepAt(more, t) {
      if t < |run.events| {
        assert StepAt(run, t);
        assert more.states[t] == run.states[t] && more.states[t + 1] == run.states[t + 1];
      }
    }
  }

  /** The files that a repair of this activation leaves. */
  function AfterRepair(a: Activation, index: SceneIndex): Disk {
    var spatial := BuildSpatialIndex(index);
    Disk(Some(Published(RepairedDescriptor(a.descriptor, index), index, spatial)), Some(index), Some(spatial), Free)
  }

  function RepairedRun(run: Run, seen: Reads, payloads: seq<Payload>, a: Activation, index: SceneIndex): Run
    requires run.states != []
  {
    var d, spatial := Published(RepairedDescriptor(a.descriptor, index), index, BuildSpatialIndex(index)),
        BuildSpatialIndex(index);
    var locked := Now(run).(holder := Publishing(d, index, spatial, 0));
    var one := locked.(index := Some(index), holder := Publishing(d, index, spatial, 1));
    var two := one.(spatial := Some(spatial), holder := Publishing(d, index, spatial, 2));
    Run(run.scene, run.states + [locked, one, two, AfterRepair(a, index)],
        run.events + [LockRepair(seen, payloads), WriteIndex, WriteSpatial, WriteDescriptor])
  }

  /** A repair that reads this activation and is granted, uninterrupted. */
  lemma RepairGoesOn(run: Run, seen: Reads, payloads: seq<Payload>, a: Activation, index: SceneIndex)
    requires IsRun(run) && InOrder(seen, |run.events|) && ActivationAt(run, seen) == Some(a)
    requires RepairIndex(a.index, payloads) == Some(index)
    requires Now(run).holder.Free? && Now(run).descriptor == Some(a.descriptor)
    requires ValidIndex(a.index, run.scene, a.descriptor.generation) && NamesPrims(a.index.entries)
    requires ValidDescriptor(a.descriptor)
    ensures var more, n := RepairedRun(run, seen, payloads, a, index), |run.events|;
      && IsRun(more) && RepairPublished(more, n, n + 3) && |more.events| == n + 4
      && Now(more) == AfterRepair(a, index)
  {
    RepairValidates(a, payloads, run.scene);
    var more, n := RepairedRun(run, seen, payloads, a, index), |run.events|;
    var locked := Further(run, LockRepair(seen, payloads), more.states[n + 1]);
    FurtherIsRun(run, LockRepair(seen, payloads), more.states[n + 1]);
    var one := Further(locked, WriteIndex, more.states[n + 2]);
    FurtherIsRun(locked, WriteIndex, more.states[n + 2]);
    var two := Further(one, WriteSpatial, more.states[n + 3]);
    FurtherIsRun(one, WriteSpatial, more.states[n + 3]);
    FurtherIsRun(two, WriteDescriptor, more.states[n + 4]);
    assert more == Further(two, WriteDescriptor, more.states[n + 4]);
  }

  lemma EarlierStays(run: Run, seen: Reads, payloads: seq<Payload>, a: Activation, index: SceneIndex, from: nat,
                     lock: nat, publish: nat)
    requires IsRun(run) && IsRun(RepairedRun(run, seen, payloads, a, index))
    requires OnlyRepairs(run, from, |run.events|) && from <= seen.first && RepairPublished(run, lock, publish)
    ensures var more := RepairedRun(run, seen, payloads, a, index);
      OnlyRepairs(more, from, |more.events|) && RepairPublished(more, lock, publish)
  {
    var more := RepairedRun(run, seen, payloads, a, index);
    forall t | from <= t < |more.events| ensures RepairingAt(more, from, t) {
      if t < |run.events| { assert RepairingAt(run, from, t) && more.events[t] == run.events[t]; }
    }
    forall t | lock < t < publish ensures KeepsHolderAt(more, t) { assert KeepsHolderAt(run, t); }
  }

  // ----- two rows

  function Row(scene: nat, path: string, blob: Option<nat>): Entry {
    Entry(Address(scene, PrimPath(path)), None, 0, None, blob.Some?, false,
          if blob.None? then None else Some(BlobRef(Hex(blob.value), 1)), None, None, None, OwnedPrim(path), blob)
  }

  function Rows(scene: nat, a: Option<nat>, b: Option<nat>): SceneIndex {
    SceneIndex(INDEX_SCHEMA_VERSION, scene, 1, [Row(scene, "/a", a), Row(scene, "/b", b)])
  }

  lemma RowsAreValid(scene: nat, a: Option<nat>, b: Option<nat>)
    ensures ValidIndex(Rows(scene, a, b), scene, 1) && NamesPrims(Rows(scene, a, b).entries)
    ensures AssignParents(Rows(scene, a, b).entries) == Rows(scene, a, b).entries
    ensures BuildSpatialIndex(Rows(scene, a, b)) == NoPlaces(scene)
  {
    var entries := Rows(scene, a, b).entries;
    assert StringLess("/a"[1..], "/b"[1..]);
    assert "/a"[..1] == "/" && "/b"[..1] == "/" && "/"[..0] == "";
    assert ParentPath("/") == "";
    assert ParentPath("/a") == "" && ParentPath("/b") == "";
    assert entries[..1] == [Row(scene, "/a", a)] && entries[..1][..0] == [];
    assert SpatialEntries(entries[..1]) == [];
  }

  function Gives(path: string, blob: nat): Payload {
    Payload(path, blob, 1, None)
  }

  lemma OnePayload(entries: seq<Entry>, payload: Payload)
    ensures FillAll(entries, [payload]) == Fill(entries, payload)
  {
    assert [payload][1..] == [];
  }

  lemma FillingA(scene: nat, a: Option<nat>, b: Option<nat>, blob: nat)
    ensures RepairIndex(Rows(scene, a, b), [Gives("/a", blob)]) == Some(Rows(scene, Some(blob), b))
  {
    var entries := Rows(scene, a, b).entries;
    OnePayload(entries, Gives("/a", blob));
    assert Filled(entries[0], Gives("/a", blob)) == Row(scene, "/a", Some(blob));
    assert Fill(entries, Gives("/a", blob)).value == Rows(scene, Some(blob), b).entries;
    RowsAreValid(scene, Some(blob), b);
    SortKeepsSorted(Rows(scene, Some(blob), b).entries);
  }

  lemma FillingB(scene: nat, a: Option<nat>, b: Option<nat>, blob: nat)
    ensures RepairIndex(Rows(scene, a, b), [Gives("/b", blob)]) == Some(Rows(scene, a, Some(blob)))
  {
    var entries := Rows(scene, a, b).entries;
    OnePayload(entries, Gives("/b", blob));
    assert "/a"[1] != "/b"[1] && entries[0].kind != OwnedPrim("/b");
    assert entries[1..] == [entries[1]] && entries[1..][1..] == [];
    assert Filled(entries[1], Gives("/b", blob)) == Row(scene, "/b", Some(blob));
    assert [Row(scene, "/b", Some(blob))] + [] == [Row(scene, "/b", Some(blob))];
    assert entries[1..][0].kind == OwnedPrim("/b");
    assert Fill(entries[1..], Gives("/b", blob)) == Some([Row(scene, "/b", Some(blob))]);
    assert Fill(entries, Gives("/b", blob)).value == Rows(scene, a, Some(blob)).entries;
    RowsAreValid(scene, a, Some(blob));
    SortKeepsSorted(Rows(scene, a, Some(blob)).entries);
  }

  // ----- the history

  /** The descriptor after a repair that left so many rows filled. */
  function Named(scene: nat, a: Option<nat>, b: Option<nat>, filled: nat): Descriptor {
    var index := Rows(scene, a, b);
    Published(FirstPartial(scene).(primCount := 2, cacheableCount := filled, estimatedCpuBytes := filled,
                                   estimatedGpuBytes := filled), index, NoPlaces(scene))
  }

  lemma RepairedFrom(scene: nat, d: Descriptor, a: Option<nat>, b: Option<nat>)
    requires d.(primCount := 0, cacheableCount := 0, estimatedCpuBytes := 0, estimatedGpuBytes := 0,
                indexDigest := Zero, spatialDigest := None)
             == FirstPartial(scene)
    ensures var index, filled := Rows(scene, a, b), (if a.Some? then 1 else 0) + (if b.Some? then 1 else 0);
      AfterRepair(Activation(d, Rows(scene, None, None)), index)
      == Disk(Some(Named(scene, a, b, filled)), Some(index), Some(NoPlaces(scene)), Free)
  {
    RowsAreValid(scene, a, b);
    var entries := Rows(scene, a, b).entries;
    assert entries[1..] == [entries[1]] && entries[1..][1..] == [];
    assert CacheableCount(entries[1..]) == if b.Some? then 1 else 0;
    assert GeometryBytes(entries[1..]) == if b.Some? then 1 else 0;
  }

  /** The files when rows are filled so and the descriptor names them. */
  predicate Holds(disk: Disk, scene: nat, d: Descriptor, a: Option<nat>) {
    && disk == Disk(Some(d), Some(Rows(scene, a, None)), Some(NoPlaces(scene)), Free)
    && d == Published(FirstPartial(scene).(primCount := d.primCount, cacheableCount := d.cacheableCount,
                                           estimatedCpuBytes := d.estimatedCpuBytes,
                                           estimatedGpuBytes := d.estimatedGpuBytes),
                      Rows(scene, a, None), NoPlaces(scene))
    && ValidDescriptor(d)
  }

  /** A repair of "/a" that reads and publishes undisturbed. */
  function NextA(run: Run, d: Descriptor, a: Option<nat>, blob: nat): Run
    requires run.states != []
  {
    var n := |run.events|;
    RepairedRun(run, Reads(n, n, n, n), [Gives("/a", blob)], Activation(d, Rows(run.scene, a, None)),
                Rows(run.scene, Some(blob), None))
  }

  lemma NextAGoesOn(run: Run, d: Descriptor, a: Option<nat>, blob: nat)
    requires IsRun(run) && Holds(Now(run), run.scene, d, a)
    ensures var more, n := NextA(run, d, a, blob), |run.events|;
      && IsRun(more) && RepairPublished(more, n, n + 3) && |more.events| == n + 4
      && Holds(Now(more), run.scene, Named(run.scene, Some(blob), None, 1), Some(blob))
  {
    var n, activation := |run.events|, Activation(d, Rows(run.scene, a, None));
    RowsAreValid(run.scene, a, None);
    FillingA(run.scene, a, None, blob);
    RepairGoesOn(run, Reads(n, n, n, n), [Gives("/a", blob)], activation, Rows(run.scene, Some(blob), None));
    RepairedFrom(run.scene, d, Some(blob), None);
  }

  function Built(scene: nat): seq<Event> {
    ADVANCE + Rebuild(FirstBuilding(scene), FirstPartial(scene), Rows(scene, None, None), NoPlaces(scene))
  }

  lemma BuiltGoesOn(scene: nat)
    ensures Plays(scene, FRESH, Built(scene))
    ensures var run := Run(scene, States(scene, FRESH, Built(scene)), Built(scene));
      && IsRun(run) && |run.events| == 6
      && Holds(Now(run), scene, Published(FirstPartial(scene), Rows(scene, None, None), NoPlaces(scene)), None)
  {
    AdvancePlays(scene, FRESH);
    RowsAreValid(scene, None, None);
    BuildsPlay(scene, ADVANCE, FirstPartial(scene), Rows(scene, None, None), NoPlaces(scene), FirstBuilding(scene));
    PlayIsRun(scene, Built(scene));
  }

  /** "/a" repaired with blob 1, with blob 2, and with blob 1 again. */
  function Thrice(scene: nat): Run
    requires Plays(scene, FRESH, Built(scene))
  {
    var built := Run(scene, States(scene, FRESH, Built(scene)), Built(scene));
    var d := Published(FirstPartial(scene), Rows(scene, None, None), NoPlaces(scene));
    var one := NextA(built, d, None, 1);
    var two := NextA(one, Named(scene, Some(1), None, 1), Some(1), 2);
    NextA(two, Named(scene, Some(2), None, 1), Some(2), 1)
  }

  lemma ThriceGoesOn(scene: nat)
    ensures Plays(scene, FRESH, Built(scene))
    ensures var run := Thrice(scene);
      && IsRun(run) && run.scene == scene && |run.events| == 18
      && Holds(run.states[10], scene, Named(scene, Some(1), None, 1), Some(1))
      && Holds(run.states[14], scene, Named(scene, Some(2), None, 1), Some(2))
      && Holds(run.states[18], scene, Named(scene, Some(1), None, 1), Some(1))
      && RepairPublished(run, 14, 17) && run.events[14].payloads == [Gives("/a", 1)]
      && OnlyRepairs(run, 6, 18)
  {
    BuiltGoesOn(scene);
    var built := Run(scene, States(scene, FRESH, Built(scene)), Built(scene));
    var d := Published(FirstPartial(scene), Rows(scene, None, None), NoPlaces(scene));
    var one := NextA(built, d, None, 1);
    NextAGoesOn(built, d, None, 1);
    var two := NextA(one, Named(scene, Some(1), None, 1), Some(1), 2);
    NextAGoesOn(one, Named(scene, Some(1), None, 1), Some(1), 2);
    NextAGoesOn(two, Named(scene, Some(2), None, 1), Some(2), 1);
  }

  /** The repair of "/b" that mixes: its descriptor is the one of blob 1, its index the one of blob 2. */
  function Mixed(scene: nat): Run
    requires Plays(scene, FRESH, Built(scene))
  {
    var activation := Activation(Named(scene, Some(1), None, 1), Rows(scene, Some(2), None));
    RepairedRun(Thrice(scene), Reads(10, 14, 14, 18), [Gives("/b", 7)], activation, Rows(scene, Some(2), Some(7)))
  }

  lemma RowOf(scene: nat, a: nat, b: Option<nat>, payload: Payload)
    requires payload.path == "/a"
    ensures RowIn(Rows(scene, Some(a), b).entries, "/a", payload) <==> payload.blob == a && payload.byteSize == 1
  {
    var entries := Rows(scene, Some(a), b).entries;
    assert "/a"[1] != "/b"[1];
    assert Owns(entries, 0, "/a");
    if payload.blob == a && payload.byteSize == 1 { assert Names(entries[0], payload); }
  }

  lemma MixedIsRead(scene: nat)
    requires Plays(scene, FRESH, Built(scene))
    ensures IsRun(Thrice(scene)) && |Thrice(scene).events| == 18
    ensures ActivationAt(Thrice(scene), Reads(10, 14, 14, 18))
            == Some(Activation(Named(scene, Some(1), None, 1), Rows(scene, Some(2), None)))
  {
    ThriceGoesOn(scene);
    RowsAreValid(scene, Some(2), None);
  }

  lemma MixedGoesOn(scene: nat)
    requires Plays(scene, FRESH, Built(scene))
    ensures var run, thrice := Mixed(scene), Thrice(scene);
      && IsRun(run) && |run.events| == 22 && RepairPublished(run, 18, 21)
      && run.states[..19] == thrice.states && run.events[..18] == thrice.events
      && run.events[18].payloads == [Gives("/b", 7)]
      && Now(run).descriptor.Some?
      && Now(run).descriptor.value.indexDigest == OfIndex(Rows(scene, Some(2), Some(7)))
  {
    ThriceGoesOn(scene);
    MixedIsRead(scene);
    RowsAreValid(scene, Some(2), None);
    FillingB(scene, Some(2), None, 7);
    RepairGoesOn(Thrice(scene), Reads(10, 14, 14, 18), [Gives("/b", 7)],
                 Activation(Named(scene, Some(1), None, 1), Rows(scene, Some(2), None)),
                 Rows(scene, Some(2), Some(7)));
  }

  lemma ThriceStays(scene: nat)
    requires Plays(scene, FRESH, Built(scene)) && IsRun(Mixed(scene))
    ensures var run := Mixed(scene);
      OnlyRepairs(run, 6, |run.events|) && RepairPublished(run, 14, 17) && run.events[14].payloads == [Gives("/a", 1)]
  {
    ThriceGoesOn(scene);
    EarlierStays(Thrice(scene), Reads(10, 14, 14, 18), [Gives("/b", 7)],
                 Activation(Named(scene, Some(1), None, 1), Rows(scene, Some(2), None)),
                 Rows(scene, Some(2), Some(7)), 6, 14, 17);
  }

  /** Among repairs alone, the last published repair of "/a" gave blob 1; after a repair that named "/b" only, the row
      of "/a" has blob 2 again. */
  lemma MixedRepairCanTakeRowBack(scene: nat)
    ensures Plays(scene, FRESH, Built(scene))
    ensures var run := Mixed(scene);
      && IsRun(run) && |run.events| == 22 && OnlyRepairs(run, 6, 22)
      && RepairPublished(run, 14, 17) && run.events[14].payloads == [Gives("/a", 1)]
      && RepairPublished(run, 18, 21) && Unnamed(run.events[18].payloads, "/a")
      && RowNamed(run.states[18].descriptor, "/a", Gives("/a", 1))
      && !RowNamed(run.states[22].descriptor, "/a", Gives("/a", 1))
      && RowNamed(run.states[22].descriptor, "/a", Gives("/a", 2))
  {
    ThriceGoesOn(scene);
    MixedGoesOn(scene);
    ThriceStays(scene);
    assert Mixed(scene).states[18] == Mixed(scene).states[..19][18] == Thrice(scene).states[18];
    assert "/a"[1] != "/b"[1];
    RowOf(scene, 1, None, Gives("/a", 1));
    RowOf(scene, 2, Some(7), Gives("/a", 1));
    RowOf(scene, 2, Some(7), Gives("/a", 2));
  }
}
