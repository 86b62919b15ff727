/** Two races that the digest checks leave open: a reader whose four reads straddle two publications, and the
    unlocked marking of a failed warm. For each, when it does harm, and a history in which it does. */
module SceneRaces {
  import opened Wrappers
  import SceneOrder
  import opened SceneBuild
  import opened SceneCache
  import opened SceneProtocol
  import opened SceneSafety

  function NamedDigest(disk: Disk): Option<Digest> {
    if disk.descriptor.None? then None else Some(disk.descriptor.value.indexDigest)
  }

  // ----- activation

  /** Event `t` leaves a descriptor that names another index than the one given. */
  predicate RenamesFrom(run: Run, t: nat, digest: Digest)
    requires |run.states| == |run.events| + 1 && t < |run.events|
  {
    run.events[t].WriteDescriptor? && NamedDigest(run.states[t + 1]) != Some(digest)
  }

  /** A descriptor comes to name an index only when a publication writes it. */
  lemma {:induction false} NewNameWasWritten(run: Run, from: nat, now: nat) returns (t: nat)
    requires IsRun(run) && from <= now < |run.states|
    requires NamedDigest(run.states[now]).Some? && NamedDigest(run.states[now]).value.OfIndex?
    requires NamedDigest(run.states[from]) != NamedDigest(run.states[now])
    ensures from <= t < now && run.events[t].WriteDescriptor?
    ensures NamedDigest(run.states[t + 1]) == NamedDigest(run.states[now])
    decreases now
  {
    if run.events[now - 1].WriteDescriptor? {
      t := now - 1;
    } else {
      DigestIsCarriedOver(run, now - 1);
      t := NewNameWasWritten(run, from, now - 1);
    }
  }

  /** From a moment at which no publisher is at work, nobody removes the index file. */
  predicate IndexKept(run: Run, from: nat, until: nat)
    requires |run.states| == |run.events| + 1 && from <= until < |run.states|
  {
    run.states[from].holder.Free? && forall k | from <= k < until :: run.events[k] != Unlink(IndexFile)
  }

  /** Then a publisher past its first write finds its index there. */
  lemma {:induction false} WrittenIndexStays(run: Run, from: nat, t: nat)
    requires IsRun(run) && from <= t < |run.states| && IndexKept(run, from, t)
    ensures run.states[t].holder.Publishing? && run.states[t].holder.written > 0 ==>
              run.states[t].index == Some(run.states[t].holder.index)
    decreases t
  {
    if from < t {
      WrittenIndexStays(run, from, t - 1);
      assert StepAt(run, t - 1) && run.events[t - 1] != Unlink(IndexFile);
    }
  }

  /** An activation can be read between two moments whose index is not the one its descriptor names. */
  ghost predicate CanMix(run: Run, first: nat, last: nat)
    requires IsRun(run) && first <= last < |run.states|
  {
    exists second, file | first <= second <= file <= last :: MixesAt(run, Reads(first, second, file, last))
  }

  ghost predicate MixesAt(run: Run, seen: Reads)
    requires IsRun(run) && InOrder(seen, |run.events|)
  {
    var a := ActivationAt(run, seen);
    a.Some? && a.value.descriptor.indexDigest != OfIndex(a.value.index)
  }

  /** The two descriptor reads of an activation that the last comparison accepts. */
  predicate EndsAgree(first: Disk, last: Disk) {
    && first.descriptor.Some? && last.descriptor.Some?
    && Activatable(first.descriptor.value) && Activatable(last.descriptor.value)
    && first.descriptor.value.generation == last.descriptor.value.generation
    && first.descriptor.value.indexDigest == last.descriptor.value.indexDigest
  }

  /** A mixed pair means that a publication replaced the index in between; by the last read another publication
      has put the first index back. */
  lemma MixedPairWasRenamed(run: Run, seen: Reads) returns (t: nat)
    requires IsRun(run) && InOrder(seen, |run.events|) && MixesAt(run, seen)
    ensures seen.first <= t < seen.second && RenamesFrom(run, t, run.states[seen.first].descriptor.value.indexDigest)
  {
    t := NewNameWasWritten(run, seen.first, seen.second);
  }

  /** Once the index was replaced in between, a reader at that moment gets the mixed pair. */
  lemma RenamedPairMixes(run: Run, from: nat, first: nat, t: nat, last: nat)
    requires IsRun(run) && from <= first <= t < last < |run.states|
    requires EndsAgree(run.states[first], run.states[last]) && IndexKept(run, from, last)
    requires RenamesFrom(run, t, run.states[first].descriptor.value.indexDigest)
    ensures MixesAt(run, Reads(first, t + 1, t + 1, last))
  {
    assert StepAt(run, t);
    WrittenIndexStays(run, from, t);
    RunIsSound(run, t);
    RunIsSound(run, t + 1);
  }

  /** A publication of another index than the first read names completes between the first and the last read. */
  predicate RenamedBetween(run: Run, first: nat, last: nat)
    requires |run.states| == |run.events| + 1 && first <= last < |run.states|
    requires run.states[first].descriptor.Some?
  {
    exists t | first <= t < last :: RenamesFrom(run, t, run.states[first].descriptor.value.indexDigest)
  }

  /** `load_activation` can return an index that its descriptor does not name only if such a publication completes
      in between, and always if one does and nobody removes the index file from some moment on, at or before the
      first read, at which no publisher was at work. What happened before that moment does not matter. */
  lemma ActivationMixesExactlyWhenRenamed(run: Run, from: nat, first: nat, last: nat)
    requires IsRun(run) && from <= first <= last < |run.states| && EndsAgree(run.states[first], run.states[last])
    ensures CanMix(run, first, last) ==> RenamedBetween(run, first, last)
    ensures IndexKept(run, from, last) ==> (CanMix(run, first, last) <==> RenamedBetween(run, first, last))
  {
    if CanMix(run, first, last) {
      var second, file :| first <= second <= file <= last && MixesAt(run, Reads(first, second, file, last));
      var t := MixedPairWasRenamed(run, Reads(first, second, file, last));
    }
    if IndexKept(run, from, last) && RenamedBetween(run, first, last) {
      var t :| first <= t < last && RenamesFrom(run, t, run.states[first].descriptor.value.indexDigest);
      RenamedPairMixes(run, from, first, t, last);
    }
  }

  // ----- histories written out

  /** Each event is enabled where the earlier ones lead. */
  predicate Plays(scene: nat, disk: Disk, events: seq<Event>)
    decreases |events|
  {
    events == [] ||
    (Enabled(scene, disk, events[0]) && !events[0].LockRepair?
     && Plays(scene, Apply(scene, disk, events[0]), events[1..]))
  }

  function States(scene: nat, disk: Disk, events: seq<Event>): (states: seq<Disk>)
    requires Plays(scene, disk, events)
    ensures |states| == |events| + 1 && states[0] == disk
    decreases |events|
  {
    if events == [] then [disk] else [disk] + States(scene, Apply(scene, disk, events[0]), events[1..])
  }

  function Outcome(scene: nat, disk: Disk, events: seq<Event>): Disk
    requires Plays(scene, disk, events)
  {
    States(scene, disk, events)[|events|]
  }

  lemma {:induction false} StateSteps(scene: nat, disk: Disk, events: seq<Event>, t: nat)
    requires Plays(scene, disk, events) && t < |events|
    ensures var states := States(scene, disk, events);
      Enabled(scene, states[t], events[t]) && !events[t].LockRepair?
          && states[t + 1] == Apply(scene, states[t], events[t])
    decreases |events|
  {
    if t > 0 { StateSteps(scene, Apply(scene, disk, events[0]), events[1..], t - 1); }
  }

  lemma PlayIsRun(scene: nat, events: seq<Event>)
    requires Plays(scene, FRESH, events)
    ensures IsRun(Run(scene, States(scene, FRESH, events), events))
  {
    var run := Run(scene, States(scene, FRESH, events), events);
    forall t | 0 <= t < |events| ensures StepAt(run, t) { StateSteps(scene, FRESH, events, t); }
  }

  lemma {:induction false} PlaysOn(scene: nat, disk: Disk, first: seq<Event>, second: seq<Event>)
    requires Plays(scene, disk, first) && Plays(scene, Outcome(scene, disk, first), second)
    ensures Plays(scene, disk, first + second)
    ensures States(scene, disk, first + second)
            == States(scene, disk, first) + States(scene, Outcome(scene, disk, first), second)[1..]
    decreases |first|
  {
    if first == [] {
      assert [] + second == second;
    } else {
      assert (first + second)[1..] == first[1..] + second;
      PlaysOn(scene, Apply(scene, disk, first[0]), first[1..], second);
    }
  }

  const ADVANCE: seq<Event> := [LockAdvance(0), CommitAdvance]

  lemma AdvancePlays(scene: nat, disk: Disk)
    requires disk.holder.Free? && (disk.descriptor.Some? ==> disk.descriptor.value.generation < GENERATION_MAX)
    ensures Plays(scene, disk, ADVANCE)
    ensures Outcome(scene, disk, ADVANCE) == disk.(descriptor := Some(Invalidation(scene, disk.descriptor, 0)))
  {
    var locked := Apply(scene, disk, LockAdvance(0));
    assert ADVANCE[1..] == [CommitAdvance];
    assert Plays(scene, locked, [CommitAdvance]);
  }

  /** A publication that starts with the given event, uninterrupted. */
  function Publication(start: Event): seq<Event> {
    [start, WriteIndex, WriteSpatial, WriteDescriptor]
  }

  lemma PublicationPlays(scene: nat, disk: Disk, start: Event, d: Descriptor, index: SceneIndex, spatial: SpatialIndex)
    requires Enabled(scene, disk, start) && !start.LockRepair? && ValidDescriptor(Published(d, index, spatial))
    requires Apply(scene, disk, start) == PublishFrom(disk, d, index, spatial)
    ensures Plays(scene, disk, Publication(start))
    ensures Outcome(scene, disk, Publication(start))
            == Disk(Some(Published(d, index, spatial)), Some(index), Some(spatial), Free)
  {
    var events := Publication(start);
    var locked := Apply(scene, disk, start);
    var one := Apply(scene, locked, WriteIndex);
    var two := Apply(scene, one, WriteSpatial);
    var done := Apply(scene, two, WriteDescriptor);
    assert events[1..] == [WriteIndex, WriteSpatial, WriteDescriptor];
    assert events[1..][1..] == [WriteSpatial, WriteDescriptor];
    assert [WriteSpatial, WriteDescriptor][1..] == [WriteDescriptor];
    assert Plays(scene, done, []);
    assert Plays(scene, two, [WriteDescriptor]) && States(scene, two, [WriteDescriptor]) == [two, done];
    assert Plays(scene, one, [WriteSpatial, WriteDescriptor]);
    assert States(scene, one, [WriteSpatial, WriteDescriptor]) == [one, two, done];
    assert Plays(scene, locked, events[1..]) && States(scene, locked, events[1..]) == [locked, one, two, done];
  }

  /** A build under the descriptor on file, uninterrupted. */
  function Rebuild(expected: Descriptor, d: Descriptor, index: SceneIndex, spatial: SpatialIndex): seq<Event> {
    Publication(LockBuild(expected, d, index, spatial))
  }

  lemma RebuildPlays(scene: nat, disk: Disk, d: Descriptor, index: SceneIndex, spatial: SpatialIndex)
    requires disk.descriptor.Some? && disk.holder.Free? && ValidDescriptor(d)
    requires d.scene == disk.descriptor.value.scene && d.generation == disk.descriptor.value.generation
    requires ValidIndex(index, scene, d.generation) && ValidSpatial(spatial, scene, d.generation)
    ensures Plays(scene, disk, Rebuild(disk.descriptor.value, d, index, spatial))
    ensures Outcome(scene, disk, Rebuild(disk.descriptor.value, d, index, spatial))
            == Disk(Some(Published(d, index, spatial)), Some(index), Some(spatial), Free)
  {
    PublicationPlays(scene, disk, LockBuild(disk.descriptor.value, d, index, spatial), d, index, spatial);
  }

  /** A prim count for the descriptor on file, uninterrupted. */
  function Count(expected: Descriptor, primCount: nat): seq<Event> {
    Publication(LockPrimCount(Some(expected), 0, primCount))
  }

  // ----- a mixed pair

  function OneRow(scene: nat): SceneIndex {
    SceneIndex(INDEX_SCHEMA_VERSION, scene, 1,
               [Entry(SceneOrder.Address(scene, SceneOrder.Member(0)), None, 0, None, false, false, None, None, None,
                      None, ChildModel(0, 0), None)])
  }

  function NoPlaces(scene: nat): SpatialIndex {
    SpatialIndex(SPATIAL_SCHEMA_VERSION, scene, 1, [])
  }

  function FirstBuilding(scene: nat): Descriptor {
    Invalidated(scene, 1, 0)
  }

  function FirstPartial(scene: nat): Descriptor {
    FirstBuilding(scene).(state := Partial)
  }

  /** The first generation, built with one index, then with another, then with the first again. */
  function ThereAndBack(scene: nat): seq<Event> {
    var d, x, y, s := FirstPartial(scene), EmptyIndex(scene, 1), OneRow(scene), NoPlaces(scene);
    ADVANCE + Rebuild(FirstBuilding(scene), d, x, s) + Rebuild(Published(d, x, s), d, y, s)
    + Rebuild(Published(d, y, s), d, x, s)
  }

  lemma BuildsPlay(scene: nat, before: seq<Event>, d: Descriptor, index: SceneIndex, spatial: SpatialIndex,
                   read: Descriptor)
    requires Plays(scene, FRESH, before) && Outcome(scene, FRESH, before).descriptor == Some(read)
    requires Outcome(scene, FRESH, before).holder.Free? && ValidDescriptor(d)
    requires d.scene == read.scene && d.generation == read.generation
    requires ValidIndex(index, scene, d.generation) && ValidSpatial(spatial, scene, d.generation)
    ensures var after := before + Rebuild(read, d, index, spatial);
      && Plays(scene, FRESH, after)
      && Outcome(scene, FRESH, after) == Disk(Some(Published(d, index, spatial)), Some(index), Some(spatial), Free)
      && States(scene, FRESH, after)[..|before| + 1] == States(scene, FRESH, before)
  {
    var disk := Outcome(scene, FRESH, before);
    RebuildPlays(scene, disk, d, index, spatial);
    PlaysOn(scene, FRESH, before, Rebuild(read, d, index, spatial));
  }

  /** A reader whose first read comes after the first build, whose index comes after the second and whose last read
      comes after the third is given a descriptor with an index that it does not name. */
  lemma ActivationCanMixIndexes(scene: nat)
    ensures Plays(scene, FRESH, ThereAndBack(scene))
    ensures var run := Run(scene, States(scene, FRESH, ThereAndBack(scene)), ThereAndBack(scene));
      IsRun(run) && |run.events| == 14 && MixesAt(run, Reads(6, 10, 10, 14))
  {
    var d, x, y, s := FirstPartial(scene), EmptyIndex(scene, 1), OneRow(scene), NoPlaces(scene);
    assert ValidIndex(x, scene, 1) && ValidIndex(y, scene, 1) && ValidSpatial(s, scene, 1);
    AdvancePlays(scene, FRESH);
    var one := ADVANCE + Rebuild(FirstBuilding(scene), d, x, s);
    BuildsPlay(scene, ADVANCE, d, x, s, FirstBuilding(scene));
    var two := one + Rebuild(Published(d, x, s), d, y, s);
    BuildsPlay(scene, one, d, y, s, Published(d, x, s));
    var three := two + Rebuild(Published(d, y, s), d, x, s);
    BuildsPlay(scene, two, d, x, s, Published(d, y, s));
    assert three == ThereAndBack(scene);
    PlayIsRun(scene, three);
    var states := States(scene, FRESH, three);
    assert states[10] == States(scene, FRESH, two)[10] == Outcome(scene, FRESH, two);
    assert states[6] == states[..11][6] == States(scene, FRESH, two)[6];
    assert States(scene, FRESH, two)[6] == States(scene, FRESH, two)[..7][6] == Outcome(scene, FRESH, one);
  }

  // ----- the marking of a failed warm, taken apart

  /** The write half of `mark_warm_failure_terminal`, from the descriptor its read half saw. */
  function TerminalWrite(disk: Disk, read: Descriptor): Disk {
    disk.(descriptor := Some(read.(state := FallbackRequired)))
  }

  /** The read half goes on to the write half for a Building descriptor of the failed generation. */
  predicate ReadsForTerminal(run: Run, read: nat, generation: nat)
    requires read < |run.states|
  {
    var d := run.states[read].descriptor;
    d.Some? && d.value.generation == generation && d.value.state.Building?
  }

  predicate AdvancesAt(run: Run, t: nat)
    requires t < |run.events|
  {
    run.events[t].CommitAdvance?
  }

  predicate PublishesAt(run: Run, t: nat)
    requires t < |run.events|
  {
    run.events[t].WriteDescriptor?
  }

  /** Everything that puts another descriptor on file, or none; a marking only changes the state of the one there. */
  predicate Replaces(run: Run, t: nat)
    requires t < |run.events|
  {
    PublishesAt(run, t) || AdvancesAt(run, t) || RemovesAt(run, t)
  }

  predicate Undisturbed(run: Run, read: nat, write: nat)
    requires read <= write <= |run.events|
  {
    forall t | read <= t < write :: !Replaces(run, t)
  }

  predicate ReplacesLast(run: Run, read: nat, write: nat, t: nat)
    requires read <= write <= |run.events|
  {
    read <= t < write && Replaces(run, t) && Undisturbed(run, t + 1, write)
  }

  /** A descriptor as a marking leaves it. */
  function Marked(d: Option<Descriptor>): Option<Descriptor> {
    if d.None? then None else Some(d.value.(state := FallbackRequired))
  }

  lemma {:induction false} OnlyMarksAreMade(run: Run, read: nat, write: nat)
    requires IsRun(run) && read <= write < |run.states| && Undisturbed(run, read, write)
    ensures Marked(run.states[write].descriptor) == Marked(run.states[read].descriptor)
    ensures run.states[write].descriptor == run.states[read].descriptor
            || run.states[write].descriptor == Marked(run.states[read].descriptor)
    decreases write
  {
    if read < write {
      OnlyMarksAreMade(run, read, write - 1);
      assert StepAt(run, write - 1) && !Replaces(run, write - 1);
    }
  }

  /** Either nothing replaces the descriptor in between, or what the last replacement left is there, but for marks. */
  lemma {:induction false} LastReplacementStands(run: Run, read: nat, write: nat)
    requires IsRun(run) && read <= write < |run.states|
    ensures Undisturbed(run, read, write) || exists t: nat :: ReplacesLast(run, read, write, t)
    ensures Undisturbed(run, read, write) ==>
              Marked(run.states[write].descriptor) == Marked(run.states[read].descriptor)
    ensures forall t: nat | ReplacesLast(run, read, write, t) ::
              !Undisturbed(run, read, write)
              && Marked(run.states[write].descriptor) == Marked(run.states[t + 1].descriptor)
    decreases write
  {
    if Undisturbed(run, read, write) {
      OnlyMarksAreMade(run, read, write);
    } else if Replaces(run, write - 1) {
      assert ReplacesLast(run, read, write, write - 1);
    } else {
      LastReplacementStands(run, read, write - 1);
      var t :| ReplacesLast(run, read, write - 1, t);
      assert ReplacesLast(run, read, write, t);
    }
    forall t: nat | ReplacesLast(run, read, write, t)
      ensures Marked(run.states[write].descriptor) == Marked(run.states[t + 1].descriptor)
    {
      OnlyMarksAreMade(run, t + 1, write);
    }
  }

  /** With no publication, advance or removal between its halves, the marking does what the single step does. */
  lemma SplitTerminalizeIsAtomicUndisturbed(run: Run, read: nat, write: nat, generation: nat)
    requires IsRun(run) && read <= write < |run.states| && ReadsForTerminal(run, read, generation)
    requires Undisturbed(run, read, write)
    ensures TerminalWrite(run.states[write], run.states[read].descriptor.value)
            == MarkedTerminal(run.states[write], generation)
  {
    OnlyMarksAreMade(run, read, write);
  }

  /** The split marking leaves the descriptor it read, marked. That differs from the one on file, marked, exactly if
      the last publication, advance or removal between its halves left another descriptor than the one read. */
  lemma SplitTerminalizeTakesBackExactlyWhen(run: Run, read: nat, write: nat)
    requires IsRun(run) && read <= write < |run.states| && run.states[read].descriptor.Some?
    ensures var after := TerminalWrite(run.states[write], run.states[read].descriptor.value);
      && after.descriptor == Marked(run.states[read].descriptor)
      && (after.descriptor != Marked(run.states[write].descriptor)
          <==> exists t: nat :: ReplacesLast(run, read, write, t)
                           && Marked(run.states[t + 1].descriptor) != Marked(run.states[read].descriptor))
  {
    LastReplacementStands(run, read, write);
  }

  lemma {:induction false} GenerationMovedByAdvance(run: Run, read: nat, write: nat)
    requires IsRun(run) && read <= write < |run.states|
    requires KeepsDescriptor(run, read, write) && run.states[read].descriptor.Some?
    ensures run.states[write].descriptor.Some?
    ensures run.states[read].descriptor.value.generation < run.states[write].descriptor.value.generation
            <==> exists t | read <= t < write :: AdvancesAt(run, t)
    decreases write
  {
    GenerationsGoForward(run, read, write);
    if read < write {
      GenerationMovedByAdvance(run, read, write - 1);
      assert StepAt(run, write - 1) && !RemovesAt(run, write - 1);
      RunIsSound(run, write - 1);
      GenerationsGoForward(run, read, write - 1);
      if AdvancesAt(run, write - 1) { assert read <= write - 1 < write; }
    }
  }

  /** Without a removal in between, the split marking brings a dead generation back exactly if an advance committed
      between its halves. */
  lemma SplitTerminalizeGoesBackExactlyWhen(run: Run, read: nat, write: nat)
    requires IsRun(run) && read <= write < |run.states|
    requires KeepsDescriptor(run, read, write) && run.states[read].descriptor.Some?
    ensures run.states[write].descriptor.Some?
    ensures var after := TerminalWrite(run.states[write], run.states[read].descriptor.value);
      after.descriptor.value.generation < run.states[write].descriptor.value.generation
      <==> exists t | read <= t < write :: AdvancesAt(run, t)
  {
    GenerationMovedByAdvance(run, read, write);
  }

  predicate PublishesLast(run: Run, read: nat, write: nat, t: nat)
    requires read <= write <= |run.events|
  {
    read <= t < write && PublishesAt(run, t) && forall k | t < k < write :: !PublishesAt(run, k)
  }

  predicate OneGeneration(run: Run, read: nat, write: nat)
    requires read <= write <= |run.events|
  {
    forall t | read <= t < write :: !RemovesAt(run, t) && !AdvancesAt(run, t)
  }

  lemma {:induction false} LastPublicationStands(run: Run, read: nat, write: nat)
    requires IsRun(run) && read <= write < |run.states| && OneGeneration(run, read, write)
    ensures Marked(run.states[write].descriptor) == Marked(run.states[read].descriptor)
            || exists t: nat :: PublishesLast(run, read, write, t)
    ensures forall t: nat | PublishesLast(run, read, write, t) ::
              run.states[t + 1].descriptor.Some?
              && Marked(run.states[write].descriptor) == Marked(run.states[t + 1].descriptor)
  {
    LastReplacementStands(run, read, write);
    if t: nat :| ReplacesLast(run, read, write, t) {
      assert !RemovesAt(run, t) && !AdvancesAt(run, t);
      forall k | t < k < write ensures !PublishesAt(run, k) { assert !Replaces(run, k); }
      assert PublishesLast(run, read, write, t);
    }
    forall t: nat | PublishesLast(run, read, write, t)
      ensures run.states[t + 1].descriptor.Some?
              && Marked(run.states[write].descriptor) == Marked(run.states[t + 1].descriptor)
    {
      assert StepAt(run, t);
      forall k | t + 1 <= k < write ensures !Replaces(run, k) {
        assert !PublishesAt(run, k) && !RemovesAt(run, k) && !AdvancesAt(run, k);
      }
      assert ReplacesLast(run, read, write, t);
    }
  }

  /** Within one generation, whatever the descriptor read named, the marking takes the index on file, and any repair
      on it, away exactly if the last publication between its halves named another index. */
  lemma SplitTerminalizeLosesPublicationExactlyWhen(run: Run, read: nat, write: nat)
    requires IsRun(run) && read <= write < |run.states| && run.states[read].descriptor.Some?
    requires OneGeneration(run, read, write)
    ensures run.states[write].descriptor.Some?
    ensures var d := run.states[read].descriptor.value;
      TerminalWrite(run.states[write], d).descriptor.value.indexDigest
      != run.states[write].descriptor.value.indexDigest
      <==> exists t: nat :: PublishesLast(run, read, write, t) && RenamesFrom(run, t, d.indexDigest)
  {
    LastPublicationStands(run, read, write);
  }

  /** What a descriptor counts. */
  datatype Counts = Counts(prims: nat, ready: bool, cacheable: nat, cpuBytes: nat, gpuBytes: nat)

  function CountsOf(d: Descriptor): Counts {
    Counts(d.primCount, d.primCountReady, d.cacheableCount, d.estimatedCpuBytes, d.estimatedGpuBytes)
  }

  /** Event `t` publishes other counts than the ones given. */
  predicate Recounts(run: Run, t: nat, counts: Counts)
    requires |run.states| == |run.events| + 1 && t < |run.events|
  {
    PublishesAt(run, t) && run.states[t + 1].descriptor.Some? && CountsOf(run.states[t + 1].descriptor.value) != counts
  }

  /** And it takes the counts on file back exactly if that publication had changed them. */
  lemma SplitTerminalizeTakesCountsBackExactlyWhen(run: Run, read: nat, write: nat)
    requires IsRun(run) && read <= write < |run.states| && run.states[read].descriptor.Some?
    requires OneGeneration(run, read, write)
    ensures run.states[write].descriptor.Some?
    ensures var d := run.states[read].descriptor.value;
      CountsOf(TerminalWrite(run.states[write], d).descriptor.value)
      != CountsOf(run.states[write].descriptor.value)
      <==> exists t: nat :: PublishesLast(run, read, write, t) && Recounts(run, t, CountsOf(d))
  {
    LastPublicationStands(run, read, write);
  }

  /** Such histories: the failed generation read as Building, then advanced past, or built and activatable, when the
      write comes. */
  lemma SplitTerminalizeCanGoBack(scene: nat)
    ensures Plays(scene, FRESH, ADVANCE + ADVANCE)
    ensures var run := Run(scene, States(scene, FRESH, ADVANCE + ADVANCE), ADVANCE + ADVANCE);
      && IsRun(run) && ReadsForTerminal(run, 2, 1)
      && run.states[4].descriptor == Some(Invalidated(scene, 2, 0))
      && TerminalWrite(run.states[4], run.states[2].descriptor.value).descriptor
         == Some(Invalidated(scene, 1, 0).(state := FallbackRequired))
  {
    AdvancePlays(scene, FRESH);
    var disk := Outcome(scene, FRESH, ADVANCE);
    AdvancePlays(scene, disk);
    PlaysOn(scene, FRESH, ADVANCE, ADVANCE);
    PlayIsRun(scene, ADVANCE + ADVANCE);
    assert States(scene, FRESH, ADVANCE + ADVANCE)[2] == disk;
  }

  lemma SplitTerminalizeCanLosePublication(scene: nat)
    ensures var d, x, s := FirstPartial(scene), EmptyIndex(scene, 1), NoPlaces(scene);
      var events := ADVANCE + Rebuild(FirstBuilding(scene), d, x, s);
      && Plays(scene, FRESH, events)
      && var run := Run(scene, States(scene, FRESH, events), events);
      && IsRun(run) && ReadsForTerminal(run, 2, 1)
      && var before := run.states[6];
      && var after := TerminalWrite(before, run.states[2].descriptor.value);
      && LoadActivation(scene, before.descriptor, before.descriptor, before.index, before.descriptor).Some?
      && LoadActivation(scene, after.descriptor, after.descriptor, after.index, after.descriptor).None?
  {
    var d, x, s := FirstPartial(scene), EmptyIndex(scene, 1), NoPlaces(scene);
    AdvancePlays(scene, FRESH);
    var events := ADVANCE + Rebuild(FirstBuilding(scene), d, x, s);
    BuildsPlay(scene, ADVANCE, d, x, s, FirstBuilding(scene));
    PlayIsRun(scene, events);
    assert States(scene, FRESH, events)[2] == States(scene, FRESH, events)[..3][2] == Outcome(scene, FRESH, ADVANCE);
  }

  function NoRows(scene: nat): SceneIndex {
    EmptyIndex(scene, 1)
  }

  /** The first generation after a prim count: still Building, and naming the empty index. */
  function Counted(scene: nat, primCount: nat): Descriptor {
    Published(FirstBuilding(scene).(primCount := primCount, primCountReady := true), NoRows(scene),
              BuildSpatialIndex(NoRows(scene)))
  }

  function CountedDisk(scene: nat, primCount: nat): Disk {
    Disk(Some(Counted(scene, primCount)), Some(NoRows(scene)), Some(BuildSpatialIndex(NoRows(scene))), Free)
  }

  lemma FirstCountPlays(scene: nat, primCount: nat)
    ensures var disk := FRESH.(descriptor := Some(FirstBuilding(scene)));
      && Plays(scene, disk, Count(FirstBuilding(scene), primCount))
      && Outcome(scene, disk, Count(FirstBuilding(scene), primCount)) == CountedDisk(scene, primCount)
  {
    PublicationPlays(scene, FRESH.(descriptor := Some(FirstBuilding(scene))),
                     LockPrimCount(Some(FirstBuilding(scene)), 0, primCount),
                     FirstBuilding(scene).(primCount := primCount, primCountReady := true), NoRows(scene),
                     BuildSpatialIndex(NoRows(scene)));
  }

  lemma NextCountPlays(scene: nat, before: nat, primCount: nat)
    ensures Plays(scene, CountedDisk(scene, before), Count(Counted(scene, before), primCount))
    ensures Outcome(scene, CountedDisk(scene, before), Count(Counted(scene, before), primCount))
            == CountedDisk(scene, primCount)
  {
    assert ValidIndex(NoRows(scene), scene, 1);
    SpatialIndexIsValid(NoRows(scene), scene, 1);
    PublicationPlays(scene, CountedDisk(scene, before), LockPrimCount(Some(Counted(scene, before)), 0, primCount),
                     Counted(scene, before).(primCount := primCount), NoRows(scene), BuildSpatialIndex(NoRows(scene)));
  }

  lemma AdvancedAndCounted(scene: nat, primCount: nat)
    ensures var events := ADVANCE + Count(FirstBuilding(scene), primCount);
      && Plays(scene, FRESH, events) && |events| == 6
      && Outcome(scene, FRESH, events) == CountedDisk(scene, primCount)
  {
    AdvancePlays(scene, FRESH);
    FirstCountPlays(scene, primCount);
    PlaysOn(scene, FRESH, ADVANCE, Count(FirstBuilding(scene), primCount));
  }

  /** Of two prim counts of a failing build, the marking that read between them takes the second one back; the index
      stays, since both name the empty one. */
  lemma SplitTerminalizeCanTakeCountBack(scene: nat)
    ensures var events := ADVANCE + Count(FirstBuilding(scene), 3) + Count(Counted(scene, 3), 4);
      && Plays(scene, FRESH, events)
      && var run := Run(scene, States(scene, FRESH, events), events);
      && IsRun(run) && ReadsForTerminal(run, 6, 1)
      && var after := TerminalWrite(run.states[10], run.states[6].descriptor.value);
      && run.states[10].descriptor == Some(Counted(scene, 4))
      && after.descriptor == Some(Counted(scene, 3).(state := FallbackRequired))
  {
    AdvancedAndCounted(scene, 3);
    var first := ADVANCE + Count(FirstBuilding(scene), 3);
    NextCountPlays(scene, 3, 4);
    PlaysOn(scene, FRESH, first, Count(Counted(scene, 3), 4));
    var events := first + Count(Counted(scene, 3), 4);
    PlayIsRun(scene, events);
    assert States(scene, FRESH, events)[6] == States(scene, FRESH, first)[6];
    assert States(scene, FRESH, events)[10] == Outcome(scene, FRESH, events);
  }

  /** And a marking that read a counted descriptor takes the index of a build after it away. */
  lemma SplitTerminalizeCanLoseBuildAfterCount(scene: nat)
    ensures var events :=
        ADVANCE + Count(FirstBuilding(scene), 3)
        + Rebuild(Counted(scene, 3), FirstPartial(scene), OneRow(scene), NoPlaces(scene));
      && Plays(scene, FRESH, events)
      && var run := Run(scene, States(scene, FRESH, events), events);
      && IsRun(run) && ReadsForTerminal(run, 6, 1)
      && var after := TerminalWrite(run.states[10], run.states[6].descriptor.value);
      && run.states[10].descriptor == Some(Published(FirstPartial(scene), OneRow(scene), NoPlaces(scene)))
      && after.descriptor.value.indexDigest == OfIndex(NoRows(scene))
  {
    AdvancedAndCounted(scene, 3);
    var first := ADVANCE + Count(FirstBuilding(scene), 3);
    assert ValidIndex(OneRow(scene), scene, 1) && ValidSpatial(NoPlaces(scene), scene, 1);
    BuildsPlay(scene, first, FirstPartial(scene), OneRow(scene), NoPlaces(scene), Counted(scene, 3));
    var events := first + Rebuild(Counted(scene, 3), FirstPartial(scene), OneRow(scene), NoPlaces(scene));
    PlayIsRun(scene, events);
    assert States(scene, FRESH, events)[6] == States(scene, FRESH, events)[..7][6] == Outcome(scene, FRESH, first);
  }
}
