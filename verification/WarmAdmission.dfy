/** Cache invalidation on behalf of a mutation or a recovery: every Scene gets its boundary before any warm work
    is admitted, whatever fails. */
module WarmAdmission {
  import opened Wrappers
  import opened WarmKeys
  import opened SceneCache
  import opened SceneProtocol
  import opened SceneStore

  /** Reading a SceneId from target text, and writing one. */
  datatype Names = Names(parse: nat -> Option<nat>, text: nat -> nat)

  ghost predicate TextParsesBack(names: Names) {
    forall scene: nat :: names.parse(names.text(scene)) == Some(scene)
  }

  datatype ProjectRoot = NoRoot | SceneRoot(scene: nat) | ModelRoot(model: nat)

  datatype Manifest = Manifest(root: ProjectRoot, scenes: seq<nat>, models: seq<nat>)

  predicate UniqueScenes(manifest: Manifest) {
    forall i, j | 0 <= i < j < |manifest.scenes| :: manifest.scenes[i] != manifest.scenes[j]
  }

  datatype WarmTarget = WarmTarget(target: TargetKey, generation: Option<nat>, build: nat)

  datatype Prepared = Prepared(target: TargetKey, generation: Option<nat>)

  // ---- Sorting by key and dropping repetitions ----

  predicate TargetLess(left: TargetKey, right: TargetKey) {
    KeyLess(Key(0, left), Key(0, right))
  }

  function Inserted(sorted: seq<TargetKey>, target: TargetKey): seq<TargetKey> {
    if sorted == [] || TargetLess(target, sorted[0]) then [target] + sorted
    else if sorted[0] == target then sorted
    else [sorted[0]] + Inserted(sorted[1..], target)
  }

  function Deduplicated(targets: seq<TargetKey>): seq<TargetKey> {
    if targets == [] then [] else Inserted(Deduplicated(targets[1..]), targets[0])
  }

  predicate Ascends(targets: seq<TargetKey>) {
    forall i, j | 0 <= i < j < |targets| :: TargetLess(targets[i], targets[j])
  }

  lemma {:induction false} InsertedMembers(sorted: seq<TargetKey>, target: TargetKey, t: TargetKey)
    ensures t in Inserted(sorted, target) <==> t in sorted || t == target
  {
    if sorted != [] && !TargetLess(target, sorted[0]) && sorted[0] != target {
      InsertedMembers(sorted[1..], target, t);
      assert sorted == [sorted[0]] + sorted[1..];
    }
  }

  lemma {:induction false} InsertedAscends(sorted: seq<TargetKey>, target: TargetKey)
    requires Ascends(sorted)
    ensures Ascends(Inserted(sorted, target))
    ensures forall t :: t in Inserted(sorted, target) <==> t in sorted || t == target
  {
    forall t ensures t in Inserted(sorted, target) <==> t in sorted || t == target {
      InsertedMembers(sorted, target, t);
    }
    if sorted != [] && !TargetLess(target, sorted[0]) && sorted[0] != target {
      InsertedAscends(sorted[1..], target);
      assert forall t | t in Inserted(sorted[1..], target) :: TargetLess(sorted[0], t);
    }
  }

  /** Each target once, in key order, none lost. */
  lemma {:induction false} DeduplicatedKeepsTargets(targets: seq<TargetKey>)
    ensures Ascends(Deduplicated(targets))
    ensures forall t :: t in Deduplicated(targets) <==> t in targets
  {
    if targets != [] {
      DeduplicatedKeepsTargets(targets[1..]);
      InsertedAscends(Deduplicated(targets[1..]), targets[0]);
      assert targets == [targets[0]] + targets[1..];
    }
  }

  lemma FrontGrows(sorted: seq<TargetKey>, k: nat)
    requires Ascends(sorted) && k < |sorted|
    ensures sorted[..k + 1] == sorted[..k] + [sorted[k]] && sorted[k] !in sorted[..k]
  {
  }

  // ---- Boundaries ----

  /** Nothing on file can be activated: no descriptor, or a Building one that names no index. */
  predicate Closed(scene: nat, disk: Disk) {
    disk.descriptor.Some? ==>
      disk.descriptor.value == Invalidated(scene, disk.descriptor.value.generation, disk.descriptor.value.configHash)
  }

  /** A newer Building generation, or no descriptor. */
  predicate Bounded(scene: nat, before: Disk, after: Disk) {
    after.descriptor.None? || Advanced(scene, before, after)
  }

  /** Behind a boundary no activation succeeds, whatever index file is found. */
  lemma BoundaryStopsActivation(scene: nat, before: Disk, after: Disk, file: Option<SceneIndex>)
    requires Bounded(scene, before, after) || Closed(scene, after)
    ensures LoadActivation(scene, after.descriptor, after.descriptor, file, after.descriptor).None?
  {
  }

  lemma AdvancedTwice(scene: nat, first: Disk, second: Disk, third: Disk)
    requires Advanced(scene, first, second) && Advanced(scene, second, third)
    ensures Advanced(scene, first, third)
  {
  }

  type Scenes = map<nat, Disk>

  predicate TargetClosed(names: Names, after: Scenes, target: TargetKey) {
    target.SceneTarget? ==>
      var scene := names.parse(target.id);
      scene.Some? && Closed(scene.value, Files(after, scene.value))
  }

  predicate TargetBounded(names: Names, before: Scenes, after: Scenes, target: TargetKey) {
    target.SceneTarget? ==>
      var scene := names.parse(target.id);
      scene.Some? && Bounded(scene.value, Files(before, scene.value), Files(after, scene.value))
  }

  predicate TargetAdvanced(names: Names, before: Scenes, after: Scenes, target: TargetKey) {
    target.SceneTarget? ==>
      var scene := names.parse(target.id);
      scene.Some? && Advanced(scene.value, Files(before, scene.value), Files(after, scene.value))
  }

  predicate Targeted(names: Names, targets: seq<TargetKey>, scene: nat) {
    exists t | t in targets :: t.SceneTarget? && names.parse(t.id) == Some(scene)
  }

  ghost predicate OthersUntouched(names: Names, before: Scenes, after: Scenes, targets: seq<TargetKey>) {
    forall scene: nat | !Targeted(names, targets, scene) :: Files(after, scene) == Files(before, scene)
  }

  /** No two texts name one Scene. */
  predicate OneTextPerScene(names: Names, targets: seq<TargetKey>) {
    forall t, u | t in targets && u in targets ::
      t.SceneTarget? && u.SceneTarget? && names.parse(t.id).Some? && names.parse(t.id) == names.parse(u.id) ==> t == u
  }

  /** What a step for one target may do to the files. */
  ghost predicate BoundaryStep(names: Names, before: Scenes, after: Scenes, target: TargetKey) {
    forall scene: nat | !Targeted(names, [target], scene) :: Files(after, scene) == Files(before, scene)
  }

  lemma TargetedBy(names: Names, front: seq<TargetKey>, last: TargetKey, scene: nat)
    ensures Targeted(names, front + [last], scene) <==> Targeted(names, front, scene) || Targeted(names, [last], scene)
  {
    if Targeted(names, front, scene) {
      var t :| t in front && t.SceneTarget? && names.parse(t.id) == Some(scene);
      assert t in front + [last];
    }
    if Targeted(names, [last], scene) { assert last in front + [last]; }
  }

  lemma OthersStayUntouched(names: Names, before: Scenes, middle: Scenes, after: Scenes, front: seq<TargetKey>,
                            last: TargetKey)
    requires OthersUntouched(names, before, middle, front) && BoundaryStep(names, middle, after, last)
    ensures OthersUntouched(names, before, after, front + [last])
  {
    forall scene: nat | !Targeted(names, front + [last], scene) ensures Files(after, scene) == Files(before, scene) {
      TargetedBy(names, front, last, scene);
    }
  }

  /** What a prepared target says of its Scene: the generation now on file. */
  predicate IsCurrent(names: Names, after: Scenes, prepared: Prepared) {
    if !prepared.target.SceneTarget? then prepared.generation == None else
      var scene := names.parse(prepared.target.id);
      && scene.Some? && prepared.generation.Some?
      && Files(after, scene.value).descriptor.Some?
      && Files(after, scene.value).descriptor.value.generation == prepared.generation.value
  }

  ghost predicate Established(names: Names, before: Scenes, after: Scenes, targets: seq<TargetKey>,
                              prepared: seq<Prepared>, failClosed: bool, failed: bool, fatal: bool)
  {
    && OthersUntouched(names, before, after, targets)
    && (!failed ==> forall t | t in targets :: TargetAdvanced(names, before, after, t))
    && (failClosed && !fatal ==> forall t | t in targets :: TargetClosed(names, after, t))
    && (failClosed && !fatal && OneTextPerScene(names, targets) ==>
          forall t | t in targets :: TargetBounded(names, before, after, t))
    && (OneTextPerScene(names, targets) ==> forall p | p in prepared :: IsCurrent(names, after, p))
    && (forall p | p in prepared :: p.target in targets)
    && (!failed ==> |prepared| == |targets| && forall i | 0 <= i < |targets| :: prepared[i].target == targets[i])
    && (fatal ==> failClosed && failed)
    && (!failClosed ==> ScenesGoForward(before, after))
  }

  ghost predicate ScenesGoForward(before: Scenes, after: Scenes) {
    forall scene: nat ::
      Files(after, scene) == Files(before, scene) || Advanced(scene, Files(before, scene), Files(after, scene))
  }

  lemma StepGoesForward(names: Names, before: Scenes, middle: Scenes, after: Scenes, last: TargetKey)
    requires ScenesGoForward(before, middle) && BoundaryStep(names, middle, after, last)
    requires after == middle || TargetAdvanced(names, middle, after, last)
    ensures ScenesGoForward(before, after)
  {
    forall scene: nat ensures Files(after, scene) == Files(before, scene)
                              || Advanced(scene, Files(before, scene), Files(after, scene)) {
      if Targeted(names, [last], scene) && after != middle {
        assert names.parse(last.id) == Some(scene);
        if Files(middle, scene) != Files(before, scene) {
          AdvancedTwice(scene, Files(before, scene), Files(middle, scene), Files(after, scene));
        }
      }
    }
  }

  lemma BoundedLater(scene: nat, first: Disk, second: Disk, third: Disk)
    requires second == first || Advanced(scene, first, second)
    requires Bounded(scene, second, third)
    ensures Bounded(scene, first, third)
  {
  }

  predicate Admitted(recorded: seq<WarmTarget>, targets: seq<TargetKey>) {
    |recorded| == |targets| && forall i | 0 <= i < |targets| :: recorded[i].target == targets[i]
  }

  /** Admitted work is for given targets, carries distinct build numbers, and, when no Scene is given under two
      texts, the generation now on file. */
  predicate AdmittedWell(names: Names, after: Scenes, targets: seq<TargetKey>, firstBuild: nat,
                         admitted: seq<WarmTarget>) {
    && (forall i | 0 <= i < |admitted| :: admitted[i].target in targets && admitted[i].build == firstBuild + i)
    && (OneTextPerScene(names, targets) ==>
          forall i | 0 <= i < |admitted| ::
              IsCurrent(names, after, Prepared(admitted[i].target, admitted[i].generation)))
  }

  predicate RecordedAs(recorded: seq<WarmTarget>, prepared: seq<Prepared>, firstBuild: nat) {
    && |recorded| == |prepared|
    && forall i | 0 <= i < |prepared| ::
         recorded[i] == WarmTarget(prepared[i].target, prepared[i].generation, firstBuild + i)
  }

  lemma RecordedIsAdmitted(names: Names, before: Scenes, after: Scenes, sorted: seq<TargetKey>, targets: seq<TargetKey>,
                           prepared: seq<Prepared>, failClosed: bool, failed: bool, fatal: bool,
                           recorded: seq<WarmTarget>, sender: bool, firstBuild: nat)
    requires Established(names, before, after, sorted, prepared, failClosed, failed, fatal)
    requires forall t :: t in sorted <==> t in targets
    requires RecordedAs(recorded, if sender then prepared else [], firstBuild)
    ensures AdmittedWell(names, after, targets, firstBuild, recorded)
    ensures sender && !failed ==> Admitted(recorded, sorted)
  {
    forall i | 0 <= i < |recorded|
      ensures recorded[i].target in targets && recorded[i].build == firstBuild + i
      ensures OneTextPerScene(names, targets) ==>
                IsCurrent(names, after, Prepared(recorded[i].target, recorded[i].generation))
    {
      assert prepared[i] in prepared;
      assert Prepared(recorded[i].target, recorded[i].generation) == prepared[i];
    }
  }

  lemma AdvancedStays(names: Names, before: Scenes, middle: Scenes, after: Scenes, front: seq<TargetKey>,
                      last: TargetKey, t: TargetKey)
    requires OthersUntouched(names, before, middle, front) && BoundaryStep(names, middle, after, last)
    requires forall u | u in front :: TargetAdvanced(names, before, middle, u)
    requires TargetAdvanced(names, middle, after, last)
    requires t in front + [last]
    ensures TargetAdvanced(names, before, after, t)
  {
    if t.SceneTarget? {
      assert t == last || TargetAdvanced(names, before, middle, t);
      var scene := names.parse(t.id).value;
      if Targeted(names, [last], scene) {
        if Targeted(names, front, scene) {
          var u :| u in front && u.SceneTarget? && names.parse(u.id) == Some(scene);
          assert TargetAdvanced(names, before, middle, u);
          AdvancedTwice(scene, Files(before, scene), Files(middle, scene), Files(after, scene));
        }
      }
    }
  }

  lemma ClosedStays(names: Names, middle: Scenes, after: Scenes, last: TargetKey, t: TargetKey)
    requires BoundaryStep(names, middle, after, last) && TargetClosed(names, after, last)
    requires TargetClosed(names, middle, t)
    ensures TargetClosed(names, after, t)
  {
    if t.SceneTarget? && Targeted(names, [last], names.parse(t.id).value) {
      assert names.parse(t.id) == names.parse(last.id);
    }
  }

  /** Another text is another Scene, so a step for the last target leaves the earlier ones as they were. */
  lemma EarlierSceneIsSame(names: Names, middle: Scenes, after: Scenes, front: seq<TargetKey>, last: TargetKey,
                           t: TargetKey)
    requires OneTextPerScene(names, front + [last]) && last !in front && t in front
    requires BoundaryStep(names, middle, after, last)
    requires t.SceneTarget? && names.parse(t.id).Some?
    ensures Files(after, names.parse(t.id).value) == Files(middle, names.parse(t.id).value)
  {
    assert t in front + [last] && last in front + [last];
  }

  lemma LastSceneIsNew(names: Names, before: Scenes, middle: Scenes, front: seq<TargetKey>, last: TargetKey)
    requires OneTextPerScene(names, front + [last]) && last !in front
    requires OthersUntouched(names, before, middle, front)
    requires last.SceneTarget? && names.parse(last.id).Some?
    ensures Files(middle, names.parse(last.id).value) == Files(before, names.parse(last.id).value)
  {
    var scene := names.parse(last.id).value;
    assert last in front + [last];
    forall t | t in front ensures t in front + [last] && t != last {}
  }

  lemma BoundedGrows(names: Names, before: Scenes, middle: Scenes, after: Scenes, front: seq<TargetKey>,
                     last: TargetKey, t: TargetKey)
    requires OneTextPerScene(names, front + [last]) && last !in front && t in front + [last]
    requires OthersUntouched(names, before, middle, front) && BoundaryStep(names, middle, after, last)
    requires t in front ==> TargetBounded(names, before, middle, t)
    requires TargetBounded(names, middle, after, last)
    ensures TargetBounded(names, before, after, t)
  {
    if t.SceneTarget? {
      if t in front {
        EarlierSceneIsSame(names, middle, after, front, last, t);
      } else {
        LastSceneIsNew(names, before, middle, front, last);
      }
    }
  }

  lemma CurrentStays(names: Names, middle: Scenes, after: Scenes, front: seq<TargetKey>, last: TargetKey, p: Prepared)
    requires OneTextPerScene(names, front + [last]) && last !in front && p.target in front
    requires BoundaryStep(names, middle, after, last) && IsCurrent(names, middle, p)
    ensures IsCurrent(names, after, p)
  {
    if p.target.SceneTarget? { EarlierSceneIsSame(names, middle, after, front, last, p.target); }
  }

  lemma FrontHasOneText(names: Names, front: seq<TargetKey>, last: TargetKey)
    requires OneTextPerScene(names, front + [last])
    ensures OneTextPerScene(names, front)
  {
    forall t, u | t in front && u in front
      ensures t in front + [last] && u in front + [last] {}
  }

  lemma EstablishedGrows(names: Names, before: Scenes, middle: Scenes, after: Scenes, front: seq<TargetKey>,
                         last: Prepared,
                         prepared: seq<Prepared>, failClosed: bool, failed: bool, fatal: bool, badly: bool,
                         fatally: bool)
    requires Established(names, before, middle, front, prepared, failClosed, failed, fatal)
    requires BoundaryStep(names, middle, after, last.target) && last.target !in front
    requires !badly ==> !fatally && TargetAdvanced(names, middle, after, last.target) && IsCurrent(names, after, last)
    requires failClosed && !fatally ==>
               TargetBounded(names, middle, after, last.target) && TargetClosed(names, after, last.target)
    requires !failClosed ==> !fatally && (badly ==> after == middle)
    ensures Established(names, before, after, front + [last.target], if badly then prepared else prepared + [last],
                        failClosed, failed || badly, fatal || fatally)
  {
    var target := last.target;
    var grown := front + [target];
    OthersStayUntouched(names, before, middle, after, front, target);
    if !failClosed { StepGoesForward(names, before, middle, after, target); }
    if !failed && !badly {
      forall t | t in grown ensures TargetAdvanced(names, before, after, t) {
        AdvancedStays(names, before, middle, after, front, target, t);
      }
    }
    if failClosed && !fatal && !fatally {
      forall t | t in grown ensures TargetClosed(names, after, t) {
        if t in front { ClosedStays(names, middle, after, target, t); }
      }
    }
    if OneTextPerScene(names, grown) {
      FrontHasOneText(names, front, target);
      if failClosed && !fatal && !fatally {
        forall t | t in grown ensures TargetBounded(names, before, after, t) {
          BoundedGrows(names, before, middle, after, front, target, t);
        }
      }
      forall p | p in prepared ensures IsCurrent(names, after, p) {
        CurrentStays(names, middle, after, front, target, p);
      }
    }
  }

  /** What the boundary phase leaves behind, for targets in any order. */
  ghost predicate Secured(names: Names, before: Scenes, after: Scenes, targets: seq<TargetKey>,
                          failClosed: bool, failed: bool, fatal: bool)
  {
    && OthersUntouched(names, before, after, targets)
    && (!failClosed ==> ScenesGoForward(before, after))
    && (!failed ==> forall t | t in targets :: TargetAdvanced(names, before, after, t))
    && (failClosed && !fatal ==> forall t | t in targets :: TargetClosed(names, after, t))
    && (failClosed && !fatal && OneTextPerScene(names, targets) ==>
          forall t | t in targets :: TargetBounded(names, before, after, t))
  }

  lemma EstablishedIsSecured(names: Names, before: Scenes, after: Scenes, sorted: seq<TargetKey>,
                             targets: seq<TargetKey>,
                             prepared: seq<Prepared>, failClosed: bool, failed: bool, fatal: bool)
    requires Established(names, before, after, sorted, prepared, failClosed, failed, fatal)
    requires forall t :: t in sorted <==> t in targets
    ensures Secured(names, before, after, targets, failClosed, failed, fatal)
  {
    forall scene: nat ensures Targeted(names, targets, scene) <==> Targeted(names, sorted, scene) {
      if Targeted(names, targets, scene) {
        var t :| t in targets && t.SceneTarget? && names.parse(t.id) == Some(scene);
        assert t in sorted;
      }
      if Targeted(names, sorted, scene) {
        var t :| t in sorted && t.SceneTarget? && names.parse(t.id) == Some(scene);
        assert t in targets;
      }
    }
  }

  // ---- A Scene under several texts ----

  predicate IsOf(names: Names, target: TargetKey, scene: nat) {
    target.SceneTarget? && names.parse(target.id) == Some(scene)
  }

  /** A boundary that holds: the Scene is advanced by one, or nothing of it is left. */
  ghost predicate BoundaryTaken(names: Names, before: Scenes, after: Scenes, target: TargetKey, config: nat) {
    && BoundaryStep(names, before, after, target)
    && (target.SceneTarget? ==>
          && names.parse(target.id).Some?
          && var scene := names.parse(target.id).value;
          && var d := Files(before, scene);
          || Files(after, scene) == d.(descriptor := Some(Invalidation(scene, d.descriptor, config)))
          || Files(after, scene) == FRESH)
  }

  /** The files before and after each boundary. */
  ghost predicate Trace(names: Names, trace: seq<Scenes>, targets: seq<TargetKey>, config: nat) {
    |trace| == |targets| + 1
    && forall i | 0 <= i < |targets| :: BoundaryTaken(names, trace[i], trace[i + 1], targets[i], config)
  }

  ghost predicate Traced(names: Names, before: Scenes, after: Scenes, targets: seq<TargetKey>, config: nat) {
    exists trace :: Trace(names, trace, targets, config) && trace[0] == before && trace[|targets|] == after
  }

  lemma TraceGrows(names: Names, trace: seq<Scenes>, targets: seq<TargetKey>, config: nat, target: TargetKey,
                   after: Scenes)
    requires Trace(names, trace, targets, config)
    requires BoundaryTaken(names, trace[|targets|], after, target, config)
    ensures Trace(names, trace + [after], targets + [target], config)
  {
  }

  lemma TracedGrows(names: Names, before: Scenes, middle: Scenes, after: Scenes, front: seq<TargetKey>,
                    target: TargetKey, config: nat)
    requires Traced(names, before, middle, front, config) && BoundaryTaken(names, middle, after, target, config)
    ensures Traced(names, before, after, front + [target], config)
  {
    var trace :| Trace(names, trace, front, config) && trace[0] == before && trace[|front|] == middle;
    TraceGrows(names, trace, front, config, target, after);
    assert (trace + [after])[|front| + 1] == after;
  }

  lemma NothingTraced(names: Names, scenes: Scenes, config: nat)
    ensures Traced(names, scenes, scenes, [], config)
  {
    assert Trace(names, [scenes], [], config);
  }

  /** How often a Scene was advanced since a boundary last removed it, if one did. */
  function SinceRemoval(names: Names, trace: seq<Scenes>, targets: seq<TargetKey>, scene: nat, n: nat): Option<nat>
    requires |trace| == |targets| + 1 && n <= |targets|
  {
    if n == 0 then None
    else
      var k := SinceRemoval(names, trace, targets, scene, n - 1);
      if !IsOf(names, targets[n - 1], scene) then k
      else if Files(trace[n], scene).descriptor.None? then Some(0)
      else if k.None? then None
      else Some(k.value + 1)
  }

  lemma {:induction false} OnFile(names: Names, trace: seq<Scenes>, targets: seq<TargetKey>, config: nat, scene: nat,
                                  n: nat)
    requires Trace(names, trace, targets, config) && n <= |targets|
    ensures var k := SinceRemoval(names, trace, targets, scene, n);
      var first, now := Files(trace[0], scene), Files(trace[n], scene);
      if k.None? then Advanced(scene, first, now)
          || (now == first && forall i | 0 <= i < n :: !IsOf(names, targets[i], scene))
      else if k.value == 0 then now.descriptor.None?
      else now.descriptor == Some(Invalidated(scene, k.value, config))
  {
    if n > 0 {
      OnFile(names, trace, targets, config, scene, n - 1);
      assert BoundaryTaken(names, trace[n - 1], trace[n], targets[n - 1], config);
      if !IsOf(names, targets[n - 1], scene) {
        assert !Targeted(names, [targets[n - 1]], scene);
      }
    }
  }

  /** A Scene that is targeted, under however many texts, ends at a newer generation or without a descriptor exactly if
      no boundary removed it, the last one did, it had no descriptor to begin with, or the advances since the last
      removal outnumber the generations it had. */
  lemma BoundedExactlyWhen(names: Names, trace: seq<Scenes>, targets: seq<TargetKey>, config: nat, scene: nat)
    requires Trace(names, trace, targets, config) && Targeted(names, targets, scene)
    ensures var since := SinceRemoval(names, trace, targets, scene, |targets|);
      var first := Files(trace[0], scene);
      Bounded(scene, first, Files(trace[|targets|], scene)) <==>
        since.None? || since.value == 0 || first.descriptor.None? || since.value > first.descriptor.value.generation
  {
    OnFile(names, trace, targets, config, scene, |targets|);
    var t :| t in targets && t.SceneTarget? && names.parse(t.id) == Some(scene);
    var i :| 0 <= i < |targets| && targets[i] == t;
    assert IsOf(names, targets[i], scene);
  }

  const TWO_TEXTS: Names := Names((text: nat) => if text == 1 || text == 2 then Some(0) else None, (scene: nat) => 1)

  function AtGeneration(generation: nat): Scenes {
    map[0 := FRESH.(descriptor := Some(Invalidated(0, generation, 0)))]
  }

  const GONE: Scenes := map[0 := FRESH]

  /** The first text's advance fails and the Scene is removed; the second text then starts it again at the first
      generation, below the one it had. */
  lemma TwoTextsCanFallBack()
    ensures var trace, targets := [AtGeneration(5), GONE, AtGeneration(1)], [SceneTarget(1), SceneTarget(2)];
      && Trace(TWO_TEXTS, trace, targets, 0) && Deduplicated(targets) == targets
      && !Bounded(0, Files(trace[0], 0), Files(trace[2], 0))
  {
    var trace, targets := [AtGeneration(5), GONE, AtGeneration(1)], [SceneTarget(1), SceneTarget(2)];
    assert targets[1..] == [SceneTarget(2)] && targets[1..][1..] == [];
    assert Deduplicated([SceneTarget(2)]) == [SceneTarget(2)];
    forall i | 0 <= i < 2 ensures BoundaryTaken(TWO_TEXTS, trace[i], trace[i + 1], targets[i], 0) {
      assert targets[i] in [targets[i]];
      assert Targeted(TWO_TEXTS, [targets[i]], 0);
    }
  }

  // ---- The targets of a Project ----

  function ProjectTargets(names: Names, manifest: Manifest): seq<TargetKey> {
    (if manifest.root.NoRoot? then [] else [ProjectRootTarget])
    + seq(|manifest.scenes|, i requires 0 <= i < |manifest.scenes| => SceneTarget(names.text(manifest.scenes[i])))
    + seq(|manifest.models|, i requires 0 <= i < |manifest.models| => ModelTarget(manifest.models[i]))
  }

  lemma SceneIsTargeted(names: Names, manifest: Manifest, scene: nat)
    requires scene in manifest.scenes
    ensures SceneTarget(names.text(scene)) in ProjectTargets(names, manifest)
  {
    var i :| 0 <= i < |manifest.scenes| && manifest.scenes[i] == scene;
    var root: seq<TargetKey> := if manifest.root.NoRoot? then [] else [ProjectRootTarget];
    assert ProjectTargets(names, manifest)[|root| + i] == SceneTarget(names.text(scene));
  }

  // ---- When nothing fails ----

  /** A target that no failure outside the files keeps from its boundary. */
  predicate CanTake(names: Names, scenes: Scenes, target: TargetKey) {
    target.SceneTarget? ==>
      names.parse(target.id).Some?
      && CanAdvance(names.parse(target.id).value, Files(scenes, names.parse(target.id).value))
  }

  ghost predicate AllCanTake(names: Names, scenes: Scenes, targets: seq<TargetKey>) {
    OneTextPerScene(names, targets) && forall t | t in targets :: CanTake(names, scenes, t)
  }

  /** The boundaries of other targets do not keep one from its own. */
  lemma StillCanTake(names: Names, before: Scenes, now: Scenes, sorted: seq<TargetKey>, k: nat)
    requires AllCanTake(names, before, sorted) && k < |sorted| && sorted[k] !in sorted[..k]
    requires OthersUntouched(names, before, now, sorted[..k])
    ensures CanTake(names, now, sorted[k])
  {
    assert sorted[k] in sorted && CanTake(names, before, sorted[k]);
    if sorted[k].SceneTarget? {
      var scene := names.parse(sorted[k].id).value;
      if Targeted(names, sorted[..k], scene) {
        var t :| t in sorted[..k] && t.SceneTarget? && names.parse(t.id) == Some(scene);
        assert t in sorted;
      }
    }
  }

  /** A Project's targets are its root, if it has one, its Scenes and its Models. */
  lemma ProjectTargetsExactly(names: Names, manifest: Manifest, target: TargetKey)
    ensures target in ProjectTargets(names, manifest) <==>
            match target
            case ProjectRootTarget => manifest.root != NoRoot
            case SceneTarget(id) => exists scene | scene in manifest.scenes :: names.text(scene) == id
            case ModelTarget(id) => id in manifest.models
  {
    var root: seq<TargetKey> := if manifest.root.NoRoot? then [] else [ProjectRootTarget];
    var n, all := |root| + |manifest.scenes|, ProjectTargets(names, manifest);
    if target.SceneTarget? {
      if scene :| scene in manifest.scenes && names.text(scene) == target.id {
        SceneIsTargeted(names, manifest, scene);
      }
      if target in all {
        var i :| 0 <= i < |all| && all[i] == target;
        assert manifest.scenes[i - |root|] in manifest.scenes;
      }
    } else if target.ModelTarget? {
      if target.id in manifest.models {
        var i :| 0 <= i < |manifest.models| && manifest.models[i] == target.id;
        assert all[n + i] == target;
      }
    } else if manifest.root != NoRoot {
      assert all[0] == ProjectRootTarget;
    }
  }

  class ProjectCacheWarmQueue {
    const store: SceneCacheStore
    const names: Names
    var sender: bool
    var nextBuild: nat
    var recorded: seq<WarmTarget>
    var cancelled: seq<TargetKey>

    constructor (store: SceneCacheStore, names: Names)
      ensures this.store == store && this.names == names
      ensures sender && nextBuild == 1 && recorded == [] && cancelled == []
    {
      this.store, this.names := store, names;
      sender, nextBuild, recorded, cancelled := true, 1, [], [];
    }

    /** Removal of all derived state of a target. The legacy descriptors and the published lookup are other files
        whose updates may fail. */
    method RemoveTargetDescriptors(target: TargetKey) returns (ok: bool)
      requires Quiet(store.scenes)
      modifies this`cancelled, store
      ensures Quiet(store.scenes) && cancelled == old(cancelled) + [target]
      ensures BoundaryStep(names, old(store.scenes), store.scenes, target)
      ensures ok && target.SceneTarget? ==>
                names.parse(target.id).Some? && Files(store.scenes, names.parse(target.id).value) == FRESH
      ensures target.SceneTarget? && names.parse(target.id).Some? && !ok ==>
                var scene := names.parse(target.id).value;
                PartlyRemoved(Files(old(store.scenes), scene), Files(store.scenes, scene))
      ensures store.reliable ==> (ok <==> !(target.SceneTarget? && names.parse(target.id).None?))
    {
      cancelled := cancelled + [target];
      if target.SceneTarget? && names.parse(target.id).None? { return false; }
      if !store.reliable { if * { return false; } }
      if target.SceneTarget? {
        var removed := store.RemoveScene(names.parse(target.id).value);
        assert Targeted(names, [target], names.parse(target.id).value);
        if removed.Err? { return false; }
        if !store.reliable { if * { return false; } }
      }
      return true;
    }

    /** The boundary of one Scene target: advance it, or, when failing closed, remove what is on file. */
    method EstablishBoundary(target: TargetKey, config: nat, failClosed: bool)
      returns (failed: bool, fatal: bool, generation: Option<nat>)
      requires Quiet(store.scenes)
      modifies this`cancelled, store
      ensures Quiet(store.scenes)
      ensures BoundaryStep(names, old(store.scenes), store.scenes, target)
      ensures !failed ==> !fatal && TargetAdvanced(names, old(store.scenes), store.scenes, target)
                          && IsCurrent(names, store.scenes, Prepared(target, generation))
      ensures failed ==> target.SceneTarget? && (!failClosed ==> store.scenes == old(store.scenes))
      ensures failClosed && !fatal ==> TargetBounded(names, old(store.scenes), store.scenes, target)
                                       && TargetClosed(names, store.scenes, target)
      ensures failClosed && target.SceneTarget? && names.parse(target.id).None? ==> fatal
      ensures failClosed && !fatal ==> BoundaryTaken(names, old(store.scenes), store.scenes, target, config)
      ensures !failClosed ==> !fatal
      ensures store.reliable ==> (failed <==> !CanTake(names, old(store.scenes), target))
    {
      if !target.SceneTarget? { return false, false, None; }
      var scene := names.parse(target.id);
      if scene.None? { return true, failClosed, None; }
      assert Targeted(names, [target], scene.value);
      var advanced := store.AdvanceGeneration(scene.value, config);
      if advanced.Ok? { return false, false, Some(advanced.value); }
      if failClosed {
        var removed := RemoveTargetDescriptors(target);
        return true, !removed, None;
      }
      return true, false, None;
    }

    method EstablishNext(ghost before: Scenes, ghost sorted: seq<TargetKey>, ghost front: seq<TargetKey>,
                         target: TargetKey, config: nat, failClosed: bool, failed: bool, fatal: bool,
                         prepared: seq<Prepared>)
      returns (nowFailed: bool, nowFatal: bool, nowPrepared: seq<Prepared>)
      requires front + [target] <= sorted
      requires failClosed && !fatal ==> Traced(names, before, store.scenes, front, config)
      requires Quiet(store.scenes) && target !in front
      requires Established(names, before, store.scenes, front, prepared, failClosed, failed, fatal)
      modifies this`cancelled, store
      ensures Quiet(store.scenes)
      ensures Established(names, before, store.scenes, front + [target], nowPrepared, failClosed, nowFailed, nowFatal)
      ensures failClosed && !nowFatal ==> Traced(names, before, store.scenes, front + [target], config)
      ensures store.reliable && !failed && AllCanTake(names, before, sorted) ==> !nowFailed
    {
      if AllCanTake(names, before, sorted) {
        assert sorted[..|front|] == front && sorted[|front|] == (front + [target])[|front|] == target;
        StillCanTake(names, before, store.scenes, sorted, |front|);
      }
      var badly, fatally, generation := EstablishBoundary(target, config, failClosed);
      EstablishedGrows(names, before, old(store.scenes), store.scenes, front, Prepared(target, generation), prepared,
                       failClosed, failed, fatal, badly, fatally);
      nowFailed, nowFatal := failed || badly, fatal || fatally;
      nowPrepared := if badly then prepared else prepared + [Prepared(target, generation)];
      if failClosed && !nowFatal { TracedGrows(names, before, old(store.scenes), store.scenes, front, target, config); }
    }

    method EstablishAll(sorted: seq<TargetKey>, config: nat, failClosed: bool)
      returns (failed: bool, fatal: bool, prepared: seq<Prepared>)
      requires Quiet(store.scenes) && Ascends(sorted)
      modifies this`cancelled, store
      ensures Quiet(store.scenes)
      ensures Established(names, old(store.scenes), store.scenes, sorted, prepared, failClosed, failed, fatal)
      ensures failClosed && !fatal ==> Traced(names, old(store.scenes), store.scenes, sorted, config)
      ensures store.reliable && AllCanTake(names, old(store.scenes), sorted) ==> !failed
    {
      failed, fatal, prepared := false, false, [];
      NothingTraced(names, store.scenes, config);
      for k := 0 to |sorted|
        invariant Quiet(store.scenes)
        invariant Established(names, old(store.scenes), store.scenes, sorted[..k], prepared, failClosed, failed, fatal)
        invariant failClosed && !fatal ==> Traced(names, old(store.scenes), store.scenes, sorted[..k], config)
        invariant store.reliable && AllCanTake(names, old(store.scenes), sorted) ==> !failed
      {
        FrontGrows(sorted, k);
        failed, fatal, prepared :=
          EstablishNext(old(store.scenes), sorted, sorted[..k], sorted[k], config, failClosed, failed, fatal, prepared);
      }
      assert sorted[..|sorted|] == sorted;
    }

    /** The first phase: a boundary for every target, none of them admitted yet. */
    method Secure(targets: seq<TargetKey>, config: nat, failClosed: bool)
      returns (failed: bool, fatal: bool, prepared: seq<Prepared>)
      requires Quiet(store.scenes)
      modifies this`cancelled, store
      ensures Quiet(store.scenes) && (fatal ==> failClosed && failed)
      ensures Secured(names, old(store.scenes), store.scenes, targets, failClosed, failed, fatal)
      ensures failClosed && !fatal ==> Traced(names, old(store.scenes), store.scenes, Deduplicated(targets), config)
      ensures forall admitted, firstBuild: nat | RecordedAs(admitted, prepared, firstBuild) ::
                AdmittedWell(names, store.scenes, targets, firstBuild, admitted)
                && (!failed ==> Admitted(admitted, Deduplicated(targets)))
      ensures store.reliable && AllCanTake(names, old(store.scenes), targets) ==> !failed
    {
      DeduplicatedKeepsTargets(targets);
      var sorted := Deduplicated(targets);
      failed, fatal, prepared := EstablishAll(sorted, config, failClosed);
      EstablishedIsSecured(names, old(store.scenes), store.scenes, sorted, targets, prepared, failClosed, failed,
                           fatal);
      forall admitted, firstBuild: nat | RecordedAs(admitted, prepared, firstBuild)
        ensures AdmittedWell(names, store.scenes, targets, firstBuild, admitted)
                && (!failed ==> Admitted(admitted, Deduplicated(targets)))
      {
        RecordedIsAdmitted(names, old(store.scenes), store.scenes, sorted, targets, prepared, failClosed, failed, fatal,
                           admitted, true, firstBuild);
      }
    }

    /** Every boundary before any admission: a fatal failure, or any failure when failing closed, admits nothing. */
    method EnqueueTargetsInner(targets: seq<TargetKey>, config: nat, failClosed: bool) returns (r: Result<bool, ()>)
      requires Quiet(store.scenes)
      modifies this, store
      ensures Quiet(store.scenes) && sender == old(sender) && old(recorded) <= recorded
      ensures r.Err? ==> failClosed && recorded == old(recorded)
      ensures OthersUntouched(names, old(store.scenes), store.scenes, targets)
      ensures !failClosed ==> ScenesGoForward(old(store.scenes), store.scenes)
      ensures failClosed && r.Ok? ==> forall t | t in targets :: TargetClosed(names, store.scenes, t)
      ensures failClosed && r.Ok? && OneTextPerScene(names, targets) ==>
                forall t | t in targets :: TargetBounded(names, old(store.scenes), store.scenes, t)
      ensures failClosed && r.Ok? ==> Traced(names, old(store.scenes), store.scenes, Deduplicated(targets), config)
      ensures failClosed && recorded != old(recorded) ==>
                forall t | t in targets :: TargetAdvanced(names, old(store.scenes), store.scenes, t)
      ensures r == Ok(true) ==>
                && sender
                && (forall t | t in targets :: TargetAdvanced(names, old(store.scenes), store.scenes, t))
                && Admitted(recorded[|old(recorded)|..], Deduplicated(targets))
      ensures AdmittedWell(names, store.scenes, targets, old(nextBuild), recorded[|old(recorded)|..])
      ensures store.reliable && AllCanTake(names, old(store.scenes), targets) ==>
                r.Ok? && (sender ==> Admitted(recorded[|old(recorded)|..], Deduplicated(targets)))
    {
      var accepted := sender;
      var failed, fatal, prepared := Secure(targets, config, failClosed);
      if fatal { return Err(()); }
      if failClosed && failed { return Ok(false); }
      var sent := RecordAll(prepared);
      return Ok(accepted && !failed && sent);
    }

    /** Hands each prepared target to the scheduler, which may refuse it. */
    method RecordAll(prepared: seq<Prepared>) returns (accepted: bool)
      modifies this`recorded, this`nextBuild
      ensures nextBuild == old(nextBuild) + |prepared| && old(recorded) <= recorded
      ensures RecordedAs(recorded[|old(recorded)|..], if sender then prepared else [], old(nextBuild))
    {
      accepted := true;
      for k := 0 to |prepared|
        invariant nextBuild == old(nextBuild) + k && old(recorded) <= recorded
        invariant RecordedAs(recorded[|old(recorded)|..], if sender then prepared[..k] else [], old(nextBuild))
      {
        var warm := WarmTarget(prepared[k].target, prepared[k].generation, nextBuild);
        nextBuild := nextBuild + 1;
        if sender {
          recorded := recorded + [warm];
          if * { accepted := false; }
        }
      }
      assert prepared[..|prepared|] == prepared;
    }

    method EnqueueProjectTargets(manifest: Manifest, config: nat) returns (ok: bool)
      requires Quiet(store.scenes) && TextParsesBack(names)
      modifies this, store
      ensures Quiet(store.scenes) && sender == old(sender)
      ensures ScenesGoForward(old(store.scenes), store.scenes)
      ensures ok ==> forall scene | scene in manifest.scenes ::
                Advanced(scene, Files(old(store.scenes), scene), Files(store.scenes, scene))
      ensures old(recorded) <= recorded
      ensures ok ==> sender && Admitted(recorded[|old(recorded)|..], Deduplicated(ProjectTargets(names, manifest)))
    {
      if !store.reliable { if * { return false; } }
      var r := EnqueueTargetsInner(ProjectTargets(names, manifest), config, false);
      ok := r.Ok? && r.value;
      if ok {
        forall scene | scene in manifest.scenes
          ensures Advanced(scene, Files(old(store.scenes), scene), Files(store.scenes, scene))
        {
          SceneIsTargeted(names, manifest, scene);
          assert TargetAdvanced(names, old(store.scenes), store.scenes, SceneTarget(names.text(scene)));
        }
      }
    }

    /** Recovery after a committed Project could not be classified. */
    method EnqueueProjectTargetsFailClosed(manifest: Manifest, config: nat) returns (safe: bool)
      requires Quiet(store.scenes) && TextParsesBack(names) && UniqueScenes(manifest)
      modifies this, store
      ensures Quiet(store.scenes)
      ensures safe ==> forall scene | scene in manifest.scenes ::
                Bounded(scene, Files(old(store.scenes), scene), Files(store.scenes, scene))
      ensures store.reliable ==> safe
    {
      var enqueued := EnqueueProjectTargets(manifest, config);
      if enqueued { return true; }
      if * {
        var removed := store.RemoveAllDerivedCache();
        return removed.Ok?;
      }
      safe := true;
      ghost var before := store.scenes;
      for k := 0 to |manifest.scenes|
        invariant Quiet(store.scenes) && (store.reliable ==> safe)
        invariant forall i | k <= i < |manifest.scenes| ::
                    Files(store.scenes, manifest.scenes[i]) == Files(before, manifest.scenes[i])
        invariant safe ==> forall i | 0 <= i < k ::
                    Bounded(manifest.scenes[i], Files(before, manifest.scenes[i]),
                            Files(store.scenes, manifest.scenes[i]))
      {
        var scene := manifest.scenes[k];
        var advanced := store.AdvanceGeneration(scene, config);
        if advanced.Err? {
          var removed := RemoveTargetDescriptors(SceneTarget(names.text(scene)));
          assert forall other: nat :: Targeted(names, [SceneTarget(names.text(scene))], other) ==> other == scene;
          if !removed { safe := false; }
        }
      }
      if safe {
        forall scene | scene in manifest.scenes
          ensures Bounded(scene, Files(old(store.scenes), scene), Files(store.scenes, scene))
        {
          BoundedLater(scene, Files(old(store.scenes), scene), Files(before, scene), Files(store.scenes, scene));
        }
      }
    }
  }
}
