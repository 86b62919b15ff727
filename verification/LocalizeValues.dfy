/** The same for whole values: clip sets, and every nesting of values. */
module LocalizeValues {
  import opened Wrappers
  import opened AssetPaths
  import opened ClosureValue
  import opened Localize
  import opened LocalizeTheorems

  // ---- Clip templates ----

  lemma {:induction false} HashStepIsLast(steps: seq<string>)
    requires steps != [] && HasHash(Last(steps)) && forall i | 0 <= i < |steps| - 1 :: !HasHash(steps[i])
    ensures HashStep(steps) == Some(|steps| - 1)
    decreases |steps|
  {
    if |steps| > 1 { HashStepIsLast(steps[1..]); }
  }

  lemma TemplateName(template: Asset)
    requires IsTemplate(template.steps) && HashInName(template)
    ensures PlainStep(Last(template.steps)) && HasHash(Last(template.steps))
    ensures !HasHash(AfterRun(Last(template.steps)))
  {
  }

  lemma UpsHaveNoHash(n: nat)
    ensures HashStep(Ups(n)).None?
  {
    assert forall i | 0 <= i < n :: !HasHash(Ups(n)[i]);
    HashStepIsNone(Ups(n));
  }

  lemma HashStepIsNone(steps: seq<string>)
    requires forall step | step in steps :: !HasHash(step)
    ensures HashStep(steps).None?
  {
  }

  lemma UpFromBelow(base: Path, target: Path)
    requires target <= base
    ensures RelativeSteps(base, target) == Ups(|base| - |target|)
  {
    CommonCovers(target, base, target);
    assert Common(base, target) == |target|;
    assert target[|target|..] == [];
  }

  /** In the copy, the rewritten template names the file in the directory; it is a template of the same name exactly
      if no directory on its way has marks of its own. */
  lemma LocalTemplate(m: Move, disk: set<Path>, template: Asset, files: set<Path>, directory: Path, local: Asset)
    requires Sound(m, disk) && files != {} && GoTo(m.mapping, files, directory)
    requires IsTemplate(template.steps) && HashInName(template)
    requires AuthoredRelative(m.localized, directory + [Last(template.steps)]).Some?
    requires local == AuthoredRelative(m.localized, directory + [Last(template.steps)]).value.(inner := template.inner)
    ensures HashInName(local) ==> IsTemplate(local.steps) && NamesIn(m, local, Last(template.steps), directory)
    ensures !HashInName(local) ==> !IsTemplate(local.steps)
  {
    var base, name := Parent(m.localized), Last(template.steps);
    TemplateName(template);
    if directory + [name] <= base {
      UpFromBelow(base, directory + [name]);
      UpsHaveNoHash(|base| - |directory + [name]|);
    } else {
      PatternIsAuthored(m, disk, files, directory, name);
      OwnNameDecides(local, name);
    }
  }

  /** A path whose last step has one run of marks is a template exactly if no earlier step has any. */
  lemma OwnNameDecides(local: Asset, name: string)
    requires local.steps != [] && Last(local.steps) == name && HasHash(name) && !HasHash(AfterRun(name))
    ensures HashInName(local) <==> IsTemplate(local.steps)
  {
    var last := |local.steps| - 1;
    assert local.steps[last] == name;
  }

  lemma NumberedIsRenamed(numbering: Numbering, template: Asset, time: int)
    requires IsTemplate(template.steps) && HashInName(template)
    ensures Numbered(numbering, template, time)
            == Renamed(template, NumberedName(numbering, Last(template.steps), time))
  {
  }

  /** One file of a template's expansion. */
  lemma NumberedIsCarried(m: Move, disk: set<Path>, original: Asset, file: Path, directory: Path, local: Asset)
    requires Sound(m, disk) && Single(Resolve(m.find, m.original, original), file)
    requires GoTo(m.mapping, {file}, directory) && NamesIn(m, local, Last(original.steps), directory)
    requires local.inner == original.inner
    ensures AssetCarried(m, original, local, true)
  {
    assert file in {file};
    assert Placed(m, original, true);
    if HasToken(original) {
      PatternFindsImages(m, disk, original, {file}, directory, local);
    } else {
      NameFindsImage(m, disk, original, file, directory, local);
      assert Image(m.mapping, {file}) == {m.mapping[file]};
    }
  }

  lemma ExpansionIsCarried(m: Move, disk: set<Path>, template: Asset, times: seq<int>, files: seq<Path>,
                           directory: Path, local: Asset, i: nat)
    requires Sound(m, disk) && IsTemplate(template.steps) && HashInName(template)
    requires IsTemplate(local.steps) && HashInName(local) && NamesIn(m, local, Last(template.steps), directory)
    requires local.inner == template.inner
    requires i < |times| && |files| == |times|
    requires Single(Resolve(m.find, m.original, Numbered(m.numbering, template, times[i])), files[i])
    requires GoTo(m.mapping, {files[i]}, directory)
    ensures AssetCarried(m, Numbered(m.numbering, template, times[i]), Numbered(m.numbering, local, times[i]), true)
  {
    NumberedIsRenamed(m.numbering, template, times[i]);
    NumberedIsRenamed(m.numbering, local, times[i]);
    var name := NumberedName(m.numbering, Last(template.steps), times[i]);
    assert Parent(Renamed(local, name).steps) == Parent(local.steps);
    assert NamesIn(m, Renamed(local, name), name, directory);
    NumberedIsCarried(m, disk, Numbered(m.numbering, template, times[i]), files[i], directory,
                      Numbered(m.numbering, local, times[i]));
  }

  /** What a successful template rewriting has found. */
  lemma TemplateRewriting(m: Move, clip: seq<Entry>, template: Asset) returns (files: seq<Path>, directory: Path)
    requires RewriteTemplate(m, clip, template).Some?
    ensures ExpandTemplate(m.numbering, clip, template).Some?
    ensures Originals(m, ExpandTemplate(m.numbering, clip, template).value, files)
    ensures FileSet(files) != {} && GoTo(m.mapping, FileSet(files), directory)
    ensures template.steps != []
    ensures AuthoredRelative(m.localized, directory + [Last(template.steps)]).Some?
    ensures RewriteTemplate(m, clip, template)
            == Some(AuthoredRelative(m.localized, directory + [Last(template.steps)]).value.(inner := template.inner))
  {
    var expanded := ExpandTemplate(m.numbering, clip, template).value;
    files :| Originals(m, expanded, files);
    forall other | Originals(m, expanded, other) ensures other == files {
      forall i | 0 <= i < |files| ensures other[i] == files[i] {
        var found := Resolve(m.find, m.original, expanded[i]);
        assert Single(found, files[i]) && Single(found, other[i]);
        assert other[i] in found.value;
      }
    }
    var all := FileSet(files);
    directory :| GoTo(m.mapping, all, directory);
    forall other | GoTo(m.mapping, all, other) ensures other == directory {
      DirectoryIsUnique(m, all, directory, other);
    }
  }

  lemma SameTimes(numbering: Numbering, clip: seq<Entry>, value: Value)
    ensures TemplateTimes(numbering, Put(clip, "templateAssetPath", value)) == TemplateTimes(numbering, clip)
  {
    PutThenGet(clip, "templateAssetPath", value, "templateStartTime");
    PutThenGet(clip, "templateAssetPath", value, "templateEndTime");
    PutThenGet(clip, "templateAssetPath", value, "templateStride");
  }

  // ---- Marks in a directory, before and after ----

  lemma {:induction false} FirstHashIsFirst(text: string)
    requires HasHash(text)
    ensures '#' !in text[..FirstHash(text)]
  {
    if text[0] != '#' {
      FirstHashIsFirst(text[1..]);
      assert text[..FirstHash(text)] == [text[0]] + text[1..][..FirstHash(text[1..])];
    }
  }

  lemma NumberedHasNoMarks(numbering: Numbering, step: string, time: int)
    requires HasHash(step) && !HasHash(AfterRun(step)) && PadsWithoutMarks(numbering)
    ensures !HasHash(NumberedName(numbering, step, time))
  {
    FirstHashIsFirst(step);
  }

  lemma FrontThenRest(base: Path, directory: Path, n: nat, j: nat)
    requires n <= j <= |directory| && n <= |base| && base[..n] == directory[..n]
    ensures base[..n] + directory[n..j] == directory[..j]
  {
    assert directory[..j] == directory[..n] + directory[n..j];
  }

  lemma PartIsPlain(directory: Path, n: nat, j: nat)
    requires n <= j <= |directory| && Plain(directory)
    ensures Plain(directory[n..j])
  {
  }

  lemma UpAndDown(base: Path, directory: Path, n: nat, ups: nat, j: nat)
    requires n + ups == |base| && n <= j <= |directory| && base[..n] == directory[..n] && Plain(directory)
    ensures Walk(base, Ups(ups) + directory[n..j]) == Some(directory[..j])
  {
    PartIsPlain(directory, n, j);
    FrontThenRest(base, directory, n, j);
    UpTo(base, n, ups);
    WalkDown(base[..n], directory[n..j]);
    WalkOn(base, Ups(ups), base[..n], directory[n..j]);
  }

  lemma UpTo(base: Path, n: nat, ups: nat)
    requires n + ups == |base|
    ensures Walk(base, Ups(ups)) == Some(base[..n])
  {
    WalkUp(base, ups);
  }

  /** A step of a plain path put in the place of another one leads somewhere else. */
  lemma OtherStepElsewhere(base: Path, directory: Path, j: nat, step: string)
    requires j < |directory| && Plain(directory) && step != directory[j]
    requires Common(base, directory) <= j
    ensures var n := Common(base, directory);
      Walk(base, Ups(|base| - n) + directory[n..j] + ([step] + directory[j + 1..])) != Some(directory)
  {
    var n := Common(base, directory);
    UpAndDown(base, directory, n, |base| - n, j);
    StepThenDown(directory, j, step);
    WalkOn(base, Ups(|base| - n) + directory[n..j], directory[..j], [step] + directory[j + 1..]);
  }

  lemma WalkOn(base: Path, first: seq<string>, middle: Path, second: seq<string>)
    requires Walk(base, first) == Some(middle)
    ensures Walk(base, first + second) == Walk(middle, second)
  {
    WalkInParts(base, first, second);
  }

  lemma StepThenDown(directory: Path, j: nat, step: string)
    requires j < |directory| && Plain(directory) && step != directory[j]
    ensures Walk(directory[..j], [step] + directory[j + 1..]) != Some(directory)
  {
    var rest := directory[j + 1..];
    assert ([step] + rest)[1..] == rest;
    if step == "" || step == "." {
      WalkDown(directory[..j], rest);
    } else if step == ".." {
      if j > 0 { WalkDown(Parent(directory[..j]), rest); }
    } else {
      WalkDown(directory[..j] + [step], rest);
      assert (directory[..j] + [step] + rest)[j] == step;
    }
  }

  /** What a relative asset of the copy with a plain last step finds lies where its other steps lead. */
  lemma FoundWhereStepsLead(m: Move, asset: Asset, path: Path)
    requires m.localized != [] && !asset.absolute && asset.steps != [] && PlainStep(Last(asset.steps))
    requires LocalFile(m, m.localized, asset) == Some(path)
    ensures path != [] && Walk(Parent(m.localized), Parent(asset.steps)) == Some(Parent(path))
  {
    PartsMake(asset.steps);
    WalkInParts(Parent(m.localized), Parent(asset.steps), [Last(asset.steps)]);
    var there := Walk(Parent(m.localized), Parent(asset.steps)).value;
    assert [Last(asset.steps)][1..] == [];
    assert Walk(there, [Last(asset.steps)]) == Some(there + [Last(asset.steps)]);
    assert Parent(there + [Last(asset.steps)]) == there;
  }

  lemma ResolvedWhereStepsLead(m: Move, asset: Asset, path: Path)
    requires m.localized != [] && !asset.absolute && asset.steps != [] && PlainStep(Last(asset.steps))
    requires ResolveLocal(m, asset).Some? && path in ResolveLocal(m, asset).value
    ensures path != [] && Walk(Parent(m.localized), Parent(asset.steps)) == Some(Parent(path))
  {
    if HasToken(asset) {
      PatternHasToken(LocalFinder(m), m.localized, asset);
      TilesResolve(LocalFinder(m), m.localized, asset, ResolveLocal(m, asset).value);
      var tile: nat :| TileFile(LocalFinder(m), m.localized, asset, tile, path);
      TileNameIsPlain(Last(asset.steps), tile);
      assert Parent(Tile(asset, tile).steps) == Parent(asset.steps);
      FoundWhereStepsLead(m, Tile(asset, tile), path);
    } else {
      FoundWhereStepsLead(m, asset, path);
    }
  }

  /** The name of a file that a template's expansion finds is plain. */
  lemma FoundNameIsPlain(m: Move, disk: set<Path>, original: Asset, file: Path)
    requires Sound(m, disk) && Single(Resolve(m.find, m.original, original), file) && file in m.mapping
    ensures original.steps != [] && PlainStep(Last(original.steps))
  {
    if HasToken(original) {
      PatternHasToken(m.find, m.original, original);
      TokenIsName(Last(original.steps));
    } else {
      assert file in {file};
      assert m.find(m.original, original) == Some(file);
      LastIsPlain(m.destination, m.mapping[file]);
    }
  }

  lemma SplicedStep(front: seq<string>, back: seq<string>, k: nat, step: string)
    requires k < |back|
    ensures (front + back)[|front| + k := step] == front + back[..k] + ([step] + back[k + 1..])
  {
  }

  lemma StepsGoUpFirst(n: nat, rest: seq<string>, at: nat)
    requires at < |Ups(n) + rest|
    ensures at < n ==> (Ups(n) + rest)[at] == ".."
  {
  }

  /** The steps of a rewritten template with the one marked step numbered. */
  lemma NumberedStep(base: Path, directory: Path, name: string, at: nat, step: string) returns (j: nat)
    requires !(directory + [name] <= base)
    requires var steps := RelativeSteps(base, directory + [name]);
      at < |steps| - 1 && steps[at] != ".."
    ensures Common(base, directory) <= j < |directory|
    ensures directory[j] == RelativeSteps(base, directory + [name])[at]
    ensures var n := Common(base, directory);
      Parent(RelativeSteps(base, directory + [name])[at := step])
      == Ups(|base| - n) + directory[n..j] + ([step] + directory[j + 1..])
  {
    CommonOfFront(base, directory, name);
    var n := Common(base, directory);
    var ups, down := Ups(|base| - n), directory[n..];
    var steps := RelativeSteps(base, directory + [name]);
    assert (directory + [name])[n..] == down + [name];
    assert steps == ups + (down + [name]) && Parent(steps) == ups + down;
    StepsGoUpFirst(|ups|, down + [name], at);
    j := n + at - |ups|;
    SplicedStep(ups, down, at - |ups|, step);
    assert Parent(steps[at := step]) == Parent(steps)[at := step];
    assert down[..at - |ups|] == directory[n..j] && down[at - |ups| + 1..] == directory[j + 1..];
  }

  lemma TailIsPrefix(base: Path, directory: Path, name: string)
    requires base != [] && directory != [] && base[0] == directory[0]
    ensures directory[1..] + [name] <= base[1..] ==> directory + [name] <= base
  {
    assert directory + [name] == [directory[0]] + (directory[1..] + [name]);
    assert base == [base[0]] + base[1..];
  }

  lemma {:induction false} CommonOfFront(base: Path, directory: Path, name: string)
    requires !(directory + [name] <= base)
    ensures Common(base, directory + [name]) == Common(base, directory)
    decreases |base|
  {
    if base != [] && directory != [] && base[0] == directory[0] {
      assert (directory + [name])[1..] == directory[1..] + [name];
      TailIsPrefix(base, directory, name);
      CommonOfFront(base[1..], directory[1..], name);
    }
  }

  /** One file of such an expansion is not where the template's files went. */
  lemma NumberedMisses(m: Move, disk: set<Path>, template: Asset, files: set<Path>, directory: Path, local: Asset,
                       time: int, path: Path)
    requires Sound(m, disk) && files != {} && GoTo(m.mapping, files, directory)
    requires IsTemplate(template.steps) && !HashInName(template) && PlainStep(Last(template.steps))
    requires AuthoredRelative(m.localized, directory + [Last(template.steps)]).Some?
    requires local == AuthoredRelative(m.localized, directory + [Last(template.steps)]).value.(inner := template.inner)
    requires IsTemplate(local.steps) && PadsWithoutMarks(m.numbering)
    requires ResolveLocal(m, Numbered(m.numbering, local, time)).Some?
    requires path in ResolveLocal(m, Numbered(m.numbering, local, time)).value
    ensures path != [] && Parent(path) != directory
  {
    var base, name := Parent(m.localized), Last(template.steps);
    DirectoryIsBelow(m, disk, files, directory);
    NameHasNoMarks(template);
    MarkedIsBelow(base, directory, name, local.steps);
    var at := HashStep(local.steps).value;
    var step := NumberedName(m.numbering, local.steps[at], time);
    NumberedHasNoMarks(m.numbering, local.steps[at], time);
    var j := NumberedStep(base, directory, name, at, step);
    OtherStepElsewhere(base, directory, j, step);
    ResolvedWhereStepsLead(m, Numbered(m.numbering, local, time), path);
  }

  /** Relative steps with marks do not only go up, and their marks are not in the unmarked name. */
  lemma MarkedIsBelow(base: Path, directory: Path, name: string, steps: seq<string>)
    requires steps == RelativeSteps(base, directory + [name]) && HashStep(steps).Some? && !HasHash(name)
    ensures !(directory + [name] <= base) && steps != [] && Last(steps) == name
    ensures HashStep(steps).value < |steps| - 1 && steps[HashStep(steps).value] != ".."
  {
    if directory + [name] <= base {
      UpFromBelow(base, directory + [name]);
      UpsHaveNoHash(|base| - |directory + [name]|);
    }
    RelativeEndsInName(base, directory + [name]);
    assert !HasHash("..");
  }

  lemma NameHasNoMarks(template: Asset)
    requires IsTemplate(template.steps) && !HashInName(template)
    ensures !HasHash(Last(template.steps))
  {
  }

  lemma NumberedElsewhere(m: Move, disk: set<Path>, clip: seq<Entry>, template: Asset, files: seq<Path>,
                          directory: Path, local: Asset)
    requires Sound(m, disk) && ExpandTemplate(m.numbering, clip, template).Some? && !HashInName(template)
    requires Originals(m, ExpandTemplate(m.numbering, clip, template).value, files)
    requires FileSet(files) != {} && GoTo(m.mapping, FileSet(files), directory)
    requires AuthoredRelative(m.localized, directory + [Last(template.steps)]).Some?
    requires local == AuthoredRelative(m.localized, directory + [Last(template.steps)]).value.(inner := template.inner)
    requires ExpandTemplate(m.numbering, clip, local).Some? && PadsWithoutMarks(m.numbering)
    ensures AllMiss(m, ExpandTemplate(m.numbering, clip, template).value,
                    ExpandTemplate(m.numbering, clip, local).value)
  {
    var times := TemplateTimes(m.numbering, clip).value;
    var originals := ExpandTemplate(m.numbering, clip, template).value;
    var locals := ExpandTemplate(m.numbering, clip, local).value;
    forall i, j | 0 <= i < |originals| && 0 <= j < |locals| ensures Misses(m, originals[i], locals[j]) {
      assert Single(Resolve(m.find, m.original, originals[i]), files[i]);
      assert files[i] in FileSet(files);
      NumberedMissesOne(m, disk, template, FileSet(files), directory, local, times[i], files[i], times[j]);
    }
  }

  lemma NumberedMissesOne(m: Move, disk: set<Path>, template: Asset, files: set<Path>, directory: Path, local: Asset,
                          time: int, file: Path, other: int)
    requires Sound(m, disk) && file in files && GoTo(m.mapping, files, directory)
    requires IsTemplate(template.steps) && !HashInName(template)
    requires Single(Resolve(m.find, m.original, Numbered(m.numbering, template, time)), file)
    requires AuthoredRelative(m.localized, directory + [Last(template.steps)]).Some?
    requires local == AuthoredRelative(m.localized, directory + [Last(template.steps)]).value.(inner := template.inner)
    requires IsTemplate(local.steps) && PadsWithoutMarks(m.numbering)
    ensures Misses(m, Numbered(m.numbering, template, time), Numbered(m.numbering, local, other))
  {
    var elsewhere := Numbered(m.numbering, local, other);
    FoundNameIsPlain(m, disk, Numbered(m.numbering, template, time), file);
    NameIsKept(m.numbering, template, time);
    if ResolveLocal(m, elsewhere).Some? && m.mapping[file] in ResolveLocal(m, elsewhere).value {
      NumberedMisses(m, disk, template, files, directory, local, other, m.mapping[file]);
    }
  }

  lemma NameIsKept(numbering: Numbering, template: Asset, time: int)
    requires IsTemplate(template.steps) && !HashInName(template)
    ensures Numbered(numbering, template, time).steps != []
    ensures Last(Numbered(numbering, template, time).steps) == Last(template.steps)
  {
  }

  lemma TemplateIsCarried(m: Move, disk: set<Path>, clip: seq<Entry>, template: Asset)
    requires Sound(m, disk) && RewriteTemplate(m, clip, template).Some? && !IsEmpty(template)
    ensures var rewritten := RewriteTemplate(m, clip, template).value;
      TemplateCarried(m, template, ExpandTemplate(m.numbering, clip, template), rewritten,
                      ExpandTemplate(m.numbering, clip, rewritten))
  {
    var files, directory := TemplateRewriting(m, clip, template);
    var rewritten := RewriteTemplate(m, clip, template).value;
    if HashInName(template) {
      LocalTemplate(m, disk, template, FileSet(files), directory, rewritten);
      if HashInName(rewritten) { MarkedTemplateIsCarried(m, disk, clip, template, files, directory, rewritten); }
    } else if ExpandTemplate(m.numbering, clip, rewritten).Some? && PadsWithoutMarks(m.numbering) {
      NumberedElsewhere(m, disk, clip, template, files, directory, rewritten);
    }
  }

  lemma MarkedTemplateIsCarried(m: Move, disk: set<Path>, clip: seq<Entry>, template: Asset, files: seq<Path>,
                                directory: Path, local: Asset)
    requires Sound(m, disk) && ExpandTemplate(m.numbering, clip, template).Some? && HashInName(template)
    requires Originals(m, ExpandTemplate(m.numbering, clip, template).value, files)
    requires GoTo(m.mapping, FileSet(files), directory) && local.inner == template.inner
    requires IsTemplate(local.steps) && HashInName(local) && NamesIn(m, local, Last(template.steps), directory)
    requires !IsEmpty(template)
    ensures TemplateCarried(m, template, ExpandTemplate(m.numbering, clip, template), local,
                            ExpandTemplate(m.numbering, clip, local))
  {
    ExpansionsAreCarried(m, disk, template, TemplateTimes(m.numbering, clip).value, files, directory, local);
  }

  lemma ExpansionsAreCarried(m: Move, disk: set<Path>, template: Asset, times: seq<int>, files: seq<Path>,
                             directory: Path, local: Asset)
    requires Sound(m, disk) && IsTemplate(template.steps) && HashInName(template)
    requires IsTemplate(local.steps) && HashInName(local) && NamesIn(m, local, Last(template.steps), directory)
    requires local.inner == template.inner
    requires |files| == |times| && GoTo(m.mapping, FileSet(files), directory)
    requires forall i | 0 <= i < |times| ::
               Single(Resolve(m.find, m.original, Numbered(m.numbering, template, times[i])), files[i])
    ensures forall i | 0 <= i < |times| ::
              AssetCarried(m, Numbered(m.numbering, template, times[i]), Numbered(m.numbering, local, times[i]), true)
  {
    forall i | 0 <= i < |times|
      ensures AssetCarried(m, Numbered(m.numbering, template, times[i]), Numbered(m.numbering, local, times[i]), true)
    {
      assert files[i] in FileSet(files);
      assert GoTo(m.mapping, {files[i]}, directory);
      ExpansionIsCarried(m, disk, template, times, files, directory, local, i);
    }
  }

  // ---- Clip sets ----

  predicate ClipKeysKept(before: seq<Entry>, after: seq<Entry>, changed: string) {
    && Get(after, "templateStartTime") == Get(before, "templateStartTime")
    && Get(after, "templateEndTime") == Get(before, "templateEndTime")
    && Get(after, "templateStride") == Get(before, "templateStride")
    && (changed == "assetPaths" || Get(after, "assetPaths") == Get(before, "assetPaths"))
    && (changed == "manifestAssetPath" || Get(after, "manifestAssetPath") == Get(before, "manifestAssetPath"))
    && (changed == "templateAssetPath" || Get(after, "templateAssetPath") == Get(before, "templateAssetPath"))
  }

  lemma PutKeepsOthers(clip: seq<Entry>, key: string, value: Value)
    requires key == "assetPaths" || key == "manifestAssetPath" || key == "templateAssetPath"
    ensures ClipKeysKept(clip, Put(clip, key, value), key)
    ensures Get(clip, key).Some? ==> Get(Put(clip, key, value), key) == Some(value)
  {
    PutThenGet(clip, key, value, "templateStartTime");
    PutThenGet(clip, key, value, "templateEndTime");
    PutThenGet(clip, key, value, "templateStride");
    PutThenGet(clip, key, value, "assetPaths");
    PutThenGet(clip, key, value, "manifestAssetPath");
    PutThenGet(clip, key, value, "templateAssetPath");
  }

  lemma ClipAssetsAreCarried(m: Move, disk: set<Path>, clip: seq<Entry>)
    requires Sound(m, disk) && RewriteClipAssets(m, clip).Some?
    ensures AllCarried(m, ClipAssets(clip), ClipAssets(RewriteClipAssets(m, clip).value))
    ensures ClipKeysKept(clip, RewriteClipAssets(m, clip).value, "assetPaths")
  {
    var got := Get(clip, "assetPaths");
    if got.Some? && got.value.AssetPathVec? {
      ArcsAreCarried(m, disk, got.value.assets);
      PutKeepsOthers(clip, "assetPaths", AssetPathVec(RewriteArcs(m, got.value.assets).value));
    }
  }

  lemma ClipManifestIsCarried(m: Move, disk: set<Path>, clip: seq<Entry>)
    requires Sound(m, disk) && RewriteClipManifest(m, clip).Some?
    ensures AllCarried(m, ClipManifest(clip), ClipManifest(RewriteClipManifest(m, clip).value))
    ensures ClipKeysKept(clip, RewriteClipManifest(m, clip).value, "manifestAssetPath")
  {
    var got := Get(clip, "manifestAssetPath");
    if got.Some? && got.value.AssetPath? {
      ArcIsCarried(m, disk, got.value.asset);
      PutKeepsOthers(clip, "manifestAssetPath", AssetPath(RewriteArc(m, got.value.asset).value));
    }
  }

  lemma ClipTemplateIsCarried(m: Move, disk: set<Path>, clip: seq<Entry>)
    requires Sound(m, disk) && RewriteClipTemplate(m, clip).Some?
    ensures AllCarried(m, ClipTemplate(m.numbering, clip),
                       ClipTemplate(m.numbering, RewriteClipTemplate(m, clip).value))
    ensures ClipKeysKept(clip, RewriteClipTemplate(m, clip).value, "templateAssetPath")
  {
    var got := Get(clip, "templateAssetPath");
    if got.Some? && got.value.AssetPath? && !IsEmpty(got.value.asset) {
      var rewritten := RewriteTemplate(m, clip, got.value.asset).value;
      TemplateIsCarried(m, disk, clip, got.value.asset);
      PutKeepsOthers(clip, "templateAssetPath", AssetPath(rewritten));
      SameTimes(m.numbering, clip, AssetPath(rewritten));
    }
  }

  lemma ClipIsCarried(m: Move, disk: set<Path>, clip: seq<Entry>)
    requires Sound(m, disk) && RewriteClip(m, clip).Some?
    ensures var after := RewriteClip(m, clip).value;
            AllCarried(m, ClipAssets(clip) + ClipManifest(clip) + ClipTemplate(m.numbering, clip),
                       ClipAssets(after) + ClipManifest(after) + ClipTemplate(m.numbering, after))
  {
    var first := RewriteClipAssets(m, clip).value;
    var second := RewriteClipManifest(m, first).value;
    var third := RewriteClipTemplate(m, second).value;
    ClipAssetsAreCarried(m, disk, clip);
    ClipManifestIsCarried(m, disk, first);
    ClipTemplateIsCarried(m, disk, second);
    KeptKeysKeepDependencies(m.numbering, clip, first, second, third);
    CarriedTogether(m, ClipAssets(clip), ClipAssets(third), ClipManifest(clip), ClipManifest(third));
    CarriedTogether(m, ClipAssets(clip) + ClipManifest(clip), ClipAssets(third) + ClipManifest(third),
                    ClipTemplate(m.numbering, clip), ClipTemplate(m.numbering, third));
  }

  lemma KeptKeysKeepDependencies(numbering: Numbering, clip: seq<Entry>, first: seq<Entry>, second: seq<Entry>,
                                 third: seq<Entry>)
    requires ClipKeysKept(clip, first, "assetPaths") && ClipKeysKept(first, second, "manifestAssetPath")
    requires ClipKeysKept(second, third, "templateAssetPath")
    ensures ClipAssets(third) == ClipAssets(first)
    ensures ClipManifest(first) == ClipManifest(clip) && ClipManifest(third) == ClipManifest(second)
    ensures ClipTemplate(numbering, second) == ClipTemplate(numbering, clip)
  {
  }

  function ClipEntryDependencies(numbering: Numbering, value: Value): seq<Dependency> {
    match value
    case Dictionary(clip) => ClipAssets(clip) + ClipManifest(clip) + ClipTemplate(numbering, clip)
    case _ => []
  }

  lemma {:induction false} ClipsAreCarried(m: Move, disk: set<Path>, clips: seq<Entry>)
    requires Sound(m, disk) && RewriteClips(m, clips).Some?
    ensures AllCarried(m, ClipDependencies(m.numbering, clips),
                       ClipDependencies(m.numbering, RewriteClips(m, clips).value))
  {
    if clips != [] {
      var after := RewriteClips(m, clips).value;
      assert after[1..] == RewriteClips(m, clips[1..]).value;
      ClipsAreCarried(m, disk, clips[1..]);
      if clips[0].value.Dictionary? { ClipIsCarried(m, disk, clips[0].value.entries); }
      CarriedTogether(m, ClipEntryDependencies(m.numbering, clips[0].value),
                      ClipEntryDependencies(m.numbering, after[0].value),
                      ClipDependencies(m.numbering, clips[1..]), ClipDependencies(m.numbering, after[1..]));
    }
  }

  // ---- Every value ----

  /** For every value tree and every field, the dependencies of the rewritten value in the copy are, one by one,
      the images of the value's dependencies in the original layer. */
  lemma {:induction false} LocalizationCommutes(m: Move, disk: set<Path>, value: Value, field: string, arcs: bool)
    requires Sound(m, disk) && RewriteValue(m, value, field).Some?
    ensures AllCarried(m, Dependencies(m.numbering, value, field, arcs),
                       Dependencies(m.numbering, RewriteValue(m, value, field).value, field, arcs))
    decreases value
  {
    match value
    case AssetPath(asset) => AssetIsCarried(m, disk, asset);
    case AssetPathVec(assets) => AssetsAreCarried(m, disk, assets);
    case ReferenceListOp(references) => ReferencesCommute(m, disk, references, arcs);
    case PayloadListOp(payloads) => PayloadsAreCarried(m, disk, payloads, arcs);
    case Payload(payload) => ArcDependencyIsCarried(m, disk, payload.asset, arcs);
    case Dictionary(entries) =>
      if field == "clips" { ClipsAreCarried(m, disk, entries); } else { EntriesCommute(m, disk, entries, arcs); }
    case ValueVec(values) => ValuesCommute(m, disk, values, arcs);
    case TimeSamples(samples) => SamplesCommute(m, disk, samples, arcs);
    case StringVec(texts) => if field == "subLayers" { SubLayersAreCarried(m, disk, texts); }
    case Double(_) =>
    case Other(_) =>
  }

  lemma {:induction false} EntriesCommute(m: Move, disk: set<Path>, entries: seq<Entry>, arcs: bool)
    requires Sound(m, disk) && RewriteEntries(m, entries).Some?
    ensures AllCarried(m, EntryDependencies(m.numbering, entries, arcs),
                       EntryDependencies(m.numbering, RewriteEntries(m, entries).value, arcs))
    decreases entries
  {
    if entries != [] {
      var after := RewriteEntries(m, entries).value;
      assert after[1..] == RewriteEntries(m, entries[1..]).value;
      var entry := entries[0];
      assert entry.value < entry;
      LocalizationCommutes(m, disk, entry.value, "", arcs);
      EntriesCommute(m, disk, entries[1..], arcs);
      CarriedTogether(m, Dependencies(m.numbering, entries[0].value, "", arcs),
                      Dependencies(m.numbering, after[0].value, "", arcs),
                      EntryDependencies(m.numbering, entries[1..], arcs),
                      EntryDependencies(m.numbering, after[1..], arcs));
    }
  }

  lemma {:induction false} ValuesCommute(m: Move, disk: set<Path>, values: seq<Value>, arcs: bool)
    requires Sound(m, disk) && RewriteValues(m, values).Some?
    ensures AllCarried(m, ValueDependencies(m.numbering, values, arcs),
                       ValueDependencies(m.numbering, RewriteValues(m, values).value, arcs))
    decreases values
  {
    if values != [] {
      var after := RewriteValues(m, values).value;
      assert after[1..] == RewriteValues(m, values[1..]).value;
      LocalizationCommutes(m, disk, values[0], "", arcs);
      ValuesCommute(m, disk, values[1..], arcs);
      CarriedTogether(m, Dependencies(m.numbering, values[0], "", arcs), Dependencies(m.numbering, after[0], "", arcs),
                      ValueDependencies(m.numbering, values[1..], arcs),
                      ValueDependencies(m.numbering, after[1..], arcs));
    }
  }

  lemma {:induction false} SamplesCommute(m: Move, disk: set<Path>, samples: seq<Sample>, arcs: bool)
    requires Sound(m, disk) && RewriteSamples(m, samples).Some?
    ensures AllCarried(m, SampleDependencies(m.numbering, samples, arcs),
                       SampleDependencies(m.numbering, RewriteSamples(m, samples).value, arcs))
    decreases samples
  {
    if samples != [] {
      var after := RewriteSamples(m, samples).value;
      assert after[1..] == RewriteSamples(m, samples[1..]).value;
      var sample := samples[0];
      assert sample.value < sample;
      LocalizationCommutes(m, disk, sample.value, "", arcs);
      SamplesCommute(m, disk, samples[1..], arcs);
      CarriedTogether(m, Dependencies(m.numbering, samples[0].value, "", arcs),
                      Dependencies(m.numbering, after[0].value, "", arcs),
                      SampleDependencies(m.numbering, samples[1..], arcs),
                      SampleDependencies(m.numbering, after[1..], arcs));
    }
  }

  lemma {:induction false} ReferencesCommute(m: Move, disk: set<Path>, references: seq<Reference>, arcs: bool)
    requires Sound(m, disk) && RewriteReferences(m, references).Some?
    ensures AllCarried(m, ReferenceDependencies(m.numbering, references, arcs),
                       ReferenceDependencies(m.numbering, RewriteReferences(m, references).value, arcs))
    decreases references
  {
    if references != [] {
      var after := RewriteReferences(m, references).value;
      assert after[1..] == RewriteReferences(m, references[1..]).value;
      var reference := references[0];
      ArcDependencyIsCarried(m, disk, reference.asset, arcs);
      EntriesCommute(m, disk, reference.customData, arcs);
      ReferencesCommute(m, disk, references[1..], arcs);
      CarriedTogether(m, ArcDependency(reference.asset, arcs), ArcDependency(after[0].asset, arcs),
                      EntryDependencies(m.numbering, reference.customData, arcs),
                      EntryDependencies(m.numbering, after[0].customData, arcs));
      CarriedTogether(m,
                      ArcDependency(reference.asset, arcs) + EntryDependencies(m.numbering, reference.customData, arcs),
                      ArcDependency(after[0].asset, arcs) + EntryDependencies(m.numbering, after[0].customData, arcs),
                      ReferenceDependencies(m.numbering, references[1..], arcs),
                      ReferenceDependencies(m.numbering, after[1..], arcs));
    }
  }
}
