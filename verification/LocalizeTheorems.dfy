/** Localization commutes with taking dependencies: what a rewritten value asks for in the copy is the image of
    what the value asked for in the original layer. */
module LocalizeTheorems {
  import opened Wrappers
  import opened AssetPaths
  import opened ClosureValue
  import opened Localize

  // ---- One asset ----

  ghost predicate OneFile(files: set<Path>) {
    exists file :: files == {file}
  }

  ghost predicate OneDirectory(mapping: map<Path, Path>, files: set<Path>) {
    exists directory :: GoTo(mapping, files, directory)
  }

  /** The asset's files all move, to one place: it is one file, or a pattern that stays in one directory. */
  ghost predicate Placed(m: Move, asset: Asset, isLayer: bool) {
    var files := Resolve(m.find, m.original, asset);
    && files.Some? && files.value <= m.mapping.Keys
    && (OneFile(files.value) || (!isLayer && OneDirectory(m.mapping, files.value)))
  }

  function FilesOf(m: Move, asset: Asset): set<Path>
    requires Resolve(m.find, m.original, asset).Some?
  {
    Resolve(m.find, m.original, asset).value
  }

  /** The rewritten asset finds the image of the original files; an asset that is empty, or optional and without
      a place, keeps its text. */
  ghost predicate AssetCarried(m: Move, asset: Asset, rewritten: Asset, isLayer: bool) {
    if Placed(m, asset, isLayer) then ResolveLocal(m, rewritten) == Some(Image(m.mapping, FilesOf(m, asset)))
    else rewritten == asset && (IsEmpty(asset) || (!isLayer && IsOptional(asset)))
  }

  /** Numbers are written without marks. */
  ghost predicate PadsWithoutMarks(numbering: Numbering) {
    forall width: nat, time: int :: !HasHash(numbering.pad(width, time))
  }

  /** What the asset finds in the copy, if anything, is no image of a file of the original one. */
  ghost predicate Misses(m: Move, original: Asset, local: Asset) {
    Resolve(m.find, m.original, original).Some? && ResolveLocal(m, local).Some? ==>
      forall file | file in FilesOf(m, original) && file in m.mapping ::
        m.mapping[file] !in ResolveLocal(m, local).value
  }

  ghost predicate AllMiss(m: Move, originals: seq<Asset>, locals: seq<Asset>) {
    |originals| == |locals|
    && forall i, j | 0 <= i < |originals| && 0 <= j < |locals| :: Misses(m, originals[i], locals[j])
  }

  /** A template whose marks are in the file name, before and after, expands to layers that are carried one by one.
      One whose file name moves below a directory with marks of its own has too many and expands to nothing. One with
      marks in a directory loses them and expands to nothing, too, unless it moves below a directory with marks of its
      own: then these are numbered, and nothing it expands to finds any of the images. */
  ghost predicate TemplateCarried(m: Move, template: Asset, files: Option<seq<Asset>>, rewritten: Asset,
                                  after: Option<seq<Asset>>) {
    if IsEmpty(template) then rewritten == template && after == files
    else if HashInName(template) && HashInName(rewritten) then
      && files.Some? && after.Some? && |files.value| == |after.value|
      && forall i | 0 <= i < |files.value| :: AssetCarried(m, files.value[i], after.value[i], true)
    else
      && files.Some?
      && (HashInName(template) || HashStep(rewritten.steps).None? ==> after.None?)
      && (after.Some? && PadsWithoutMarks(m.numbering) ==> AllMiss(m, files.value, after.value))
  }

  ghost predicate Carried(m: Move, d: Dependency, e: Dependency) {
    match d
    case Dependency(asset, isLayer) => e.Dependency? && e.isLayer == isLayer && AssetCarried(m, asset, e.asset, isLayer)
    case Template(template, files) => e.Template? && TemplateCarried(m, template, files, e.template, e.files)
  }

  lemma CountsOne(files: set<Path>)
    ensures |files| == 1 <==> OneFile(files)
  {
    if |files| == 1 {
      var file :| file in files;
      assert |files - {file}| == 0;
      assert files == {file};
    }
  }

  /** A package that an asset was found in holds the asset's inner path, and so does its copy. */
  lemma FoundHolds(m: Move, disk: set<Path>, asset: Asset, file: Path)
    requires Sound(m, disk) && Resolve(m.find, m.original, asset).Some? && file in FilesOf(m, asset)
    ensures file in m.mapping ==> Holds(m.contents, m.mapping[file], asset.inner)
  {
    if HasToken(asset) {
      PatternHasToken(m.find, m.original, asset);
      TilesResolve(m.find, m.original, asset, FilesOf(m, asset));
      var tile: nat :| TileFile(m.find, m.original, asset, tile, file);
      assert Tile(asset, tile).inner == asset.inner;
    }
  }

  lemma LayerAssetIsPlaced(m: Move, disk: set<Path>, asset: Asset)
    requires Sound(m, disk)
    ensures LayerAsset(m, asset).Some? <==> Placed(m, asset, true)
    ensures LayerAsset(m, asset).Some? ==>
              ResolveLocal(m, LayerAsset(m, asset).value) == Some(Image(m.mapping, FilesOf(m, asset)))
  {
    var files := Resolve(m.find, m.original, asset);
    if file :| Single(files, file) {
      assert OneFile(files.value);
      FoundHolds(m, disk, asset, file);
      forall other | Single(files, other) ensures other == file {
        assert other in files.value;
      }
      if file in m.mapping {
        RelativeIsFound(m, disk, m.mapping[file], asset.inner);
        assert Image(m.mapping, files.value) == {m.mapping[file]};
      } else {
        assert file in files.value;
      }
    } else if Placed(m, asset, true) {
      var file :| files.value == {file};
      assert Single(files, file);
    }
  }

  /** The directory of the copy's files lies at or below the destination. */
  lemma DirectoryIsBelow(m: Move, disk: set<Path>, files: set<Path>, directory: Path)
    requires Sound(m, disk) && files != {} && GoTo(m.mapping, files, directory)
    ensures m.destination <= directory && Plain(directory)
    ensures forall step | step in directory[|m.destination|..] :: PlainName(step)
  {
    var file :| file in files;
    var target := m.mapping[file];
    assert PlainTarget(m.destination, target);
    ParentIsBelow(m.destination, target);
    forall step | step in directory[|m.destination|..] ensures step in target[|m.destination|..] {
      var k :| 0 <= k < |directory| - |m.destination| && directory[|m.destination|..][k] == step;
      assert target[|m.destination|..][k] == step;
    }
    forall step | step in directory ensures step in target {}
  }

  lemma NameIsBelow(destination: Path, layer: Path, directory: Path, name: string)
    requires destination <= directory && destination < layer && directory + [name] <= Parent(layer)
    ensures name in layer[|destination|..]
  {
    assert layer[|directory|] == (directory + [name])[|directory|];
    assert layer[|destination|..][|directory| - |destination|] == name;
  }

  /** No directory above the localized layer has a tile mark below the destination. */
  lemma TokenIsNotAbove(m: Move, disk: set<Path>, directory: Path, name: string)
    requires Sound(m, disk) && Contains(name, TOKEN) && m.destination <= directory
    ensures !(directory + [name] <= Parent(m.localized))
  {
    LocalizedIsPlain(m, disk);
    if directory + [name] <= Parent(m.localized) {
      NameIsBelow(m.destination, m.localized, directory, name);
    }
  }

  lemma StepsOfPattern(destination: Path, base: Path, directory: Path, name: string)
    requires destination <= base && destination <= directory && !(directory + [name] <= base)
    ensures var steps := RelativeSteps(base, directory + [name]);
            && steps != [] && Last(steps) == name
            && forall step | step in Parent(steps) :: step == ".." || step in directory[|destination|..]
  {
    var target := directory + [name];
    var n := Common(base, target);
    RelativeEndsInName(base, target);
    CommonCovers(destination, base, target);
    assert n <= |target| && target[..n] == base[..n];
    assert target[..|target|] == target;
    assert n <= |directory|;
    assert Parent(RelativeSteps(base, target)) == Ups(|base| - n) + directory[n..];
    assert directory[n..] == directory[|destination|..][n - |destination|..];
  }

  lemma StepsLeadToDirectory(base: Path, directory: Path, name: string)
    requires Plain(directory) && PlainStep(name) && RelativeSteps(base, directory + [name]) != []
    requires Last(RelativeSteps(base, directory + [name])) == name
    ensures Walk(base, Parent(RelativeSteps(base, directory + [name]))) == Some(directory)
  {
    var target := directory + [name];
    var steps := RelativeSteps(base, target);
    RelativeLeadsBack(base, target);
    PartsMake(steps);
    WalkInParts(base, Parent(steps), [name]);
    assert [name][1..] == [];
    var there := Walk(base, Parent(steps)).value;
    assert Walk(there, [name]) == Some(there + [name]);
    assert there == Parent(there + [name]) == Parent(target) == directory;
  }

  /** The pattern's relative form names it in the directory. */
  lemma PatternIsAuthored(m: Move, disk: set<Path>, files: set<Path>, directory: Path, name: string)
    requires Sound(m, disk) && files != {} && GoTo(m.mapping, files, directory)
    requires PlainStep(name) && !(directory + [name] <= Parent(m.localized))
    ensures AuthoredRelative(m.localized, directory + [name]).Some?
    ensures NamesIn(m, AuthoredRelative(m.localized, directory + [name]).value, name, directory)
  {
    LocalizedIsPlain(m, disk);
    ParentIsBelow(m.destination, m.localized);
    DirectoryIsBelow(m, disk, files, directory);
    StepsOfPattern(m.destination, Parent(m.localized), directory, name);
    StepsLeadToDirectory(Parent(m.localized), directory, name);
    UpIsNoName();
  }

  lemma TokenIsName(name: string)
    requires Contains(name, TOKEN)
    ensures PlainStep(name)
  {
    assert |name| >= 6;
  }

  lemma DirectoryIsUnique(m: Move, files: set<Path>, a: Path, b: Path)
    requires files != {} && GoTo(m.mapping, files, a) && GoTo(m.mapping, files, b)
    ensures a == b
  {
    var file :| file in files;
  }

  lemma PatternGoes(m: Move, disk: set<Path>, asset: Asset, files: set<Path>, directory: Path)
    requires Sound(m, disk) && Resolve(m.find, m.original, asset) == Some(files) && HasToken(asset)
    requires files != {} && asset.steps != [] && Contains(Last(asset.steps), TOKEN)
    requires GoTo(m.mapping, files, directory)
    ensures files <= m.mapping.Keys
    ensures var relative := AuthoredRelative(m.localized, directory + [Last(asset.steps)]);
      relative.Some? && ResolveLocal(m, relative.value.(inner := asset.inner)) == Some(Image(m.mapping, files))
  {
    var name := Last(asset.steps);
    TokenIsName(name);
    DirectoryIsBelow(m, disk, files, directory);
    TokenIsNotAbove(m, disk, directory, name);
    PatternIsAuthored(m, disk, files, directory, name);
    PatternFindsImages(m, disk, asset, files, directory,
                       AuthoredRelative(m.localized, directory + [name]).value.(inner := asset.inner));
  }

  /** A pattern of several files is rewritten exactly when they move to one directory, and then finds their images. */
  lemma PatternAssetIsPlaced(m: Move, disk: set<Path>, asset: Asset, files: set<Path>)
    requires Sound(m, disk) && Resolve(m.find, m.original, asset) == Some(files) && HasToken(asset)
    ensures PatternAsset(m, asset, files).Some? <==> OneDirectory(m.mapping, files)
    ensures PatternAsset(m, asset, files).Some? ==> files <= m.mapping.Keys
    ensures PatternAsset(m, asset, files).Some? ==>
              ResolveLocal(m, PatternAsset(m, asset, files).value) == Some(Image(m.mapping, files))
  {
    PatternHasToken(m.find, m.original, asset);
    TokenIsName(Last(asset.steps));
    TilesResolve(m.find, m.original, asset, files);
    if directory :| GoTo(m.mapping, files, directory) {
      forall other | GoTo(m.mapping, files, other) ensures other == directory {
        DirectoryIsUnique(m, files, directory, other);
      }
      PatternGoes(m, disk, asset, files, directory);
    }
  }

  lemma NoPatternIsOneFile(find: Finder, layer: Path, asset: Asset)
    ensures Resolve(find, layer, asset).Some? && !HasToken(asset) ==> OneFile(Resolve(find, layer, asset).value)
  {
    if Resolve(find, layer, asset).Some? && !HasToken(asset) {
      assert Resolve(find, layer, asset).value == {find(layer, asset).value};
    }
  }

  /** An asset value is rewritten, or kept, or refused, and which of them is decided by its place. */
  lemma AssetIsCarried(m: Move, disk: set<Path>, asset: Asset)
    requires Sound(m, disk)
    ensures RewriteAsset(m, asset).None? <==> !IsEmpty(asset) && !IsOptional(asset) && !Placed(m, asset, false)
    ensures RewriteAsset(m, asset).Some? ==>
              Carried(m, Dependency(asset, false), Dependency(RewriteAsset(m, asset).value, false))
  {
    var files := Resolve(m.find, m.original, asset);
    NoPatternIsOneFile(m.find, m.original, asset);
    if files.Some? {
      CountsOne(files.value);
      if |files.value| == 1 {
        LayerAssetIsPlaced(m, disk, asset);
      } else {
        PatternAssetIsPlaced(m, disk, asset, files.value);
      }
    }
  }

  lemma ArcIsCarried(m: Move, disk: set<Path>, asset: Asset)
    requires Sound(m, disk)
    ensures RewriteArc(m, asset).None? <==> !IsEmpty(asset) && !Placed(m, asset, true)
    ensures RewriteArc(m, asset).Some? ==>
              Carried(m, Dependency(asset, true), Dependency(RewriteArc(m, asset).value, true))
    ensures RewriteArc(m, asset).Some? ==> (IsEmpty(RewriteArc(m, asset).value) <==> IsEmpty(asset))
  {
    LayerAssetIsPlaced(m, disk, asset);
    if LayerAsset(m, asset).Some? {
      var found := ResolveLocal(m, LayerAsset(m, asset).value);
    }
  }

  // ---- Lists ----

  ghost predicate AllCarried(m: Move, ds: seq<Dependency>, es: seq<Dependency>) {
    |ds| == |es| && forall i | 0 <= i < |ds| :: Carried(m, ds[i], es[i])
  }

  lemma CarriedTogether(m: Move, ds1: seq<Dependency>, es1: seq<Dependency>, ds2: seq<Dependency>, es2: seq<Dependency>)
    requires AllCarried(m, ds1, es1) && AllCarried(m, ds2, es2)
    ensures AllCarried(m, ds1 + ds2, es1 + es2)
  {
  }

  lemma OneMoreCarried(m: Move, assets: seq<Asset>, rewritten: seq<Asset>, isLayer: bool)
    requires assets != [] && rewritten != []
    requires Carried(m, Dependency(assets[0], isLayer), Dependency(rewritten[0], isLayer))
    requires AllCarried(m, AssetDependencies(assets[1..], isLayer), AssetDependencies(rewritten[1..], isLayer))
    ensures AllCarried(m, AssetDependencies(assets, isLayer), AssetDependencies(rewritten, isLayer))
  {
    CarriedTogether(m, [Dependency(assets[0], isLayer)], [Dependency(rewritten[0], isLayer)],
                    AssetDependencies(assets[1..], isLayer), AssetDependencies(rewritten[1..], isLayer));
    assert AssetDependencies(assets, isLayer)
        == [Dependency(assets[0], isLayer)] + AssetDependencies(assets[1..], isLayer);
    assert AssetDependencies(rewritten, isLayer)
           == [Dependency(rewritten[0], isLayer)] + AssetDependencies(rewritten[1..], isLayer);
  }

  lemma {:induction false} AssetsAreCarried(m: Move, disk: set<Path>, assets: seq<Asset>)
    requires Sound(m, disk) && RewriteAssets(m, assets).Some?
    ensures AllCarried(m, AssetDependencies(assets, false), AssetDependencies(RewriteAssets(m, assets).value, false))
  {
    if assets != [] {
      AssetIsCarried(m, disk, assets[0]);
      AssetsAreCarried(m, disk, assets[1..]);
      var rewritten := RewriteAssets(m, assets).value;
      assert rewritten[1..] == RewriteAssets(m, assets[1..]).value;
      OneMoreCarried(m, assets, rewritten, false);
    }
  }

  lemma {:induction false} ArcsAreCarried(m: Move, disk: set<Path>, assets: seq<Asset>)
    requires Sound(m, disk) && RewriteArcs(m, assets).Some?
    ensures AllCarried(m, AssetDependencies(assets, true), AssetDependencies(RewriteArcs(m, assets).value, true))
  {
    if assets != [] {
      ArcIsCarried(m, disk, assets[0]);
      ArcsAreCarried(m, disk, assets[1..]);
      var rewritten := RewriteArcs(m, assets).value;
      assert rewritten[1..] == RewriteArcs(m, assets[1..]).value;
      OneMoreCarried(m, assets, rewritten, true);
    }
  }

  lemma {:induction false} SubLayersAreCarried(m: Move, disk: set<Path>, assets: seq<Asset>)
    requires Sound(m, disk) && RewriteSubLayers(m, assets).Some?
    ensures AllCarried(m, AssetDependencies(assets, true), AssetDependencies(RewriteSubLayers(m, assets).value, true))
  {
    if assets != [] {
      LayerAssetIsPlaced(m, disk, assets[0]);
      SubLayersAreCarried(m, disk, assets[1..]);
      var rewritten := RewriteSubLayers(m, assets).value;
      assert rewritten[1..] == RewriteSubLayers(m, assets[1..]).value;
      OneMoreCarried(m, assets, rewritten, true);
    }
  }

  lemma ArcDependencyIsCarried(m: Move, disk: set<Path>, asset: Asset, arcs: bool)
    requires Sound(m, disk) && RewriteArc(m, asset).Some?
    ensures AllCarried(m, ArcDependency(asset, arcs), ArcDependency(RewriteArc(m, asset).value, arcs))
  {
    ArcIsCarried(m, disk, asset);
  }

  lemma {:induction false} PayloadsAreCarried(m: Move, disk: set<Path>, payloads: seq<PayloadArc>, arcs: bool)
    requires Sound(m, disk) && RewritePayloads(m, payloads).Some?
    ensures AllCarried(m, PayloadDependencies(payloads, arcs),
                       PayloadDependencies(RewritePayloads(m, payloads).value, arcs))
  {
    if payloads != [] {
      var rewritten := RewritePayloads(m, payloads).value;
      assert rewritten[1..] == RewritePayloads(m, payloads[1..]).value;
      ArcDependencyIsCarried(m, disk, payloads[0].asset, arcs);
      PayloadsAreCarried(m, disk, payloads[1..], arcs);
      CarriedTogether(m, ArcDependency(payloads[0].asset, arcs), ArcDependency(rewritten[0].asset, arcs),
                      PayloadDependencies(payloads[1..], arcs), PayloadDependencies(rewritten[1..], arcs));
    }
  }
}
