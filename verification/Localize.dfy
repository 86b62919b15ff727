/** Reading the localized copy of a source closure: rewritten asset paths lead to the images of the files the
    authored ones led to. */
module Localize {
  import opened Text
  import opened Wrappers
  import opened AssetPaths
  import opened ClosureValue

  predicate Holds(contents: (Path, string) -> bool, file: Path, inner: Option<string>) {
    inner.Some? ==> contents(file, inner.value)
  }

  /** A localized layer finds files next to it by lexical steps, and no other way; a path inside a package is found
      if the package holds it. */
  function LocalFile(m: Move, layer: Path, asset: Asset): Option<Path> {
    if asset.steps == [] || Anonymous(asset) then None
    else
      var path :=
        if asset.absolute then Some(asset.steps) else if layer == [] then None else Walk(Parent(layer), asset.steps);
      if path.Some? && path.value in m.mapping.Values && Holds(m.contents, path.value, asset.inner) then path else None
  }

  function LocalFinder(m: Move): Finder {
    (layer, asset) => LocalFile(m, layer, asset)
  }

  function ResolveLocal(m: Move, asset: Asset): Option<set<Path>> {
    Resolve(LocalFinder(m), m.localized, asset)
  }

  function Image(mapping: map<Path, Path>, files: set<Path>): set<Path>
    requires files <= mapping.Keys
  {
    set file | file in files :: mapping[file]
  }

  /** A name no part of an asset path would read as a pattern or a scheme. */
  predicate PlainName(step: string) {
    PlainStep(step) && !Contains(step, TOKEN) && !StartsWith(step, "anon:")
  }

  /** A normal path below the destination, with plain names from there on. */
  predicate PlainTarget(destination: Path, target: Path) {
    && destination < target && Plain(target)
    && forall step | step in target[|destination|..] :: PlainName(step)
  }

  /** The resolver reads names literally, looks into packages, and finds what is next to what it finds; next to a
      path inside a package, the same path inside another one that holds it. */
  ghost predicate LiteralFinder(find: Finder, contents: (Path, string) -> bool, layer: Path, disk: set<Path>) {
    && (forall asset, file | find(layer, asset) == Some(file) ::
          asset.steps != [] && file != [] && Last(file) == Last(asset.steps) && Holds(contents, file, asset.inner))
    && (forall asset, file, name | find(layer, asset) == Some(file) && Parent(file) + [name] in disk ::
          Holds(contents, Parent(file) + [name], asset.inner) ==> find(layer, Renamed(asset, name)).Some?)
  }

  /** Files keep their names, directories stay apart, and no file is another's directory. */
  ghost predicate Orderly(destination: Path, mapping: map<Path, Path>) {
    && (forall file | file in mapping ::
          file != [] && PlainTarget(destination, mapping[file]) && Last(mapping[file]) == Last(file))
    && (forall a, b | a in mapping && b in mapping && Parent(mapping[a]) == Parent(mapping[b]) ::
          Parent(a) == Parent(b))
    && (forall a, b | a in mapping && b in mapping && mapping[a] <= mapping[b] :: mapping[a] == mapping[b])
  }

  /** Packages are copied as they are. */
  ghost predicate ContentsMove(m: Move) {
    forall file, inner | file in m.mapping :: m.contents(m.mapping[file], inner) == m.contents(file, inner)
  }

  ghost predicate Sound(m: Move, disk: set<Path>) {
    && LiteralFinder(m.find, m.contents, m.original, disk) && ContentsMove(m)
    && Orderly(m.destination, m.mapping) && m.mapping.Keys <= disk
    && m.localized in m.mapping.Values
  }

  lemma PartsMake(names: seq<string>)
    requires names != []
    ensures Parent(names) + [Last(names)] == names
  {
  }

  // ---- Relative paths in the copy ----

  lemma LocalizedIsPlain(m: Move, disk: set<Path>)
    requires Sound(m, disk)
    ensures PlainTarget(m.destination, m.localized)
    ensures forall target | target in m.mapping.Values && target <= m.localized :: target == m.localized
  {
    var file :| file in m.mapping && m.mapping[file] == m.localized;
    forall target | target in m.mapping.Values && target <= m.localized ensures target == m.localized {
      var other :| other in m.mapping && m.mapping[other] == target;
    }
  }

  lemma {:induction false} CommonCovers(prefix: Path, left: Path, right: Path)
    requires prefix <= left && prefix <= right
    ensures Common(left, right) >= |prefix|
    decreases |prefix|
  {
    if prefix != [] {
      CommonCovers(prefix[1..], left[1..], right[1..]);
    }
  }

  /** Between places below one destination, a relative path has no step of the destination. */
  lemma StepsComeFromBelow(destination: Path, base: Path, target: Path)
    requires destination <= base && destination <= target
    ensures forall step | step in RelativeSteps(base, target) :: step == ".." || step in target[|destination|..]
  {
    var n := Common(base, target);
    CommonCovers(destination, base, target);
    forall step | step in target[n..] ensures step in target[|destination|..] {
      var k :| 0 <= k < |target| - n && target[n..][k] == step;
      assert target[|destination|..][n + k - |destination|] == step;
    }
  }

  lemma TargetIsNotAbove(m: Move, disk: set<Path>, target: Path)
    requires Sound(m, disk) && target in m.mapping.Values
    ensures PlainTarget(m.destination, target) && !(target <= Parent(m.localized))
  {
    LocalizedIsPlain(m, disk);
    var file :| file in m.mapping && m.mapping[file] == target;
    assert target <= Parent(m.localized) ==> target <= m.localized;
  }

  lemma ParentIsBelow(destination: Path, target: Path)
    requires destination < target
    ensures destination <= Parent(target)
  {
  }

  lemma UpIsNoName()
    ensures !Contains("..", TOKEN) && !StartsWith("..", "anon:")
  {
    assert ".."[1..] == "." && "."[1..] == "";
    assert !StartsWith("..", TOKEN) && !StartsWith(".", TOKEN) && !StartsWith("", TOKEN);
  }

  /** A file of the copy is found by the relative path the rewriting writes for it, and so is a path inside it that
      it holds. */
  lemma RelativeIsFound(m: Move, disk: set<Path>, target: Path, inner: Option<string>)
    requires Sound(m, disk) && target in m.mapping.Values && Holds(m.contents, target, inner)
    ensures AuthoredRelative(m.localized, target).Some?
    ensures ResolveLocal(m, AuthoredRelative(m.localized, target).value.(inner := inner)) == Some({target})
  {
    LocalizedIsPlain(m, disk);
    TargetIsNotAbove(m, disk, target);
    var base := Parent(m.localized);
    ParentIsBelow(m.destination, m.localized);
    RelativeEndsInName(base, target);
    RelativeLeadsBack(base, target);
    StepsComeFromBelow(m.destination, base, target);
    UpIsNoName();
    var asset := AuthoredRelative(m.localized, target).value.(inner := inner);
    assert asset.steps == RelativeSteps(base, target);
    assert asset.steps[0] in asset.steps;
    assert !HasToken(asset) && !Anonymous(asset);
    assert LocalFinder(m)(m.localized, asset) == Some(target);
  }

  // ---- The same name in the directory's image ----

  /** Authored in the copy: the same file name, after steps to the directory. */
  ghost predicate NamesIn(m: Move, asset: Asset, name: string, directory: Path) {
    && m.localized != [] && !asset.absolute && asset.steps != [] && Last(asset.steps) == name
    && Walk(Parent(m.localized), Parent(asset.steps)) == Some(directory)
    && forall step | step in Parent(asset.steps) :: !Contains(step, TOKEN) && !StartsWith(step, "anon:")
  }

  lemma NameIsLocated(m: Move, asset: Asset, name: string, directory: Path)
    requires NamesIn(m, asset, name, directory) && PlainStep(name)
    requires directory + [name] in m.mapping.Values ==> !StartsWith(name, "anon:")
    ensures LocalFile(m, m.localized, asset)
            == if directory + [name] in m.mapping.Values && Holds(m.contents, directory + [name], asset.inner)
               then Some(directory + [name]) else None
  {
    PartsMake(asset.steps);
    WalkInParts(Parent(m.localized), Parent(asset.steps), [name]);
    assert [name][1..] == [];
    assert Walk(directory, [name]) == Some(directory + [name]);
    if asset.steps[0] != name { assert asset.steps[0] in Parent(asset.steps); }
  }

  lemma LastIsPlain(destination: Path, target: Path)
    requires PlainTarget(destination, target)
    ensures PlainName(Last(target))
  {
    assert Last(target[|destination|..]) == Last(target);
    assert Last(target) in target[|destination|..];
  }

  lemma MappedIn(m: Move, file: Path, directory: Path)
    requires Orderly(m.destination, m.mapping) && GoTo(m.mapping, {file}, directory)
    ensures m.mapping[file] == directory + [Last(file)]
    ensures m.mapping[file] in m.mapping.Values && PlainName(Last(file))
  {
    assert file in {file};
    PartsMake(m.mapping[file]);
    LastIsPlain(m.destination, m.mapping[file]);
  }

  lemma TileNameIsPlain(name: string, tile: nat)
    requires Contains(name, TOKEN) && tile < 10000
    ensures PlainStep(TileName(name, tile))
  {
    assert |TileName(name, tile)| >= 4;
  }

  lemma TileNamesIn(m: Move, asset: Asset, name: string, directory: Path, tile: nat)
    requires NamesIn(m, asset, name, directory) && Contains(name, TOKEN) && IsTile(tile)
    ensures NamesIn(m, Tile(asset, tile), TileName(name, tile), directory)
  {
    assert Parent(Tile(asset, tile).steps) == Parent(asset.steps);
  }

  lemma NameOfTarget(m: Move, target: Path)
    requires Orderly(m.destination, m.mapping) && target in m.mapping.Values
    ensures target != [] && PlainName(Last(target))
  {
    var file :| file in m.mapping && m.mapping[file] == target;
    LastIsPlain(m.destination, target);
  }

  lemma TileIsLocated(m: Move, disk: set<Path>, asset: Asset, name: string, directory: Path, tile: nat)
    requires Sound(m, disk) && NamesIn(m, asset, name, directory) && Contains(name, TOKEN) && IsTile(tile)
    ensures var target := directory + [TileName(name, tile)];
            LocalFinder(m)(m.localized, Tile(asset, tile))
            == if target in m.mapping.Values && Holds(m.contents, target, asset.inner) then Some(target) else None
  {
    var target := directory + [TileName(name, tile)];
    TileNamesIn(m, asset, name, directory, tile);
    TileNameIsPlain(name, tile);
    if target in m.mapping.Values { NameOfTarget(m, target); }
    NameIsLocated(m, Tile(asset, tile), TileName(name, tile), directory);
  }

  ghost predicate TileFile(find: Finder, layer: Path, asset: Asset, tile: nat, file: Path)
    requires asset.steps != [] && Contains(Last(asset.steps), TOKEN)
  {
    IsTile(tile) && find(layer, Tile(asset, tile)) == Some(file)
  }

  lemma TilesResolve(find: Finder, layer: Path, asset: Asset, files: set<Path>)
    requires asset.steps != [] && Contains(Last(asset.steps), TOKEN)
    ensures HasToken(asset)
    ensures Resolve(find, layer, asset) == Some(files) <==>
            files != {} && forall file :: file in files <==>
                exists tile: nat :: TileFile(find, layer, asset, tile, file)
  {
    assert Last(asset.steps) in asset.steps;
    var found := set tile: nat | FIRST_TILE <= tile <= LAST_TILE && find(layer, Tile(asset, tile)).Some? ::
                   find(layer, Tile(asset, tile)).value;
    forall file ensures file in found <==> exists tile: nat :: TileFile(find, layer, asset, tile, file) {
      if tile: nat :| TileFile(find, layer, asset, tile, file) {
        assert find(layer, Tile(asset, tile)).Some?;
      }
      if file in found {
        var tile: nat :| FIRST_TILE <= tile <= LAST_TILE && find(layer, Tile(asset, tile)) == Some(file);
        assert TileFile(find, layer, asset, tile, file);
      }
    }
    assert Resolve(find, layer, asset) == if found == {} then None else Some(found);
    if files != {} && forall file :: file in files <==> exists tile: nat :: TileFile(find, layer, asset, tile, file) {
      assert files == found;
    }
  }

  lemma PatternHasToken(find: Finder, layer: Path, asset: Asset)
    requires Resolve(find, layer, asset).Some? && HasToken(asset)
    ensures asset.steps != [] && Contains(Last(asset.steps), TOKEN)
  {
  }

  /** Two files that move to one directory under a file's name and another's come from one directory. */
  lemma ComesFrom(m: Move, there: Path, file: Path, directory: Path, name: string)
    requires Orderly(m.destination, m.mapping) && there in m.mapping && m.mapping[there] == directory + [name]
    requires file in m.mapping && m.mapping[file] != [] && Parent(m.mapping[file]) == directory
    ensures file != [] && there == Parent(file) + [name]
  {
    assert Parent(m.mapping[there]) == directory;
    assert Last(m.mapping[there]) == name;
    PartsMake(there);
  }

  /** A tile present in the copy is the image of a tile the original pattern found. */
  lemma LocalTileIsImage(m: Move, disk: set<Path>, original: Asset, file: Path, other: nat, directory: Path, tile: nat)
    requires Sound(m, disk) && original.steps != [] && Contains(Last(original.steps), TOKEN)
    requires TileFile(m.find, m.original, original, other, file) && GoTo(m.mapping, {file}, directory) && IsTile(tile)
    requires directory + [TileName(Last(original.steps), tile)] in m.mapping.Values
    requires Holds(m.contents, directory + [TileName(Last(original.steps), tile)], original.inner)
    ensures m.find(m.original, Tile(original, tile)).Some?
  {
    var name := TileName(Last(original.steps), tile);
    var there :| there in m.mapping && m.mapping[there] == directory + [name];
    assert file in {file};
    ComesFrom(m, there, file, directory, name);
    assert Renamed(Tile(original, other), name) == Tile(original, tile);
  }

  lemma FoundTileIsThere(m: Move, disk: set<Path>, original: Asset, found: Path, directory: Path, tile: nat)
    requires Sound(m, disk) && original.steps != [] && Contains(Last(original.steps), TOKEN)
    requires TileFile(m.find, m.original, original, tile, found) && GoTo(m.mapping, {found}, directory)
    ensures m.mapping[found] == directory + [TileName(Last(original.steps), tile)]
    ensures m.mapping[found] in m.mapping.Values
  {
    MappedIn(m, found, directory);
    assert Last(found) == Last(Tile(original, tile).steps);
  }

  lemma TileOfCopyIsImage(m: Move, disk: set<Path>, original: Asset, files: set<Path>, directory: Path, asset: Asset,
                          tile: nat, target: Path)
    requires Sound(m, disk) && original.steps != [] && Contains(Last(original.steps), TOKEN)
    requires files != {} && forall file :: file in files <==>
        exists t: nat :: TileFile(m.find, m.original, original, t, file)
    requires GoTo(m.mapping, files, directory) && NamesIn(m, asset, Last(original.steps), directory)
    requires asset.inner == original.inner
    requires TileFile(LocalFinder(m), m.localized, asset, tile, target)
    ensures exists file :: file in files && m.mapping[file] == target
  {
    TileIsLocated(m, disk, asset, Last(original.steps), directory, tile);
    var file :| file in files;
    var other: nat :| TileFile(m.find, m.original, original, other, file);
    LocalTileIsImage(m, disk, original, file, other, directory, tile);
    var found := m.find(m.original, Tile(original, tile)).value;
    assert TileFile(m.find, m.original, original, tile, found);
    assert found in files;
    FoundTileIsThere(m, disk, original, found, directory, tile);
  }

  lemma ImageIsTileOfCopy(m: Move, disk: set<Path>, original: Asset, files: set<Path>, directory: Path, asset: Asset,
                          file: Path)
    requires Sound(m, disk) && original.steps != [] && Contains(Last(original.steps), TOKEN)
    requires forall f :: f in files <==> exists t: nat :: TileFile(m.find, m.original, original, t, f)
    requires GoTo(m.mapping, files, directory) && NamesIn(m, asset, Last(original.steps), directory)
    requires asset.inner == original.inner
    requires file in files
    ensures exists t: nat :: TileFile(LocalFinder(m), m.localized, asset, t, m.mapping[file])
  {
    var tile: nat :| TileFile(m.find, m.original, original, tile, file);
    FoundTileIsThere(m, disk, original, file, directory, tile);
    TileIsLocated(m, disk, asset, Last(original.steps), directory, tile);
    assert TileFile(LocalFinder(m), m.localized, asset, tile, m.mapping[file]);
  }

  lemma ImagesAreTilesOfCopy(m: Move, disk: set<Path>, original: Asset, files: set<Path>, directory: Path,
                             asset: Asset, target: Path)
    requires Sound(m, disk) && original.steps != [] && Contains(Last(original.steps), TOKEN)
    requires files != {} && files <= m.mapping.Keys
    requires forall f :: f in files <==> exists t: nat :: TileFile(m.find, m.original, original, t, f)
    requires GoTo(m.mapping, files, directory) && NamesIn(m, asset, Last(original.steps), directory)
    requires asset.inner == original.inner
    ensures target in Image(m.mapping, files)
            <==> exists t: nat :: TileFile(LocalFinder(m), m.localized, asset, t, target)
  {
    if tile: nat :| TileFile(LocalFinder(m), m.localized, asset, tile, target) {
      TileOfCopyIsImage(m, disk, original, files, directory, asset, tile, target);
    }
    if target in Image(m.mapping, files) {
      var file :| file in files && m.mapping[file] == target;
      ImageIsTileOfCopy(m, disk, original, files, directory, asset, file);
    }
  }

  /** A pattern in the file name finds, in the copy, exactly the images of what it found. */
  lemma PatternFindsImages(m: Move, disk: set<Path>, original: Asset, files: set<Path>, directory: Path, asset: Asset)
    requires Sound(m, disk) && Resolve(m.find, m.original, original) == Some(files) && HasToken(original)
    requires GoTo(m.mapping, files, directory) && NamesIn(m, asset, Last(original.steps), directory)
    requires asset.inner == original.inner
    ensures files <= m.mapping.Keys && ResolveLocal(m, asset) == Some(Image(m.mapping, files))
  {
    PatternHasToken(m.find, m.original, original);
    TilesResolve(m.find, m.original, original, files);
    var image := Image(m.mapping, files);
    forall target
      ensures target in image <==> exists t: nat :: TileFile(LocalFinder(m), m.localized, asset, t, target)
    {
      ImagesAreTilesOfCopy(m, disk, original, files, directory, asset, target);
    }
    var file :| file in files;
    assert m.mapping[file] in image;
    TilesResolve(LocalFinder(m), m.localized, asset, image);
  }

  /** A plain file name finds the image of what it found. */
  lemma NameFindsImage(m: Move, disk: set<Path>, original: Asset, file: Path, directory: Path, asset: Asset)
    requires Sound(m, disk) && m.find(m.original, original) == Some(file) && !HasToken(original)
    requires GoTo(m.mapping, {file}, directory) && NamesIn(m, asset, Last(original.steps), directory)
    requires asset.inner == original.inner
    ensures file in m.mapping && ResolveLocal(m, asset) == Some({m.mapping[file]})
  {
    MappedIn(m, file, directory);
    NameIsLocated(m, asset, Last(original.steps), directory);
    PartsMake(asset.steps);
    assert Last(original.steps) in original.steps;
    assert !HasToken(asset);
  }
}
