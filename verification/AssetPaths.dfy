/** Asset paths as USD layers author them, and the files they lead to. A canonical file path is the list of its
    components below the root; authored text is its list of steps, with an optional path inside a package. */
module AssetPaths {
  import opened Text
  import opened Wrappers

  type Path = seq<string>

  datatype Asset = Asset(absolute: bool, steps: seq<string>, inner: Option<string>)

  /** A resolver as seen from one layer, ending in a regular file. */
  type Finder = (Path, Asset) -> Option<Path>

  const TOKEN: string := "<UDIM>"
  const FIRST_TILE: nat := 1001
  const LAST_TILE: nat := 1999

  function Last(names: seq<string>): string
    requires names != []
  {
    names[|names| - 1]
  }

  function Parent(names: seq<string>): seq<string>
    requires names != []
  {
    names[..|names| - 1]
  }

  predicate IsEmpty(asset: Asset) {
    !asset.absolute && asset.steps == [] && asset.inner.None?
  }

  predicate Anonymous(asset: Asset) {
    !asset.absolute && asset.steps != [] && StartsWith(asset.steps[0], "anon:")
  }

  /** Where a token first occurs. */
  function Find(text: string, token: string): (r: Option<nat>)
    ensures r.Some? ==> r.value + |token| <= |text|
  {
    if StartsWith(text, token) then Some(0)
    else if text == "" then None
    else
      var rest := Find(text[1..], token);
      if rest.None? then None else Some(rest.value + 1)
  }

  predicate Contains(text: string, token: string) {
    Find(text, token).Some?
  }

  // ---- Relative paths ----

  predicate PlainStep(step: string) {
    step != "" && step != "." && step != ".."
  }

  predicate Plain(path: Path) {
    forall step | step in path :: PlainStep(step)
  }

  /** Following steps from a directory, staying below the root. */
  function Walk(base: Path, steps: seq<string>): Option<Path>
    decreases |steps|
  {
    if steps == [] then Some(base)
    else if steps[0] == "" || steps[0] == "." then Walk(base, steps[1..])
    else if steps[0] == ".." then if base == [] then None else Walk(Parent(base), steps[1..])
    else Walk(base + [steps[0]], steps[1..])
  }

  function Common(left: Path, right: Path): (n: nat)
    ensures n <= |left| && n <= |right| && left[..n] == right[..n]
    ensures n < |left| && n < |right| ==> left[n] != right[n]
  {
    if left == [] || right == [] || left[0] != right[0] then 0 else 1 + Common(left[1..], right[1..])
  }

  function Ups(n: nat): seq<string> {
    seq(n, _ => "..")
  }

  function RelativeSteps(base: Path, target: Path): seq<string> {
    Ups(|base| - Common(base, target)) + target[Common(base, target)..]
  }

  /** How a layer names a file: relative to the layer's own directory. */
  function AuthoredRelative(layer: Path, target: Path): Option<Asset> {
    if layer == [] then None else
      var steps := RelativeSteps(Parent(layer), target);
      if steps == [] then None else Some(Asset(false, steps, None))
  }

  lemma {:induction false} WalkInParts(base: Path, first: seq<string>, second: seq<string>)
    ensures Walk(base, first + second) ==
            match Walk(base, first) case None => None case Some(middle) => Walk(middle, second)
    decreases |first|
  {
    if first == [] {
      assert [] + second == second;
    } else {
      assert (first + second)[1..] == first[1..] + second;
      if first[0] == "" || first[0] == "." {
        WalkInParts(base, first[1..], second);
      } else if first[0] == ".." {
        if base != [] { WalkInParts(Parent(base), first[1..], second); }
      } else {
        WalkInParts(base + [first[0]], first[1..], second);
      }
    }
  }

  lemma {:induction false} WalkUp(base: Path, n: nat)
    requires n <= |base|
    ensures Walk(base, Ups(n)) == Some(base[..|base| - n])
    decreases n
  {
    if n == 0 {
      assert base[..|base|] == base;
    } else {
      assert Ups(n)[1..] == Ups(n - 1);
      WalkUp(Parent(base), n - 1);
      assert Parent(base)[..|base| - n] == base[..|base| - n];
    }
  }

  lemma {:induction false} WalkDown(base: Path, names: Path)
    requires Plain(names)
    ensures Walk(base, names) == Some(base + names)
    decreases |names|
  {
    if names == [] {
      assert base + [] == base;
    } else {
      assert names == [names[0]] + names[1..] && names[0] in names;
      WalkDown(base + [names[0]], names[1..]);
      assert base + [names[0]] + names[1..] == base + names;
    }
  }

  /** The relative steps lead back to the file. */
  lemma RelativeLeadsBack(base: Path, target: Path)
    requires Plain(target)
    ensures Walk(base, RelativeSteps(base, target)) == Some(target)
  {
    var n := Common(base, target);
    WalkInParts(base, Ups(|base| - n), target[n..]);
    WalkUp(base, |base| - n);
    WalkDown(base[..n], target[n..]);
    assert base[..n] + target[n..] == target;
  }

  /** The steps end in the file's own name unless the file is a directory above the base. */
  lemma RelativeEndsInName(base: Path, target: Path)
    requires target != [] && !(target <= base)
    ensures RelativeSteps(base, target) != []
    ensures Last(RelativeSteps(base, target)) == Last(target)
  {
    var n := Common(base, target);
    assert target[..n] == base[..n] && target[..|target|] == target;
  }

  // ---- Tiles ----

  function TileText(tile: nat): string
    requires tile < 10000
  {
    [Digit(tile / 1000), Digit(tile / 100 % 10), Digit(tile / 10 % 10), Digit(tile % 10)]
  }

  lemma OneMoreDigit(front: string, d: nat)
    requires d < 10
    ensures NumberOf(front + [Digit(d)]) == 10 * NumberOf(front) + d
  {
    DigitsHaveValues(d);
    assert (front + [Digit(d)])[..|front|] == front;
  }

  lemma TileTextReadsBack(tile: nat)
    requires tile < 10000
    ensures |TileText(tile)| == 4 && NumberOf(TileText(tile)) == tile
  {
    var a, b, c, d := tile / 1000, tile / 100 % 10, tile / 10 % 10, tile % 10;
    OneMoreDigit("", a);
    OneMoreDigit([Digit(a)], b);
    OneMoreDigit([Digit(a), Digit(b)], c);
    OneMoreDigit([Digit(a), Digit(b), Digit(c)], d);
    assert "" + [Digit(a)] == [Digit(a)] && [Digit(a)] + [Digit(b)] == [Digit(a), Digit(b)];
    assert [Digit(a), Digit(b)] + [Digit(c)] == [Digit(a), Digit(b), Digit(c)];
    assert [Digit(a), Digit(b), Digit(c)] + [Digit(d)] == TileText(tile);
    DigitsMakeTile(tile);
  }

  lemma DigitsMakeTile(tile: nat)
    ensures 10 * (10 * (10 * (tile / 1000) + tile / 100 % 10) + tile / 10 % 10) + tile % 10 == tile
  {
    assert tile / 100 / 10 == tile / 1000 && tile / 10 / 10 == tile / 100;
  }

  /** The texts and numbers that patterns are made of. */
  lemma PatternsAsWritten(asset: Asset, tile: nat)
    ensures IsEmpty(asset) <==> asset == Asset(false, [], None)
    ensures TOKEN == "<UDIM>" && (IsTile(tile) <==> 1001 <= tile <= 1999)
  {
  }

  function TileName(name: string, tile: nat): string
    requires Contains(name, TOKEN) && tile < 10000
  {
    var at := Find(name, TOKEN).value;
    name[..at] + TileText(tile) + name[at + |TOKEN|..]
  }

  predicate HasToken(asset: Asset) {
    exists step | step in asset.steps :: Contains(step, TOKEN)
  }

  function Renamed(asset: Asset, name: string): Asset
    requires asset.steps != []
  {
    asset.(steps := Parent(asset.steps) + [name])
  }

  predicate IsTile(tile: nat) {
    FIRST_TILE <= tile <= LAST_TILE
  }

  function Tile(asset: Asset, tile: nat): Asset
    requires asset.steps != [] && Contains(Last(asset.steps), TOKEN) && IsTile(tile)
  {
    Renamed(asset, TileName(Last(asset.steps), tile))
  }

  /** The files an authored asset stands for: one, or the tiles a pattern finds; nothing when there are none. */
  function Resolve(find: Finder, layer: Path, asset: Asset): Option<set<Path>> {
    if IsEmpty(asset) then None
    else if HasToken(asset) then
      if !Contains(Last(asset.steps), TOKEN) then None else
        var found := set tile: nat | FIRST_TILE <= tile <= LAST_TILE && find(layer, Tile(asset, tile)).Some? ::
                       find(layer, Tile(asset, tile)).value;
        if found == {} then None else Some(found)
    else
      match find(layer, asset) case None => None case Some(path) => Some({path})
  }

  // ---- Extensions ----

  function Lower(text: string): string {
    seq(|text|, i requires 0 <= i < |text| => if 'A' <= text[i] <= 'Z' then text[i] - 'A' + 'a' else text[i])
  }

  function AfterLastDot(name: string): Option<string> {
    if name == "" then None
    else
      var rest := AfterLastDot(name[1..]);
      if rest.Some? then rest else if name[0] == '.' then Some(name[1..]) else None
  }

  /** The extension of a file name; a name whose only dot is its first character has none. */
  function Extension(name: string): Option<string> {
    if name == "" || name == ".." then None else AfterLastDot(name[1..])
  }

  const OPTIONAL_EXTENSIONS: set<string> :=
    {"mdl", "png", "jpg", "jpeg", "exr", "hdr", "tif", "tiff", "bmp", "ktx2"}

  /** Renderer-only assets, whose absence is tolerated. */
  predicate IsOptional(asset: Asset) {
    && asset.steps != [] && asset.inner.None?
    && Extension(Last(asset.steps)).Some?
    && Lower(Extension(Last(asset.steps)).value) in OPTIONAL_EXTENSIONS
  }
}
