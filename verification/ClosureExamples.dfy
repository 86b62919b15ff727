/** Concrete closures: one below a directory with a hash mark in its name, which is as good as any; and three on which
    localization does less than it is meant to. */
module ClosureExamples {
  import opened Text
  import opened Wrappers
  import opened AssetPaths
  import opened ClosureValue
  import opened ClosurePlan
  import opened Localize
  import opened LocalizeTheorems
  import opened LocalizeValues
  import opened LocalizeSucceeds

  // ---- Marks in a directory ----

  const CLIP_TEMPLATE: Asset := Asset(false, ["c#", "f"], None)
  const CLIP_FILE: Path := ["s", "c1", "f"]
  const CLIP: seq<Entry> := [Entry("templateAssetPath", AssetPath(CLIP_TEMPLATE))]

  /** A layer `s/l` with one clip `s/c1/f`, localized below `C#`. */
  const CLIP_MOVE: Move := Move(
    (layer: Path, asset: Asset) => if asset == Asset(false, ["c1", "f"], None) then Some(CLIP_FILE) else None,
    (file: Path, inner: string) => false,
    ["s", "l"], ["C#", "l"], ["C#"],
    map[["s", "l"] := ["C#", "l"], CLIP_FILE := ["C#", "c1", "f"]],
    Numbering((start, end, stride) => Some([1]), (width, time) => "1"))

  lemma ShortIsPlain(name: string)
    requires |name| in {1, 2} && name !in {".", ".."} && '<' !in name
    ensures PlainName(name)
  {
    NoAngleNoToken(name);
  }

  lemma ClipFinderIsLiteral()
    ensures LiteralFinder(CLIP_MOVE.find, CLIP_MOVE.contents, CLIP_MOVE.original, CLIP_MOVE.mapping.Keys)
  {
    var m := CLIP_MOVE;
    forall asset, file, name | m.find(m.original, asset) == Some(file) && Parent(file) + [name] in m.mapping.Keys
      ensures m.find(m.original, Renamed(asset, name)).Some?
    {
      assert (Parent(file) + [name])[2] == name;
      assert Renamed(asset, name).steps == ["c1", name];
    }
  }

  lemma PlacesArePlain(top: string, directory: string, name: string)
    requires PlainStep(top) && PlainName(directory) && PlainName(name)
    ensures PlainTarget([top], [top, name]) && PlainTarget([top], [top, directory, name])
  {
    assert [top, name][1..] == [name];
    assert [top, directory, name][1..] == [directory, name];
  }

  lemma TwoPlacesAreOrderly(top: string, layer: string, directory: string, name: string)
    requires PlainStep(top) && PlainName(layer) && PlainName(directory) && PlainName(name) && layer != directory
    ensures Orderly([top], map[["s", layer] := [top, layer], ["s", directory, name] := [top, directory, name]])
  {
    PlacesArePlain(top, directory, layer);
    PlacesArePlain(top, directory, name);
    var a, b := [top, layer], [top, directory, name];
    assert Parent(a) == [top] && Parent(b) == [top, directory] && a[1] == layer && b[1] == directory;
  }

  lemma ClipPlanIsOrderly()
    ensures Orderly(CLIP_MOVE.destination, CLIP_MOVE.mapping)
  {
    ShortIsPlain("l");
    ShortIsPlain("f");
    ShortIsPlain("c1");
    TwoPlacesAreOrderly("C#", "l", "c1", "f");
  }

  lemma ClipMoveIsSound()
    ensures Sound(CLIP_MOVE, CLIP_MOVE.mapping.Keys)
  {
    ClipFinderIsLiteral();
    ClipPlanIsOrderly();
    assert CLIP_MOVE.mapping[["s", "l"]] == CLIP_MOVE.localized;
  }

  lemma ClipIsFound()
    ensures IsTemplate(CLIP_TEMPLATE.steps) && !HashInName(CLIP_TEMPLATE)
    ensures ExpandTemplate(CLIP_MOVE.numbering, CLIP, CLIP_TEMPLATE) == Some([Asset(false, ["c1", "f"], None)])
    ensures Resolve(CLIP_MOVE.find, CLIP_MOVE.original, Asset(false, ["c1", "f"], None)) == Some({CLIP_FILE})
  {
    assert ['c', '#'][1..] == "#" && "#"[1..] == "";
    assert "c#"[1..] == "#";
    assert FirstHash("c#") == 1 && HashRun("#") == 1 && AfterRun("c#") == "";
    assert HashStep(["c#", "f"]) == Some(0);
    assert NumberedName(CLIP_MOVE.numbering, "c#", 1) == "c1";
    assert Numbered(CLIP_MOVE.numbering, CLIP_TEMPLATE, 1).steps == ["c1", "f"];
    assert TemplateTimes(CLIP_MOVE.numbering, CLIP) == Some([1]);
    assert ExpandTemplate(CLIP_MOVE.numbering, CLIP, CLIP_TEMPLATE).value == [Asset(false, ["c1", "f"], None)];
    ShortIsPlain("c1");
    ShortIsPlain("f");
  }

  lemma ClipIsServed()
    ensures TemplateServed(CLIP_MOVE, CLIP_TEMPLATE, ExpandTemplate(CLIP_MOVE.numbering, CLIP, CLIP_TEMPLATE))
  {
    ClipIsFound();
    var m := CLIP_MOVE;
    var files := [Asset(false, ["c1", "f"], None)];
    assert Single(Resolve(m.find, m.original, files[0]), CLIP_FILE);
    assert Originals(m, files, [CLIP_FILE]);
    assert FileSet([CLIP_FILE]) == {CLIP_FILE};
    assert Parent(m.mapping[CLIP_FILE]) == ["C#", "c1"];
    assert GoTo(m.mapping, FileSet([CLIP_FILE]), ["C#", "c1"]);
    assert ServedFrom(m, CLIP_TEMPLATE, files, [CLIP_FILE], ["C#", "c1"]);
  }

  lemma RewrittenClip()
    requires RewriteTemplate(CLIP_MOVE, CLIP, CLIP_TEMPLATE).Some?
    ensures RewriteTemplate(CLIP_MOVE, CLIP, CLIP_TEMPLATE).value.steps == RelativeSteps(["C#"], ["C#", "c1", "f"])
  {
    ClipIsFound();
    var m := CLIP_MOVE;
    var files, directory := TemplateRewriting(m, CLIP, CLIP_TEMPLATE);
    assert files[0] in FileSet(files);
    assert Single(Resolve(m.find, m.original, Asset(false, ["c1", "f"], None)), files[0]);
    assert files[0] in {CLIP_FILE};
    assert directory == Parent(m.mapping[CLIP_FILE]) == ["C#", "c1"];
    assert ["C#", "c1"] + ["f"] == ["C#", "c1", "f"];
  }

  lemma RewrittenClipHasNoMark()
    ensures HashStep(RelativeSteps(["C#"], ["C#", "c1", "f"])).None?
  {
    StepsComeFromBelow(["C#"], ["C#"], ["C#", "c1", "f"]);
    assert ["C#", "c1", "f"][1..] == ["c1", "f"];
    HashStepIsNone(RelativeSteps(["C#"], ["C#", "c1", "f"]));
  }

  /** A clip template with its marks in a directory is rewritten, and what it is rewritten to expands to nothing. */
  lemma MarksInDirectoryAreLost()
    ensures Sound(CLIP_MOVE, CLIP_MOVE.mapping.Keys)
    ensures RewriteTemplate(CLIP_MOVE, CLIP, CLIP_TEMPLATE).Some?
    ensures ExpandTemplate(CLIP_MOVE.numbering, CLIP, CLIP_TEMPLATE).Some?
    ensures ExpandTemplate(CLIP_MOVE.numbering, CLIP, RewriteTemplate(CLIP_MOVE, CLIP, CLIP_TEMPLATE).value).None?
  {
    var m := CLIP_MOVE;
    ClipMoveIsSound();
    ClipIsFound();
    ClipIsServed();
    TemplateSucceeds(m, CLIP, CLIP_TEMPLATE);
    RewrittenClip();
    RewrittenClipHasNoMark();
  }

  // ---- A place for two ----

  const TWO_PLAN: Plan := Plan(["s"], ["d"], (directory: Path) => if directory == ["x"] then "t" else "u")

  /** A source file under `external` can sit where a file from elsewhere goes. */
  lemma PlacesCanBeShared()
    ensures var files := {["s", "external", "t", "f"], ["x", "f"]};
      && AreFiles(TWO_PLAN, files) && LabelsApart(TWO_PLAN, files)
      && TargetOf(TWO_PLAN, ["s", "external", "t", "f"]) == TargetOf(TWO_PLAN, ["x", "f"])
      && ["s", "external", "t", "f"] != ["x", "f"]
  {
    var inner, outer := ["s", "external", "t", "f"], ["x", "f"];
    assert inner[0] == "s" && outer[0] == "x";
    assert Parent(outer) == ["x"] && Parent(inner) == ["s", "external", "t"];
    assert inner[1..] == ["external", "t", "f"];
    assert Internal(TWO_PLAN, inner) && !Internal(TWO_PLAN, outer);
    assert TargetOf(TWO_PLAN, inner) == ["d", "external", "t", "f"] == TargetOf(TWO_PLAN, outer);
  }

  // ---- A spread pattern ----

  const TILE_NAME: string := "<UDIM>.png"
  const TEXTURE: Asset := Asset(false, [TILE_NAME], None)

  lemma TileNameHasToken()
    ensures Contains(TILE_NAME, TOKEN) && Find(TILE_NAME, TOKEN) == Some(0) && HasToken(TEXTURE)
  {
    assert StartsWith(TILE_NAME, TOKEN);
    assert TILE_NAME in TEXTURE.steps;
  }

  function TileFileName(tile: nat): string
    requires IsTile(tile)
  {
    TileText(tile) + ".png"
  }

  lemma TileFileNameIsPlain(tile: nat)
    requires IsTile(tile)
    ensures PlainName(TileFileName(tile)) && |TileFileName(tile)| == 8
  {
    NoAngleNoToken(TileFileName(tile));
    assert TileFileName(tile)[0] == Digit(tile / 1000) && tile / 1000 == 1;
  }

  lemma TileNames(tile: nat)
    requires IsTile(tile)
    ensures Contains(TILE_NAME, TOKEN) && TileName(TILE_NAME, tile) == TileFileName(tile)
    ensures Tile(TEXTURE, tile) == Asset(false, [TileFileName(tile)], None)
  {
    TokenIsReplaced(tile);
    assert Parent(TEXTURE.steps) + [TileFileName(tile)] == [TileFileName(tile)];
  }

  lemma TokenIsReplaced(tile: nat)
    requires IsTile(tile)
    ensures Contains(TILE_NAME, TOKEN) && TileName(TILE_NAME, tile) == TileFileName(tile)
  {
    TileNameHasToken();
    assert TILE_NAME[|TOKEN|..] == ".png";
  }

  lemma TilesDiffer()
    ensures TileFileName(1001) != TileFileName(1002)
  {
    assert TileFileName(1001)[3] == Digit(1) && TileFileName(1002)[3] == Digit(2);
  }

  lemma {:induction false} DotIsFound(before: string, after: string)
    requires AfterLastDot(after).Some?
    ensures AfterLastDot(before + after) == AfterLastDot(after)
    decreases |before|
  {
    if before == "" {
      assert before + after == after;
    } else {
      assert (before + after)[1..] == before[1..] + after;
      DotIsFound(before[1..], after);
    }
  }

  lemma TextureIsOptional()
    ensures IsOptional(TEXTURE)
  {
    assert "png"[1..] == "ng" && "ng"[1..] == "g" && "g"[1..] == "";
    assert AfterLastDot("").None?;
    assert AfterLastDot("g").None?;
    assert AfterLastDot("ng").None?;
    assert AfterLastDot("png").None?;
    assert ".png"[1..] == "png";
    assert AfterLastDot(".png") == Some("png");
    DotIsFound("UDIM>", ".png");
    assert TILE_NAME[1..] == "UDIM>" + ".png";
    assert Lower("png") == "png";
  }

  /** Two tiles, found in two directories that the plan keeps apart. */
  const TEXTURE_MOVE: Move := Move(
    (layer: Path, asset: Asset) =>
      if asset == Asset(false, [TileFileName(1001)], None) then Some(["s", "x", TileFileName(1001)])
      else if asset == Asset(false, [TileFileName(1002)], None) then Some(["s", "y", TileFileName(1002)])
      else None,
    (file: Path, inner: string) => false,
    ["s", "l"], ["d", "l"], ["d"],
    ThreePlaces(TileFileName(1001), TileFileName(1002)),
    Numbering((start, end, stride) => None, (width, time) => ""))

  lemma TextureFinderIsLiteral()
    ensures LiteralFinder(TEXTURE_MOVE.find, TEXTURE_MOVE.contents, TEXTURE_MOVE.original, TEXTURE_MOVE.mapping.Keys)
  {
    var m := TEXTURE_MOVE;
    forall asset, file, name | m.find(m.original, asset) == Some(file) && Parent(file) + [name] in m.mapping.Keys
      ensures m.find(m.original, Renamed(asset, name)).Some?
    {
      assert (Parent(file) + [name])[2] == name && (Parent(file) + [name])[1] == file[1];
      assert Renamed(asset, name).steps == [name];
    }
  }

  /** Three files in three directories. */
  function ThreePlaces(one: string, two: string): map<Path, Path> {
    map[["s", "l"] := ["d", "l"], ["s", "x", one] := ["d", "x", one], ["s", "y", two] := ["d", "y", two]]
  }

  lemma ThreePlacesArePlain(one: string, two: string)
    requires PlainName(one) && PlainName(two) && PlainName("l") && PlainName("x") && PlainName("y")
    ensures forall file | file in ThreePlaces(one, two) ::
              var place := ThreePlaces(one, two)[file];
              file != [] && PlainTarget(["d"], place) && Last(place) == Last(file)
  {
    PlacesArePlain("d", "x", "l");
    PlacesArePlain("d", "x", one);
    PlacesArePlain("d", "y", two);
  }

  lemma ThreePlacesAreApart(one: string, two: string)
    ensures forall a, b | a in ThreePlaces(one, two) && b in ThreePlaces(one, two) && a != b ::
              var places := ThreePlaces(one, two);
              Parent(places[a]) != Parent(places[b]) && !(places[a] <= places[b])
  {
    var a, b, c := ["d", "l"], ["d", "x", one], ["d", "y", two];
    assert Parent(a) == ["d"] && Parent(b) == ["d", "x"] && Parent(c) == ["d", "y"];
    assert a[1] == "l" && b[1] == "x" && c[1] == "y";
  }

  lemma ThreePlacesAreOrderly(one: string, two: string)
    requires PlainName(one) && PlainName(two) && PlainName("l") && PlainName("x") && PlainName("y")
    ensures Orderly(["d"], ThreePlaces(one, two))
  {
    ThreePlacesArePlain(one, two);
    ThreePlacesAreApart(one, two);
  }

  lemma TexturePlanIsOrderly()
    ensures Orderly(TEXTURE_MOVE.destination, TEXTURE_MOVE.mapping)
  {
    ShortIsPlain("l");
    ShortIsPlain("x");
    ShortIsPlain("y");
    TileFileNameIsPlain(1001);
    TileFileNameIsPlain(1002);
    ThreePlacesAreOrderly(TileFileName(1001), TileFileName(1002));
  }

  lemma TextureMoveIsSound()
    ensures Sound(TEXTURE_MOVE, TEXTURE_MOVE.mapping.Keys)
  {
    TextureFinderIsLiteral();
    TexturePlanIsOrderly();
    assert TEXTURE_MOVE.mapping[["s", "l"]] == TEXTURE_MOVE.localized;
  }

  lemma TextureTile(tile: nat, file: Path)
    ensures Contains(TILE_NAME, TOKEN)
    ensures TileFile(TEXTURE_MOVE.find, TEXTURE_MOVE.original, TEXTURE, tile, file)
            <==> IsTile(tile)
                 && var one, two, name := TileFileName(1001), TileFileName(1002), TileFileName(tile);
                 (name == one && file == ["s", "x", one]) || (name == two && file == ["s", "y", two])
  {
    TileNameHasToken();
    TilesDiffer();
    if IsTile(tile) { TileNames(tile); }
  }

  lemma TextureIsFound()
    ensures Resolve(TEXTURE_MOVE.find, TEXTURE_MOVE.original, TEXTURE)
            == Some({["s", "x", TileFileName(1001)], ["s", "y", TileFileName(1002)]})
  {
    var m := TEXTURE_MOVE;
    var tiles := {["s", "x", TileFileName(1001)], ["s", "y", TileFileName(1002)]};
    TileNameHasToken();
    forall file ensures file in tiles <==> exists tile: nat :: TileFile(m.find, m.original, TEXTURE, tile, file) {
      TextureTile(1001, file);
      TextureTile(1002, file);
      forall tile: nat { TextureTile(tile, file); }
    }
    TilesResolve(m.find, m.original, TEXTURE, tiles);
  }

  /** The pattern is not refused but keeps its text, since its extension makes it optional, and in the copy it finds
      nothing. */
  lemma SpreadTextureIsKept()
    ensures Sound(TEXTURE_MOVE, TEXTURE_MOVE.mapping.Keys)
    ensures Resolve(TEXTURE_MOVE.find, TEXTURE_MOVE.original, TEXTURE).Some?
    ensures RewriteAsset(TEXTURE_MOVE, TEXTURE) == Some(TEXTURE)
    ensures ResolveLocal(TEXTURE_MOVE, TEXTURE).None?
  {
    var m := TEXTURE_MOVE;
    TextureMoveIsSound();
    TextureIsFound();
    TextureIsOptional();
    TextureIsSpread();
    AssetIsCarried(m, m.mapping.Keys, TEXTURE);
    TextureIsNotLocal();
  }

  lemma TextureIsSpread()
    ensures !Placed(TEXTURE_MOVE, TEXTURE, false)
  {
    TextureIsFound();
    TilesDiffer();
    var m := TEXTURE_MOVE;
    var one, two := ["s", "x", TileFileName(1001)], ["s", "y", TileFileName(1002)];
    assert one in FilesOf(m, TEXTURE) && two in FilesOf(m, TEXTURE) && one[1] != two[1];
    assert Parent(m.mapping[one])[1] == "x" && Parent(m.mapping[two])[1] == "y";
    forall directory ensures !GoTo(m.mapping, FilesOf(m, TEXTURE), directory) {}
  }

  lemma OneStepDown(directory: string, name: string)
    requires PlainStep(name)
    ensures Walk([directory], [name]) == Some([directory, name])
  {
    assert [name][1..] == [];
    assert [directory] + [name] == [directory, name];
  }

  lemma TextureIsNotLocal()
    ensures ResolveLocal(TEXTURE_MOVE, TEXTURE).None?
  {
    var m := TEXTURE_MOVE;
    TileNameHasToken();
    forall tile: nat | IsTile(tile) ensures LocalFinder(m)(m.localized, Tile(TEXTURE, tile)).None? {
      TileIsNotLocal(tile);
    }
  }

  lemma TileIsNotLocal(tile: nat)
    requires IsTile(tile)
    ensures Contains(TILE_NAME, TOKEN)
    ensures LocalFinder(TEXTURE_MOVE)(TEXTURE_MOVE.localized, Tile(TEXTURE, tile)).None?
  {
    TileNames(tile);
    TileFileNameIsPlain(tile);
    OneStepDown("d", TileFileName(tile));
    assert |TileFileName(tile)| == 8 && |"l"| == 1;
    assert Parent(TEXTURE_MOVE.localized) == ["d"];
  }
}
