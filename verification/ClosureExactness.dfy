/** What a discovery without unresolved dependencies promises the localization that follows it: every file a scanned
    field stands for is in the closure, so its place is known. */
module ClosureExactness {
  import opened Wrappers
  import opened AssetPaths
  import opened ClosureValue
  import opened DiscoveryFacts
  import opened ClosurePlan
  import opened Localize
  import opened LocalizeTheorems
  import opened LocalizeSucceeds
  import opened LocalizeValues
  import LocalizeFrame

  lemma {:induction false} ListFactsInclude(w: World, anchor: Path, ds: seq<Dependency>, i: nat)
    requires i < |ds|
    ensures DependencyFacts(w, anchor, ds[i]) <= ListFacts(w, anchor, ds)
  {
    if i < |ds| - 1 { ListFactsInclude(w, anchor, ds[..|ds| - 1], i); }
  }

  lemma {:induction false} FieldFactsInclude(w: World, anchor: Path, fields: seq<Field>, i: nat)
    requires i < |fields|
    ensures ListFacts(w, anchor, Dependencies(w.numbering, fields[i].value, fields[i].name, false))
            <= FieldFacts(w, anchor, fields)
  {
    if i < |fields| - 1 { FieldFactsInclude(w, anchor, fields[..|fields| - 1], i); }
  }

  lemma {:induction false} TemplateFactsInclude(w: World, anchor: Path, assets: seq<Asset>, i: nat)
    requires i < |assets|
    ensures AssetFacts(w, anchor, assets[i], true) <= LayerListFacts(w, anchor, assets)
  {
    if i < |assets| - 1 { TemplateFactsInclude(w, anchor, assets[..|assets| - 1], i); }
  }

  /** The files of the closure: its layers and its other assets. */
  ghost predicate InClosure(facts: set<Fact>, file: Path) {
    Layer(file) in facts || File(file) in facts
  }

  ghost predicate Complete(facts: set<Fact>) {
    forall fact | fact in facts :: !fact.Missing?
  }

  /** An asset's files are known: they all belong to the closure, or the asset is optional and not found. */
  ghost predicate Known(w: World, facts: set<Fact>, anchor: Path, asset: Asset, isLayer: bool) {
    var files := Resolve(w.find, anchor, asset);
    if files.None? then !isLayer && IsOptional(asset)
    else forall file | file in files.value ::
           if isLayer then w.regular(file).Some? && InClosure(facts, w.regular(file).value) else InClosure(facts, file)
  }

  lemma AssetIsKnown(w: World, facts: set<Fact>, anchor: Path, asset: Asset, isLayer: bool)
    requires Complete(facts) && AssetFacts(w, anchor, asset, isLayer) <= facts
    ensures Known(w, facts, anchor, asset, isLayer)
  {
    var files := Resolve(w.find, anchor, asset);
    if files.None? {
      assert Missing(Unresolved(anchor, asset)) !in facts;
    } else {
      forall file | file in files.value
        ensures if isLayer then w.regular(file).Some? && InClosure(facts, w.regular(file).value)
            else InClosure(facts, file)
      {
        if isLayer { assert LayerFact(w, file) in facts; } else { assert File(file) in facts; }
      }
    }
  }

  ghost predicate DependencyKnown(w: World, facts: set<Fact>, anchor: Path, d: Dependency) {
    match d
    case Dependency(asset, isLayer) => Known(w, facts, anchor, asset, isLayer)
    case Template(_, files) =>
      files.Some? && forall i | 0 <= i < |files.value| :: Known(w, facts, anchor, files.value[i], true)
  }

  /** A complete report knows every dependency of every field of every reachable layer it looked into. */
  lemma CompleteReportKnowsDependencies(w: World, root: Path, facts: set<Fact>, path: Path, identifier: string,
                                        field: nat, i: nat)
    requires IsReport(w, root, facts)
    requires Complete(facts) && Reachable(w, root, path) && ScansAt(w, path, identifier)
    requires w.fields(identifier).Some? && field < |w.fields(identifier).value|
    requires i < |Dependencies(w.numbering, w.fields(identifier).value[field].value,
                               w.fields(identifier).value[field].name, false)|
    ensures var f := w.fields(identifier).value[field];
            DependencyKnown(w, facts, Anchor(w, identifier), Dependencies(w.numbering, f.value, f.name, false)[i])
  {
    var f := w.fields(identifier).value[field];
    var anchor, ds := Anchor(w, identifier), Dependencies(w.numbering, f.value, f.name, false);
    ScanIsPartOfVisit(w, path, identifier);
    FieldFactsInclude(w, anchor, w.fields(identifier).value, field);
    ListFactsInclude(w, anchor, ds, i);
    assert DependencyFacts(w, anchor, ds[i]) <= facts;
    match ds[i]
    case Dependency(asset, isLayer) => AssetIsKnown(w, facts, anchor, asset, isLayer);
    case Template(_, None) =>
    case Template(_, Some(files)) =>
      forall k | 0 <= k < |files| ensures Known(w, facts, anchor, files[k], true) {
        TemplateFactsInclude(w, anchor, files, k);
        AssetIsKnown(w, facts, anchor, files[k], true);
      }
  }

  /** So an asset that a complete report knows is rewritten, unless it is required and its pattern is spread over
      directories that the plan keeps apart. */
  lemma KnownAssetIsRewritten(m: Move, disk: set<Path>, w: World, facts: set<Fact>, asset: Asset)
    requires Sound(m, disk) && m.find == w.find
    requires Known(w, facts, m.original, asset, false)
    requires forall file | InClosure(facts, file) :: file in m.mapping
    ensures RewriteAsset(m, asset).None? <==>
            !IsOptional(asset) && !IsEmpty(asset)
            && !OneFile(FilesOf(m, asset)) && !OneDirectory(m.mapping, FilesOf(m, asset))
  {
    AssetIsCarried(m, disk, asset);
  }

  // ---- From the report to the localized layer ----

  /** A layer that discovery looks into under its own canonical path, and that is localized under it. */
  ghost predicate Localizes(m: Move, w: World, identifier: string) {
    && m.find == w.find && m.numbering == w.numbering
    && !w.isPackage(identifier) && w.fileOf(identifier) == Some(m.original) && w.regular(m.original) == Some(m.original)
  }

  /** The plan, applied to the closure's files and to this layer. */
  ghost predicate Planned(p: Plan, m: Move, facts: set<Fact>) {
    && (forall file :: file in m.mapping <==> InClosure(facts, file))
    && Maps(p, m.mapping) && m.destination == p.destination && m.original in m.mapping
    && m.localized == m.mapping[m.original]
  }

  /** The plan keeps the closure's files apart. */
  predicate KeepsApart(p: Plan, files: set<Path>) {
    && AreFiles(p, files) && LabelsApart(p, files) && ExternalIsFree(p, files) && Plain(p.destination)
    && forall file | file in files :: PlainFile(p, file)
  }

  /** What resolution finds is canonical. */
  ghost predicate CanonicalFinder(w: World, anchor: Path) {
    forall asset, file | w.find(anchor, asset) == Some(file) :: w.regular(file) == Some(file)
  }

  /** What a report does not say: a pattern's files move to one directory, a layer's or a clip's pattern is one file,
      and a template's name is not that of the layer's directory. */
  ghost predicate StaysTogether(m: Move, d: Dependency) {
    match d
    case Dependency(asset, isLayer) =>
      HasToken(asset) && Resolve(m.find, m.original, asset).Some? ==>
        || OneFile(FilesOf(m, asset))
        || (!isLayer && (IsOptional(asset) || OneDirectory(m.mapping, FilesOf(m, asset))))
    case Template(template, None) => true
    case Template(template, Some(files)) =>
      && files != [] && template.steps != [] && Last(template.steps) != ".."
      && (forall i | 0 <= i < |files| :: PatternIsOne(m, files[i]))
      && exists directory ::
           && ClipDirectory(m, files, directory)
           && m.localized != [] && directory + [Last(template.steps)] != Parent(m.localized)
  }

  ghost predicate PatternIsOne(m: Move, asset: Asset) {
    HasToken(asset) && Resolve(m.find, m.original, asset).Some? ==> OneFile(FilesOf(m, asset))
  }

  ghost predicate ClipDirectory(m: Move, files: seq<Asset>, directory: Path) {
    forall i | 0 <= i < |files| ::
      Resolve(m.find, m.original, files[i]).Some? ==> GoTo(m.mapping, FilesOf(m, files[i]), directory)
  }

  /** Composition opens every layer that an arc of the value names, so it is in the closure. */
  ghost predicate ArcsFollowed(m: Move, facts: set<Fact>, value: Value, field: string) {
    forall d | d in Dependencies(m.numbering, value, field, true)
        && d !in Dependencies(m.numbering, value, field, false) ::
      d.Dependency? && exists file :: Resolve(m.find, m.original, d.asset) == Some({file}) && InClosure(facts, file)
  }

  lemma ResolvedIsCanonical(w: World, anchor: Path, asset: Asset, file: Path)
    requires CanonicalFinder(w, anchor)
    requires Resolve(w.find, anchor, asset).Some? && file in Resolve(w.find, anchor, asset).value
    ensures w.regular(file) == Some(file)
  {
    if HasToken(asset) {
      PatternHasToken(w.find, anchor, asset);
      TilesResolve(w.find, anchor, asset, Resolve(w.find, anchor, asset).value);
      var tile: nat :| TileFile(w.find, anchor, asset, tile, file);
    }
  }

  lemma KnownFilesMove(m: Move, w: World, facts: set<Fact>, asset: Asset, isLayer: bool)
    requires m.find == w.find && CanonicalFinder(w, m.original) && Known(w, facts, m.original, asset, isLayer)
    requires forall file | InClosure(facts, file) :: file in m.mapping
    requires Resolve(m.find, m.original, asset).Some?
    ensures FilesOf(m, asset) <= m.mapping.Keys
  {
    forall file | file in FilesOf(m, asset) ensures file in m.mapping {
      ResolvedIsCanonical(w, m.original, asset, file);
    }
  }

  lemma KnownAssetIsServed(m: Move, w: World, facts: set<Fact>, asset: Asset, isLayer: bool)
    requires m.find == w.find && CanonicalFinder(w, m.original) && Known(w, facts, m.original, asset, isLayer)
    requires forall file | InClosure(facts, file) :: file in m.mapping
    requires StaysTogether(m, Dependency(asset, isLayer))
    ensures Served(m, Dependency(asset, isLayer))
  {
    if Resolve(m.find, m.original, asset).Some? {
      KnownFilesMove(m, w, facts, asset, isLayer);
      NoPatternIsOneFile(m.find, m.original, asset);
    }
  }

  lemma KnownClipIsOne(m: Move, w: World, facts: set<Fact>, asset: Asset) returns (file: Path)
    requires m.find == w.find && CanonicalFinder(w, m.original) && Known(w, facts, m.original, asset, true)
    requires PatternIsOne(m, asset)
    ensures Single(Resolve(m.find, m.original, asset), file)
  {
    assert Resolve(m.find, m.original, asset).Some?;
    NoPatternIsOneFile(m.find, m.original, asset);
    var files := FilesOf(m, asset);
    assert OneFile(files);
    file :| files == {file};
    assert Resolve(m.find, m.original, asset) == Some(files);
  }

  lemma {:induction false} KnownClipsAreOne(m: Move, w: World, facts: set<Fact>, assets: seq<Asset>)
    returns (originals: seq<Path>)
    requires m.find == w.find && CanonicalFinder(w, m.original)
    requires forall i | 0 <= i < |assets| :: Known(w, facts, m.original, assets[i], true)
    requires forall i | 0 <= i < |assets| :: PatternIsOne(m, assets[i])
    ensures Originals(m, assets, originals)
  {
    if assets == [] {
      originals := [];
    } else {
      var first := KnownClipIsOne(m, w, facts, assets[0]);
      var rest := KnownClipsAreOne(m, w, facts, assets[1..]);
      originals := [first] + rest;
    }
  }

  lemma KnownTemplateIsServed(m: Move, w: World, facts: set<Fact>, template: Asset, files: seq<Asset>)
    requires m.find == w.find && CanonicalFinder(w, m.original)
    requires DependencyKnown(w, facts, m.original, Template(template, Some(files)))
    requires StaysTogether(m, Template(template, Some(files)))
    ensures Served(m, Template(template, Some(files)))
  {
    var originals := KnownClipsAreOne(m, w, facts, files);
    var directory :| ClipDirectory(m, files, directory)
                     && m.localized != [] && directory + [Last(template.steps)] != Parent(m.localized);
    forall file | file in FileSet(originals)
      ensures file in m.mapping && m.mapping[file] != [] && Parent(m.mapping[file]) == directory
    {
      var i :| 0 <= i < |originals| && originals[i] == file;
      assert Single(Resolve(m.find, m.original, files[i]), originals[i]);
      assert originals[i] in FilesOf(m, files[i]);
    }
    assert ServedFrom(m, template, files, originals, directory);
  }

  lemma KnownDependencyIsServed(m: Move, w: World, facts: set<Fact>, d: Dependency)
    requires m.find == w.find && CanonicalFinder(w, m.original) && DependencyKnown(w, facts, m.original, d)
    requires forall file | InClosure(facts, file) :: file in m.mapping
    requires StaysTogether(m, d)
    ensures Served(m, d)
  {
    if d.Dependency? {
      KnownAssetIsServed(m, w, facts, d.asset, d.isLayer);
    } else {
      KnownTemplateIsServed(m, w, facts, d.template, d.files.value);
    }
  }

  lemma FollowedArcIsServed(m: Move, facts: set<Fact>, d: Dependency, file: Path)
    requires d.Dependency? && Resolve(m.find, m.original, d.asset) == Some({file}) && InClosure(facts, file)
    requires forall file | InClosure(facts, file) :: file in m.mapping
    ensures Served(m, d)
  {
    assert OneFile({file});
  }

  lemma FollowedSubLayersAreNamed(m: Move, facts: set<Fact>, value: Value, field: string)
    requires ArcsFollowed(m, facts, value, field)
    ensures SubLayersNamed(value, field)
  {
    if value.StringVec? && field == "subLayers" {
      forall text | text in value.texts ensures !IsEmpty(text) {
        var i :| 0 <= i < |value.texts| && value.texts[i] == text;
        assert AssetDependencies(value.texts, true)[i] == Dependency(text, true);
        assert Dependency(text, true) in Dependencies(m.numbering, value, field, true);
      }
    }
  }

  lemma PlannedIsSound(p: Plan, m: Move, disk: set<Path>, facts: set<Fact>)
    requires Planned(p, m, facts) && KeepsApart(p, m.mapping.Keys) && m.mapping.Keys <= disk
    requires LiteralFinder(m.find, m.contents, m.original, disk) && ContentsMove(m)
    ensures Sound(m, disk)
  {
    PlanIsOrderly(p, m.mapping);
  }

  /** After a complete report, under a plan that keeps the files apart, every field of every layer looked into is
      rewritten, and what the copy then asks for, arcs included, are the images of what the layer asked for; provided
      the files of each pattern stay together. */
  lemma CompleteReportLocalizes(p: Plan, m: Move, disk: set<Path>, w: World, root: Path, facts: set<Fact>, path: Path,
                                identifier: string, field: nat)
    requires IsReport(w, root, facts)
    requires Complete(facts) && Reachable(w, root, path) && ScansAt(w, path, identifier)
    requires w.fields(identifier).Some? && field < |w.fields(identifier).value|
    requires Localizes(m, w, identifier) && CanonicalFinder(w, m.original)
    requires Planned(p, m, facts) && KeepsApart(p, m.mapping.Keys) && m.mapping.Keys <= disk
    requires LiteralFinder(m.find, m.contents, m.original, disk) && ContentsMove(m)
    requires var f := w.fields(identifier).value[field];
             && ArcsFollowed(m, facts, f.value, f.name)
             && forall d | d in Dependencies(m.numbering, f.value, f.name, false) :: StaysTogether(m, d)
    ensures var f := w.fields(identifier).value[field];
            && RewriteValue(m, f.value, f.name).Some?
            && AllCarried(m, Dependencies(m.numbering, f.value, f.name, true),
                          Dependencies(m.numbering, RewriteValue(m, f.value, f.name).value, f.name, true))
            && LocalizeFrame.SameBut(f.value, RewriteValue(m, f.value, f.name).value, f.name)
  {
    var f := w.fields(identifier).value[field];
    LocalizeFrame.LocalizationKeepsTheRest(m, f.value, f.name);
    PlannedIsSound(p, m, disk, facts);
    forall d | d in Dependencies(m.numbering, f.value, f.name, true) ensures Served(m, d) {
      var scanned := Dependencies(m.numbering, f.value, f.name, false);
      if d in scanned {
        var i :| 0 <= i < |scanned| && scanned[i] == d;
        CompleteReportKnowsDependencies(w, root, facts, path, identifier, field, i);
        KnownDependencyIsServed(m, w, facts, d);
      } else {
        var file :| Resolve(m.find, m.original, d.asset) == Some({file}) && InClosure(facts, file);
        FollowedArcIsServed(m, facts, d, file);
      }
    }
    FollowedSubLayersAreNamed(m, facts, f.value, f.name);
    LocalizationSucceedsExactlyWhenServed(m, disk, f.value, f.name);
    LocalizationCommutes(m, disk, f.value, f.name, true);
  }
}
