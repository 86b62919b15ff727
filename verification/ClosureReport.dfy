/** What a dependency report says, list by list, told from the stages, the fields of their layers, what resolves and
    what does not, and file extensions. */
module ClosureReport {
  import opened Wrappers
  import opened AssetPaths
  import opened ClosureValue
  import opened DiscoveryFacts
  import opened ClosureExactness

  // ---- Renderer-only assets ----

  /** The same letters, small or capital. */
  predicate Spells(text: string, small: string) {
    && |text| == |small|
    && forall i | 0 <= i < |text| ::
         text[i] == small[i] || ('a' <= small[i] <= 'z' && text[i] == small[i] - 'a' + 'A')
  }

  const RENDERER_ONLY: seq<string> := ["mdl", "png", "jpg", "jpeg", "exr", "hdr", "tif", "tiff", "bmp", "ktx2"]

  predicate SpellsOne(text: string) {
    exists i | 0 <= i < |RENDERER_ONLY| :: Spells(text, RENDERER_ONLY[i])
  }

  /** The file name is something, a dot and one of the extensions above. */
  predicate RendererOnly(asset: Asset) {
    && asset.inner.None? && asset.steps != []
    && var name := Last(asset.steps);
       exists dot | 0 < dot < |name| :: name[dot] == '.' && SpellsOne(name[dot + 1..])
  }

  lemma LowerSpells(text: string, small: string)
    requires forall c | c in small :: 'a' <= c <= 'z' || '0' <= c <= '9'
    ensures Lower(text) == small <==> Spells(text, small)
  {
    if Spells(text, small) {
      forall i | 0 <= i < |text| ensures Lower(text)[i] == small[i] { assert small[i] in small; }
    }
    if Lower(text) == small {
      forall i | 0 <= i < |text|
        ensures text[i] == small[i] || ('a' <= small[i] <= 'z' && text[i] == small[i] - 'a' + 'A')
      {
        assert small[i] == Lower(text)[i];
      }
    }
  }

  lemma SmallLetters()
    ensures forall i | 0 <= i < |RENDERER_ONLY| ::
              forall c | c in RENDERER_ONLY[i] :: 'a' <= c <= 'z' || '0' <= c <= '9'
  {
  }

  lemma SpellsOneWithoutDot(text: string)
    ensures SpellsOne(text) <==> Lower(text) in OPTIONAL_EXTENSIONS
    ensures SpellsOne(text) ==> '.' !in text
  {
    SmallLetters();
    forall i | 0 <= i < |RENDERER_ONLY| ensures Lower(text) == RENDERER_ONLY[i] <==> Spells(text, RENDERER_ONLY[i]) {
      LowerSpells(text, RENDERER_ONLY[i]);
    }
    assert forall e :: e in OPTIONAL_EXTENSIONS <==> e in RENDERER_ONLY;
    if SpellsOne(text) {
      var i :| 0 <= i < |RENDERER_ONLY| && Spells(text, RENDERER_ONLY[i]);
      forall k | 0 <= k < |text| ensures text[k] != '.' { assert RENDERER_ONLY[i][k] in RENDERER_ONLY[i]; }
    }
  }

  lemma {:induction false} LastDotSplits(text: string)
    ensures AfterLastDot(text).None? <==> '.' !in text
    ensures AfterLastDot(text).Some? ==> '.' !in AfterLastDot(text).value
    ensures AfterLastDot(text).Some? ==>
              exists dot | 0 <= dot < |text| :: text[dot] == '.' && text[dot + 1..] == AfterLastDot(text).value
    decreases |text|
  {
    if text != "" {
      LastDotSplits(text[1..]);
      assert text == [text[0]] + text[1..];
      if AfterLastDot(text[1..]).Some? {
        var dot :| 0 <= dot < |text[1..]| && text[1..][dot] == '.'
                   && text[1..][dot + 1..] == AfterLastDot(text).value;
        assert text[dot + 1] == '.' && text[dot + 2..] == AfterLastDot(text).value;
      } else if text[0] == '.' {
        assert text[0 + 1..] == AfterLastDot(text).value;
      }
    }
  }

  lemma {:induction false} DotWithNoneAfter(text: string, dot: nat)
    requires dot < |text| && text[dot] == '.' && '.' !in text[dot + 1..]
    ensures AfterLastDot(text) == Some(text[dot + 1..])
    decreases |text|
  {
    LastDotSplits(text[1..]);
    if dot > 0 {
      assert text[1..][dot - 1 + 1..] == text[dot + 1..];
      DotWithNoneAfter(text[1..], dot - 1);
    }
  }

  /** The tolerance of missing assets goes by the extension alone. */
  lemma OptionalExactlyByExtension(asset: Asset)
    ensures IsOptional(asset) <==> RendererOnly(asset)
  {
    if asset.inner.None? && asset.steps != [] {
      var name := Last(asset.steps);
      if IsOptional(asset) {
        var rest := name[1..];
        LastDotSplits(rest);
        var dot :| 0 <= dot < |rest| && rest[dot] == '.' && rest[dot + 1..] == AfterLastDot(rest).value;
        assert name[dot + 1] == '.' && name[dot + 2..] == AfterLastDot(rest).value;
        SpellsOneWithoutDot(AfterLastDot(rest).value);
      }
      if RendererOnly(asset) {
        var dot :| 0 < dot < |name| && name[dot] == '.' && SpellsOne(name[dot + 1..]);
        SpellsOneWithoutDot(name[dot + 1..]);
        assert name[1..][dot - 1] == '.' && name[1..][dot..] == name[dot + 1..];
        DotWithNoneAfter(name[1..], dot - 1);
      }
    }
  }

  // ---- What a visit finds ----

  /** A stage looks into the layers that it holds and whose files are there; a package's file need not be regular. */
  predicate LooksInto(w: World, path: Path, identifier: string) {
    && Names(w, path, identifier) && identifier in w.open(path).held && w.fileOf(identifier).Some?
    && (w.isPackage(identifier) || w.regular(w.fileOf(identifier).value).Some?)
  }

  ghost predicate HasDependency(w: World, path: Path, anchor: Path, d: Dependency) {
    exists identifier, field :: DependencyAt(w, path, identifier, field, anchor, d)
  }

  /** The stage at `path` has looked into a layer with this dependency in this field. */
  predicate DependencyAt(w: World, path: Path, identifier: string, field: nat, anchor: Path, d: Dependency) {
    && LooksInto(w, path, identifier)
    && anchor == (if w.isPackage(identifier) then w.packageAnchor(identifier) else w.fileOf(identifier).value)
    && w.fields(identifier).Some? && field < |w.fields(identifier).value|
    && var f := w.fields(identifier).value[field]; d in Dependencies(w.numbering, f.value, f.name, false)
  }

  /** A layer looked into asks for an asset, by itself or as one of the layers that a template expands to. */
  ghost predicate Asks(w: World, path: Path, anchor: Path, asset: Asset, isLayer: bool) {
    || HasDependency(w, path, anchor, Dependency(asset, isLayer))
    || (isLayer && exists template, files :: HasDependency(w, path, anchor, Template(template, Some(files)))
                                              && asset in files)
  }

  predicate Resolves(w: World, anchor: Path, asset: Asset, file: Path) {
    var files := Resolve(w.find, anchor, asset);
    files.Some? && file in files.value
  }

  predicate Names(w: World, path: Path, identifier: string) {
    w.open(path).Stage? && identifier in w.open(path).identifiers
  }

  /** A file that is to be a layer: one that an identifier names, or one that a layer asks for. */
  ghost predicate WantsLayer(w: World, path: Path, file: Path) {
    || (exists identifier :: Names(w, path, identifier) && !w.isPackage(identifier)
                             && w.fileOf(identifier) == Some(file))
    || exists anchor, asset :: Asks(w, path, anchor, asset, true) && Resolves(w, anchor, asset, file)
  }

  ghost predicate WantsFile(w: World, path: Path, file: Path) {
    || (exists identifier :: Names(w, path, identifier) && w.isPackage(identifier)
                             && w.fileOf(identifier) == Some(file))
    || exists anchor, asset :: Asks(w, path, anchor, asset, false) && Resolves(w, anchor, asset, file)
  }

  ghost predicate Found(w: World, path: Path, fact: Fact) {
    match fact
    case Layer(file) => exists wanted :: WantsLayer(w, path, wanted) && w.regular(wanted) == Some(file)
    case File(file) => WantsFile(w, path, file)
    case Missing(Unopenable(other)) => other == path && w.open(path).CannotOpen?
    case Missing(Composition(error)) => w.open(path).Stage? && error in w.open(path).errors
    case Missing(NoFile(identifier)) => Names(w, path, identifier) && w.fileOf(identifier).None?
    case Missing(Irregular(file)) => WantsLayer(w, path, file) && w.regular(file).None?
    case Missing(Unresolved(anchor, asset)) =>
      && Resolve(w.find, anchor, asset).None?
      && (Asks(w, path, anchor, asset, true) || (Asks(w, path, anchor, asset, false) && !RendererOnly(asset)))
    case Missing(NoTemplate(anchor, template)) => HasDependency(w, path, anchor, Template(template, None))
    case Tolerated(Unresolved(anchor, asset)) =>
      Resolve(w.find, anchor, asset).None? && Asks(w, path, anchor, asset, false) && RendererOnly(asset)
    case Tolerated(_) => false
  }

  // ---- One asset, one dependency, one field, one layer ----

  /** What asking for one asset finds. */
  predicate FoundByAsset(w: World, anchor: Path, asset: Asset, isLayer: bool, fact: Fact) {
    match fact
    case Layer(file) =>
      isLayer && Resolve(w.find, anchor, asset).Some?
      && exists found | found in Resolve(w.find, anchor, asset).value :: w.regular(found) == Some(file)
    case File(file) => !isLayer && Resolves(w, anchor, asset, file)
    case Missing(Irregular(file)) => isLayer && Resolves(w, anchor, asset, file) && w.regular(file).None?
    case Missing(Unresolved(from, missing)) =>
      && from == anchor && missing == asset && Resolve(w.find, anchor, asset).None?
      && (isLayer || !RendererOnly(asset))
    case Tolerated(Unresolved(from, missing)) =>
      from == anchor && missing == asset && Resolve(w.find, anchor, asset).None? && !isLayer && RendererOnly(asset)
    case _ => false
  }

  lemma AssetFindsExactly(w: World, anchor: Path, asset: Asset, isLayer: bool, fact: Fact)
    ensures fact in AssetFacts(w, anchor, asset, isLayer) <==> FoundByAsset(w, anchor, asset, isLayer, fact)
  {
    OptionalExactlyByExtension(asset);
  }

  ghost predicate FoundByDependency(w: World, anchor: Path, d: Dependency, fact: Fact) {
    match d
    case Dependency(asset, isLayer) => FoundByAsset(w, anchor, asset, isLayer, fact)
    case Template(template, None) => fact == Missing(NoTemplate(anchor, template))
    case Template(_, Some(files)) => exists asset | asset in files :: FoundByAsset(w, anchor, asset, true, fact)
  }

  lemma {:induction false} LayerListFinds(w: World, anchor: Path, assets: seq<Asset>, fact: Fact)
    ensures fact in LayerListFacts(w, anchor, assets)
            <==> exists asset | asset in assets :: FoundByAsset(w, anchor, asset, true, fact)
  {
    if assets != [] {
      var front, last := assets[..|assets| - 1], assets[|assets| - 1];
      LayerListFinds(w, anchor, front, fact);
      AssetFindsExactly(w, anchor, last, true, fact);
      assert assets == front + [last];
    }
  }

  lemma DependencyFindsExactly(w: World, anchor: Path, d: Dependency, fact: Fact)
    ensures fact in DependencyFacts(w, anchor, d) <==> FoundByDependency(w, anchor, d, fact)
  {
    match d
    case Dependency(asset, isLayer) => AssetFindsExactly(w, anchor, asset, isLayer, fact);
    case Template(_, None) =>
    case Template(_, Some(files)) => LayerListFinds(w, anchor, files, fact);
  }

  lemma {:induction false} ListFinds(w: World, anchor: Path, ds: seq<Dependency>, fact: Fact)
    ensures fact in ListFacts(w, anchor, ds) <==> exists d | d in ds :: FoundByDependency(w, anchor, d, fact)
  {
    if ds != [] {
      var front, last := ds[..|ds| - 1], ds[|ds| - 1];
      ListFinds(w, anchor, front, fact);
      DependencyFindsExactly(w, anchor, last, fact);
      assert ds == front + [last];
    }
  }

  ghost predicate FoundInField(w: World, anchor: Path, field: Field, fact: Fact) {
    exists d | d in Dependencies(w.numbering, field.value, field.name, false) :: FoundByDependency(w, anchor, d, fact)
  }

  lemma {:induction false} FieldsFind(w: World, anchor: Path, fields: seq<Field>, fact: Fact)
    ensures fact in FieldFacts(w, anchor, fields)
            <==> exists i | 0 <= i < |fields| :: FoundInField(w, anchor, fields[i], fact)
  {
    if fields != [] {
      var front, last := fields[..|fields| - 1], fields[|fields| - 1];
      FieldsFind(w, anchor, front, fact);
      ListFinds(w, anchor, Dependencies(w.numbering, last.value, last.name, false), fact);
      if i :| 0 <= i < |front| && FoundInField(w, anchor, front[i], fact) {
        assert FoundInField(w, anchor, fields[i], fact);
      }
      if i :| 0 <= i < |fields| && FoundInField(w, anchor, fields[i], fact) {
        if i < |front| { assert FoundInField(w, anchor, front[i], fact); }
      }
    }
  }

  /** What looking into a stage's layers finds. */
  ghost predicate FoundByScan(w: World, path: Path, fact: Fact) {
    exists anchor, d :: HasDependency(w, path, anchor, d) && FoundByDependency(w, anchor, d, fact)
  }

  lemma ScanFinds(w: World, path: Path, identifier: string, fact: Fact)
    requires ScansAt(w, path, identifier) && fact in ScanFacts(w, identifier)
    ensures FoundByScan(w, path, fact)
  {
    var anchor, fields := Anchor(w, identifier), w.fields(identifier).value;
    FieldsFind(w, anchor, fields, fact);
    var i :| 0 <= i < |fields| && FoundInField(w, anchor, fields[i], fact);
    var d :| d in Dependencies(w.numbering, fields[i].value, fields[i].name, false)
             && FoundByDependency(w, anchor, d, fact);
    assert DependencyAt(w, path, identifier, i, anchor, d);
  }

  lemma FoundIsScanned(w: World, path: Path, fact: Fact)
    requires FoundByScan(w, path, fact)
    ensures fact in VisitFacts(w, path)
  {
    var anchor, d :| HasDependency(w, path, anchor, d) && FoundByDependency(w, anchor, d, fact);
    var identifier: string, field: nat :| DependencyAt(w, path, identifier, field, anchor, d);
    var fields := w.fields(identifier).value;
    assert FoundInField(w, anchor, fields[field], fact);
    FieldsFind(w, anchor, fields, fact);
    ScanIsPartOfVisit(w, path, identifier);
  }

  ghost predicate FoundByName(w: World, path: Path, fact: Fact) {
    exists identifier :: Names(w, path, identifier) && fact == NameFact(w, identifier)
  }

  lemma VisitFindsByNameOrScan(w: World, path: Path, fact: Fact)
    requires w.open(path).Stage?
    ensures fact in VisitFacts(w, path)
            <==> (fact.Missing? && fact.problem.Composition? && fact.problem.error in w.open(path).errors)
                 || FoundByName(w, path, fact) || FoundByScan(w, path, fact)
  {
    var stage := w.open(path);
    IdentifiersInclude(w, stage.held, stage.identifiers, fact);
    if FoundByScan(w, path, fact) { FoundIsScanned(w, path, fact); }
    if FoundByName(w, path, fact) {
      var identifier :| Names(w, path, identifier) && fact == NameFact(w, identifier);
      assert fact in IdentifierFacts(w, stage.held, identifier);
    }
    if fact in IdentifiersFacts(w, stage.held, stage.identifiers) {
      var identifier :| identifier in stage.identifiers && fact in IdentifierFacts(w, stage.held, identifier);
      if fact == NameFact(w, identifier) {
        assert Names(w, path, identifier);
      } else {
        ScanFinds(w, path, identifier, fact);
      }
    }
  }

  // ---- The same, told by what is found ----

  ghost predicate FoundByAsking(w: World, path: Path, fact: Fact) {
    exists anchor, asset, isLayer ::
      Asks(w, path, anchor, asset, isLayer) && FoundByAsset(w, anchor, asset, isLayer, fact)
  }

  ghost predicate FoundNoTemplate(w: World, path: Path, fact: Fact) {
    && fact.Missing? && fact.problem.NoTemplate?
    && HasDependency(w, path, fact.problem.anchor, Template(fact.problem.template, None))
  }

  lemma ScanAsks(w: World, path: Path, fact: Fact)
    requires FoundByScan(w, path, fact)
    ensures FoundByAsking(w, path, fact) || FoundNoTemplate(w, path, fact)
  {
    var anchor, d :| HasDependency(w, path, anchor, d) && FoundByDependency(w, anchor, d, fact);
    match d
    case Dependency(asset, isLayer) => assert Asks(w, path, anchor, asset, isLayer);
    case Template(template, None) =>
    case Template(template, Some(files)) =>
      var asset :| asset in files && FoundByAsset(w, anchor, asset, true, fact);
      assert Asks(w, path, anchor, asset, true);
  }

  lemma AskingIsScan(w: World, path: Path, anchor: Path, asset: Asset, isLayer: bool, fact: Fact)
    requires Asks(w, path, anchor, asset, isLayer) && FoundByAsset(w, anchor, asset, isLayer, fact)
    ensures FoundByScan(w, path, fact)
  {
    if HasDependency(w, path, anchor, Dependency(asset, isLayer)) {
      assert FoundByDependency(w, anchor, Dependency(asset, isLayer), fact);
    } else {
      var template, files :| HasDependency(w, path, anchor, Template(template, Some(files))) && asset in files;
      assert FoundByDependency(w, anchor, Template(template, Some(files)), fact);
    }
  }

  lemma ScanFindsByAsking(w: World, path: Path, fact: Fact)
    ensures FoundByScan(w, path, fact) <==> FoundByAsking(w, path, fact) || FoundNoTemplate(w, path, fact)
  {
    if FoundByScan(w, path, fact) { ScanAsks(w, path, fact); }
    if FoundByAsking(w, path, fact) {
      var anchor, asset, isLayer :|
        Asks(w, path, anchor, asset, isLayer) && FoundByAsset(w, anchor, asset, isLayer, fact);
      AskingIsScan(w, path, anchor, asset, isLayer, fact);
    }
    if FoundNoTemplate(w, path, fact) {
      assert FoundByDependency(w, fact.problem.anchor, Template(fact.problem.template, None), fact);
    }
  }

  lemma OnlyStagesAsk(w: World, path: Path, anchor: Path, asset: Asset, isLayer: bool)
    requires Asks(w, path, anchor, asset, isLayer)
    ensures w.open(path).Stage?
  {
  }

  lemma LayersAreWanted(w: World, path: Path, fact: Fact)
    requires fact.Layer? || (fact.Missing? && fact.problem.Irregular?)
    ensures FoundByName(w, path, fact) || FoundByAsking(w, path, fact) <==> Found(w, path, fact)
  {
    if FoundByName(w, path, fact) {
      var identifier :| Names(w, path, identifier) && fact == NameFact(w, identifier);
      assert WantsLayer(w, path, w.fileOf(identifier).value);
    }
    if FoundByAsking(w, path, fact) {
      var anchor, asset, isLayer :|
        Asks(w, path, anchor, asset, isLayer) && FoundByAsset(w, anchor, asset, isLayer, fact);
      if fact.Layer? {
        var found :| found in Resolve(w.find, anchor, asset).value && w.regular(found) == Some(fact.path);
        assert Resolves(w, anchor, asset, found) && WantsLayer(w, path, found);
      }
    }
    if Found(w, path, fact) {
      var wanted :| WantsLayer(w, path, wanted)
                    && if fact.Layer? then w.regular(wanted) == Some(fact.path)
                       else wanted == fact.problem.path && w.regular(wanted).None?;
      WantedIsFound(w, path, wanted);
      assert fact == LayerFact(w, wanted);
    }
  }

  lemma WantedIsFound(w: World, path: Path, wanted: Path)
    requires WantsLayer(w, path, wanted)
    ensures FoundByName(w, path, LayerFact(w, wanted)) || FoundByAsking(w, path, LayerFact(w, wanted))
  {
    if anchor, asset :| Asks(w, path, anchor, asset, true) && Resolves(w, anchor, asset, wanted) {
      assert FoundByAsset(w, anchor, asset, true, LayerFact(w, wanted));
    } else {
      var identifier :| Names(w, path, identifier) && !w.isPackage(identifier) && w.fileOf(identifier) == Some(wanted);
      assert NameFact(w, identifier) == LayerFact(w, wanted);
    }
  }

  lemma FilesAreWanted(w: World, path: Path, file: Path)
    ensures FoundByName(w, path, File(file)) || FoundByAsking(w, path, File(file)) <==> Found(w, path, File(file))
  {
    if anchor, asset :| Asks(w, path, anchor, asset, false) && Resolves(w, anchor, asset, file) {
      assert FoundByAsset(w, anchor, asset, false, File(file));
    } else if WantsFile(w, path, file) {
      var identifier :| Names(w, path, identifier) && w.isPackage(identifier) && w.fileOf(identifier) == Some(file);
      assert NameFact(w, identifier) == File(file);
    }
  }

  lemma UnresolvedIsAsked(w: World, path: Path, fact: Fact)
    requires (fact.Missing? || fact.Tolerated?) && fact.problem.Unresolved?
    ensures FoundByAsking(w, path, fact) <==> Found(w, path, fact)
  {
    var anchor, asset := fact.problem.anchor, fact.problem.asset;
    if Found(w, path, fact) {
      var isLayer := fact.Missing? && Asks(w, path, anchor, asset, true);
      assert Asks(w, path, anchor, asset, isLayer) && FoundByAsset(w, anchor, asset, isLayer, fact);
    }
  }

  /** A visit contributes exactly what is found by opening the file, naming its layers, and asking for assets. */
  lemma VisitFindsExactly(w: World, path: Path, fact: Fact)
    ensures fact in VisitFacts(w, path) <==> Found(w, path, fact)
  {
    if w.open(path).Stage? {
      VisitFindsByNameOrScan(w, path, fact);
      ScanFindsByAsking(w, path, fact);
      StageFindsExactly(w, path, fact);
    } else if Found(w, path, fact) && !w.open(path).CannotOpen? {
      assert false;
    }
  }

  lemma StageFindsExactly(w: World, path: Path, fact: Fact)
    requires w.open(path).Stage?
    ensures Found(w, path, fact) <==>
            || (fact.Missing? && fact.problem.Composition? && fact.problem.error in w.open(path).errors)
            || FoundByName(w, path, fact) || FoundByAsking(w, path, fact) || FoundNoTemplate(w, path, fact)
  {
    match fact
    case Layer(_) => LayersAreWanted(w, path, fact);
    case File(file) => FilesAreWanted(w, path, file);
    case Missing(Irregular(_)) => LayersAreWanted(w, path, fact);
    case Missing(Unresolved(_, _)) => UnresolvedIsAsked(w, path, fact);
    case Missing(NoFile(identifier)) =>
      if Found(w, path, fact) { assert Names(w, path, identifier) && fact == NameFact(w, identifier); }
    case Missing(_) =>
    case Tolerated(Unresolved(_, _)) => UnresolvedIsAsked(w, path, fact);
    case Tolerated(_) =>
  }

  // ---- The whole report ----

  ghost predicate FoundFrom(w: World, root: Path, fact: Fact) {
    exists path :: Reachable(w, root, path) && Found(w, path, fact)
  }

  /** Every list of the report, exactly. */
  lemma ReportIsExact(w: World, root: Path, facts: set<Fact>, fact: Fact)
    requires IsReport(w, root, facts)
    ensures fact in facts <==> fact == Layer(root) || FoundFrom(w, root, fact)
  {
    if path :| Reachable(w, root, path) && fact in VisitFacts(w, path) { VisitFindsExactly(w, path, fact); }
    if path :| Reachable(w, root, path) && Found(w, path, fact) { VisitFindsExactly(w, path, fact); }
  }

  /** The optional unresolved assets are exactly the missing renderer-only ones that no layer list asks for. */
  lemma ToleratedExactlyRendererOnly(w: World, root: Path, facts: set<Fact>, anchor: Path, asset: Asset)
    requires IsReport(w, root, facts)
    ensures Tolerated(Unresolved(anchor, asset)) in facts <==>
            exists path :: Reachable(w, root, path) && Asks(w, path, anchor, asset, false)
                           && Resolve(w.find, anchor, asset).None? && RendererOnly(asset)
    ensures forall problem | Tolerated(problem) in facts :: problem.Unresolved?
  {
    var fact := Tolerated(Unresolved(anchor, asset));
    ReportIsExact(w, root, facts, fact);
    if path :| Reachable(w, root, path) && Asks(w, path, anchor, asset, false)
               && Resolve(w.find, anchor, asset).None? && RendererOnly(asset)
    {
      assert Found(w, path, fact);
    }
    forall problem | Tolerated(problem) in facts ensures problem.Unresolved? {
      ReportIsExact(w, root, facts, Tolerated(problem));
    }
  }

  /** An asset that is there, as regular files where layers are wanted, or whose absence is tolerated. */
  predicate Supplied(w: World, anchor: Path, asset: Asset, isLayer: bool) {
    match Resolve(w.find, anchor, asset)
    case Some(files) => isLayer ==> forall file | file in files :: w.regular(file).Some?
    case None => !isLayer && RendererOnly(asset)
  }

  /** Everything that a visit needs is there. */
  ghost predicate Intact(w: World, path: Path) {
    && !w.open(path).CannotOpen?
    && (w.open(path).Stage? ==> w.open(path).errors == {})
    && (forall identifier | Names(w, path, identifier) ::
          w.fileOf(identifier).Some? && (w.isPackage(identifier) || w.regular(w.fileOf(identifier).value).Some?))
    && (forall anchor, asset, isLayer | Asks(w, path, anchor, asset, isLayer) :: Supplied(w, anchor, asset, isLayer))
    && (forall anchor, template :: !HasDependency(w, path, anchor, Template(template, None)))
  }

  lemma IntactFindsNothingMissing(w: World, path: Path, problem: Problem)
    requires Intact(w, path)
    ensures !Found(w, path, Missing(problem))
  {
    match problem
    case Irregular(file) =>
      forall anchor, asset | Asks(w, path, anchor, asset, true) && Resolves(w, anchor, asset, file)
        ensures w.regular(file).Some?
      {
        assert Supplied(w, anchor, asset, true);
      }
    case Unresolved(anchor, asset) =>
      forall isLayer | Asks(w, path, anchor, asset, isLayer) ensures Supplied(w, anchor, asset, isLayer) {}
    case _ =>
  }

  lemma NothingMissingIsIntact(w: World, path: Path)
    requires forall problem :: !Found(w, path, Missing(problem))
    ensures Intact(w, path)
  {
    assert !Found(w, path, Missing(Unopenable(path)));
    if w.open(path).Stage? {
      forall error ensures error !in w.open(path).errors {
        assert !Found(w, path, Missing(Composition(error)));
      }
    }
    forall identifier | Names(w, path, identifier)
      ensures w.fileOf(identifier).Some? && (w.isPackage(identifier) || w.regular(w.fileOf(identifier).value).Some?)
    {
      assert !Found(w, path, Missing(NoFile(identifier)));
      if !w.isPackage(identifier) {
        assert WantsLayer(w, path, w.fileOf(identifier).value);
        assert !Found(w, path, Missing(Irregular(w.fileOf(identifier).value)));
      }
    }
    forall anchor, asset, isLayer | Asks(w, path, anchor, asset, isLayer) ensures Supplied(w, anchor, asset, isLayer) {
      NothingMissingIsSupplied(w, path, anchor, asset, isLayer);
    }
    forall anchor, template ensures !HasDependency(w, path, anchor, Template(template, None)) {
      assert !Found(w, path, Missing(NoTemplate(anchor, template)));
    }
  }

  lemma NothingMissingIsSupplied(w: World, path: Path, anchor: Path, asset: Asset, isLayer: bool)
    requires forall problem :: !Found(w, path, Missing(problem))
    requires Asks(w, path, anchor, asset, isLayer)
    ensures Supplied(w, anchor, asset, isLayer)
  {
    assert !Found(w, path, Missing(Unresolved(anchor, asset)));
    if isLayer && Resolve(w.find, anchor, asset).Some? {
      forall file | file in Resolve(w.find, anchor, asset).value ensures w.regular(file).Some? {
        assert Resolves(w, anchor, asset, file) && WantsLayer(w, path, file);
        assert !Found(w, path, Missing(Irregular(file)));
      }
    }
  }

  /** A report is complete exactly if every reachable file opens without composition errors, every layer's name and
      every layer asked for is a regular file, every template expands, and every asset asked for is there or is a
      renderer-only one that is no layer. */
  lemma CompleteExactlyWhenIntact(w: World, root: Path, facts: set<Fact>)
    requires IsReport(w, root, facts)
    ensures Complete(facts) <==> forall path | Reachable(w, root, path) :: Intact(w, path)
  {
    if Complete(facts) {
      forall path | Reachable(w, root, path) ensures Intact(w, path) {
        forall problem ensures !Found(w, path, Missing(problem)) {
          ReportIsExact(w, root, facts, Missing(problem));
          assert Missing(problem) !in facts;
        }
        NothingMissingIsIntact(w, path);
      }
    }
    if forall path | Reachable(w, root, path) :: Intact(w, path) {
      forall fact | fact in facts ensures !fact.Missing? {
        ReportIsExact(w, root, facts, fact);
        if fact.Missing? {
          var path :| Reachable(w, root, path) && Found(w, path, fact);
          IntactFindsNothingMissing(w, path, fact.problem);
        }
      }
    }
  }

  /** Nothing keeps a discovery from going on after the file: what it opens to can be traversed, and every layer
      looked into can be read. */
  ghost predicate GoesOn(w: World, path: Path) {
    !w.open(path).CannotTraverse? && forall identifier | LooksInto(w, path, identifier) :: w.fields(identifier).Some?
  }

  lemma ReadableGoesOn(w: World, path: Path)
    ensures Readable(w, path) <==> GoesOn(w, path)
  {
    if Readable(w, path) {
      forall identifier | LooksInto(w, path, identifier) ensures w.fields(identifier).Some? {
        assert Scans(w, w.open(path).held, identifier);
      }
    }
    if GoesOn(w, path) && w.open(path).Stage? {
      forall identifier | identifier in w.open(path).identifiers && Scans(w, w.open(path).held, identifier)
        ensures w.fields(identifier).Some?
      {
        assert LooksInto(w, path, identifier);
      }
    }
  }
}
