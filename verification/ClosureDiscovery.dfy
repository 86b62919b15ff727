/** Discovery of a source's dependency closure: a stack of layers still to visit, grown by what each visit finds. */
module ClosureDiscovery {
  import opened Wrappers
  import opened AssetPaths
  import opened ClosureValue
  import opened DiscoveryFacts
  import opened ClosureReport

  /** What a report with these four lists says; the root layer is not listed, yet belongs to the closure. */
  predicate Says(root: Path, layers: set<Path>, files: set<Path>, missing: set<Problem>, tolerated: set<Problem>,
                 fact: Fact) {
    match fact
    case Layer(path) => path in layers || path == root
    case File(path) => path in files
    case Missing(problem) => problem in missing
    case Tolerated(problem) => problem in tolerated
  }

  predicate NoRepetition(log: seq<string>) {
    forall i, j | 0 <= i < j < |log| :: log[i] != log[j]
  }

  class DiscoveryState {
    const root: Path
    var layers: set<Path>
    var nonLayerAssets: set<Path>
    var unresolved: set<Problem>
    var optionalUnresolved: set<Problem>
    var pending: seq<Path>
    var visited: set<Path>
    var scanned: set<string>
    /** The four lists, and the root, as facts. */
    ghost var facts: set<Fact>
    /** The layers looked into, in order. */
    ghost var scanLog: seq<string>

    constructor (root: Path)
      ensures this.root == root && facts == {Layer(root)} && Queued()
      ensures pending == [root] && visited == {} && scanned == {} && scanLog == []
    {
      this.root := root;
      layers, nonLayerAssets, unresolved, optionalUnresolved := {}, {}, {}, {};
      pending, visited, scanned, scanLog := [root], {}, {}, [];
      facts := {Layer(root)};
    }

    /** The report says what the facts say. */
    ghost predicate Reported()
      reads this
    {
      && root !in layers
      && forall fact :: fact in facts <==> Says(root, layers, nonLayerAssets, unresolved, optionalUnresolved, fact)
    }

    /** Every layer found is visited or waits for its visit, and nothing else is. */
    ghost predicate Queued()
      reads this
    {
      && Reported()
      && (forall path | Layer(path) in facts :: path in visited || path in pending)
      && (forall path | path in visited || path in pending :: Layer(path) in facts)
    }

    ghost predicate LoggedOnce()
      reads this
    {
      NoRepetition(scanLog) && forall identifier :: identifier in scanLog <==> identifier in scanned
    }

    method Record(fact: Fact)
      requires Reported()
      modifies this`layers, this`nonLayerAssets, this`unresolved, this`optionalUnresolved, this`facts
      ensures Reported() && facts == old(facts) + {fact}
    {
      match fact {
        case Layer(path) => if path != root { layers := layers + {path}; }
        case File(path) => nonLayerAssets := nonLayerAssets + {path};
        case Missing(problem) => unresolved := unresolved + {problem};
        case Tolerated(problem) => optionalUnresolved := optionalUnresolved + {problem};
      }
      facts := facts + {fact};
    }

    method AddLayer(w: World, path: Path) returns (canonical: Option<Path>)
      requires Queued()
      modifies this`layers, this`nonLayerAssets, this`unresolved, this`optionalUnresolved, this`facts, this`pending
      ensures Queued() && facts == old(facts) + {LayerFact(w, path)}
      ensures canonical == w.regular(path)
    {
      canonical := w.regular(path);
      Record(LayerFact(w, path));
      if canonical.Some? && canonical.value !in visited { pending := pending + [canonical.value]; }
    }

    method AddLayers(w: World, paths: set<Path>)
      requires Queued()
      modifies this`layers, this`nonLayerAssets, this`unresolved, this`optionalUnresolved, this`facts, this`pending
      ensures Queued() && facts == old(facts) + LayerFacts(w, paths)
    {
      var left := paths;
      while left != {}
        invariant left <= paths && Queued()
        invariant facts == old(facts) + LayerFacts(w, paths - left)
        decreases |left|
      {
        var path :| path in left;
        assert LayerFacts(w, paths - (left - {path})) == LayerFacts(w, paths - left) + {LayerFact(w, path)};
        left := left - {path};
        var _ := AddLayer(w, path);
      }
      assert paths - left == paths;
    }

    method AddFiles(paths: set<Path>)
      requires Queued()
      modifies this`nonLayerAssets, this`facts
      ensures Queued() && facts == old(facts) + FileFacts(paths)
    {
      nonLayerAssets := nonLayerAssets + paths;
      facts := facts + FileFacts(paths);
    }

    method AddDependency(w: World, anchor: Path, asset: Asset, isLayer: bool)
      requires Queued()
      modifies this`layers, this`nonLayerAssets, this`unresolved, this`optionalUnresolved, this`facts, this`pending
      ensures Queued() && facts == old(facts) + AssetFacts(w, anchor, asset, isLayer)
    {
      var paths := Resolve(w.find, anchor, asset);
      if paths.Some? {
        if isLayer { AddLayers(w, paths.value); } else { AddFiles(paths.value); }
      } else if !isLayer && IsOptional(asset) {
        Record(Tolerated(Unresolved(anchor, asset)));
      } else {
        Record(Missing(Unresolved(anchor, asset)));
      }
    }

    method AddTemplate(w: World, anchor: Path, files: seq<Asset>)
      requires Queued()
      modifies this`layers, this`nonLayerAssets, this`unresolved, this`optionalUnresolved, this`facts, this`pending
      ensures Queued() && facts == old(facts) + LayerListFacts(w, anchor, files)
    {
      for k := 0 to |files|
        invariant Queued() && facts == old(facts) + LayerListFacts(w, anchor, files[..k])
      {
        assert files[..k + 1][..k] == files[..k];
        AddDependency(w, anchor, files[k], true);
      }
      assert files[..|files|] == files;
    }

    method ScanValue(w: World, anchor: Path, value: Value, field: string)
      requires Queued()
      modifies this`layers, this`nonLayerAssets, this`unresolved, this`optionalUnresolved, this`facts, this`pending
      ensures Queued()
      ensures facts == old(facts) + ListFacts(w, anchor, Dependencies(w.numbering, value, field, false))
    {
      var ds := Dependencies(w.numbering, value, field, false);
      for k := 0 to |ds|
        invariant Queued() && facts == old(facts) + ListFacts(w, anchor, ds[..k])
      {
        assert ds[..k + 1][..k] == ds[..k];
        match ds[k] {
          case Dependency(asset, isLayer) => AddDependency(w, anchor, asset, isLayer);
          case Template(template, None) => Record(Missing(NoTemplate(anchor, template)));
          case Template(_, Some(files)) => AddTemplate(w, anchor, files);
        }
      }
      assert ds[..|ds|] == ds;
    }

    method ScanLayer(w: World, identifier: string) returns (ok: bool)
      requires Queued() && LoggedOnce() && w.fileOf(identifier).Some? && identifier !in scanned
      modifies this`layers, this`nonLayerAssets, this`unresolved, this`optionalUnresolved, this`facts, this`pending,
          this`scanned,
               this`scanLog
      ensures Queued() && LoggedOnce() && facts == old(facts) + ScanFacts(w, identifier)
      ensures scanned == old(scanned) + {identifier}
      ensures ok <==> w.fields(identifier).Some?
    {
      scanned := scanned + {identifier};
      scanLog := scanLog + [identifier];
      var fields := w.fields(identifier);
      if fields.None? { return false; }
      var anchor := Anchor(w, identifier);
      for k := 0 to |fields.value|
        invariant Queued() && LoggedOnce() && scanned == old(scanned) + {identifier}
        invariant facts == old(facts) + FieldFacts(w, anchor, fields.value[..k])
      {
        assert fields.value[..k + 1][..k] == fields.value[..k];
        ScanValue(w, anchor, fields.value[k].value, fields.value[k].name);
      }
      assert fields.value[..|fields.value|] == fields.value;
      return true;
    }

    /** The facts of the layers looked into are all recorded. */
    ghost predicate ScansRecorded(w: World)
      reads this
    {
      forall identifier | identifier in scanned :: ScanFacts(w, identifier) <= facts
    }

    /** Lists the file a stage's identifier names; says whether its layer is to be looked into. */
    method ListIdentifier(w: World, identifier: string) returns (listed: bool)
      requires Queued()
      modifies this`layers, this`nonLayerAssets, this`unresolved, this`optionalUnresolved, this`facts, this`pending
      ensures Queued() && facts == old(facts) + {NameFact(w, identifier)}
      ensures listed <==> w.fileOf(identifier).Some?
                          && (w.isPackage(identifier) || w.regular(w.fileOf(identifier).value).Some?)
    {
      var file := w.fileOf(identifier);
      if file.None? {
        Record(Missing(NoFile(identifier)));
        return false;
      }
      if w.isPackage(identifier) {
        Record(File(file.value));
        return true;
      }
      var added := AddLayer(w, file.value);
      return added.Some?;
    }

    method VisitIdentifier(w: World, held: set<string>, identifier: string) returns (ok: bool)
      requires Queued() && LoggedOnce() && ScansRecorded(w)
      requires forall other | other in scanned :: w.fields(other).Some?
      modifies this`layers, this`nonLayerAssets, this`unresolved, this`optionalUnresolved, this`facts, this`pending,
          this`scanned,
               this`scanLog
      ensures Queued() && LoggedOnce() && ScansRecorded(w)
      ensures facts == old(facts) + IdentifierFacts(w, held, identifier)
      ensures scanned == old(scanned) + if Scans(w, held, identifier) then {identifier} else {}
      ensures ok <==> (Scans(w, held, identifier) ==> w.fields(identifier).Some?)
    {
      var listed := ListIdentifier(w, identifier);
      if listed && identifier in held && identifier !in scanned {
        ok := ScanLayer(w, identifier);
      } else {
        ok := true;
      }
    }

    /** The identifiers of one stage, up to the first layer that cannot be read. */
    method VisitIdentifiers(w: World, held: set<string>, identifiers: seq<string>) returns (ok: bool)
      requires Queued() && LoggedOnce() && ScansRecorded(w)
      requires forall other | other in scanned :: w.fields(other).Some?
      modifies this`layers, this`nonLayerAssets, this`unresolved, this`optionalUnresolved, this`facts, this`pending,
          this`scanned,
               this`scanLog
      ensures Queued() && LoggedOnce() && ScansRecorded(w)
      ensures ok <==> forall other | other in identifiers :: Scans(w, held, other) ==> w.fields(other).Some?
      ensures ok ==> facts == old(facts) + IdentifiersFacts(w, held, identifiers)
      ensures forall other :: other in scanned ==>
                other in old(scanned) || (other in identifiers && Scans(w, held, other))
      ensures ok ==> forall other :: other in scanned <==>
                other in old(scanned) || (other in identifiers && Scans(w, held, other))
      ensures ok ==> forall other | other in scanned :: w.fields(other).Some?
    {
      for k := 0 to |identifiers|
        invariant Queued() && LoggedOnce() && ScansRecorded(w)
        invariant forall other | other in scanned :: w.fields(other).Some?
        invariant facts == old(facts) + IdentifiersFacts(w, held, identifiers[..k])
        invariant forall other :: other in scanned <==>
                    other in old(scanned) || (other in identifiers[..k] && Scans(w, held, other))
        invariant forall other | other in identifiers[..k] :: Scans(w, held, other) ==> w.fields(other).Some?
      {
        assert identifiers[..k + 1][..k] == identifiers[..k];
        assert identifiers[..k + 1] == identifiers[..k] + [identifiers[k]];
        ok := VisitIdentifier(w, held, identifiers[k]);
        if !ok { return; }
      }
      assert identifiers[..|identifiers|] == identifiers;
      return true;
    }

    method Visit(w: World, path: Path) returns (ok: bool)
      requires Queued() && LoggedOnce() && ScansRecorded(w)
      requires forall other | other in scanned :: w.fields(other).Some?
      modifies this`layers, this`nonLayerAssets, this`unresolved, this`optionalUnresolved, this`facts, this`pending,
          this`scanned,
               this`scanLog
      ensures Queued() && LoggedOnce()
      ensures ok <==> Readable(w, path)
      ensures ok ==> ScansRecorded(w) && facts == old(facts) + VisitFacts(w, path)
      ensures forall other :: other in scanned ==> other in old(scanned) || ScansAt(w, path, other)
      ensures ok ==> forall other :: ScansAt(w, path, other) || other in old(scanned) ==> other in scanned
      ensures ok ==> forall other | other in scanned :: w.fields(other).Some?
    {
      var stage := w.open(path);
      if stage.CannotOpen? {
        Record(Missing(Unopenable(path)));
        return true;
      }
      if stage.CannotTraverse? { return false; }
      AddErrors(stage.errors);
      ok := VisitIdentifiers(w, stage.held, stage.identifiers);
    }

    method AddErrors(errors: set<string>)
      requires Queued()
      modifies this`unresolved, this`facts
      ensures Queued() && facts == old(facts) + ErrorFacts(errors)
    {
      unresolved := unresolved + set error | error in errors :: Composition(error);
      facts := facts + ErrorFacts(errors);
    }

    /** The state between two visits. */
    ghost predicate Waiting(w: World)
      reads this
    {
      Queued() && LoggedOnce() && Explored(w, root, facts, visited, scanned)
    }

    /** One round: the last layer waiting is dropped if it was visited, and visited otherwise. */
    method Round(w: World) returns (ok: bool)
      requires Waiting(w) && pending != []
      modifies this
      ensures ok ==> Waiting(w)
      ensures ok ==> visited == old(visited) + {old(pending)[|old(pending)| - 1]}
      ensures ok && visited == old(visited) ==> |pending| < |old(pending)|
      ensures !ok ==> exists path :: Reachable(w, root, path) && !GoesOn(w, path)
    {
      var path := pending[|pending| - 1];
      assert pending == pending[..|pending| - 1] + [path];
      pending := pending[..|pending| - 1];
      if path in visited { return true; }
      ghost var known, seen, looked := facts, visited, scanned;
      ExplorationRecordsScans(w, root, known, seen, looked);
      visited := visited + {path};
      ok := Visit(w, path);
      ReadableGoesOn(w, path);
      if ok { ExplorationGrows(w, root, known, seen, looked, path, facts, scanned); }
    }

    /** The four lists, told by what is found. */
    lemma ListsAreExact(w: World)
      requires Reported() && IsReport(w, root, facts)
      ensures forall path :: path in layers <==> path != root && FoundFrom(w, root, Layer(path))
      ensures forall file :: file in nonLayerAssets <==> FoundFrom(w, root, File(file))
      ensures forall problem :: problem in unresolved <==> FoundFrom(w, root, Missing(problem))
      ensures forall problem :: problem in optionalUnresolved <==> FoundFrom(w, root, Tolerated(problem))
    {
      forall fact { ReportIsExact(w, root, facts, fact); }
      forall path ensures path in layers <==> path != root && FoundFrom(w, root, Layer(path)) {
        assert path != root ==> (Layer(path) in facts <==> path in layers);
      }
      forall file ensures file in nonLayerAssets <==> FoundFrom(w, root, File(file)) {
        assert File(file) in facts <==> file in nonLayerAssets;
      }
      forall problem ensures problem in unresolved <==> FoundFrom(w, root, Missing(problem)) {
        assert Missing(problem) in facts <==> problem in unresolved;
      }
      forall problem ensures problem in optionalUnresolved <==> FoundFrom(w, root, Tolerated(problem)) {
        assert Tolerated(problem) in facts <==> problem in optionalUnresolved;
      }
    }

    method Discover(w: World, ghost universe: set<Path>) returns (ok: bool)
      requires Queued() && facts == {Layer(root)}
      requires pending == [root] && visited == {} && scanned == {} && scanLog == []
      requires root in universe && Finite(w, universe)
      modifies this
      ensures ok ==> Reported()
      ensures ok <==> forall path | Reachable(w, root, path) :: GoesOn(w, path)
      ensures ok ==> forall path :: Layer(path) in facts <==> Reachable(w, root, path)
      ensures ok ==> IsReport(w, root, facts)
      ensures ok ==> forall path :: path in layers <==> path != root && FoundFrom(w, root, Layer(path))
      ensures ok ==> forall file :: file in nonLayerAssets <==> FoundFrom(w, root, File(file))
      ensures ok ==> forall problem :: problem in unresolved <==> FoundFrom(w, root, Missing(problem))
      ensures ok ==> forall problem :: problem in optionalUnresolved <==> FoundFrom(w, root, Tolerated(problem))
      ensures ok ==> NoRepetition(scanLog)
      ensures ok ==> forall identifier :: identifier in scanLog <==>
                exists path :: Reachable(w, root, path) && ScansAt(w, path, identifier)
    {
      ExplorationStarts(w, root);
      while pending != []
        invariant Waiting(w)
        invariant visited <= universe
        decreases universe - visited, |pending|
      {
        LayersAreKnown(w, universe, root, facts, visited, scanned);
        ok := Round(w);
        if !ok { return; }
      }
      ExplorationIsReachability(w, root, facts, visited, scanned);
      ListsAreExact(w);
      forall path | Reachable(w, root, path) ensures GoesOn(w, path) { ReadableGoesOn(w, path); }
      ok := true;
    }
  }
}
