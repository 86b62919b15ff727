/** What there is to find out about a USD source: the stages its layers open to, the fields their layers hold, and
    the facts that one stage contributes to a dependency report. */
module DiscoveryFacts {
  import opened Wrappers
  import opened AssetPaths
  import opened ClosureValue

  datatype Field = Field(name: string, value: Value)

  datatype Opened =
    | CannotOpen
    | CannotTraverse
    | Stage(errors: set<string>, identifiers: seq<string>, held: set<string>)

  /** The outside world: opening a stage at a file, making a path canonical, the file an identifier names, and the
      fields of the layer with an identifier, if all can be read. */
  datatype World = World(
    open: Path -> Opened,
    regular: Path -> Option<Path>,
    fileOf: string -> Option<Path>,
    isPackage: string -> bool,
    packageAnchor: string -> Path,
    fields: string -> Option<seq<Field>>,
    find: Finder,
    numbering: Numbering)

  datatype Problem =
    | Unopenable(path: Path)
    | Composition(error: string)
    | NoFile(identifier: string)
    | Irregular(path: Path)
    | Unresolved(anchor: Path, asset: Asset)
    | NoTemplate(anchor: Path, template: Asset)

  datatype Fact = Layer(path: Path) | File(path: Path) | Missing(problem: Problem) | Tolerated(problem: Problem)

  function LayerFact(w: World, path: Path): Fact {
    match w.regular(path) case Some(canonical) => Layer(canonical) case None => Missing(Irregular(path))
  }

  function LayerFacts(w: World, paths: set<Path>): set<Fact> {
    set path | path in paths :: LayerFact(w, path)
  }

  function FileFacts(paths: set<Path>): set<Fact> {
    set path | path in paths :: File(path)
  }

  function AssetFacts(w: World, anchor: Path, asset: Asset, isLayer: bool): set<Fact> {
    match Resolve(w.find, anchor, asset)
    case Some(paths) => if isLayer then LayerFacts(w, paths) else FileFacts(paths)
    case None =>
      if !isLayer && IsOptional(asset) then {Tolerated(Unresolved(anchor, asset))}
          else {Missing(Unresolved(anchor, asset))}
  }

  function LayerListFacts(w: World, anchor: Path, assets: seq<Asset>): set<Fact> {
    if assets == [] then {}
    else LayerListFacts(w, anchor, assets[..|assets| - 1]) + AssetFacts(w, anchor, assets[|assets| - 1], true)
  }

  function DependencyFacts(w: World, anchor: Path, d: Dependency): set<Fact> {
    match d
    case Dependency(asset, isLayer) => AssetFacts(w, anchor, asset, isLayer)
    case Template(template, None) => {Missing(NoTemplate(anchor, template))}
    case Template(_, Some(files)) => LayerListFacts(w, anchor, files)
  }

  function ListFacts(w: World, anchor: Path, ds: seq<Dependency>): set<Fact> {
    if ds == [] then {}
    else ListFacts(w, anchor, ds[..|ds| - 1]) + DependencyFacts(w, anchor, ds[|ds| - 1])
  }

  function FieldFacts(w: World, anchor: Path, fields: seq<Field>): set<Fact> {
    if fields == [] then {}
    else
      var field := fields[|fields| - 1];
      FieldFacts(w, anchor, fields[..|fields| - 1])
      + ListFacts(w, anchor, Dependencies(w.numbering, field.value, field.name, false))
  }

  /** A layer's relative assets start from its package, or from its own file. */
  function Anchor(w: World, identifier: string): Path
    requires w.fileOf(identifier).Some?
  {
    if w.isPackage(identifier) then w.packageAnchor(identifier) else w.fileOf(identifier).value
  }

  /** Whether a layer of a stage is looked into. */
  predicate Scans(w: World, held: set<string>, identifier: string) {
    && identifier in held && w.fileOf(identifier).Some?
    && (w.isPackage(identifier) || w.regular(w.fileOf(identifier).value).Some?)
  }

  function ScanFacts(w: World, identifier: string): set<Fact> {
    if w.fileOf(identifier).None? || w.fields(identifier).None? then {}
    else FieldFacts(w, Anchor(w, identifier), w.fields(identifier).value)
  }

  function NameFact(w: World, identifier: string): Fact {
    match w.fileOf(identifier)
    case None => Missing(NoFile(identifier))
    case Some(path) => if w.isPackage(identifier) then File(path) else LayerFact(w, path)
  }

  function IdentifierFacts(w: World, held: set<string>, identifier: string): set<Fact> {
    {NameFact(w, identifier)} + if Scans(w, held, identifier) then ScanFacts(w, identifier) else {}
  }

  function IdentifiersFacts(w: World, held: set<string>, identifiers: seq<string>): set<Fact> {
    if identifiers == [] then {}
    else
      IdentifiersFacts(w, held, identifiers[..|identifiers| - 1])
      + IdentifierFacts(w, held, identifiers[|identifiers| - 1])
  }

  function ErrorFacts(errors: set<string>): set<Fact> {
    set error | error in errors :: Missing(Composition(error))
  }

  /** Everything that visiting one file contributes. */
  function VisitFacts(w: World, path: Path): set<Fact> {
    match w.open(path)
    case CannotOpen => {Missing(Unopenable(path))}
    case CannotTraverse => {}
    case Stage(errors, identifiers, held) => ErrorFacts(errors) + IdentifiersFacts(w, held, identifiers)
  }

  /** The layers a stage has looked into. */
  predicate ScansAt(w: World, path: Path, identifier: string) {
    var stage := w.open(path);
    stage.Stage? && identifier in stage.identifiers && Scans(w, stage.held, identifier)
  }

  /** Visiting a file does not end the discovery. */
  predicate Readable(w: World, path: Path) {
    var stage := w.open(path);
    && !stage.CannotTraverse?
    && (stage.Stage? ==>
          forall identifier | identifier in stage.identifiers ::
            Scans(w, stage.held, identifier) ==> w.fields(identifier).Some?)
  }

  // ---- Reachability ----

  predicate Edge(w: World, from: Path, to: Path) {
    Layer(to) in VisitFacts(w, from)
  }

  ghost predicate Trail(w: World, trail: seq<Path>) {
    trail != [] && forall i | 0 < i < |trail| :: Edge(w, trail[i - 1], trail[i])
  }

  ghost predicate TrailTo(w: World, root: Path, path: Path, trail: seq<Path>) {
    Trail(w, trail) && trail[0] == root && trail[|trail| - 1] == path
  }

  ghost predicate Reachable(w: World, root: Path, path: Path) {
    exists trail :: TrailTo(w, root, path, trail)
  }

  /** The facts of a finished discovery. */
  ghost predicate IsReport(w: World, root: Path, facts: set<Fact>) {
    forall fact :: fact in facts <==>
      fact == Layer(root) || exists path :: Reachable(w, root, path) && fact in VisitFacts(w, path)
  }

  lemma RootIsReachable(w: World, root: Path)
    ensures Reachable(w, root, root)
  {
    assert TrailTo(w, root, root, [root]);
  }

  lemma OneStepFurther(w: World, root: Path, from: Path, to: Path)
    requires Reachable(w, root, from) && Edge(w, from, to)
    ensures Reachable(w, root, to)
  {
    var trail :| TrailTo(w, root, from, trail);
    assert TrailTo(w, root, to, trail + [to]);
  }

  /** A set that holds the root and is closed under edges holds everything reachable. */
  lemma {:induction false} ClosedHoldsTrail(w: World, root: Path, paths: set<Path>, trail: seq<Path>)
    requires Trail(w, trail) && trail[0] in paths
    requires forall from, to | from in paths && Edge(w, from, to) :: to in paths
    ensures trail[|trail| - 1] in paths
    decreases |trail|
  {
    if |trail| > 1 {
      var front := trail[..|trail| - 1];
      assert forall i | 0 <= i < |front| :: front[i] == trail[i];
      ClosedHoldsTrail(w, root, paths, front);
      assert Edge(w, trail[|trail| - 2], trail[|trail| - 1]);
    }
  }

  lemma ClosedHoldsReachable(w: World, root: Path, paths: set<Path>, path: Path)
    requires root in paths && Reachable(w, root, path)
    requires forall from, to | from in paths && Edge(w, from, to) :: to in paths
    ensures path in paths
  {
    var trail :| TrailTo(w, root, path, trail);
    ClosedHoldsTrail(w, root, paths, trail);
  }

  // ---- Lists of facts ----

  lemma {:induction false} IdentifiersInclude(w: World, held: set<string>, identifiers: seq<string>, fact: Fact)
    ensures fact in IdentifiersFacts(w, held, identifiers) <==>
            exists identifier :: identifier in identifiers && fact in IdentifierFacts(w, held, identifier)
  {
    if identifiers != [] {
      var front, last := identifiers[..|identifiers| - 1], identifiers[|identifiers| - 1];
      IdentifiersInclude(w, held, front, fact);
      assert identifiers == front + [last];
    }
  }

  lemma ScanIsPartOfVisit(w: World, path: Path, identifier: string)
    requires ScansAt(w, path, identifier)
    ensures ScanFacts(w, identifier) <= VisitFacts(w, path)
  {
    var stage := w.open(path);
    forall fact | fact in ScanFacts(w, identifier) ensures fact in VisitFacts(w, path) {
      IdentifiersInclude(w, stage.held, stage.identifiers, fact);
      assert fact in IdentifierFacts(w, stage.held, identifier);
    }
  }

  // ---- Exploration ----

  /** What is known after visiting some layers: their facts, the layers they looked into, and that all were readable
      and reachable. */
  ghost predicate Explored(w: World, root: Path, facts: set<Fact>, visited: set<Path>, scanned: set<string>) {
    && (forall fact :: fact in facts <==>
          fact == Layer(root) || exists path :: path in visited && fact in VisitFacts(w, path))
    && (forall identifier :: identifier in scanned <==> exists path :: path in visited && ScansAt(w, path, identifier))
    && (forall path | path in visited :: Readable(w, path))
    && (forall path | Layer(path) in facts :: Reachable(w, root, path))
  }

  lemma ExplorationStarts(w: World, root: Path)
    ensures Explored(w, root, {Layer(root)}, {}, {})
  {
    RootIsReachable(w, root);
  }

  lemma ExplorationGrows(w: World, root: Path, facts: set<Fact>, visited: set<Path>, scanned: set<string>, path: Path,
                         newFacts: set<Fact>, newScanned: set<string>)
    requires Explored(w, root, facts, visited, scanned)
    requires Layer(path) in facts && Readable(w, path)
    requires newFacts == facts + VisitFacts(w, path)
    requires forall other :: other in newScanned <==> other in scanned || ScansAt(w, path, other)
    ensures Explored(w, root, newFacts, visited + {path}, newScanned)
  {
    forall to | Layer(to) in newFacts ensures Reachable(w, root, to) {
      if Layer(to) !in facts {
        assert Edge(w, path, to);
        OneStepFurther(w, root, path, to);
      }
    }
    forall fact ensures fact in newFacts <==>
                        fact == Layer(root) || exists p :: p in visited + {path} && fact in VisitFacts(w, p) {
      if fact in VisitFacts(w, path) { assert path in visited + {path}; }
    }
    forall identifier ensures identifier in newScanned <==>
                              exists p :: p in visited + {path} && ScansAt(w, p, identifier) {
      if ScansAt(w, path, identifier) { assert path in visited + {path}; }
    }
  }

  lemma ExplorationRecordsScans(w: World, root: Path, facts: set<Fact>, visited: set<Path>, scanned: set<string>)
    requires Explored(w, root, facts, visited, scanned)
    ensures forall identifier | identifier in scanned :: ScanFacts(w, identifier) <= facts && w.fields(identifier).Some?
  {
    forall identifier | identifier in scanned
      ensures ScanFacts(w, identifier) <= facts && w.fields(identifier).Some?
    {
      var path :| path in visited && ScansAt(w, path, identifier);
      ScanIsPartOfVisit(w, path, identifier);
      assert Readable(w, path);
    }
  }

  /** When nothing waits any more, the visited layers are the reachable ones. */
  lemma ExplorationIsReachability(w: World, root: Path, facts: set<Fact>, visited: set<Path>, scanned: set<string>)
    requires Explored(w, root, facts, visited, scanned)
    requires forall path :: Layer(path) in facts <==> path in visited
    ensures forall path :: path in visited <==> Reachable(w, root, path)
  {
    forall path | Reachable(w, root, path) ensures path in visited {
      forall from, to | from in visited && Edge(w, from, to) ensures to in visited {
        assert Layer(to) in facts;
      }
      ClosedHoldsReachable(w, root, visited, path);
    }
  }

  // ---- Finiteness ----

  predicate Canonical(w: World, fact: Fact, universe: set<Path>) {
    fact.Layer? ==> fact.path in universe
  }

  ghost predicate Finite(w: World, universe: set<Path>) {
    forall path | w.regular(path).Some? :: w.regular(path).value in universe
  }

  lemma AssetFactsAreKnown(w: World, universe: set<Path>, anchor: Path, asset: Asset, isLayer: bool)
    requires Finite(w, universe)
    ensures forall fact | fact in AssetFacts(w, anchor, asset, isLayer) :: Canonical(w, fact, universe)
  {
  }

  lemma {:induction false} LayerListIsKnown(w: World, universe: set<Path>, anchor: Path, assets: seq<Asset>)
    requires Finite(w, universe)
    ensures forall fact | fact in LayerListFacts(w, anchor, assets) :: Canonical(w, fact, universe)
  {
    if assets != [] {
      LayerListIsKnown(w, universe, anchor, assets[..|assets| - 1]);
      AssetFactsAreKnown(w, universe, anchor, assets[|assets| - 1], true);
    }
  }

  lemma {:induction false} ListIsKnown(w: World, universe: set<Path>, anchor: Path, ds: seq<Dependency>)
    requires Finite(w, universe)
    ensures forall fact | fact in ListFacts(w, anchor, ds) :: Canonical(w, fact, universe)
  {
    if ds != [] {
      ListIsKnown(w, universe, anchor, ds[..|ds| - 1]);
      match ds[|ds| - 1]
      case Dependency(asset, isLayer) => AssetFactsAreKnown(w, universe, anchor, asset, isLayer);
      case Template(_, None) =>
      case Template(_, Some(files)) => LayerListIsKnown(w, universe, anchor, files);
    }
  }

  lemma {:induction false} FieldsAreKnown(w: World, universe: set<Path>, anchor: Path, fields: seq<Field>)
    requires Finite(w, universe)
    ensures forall fact | fact in FieldFacts(w, anchor, fields) :: Canonical(w, fact, universe)
  {
    if fields != [] {
      FieldsAreKnown(w, universe, anchor, fields[..|fields| - 1]);
      var field := fields[|fields| - 1];
      ListIsKnown(w, universe, anchor, Dependencies(w.numbering, field.value, field.name, false));
    }
  }

  lemma {:induction false} IdentifiersAreKnown(w: World, universe: set<Path>, held: set<string>,
                                               identifiers: seq<string>)
    requires Finite(w, universe)
    ensures forall fact | fact in IdentifiersFacts(w, held, identifiers) :: Canonical(w, fact, universe)
  {
    if identifiers != [] {
      var last := identifiers[|identifiers| - 1];
      IdentifiersAreKnown(w, universe, held, identifiers[..|identifiers| - 1]);
      if Scans(w, held, last) && w.fields(last).Some? {
        FieldsAreKnown(w, universe, Anchor(w, last), w.fields(last).value);
      }
    }
  }

  /** Every layer found is one of the finitely many canonical files. */
  lemma LayersAreKnown(w: World, universe: set<Path>, root: Path, facts: set<Fact>, visited: set<Path>,
                       scanned: set<string>)
    requires Finite(w, universe) && root in universe && Explored(w, root, facts, visited, scanned)
    ensures forall path | Layer(path) in facts :: path in universe
  {
    forall path | Layer(path) in facts ensures path in universe {
      if path != root {
        var from :| from in visited && Layer(path) in VisitFacts(w, from);
        var stage := w.open(from);
        IdentifiersAreKnown(w, universe, stage.held, stage.identifiers);
        assert Canonical(w, Layer(path), universe);
      }
    }
  }
}
