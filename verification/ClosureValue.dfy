/** Field values of a USD layer, the assets they depend on, and the rewriting that points them into a
    localized copy of the closure. Dictionaries are listed in the order the program iterates them. */
module ClosureValue {
  import opened Wrappers
  import opened AssetPaths

  /** A double is none if it is not finite. */
  datatype Value =
    | AssetPath(asset: Asset)
    | AssetPathVec(assets: seq<Asset>)
    | ReferenceListOp(references: seq<Reference>)
    | PayloadListOp(payloads: seq<PayloadArc>)
    | Payload(payload: PayloadArc)
    | Dictionary(entries: seq<Entry>)
    | ValueVec(values: seq<Value>)
    | TimeSamples(samples: seq<Sample>)
    | StringVec(texts: seq<Asset>)
    | Double(number: Option<real>)
    | Other(content: nat)

  /** `plain` is what an arc has besides: its prim path, its layer offset, and which of the lists of a list edit it
      stands in. */
  datatype Reference = Reference(asset: Asset, plain: nat, customData: seq<Entry>)

  datatype PayloadArc = PayloadArc(asset: Asset, plain: nat)

  datatype Entry = Entry(key: string, value: Value)

  datatype Sample = Sample(time: real, value: Value)

  /** What a layer asks for: an asset, as a layer or not, or a clip template with the layers it expands to. */
  datatype Dependency = Dependency(asset: Asset, isLayer: bool) | Template(template: Asset, files: Option<seq<Asset>>)

  // ---- Dictionaries ----

  function Get(entries: seq<Entry>, key: string): Option<Value> {
    if entries == [] then None
    else if entries[0].key == key then Some(entries[0].value)
    else Get(entries[1..], key)
  }

  function Put(entries: seq<Entry>, key: string, value: Value): seq<Entry> {
    if entries == [] then []
    else if entries[0].key == key then [Entry(key, value)] + entries[1..]
    else [entries[0]] + Put(entries[1..], key, value)
  }

  lemma {:induction false} PutThenGet(entries: seq<Entry>, key: string, value: Value, other: string)
    ensures Get(Put(entries, key, value), other) ==
            if other == key && Get(entries, key).Some? then Some(value) else Get(entries, other)
  {
    if entries != [] {
      PutThenGet(entries[1..], key, value, other);
      var put := Put(entries, key, value);
      assert put[1..] == if entries[0].key == key then entries[1..] else Put(entries[1..], key, value);
    }
  }

  // ---- Clip templates ----

  /** How time samples number a clip template's files: the times that start, end and stride give, if they give
      any, and how a time is padded to a width. */
  datatype Numbering = Numbering(
    times: (Option<Value>, Option<Value>, Option<Value>) -> Option<seq<int>>,
    pad: (nat, int) -> string)

  function HashRun(text: string): (n: nat)
    ensures n <= |text|
  {
    if text == "" || text[0] != '#' then 0 else 1 + HashRun(text[1..])
  }

  predicate HasHash(text: string) {
    '#' in text
  }

  /** The first step of a template with a hash mark. */
  function HashStep(steps: seq<string>): (r: Option<nat>)
    ensures r.Some? ==> r.value < |steps| && HasHash(steps[r.value])
    ensures r.Some? ==> forall i | 0 <= i < r.value :: !HasHash(steps[i])
    ensures r.None? ==> forall i | 0 <= i < |steps| :: !HasHash(steps[i])
  {
    if steps == [] then None
    else if HasHash(steps[0]) then Some(0)
    else
      var rest := HashStep(steps[1..]);
      if rest.None? then None else Some(rest.value + 1)
  }

  function FirstHash(text: string): (n: nat)
    requires HasHash(text)
    ensures n < |text| && text[n] == '#'
  {
    if text[0] == '#' then 0 else 1 + FirstHash(text[1..])
  }

  /** The text after the first run of hash marks. */
  function AfterRun(text: string): string
    requires HasHash(text)
  {
    var at := FirstHash(text);
    text[at..][HashRun(text[at..])..]
  }

  function NumberedName(numbering: Numbering, name: string, time: int): string
    requires HasHash(name)
  {
    var at := FirstHash(name);
    name[..at] + numbering.pad(HashRun(name[at..]), time) + AfterRun(name)
  }

  /** A template has one run of hash marks. */
  predicate IsTemplate(steps: seq<string>) {
    var at := HashStep(steps);
    && at.Some?
    && !HasHash(AfterRun(steps[at.value]))
    && forall i | at.value < i < |steps| :: !HasHash(steps[i])
  }

  /** The hash marks are in the file name. */
  predicate HashInName(template: Asset) {
    template.steps != [] && HashStep(template.steps) == Some(|template.steps| - 1)
  }

  function Numbered(numbering: Numbering, template: Asset, time: int): Asset
    requires IsTemplate(template.steps)
  {
    var at := HashStep(template.steps).value;
    template.(steps := template.steps[at := NumberedName(numbering, template.steps[at], time)])
  }

  function TemplateTimes(numbering: Numbering, clip: seq<Entry>): Option<seq<int>> {
    var times :=
        numbering.times(Get(clip, "templateStartTime"), Get(clip, "templateEndTime"), Get(clip, "templateStride"));
    if times == Some([]) then None else times
  }

  function ExpandTemplate(numbering: Numbering, clip: seq<Entry>, template: Asset): Option<seq<Asset>> {
    var times := TemplateTimes(numbering, clip);
    if times.None? || !IsTemplate(template.steps) then None
    else Some(seq(|times.value|, i requires 0 <= i < |times.value| => Numbered(numbering, template, times.value[i])))
  }

  // ---- Dependencies ----

  function AssetDependencies(assets: seq<Asset>, isLayer: bool): seq<Dependency> {
    seq(|assets|, i requires 0 <= i < |assets| => Dependency(assets[i], isLayer))
  }

  function ArcDependency(asset: Asset, arcs: bool): seq<Dependency> {
    if arcs && !IsEmpty(asset) then [Dependency(asset, true)] else []
  }

  function ClipAssets(clip: seq<Entry>): seq<Dependency> {
    match Get(clip, "assetPaths")
    case Some(AssetPathVec(assets)) => AssetDependencies(assets, true)
    case _ => []
  }

  function ClipManifest(clip: seq<Entry>): seq<Dependency> {
    match Get(clip, "manifestAssetPath")
    case Some(AssetPath(asset)) => if IsEmpty(asset) then [] else [Dependency(asset, true)]
    case _ => []
  }

  function ClipTemplate(numbering: Numbering, clip: seq<Entry>): seq<Dependency> {
    match Get(clip, "templateAssetPath")
    case Some(AssetPath(template)) => [Template(template, ExpandTemplate(numbering, clip, template))]
    case _ => []
  }

  function ClipDependencies(numbering: Numbering, clips: seq<Entry>): seq<Dependency> {
    if clips == [] then []
    else
      (match clips[0].value
       case Dictionary(clip) => ClipAssets(clip) + ClipManifest(clip) + ClipTemplate(numbering, clip)
       case _ => [])
      + ClipDependencies(numbering, clips[1..])
  }

  /** The dependencies a scan of the value finds; with `arcs`, also those that composition follows by itself:
      references, payloads and sublayers. */
  function Dependencies(numbering: Numbering, value: Value, field: string, arcs: bool): seq<Dependency>
    decreases value
  {
    match value
    case AssetPath(asset) => [Dependency(asset, false)]
    case AssetPathVec(assets) => AssetDependencies(assets, false)
    case ReferenceListOp(references) => ReferenceDependencies(numbering, references, arcs)
    case PayloadListOp(payloads) => PayloadDependencies(payloads, arcs)
    case Payload(payload) => ArcDependency(payload.asset, arcs)
    case Dictionary(entries) =>
      if field == "clips" then ClipDependencies(numbering, entries) else EntryDependencies(numbering, entries, arcs)
    case ValueVec(values) => ValueDependencies(numbering, values, arcs)
    case TimeSamples(samples) => SampleDependencies(numbering, samples, arcs)
    case StringVec(texts) => if arcs && field == "subLayers" then AssetDependencies(texts, true) else []
    case _ => []
  }

  function ReferenceDependencies(numbering: Numbering, references: seq<Reference>, arcs: bool): seq<Dependency>
    decreases references
  {
    if references == [] then []
    else
      ArcDependency(references[0].asset, arcs) + EntryDependencies(numbering, references[0].customData, arcs)
      + ReferenceDependencies(numbering, references[1..], arcs)
  }

  function PayloadDependencies(payloads: seq<PayloadArc>, arcs: bool): seq<Dependency> {
    if payloads == [] then [] else ArcDependency(payloads[0].asset, arcs) + PayloadDependencies(payloads[1..], arcs)
  }

  function EntryDependencies(numbering: Numbering, entries: seq<Entry>, arcs: bool): seq<Dependency>
    decreases entries
  {
    if entries == [] then []
    else Dependencies(numbering, entries[0].value, "", arcs) + EntryDependencies(numbering, entries[1..], arcs)
  }

  function ValueDependencies(numbering: Numbering, values: seq<Value>, arcs: bool): seq<Dependency>
    decreases values
  {
    if values == [] then []
    else Dependencies(numbering, values[0], "", arcs) + ValueDependencies(numbering, values[1..], arcs)
  }

  function SampleDependencies(numbering: Numbering, samples: seq<Sample>, arcs: bool): seq<Dependency>
    decreases samples
  {
    if samples == [] then []
    else
      var sample := samples[0];
      assert sample.value < sample;
      Dependencies(numbering, sample.value, "", arcs) + SampleDependencies(numbering, samples[1..], arcs)
  }

  // ---- Rewriting ----

  /** One layer being localized: where it was, where its copy goes, and where every file of the closure goes, all of
      them below one destination. `contents` says which paths the packages hold. */
  datatype Move = Move(
    find: Finder,
    contents: (Path, string) -> bool,
    original: Path,
    localized: Path,
    destination: Path,
    mapping: map<Path, Path>,
    numbering: Numbering)

  ghost predicate Single(files: Option<set<Path>>, file: Path) {
    files == Some({file})
  }

  /** An asset that stands for one file. */
  ghost function LayerAsset(m: Move, asset: Asset): Option<Asset> {
    var files := Resolve(m.find, m.original, asset);
    if file :| Single(files, file) then
      if file !in m.mapping then None else
        var relative := AuthoredRelative(m.localized, m.mapping[file]);
        if relative.None? then None else Some(relative.value.(inner := asset.inner))
    else None
  }

  /** All the files go to one directory. */
  predicate GoTo(mapping: map<Path, Path>, files: set<Path>, directory: Path) {
    forall file | file in files :: file in mapping && mapping[file] != [] && Parent(mapping[file]) == directory
  }

  /** A pattern keeps its file name and moves to the directory its files move to. */
  ghost function PatternAsset(m: Move, asset: Asset, files: set<Path>): Option<Asset> {
    if files == {} || asset.steps == [] || Last(asset.steps) == ".." then None
    else if directory :| GoTo(m.mapping, files, directory) then
      var relative := AuthoredRelative(m.localized, directory + [Last(asset.steps)]);
      if relative.None? then None else Some(relative.value.(inner := asset.inner))
    else None
  }

  ghost function RewriteAssetPath(m: Move, asset: Asset): Option<Asset> {
    var files := Resolve(m.find, m.original, asset);
    if files.None? then None
    else if |files.value| == 1 then LayerAsset(m, asset)
    else PatternAsset(m, asset, files.value)
  }

  ghost function RewriteAsset(m: Move, asset: Asset): Option<Asset> {
    if IsEmpty(asset) then Some(asset)
    else
      var rewritten := RewriteAssetPath(m, asset);
      if rewritten.Some? then rewritten else if IsOptional(asset) then Some(asset) else None
  }

  ghost function RewriteArc(m: Move, asset: Asset): Option<Asset> {
    if IsEmpty(asset) then Some(asset) else LayerAsset(m, asset)
  }

  ghost function RewriteAssets(m: Move, assets: seq<Asset>): Option<seq<Asset>> {
    if assets == [] then Some([])
    else
      var head, rest := RewriteAsset(m, assets[0]), RewriteAssets(m, assets[1..]);
      if head.None? || rest.None? then None else Some([head.value] + rest.value)
  }

  ghost function RewriteArcs(m: Move, assets: seq<Asset>): Option<seq<Asset>> {
    if assets == [] then Some([])
    else
      var head, rest := RewriteArc(m, assets[0]), RewriteArcs(m, assets[1..]);
      if head.None? || rest.None? then None else Some([head.value] + rest.value)
  }

  ghost function RewritePayload(m: Move, payload: PayloadArc): Option<PayloadArc> {
    var asset := RewriteArc(m, payload.asset);
    if asset.None? then None else Some(payload.(asset := asset.value))
  }

  ghost function RewritePayloads(m: Move, payloads: seq<PayloadArc>): Option<seq<PayloadArc>> {
    if payloads == [] then Some([])
    else
      var head, rest := RewritePayload(m, payloads[0]), RewritePayloads(m, payloads[1..]);
      if head.None? || rest.None? then None else Some([head.value] + rest.value)
  }

  ghost function RewriteSubLayers(m: Move, assets: seq<Asset>): Option<seq<Asset>> {
    if assets == [] then Some([])
    else
      var head, rest := LayerAsset(m, assets[0]), RewriteSubLayers(m, assets[1..]);
      if head.None? || rest.None? then None else Some([head.value] + rest.value)
  }

  ghost function RewriteClipAssets(m: Move, clip: seq<Entry>): Option<seq<Entry>> {
    match Get(clip, "assetPaths")
    case Some(AssetPathVec(assets)) =>
      var rewritten := RewriteArcs(m, assets);
      if rewritten.None? then None else Some(Put(clip, "assetPaths", AssetPathVec(rewritten.value)))
    case _ => Some(clip)
  }

  ghost function RewriteClipManifest(m: Move, clip: seq<Entry>): Option<seq<Entry>> {
    match Get(clip, "manifestAssetPath")
    case Some(AssetPath(asset)) =>
      var rewritten := RewriteArc(m, asset);
      if rewritten.None? then None else Some(Put(clip, "manifestAssetPath", AssetPath(rewritten.value)))
    case _ => Some(clip)
  }

  /** The one file of each asset, when each has one. */
  ghost predicate Originals(m: Move, assets: seq<Asset>, files: seq<Path>) {
    |files| == |assets| && forall i | 0 <= i < |assets| :: Single(Resolve(m.find, m.original, assets[i]), files[i])
  }

  function FileSet(files: seq<Path>): set<Path> {
    set file | file in files
  }

  ghost function RewriteTemplate(m: Move, clip: seq<Entry>, template: Asset): Option<Asset> {
    var expanded := ExpandTemplate(m.numbering, clip, template);
    if expanded.None? then None
    else if files :| Originals(m, expanded.value, files) then
      PatternAsset(m, template, FileSet(files))
    else None
  }

  ghost function RewriteClipTemplate(m: Move, clip: seq<Entry>): Option<seq<Entry>> {
    match Get(clip, "templateAssetPath")
    case Some(AssetPath(template)) =>
      if IsEmpty(template) then Some(clip)
      else
        var rewritten := RewriteTemplate(m, clip, template);
        if rewritten.None? then None else Some(Put(clip, "templateAssetPath", AssetPath(rewritten.value)))
    case _ => Some(clip)
  }

  ghost function RewriteClip(m: Move, clip: seq<Entry>): Option<seq<Entry>> {
    var first := RewriteClipAssets(m, clip);
    if first.None? then None
    else
      var second := RewriteClipManifest(m, first.value);
      if second.None? then None else RewriteClipTemplate(m, second.value)
  }

  ghost function RewriteClips(m: Move, clips: seq<Entry>): Option<seq<Entry>> {
    if clips == [] then Some([])
    else
      var head: Option<Value> :=
        match clips[0].value
        case Dictionary(clip) =>
          var rewritten := RewriteClip(m, clip);
          if rewritten.None? then None else Some(Dictionary(rewritten.value))
        case other => Some(other);
      var rest := RewriteClips(m, clips[1..]);
      if head.None? || rest.None? then None else Some([Entry(clips[0].key, head.value)] + rest.value)
  }

  ghost function RewriteValue(m: Move, value: Value, field: string): Option<Value>
    decreases value
  {
    match value
    case AssetPath(asset) =>
      var r := RewriteAsset(m, asset); if r.None? then None else Some(AssetPath(r.value))
    case AssetPathVec(assets) =>
      var r := RewriteAssets(m, assets); if r.None? then None else Some(AssetPathVec(r.value))
    case ReferenceListOp(references) =>
      var r := RewriteReferences(m, references); if r.None? then None else Some(ReferenceListOp(r.value))
    case PayloadListOp(payloads) =>
      var r := RewritePayloads(m, payloads); if r.None? then None else Some(PayloadListOp(r.value))
    case Payload(payload) =>
      var r := RewritePayload(m, payload); if r.None? then None else Some(Payload(r.value))
    case Dictionary(entries) =>
      var r := if field == "clips" then RewriteClips(m, entries) else RewriteEntries(m, entries);
      if r.None? then None else Some(Dictionary(r.value))
    case ValueVec(values) =>
      var r := RewriteValues(m, values); if r.None? then None else Some(ValueVec(r.value))
    case TimeSamples(samples) =>
      var r := RewriteSamples(m, samples); if r.None? then None else Some(TimeSamples(r.value))
    case StringVec(texts) =>
      if field != "subLayers" then Some(value)
      else var r := RewriteSubLayers(m, texts); if r.None? then None else Some(StringVec(r.value))
    case _ => Some(value)
  }

  ghost function RewriteReferences(m: Move, references: seq<Reference>): Option<seq<Reference>>
    decreases references
  {
    if references == [] then Some([])
    else
      var asset := RewriteArc(m, references[0].asset);
      var data := RewriteEntries(m, references[0].customData);
      var rest := RewriteReferences(m, references[1..]);
      if asset.None? || data.None? || rest.None? then None
      else Some([Reference(asset.value, references[0].plain, data.value)] + rest.value)
  }

  ghost function RewriteEntries(m: Move, entries: seq<Entry>): Option<seq<Entry>>
    decreases entries
  {
    if entries == [] then Some([])
    else
      var head, rest := RewriteValue(m, entries[0].value, ""), RewriteEntries(m, entries[1..]);
      if head.None? || rest.None? then None else Some([Entry(entries[0].key, head.value)] + rest.value)
  }

  ghost function RewriteValues(m: Move, values: seq<Value>): Option<seq<Value>>
    decreases values
  {
    if values == [] then Some([])
    else
      var head, rest := RewriteValue(m, values[0], ""), RewriteValues(m, values[1..]);
      if head.None? || rest.None? then None else Some([head.value] + rest.value)
  }

  ghost function RewriteSamples(m: Move, samples: seq<Sample>): Option<seq<Sample>>
    decreases samples
  {
    if samples == [] then Some([])
    else
      var sample := samples[0];
      assert sample.value < sample;
      var head, rest := RewriteValue(m, sample.value, ""), RewriteSamples(m, samples[1..]);
      if head.None? || rest.None? then None else Some([Sample(sample.time, head.value)] + rest.value)
  }
}
