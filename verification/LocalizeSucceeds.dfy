/** When localization succeeds: exactly the values are rewritten whose dependencies all have their place. */
module LocalizeSucceeds {
  import opened Wrappers
  import opened AssetPaths
  import opened ClosureValue
  import opened Localize
  import opened LocalizeTheorems
  import opened LocalizeValues

  /** The template's files, one for each time, move to one directory, and the template's own name there is not the
      layer's directory. */
  ghost predicate TemplateServed(m: Move, template: Asset, files: Option<seq<Asset>>) {
    && files.Some? && files.value != [] && template.steps != [] && Last(template.steps) != ".."
    && exists originals, directory :: ServedFrom(m, template, files.value, originals, directory)
  }

  ghost predicate ServedFrom(m: Move, template: Asset, files: seq<Asset>, originals: seq<Path>, directory: Path)
    requires template.steps != []
  {
    && Originals(m, files, originals) && GoTo(m.mapping, FileSet(originals), directory)
    && m.localized != [] && directory + [Last(template.steps)] != Parent(m.localized)
  }

  /** A layer is one file of the closure; any other asset is too, or a pattern that stays in one directory, or it is
      optional. An empty path asks for nothing. */
  ghost predicate Served(m: Move, d: Dependency) {
    match d
    case Dependency(asset, isLayer) => Placed(m, asset, isLayer) || IsEmpty(asset) || (!isLayer && IsOptional(asset))
    case Template(template, files) => IsEmpty(template) || TemplateServed(m, template, files)
  }

  ghost predicate AllServed(m: Move, ds: seq<Dependency>) {
    forall d | d in ds :: Served(m, d)
  }

  lemma ServedInParts(m: Move, first: seq<Dependency>, second: seq<Dependency>)
    ensures AllServed(m, first + second) <==> AllServed(m, first) && AllServed(m, second)
  {
    if AllServed(m, first + second) {
      forall d | d in first ensures Served(m, d) { assert d in first + second; }
      forall d | d in second ensures Served(m, d) { assert d in first + second; }
    }
  }

  lemma HeadIsServed(m: Move, assets: seq<Asset>, isLayer: bool)
    requires assets != []
    ensures AllServed(m, AssetDependencies(assets, isLayer))
            <==> Served(m, Dependency(assets[0], isLayer)) && AllServed(m, AssetDependencies(assets[1..], isLayer))
  {
    var ds := AssetDependencies(assets, isLayer);
    var head := Dependency(assets[0], isLayer);
    assert ds == [head] + AssetDependencies(assets[1..], isLayer);
    ServedInParts(m, [head], AssetDependencies(assets[1..], isLayer));
    assert AllServed(m, [head]) <==> Served(m, head) by { assert head in [head]; }
  }

  lemma {:induction false} AssetsSucceed(m: Move, disk: set<Path>, assets: seq<Asset>)
    requires Sound(m, disk)
    ensures RewriteAssets(m, assets).Some? <==> AllServed(m, AssetDependencies(assets, false))
  {
    if assets != [] {
      HeadIsServed(m, assets, false);
      AssetIsCarried(m, disk, assets[0]);
      AssetsSucceed(m, disk, assets[1..]);
    }
  }

  lemma {:induction false} ArcsSucceed(m: Move, disk: set<Path>, assets: seq<Asset>)
    requires Sound(m, disk)
    ensures RewriteArcs(m, assets).Some? <==> AllServed(m, AssetDependencies(assets, true))
  {
    if assets != [] {
      HeadIsServed(m, assets, true);
      ArcIsCarried(m, disk, assets[0]);
      ArcsSucceed(m, disk, assets[1..]);
    }
  }

  predicate NoneEmpty(assets: seq<Asset>) {
    forall asset | asset in assets :: !IsEmpty(asset)
  }

  lemma EmptyIsNotPlaced(m: Move, asset: Asset)
    requires IsEmpty(asset)
    ensures !Placed(m, asset, true)
  {
  }

  /** Unlike a clip list, a list of sublayers may hold no empty path. */
  lemma {:induction false} SubLayersSucceed(m: Move, disk: set<Path>, assets: seq<Asset>)
    requires Sound(m, disk)
    ensures RewriteSubLayers(m, assets).Some?
            <==> AllServed(m, AssetDependencies(assets, true)) && NoneEmpty(assets)
  {
    if assets != [] {
      assert NoneEmpty(assets) <==> !IsEmpty(assets[0]) && NoneEmpty(assets[1..]);
      HeadIsServed(m, assets, true);
      LayerAssetIsPlaced(m, disk, assets[0]);
      if IsEmpty(assets[0]) { EmptyIsNotPlaced(m, assets[0]); }
      SubLayersSucceed(m, disk, assets[1..]);
    }
  }

  lemma ArcSucceeds(m: Move, disk: set<Path>, asset: Asset)
    requires Sound(m, disk)
    ensures RewriteArc(m, asset).Some? <==> AllServed(m, ArcDependency(asset, true))
  {
    ArcIsCarried(m, disk, asset);
    if !IsEmpty(asset) { assert Dependency(asset, true) in ArcDependency(asset, true); }
  }

  lemma {:induction false} PayloadsSucceed(m: Move, disk: set<Path>, payloads: seq<PayloadArc>)
    requires Sound(m, disk)
    ensures RewritePayloads(m, payloads).Some? <==> AllServed(m, PayloadDependencies(payloads, true))
  {
    if payloads != [] {
      ServedInParts(m, ArcDependency(payloads[0].asset, true), PayloadDependencies(payloads[1..], true));
      ArcSucceeds(m, disk, payloads[0].asset);
      PayloadsSucceed(m, disk, payloads[1..]);
    }
  }

  // ---- Clip sets ----

  lemma SameOriginals(m: Move, assets: seq<Asset>, a: seq<Path>, b: seq<Path>)
    requires Originals(m, assets, a) && Originals(m, assets, b)
    ensures a == b
  {
    forall i | 0 <= i < |a| ensures a[i] == b[i] {
      var found := Resolve(m.find, m.original, assets[i]);
      assert Single(found, a[i]) && Single(found, b[i]);
      assert b[i] in found.value;
    }
  }

  lemma {:induction false} CommonIsAll(left: Path, right: Path)
    ensures Common(left, right) == |left| == |right| <==> left == right
  {
    if left != [] && right != [] && left[0] == right[0] {
      CommonIsAll(left[1..], right[1..]);
      assert left == [left[0]] + left[1..] && right == [right[0]] + right[1..];
    }
  }

  lemma RelativeIsEmptyOnlyAtItself(base: Path, target: Path)
    ensures RelativeSteps(base, target) == [] <==> base == target
  {
    CommonIsAll(base, target);
    var n := Common(base, target);
    assert |RelativeSteps(base, target)| == (|base| - n) + (|target| - n);
  }

  /** A template is rewritten exactly if its files exist, move to one directory, and leave it a name of its own. */
  lemma TemplateSucceedsExactlyWhenServed(m: Move, clip: seq<Entry>, template: Asset)
    requires m.localized != []
    ensures RewriteTemplate(m, clip, template).Some? <==>
            TemplateServed(m, template, ExpandTemplate(m.numbering, clip, template))
  {
    if RewriteTemplate(m, clip, template).Some? {
      TemplateIsServed(m, clip, template);
    }
    if TemplateServed(m, template, ExpandTemplate(m.numbering, clip, template)) {
      TemplateSucceeds(m, clip, template);
    }
  }

  lemma TemplateIsServed(m: Move, clip: seq<Entry>, template: Asset)
    requires m.localized != [] && RewriteTemplate(m, clip, template).Some?
    ensures TemplateServed(m, template, ExpandTemplate(m.numbering, clip, template))
  {
    var files, directory := TemplateRewriting(m, clip, template);
    RelativeIsEmptyOnlyAtItself(Parent(m.localized), directory + [Last(template.steps)]);
    assert ServedFrom(m, template, ExpandTemplate(m.numbering, clip, template).value, files, directory);
  }

  lemma TemplateSucceeds(m: Move, clip: seq<Entry>, template: Asset)
    requires TemplateServed(m, template, ExpandTemplate(m.numbering, clip, template))
    ensures RewriteTemplate(m, clip, template).Some?
  {
    var expanded := ExpandTemplate(m.numbering, clip, template).value;
    var originals, directory :| ServedFrom(m, template, expanded, originals, directory);
    forall other | Originals(m, expanded, other) ensures other == originals {
      SameOriginals(m, expanded, originals, other);
    }
    assert originals[0] in FileSet(originals);
    forall other | GoTo(m.mapping, FileSet(originals), other) ensures other == directory {
      DirectoryIsUnique(m, FileSet(originals), directory, other);
    }
    RelativeIsEmptyOnlyAtItself(Parent(m.localized), directory + [Last(template.steps)]);
  }

  lemma ClipAssetsSucceed(m: Move, disk: set<Path>, clip: seq<Entry>)
    requires Sound(m, disk)
    ensures RewriteClipAssets(m, clip).Some? <==> AllServed(m, ClipAssets(clip))
  {
    var got := Get(clip, "assetPaths");
    if got.Some? && got.value.AssetPathVec? { ArcsSucceed(m, disk, got.value.assets); }
  }

  lemma ClipManifestSucceeds(m: Move, disk: set<Path>, clip: seq<Entry>)
    requires Sound(m, disk)
    ensures RewriteClipManifest(m, clip).Some? <==> AllServed(m, ClipManifest(clip))
  {
    var got := Get(clip, "manifestAssetPath");
    if got.Some? && got.value.AssetPath? {
      ArcIsCarried(m, disk, got.value.asset);
      if !IsEmpty(got.value.asset) { assert Dependency(got.value.asset, true) in ClipManifest(clip); }
    }
  }

  lemma ClipTemplateSucceeds(m: Move, disk: set<Path>, clip: seq<Entry>)
    requires Sound(m, disk)
    ensures RewriteClipTemplate(m, clip).Some? <==> AllServed(m, ClipTemplate(m.numbering, clip))
  {
    LocalizedIsPlain(m, disk);
    var got := Get(clip, "templateAssetPath");
    if got.Some? && got.value.AssetPath? {
      var template := got.value.asset;
      assert Template(template, ExpandTemplate(m.numbering, clip, template)) in ClipTemplate(m.numbering, clip);
      if !IsEmpty(template) { TemplateSucceedsExactlyWhenServed(m, clip, template); }
    }
  }

  lemma OtherDependenciesStay(numbering: Numbering, before: seq<Entry>, after: seq<Entry>, changed: string)
    requires ClipKeysKept(before, after, changed)
    ensures changed == "assetPaths" ==> ClipManifest(after) == ClipManifest(before)
    ensures changed != "templateAssetPath" ==> ClipTemplate(numbering, after) == ClipTemplate(numbering, before)
  {
  }

  lemma ClipSucceeds(m: Move, disk: set<Path>, clip: seq<Entry>)
    requires Sound(m, disk)
    ensures RewriteClip(m, clip).Some? <==>
            AllServed(m, ClipAssets(clip)) && AllServed(m, ClipManifest(clip))
            && AllServed(m, ClipTemplate(m.numbering, clip))
  {
    ClipAssetsSucceed(m, disk, clip);
    if RewriteClipAssets(m, clip).Some? {
      var first := RewriteClipAssets(m, clip).value;
      ClipAssetsAreCarried(m, disk, clip);
      OtherDependenciesStay(m.numbering, clip, first, "assetPaths");
      ClipManifestSucceeds(m, disk, first);
      if RewriteClipManifest(m, first).Some? {
        var second := RewriteClipManifest(m, first).value;
        ClipManifestIsCarried(m, disk, first);
        OtherDependenciesStay(m.numbering, first, second, "manifestAssetPath");
        ClipTemplateSucceeds(m, disk, second);
      }
    }
  }

  lemma ClipEntrySucceeds(m: Move, disk: set<Path>, clip: seq<Entry>)
    requires Sound(m, disk)
    ensures RewriteClip(m, clip).Some? <==> AllServed(m, ClipEntryDependencies(m.numbering, Dictionary(clip)))
  {
    ClipSucceeds(m, disk, clip);
    ServedInParts(m, ClipAssets(clip) + ClipManifest(clip), ClipTemplate(m.numbering, clip));
    ServedInParts(m, ClipAssets(clip), ClipManifest(clip));
  }

  lemma {:induction false} ClipsSucceed(m: Move, disk: set<Path>, clips: seq<Entry>)
    requires Sound(m, disk)
    ensures RewriteClips(m, clips).Some? <==> AllServed(m, ClipDependencies(m.numbering, clips))
  {
    if clips != [] {
      var head := ClipEntryDependencies(m.numbering, clips[0].value);
      assert ClipDependencies(m.numbering, clips) == head + ClipDependencies(m.numbering, clips[1..]);
      ServedInParts(m, head, ClipDependencies(m.numbering, clips[1..]));
      ClipsSucceed(m, disk, clips[1..]);
      if clips[0].value.Dictionary? { ClipEntrySucceeds(m, disk, clips[0].value.entries); }
    }
  }

  // ---- Every value ----

  predicate SubLayersNamed(value: Value, field: string) {
    value.StringVec? && field == "subLayers" ==> NoneEmpty(value.texts)
  }

  /** A value is rewritten exactly if its dependencies, arcs included, all have their place, or are empty paths that
      are not sublayers. */
  lemma {:induction false} LocalizationSucceedsExactlyWhenServed(m: Move, disk: set<Path>, value: Value, field: string)
    requires Sound(m, disk)
    ensures RewriteValue(m, value, field).Some?
            <==> AllServed(m, Dependencies(m.numbering, value, field, true)) && SubLayersNamed(value, field)
    decreases value
  {
    match value
    case AssetPath(asset) =>
      assert Dependency(asset, false) in Dependencies(m.numbering, value, field, true);
      AssetIsCarried(m, disk, asset);
    case AssetPathVec(assets) => AssetsSucceed(m, disk, assets);
    case ReferenceListOp(references) => ReferencesSucceed(m, disk, references);
    case PayloadListOp(payloads) => PayloadsSucceed(m, disk, payloads);
    case Payload(payload) => ArcSucceeds(m, disk, payload.asset);
    case Dictionary(entries) =>
      if field == "clips" { ClipsSucceed(m, disk, entries); } else { EntriesSucceed(m, disk, entries); }
    case ValueVec(values) => ValuesSucceed(m, disk, values);
    case TimeSamples(samples) => SamplesSucceed(m, disk, samples);
    case StringVec(texts) => if field == "subLayers" { SubLayersSucceed(m, disk, texts); }
    case Double(_) =>
    case Other(_) =>
  }

  lemma {:induction false} EntriesSucceed(m: Move, disk: set<Path>, entries: seq<Entry>)
    requires Sound(m, disk)
    ensures RewriteEntries(m, entries).Some? <==> AllServed(m, EntryDependencies(m.numbering, entries, true))
    decreases entries
  {
    if entries != [] {
      var entry := entries[0];
      assert entry.value < entry;
      ServedInParts(m, Dependencies(m.numbering, entry.value, "", true),
                    EntryDependencies(m.numbering, entries[1..], true));
      LocalizationSucceedsExactlyWhenServed(m, disk, entry.value, "");
      EntriesSucceed(m, disk, entries[1..]);
    }
  }

  lemma {:induction false} ValuesSucceed(m: Move, disk: set<Path>, values: seq<Value>)
    requires Sound(m, disk)
    ensures RewriteValues(m, values).Some? <==> AllServed(m, ValueDependencies(m.numbering, values, true))
    decreases values
  {
    if values != [] {
      ServedInParts(m, Dependencies(m.numbering, values[0], "", true),
                    ValueDependencies(m.numbering, values[1..], true));
      LocalizationSucceedsExactlyWhenServed(m, disk, values[0], "");
      ValuesSucceed(m, disk, values[1..]);
    }
  }

  lemma {:induction false} SamplesSucceed(m: Move, disk: set<Path>, samples: seq<Sample>)
    requires Sound(m, disk)
    ensures RewriteSamples(m, samples).Some? <==> AllServed(m, SampleDependencies(m.numbering, samples, true))
    decreases samples
  {
    if samples != [] {
      var sample := samples[0];
      assert sample.value < sample;
      ServedInParts(m, Dependencies(m.numbering, sample.value, "", true),
                    SampleDependencies(m.numbering, samples[1..], true));
      LocalizationSucceedsExactlyWhenServed(m, disk, sample.value, "");
      SamplesSucceed(m, disk, samples[1..]);
    }
  }

  lemma {:induction false} ReferencesSucceed(m: Move, disk: set<Path>, references: seq<Reference>)
    requires Sound(m, disk)
    ensures RewriteReferences(m, references).Some?
            <==> AllServed(m, ReferenceDependencies(m.numbering, references, true))
    decreases references
  {
    if references != [] {
      var reference := references[0];
      var own := ArcDependency(reference.asset, true) + EntryDependencies(m.numbering, reference.customData, true);
      ServedInParts(m, own, ReferenceDependencies(m.numbering, references[1..], true));
      ServedInParts(m, ArcDependency(reference.asset, true),
                    EntryDependencies(m.numbering, reference.customData, true));
      ArcSucceeds(m, disk, reference.asset);
      EntriesSucceed(m, disk, reference.customData);
      ReferencesSucceed(m, disk, references[1..]);
    }
  }
}
