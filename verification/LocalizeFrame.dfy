/** What localizing a field leaves alone: everything that is no asset. The relation between a value and its rewritten
    form is written down from the shape of values, without the rewriting. */
module LocalizeFrame {
  import opened Wrappers
  import opened AssetPaths
  import opened ClosureValue

  // ---- Values that differ only in where their assets lie ----

  /** The path inside a package stays. */
  predicate SameInner(asset: Asset, after: Asset) {
    after.inner == asset.inner
  }

  predicate SameInners(assets: seq<Asset>, after: seq<Asset>) {
    |after| == |assets| && forall i | 0 <= i < |assets| :: SameInner(assets[i], after[i])
  }

  predicate SamePayload(payload: PayloadArc, after: PayloadArc) {
    SameInner(payload.asset, after.asset) && after.plain == payload.plain
  }

  predicate SamePayloads(payloads: seq<PayloadArc>, after: seq<PayloadArc>) {
    |after| == |payloads| && forall i | 0 <= i < |payloads| :: SamePayload(payloads[i], after[i])
  }

  /** In a clip set only the three asset keys hold anything that may change, and they only if they hold assets. */
  predicate SameInClip(key: string, value: Value, after: Value) {
    if key == "assetPaths" && value.AssetPathVec? then after.AssetPathVec? && SameInners(value.assets, after.assets)
    else if (key == "manifestAssetPath" || key == "templateAssetPath") && value.AssetPath? then
      after.AssetPath? && SameInner(value.asset, after.asset)
    else after == value
  }

  predicate SameClip(clip: seq<Entry>, after: seq<Entry>) {
    && |after| == |clip|
    && forall i | 0 <= i < |clip| ::
         after[i].key == clip[i].key && SameInClip(clip[i].key, clip[i].value, after[i].value)
  }

  predicate SameClips(clips: seq<Entry>, after: seq<Entry>) {
    && |after| == |clips|
    && forall i | 0 <= i < |clips| ::
         && after[i].key == clips[i].key
         && match clips[i].value
            case Dictionary(clip) => after[i].value.Dictionary? && SameClip(clip, after[i].value.entries)
            case other => after[i].value == other
  }

  /** The same constructor with the same numbers, texts, keys, times and order all the way down; only assets may lie
      elsewhere. */
  predicate SameBut(value: Value, after: Value, field: string)
    decreases value
  {
    match value
    case AssetPath(asset) => after.AssetPath? && SameInner(asset, after.asset)
    case AssetPathVec(assets) => after.AssetPathVec? && SameInners(assets, after.assets)
    case ReferenceListOp(references) => after.ReferenceListOp? && SameReferences(references, after.references)
    case PayloadListOp(payloads) => after.PayloadListOp? && SamePayloads(payloads, after.payloads)
    case Payload(payload) => after.Payload? && SamePayload(payload, after.payload)
    case Dictionary(entries) =>
      && after.Dictionary?
      && if field == "clips" then SameClips(entries, after.entries) else SameEntries(entries, after.entries)
    case ValueVec(values) => after.ValueVec? && SameValues(values, after.values)
    case TimeSamples(samples) => after.TimeSamples? && SameSamples(samples, after.samples)
    case StringVec(texts) =>
      if field == "subLayers" then after.StringVec? && SameInners(texts, after.texts) else after == value
    case Double(number) => after == Double(number)
    case Other(content) => after == Other(content)
  }

  predicate SameReferences(references: seq<Reference>, after: seq<Reference>)
    decreases references
  {
    && |after| == |references|
    && forall i | 0 <= i < |references| ::
         && SameInner(references[i].asset, after[i].asset) && after[i].plain == references[i].plain
         && SameEntries(references[i].customData, after[i].customData)
  }

  predicate SameEntries(entries: seq<Entry>, after: seq<Entry>)
    decreases entries
  {
    && |after| == |entries|
    && forall i | 0 <= i < |entries| ::
         after[i].key == entries[i].key && SameBut(entries[i].value, after[i].value, "")
  }

  predicate SameValues(values: seq<Value>, after: seq<Value>)
    decreases values
  {
    |after| == |values| && forall i | 0 <= i < |values| :: SameBut(values[i], after[i], "")
  }

  predicate SameSamples(samples: seq<Sample>, after: seq<Sample>)
    decreases samples
  {
    && |after| == |samples|
    && forall i | 0 <= i < |samples| ::
         assert samples[i].value < samples[i];
         after[i].time == samples[i].time && SameBut(samples[i].value, after[i].value, "")
  }

  // ---- Rewriting keeps the rest ----

  lemma LayerAssetKeepsInner(m: Move, asset: Asset)
    ensures LayerAsset(m, asset).Some? ==> SameInner(asset, LayerAsset(m, asset).value)
  {
  }

  lemma PatternAssetKeepsInner(m: Move, asset: Asset, files: set<Path>)
    ensures PatternAsset(m, asset, files).Some? ==> SameInner(asset, PatternAsset(m, asset, files).value)
  {
  }

  lemma AssetKeepsInner(m: Move, asset: Asset)
    ensures RewriteAsset(m, asset).Some? ==> SameInner(asset, RewriteAsset(m, asset).value)
  {
    LayerAssetKeepsInner(m, asset);
    if Resolve(m.find, m.original, asset).Some? {
      PatternAssetKeepsInner(m, asset, Resolve(m.find, m.original, asset).value);
    }
  }

  lemma ArcKeepsInner(m: Move, asset: Asset)
    ensures RewriteArc(m, asset).Some? ==> SameInner(asset, RewriteArc(m, asset).value)
  {
    LayerAssetKeepsInner(m, asset);
  }

  lemma {:induction false} AssetsKeepInners(m: Move, assets: seq<Asset>)
    ensures RewriteAssets(m, assets).Some? ==> SameInners(assets, RewriteAssets(m, assets).value)
  {
    if assets != [] {
      AssetKeepsInner(m, assets[0]);
      AssetsKeepInners(m, assets[1..]);
    }
  }

  lemma {:induction false} ArcsKeepInners(m: Move, assets: seq<Asset>)
    ensures RewriteArcs(m, assets).Some? ==> SameInners(assets, RewriteArcs(m, assets).value)
  {
    if assets != [] {
      ArcKeepsInner(m, assets[0]);
      ArcsKeepInners(m, assets[1..]);
    }
  }

  lemma {:induction false} SubLayersKeepInners(m: Move, assets: seq<Asset>)
    ensures RewriteSubLayers(m, assets).Some? ==> SameInners(assets, RewriteSubLayers(m, assets).value)
  {
    if assets != [] {
      LayerAssetKeepsInner(m, assets[0]);
      SubLayersKeepInners(m, assets[1..]);
    }
  }

  lemma {:induction false} PayloadsKeepTheRest(m: Move, payloads: seq<PayloadArc>)
    ensures RewritePayloads(m, payloads).Some? ==> SamePayloads(payloads, RewritePayloads(m, payloads).value)
  {
    if payloads != [] {
      ArcKeepsInner(m, payloads[0].asset);
      PayloadsKeepTheRest(m, payloads[1..]);
    }
  }

  // ---- Clip sets ----

  lemma {:induction false} PutKeepsTheRest(clip: seq<Entry>, key: string, value: Value)
    requires Get(clip, key).Some? ==> SameInClip(key, Get(clip, key).value, value)
    ensures SameClip(clip, Put(clip, key, value))
  {
    if clip != [] {
      if clip[0].key == key {
        SameClipIsReflexive(clip[1..]);
      } else {
        PutKeepsTheRest(clip[1..], key, value);
      }
      assert Put(clip, key, value)[1..]
             == if clip[0].key == key then clip[1..] else Put(clip[1..], key, value);
      HeadAndRest(clip, Put(clip, key, value));
    }
  }

  lemma HeadAndRest(clip: seq<Entry>, after: seq<Entry>)
    requires clip != [] && after != [] && after[0].key == clip[0].key
    requires SameInClip(clip[0].key, clip[0].value, after[0].value) && SameClip(clip[1..], after[1..])
    ensures SameClip(clip, after)
  {
    forall i | 0 < i < |clip|
      ensures after[i].key == clip[i].key && SameInClip(clip[i].key, clip[i].value, after[i].value)
    {
      assert after[i] == after[1..][i - 1] && clip[i] == clip[1..][i - 1];
    }
  }

  lemma SameClipIsReflexive(clip: seq<Entry>)
    ensures SameClip(clip, clip)
  {
  }

  lemma SameClipIsTransitive(first: seq<Entry>, second: seq<Entry>, third: seq<Entry>)
    requires SameClip(first, second) && SameClip(second, third)
    ensures SameClip(first, third)
  {
    forall i | 0 <= i < |first| ensures SameInClip(first[i].key, first[i].value, third[i].value) {
      assert SameInClip(first[i].key, first[i].value, second[i].value);
      assert SameInClip(second[i].key, second[i].value, third[i].value);
    }
  }

  lemma ClipAssetsKeepTheRest(m: Move, clip: seq<Entry>)
    ensures RewriteClipAssets(m, clip).Some? ==> SameClip(clip, RewriteClipAssets(m, clip).value)
  {
    SameClipIsReflexive(clip);
    match Get(clip, "assetPaths")
    case Some(AssetPathVec(assets)) =>
      ArcsKeepInners(m, assets);
      if RewriteArcs(m, assets).Some? {
        PutKeepsTheRest(clip, "assetPaths", AssetPathVec(RewriteArcs(m, assets).value));
      }
    case _ =>
  }

  lemma ClipManifestKeepsTheRest(m: Move, clip: seq<Entry>)
    ensures RewriteClipManifest(m, clip).Some? ==> SameClip(clip, RewriteClipManifest(m, clip).value)
  {
    SameClipIsReflexive(clip);
    match Get(clip, "manifestAssetPath")
    case Some(AssetPath(asset)) =>
      ArcKeepsInner(m, asset);
      if RewriteArc(m, asset).Some? {
        PutKeepsTheRest(clip, "manifestAssetPath", AssetPath(RewriteArc(m, asset).value));
      }
    case _ =>
  }

  lemma TemplateKeepsInner(m: Move, clip: seq<Entry>, template: Asset)
    ensures RewriteTemplate(m, clip, template).Some? ==> SameInner(template, RewriteTemplate(m, clip, template).value)
  {
  }

  lemma ClipTemplateKeepsTheRest(m: Move, clip: seq<Entry>)
    ensures RewriteClipTemplate(m, clip).Some? ==> SameClip(clip, RewriteClipTemplate(m, clip).value)
  {
    SameClipIsReflexive(clip);
    match Get(clip, "templateAssetPath")
    case Some(AssetPath(template)) =>
      TemplateKeepsInner(m, clip, template);
      if RewriteTemplate(m, clip, template).Some? {
        PutKeepsTheRest(clip, "templateAssetPath", AssetPath(RewriteTemplate(m, clip, template).value));
      }
    case _ =>
  }

  lemma ClipKeepsTheRest(m: Move, clip: seq<Entry>)
    ensures RewriteClip(m, clip).Some? ==> SameClip(clip, RewriteClip(m, clip).value)
  {
    if RewriteClip(m, clip).Some? {
      var first := RewriteClipAssets(m, clip).value;
      var second := RewriteClipManifest(m, first).value;
      ClipAssetsKeepTheRest(m, clip);
      ClipManifestKeepsTheRest(m, first);
      ClipTemplateKeepsTheRest(m, second);
      SameClipIsTransitive(clip, first, second);
      SameClipIsTransitive(clip, second, RewriteClip(m, clip).value);
    }
  }

  lemma {:induction false} ClipsKeepTheRest(m: Move, clips: seq<Entry>)
    ensures RewriteClips(m, clips).Some? ==> SameClips(clips, RewriteClips(m, clips).value)
  {
    if clips != [] && RewriteClips(m, clips).Some? {
      if clips[0].value.Dictionary? { ClipKeepsTheRest(m, clips[0].value.entries); }
      ClipsKeepTheRest(m, clips[1..]);
    }
  }

  // ---- Every value ----

  /** Localizing a field changes nothing but where its assets lie. */
  lemma {:induction false} LocalizationKeepsTheRest(m: Move, value: Value, field: string)
    ensures RewriteValue(m, value, field).Some? ==> SameBut(value, RewriteValue(m, value, field).value, field)
    decreases value
  {
    match value
    case AssetPath(asset) => AssetKeepsInner(m, asset);
    case AssetPathVec(assets) => AssetsKeepInners(m, assets);
    case ReferenceListOp(references) => ReferencesKeepTheRest(m, references);
    case PayloadListOp(payloads) => PayloadsKeepTheRest(m, payloads);
    case Payload(payload) => ArcKeepsInner(m, payload.asset);
    case Dictionary(entries) =>
      if field == "clips" { ClipsKeepTheRest(m, entries); } else { EntriesKeepTheRest(m, entries); }
    case ValueVec(values) => ValuesKeepTheRest(m, values);
    case TimeSamples(samples) => SamplesKeepTheRest(m, samples);
    case StringVec(texts) => SubLayersKeepInners(m, texts);
    case _ =>
  }

  lemma {:induction false} ReferencesKeepTheRest(m: Move, references: seq<Reference>)
    ensures RewriteReferences(m, references).Some?
            ==> SameReferences(references, RewriteReferences(m, references).value)
    decreases references
  {
    if references != [] {
      ArcKeepsInner(m, references[0].asset);
      EntriesKeepTheRest(m, references[0].customData);
      ReferencesKeepTheRest(m, references[1..]);
    }
  }

  lemma {:induction false} EntriesKeepTheRest(m: Move, entries: seq<Entry>)
    ensures RewriteEntries(m, entries).Some? ==> SameEntries(entries, RewriteEntries(m, entries).value)
    decreases entries
  {
    if entries != [] {
      LocalizationKeepsTheRest(m, entries[0].value, "");
      EntriesKeepTheRest(m, entries[1..]);
    }
  }

  lemma {:induction false} ValuesKeepTheRest(m: Move, values: seq<Value>)
    ensures RewriteValues(m, values).Some? ==> SameValues(values, RewriteValues(m, values).value)
    decreases values
  {
    if values != [] {
      LocalizationKeepsTheRest(m, values[0], "");
      ValuesKeepTheRest(m, values[1..]);
    }
  }

  lemma {:induction false} SamplesKeepTheRest(m: Move, samples: seq<Sample>)
    ensures RewriteSamples(m, samples).Some? ==> SameSamples(samples, RewriteSamples(m, samples).value)
    decreases samples
  {
    if samples != [] {
      assert samples[0].value < samples[0];
      LocalizationKeepsTheRest(m, samples[0].value, "");
      SamplesKeepTheRest(m, samples[1..]);
    }
  }
}
