/** The persistent Scene-cache contracts. A digest stands for the value it was computed from: hashing is
    taken as injective and encoding as invertible. Transforms and bounds are opaque numbers. */
module SceneCache {
  import opened Wrappers
  import opened SceneOrder

  const DESCRIPTOR_SCHEMA_VERSION: nat := 3
  const INDEX_SCHEMA_VERSION: nat := 2
  const SPATIAL_SCHEMA_VERSION: nat := 1
  const GENERATION_MAX: nat := 0xFFFF_FFFF_FFFF_FFFF

  datatype SourceStamp =
    | GitRevision(revision: string)
    | ManagedGeneration(generation: nat)
    | ExternalFile(modifiedUnixNanos: nat, byteLen: nat)

  datatype CacheState = Empty | Building | Partial | Ready | FallbackRequired

  /** A blob id is the hexadecimal text of its digest, or text that does not parse as one. */
  datatype BlobId = Hex(digest: nat) | Malformed(text: string)

  datatype BlobRef = BlobRef(blob: BlobId, byteSize: nat)

  datatype EntryKind =
    | OwnedPrim(primPath: string)
    | ChildScene(childScene: nat, sceneMember: nat)
    | ChildModel(childModel: nat, modelMember: nat)

  datatype Entry = Entry(
    address: Address,
    parent: Option<nat>,
    transform: nat,
    bounds: Option<nat>,
    cacheable: bool,
    bimEnabled: bool,
    geometry: Option<BlobRef>,
    material: Option<BlobRef>,
    animation: Option<BlobRef>,
    semanticKey: Option<string>,
    kind: EntryKind,
    contentHash: Option<nat>)

  datatype SceneIndex = SceneIndex(schemaVersion: nat, scene: nat, generation: nat, entries: seq<Entry>)

  datatype SpatialEntry = SpatialEntry(address: Address, bounds: nat)

  datatype SpatialIndex = SpatialIndex(schemaVersion: nat, scene: nat, generation: nat, entries: seq<SpatialEntry>)

  /** The digest of a file's bytes; no file hashes to the all-zero digest. */
  datatype Digest = Zero | OfIndex(index: SceneIndex) | OfSpatial(spatial: SpatialIndex)

  datatype Descriptor = Descriptor(
    schemaVersion: nat,
    scene: nat,
    generation: nat,
    sourceStamp: SourceStamp,
    sourceContentHash: Option<nat>,
    configHash: nat,
    state: CacheState,
    primCount: nat,
    primCountReady: bool,
    cacheableCount: nat,
    estimatedCpuBytes: nat,
    estimatedGpuBytes: nat,
    indexDigest: Digest,
    spatialDigest: Option<Digest>)

  function Invalidated(scene: nat, generation: nat, configHash: nat): Descriptor {
    Descriptor(DESCRIPTOR_SCHEMA_VERSION, scene, generation, ManagedGeneration(generation), None, configHash,
               Building, 0, false, 0, 0, 0, Zero, None)
  }

  predicate ValidDescriptor(d: Descriptor) {
    d.schemaVersion == DESCRIPTOR_SCHEMA_VERSION && d.cacheableCount <= d.primCount
  }

  predicate StrictlyOrdered(entries: seq<Entry>) {
    forall i | 0 < i < |entries| :: AddressLess(entries[i - 1].address, entries[i].address)
  }

  predicate ValidEntry(index: SceneIndex, i: nat)
    requires i < |index.entries|
  {
    var entry := index.entries[i];
    && entry.address.scene == index.scene
    && (entry.parent.Some? ==> entry.parent.value < |index.entries| && entry.parent.value != i)
    && (entry.geometry.Some? ==>
          entry.cacheable && entry.geometry.value.blob.Hex?
          && entry.contentHash == Some(entry.geometry.value.blob.digest))
  }

  predicate ValidIndex(index: SceneIndex, scene: nat, generation: nat) {
    && index.schemaVersion == INDEX_SCHEMA_VERSION
    && index.scene == scene
    && index.generation == generation
    && StrictlyOrdered(index.entries)
    && forall i | 0 <= i < |index.entries| :: ValidEntry(index, i)
  }

  predicate SpatiallyOrdered(entries: seq<SpatialEntry>) {
    forall i | 0 < i < |entries| :: AddressLess(entries[i - 1].address, entries[i].address)
  }

  predicate ValidSpatial(spatial: SpatialIndex, scene: nat, generation: nat) {
    && spatial.schemaVersion == SPATIAL_SCHEMA_VERSION
    && spatial.scene == scene
    && spatial.generation == generation
    && SpatiallyOrdered(spatial.entries)
    && (forall i | 0 <= i < |spatial.entries| :: spatial.entries[i].address.scene == spatial.scene)
  }

  /** Neighbouring order is order at any distance, so the addresses of a valid index are distinct. */
  lemma {:induction false} OrderedAtAnyDistance(entries: seq<Entry>, i: nat, j: nat)
    requires StrictlyOrdered(entries) && i < j < |entries|
    ensures AddressLess(entries[i].address, entries[j].address)
    ensures entries[i].address != entries[j].address
    decreases j
  {
    if i + 1 < j {
      OrderedAtAnyDistance(entries, i, j - 1);
      AddressLessIsTransitive(entries[i].address, entries[j - 1].address, entries[j].address);
    }
    AddressLessIsIrreflexive(entries[i].address);
  }
}
