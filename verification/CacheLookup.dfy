/** The immutable lookup of published Scene cache rows: seven maps, updated row by row, and what they have to
    say about the plain lists of rows they were built from. */
module CacheLookup {
  import opened Wrappers
  import opened SceneOrder
  import opened SceneCache

  datatype CacheObject =
    | PrimObject(primPath: string, geometry: Option<BlobRef>, material: Option<BlobRef>,
                 animation: Option<BlobRef>, semanticKey: Option<string>, contentHash: Option<nat>)
    | SceneObject(scene: nat, sceneMember: nat)
    | ModelObject(model: nat, modelMember: nat)

  datatype Row = Row(address: Address, target: CacheObject)

  datatype HashKey = HashKey(scene: nat, contentHash: nat)

  datatype MemberKey = MemberKey(scene: nat, member: nat)

  datatype Lookup = Lookup(
    byAddress: map<Address, CacheObject>,
    byHash: map<HashKey, seq<Address>>,
    generations: map<nat, nat>,
    sceneAddresses: map<nat, seq<Address>>,
    sceneHashes: map<nat, seq<HashKey>>,
    childMembers: map<MemberKey, nat>,
    memberKeys: map<nat, seq<MemberKey>>)

  const EMPTY: Lookup := Lookup(map[], map[], map[], map[], map[], map[], map[])

  /** A lookup after an update, and whether the update succeeded. */
  datatype Outcome = Outcome(lookup: Lookup, ok: bool)

  function ObjectOf(entry: Entry): CacheObject {
    match entry.kind
    case OwnedPrim(path) =>
      PrimObject(path, entry.geometry, entry.material, entry.animation, entry.semanticKey, entry.contentHash)
    case ChildScene(scene, member) => SceneObject(scene, member)
    case ChildModel(model, member) => ModelObject(model, member)
  }

  function IndexRows(index: SceneIndex): seq<Row> {
    seq(|index.entries|, i requires 0 <= i < |index.entries| =>
      Row(index.entries[i].address, ObjectOf(index.entries[i])))
  }

  function HashOf(target: CacheObject): Option<nat> {
    if target.PrimObject? then target.contentHash else None
  }

  // ---- The updates, on values ----

  function ListAt<K, V>(m: map<K, seq<V>>, key: K): seq<V> {
    if key in m then m[key] else []
  }

  function Pushed<K, V>(m: map<K, seq<V>>, key: K, value: V): map<K, seq<V>> {
    m[key := ListAt(m, key) + [value]]
  }

  function PlusHash(m: map<HashKey, seq<Address>>, row: Row): map<HashKey, seq<Address>> {
    match HashOf(row.target)
    case None => m
    case Some(hash) => Pushed(m, HashKey(row.address.scene, hash), row.address)
  }

  function PlusHashKey(m: map<nat, seq<HashKey>>, row: Row): map<nat, seq<HashKey>> {
    match HashOf(row.target)
    case None => m
    case Some(hash) => Pushed(m, row.address.scene, HashKey(row.address.scene, hash))
  }

  function PlusChild(m: map<MemberKey, nat>, row: Row): map<MemberKey, nat> {
    if row.target.SceneObject? then m[MemberKey(row.address.scene, row.target.sceneMember) := row.target.scene] else m
  }

  function PlusMemberKey(m: map<nat, seq<MemberKey>>, row: Row): map<nat, seq<MemberKey>> {
    if row.target.SceneObject? then Pushed(m, row.address.scene, MemberKey(row.address.scene, row.target.sceneMember))
    else m
  }

  /** A duplicate address is refused only after what it held has been overwritten. */
  function InsertRow(l: Lookup, row: Row): Outcome {
    if row.address in l.byAddress then Outcome(l.(byAddress := l.byAddress[row.address := row.target]), false)
    else Outcome(Lookup(
      l.byAddress[row.address := row.target],
      PlusHash(l.byHash, row),
      l.generations,
      Pushed(l.sceneAddresses, row.address.scene, row.address),
      PlusHashKey(l.sceneHashes, row),
      PlusChild(l.childMembers, row),
      PlusMemberKey(l.memberKeys, row)), true)
  }

  function InsertRows(l: Lookup, rows: seq<Row>): Outcome {
    if rows == [] then Outcome(l, true) else
      var before := InsertRows(l, rows[..|rows| - 1]);
      if before.ok then InsertRow(before.lookup, rows[|rows| - 1]) else before
  }

  function InsertSceneIndex(l: Lookup, index: SceneIndex): Outcome {
    if index.scene in l.generations then Outcome(l, false) else
      InsertRows(l.(generations := l.generations[index.scene := index.generation]), IndexRows(index))
  }

  function Kept(addresses: seq<Address>, scene: nat): seq<Address> {
    if addresses == [] then [] else
      var before := Kept(addresses[..|addresses| - 1], scene);
      var last := addresses[|addresses| - 1];
      if last.scene != scene then before + [last] else before
  }

  predicate Emptied(l: Lookup, key: HashKey, scene: nat) {
    key in l.byHash && key in ListAt(l.sceneHashes, scene) && Kept(l.byHash[key], scene) == []
  }

  function HashesWithout(l: Lookup, scene: nat): map<HashKey, seq<Address>> {
    map key | key in l.byHash && !Emptied(l, key, scene) ::
      if key in ListAt(l.sceneHashes, scene) then Kept(l.byHash[key], scene) else l.byHash[key]
  }

  function RemoveScene(l: Lookup, scene: nat): Lookup {
    Lookup(
      map a | a in l.byAddress && a !in ListAt(l.sceneAddresses, scene) :: l.byAddress[a],
      HashesWithout(l, scene),
      l.generations - {scene},
      l.sceneAddresses - {scene},
      l.sceneHashes - {scene},
      map k | k in l.childMembers && k !in ListAt(l.memberKeys, scene) :: l.childMembers[k],
      l.memberKeys - {scene})
  }

  predicate Validates(index: SceneIndex) {
    ValidIndex(index, index.scene, index.generation)
  }

  function ReplaceSceneIndex(l: Lookup, index: SceneIndex): Outcome {
    if Validates(index) then InsertSceneIndex(RemoveScene(l, index.scene), index) else Outcome(l, false)
  }

  predicate HasScene(indexes: seq<SceneIndex>, scene: nat) {
    exists i :: 0 <= i < |indexes| && indexes[i].scene == scene
  }

  function FromSceneIndexes(indexes: seq<SceneIndex>): Option<Lookup> {
    if indexes == [] then Some(EMPTY) else
      var rest, last := indexes[..|indexes| - 1], indexes[|indexes| - 1];
      match FromSceneIndexes(rest)
      case None => None
      case Some(l) =>
        if HasScene(rest, last.scene) || !Validates(last) then None else
          var after := InsertSceneIndex(l, last);
          if after.ok then Some(after.lookup) else None
  }

  datatype SceneGeneration = SceneGeneration(scene: nat, generation: nat)

  function InsertGenerations(generations: seq<SceneGeneration>): Option<map<nat, nat>> {
    if generations == [] then Some(map[]) else
      var last := generations[|generations| - 1];
      match InsertGenerations(generations[..|generations| - 1])
      case None => None
      case Some(m) => if last.scene in m then None else Some(m[last.scene := last.generation])
  }

  function FromPersistentRows(generations: seq<SceneGeneration>, rows: seq<Row>): Option<Lookup> {
    match InsertGenerations(generations)
    case None => None
    case Some(m) =>
      var after := InsertRows(EMPTY.(generations := m), rows);
      if after.ok then Some(after.lookup) else None
  }

  /** Rows in address order, one for each address the lookup knows. */
  ghost predicate PersistentRows(l: Lookup, rows: seq<Row>) {
    && (forall i, j | 0 <= i < j < |rows| :: AddressLess(rows[i].address, rows[j].address))
    && (forall i | 0 <= i < |rows| ::
          rows[i].address in l.byAddress && l.byAddress[rows[i].address] == rows[i].target)
    && (forall a | a in l.byAddress :: exists i :: 0 <= i < |rows| && rows[i].address == a)
  }

  ghost predicate PersistentGenerations(l: Lookup, generations: seq<SceneGeneration>) {
    && (forall i, j | 0 <= i < j < |generations| :: generations[i].scene < generations[j].scene)
    && (forall i | 0 <= i < |generations| ::
          generations[i].scene in l.generations && l.generations[generations[i].scene] == generations[i].generation)
    && (forall s | s in l.generations :: exists i :: 0 <= i < |generations| && generations[i].scene == s)
  }

  // ---- The plain lists of rows ----

  function ObjectAt(rows: seq<Row>, address: Address): Option<CacheObject> {
    if rows == [] then None else
      var last := rows[|rows| - 1];
      if last.address == address then Some(last.target) else ObjectAt(rows[..|rows| - 1], address)
  }

  function AddressesWith(rows: seq<Row>, hash: nat): seq<Address> {
    if rows == [] then [] else
      var before, last := AddressesWith(rows[..|rows| - 1], hash), rows[|rows| - 1];
      if HashOf(last.target) == Some(hash) then before + [last.address] else before
  }

  function AddressList(rows: seq<Row>): seq<Address> {
    if rows == [] then [] else AddressList(rows[..|rows| - 1]) + [rows[|rows| - 1].address]
  }

  function HashKeys(rows: seq<Row>, scene: nat): seq<HashKey> {
    if rows == [] then [] else
      var before, last := HashKeys(rows[..|rows| - 1], scene), rows[|rows| - 1];
      match HashOf(last.target) case None => before case Some(hash) => before + [HashKey(scene, hash)]
  }

  function ChildAt(rows: seq<Row>, member: nat): Option<nat> {
    if rows == [] then None else
      var last := rows[|rows| - 1];
      if last.target.SceneObject? && last.target.sceneMember == member then Some(last.target.scene)
      else ChildAt(rows[..|rows| - 1], member)
  }

  function MemberKeys(rows: seq<Row>, scene: nat): seq<MemberKey> {
    if rows == [] then [] else
      var before, last := MemberKeys(rows[..|rows| - 1], scene), rows[|rows| - 1];
      if last.target.SceneObject? then before + [MemberKey(scene, last.target.sceneMember)] else before
  }

  type Table = map<nat, seq<Row>>

  /** Each list of a lookup map says exactly what the plain list says, and no empty list is stored. */
  ghost predicate ListAgrees<K(!new), V>(m: map<K, seq<V>>, key: K, expected: seq<V>) {
    ListAt(m, key) == expected && (key in m ==> m[key] != [])
  }

  ghost predicate PointAgrees<K(!new), V>(m: map<K, V>, key: K, expected: Option<V>) {
    (key in m <==> expected.Some?) && (key in m ==> m[key] == expected.value)
  }

  ghost predicate RowsAreHome(t: Table) {
    forall s, i | s in t && 0 <= i < |t[s]| :: t[s][i].address.scene == s
  }

  ghost predicate ObjectAgrees(m: map<Address, CacheObject>, t: Table, a: Address) {
    PointAgrees(m, a, ObjectAt(ListAt(t, a.scene), a))
  }

  ghost predicate HashAgrees(m: map<HashKey, seq<Address>>, t: Table, k: HashKey) {
    ListAgrees(m, k, AddressesWith(ListAt(t, k.scene), k.contentHash))
  }

  ghost predicate AddressListAgrees(m: map<nat, seq<Address>>, t: Table, s: nat) {
    ListAgrees(m, s, AddressList(ListAt(t, s)))
  }

  ghost predicate HashKeysAgree(m: map<nat, seq<HashKey>>, t: Table, s: nat) {
    ListAgrees(m, s, HashKeys(ListAt(t, s), s))
  }

  ghost predicate ChildAgrees(m: map<MemberKey, nat>, t: Table, k: MemberKey) {
    PointAgrees(m, k, ChildAt(ListAt(t, k.scene), k.member))
  }

  ghost predicate MemberKeysAgree(m: map<nat, seq<MemberKey>>, t: Table, s: nat) {
    ListAgrees(m, s, MemberKeys(ListAt(t, s), s))
  }

  /** The lookup says of every key what the plain lists of rows say. */
  ghost predicate Agrees(l: Lookup, t: Table) {
    && RowsAreHome(t)
    && (forall a :: ObjectAgrees(l.byAddress, t, a))
    && (forall k :: HashAgrees(l.byHash, t, k))
    && (forall s :: AddressListAgrees(l.sceneAddresses, t, s))
    && (forall s :: HashKeysAgree(l.sceneHashes, t, s))
    && (forall k :: ChildAgrees(l.childMembers, t, k))
    && (forall s :: MemberKeysAgree(l.memberKeys, t, s))
  }

  ghost predicate SameListAt<K(!new), V>(m1: map<K, seq<V>>, m2: map<K, seq<V>>, key: K) {
    ListAt(m1, key) == ListAt(m2, key) && (key in m1 ==> m1[key] != []) && (key in m2 ==> m2[key] != [])
  }

  lemma SameLists<K(!new), V(!new)>(m1: map<K, seq<V>>, m2: map<K, seq<V>>)
    requires forall key :: SameListAt(m1, m2, key)
    ensures m1 == m2
  {
    forall key ensures (key in m1 <==> key in m2) && (key in m1 ==> m1[key] == m2[key]) {
      assert SameListAt(m1, m2, key);
    }
  }

  lemma SamePoints<K(!new), V(!new)>(m1: map<K, V>, m2: map<K, V>)
    requires forall k :: (k in m1 <==> k in m2) && (k in m1 ==> m1[k] == m2[k])
    ensures m1 == m2
  {
  }

  /** The plain lists decide the lookup: there is one that agrees with them, generations aside. */
  lemma AgreementDecides(l1: Lookup, t1: Table, l2: Lookup, t2: Table)
    requires Agrees(l1, t1) && Agrees(l2, t2) && l1.generations == l2.generations
    requires forall s: nat :: ListAt(t1, s) == ListAt(t2, s)
    ensures l1 == l2
  {
    forall a ensures (a in l1.byAddress <==> a in l2.byAddress)
                     && (a in l1.byAddress ==> l1.byAddress[a] == l2.byAddress[a]) {
      assert ObjectAgrees(l1.byAddress, t1, a) && ObjectAgrees(l2.byAddress, t2, a);
    }
    forall k ensures (k in l1.childMembers <==> k in l2.childMembers)
                     && (k in l1.childMembers ==> l1.childMembers[k] == l2.childMembers[k]) {
      assert ChildAgrees(l1.childMembers, t1, k) && ChildAgrees(l2.childMembers, t2, k);
    }
    SamePoints(l1.byAddress, l2.byAddress);
    SamePoints(l1.childMembers, l2.childMembers);
    SameListFields(l1, t1, l2, t2);
  }

  lemma SameListFields(l1: Lookup, t1: Table, l2: Lookup, t2: Table)
    requires Agrees(l1, t1) && Agrees(l2, t2) && forall s: nat :: ListAt(t1, s) == ListAt(t2, s)
    ensures l1.byHash == l2.byHash && l1.sceneAddresses == l2.sceneAddresses
    ensures l1.sceneHashes == l2.sceneHashes && l1.memberKeys == l2.memberKeys
  {
    forall k ensures SameListAt(l1.byHash, l2.byHash, k) {
      assert HashAgrees(l1.byHash, t1, k) && HashAgrees(l2.byHash, t2, k);
    }
    SameLists(l1.byHash, l2.byHash);
    forall s ensures SameListAt(l1.sceneAddresses, l2.sceneAddresses, s) {
      assert AddressListAgrees(l1.sceneAddresses, t1, s) && AddressListAgrees(l2.sceneAddresses, t2, s);
    }
    SameLists(l1.sceneAddresses, l2.sceneAddresses);
    forall s ensures SameListAt(l1.sceneHashes, l2.sceneHashes, s) {
      assert HashKeysAgree(l1.sceneHashes, t1, s) && HashKeysAgree(l2.sceneHashes, t2, s);
    }
    SameLists(l1.sceneHashes, l2.sceneHashes);
    forall s ensures SameListAt(l1.memberKeys, l2.memberKeys, s) {
      assert MemberKeysAgree(l1.memberKeys, t1, s) && MemberKeysAgree(l2.memberKeys, t2, s);
    }
    SameLists(l1.memberKeys, l2.memberKeys);
  }
}
