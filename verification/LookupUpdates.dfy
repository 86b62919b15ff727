/** Incremental updates of the Project lookup keep it equal to the one built afresh. */
module LookupUpdates {
  import opened SceneOrder
  import opened SceneCache
  import opened CacheLookup

  // ---- One row ----

  lemma PushedTable(t: Table, row: Row, s: nat)
    ensures ListAt(Pushed(t, row.address.scene, row), s)
            == if s == row.address.scene then ListAt(t, s) + [row] else ListAt(t, s)
  {
  }

  lemma PushedRowsAreHome(t: Table, row: Row)
    requires RowsAreHome(t)
    ensures RowsAreHome(Pushed(t, row.address.scene, row))
  {
  }

  lemma RowAddsAddress(l: Lookup, t: Table, row: Row)
    requires Agrees(l, t)
    ensures var stored := l.byAddress[row.address := row.target];
            var listed := Pushed(l.sceneAddresses, row.address.scene, row.address);
            var after := Pushed(t, row.address.scene, row);
            && (forall a :: ObjectAgrees(stored, after, a))
            && (forall s :: AddressListAgrees(listed, after, s))
  {
    var stored := l.byAddress[row.address := row.target];
    var listed := Pushed(l.sceneAddresses, row.address.scene, row.address);
    var after := Pushed(t, row.address.scene, row);
    forall a ensures ObjectAgrees(stored, after, a) {
      assert ObjectAgrees(l.byAddress, t, a);
      PushedTable(t, row, a.scene);
    }
    forall s: nat ensures AddressListAgrees(listed, after, s) {
      assert AddressListAgrees(l.sceneAddresses, t, s);
      PushedTable(t, row, s);
    }
  }

  lemma RowAddsHash(l: Lookup, t: Table, row: Row)
    requires Agrees(l, t)
    ensures var hashed, keys := PlusHash(l.byHash, row), PlusHashKey(l.sceneHashes, row);
            var after := Pushed(t, row.address.scene, row);
            && (forall k :: HashAgrees(hashed, after, k))
            && (forall s :: HashKeysAgree(keys, after, s))
  {
    var hashed, keys := PlusHash(l.byHash, row), PlusHashKey(l.sceneHashes, row);
    var after := Pushed(t, row.address.scene, row);
    forall k ensures HashAgrees(hashed, after, k) {
      assert HashAgrees(l.byHash, t, k);
      PushedTable(t, row, k.scene);
    }
    forall s: nat ensures HashKeysAgree(keys, after, s) {
      assert HashKeysAgree(l.sceneHashes, t, s);
      PushedTable(t, row, s);
    }
  }

  lemma RowAddsChild(l: Lookup, t: Table, row: Row)
    requires Agrees(l, t)
    ensures var children, keys := PlusChild(l.childMembers, row), PlusMemberKey(l.memberKeys, row);
            var after := Pushed(t, row.address.scene, row);
            && (forall k :: ChildAgrees(children, after, k))
            && (forall s :: MemberKeysAgree(keys, after, s))
  {
    var children, keys := PlusChild(l.childMembers, row), PlusMemberKey(l.memberKeys, row);
    var after := Pushed(t, row.address.scene, row);
    forall k ensures ChildAgrees(children, after, k) {
      assert ChildAgrees(l.childMembers, t, k);
      PushedTable(t, row, k.scene);
    }
    forall s: nat ensures MemberKeysAgree(keys, after, s) {
      assert MemberKeysAgree(l.memberKeys, t, s);
      PushedTable(t, row, s);
    }
  }

  lemma RowKeepsAgreement(l: Lookup, t: Table, row: Row)
    requires Agrees(l, t) && InsertRow(l, row).ok
    ensures Agrees(InsertRow(l, row).lookup, Pushed(t, row.address.scene, row))
  {
    PushedRowsAreHome(t, row);
    RowAddsAddress(l, t, row);
    RowAddsHash(l, t, row);
    RowAddsChild(l, t, row);
  }

  /** A row is refused exactly when its address is listed already; otherwise it joins the end of its Scene's list. */
  lemma RowIsAppended(l: Lookup, t: Table, row: Row)
    requires Agrees(l, t)
    ensures InsertRow(l, row).ok <==> ObjectAt(ListAt(t, row.address.scene), row.address).None?
    ensures InsertRow(l, row).ok ==> Agrees(InsertRow(l, row).lookup, Pushed(t, row.address.scene, row))
    ensures InsertRow(l, row).lookup.generations == l.generations
  {
    assert ObjectAgrees(l.byAddress, t, row.address);
    if InsertRow(l, row).ok { RowKeepsAgreement(l, t, row); }
  }

  // ---- Many rows ----

  function PushedAll(t: Table, rows: seq<Row>): Table {
    if rows == [] then t else
      var last := rows[|rows| - 1];
      Pushed(PushedAll(t, rows[..|rows| - 1]), last.address.scene, last)
  }

  function Of(rows: seq<Row>, scene: nat): seq<Row> {
    if rows == [] then [] else
      var before, last := Of(rows[..|rows| - 1], scene), rows[|rows| - 1];
      if last.address.scene == scene then before + [last] else before
  }

  predicate Distinct(rows: seq<Row>) {
    forall i, j | 0 <= i < j < |rows| :: rows[i].address != rows[j].address
  }

  lemma {:induction false} PushedAllAppends(t: Table, rows: seq<Row>, s: nat)
    ensures ListAt(PushedAll(t, rows), s) == ListAt(t, s) + Of(rows, s)
  {
    if rows != [] {
      var front, last := rows[..|rows| - 1], rows[|rows| - 1];
      PushedAllAppends(t, front, s);
      PushedTable(PushedAll(t, front), last, s);
      if last.address.scene == s {
        assert (ListAt(t, s) + Of(front, s)) + [last] == ListAt(t, s) + (Of(front, s) + [last]);
      }
    }
  }

  lemma {:induction false} NotListed(rows: seq<Row>, address: Address)
    requires forall i | 0 <= i < |rows| :: rows[i].address != address
    ensures ObjectAt(rows, address).None?
  {
    if rows != [] { NotListed(rows[..|rows| - 1], address); }
  }

  lemma {:induction false} OfIsPart(rows: seq<Row>, scene: nat)
    ensures forall row | row in Of(rows, scene) :: row in rows && row.address.scene == scene
  {
    if rows != [] { OfIsPart(rows[..|rows| - 1], scene); }
  }

  lemma {:induction false} OfIsAll(rows: seq<Row>, scene: nat)
    requires forall row | row in rows :: row.address.scene == scene
    ensures Of(rows, scene) == rows
  {
    if rows != [] {
      OfIsAll(rows[..|rows| - 1], scene);
      assert rows == rows[..|rows| - 1] + [rows[|rows| - 1]];
    }
  }

  lemma {:induction false} OfIsNothing(rows: seq<Row>, home: nat, scene: nat)
    requires home != scene && forall row | row in rows :: row.address.scene == home
    ensures Of(rows, scene) == []
  {
    if rows != [] { OfIsNothing(rows[..|rows| - 1], home, scene); }
  }

  predicate Unlisted(t: Table, rows: seq<Row>) {
    forall row | row in rows :: ListAt(t, row.address.scene) == []
  }

  ghost predicate Appends(l: Lookup, t: Table, rows: seq<Row>) {
    && InsertRows(l, rows).ok
    && Agrees(InsertRows(l, rows).lookup, PushedAll(t, rows))
    && InsertRows(l, rows).lookup.generations == l.generations
  }

  lemma LastRowIsNew(t: Table, rows: seq<Row>)
    requires rows != [] && Distinct(rows) && Unlisted(t, rows)
    ensures var front, last := rows[..|rows| - 1], rows[|rows| - 1];
            ObjectAt(ListAt(PushedAll(t, front), last.address.scene), last.address).None?
  {
    var front, last := rows[..|rows| - 1], rows[|rows| - 1];
    PushedAllAppends(t, front, last.address.scene);
    assert last in rows;
    OfIsPart(front, last.address.scene);
    var listed := Of(front, last.address.scene);
    assert ListAt(PushedAll(t, front), last.address.scene) == listed;
    forall i | 0 <= i < |listed| ensures listed[i].address != last.address {
      assert listed[i] in listed;
    }
    NotListed(Of(front, last.address.scene), last.address);
  }

  lemma OneMoreRowAppends(l: Lookup, t: Table, front: seq<Row>, last: Row)
    requires Appends(l, t, front)
    requires ObjectAt(ListAt(PushedAll(t, front), last.address.scene), last.address).None?
    ensures Appends(l, t, front + [last])
  {
    assert (front + [last])[..|front + [last]| - 1] == front;
    RowIsAppended(InsertRows(l, front).lookup, PushedAll(t, front), last);
  }

  /** Distinct rows of Scenes not listed yet all go in. */
  lemma {:induction false} RowsAreAppended(l: Lookup, t: Table, rows: seq<Row>)
    requires Agrees(l, t) && Distinct(rows) && Unlisted(t, rows)
    ensures Appends(l, t, rows)
  {
    if rows != [] {
      var front, last := rows[..|rows| - 1], rows[|rows| - 1];
      RowsAreAppended(l, t, front);
      LastRowIsNew(t, rows);
      OneMoreRowAppends(l, t, front, last);
      assert front + [last] == rows;
    }
  }

  // ---- Removal ----

  lemma {:induction false} ListedAddress(rows: seq<Row>, address: Address)
    ensures address in AddressList(rows) <==> ObjectAt(rows, address).Some?
  {
    if rows != [] { ListedAddress(rows[..|rows| - 1], address); }
  }

  lemma {:induction false} AddressListIsHome(rows: seq<Row>, scene: nat)
    requires forall row | row in rows :: row.address.scene == scene
    ensures forall a | a in AddressList(rows) :: a.scene == scene
  {
    if rows != [] { AddressListIsHome(rows[..|rows| - 1], scene); }
  }

  lemma {:induction false} HashedAddresses(rows: seq<Row>, scene: nat, hash: nat)
    requires forall row | row in rows :: row.address.scene == scene
    ensures HashKey(scene, hash) in HashKeys(rows, scene) <==> AddressesWith(rows, hash) != []
    ensures forall k | k in HashKeys(rows, scene) :: k.scene == scene
    ensures Kept(AddressesWith(rows, hash), scene) == []
  {
    if rows != [] {
      var front, last := rows[..|rows| - 1], rows[|rows| - 1];
      HashedAddresses(front, scene, hash);
      var before := AddressesWith(front, hash);
      assert (before + [last.address])[..|before|] == before;
    }
  }

  lemma {:induction false} ListedChild(rows: seq<Row>, scene: nat, member: nat)
    ensures MemberKey(scene, member) in MemberKeys(rows, scene) <==> ChildAt(rows, member).Some?
    ensures forall k | k in MemberKeys(rows, scene) :: k.scene == scene
  {
    if rows != [] { ListedChild(rows[..|rows| - 1], scene, member); }
  }

  lemma RemovalDropsAddresses(l: Lookup, t: Table, scene: nat, a: Address)
    requires Agrees(l, t)
    ensures ObjectAgrees(RemoveScene(l, scene).byAddress, t - {scene}, a)
  {
    assert ObjectAgrees(l.byAddress, t, a) && AddressListAgrees(l.sceneAddresses, t, scene);
    var rows := ListAt(t, scene);
    ListedAddress(rows, a);
    assert forall row | row in rows :: row.address.scene == scene;
    AddressListIsHome(rows, scene);
  }

  lemma RemovalDropsHashes(l: Lookup, t: Table, scene: nat, k: HashKey)
    requires Agrees(l, t)
    ensures HashAgrees(RemoveScene(l, scene).byHash, t - {scene}, k)
  {
    assert HashAgrees(l.byHash, t, k) && HashKeysAgree(l.sceneHashes, t, scene);
    var rows := ListAt(t, scene);
    assert forall row | row in rows :: row.address.scene == scene;
    HashedAddresses(rows, scene, k.contentHash);
  }

  lemma RemovalDropsChildren(l: Lookup, t: Table, scene: nat, k: MemberKey)
    requires Agrees(l, t)
    ensures ChildAgrees(RemoveScene(l, scene).childMembers, t - {scene}, k)
  {
    assert ChildAgrees(l.childMembers, t, k) && MemberKeysAgree(l.memberKeys, t, scene);
    ListedChild(ListAt(t, scene), scene, k.member);
  }

  lemma RemovalDropsLists(l: Lookup, t: Table, scene: nat, s: nat)
    requires Agrees(l, t)
    ensures AddressListAgrees(l.sceneAddresses - {scene}, t - {scene}, s)
    ensures HashKeysAgree(l.sceneHashes - {scene}, t - {scene}, s)
    ensures MemberKeysAgree(l.memberKeys - {scene}, t - {scene}, s)
  {
    assert AddressListAgrees(l.sceneAddresses, t, s);
    assert HashKeysAgree(l.sceneHashes, t, s);
    assert MemberKeysAgree(l.memberKeys, t, s);
  }

  /** Removing a Scene through its own lists drops its rows from all seven maps, and no other row. */
  lemma SceneIsForgotten(l: Lookup, t: Table, scene: nat)
    requires Agrees(l, t)
    ensures Agrees(RemoveScene(l, scene), t - {scene})
  {
    forall a ensures ObjectAgrees(RemoveScene(l, scene).byAddress, t - {scene}, a) {
      RemovalDropsAddresses(l, t, scene, a);
    }
    forall k ensures HashAgrees(RemoveScene(l, scene).byHash, t - {scene}, k) {
      RemovalDropsHashes(l, t, scene, k);
    }
    forall k ensures ChildAgrees(RemoveScene(l, scene).childMembers, t - {scene}, k) {
      RemovalDropsChildren(l, t, scene, k);
    }
    forall s: nat ensures AddressListAgrees(RemoveScene(l, scene).sceneAddresses, t - {scene}, s)
                          && HashKeysAgree(RemoveScene(l, scene).sceneHashes, t - {scene}, s)
                          && MemberKeysAgree(RemoveScene(l, scene).memberKeys, t - {scene}, s) {
      RemovalDropsLists(l, t, scene, s);
    }
  }

  // ---- Whole indexes ----

  lemma IndexRowsAreDistinct(index: SceneIndex)
    requires Validates(index)
    ensures Distinct(IndexRows(index))
    ensures forall row | row in IndexRows(index) :: row.address.scene == index.scene
  {
    var rows := IndexRows(index);
    forall i, j | 0 <= i < j < |rows| ensures rows[i].address != rows[j].address {
      OrderedAtAnyDistance(index.entries, i, j);
    }
    forall i | 0 <= i < |rows| ensures rows[i].address.scene == index.scene {
      assert ValidEntry(index, i);
    }
  }

  lemma TableIsReadByList(l: Lookup, t1: Table, t2: Table)
    requires Agrees(l, t1) && RowsAreHome(t2) && forall s: nat :: ListAt(t1, s) == ListAt(t2, s)
    ensures Agrees(l, t2)
  {
    forall a ensures ObjectAgrees(l.byAddress, t2, a) { assert ObjectAgrees(l.byAddress, t1, a); }
    forall k ensures HashAgrees(l.byHash, t2, k) { assert HashAgrees(l.byHash, t1, k); }
    forall k ensures ChildAgrees(l.childMembers, t2, k) { assert ChildAgrees(l.childMembers, t1, k); }
    forall s: nat ensures AddressListAgrees(l.sceneAddresses, t2, s) {
      assert AddressListAgrees(l.sceneAddresses, t1, s);
    }
    forall s: nat ensures HashKeysAgree(l.sceneHashes, t2, s) { assert HashKeysAgree(l.sceneHashes, t1, s); }
    forall s: nat ensures MemberKeysAgree(l.memberKeys, t2, s) { assert MemberKeysAgree(l.memberKeys, t1, s); }
  }

  lemma IndexIsInserted(l: Lookup, t: Table, index: SceneIndex)
    requires Agrees(l, t) && Validates(index) && index.scene !in l.generations && ListAt(t, index.scene) == []
    ensures InsertSceneIndex(l, index).ok
    ensures InsertSceneIndex(l, index).lookup.generations == l.generations[index.scene := index.generation]
    ensures Agrees(InsertSceneIndex(l, index).lookup, t[index.scene := IndexRows(index)])
  {
    var rows := IndexRows(index);
    var entered := l.(generations := l.generations[index.scene := index.generation]);
    IndexRowsAreDistinct(index);
    RowsAreAppended(entered, t, rows);
    forall s: nat ensures ListAt(PushedAll(t, rows), s) == ListAt(t[index.scene := rows], s) {
      PushedAllAppends(t, rows, s);
      OfIsAll(rows, index.scene);
      if s != index.scene { OfIsNothing(rows, index.scene, s); }
    }
    TableIsReadByList(InsertRows(entered, rows).lookup, PushedAll(t, rows), t[index.scene := rows]);
  }

  // ---- Lists of indexes ----

  function Generations(indexes: seq<SceneIndex>): map<nat, nat> {
    if indexes == [] then map[] else
      var last := indexes[|indexes| - 1];
      Generations(indexes[..|indexes| - 1])[last.scene := last.generation]
  }

  function Tables(indexes: seq<SceneIndex>): Table {
    if indexes == [] then map[] else
      var last := indexes[|indexes| - 1];
      Tables(indexes[..|indexes| - 1])[last.scene := IndexRows(last)]
  }

  /** One valid index for each Scene. */
  predicate Mergeable(indexes: seq<SceneIndex>) {
    && (forall i | 0 <= i < |indexes| :: Validates(indexes[i]))
    && (forall i, j | 0 <= i < j < |indexes| :: indexes[i].scene != indexes[j].scene)
  }

  lemma {:induction false} TablesHold(indexes: seq<SceneIndex>)
    ensures forall s :: s in Generations(indexes) <==> HasScene(indexes, s)
    ensures forall s :: s in Tables(indexes) <==> HasScene(indexes, s)
  {
    if indexes != [] {
      var front, last := indexes[..|indexes| - 1], indexes[|indexes| - 1];
      TablesHold(front);
      forall s ensures HasScene(indexes, s) <==> s == last.scene || HasScene(front, s) {
        if HasScene(front, s) {
          var i :| 0 <= i < |front| && front[i].scene == s;
          assert indexes[i].scene == s;
        }
        if s == last.scene { assert indexes[|indexes| - 1].scene == s; }
      }
    }
  }

  lemma {:induction false} TablesAt(indexes: seq<SceneIndex>, i: nat)
    requires Mergeable(indexes) && i < |indexes|
    ensures indexes[i].scene in Generations(indexes) && Generations(indexes)[indexes[i].scene] == indexes[i].generation
    ensures indexes[i].scene in Tables(indexes) && Tables(indexes)[indexes[i].scene] == IndexRows(indexes[i])
  {
    if i < |indexes| - 1 { TablesAt(indexes[..|indexes| - 1], i); }
  }

  lemma FrontIsMergeable(indexes: seq<SceneIndex>)
    requires indexes != []
    ensures Mergeable(indexes) <==>
            Mergeable(indexes[..|indexes| - 1]) && Validates(indexes[|indexes| - 1])
            && !HasScene(indexes[..|indexes| - 1], indexes[|indexes| - 1].scene)
  {
    var front, last := indexes[..|indexes| - 1], indexes[|indexes| - 1];
    if HasScene(front, last.scene) {
      var i :| 0 <= i < |front| && front[i].scene == last.scene;
      assert indexes[i].scene == indexes[|indexes| - 1].scene;
    }
    if Mergeable(front) && Validates(last) && !HasScene(front, last.scene) {
      forall i, j | 0 <= i < j < |indexes| ensures indexes[i].scene != indexes[j].scene {
        assert indexes[i] == front[i];
        if j < |front| { assert indexes[j] == front[j]; }
      }
      forall i | 0 <= i < |indexes| ensures Validates(indexes[i]) {
        if i < |front| { assert indexes[i] == front[i]; }
      }
    }
  }

  /** A lookup can be built exactly from valid indexes of different Scenes, and then says what they say. */
  lemma {:induction false} BuiltLookupAgrees(indexes: seq<SceneIndex>)
    ensures FromSceneIndexes(indexes).Some? <==> Mergeable(indexes)
    ensures FromSceneIndexes(indexes).Some? ==>
              FromSceneIndexes(indexes).value.generations == Generations(indexes)
              && Agrees(FromSceneIndexes(indexes).value, Tables(indexes))
  {
    if indexes != [] {
      var front, last := indexes[..|indexes| - 1], indexes[|indexes| - 1];
      BuiltLookupAgrees(front);
      FrontIsMergeable(indexes);
      if Mergeable(front) && Validates(last) && !HasScene(front, last.scene) {
        TablesHold(front);
        IndexIsInserted(FromSceneIndexes(front).value, Tables(front), last);
      }
    }
  }
}
