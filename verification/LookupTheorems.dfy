/** What the Project lookup promises: updating one Scene equals building afresh, the order of Scenes does not
    matter, and writing the lookup out and reading it back loses nothing. */
module LookupTheorems {
  import opened Wrappers
  import opened SceneOrder
  import opened SceneCache
  import opened CacheLookup
  import opened LookupUpdates

  // ---- Incremental equals rebuilt ----

  /** The list with one Scene's index replaced, or added when the Scene is new. */
  function Updated(indexes: seq<SceneIndex>, index: SceneIndex): seq<SceneIndex> {
    if indexes == [] then [index] else
      var front, last := indexes[..|indexes| - 1], indexes[|indexes| - 1];
      if last.scene == index.scene then front + [index] else Updated(front, index) + [last]
  }

  lemma {:induction false} UpdatedScenes(indexes: seq<SceneIndex>, index: SceneIndex, s: nat)
    ensures HasScene(Updated(indexes, index), s) <==> s == index.scene || HasScene(indexes, s)
  {
    if indexes != [] {
      var front, last := indexes[..|indexes| - 1], indexes[|indexes| - 1];
      assert indexes == front + [last];
      HasSceneInFront(front, last, s);
      if last.scene == index.scene {
        HasSceneInFront(front, index, s);
      } else {
        UpdatedScenes(front, index, s);
        HasSceneInFront(Updated(front, index), last, s);
      }
    } else {
      assert [index][0].scene == index.scene;
    }
  }

  lemma HasSceneInFront(front: seq<SceneIndex>, last: SceneIndex, s: nat)
    ensures HasScene(front + [last], s) <==> s == last.scene || HasScene(front, s)
  {
    if HasScene(front, s) {
      var i :| 0 <= i < |front| && front[i].scene == s;
      assert (front + [last])[i].scene == s;
    }
    assert (front + [last])[|front|] == last;
  }

  ghost predicate UpdatesTo(indexes: seq<SceneIndex>, index: SceneIndex, updated: seq<SceneIndex>) {
    && Mergeable(updated)
    && Generations(updated) == Generations(indexes)[index.scene := index.generation]
    && Tables(updated) == Tables(indexes)[index.scene := IndexRows(index)]
  }

  lemma ListOfFront(front: seq<SceneIndex>, last: SceneIndex)
    ensures Generations(front + [last]) == Generations(front)[last.scene := last.generation]
    ensures Tables(front + [last]) == Tables(front)[last.scene := IndexRows(last)]
    ensures Mergeable(front + [last]) <==> Mergeable(front) && Validates(last) && !HasScene(front, last.scene)
  {
    assert (front + [last])[..|front + [last]| - 1] == front;
    FrontIsMergeable(front + [last]);
  }

  lemma OverwrittenTwice<K, V>(m: map<K, V>, key: K, first: V, second: V)
    ensures m[key := first][key := second] == m[key := second]
  {
  }

  lemma OverwrittenApart<K, V>(m: map<K, V>, a: K, x: V, b: K, y: V)
    requires a != b
    ensures m[a := x][b := y] == m[b := y][a := x]
  {
  }

  lemma UpdateOfLast(front: seq<SceneIndex>, last: SceneIndex, index: SceneIndex)
    requires Mergeable(front + [last]) && Validates(index) && last.scene == index.scene
    ensures UpdatesTo(front + [last], index, front + [index])
  {
    ListOfFront(front, last);
    ListOfFront(front, index);
    OverwrittenTwice(Generations(front), index.scene, last.generation, index.generation);
    OverwrittenTwice(Tables(front), index.scene, IndexRows(last), IndexRows(index));
  }

  lemma UpdateBeforeLast(front: seq<SceneIndex>, last: SceneIndex, index: SceneIndex, updated: seq<SceneIndex>)
    requires UpdatesTo(front, index, updated) && last.scene != index.scene
    requires Validates(last) && !HasScene(updated, last.scene)
    ensures UpdatesTo(front + [last], index, updated + [last])
  {
    ListOfFront(front, last);
    ListOfFront(updated, last);
    OverwrittenApart(Generations(front), last.scene, last.generation, index.scene, index.generation);
    OverwrittenApart(Tables(front), last.scene, IndexRows(last), index.scene, IndexRows(index));
  }

  lemma {:induction false} UpdateIsMergeable(indexes: seq<SceneIndex>, index: SceneIndex)
    requires Mergeable(indexes) && Validates(index)
    ensures UpdatesTo(indexes, index, Updated(indexes, index))
  {
    if indexes == [] {
      ListOfFront([], index);
      assert [] + [index] == [index];
    } else {
      var front, last := indexes[..|indexes| - 1], indexes[|indexes| - 1];
      assert indexes == front + [last];
      if last.scene == index.scene {
        UpdateOfLast(front, last, index);
      } else {
        FrontIsMergeable(indexes);
        UpdateIsMergeable(front, index);
        UpdatedScenes(front, index, last.scene);
        UpdateBeforeLast(front, last, index, Updated(front, index));
      }
    }
  }

  lemma ReplacedAgrees(l: Lookup, t: Table, index: SceneIndex)
    requires Agrees(l, t) && Validates(index)
    ensures ReplaceSceneIndex(l, index).ok
    ensures ReplaceSceneIndex(l, index).lookup.generations == l.generations[index.scene := index.generation]
    ensures Agrees(ReplaceSceneIndex(l, index).lookup, t[index.scene := IndexRows(index)])
  {
    SceneIsForgotten(l, t, index.scene);
    IndexIsInserted(RemoveScene(l, index.scene), t - {index.scene}, index);
    assert (t - {index.scene})[index.scene := IndexRows(index)] == t[index.scene := IndexRows(index)];
  }

  /** Replacing one Scene's index succeeds on every valid index, equals building from the updated list, and
      leaves the lookup alone otherwise. */
  lemma ReplaceEqualsRebuild(indexes: seq<SceneIndex>, l: Lookup, index: SceneIndex)
    requires FromSceneIndexes(indexes) == Some(l)
    ensures ReplaceSceneIndex(l, index).ok <==> Validates(index)
    ensures !Validates(index) ==> ReplaceSceneIndex(l, index).lookup == l
    ensures Validates(index) ==> FromSceneIndexes(Updated(indexes, index)) == Some(ReplaceSceneIndex(l, index).lookup)
  {
    if Validates(index) {
      BuiltLookupAgrees(indexes);
      UpdateIsMergeable(indexes, index);
      BuiltLookupAgrees(Updated(indexes, index));
      ReplacedAgrees(l, Tables(indexes), index);
      AgreementDecides(ReplaceSceneIndex(l, index).lookup, Tables(Updated(indexes, index)),
                       FromSceneIndexes(Updated(indexes, index)).value, Tables(Updated(indexes, index)));
    }
  }

  function ReplaceEach(l: Lookup, updates: seq<SceneIndex>): Lookup {
    if updates == [] then l else
      ReplaceSceneIndex(ReplaceEach(l, updates[..|updates| - 1]), updates[|updates| - 1]).lookup
  }

  function UpdatedEach(indexes: seq<SceneIndex>, updates: seq<SceneIndex>): seq<SceneIndex> {
    if updates == [] then indexes else
      var before, last := UpdatedEach(indexes, updates[..|updates| - 1]), updates[|updates| - 1];
      if Validates(last) then Updated(before, last) else before
  }

  /** However many updates a session applies, the lookup is the one built from the indexes then current. */
  lemma {:induction false} SessionEqualsRebuild(indexes: seq<SceneIndex>, l: Lookup, updates: seq<SceneIndex>)
    requires FromSceneIndexes(indexes) == Some(l)
    ensures FromSceneIndexes(UpdatedEach(indexes, updates)) == Some(ReplaceEach(l, updates))
  {
    if updates != [] {
      var front := updates[..|updates| - 1];
      SessionEqualsRebuild(indexes, l, front);
      ReplaceEqualsRebuild(UpdatedEach(indexes, front), ReplaceEach(l, front), updates[|updates| - 1]);
    }
  }

  /** An update of one Scene changes no answer about another. */
  lemma ReplaceLeavesOtherScenes(indexes: seq<SceneIndex>, l: Lookup, index: SceneIndex, other: nat)
    requires FromSceneIndexes(indexes) == Some(l) && Validates(index) && other != index.scene
    ensures var after := ReplaceSceneIndex(l, index).lookup;
            && (forall a: Address | a.scene == other ::
                  (a in after.byAddress <==> a in l.byAddress)
                  && (a in l.byAddress ==> after.byAddress[a] == l.byAddress[a]))
            && (forall hash: nat ::
                ListAt(after.byHash, HashKey(other, hash)) == ListAt(l.byHash, HashKey(other, hash)))
            && (forall m: nat :: (MemberKey(other, m) in after.childMembers <==> MemberKey(other, m) in l.childMembers)
                  && (MemberKey(other, m) in l.childMembers ==>
                        after.childMembers[MemberKey(other, m)] == l.childMembers[MemberKey(other, m)]))
            && (other in after.generations <==> other in l.generations)
            && (other in l.generations ==> after.generations[other] == l.generations[other])
  {
    var after := ReplaceSceneIndex(l, index).lookup;
    ReplaceEqualsRebuild(indexes, l, index);
    BuiltLookupAgrees(indexes);
    BuiltLookupAgrees(Updated(indexes, index));
    UpdateIsMergeable(indexes, index);
    var t1, t2 := Tables(indexes), Tables(Updated(indexes, index));
    forall a: Address | a.scene == other
      ensures ObjectAgrees(after.byAddress, t1, a) && ObjectAgrees(l.byAddress, t1, a)
    {
      assert ObjectAgrees(after.byAddress, t2, a);
    }
    forall hash: nat ensures ListAt(after.byHash, HashKey(other, hash)) == ListAt(l.byHash, HashKey(other, hash)) {
      assert HashAgrees(after.byHash, t2, HashKey(other, hash)) && HashAgrees(l.byHash, t1, HashKey(other, hash));
    }
    forall m: nat ensures ChildAgrees(after.childMembers, t1, MemberKey(other, m))
                          && ChildAgrees(l.childMembers, t1, MemberKey(other, m)) {
      assert ChildAgrees(after.childMembers, t2, MemberKey(other, m));
    }
  }

  // ---- The order of Scenes ----

  predicate OnePerScene(indexes: seq<SceneIndex>) {
    && (forall x | x in indexes :: Validates(x) && multiset(indexes)[x] == 1)
    && (forall x, y | x in indexes && y in indexes :: x.scene == y.scene ==> x == y)
  }

  lemma CountsGrow(front: seq<SceneIndex>, last: SceneIndex, x: SceneIndex)
    ensures multiset(front + [last])[x] == multiset(front)[x] + if x == last then 1 else 0
    ensures x in front + [last] <==> x in front || x == last
    ensures x in front <==> multiset(front)[x] > 0
  {
  }

  lemma SceneOfFront(front: seq<SceneIndex>, scene: nat)
    ensures HasScene(front, scene) <==> exists x :: x in front && x.scene == scene
  {
    if HasScene(front, scene) {
      var i :| 0 <= i < |front| && front[i].scene == scene;
      assert front[i] in front;
    }
    if x :| x in front && x.scene == scene {
      var i :| 0 <= i < |front| && front[i] == x;
    }
  }

  lemma OnePerSceneGrows(front: seq<SceneIndex>, last: SceneIndex)
    requires OnePerScene(front) && Validates(last) && !HasScene(front, last.scene)
    ensures OnePerScene(front + [last])
  {
    SceneOfFront(front, last.scene);
    forall x | x in front + [last] ensures Validates(x) && multiset(front + [last])[x] == 1 {
      CountsGrow(front, last, x);
    }
  }

  lemma OnePerSceneShrinks(front: seq<SceneIndex>, last: SceneIndex)
    requires OnePerScene(front + [last])
    ensures OnePerScene(front) && Validates(last) && !HasScene(front, last.scene)
  {
    SceneOfFront(front, last.scene);
    CountsGrow(front, last, last);
    forall x | x in front ensures Validates(x) && multiset(front)[x] == 1 && x in front + [last] && x != last {
      CountsGrow(front, last, x);
    }
  }

  lemma {:induction false} MergeableCounts(indexes: seq<SceneIndex>)
    ensures Mergeable(indexes) <==> OnePerScene(indexes)
  {
    if indexes != [] {
      var front, last := indexes[..|indexes| - 1], indexes[|indexes| - 1];
      assert indexes == front + [last];
      MergeableCounts(front);
      FrontIsMergeable(indexes);
      if Mergeable(indexes) {
        OnePerSceneGrows(front, last);
      }
      if OnePerScene(indexes) {
        OnePerSceneShrinks(front, last);
      }
    }
  }

  /** Listing the same indexes in another order gives the same lookup, or the same refusal. */
  lemma SceneOrderIsIrrelevant(a: seq<SceneIndex>, b: seq<SceneIndex>)
    requires multiset(a) == multiset(b)
    ensures FromSceneIndexes(a) == FromSceneIndexes(b)
  {
    MergeableCounts(a);
    MergeableCounts(b);
    BuiltLookupAgrees(a);
    BuiltLookupAgrees(b);
    forall x ensures x in a <==> x in b {
      assert x in a <==> x in multiset(a);
      assert x in b <==> x in multiset(b);
    }
    if Mergeable(a) {
      SameIndexesSameTables(a, b);
      AgreementDecides(FromSceneIndexes(a).value, Tables(a), FromSceneIndexes(b).value, Tables(a));
    }
  }

  lemma SameIndexesSameTables(a: seq<SceneIndex>, b: seq<SceneIndex>)
    requires Mergeable(a) && Mergeable(b) && forall x :: x in a <==> x in b
    ensures Tables(a) == Tables(b) && Generations(a) == Generations(b)
  {
    SameIndexesSameLists(a, b);
    SameIndexesSameLists(b, a);
  }

  lemma SameIndexesSameLists(a: seq<SceneIndex>, b: seq<SceneIndex>)
    requires Mergeable(a) && Mergeable(b) && forall x :: x in a <==> x in b
    ensures forall s | s in Tables(a) :: s in Tables(b) && Tables(a)[s] == Tables(b)[s]
    ensures forall s | s in Generations(a) :: s in Generations(b) && Generations(a)[s] == Generations(b)[s]
  {
    TablesHold(a);
    forall s | HasScene(a, s)
      ensures s in Tables(a) && s in Tables(b) && Tables(a)[s] == Tables(b)[s]
      ensures s in Generations(a) && s in Generations(b) && Generations(a)[s] == Generations(b)[s]
    {
      var i :| 0 <= i < |a| && a[i].scene == s;
      assert a[i] in b;
      var j :| 0 <= j < |b| && b[j] == a[i];
      TablesAt(a, i);
      TablesAt(b, j);
    }
  }

  // ---- Persistence ----

  predicate Ascending(rows: seq<Row>) {
    forall i, j | 0 <= i < j < |rows| :: AddressLess(rows[i].address, rows[j].address)
  }

  lemma LastIsGreatest(rows: seq<Row>, row: Row)
    requires Ascending(rows) && row in rows
    ensures row == rows[|rows| - 1] || AddressLess(row.address, rows[|rows| - 1].address)
  {
  }

  lemma SomeRow(rows: seq<Row>)
    requires rows != []
    ensures exists row :: row in rows
  {
    assert rows[0] in rows;
  }

  lemma {:induction false} SortedRowsAreUnique(a: seq<Row>, b: seq<Row>)
    requires Ascending(a) && Ascending(b) && forall row :: row in a <==> row in b
    ensures a == b
  {
    if a == [] {
      if b != [] { SomeRow(b); }
    } else {
      assert a[|a| - 1] in b;
      assert b[|b| - 1] in a;
      var x, y := a[|a| - 1], b[|b| - 1];
      LastIsGreatest(b, x);
      LastIsGreatest(a, y);
      if x != y {
        AddressLessIsTransitive(x.address, y.address, x.address);
        AddressLessIsIrreflexive(x.address);
      }
      var fa, fb := a[..|a| - 1], b[..|b| - 1];
      forall row ensures row in fa <==> row in fb {
        InFront(a, row);
        InFront(b, row);
      }
      SortedRowsAreUnique(fa, fb);
      assert a == fa + [x] && b == fb + [y];
    }
  }

  lemma InFront(rows: seq<Row>, row: Row)
    requires Ascending(rows) && rows != []
    ensures row in rows[..|rows| - 1] <==> row in rows && row != rows[|rows| - 1]
  {
    AddressLessIsIrreflexive(rows[|rows| - 1].address);
    if row in rows && row != rows[|rows| - 1] {
      var i :| 0 <= i < |rows| && rows[i] == row;
      assert rows[..|rows| - 1][i] == row;
    }
  }

  lemma {:induction false} OfAscends(rows: seq<Row>, scene: nat)
    requires Ascending(rows)
    ensures Ascending(Of(rows, scene))
    ensures forall row :: row in Of(rows, scene) <==> row in rows && row.address.scene == scene
  {
    if rows != [] {
      var front, last := rows[..|rows| - 1], rows[|rows| - 1];
      OfAscends(front, scene);
      assert rows == front + [last];
      assert forall row | row in front :: AddressLess(row.address, last.address);
    }
  }

  lemma AscendingIsDistinct(rows: seq<Row>)
    requires Ascending(rows)
    ensures Distinct(rows)
  {
    forall i, j | 0 <= i < j < |rows| ensures rows[i].address != rows[j].address {
      AddressLessIsIrreflexive(rows[i].address);
    }
  }

  /** In a list of distinct addresses, an address holds what its only row says. */
  lemma {:induction false} DistinctObject(rows: seq<Row>, row: Row)
    requires Distinct(rows)
    ensures row in rows <==> ObjectAt(rows, row.address) == Some(row.target)
  {
    if rows != [] {
      var front, last := rows[..|rows| - 1], rows[|rows| - 1];
      DistinctObject(front, row);
      assert rows == front + [last];
      if last.address == row.address { NotListed(front, row.address); }
    }
  }

  lemma TableAscends(indexes: seq<SceneIndex>, s: nat)
    requires Mergeable(indexes)
    ensures Ascending(ListAt(Tables(indexes), s))
    ensures forall row | row in ListAt(Tables(indexes), s) :: row.address.scene == s
  {
    TablesHold(indexes);
    if HasScene(indexes, s) {
      var i :| 0 <= i < |indexes| && indexes[i].scene == s;
      TablesAt(indexes, i);
      IndexRowsAreDistinct(indexes[i]);
      var rows := IndexRows(indexes[i]);
      forall j, k | 0 <= j < k < |rows| ensures AddressLess(rows[j].address, rows[k].address) {
        OrderedAtAnyDistance(indexes[i].entries, j, k);
      }
    }
  }

  lemma PersistedRowsOfScene(l: Lookup, indexes: seq<SceneIndex>, rows: seq<Row>, s: nat)
    requires FromSceneIndexes(indexes) == Some(l) && PersistentRows(l, rows)
    ensures Of(rows, s) == ListAt(Tables(indexes), s)
  {
    BuiltLookupAgrees(indexes);
    var listed := ListAt(Tables(indexes), s);
    TableAscends(indexes, s);
    AscendingIsDistinct(listed);
    OfAscends(rows, s);
    forall row ensures row in Of(rows, s) <==> row in listed {
      DistinctObject(listed, row);
      assert ObjectAgrees(l.byAddress, Tables(indexes), row.address);
      if row.address.scene == s { PersistedRow(l, rows, row); }
    }
    SortedRowsAreUnique(Of(rows, s), listed);
  }

  lemma PersistedRow(l: Lookup, rows: seq<Row>, row: Row)
    requires PersistentRows(l, rows)
    ensures row in rows <==> row.address in l.byAddress && l.byAddress[row.address] == row.target
  {
    if row.address in l.byAddress && l.byAddress[row.address] == row.target {
      var i :| 0 <= i < |rows| && rows[i].address == row.address;
      assert rows[i] == row;
    }
  }

  lemma {:induction false} GenerationsInsert(generations: seq<SceneGeneration>)
    requires forall i, j | 0 <= i < j < |generations| :: generations[i].scene < generations[j].scene
    ensures InsertGenerations(generations).Some?
    ensures forall s :: s in InsertGenerations(generations).value <==>
              exists i :: 0 <= i < |generations| && generations[i].scene == s
    ensures forall i | 0 <= i < |generations| ::
              generations[i].scene in InsertGenerations(generations).value
              && InsertGenerations(generations).value[generations[i].scene] == generations[i].generation
  {
    if generations != [] {
      var front, last := generations[..|generations| - 1], generations[|generations| - 1];
      GenerationsInsert(front);
      var m := InsertGenerations(front).value;
      assert last.scene !in m;
      assert generations == front + [last];
    }
  }

  lemma PersistedGenerations(l: Lookup, generations: seq<SceneGeneration>)
    requires PersistentGenerations(l, generations)
    ensures InsertGenerations(generations) == Some(l.generations)
  {
    GenerationsInsert(generations);
    var m := InsertGenerations(generations).value;
    forall s ensures (s in m <==> s in l.generations) && (s in m ==> m[s] == l.generations[s]) {
      if s in m {
        var i :| 0 <= i < |generations| && generations[i].scene == s;
        assert generations[i].scene in l.generations;
      }
    }
    assert m == l.generations;
  }

  /** Writing a built lookup out in address order and reading it back gives the same seven maps. */
  lemma PersistenceRoundTrips(indexes: seq<SceneIndex>, l: Lookup,
                              generations: seq<SceneGeneration>, rows: seq<Row>)
    requires FromSceneIndexes(indexes) == Some(l)
    requires PersistentGenerations(l, generations) && PersistentRows(l, rows)
    ensures FromPersistentRows(generations, rows) == Some(l)
  {
    PersistedGenerations(l, generations);
    AscendingIsDistinct(rows);
    var start := EMPTY.(generations := l.generations);
    RowsAreAppended(start, map[], rows);
    BuiltLookupAgrees(indexes);
    forall s: nat ensures ListAt(PushedAll(map[], rows), s) == ListAt(Tables(indexes), s) {
      PushedAllAppends(map[], rows, s);
      PersistedRowsOfScene(l, indexes, rows, s);
    }
    AgreementDecides(InsertRows(start, rows).lookup, PushedAll(map[], rows), l, Tables(indexes));
  }

  // ---- What a lookup answers ----

  ghost predicate HasEntry(index: SceneIndex, address: Address, target: CacheObject) {
    exists k :: 0 <= k < |index.entries| && index.entries[k].address == address && ObjectOf(index.entries[k]) == target
  }

  lemma EntryIsRow(index: SceneIndex, address: Address, target: CacheObject)
    ensures HasEntry(index, address, target) <==> Row(address, target) in IndexRows(index)
  {
    if HasEntry(index, address, target) {
      var k :| 0 <= k < |index.entries| && index.entries[k].address == address && ObjectOf(index.entries[k]) == target;
      assert IndexRows(index)[k] == Row(address, target);
    }
  }

  /** An address finds exactly the object of its entry. */
  lemma AddressFindsItsEntry(indexes: seq<SceneIndex>, l: Lookup, i: nat, address: Address, target: CacheObject)
    requires FromSceneIndexes(indexes) == Some(l) && i < |indexes| && address.scene == indexes[i].scene
    ensures HasEntry(indexes[i], address, target) <==> address in l.byAddress && l.byAddress[address] == target
  {
    BuiltLookupAgrees(indexes);
    TablesAt(indexes, i);
    IndexRowsAreDistinct(indexes[i]);
    DistinctObject(IndexRows(indexes[i]), Row(address, target));
    EntryIsRow(indexes[i], address, target);
    assert ObjectAgrees(l.byAddress, Tables(indexes), address);
  }

  predicate AscendingAddresses(addresses: seq<Address>) {
    forall i, j | 0 <= i < j < |addresses| :: AddressLess(addresses[i], addresses[j])
  }

  lemma {:induction false} HashedRows(rows: seq<Row>, hash: nat)
    requires Ascending(rows)
    ensures AscendingAddresses(AddressesWith(rows, hash))
    ensures forall a :: a in AddressesWith(rows, hash) <==>
                        exists row :: row in rows && row.address == a && HashOf(row.target) == Some(hash)
  {
    if rows != [] {
      var front, last := rows[..|rows| - 1], rows[|rows| - 1];
      HashedRows(front, hash);
      assert rows == front + [last];
      forall a | a in AddressesWith(front, hash) ensures AddressLess(a, last.address) {
        var row :| row in front && row.address == a;
      }
    }
  }

  /** A content hash finds, in address order and once each, exactly the Scene's addresses with that content. */
  lemma HashFindsItsAddresses(indexes: seq<SceneIndex>, l: Lookup, i: nat, hash: nat)
    requires FromSceneIndexes(indexes) == Some(l) && i < |indexes|
    ensures var found := ListAt(l.byHash, HashKey(indexes[i].scene, hash));
            && AscendingAddresses(found)
            && (forall a :: a in found <==>
                  exists row :: row in IndexRows(indexes[i]) && row.address == a && HashOf(row.target) == Some(hash))
  {
    BuiltLookupAgrees(indexes);
    TablesAt(indexes, i);
    TableAscends(indexes, indexes[i].scene);
    HashedRows(IndexRows(indexes[i]), hash);
    assert HashAgrees(l.byHash, Tables(indexes), HashKey(indexes[i].scene, hash));
  }
}
