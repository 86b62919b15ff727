/** What a built lookup answers, told from the rows of the indexes, field by field. */
module LookupAnswers {
  import opened Wrappers
  import opened SceneOrder
  import opened SceneCache
  import opened CacheLookup
  import opened LookupUpdates
  import opened LookupTheorems

  /** The object shows everything the row has. */
  predicate Shows(row: Entry, target: CacheObject) {
    match target
    case PrimObject(path, geometry, material, animation, semanticKey, contentHash) =>
      && row.kind == OwnedPrim(path)
      && geometry == row.geometry && material == row.material && animation == row.animation
      && semanticKey == row.semanticKey && contentHash == row.contentHash
    case SceneObject(scene, member) => row.kind == ChildScene(scene, member)
    case ModelObject(model, member) => row.kind == ChildModel(model, member)
  }

  lemma ObjectsShow(row: Entry, target: CacheObject)
    ensures Shows(row, target) <==> ObjectOf(row) == target
  {
  }

  ghost predicate HasRow(index: SceneIndex, address: Address, target: CacheObject) {
    exists row | row in index.entries :: row.address == address && Shows(row, target)
  }

  lemma RowsShow(index: SceneIndex, address: Address, target: CacheObject)
    ensures HasRow(index, address, target) <==> HasEntry(index, address, target)
  {
    if HasRow(index, address, target) {
      var row :| row in index.entries && row.address == address && Shows(row, target);
      var k :| 0 <= k < |index.entries| && index.entries[k] == row;
      ObjectsShow(row, target);
    }
    if HasEntry(index, address, target) {
      var k :| 0 <= k < |index.entries| && index.entries[k].address == address && ObjectOf(index.entries[k]) == target;
      ObjectsShow(index.entries[k], target);
      assert index.entries[k] in index.entries;
    }
  }

  /** An address finds exactly an object that shows every field of the row at that address. */
  lemma AddressShowsItsRow(indexes: seq<SceneIndex>, l: Lookup, i: nat, address: Address, target: CacheObject)
    requires FromSceneIndexes(indexes) == Some(l) && i < |indexes| && address.scene == indexes[i].scene
    ensures HasRow(indexes[i], address, target) <==> address in l.byAddress && l.byAddress[address] == target
  {
    AddressFindsItsEntry(indexes, l, i, address, target);
    RowsShow(indexes[i], address, target);
  }

  /** An address in a Scene without an index finds nothing. */
  lemma ForeignAddressFindsNothing(indexes: seq<SceneIndex>, l: Lookup, address: Address)
    requires FromSceneIndexes(indexes) == Some(l) && !HasScene(indexes, address.scene)
    ensures address !in l.byAddress && address.scene !in l.generations
  {
    BuiltLookupAgrees(indexes);
    TablesHold(indexes);
    assert ObjectAgrees(l.byAddress, Tables(indexes), address);
  }

  ghost predicate OwnedWith(entries: seq<Entry>, address: Address, hash: nat) {
    exists row | row in entries :: row.address == address && row.kind.OwnedPrim? && row.contentHash == Some(hash)
  }

  lemma HashedRowIsOwned(index: SceneIndex, address: Address, hash: nat)
    ensures OwnedWith(index.entries, address, hash) <==>
            exists row :: row in IndexRows(index) && row.address == address && HashOf(row.target) == Some(hash)
  {
    var rows, entries := IndexRows(index), index.entries;
    if row :| row in rows && row.address == address && HashOf(row.target) == Some(hash) {
      var k :| 0 <= k < |rows| && rows[k] == row;
      assert entries[k] in entries && entries[k].address == address && entries[k].contentHash == Some(hash);
    }
    if row :| row in entries && row.address == address && row.kind.OwnedPrim? && row.contentHash == Some(hash) {
      var k :| 0 <= k < |entries| && entries[k] == row;
      assert rows[k] in rows && HashOf(rows[k].target) == Some(hash);
    }
  }

  /** A content hash finds, ascending, exactly the addresses of owned prims with that content. */
  lemma HashFindsItsRows(indexes: seq<SceneIndex>, l: Lookup, i: nat, hash: nat)
    requires FromSceneIndexes(indexes) == Some(l) && i < |indexes|
    ensures var found := ListAt(l.byHash, HashKey(indexes[i].scene, hash));
      AscendingAddresses(found) && forall a :: a in found <==> OwnedWith(indexes[i].entries, a, hash)
  {
    HashFindsItsAddresses(indexes, l, i, hash);
    forall a { HashedRowIsOwned(indexes[i], a, hash); }
  }

  /** A Scene's generation is that of its index. */
  lemma GenerationIsTheIndexs(indexes: seq<SceneIndex>, l: Lookup, i: nat)
    requires FromSceneIndexes(indexes) == Some(l) && i < |indexes|
    ensures indexes[i].scene in l.generations && l.generations[indexes[i].scene] == indexes[i].generation
  {
    BuiltLookupAgrees(indexes);
    TablesAt(indexes, i);
  }

  /** The last row that stands for the member stands for this child. */
  predicate LastChild(rows: seq<Entry>, member: nat, child: nat) {
    exists k | 0 <= k < |rows| ::
      && rows[k].kind == ChildScene(child, member)
      && forall j | k < j < |rows| :: !(rows[j].kind.ChildScene? && rows[j].kind.sceneMember == member)
  }

  lemma {:induction false} ChildIsTheLast(entries: seq<Entry>, rows: seq<Row>, member: nat, child: nat)
    requires |rows| == |entries| && forall k | 0 <= k < |rows| :: rows[k].target == ObjectOf(entries[k])
    ensures ChildAt(rows, member) == Some(child) <==> LastChild(entries, member, child)
  {
    if rows != [] {
      var front, last := entries[..|entries| - 1], |entries| - 1;
      if entries[last].kind.ChildScene? && entries[last].kind.sceneMember == member {
        if LastChild(entries, member, child) {
          var k :| 0 <= k < |entries| && entries[k].kind == ChildScene(child, member)
                   && forall j | k < j < |entries| ::
                        !(entries[j].kind.ChildScene? && entries[j].kind.sceneMember == member);
          assert k == last;
        }
      } else {
        ChildIsTheLast(front, rows[..last], member, child);
        if LastChild(front, member, child) {
          var k :| 0 <= k < |front| && front[k].kind == ChildScene(child, member)
                   && forall j | k < j < |front| ::
                        !(front[j].kind.ChildScene? && front[j].kind.sceneMember == member);
          assert entries[k].kind == ChildScene(child, member);
          forall j | k < j < |entries| ensures !(entries[j].kind.ChildScene? && entries[j].kind.sceneMember == member) {
            if j < last { assert entries[j] == front[j]; }
          }
        }
        if LastChild(entries, member, child) {
          var k :| 0 <= k < |entries| && entries[k].kind == ChildScene(child, member)
                   && forall j | k < j < |entries| ::
                        !(entries[j].kind.ChildScene? && entries[j].kind.sceneMember == member);
          assert front[k].kind == ChildScene(child, member);
          forall j | k < j < |front| ensures !(front[j].kind.ChildScene? && front[j].kind.sceneMember == member) {
            assert front[j] == entries[j];
          }
        }
      }
    }
  }

  /** A member finds exactly the child Scene of the row that stands for it. */
  lemma MemberFindsItsChild(indexes: seq<SceneIndex>, l: Lookup, i: nat, member: nat, child: nat)
    requires FromSceneIndexes(indexes) == Some(l) && i < |indexes|
    ensures var key := MemberKey(indexes[i].scene, member);
      (key in l.childMembers && l.childMembers[key] == child) <==> LastChild(indexes[i].entries, member, child)
  {
    BuiltLookupAgrees(indexes);
    TablesAt(indexes, i);
    ChildIsTheLast(indexes[i].entries, IndexRows(indexes[i]), member, child);
    assert ChildAgrees(l.childMembers, Tables(indexes), MemberKey(indexes[i].scene, member));
  }
}
