/** The Project lookup as the program keeps it: seven maps updated in place. */
module LookupState {
  import opened Wrappers
  import opened SceneOrder
  import opened SceneCache
  import opened CacheLookup
  import opened LookupUpdates
  import opened LookupTheorems

  // ---- Loops that stop at the first failure ----

  lemma {:induction false} FailureStops(l: Lookup, rows: seq<Row>, i: nat)
    requires i <= |rows| && !InsertRows(l, rows[..i]).ok
    ensures InsertRows(l, rows) == InsertRows(l, rows[..i])
    decreases |rows|
  {
    if i == |rows| {
      assert rows[..i] == rows;
    } else {
      var front := rows[..|rows| - 1];
      assert front[..i] == rows[..i];
      FailureStops(l, front, i);
    }
  }

  lemma {:induction false} RefusalStops(indexes: seq<SceneIndex>, i: nat)
    requires i <= |indexes| && FromSceneIndexes(indexes[..i]).None?
    ensures FromSceneIndexes(indexes).None?
    decreases |indexes|
  {
    if i == |indexes| {
      assert indexes[..i] == indexes;
    } else {
      var front := indexes[..|indexes| - 1];
      assert front[..i] == indexes[..i];
      RefusalStops(front, i);
    }
  }

  lemma {:induction false} DuplicateStops(generations: seq<SceneGeneration>, i: nat)
    requires i <= |generations| && InsertGenerations(generations[..i]).None?
    ensures InsertGenerations(generations).None?
    decreases |generations|
  {
    if i == |generations| {
      assert generations[..i] == generations;
    } else {
      var front := generations[..|generations| - 1];
      assert front[..i] == generations[..i];
      DuplicateStops(front, i);
    }
  }

  lemma Next<T>(s: seq<T>, i: nat)
    requires i < |s|
    ensures s[..i + 1][..i] == s[..i] && s[..i + 1][i] == s[i] && |s[..i + 1]| == i + 1
  {
  }

  // ---- Removal, one listed key at a time ----

  function HashesDropped(m: map<HashKey, seq<Address>>, scene: nat, keys: seq<HashKey>): map<HashKey, seq<Address>> {
    map key | key in m && !(key in keys && Kept(m[key], scene) == []) ::
      if key in keys then Kept(m[key], scene) else m[key]
  }

  lemma {:induction false} KeptTwice(addresses: seq<Address>, scene: nat)
    ensures Kept(Kept(addresses, scene), scene) == Kept(addresses, scene)
  {
    if addresses != [] {
      var before, last := Kept(addresses[..|addresses| - 1], scene), addresses[|addresses| - 1];
      KeptTwice(addresses[..|addresses| - 1], scene);
      if last.scene != scene { assert (before + [last])[..|before|] == before; }
    }
  }

  function OneDropped(m: map<HashKey, seq<Address>>, scene: nat, key: HashKey): map<HashKey, seq<Address>> {
    if key !in m then m
    else if Kept(m[key], scene) == [] then m - {key}
    else m[key := Kept(m[key], scene)]
  }

  lemma DropOneKey(m: map<HashKey, seq<Address>>, scene: nat, keys: seq<HashKey>, key: HashKey)
    ensures HashesDropped(m, scene, keys + [key]) == OneDropped(HashesDropped(m, scene, keys), scene, key)
  {
    if key in m { KeptTwice(m[key], scene); }
  }

  function SortedInsert(rows: seq<Row>, row: Row): seq<Row> {
    if rows == [] || AddressLess(rows[|rows| - 1].address, row.address) then rows + [row]
    else SortedInsert(rows[..|rows| - 1], row) + [rows[|rows| - 1]]
  }

  /** Sorting by address. */
  function SortRows(rows: seq<Row>): seq<Row> {
    if rows == [] then [] else SortedInsert(SortRows(rows[..|rows| - 1]), rows[|rows| - 1])
  }

  lemma {:induction false} SortedInsertKeeps(rows: seq<Row>, row: Row)
    requires Ascending(rows) && forall r | r in rows :: r.address != row.address
    ensures Ascending(SortedInsert(rows, row))
    ensures forall r :: r in SortedInsert(rows, row) <==> r in rows || r == row
  {
    if rows != [] {
      var front, last := rows[..|rows| - 1], rows[|rows| - 1];
      assert rows == front + [last];
      if AddressLess(last.address, row.address) {
        forall r | r in front ensures AddressLess(r.address, row.address) {
          AddressLessIsTransitive(r.address, last.address, row.address);
        }
      } else {
        AddressLessIsTotal(last.address, row.address);
        SortedInsertKeeps(front, row);
        assert forall r | r in SortedInsert(front, row) :: AddressLess(r.address, last.address);
      }
    }
  }

  lemma {:induction false} SortRowsSorts(rows: seq<Row>)
    requires Distinct(rows)
    ensures Ascending(SortRows(rows))
    ensures forall r :: r in SortRows(rows) <==> r in rows
  {
    if rows != [] {
      var front, last := rows[..|rows| - 1], rows[|rows| - 1];
      assert rows == front + [last];
      SortRowsSorts(front);
      SortedInsertKeeps(SortRows(front), last);
    }
  }

  predicate GenerationsAscend(generations: seq<SceneGeneration>) {
    forall i, j | 0 <= i < j < |generations| :: generations[i].scene < generations[j].scene
  }

  function GenerationInserted(sorted: seq<SceneGeneration>, generation: SceneGeneration): seq<SceneGeneration> {
    if sorted == [] || sorted[|sorted| - 1].scene < generation.scene then sorted + [generation]
    else GenerationInserted(sorted[..|sorted| - 1], generation) + [sorted[|sorted| - 1]]
  }

  /** Sorting by Scene. */
  function SortGenerations(generations: seq<SceneGeneration>): seq<SceneGeneration> {
    if generations == [] then []
    else GenerationInserted(SortGenerations(generations[..|generations| - 1]), generations[|generations| - 1])
  }

  predicate ScenesDiffer(generations: seq<SceneGeneration>) {
    forall i, j | 0 <= i < j < |generations| :: generations[i].scene != generations[j].scene
  }

  lemma {:induction false} GenerationInsertedKeeps(sorted: seq<SceneGeneration>, generation: SceneGeneration)
    requires GenerationsAscend(sorted) && forall g | g in sorted :: g.scene != generation.scene
    ensures GenerationsAscend(GenerationInserted(sorted, generation))
    ensures forall g :: g in GenerationInserted(sorted, generation) <==> g in sorted || g == generation
  {
    if sorted != [] {
      var front, last := sorted[..|sorted| - 1], sorted[|sorted| - 1];
      assert sorted == front + [last];
      if last.scene > generation.scene {
        GenerationInsertedKeeps(front, generation);
        assert forall g | g in GenerationInserted(front, generation) :: g.scene < last.scene;
      } else {
        assert last in sorted;
      }
    }
  }

  lemma {:induction false} SortGenerationsSorts(generations: seq<SceneGeneration>)
    requires ScenesDiffer(generations)
    ensures GenerationsAscend(SortGenerations(generations))
    ensures forall g :: g in SortGenerations(generations) <==> g in generations
  {
    if generations != [] {
      var front, last := generations[..|generations| - 1], generations[|generations| - 1];
      assert generations == front + [last];
      SortGenerationsSorts(front);
      GenerationInsertedKeeps(SortGenerations(front), last);
    }
  }

  class ProjectCacheLookup {
    var byAddress: map<Address, CacheObject>
    var byHash: map<HashKey, seq<Address>>
    var generations: map<nat, nat>
    var sceneAddresses: map<nat, seq<Address>>
    var sceneHashes: map<nat, seq<HashKey>>
    var childMembers: map<MemberKey, nat>
    var memberKeys: map<nat, seq<MemberKey>>

    ghost function View(): Lookup
      reads this
    {
      Lookup(byAddress, byHash, generations, sceneAddresses, sceneHashes, childMembers, memberKeys)
    }

    constructor ()
      ensures View() == EMPTY
    {
      byAddress, byHash, generations := map[], map[], map[];
      sceneAddresses, sceneHashes, childMembers, memberKeys := map[], map[], map[], map[];
    }

    method InsertRow(row: Row) returns (ok: bool)
      modifies this
      ensures Outcome(View(), ok) == CacheLookup.InsertRow(old(View()), row)
    {
      var scene := row.address.scene;
      var known := row.address in byAddress;
      byAddress := byAddress[row.address := row.target];
      if known { return false; }
      sceneAddresses := Pushed(sceneAddresses, scene, row.address);
      var hash := HashOf(row.target);
      if hash.Some? {
        var key := HashKey(scene, hash.value);
        byHash := Pushed(byHash, key, row.address);
        sceneHashes := Pushed(sceneHashes, scene, key);
      }
      if row.target.SceneObject? {
        var key := MemberKey(scene, row.target.sceneMember);
        childMembers := childMembers[key := row.target.scene];
        memberKeys := Pushed(memberKeys, scene, key);
      }
      return true;
    }

    method InsertAll(rows: seq<Row>) returns (ok: bool)
      modifies this
      ensures Outcome(View(), ok) == InsertRows(old(View()), rows)
    {
      ghost var start := View();
      for i := 0 to |rows|
        invariant Outcome(View(), true) == InsertRows(start, rows[..i])
      {
        Next(rows, i);
        ok := InsertRow(rows[i]);
        if !ok {
          FailureStops(start, rows, i + 1);
          return;
        }
      }
      assert rows[..|rows|] == rows;
      return true;
    }

    method InsertSceneIndex(index: SceneIndex) returns (ok: bool)
      modifies this
      ensures Outcome(View(), ok) == CacheLookup.InsertSceneIndex(old(View()), index)
    {
      if index.scene in generations { return false; }
      generations := generations[index.scene := index.generation];
      ok := InsertAll(IndexRows(index));
    }

    method DropAddresses(scene: nat)
      modifies this
      ensures View() == old(View()).(
        byAddress := map a | a in old(byAddress) && a !in ListAt(old(sceneAddresses), scene) :: old(byAddress)[a],
        sceneAddresses := old(sceneAddresses) - {scene})
    {
      var addresses := ListAt(sceneAddresses, scene);
      sceneAddresses := sceneAddresses - {scene};
      for i := 0 to |addresses|
        invariant View() == old(View()).(byAddress := byAddress, sceneAddresses := old(sceneAddresses) - {scene})
        invariant byAddress == map a | a in old(byAddress) && a !in addresses[..i] :: old(byAddress)[a]
      {
        assert addresses[..i + 1] == addresses[..i] + [addresses[i]];
        byAddress := byAddress - {addresses[i]};
      }
      assert addresses[..|addresses|] == addresses;
    }

    method DropHashes(scene: nat)
      modifies this
      ensures View()
          == old(View()).(byHash := HashesWithout(old(View()), scene), sceneHashes := old(sceneHashes) - {scene})
    {
      ghost var before := byHash;
      var keys := ListAt(sceneHashes, scene);
      sceneHashes := sceneHashes - {scene};
      for i := 0 to |keys|
        invariant View() == old(View()).(byHash := byHash, sceneHashes := old(sceneHashes) - {scene})
        invariant byHash == HashesDropped(before, scene, keys[..i])
      {
        assert keys[..i + 1] == keys[..i] + [keys[i]];
        DropOneKey(before, scene, keys[..i], keys[i]);
        var key := keys[i];
        if key in byHash {
          var kept := Kept(byHash[key], scene);
          byHash := if kept == [] then byHash - {key} else byHash[key := kept];
        }
      }
      assert keys[..|keys|] == keys;
      assert HashesDropped(before, scene, keys) == HashesWithout(old(View()), scene);
    }

    method DropChildren(scene: nat)
      modifies this
      ensures View() == old(View()).(
        childMembers := map k | k in old(childMembers) && k !in ListAt(old(memberKeys), scene) :: old(childMembers)[k],
        memberKeys := old(memberKeys) - {scene})
    {
      var keys := ListAt(memberKeys, scene);
      memberKeys := memberKeys - {scene};
      for i := 0 to |keys|
        invariant View() == old(View()).(childMembers := childMembers, memberKeys := old(memberKeys) - {scene})
        invariant childMembers == map k | k in old(childMembers) && k !in keys[..i] :: old(childMembers)[k]
      {
        assert keys[..i + 1] == keys[..i] + [keys[i]];
        childMembers := childMembers - {keys[i]};
      }
      assert keys[..|keys|] == keys;
    }

    method RemoveScene(scene: nat)
      modifies this
      ensures View() == CacheLookup.RemoveScene(old(View()), scene)
    {
      DropAddresses(scene);
      DropHashes(scene);
      DropChildren(scene);
      generations := generations - {scene};
    }

    method ReplaceSceneIndex(index: SceneIndex) returns (ok: bool)
      modifies this
      ensures Outcome(View(), ok) == CacheLookup.ReplaceSceneIndex(old(View()), index)
    {
      if !Validates(index) { return false; }
      RemoveScene(index.scene);
      ok := InsertSceneIndex(index);
    }

    /** The rows in address order, whatever order the map yields them in. */
    method Rows() returns (rows: seq<Row>)
      ensures PersistentRows(View(), rows)
    {
      var addresses := byAddress.Keys;
      rows := [];
      while addresses != {}
        invariant addresses <= byAddress.Keys
        invariant Distinct(rows)
        invariant forall row | row in rows :: row.address !in addresses
        invariant forall row | row in rows :: row.address in byAddress && byAddress[row.address] == row.target
        invariant forall a | a in byAddress && a !in addresses :: Row(a, byAddress[a]) in rows
        decreases |addresses|
      {
        var a :| a in addresses;
        addresses := addresses - {a};
        rows := rows + [Row(a, byAddress[a])];
      }
      SortRowsSorts(rows);
      ghost var unsorted := rows;
      rows := SortRows(rows);
      forall i | 0 <= i < |rows| ensures rows[i] in unsorted { assert rows[i] in rows; }
      forall a | a in byAddress ensures exists i :: 0 <= i < |rows| && rows[i].address == a {
        assert Row(a, byAddress[a]) in rows;
      }
    }

    /** The generations in Scene order, whatever order the map yields them in. */
    method Generations() returns (listed: seq<SceneGeneration>)
      ensures PersistentGenerations(View(), listed)
    {
      var scenes := generations.Keys;
      listed := [];
      while scenes != {}
        invariant scenes <= generations.Keys
        invariant ScenesDiffer(listed)
        invariant forall g | g in listed :: g.scene !in scenes
        invariant forall g | g in listed :: g.scene in generations && generations[g.scene] == g.generation
        invariant forall s | s in generations && s !in scenes :: SceneGeneration(s, generations[s]) in listed
        decreases |scenes|
      {
        var s :| s in scenes;
        scenes := scenes - {s};
        listed := listed + [SceneGeneration(s, generations[s])];
      }
      SortGenerationsSorts(listed);
      ghost var unsorted := listed;
      listed := SortGenerations(listed);
      forall i | 0 <= i < |listed| ensures listed[i] in unsorted { assert listed[i] in listed; }
      forall s | s in generations ensures exists i :: 0 <= i < |listed| && listed[i].scene == s {
        assert SceneGeneration(s, generations[s]) in listed;
      }
    }
  }

  /** One more index is refused, and then so is the list, or goes in. */
  lemma OneMoreIndex(indexes: seq<SceneIndex>, i: nat, l: Lookup, scenes: set<nat>)
    requires i < |indexes| && FromSceneIndexes(indexes[..i]) == Some(l)
    requires forall s :: s in scenes <==> HasScene(indexes[..i], s)
    ensures var index := indexes[i];
      if index.scene in scenes || !Validates(index) || !CacheLookup.InsertSceneIndex(l, index).ok
      then FromSceneIndexes(indexes).None?
      else
        && FromSceneIndexes(indexes[..i + 1]) == Some(CacheLookup.InsertSceneIndex(l, index).lookup)
        && forall s :: s in scenes + {index.scene} <==> HasScene(indexes[..i + 1], s)
  {
    var index := indexes[i];
    Next(indexes, i);
    if FromSceneIndexes(indexes[..i + 1]).None? { RefusalStops(indexes, i + 1); }
    assert indexes[..i + 1] == indexes[..i] + [index];
    forall s ensures s in scenes + {index.scene} <==> HasScene(indexes[..i + 1], s) {
      HasSceneInFront(indexes[..i], index, s);
    }
  }

  method BuildFromSceneIndexes(indexes: seq<SceneIndex>) returns (ok: bool, lookup: ProjectCacheLookup)
    ensures fresh(lookup)
    ensures ok <==> FromSceneIndexes(indexes).Some?
    ensures ok ==> lookup.View() == FromSceneIndexes(indexes).value
  {
    var scenes: set<nat> := {};
    lookup := new ProjectCacheLookup();
    for i := 0 to |indexes|
      invariant fresh(lookup)
      invariant FromSceneIndexes(indexes[..i]) == Some(lookup.View())
      invariant forall s :: s in scenes <==> HasScene(indexes[..i], s)
    {
      var index := indexes[i];
      OneMoreIndex(indexes, i, lookup.View(), scenes);
      if index.scene in scenes || !Validates(index) { return false, lookup; }
      scenes := scenes + {index.scene};
      ok := lookup.InsertSceneIndex(index);
      if !ok { return; }
    }
    assert indexes[..|indexes|] == indexes;
    return true, lookup;
  }

  method BuildFromPersistentRows(generations: seq<SceneGeneration>, rows: seq<Row>)
    returns (ok: bool, lookup: ProjectCacheLookup)
    ensures fresh(lookup)
    ensures ok <==> FromPersistentRows(generations, rows).Some?
    ensures ok ==> lookup.View() == FromPersistentRows(generations, rows).value
  {
    lookup := new ProjectCacheLookup();
    for i := 0 to |generations|
      invariant fresh(lookup)
      invariant lookup.View() == EMPTY.(generations := lookup.generations)
      invariant InsertGenerations(generations[..i]) == Some(lookup.generations)
    {
      Next(generations, i);
      if generations[i].scene in lookup.generations {
        DuplicateStops(generations, i + 1);
        return false, lookup;
      }
      lookup.generations := lookup.generations[generations[i].scene := generations[i].generation];
    }
    assert generations[..|generations|] == generations;
    ok := lookup.InsertAll(rows);
  }

  /** Building a lookup, writing it out, and reading it back: the loaded one is the built one. */
  method PublishAndLoad(indexes: seq<SceneIndex>) returns (ok: bool, loaded: ProjectCacheLookup)
    ensures ok <==> FromSceneIndexes(indexes).Some?
    ensures ok ==> loaded.View() == FromSceneIndexes(indexes).value
  {
    var built;
    ok, built := BuildFromSceneIndexes(indexes);
    if !ok { return false, built; }
    var generations := built.Generations();
    var rows := built.Rows();
    PersistenceRoundTrips(indexes, built.View(), generations, rows);
    ok, loaded := BuildFromPersistentRows(generations, rows);
  }
}
