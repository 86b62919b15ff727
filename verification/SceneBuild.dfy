/** Building a Scene index from a composed prim tree: which prims a Scene owns, the sorted rows, and the
    parent links that make them a forest. */
module SceneBuild {
  import opened Wrappers
  import opened SceneOrder
  import opened SceneCache

  datatype Prim = Prim(name: string, children: seq<Prim>)

  function ChildPath(parent: string, name: string): string {
    parent + "/" + name
  }

  /** The text before the last '/', or the empty text. */
  function ParentPath(path: string): string {
    if path == "" then ""
    else if path[|path| - 1] == '/' then path[..|path| - 1]
    else ParentPath(path[..|path| - 1])
  }

  predicate PlainName(name: string) {
    name != "" && '/' !in name
  }

  lemma {:induction false} ParentOfChild(parent: string, name: string)
    requires '/' !in name
    ensures ParentPath(ChildPath(parent, name)) == parent
    decreases |name|
  {
    var path := ChildPath(parent, name);
    if name == "" {
      assert path[..|path| - 1] == parent;
    } else {
      assert path[..|path| - 1] == ChildPath(parent, name[..|name| - 1]);
      assert path[|path| - 1] == name[|name| - 1];
      ParentOfChild(parent, name[..|name| - 1]);
    }
  }

  /** A parent path is a proper prefix, unless the path is empty. */
  lemma {:induction false} ParentIsProperPrefix(path: string)
    ensures path != "" ==> |ParentPath(path)| < |path|
    ensures ParentPath(path) == path[..|ParentPath(path)|]
    decreases |path|
  {
    if path != "" && path[|path| - 1] != '/' {
      ParentIsProperPrefix(path[..|path| - 1]);
      assert path[..|path| - 1][..|ParentPath(path)|] == path[..|ParentPath(path)|];
    }
  }

  lemma ParentSortsBefore(path: string)
    requires path != ""
    ensures StringLess(ParentPath(path), path)
  {
    ParentIsProperPrefix(path);
    PrefixIsLess(ParentPath(path), path[|ParentPath(path)|..]);
    assert path == ParentPath(path) + path[|ParentPath(path)|..];
  }

  /** The prim a chain of names leads to exists. */
  predicate HasPrim(children: seq<Prim>, names: seq<string>)
    decreases |names|
  {
    names == [] || exists child | child in children ::
      child.name == names[0] && HasPrim(child.children, names[1..])
  }

  function PathOf(parent: string, names: seq<string>): string
    decreases |names|
  {
    if names == [] then parent else PathOf(ChildPath(parent, names[0]), names[1..])
  }

  /** Neither the prim nor anything above it, up to the Scene root, is the root of a member. */
  predicate ClearOfMembers(parent: string, names: seq<string>, roots: set<string>) {
    forall k | 0 < k <= |names| :: PathOf(parent, names[..k]) !in roots
  }

  ghost predicate OwnedChain(children: seq<Prim>, parent: string, roots: set<string>, names: seq<string>) {
    names != [] && HasPrim(children, names) && ClearOfMembers(parent, names, roots)
  }

  ghost predicate IsOwnedPath(children: seq<Prim>, parent: string, roots: set<string>, path: string) {
    exists names :: OwnedChain(children, parent, roots, names) && PathOf(parent, names) == path
  }

  /** Prim names are plain and distinct among siblings, all the way down. */
  predicate WellNamed(children: seq<Prim>) {
    && (forall i | 0 <= i < |children| :: PlainName(children[i].name) && WellNamed(children[i].children))
    && (forall i, j | 0 <= i < j < |children| :: children[i].name != children[j].name)
  }

  lemma {:induction false} ChainIsPlain(children: seq<Prim>, names: seq<string>)
    requires WellNamed(children) && HasPrim(children, names)
    ensures forall name | name in names :: PlainName(name)
    decreases |names|
  {
    if names != [] {
      var child :| child in children && child.name == names[0] && HasPrim(child.children, names[1..]);
      ChainIsPlain(child.children, names[1..]);
      assert names == [names[0]] + names[1..];
    }
  }

  lemma {:induction false} PathOfLast(parent: string, names: seq<string>)
    requires names != []
    ensures PathOf(parent, names) == ChildPath(PathOf(parent, names[..|names| - 1]), names[|names| - 1])
    decreases |names|
  {
    if |names| > 1 {
      PathOfLast(ChildPath(parent, names[0]), names[1..]);
      assert names[1..][..|names| - 2] == names[..|names| - 1][1..];
    }
  }

  lemma {:induction false} PathOfGrows(parent: string, names: seq<string>)
    ensures |PathOf(parent, names)| >= |parent|
    ensures names != [] ==> |PathOf(parent, names)| > |parent|
    decreases |names|
  {
    if names != [] { PathOfGrows(ChildPath(parent, names[0]), names[1..]); }
  }

  /** A path names one prim: different chains of plain names give different paths. */
  lemma {:induction false} PathsAreUnambiguous(parent: string, a: seq<string>, b: seq<string>)
    requires forall name | name in a :: PlainName(name)
    requires forall name | name in b :: PlainName(name)
    requires PathOf(parent, a) == PathOf(parent, b)
    ensures a == b
    decreases |a|
  {
    PathOfGrows(parent, a);
    PathOfGrows(parent, b);
    if a != [] && b != [] {
      PathOfLast(parent, a);
      PathOfLast(parent, b);
      var (initA, lastA) := (a[..|a| - 1], a[|a| - 1]);
      var (initB, lastB) := (b[..|b| - 1], b[|b| - 1]);
      assert lastA in a && lastB in b;
      ParentOfChild(PathOf(parent, initA), lastA);
      ParentOfChild(PathOf(parent, initB), lastB);
      PathsAreUnambiguous(parent, initA, initB);
      var base := ChildPath(PathOf(parent, initA), "");
      assert lastA == PathOf(parent, a)[|base|..] == lastB;
      assert a == initA + [lastA] && b == initB + [lastB];
    }
  }

  /** The path is the root's, or one below it. */
  predicate AtOrBelow(root: string, path: string) {
    root <= path && (|root| == |path| || path[|root|] == '/')
  }

  /** Of plain names, what a path is at or below, itself longer than the start, is the path of a part of the chain. */
  lemma {:induction false} BelowIsPartOfChain(parent: string, names: seq<string>, root: string) returns (k: nat)
    requires forall name | name in names :: PlainName(name)
    requires |parent| < |root| && AtOrBelow(root, PathOf(parent, names))
    ensures 0 < k <= |names| && PathOf(parent, names[..k]) == root
    decreases |names|
  {
    assert names[..|names|] == names;
    if |root| == |PathOf(parent, names)| {
      k := |names|;
    } else {
      var front, last := names[..|names| - 1], names[|names| - 1];
      PathOfLast(parent, names);
      assert last in names;
      var init := PathOf(parent, front);
      forall i | |init| < i < |PathOf(parent, names)| ensures PathOf(parent, names)[i] != '/' {
        assert PathOf(parent, names)[i] == last[i - |init| - 1];
      }
      assert |root| <= |init|;
      assert root == PathOf(parent, names)[..|root|] == init[..|root|];
      k := BelowIsPartOfChain(parent, front, root);
      assert front[..k] == names[..k];
    }
  }

  lemma {:induction false} PartIsAbove(parent: string, names: seq<string>, k: nat)
    requires k <= |names|
    ensures AtOrBelow(PathOf(parent, names[..k]), PathOf(parent, names))
    decreases |names|
  {
    if k == |names| {
      assert names[..k] == names;
    } else {
      var front := names[..|names| - 1];
      PathOfLast(parent, names);
      PartIsAbove(parent, front, k);
      assert front[..k] == names[..k];
    }
  }

  /** A prim of the Scene is owned exactly if it is neither a member's root nor below one. */
  lemma OwnedExactlyOutsideMembers(children: seq<Prim>, parent: string, roots: set<string>, names: seq<string>)
    requires WellNamed(children) && names != [] && HasPrim(children, names)
    ensures IsOwnedPath(children, parent, roots, PathOf(parent, names)) <==>
            forall root | root in roots && |parent| < |root| :: !AtOrBelow(root, PathOf(parent, names))
  {
    ChainIsPlain(children, names);
    if IsOwnedPath(children, parent, roots, PathOf(parent, names)) {
      var chain :| OwnedChain(children, parent, roots, chain) && PathOf(parent, chain) == PathOf(parent, names);
      ChainIsPlain(children, chain);
      PathsAreUnambiguous(parent, chain, names);
      forall root | root in roots && |parent| < |root| ensures !AtOrBelow(root, PathOf(parent, names)) {
        if AtOrBelow(root, PathOf(parent, names)) { var k := BelowIsPartOfChain(parent, names, root); }
      }
    } else {
      assert !OwnedChain(children, parent, roots, names);
      var k :| 0 < k <= |names| && PathOf(parent, names[..k]) in roots;
      PartIsAbove(parent, names, k);
      PathOfGrows(parent, names[..k]);
    }
  }

  predicate DistinctPaths(paths: seq<string>) {
    forall i, j | 0 <= i < j < |paths| :: paths[i] != paths[j]
  }

  /** What a prim owns starts with its own name, so siblings of different names share no path. */
  lemma SiblingsShareNoPath(children: seq<Prim>, before: seq<Prim>, child: Prim, parent: string,
                            roots: set<string>, path: string)
    requires WellNamed(children) && child in children
    requires forall other | other in before :: other in children && other.name != child.name
    requires FromChild(child, parent, roots, path)
    ensures !IsOwnedPath(before, parent, roots, path)
  {
    ChildContributes([child], child, parent, roots, path);
    var own :| OwnedChain([child], parent, roots, own) && PathOf(parent, own) == path;
    assert WellNamed([child]);
    ChainIsPlain([child], own);
    forall names | OwnedChain(before, parent, roots, names) ensures PathOf(parent, names) != path {
      var other :| other in before && other.name == names[0] && HasPrim(other.children, names[1..]);
      assert HasPrim(children, names);
      ChainIsPlain(children, names);
      if PathOf(parent, names) == path { PathsAreUnambiguous(parent, names, own); }
    }
  }

  /** A child's own path, then the longer ones below it, none of them met before. */
  lemma FreshPathsStayDistinct(children: seq<Prim>, before: seq<Prim>, child: Prim, parent: string,
                               roots: set<string>, earlier: seq<string>, below: seq<string>)
    requires WellNamed(children) && child in children
    requires forall other | other in before :: other in children && other.name != child.name
    requires ChildPath(parent, child.name) !in roots
    requires DistinctPaths(earlier) && forall path | path in earlier :: IsOwnedPath(before, parent, roots, path)
    requires DistinctPaths(below)
    requires forall path | path in below ::
               IsOwnedPath(child.children, ChildPath(parent, child.name), roots, path)
    ensures DistinctPaths(earlier + [ChildPath(parent, child.name)] + below)
  {
    var own := ChildPath(parent, child.name);
    forall path | path in below ensures path != own {
      var names :| OwnedChain(child.children, own, roots, names) && PathOf(own, names) == path;
      PathOfGrows(own, names);
    }
    forall path | path in [own] + below ensures path !in earlier {
      SiblingsShareNoPath(children, before, child, parent, roots, path);
    }
    var all := earlier + [own] + below;
    forall i, j | 0 <= i < j < |all| ensures all[i] != all[j] {
      var n := |earlier|;
      if i < n <= j {
        assert all[i] in earlier && all[j] == ([own] + below)[j - n] && all[j] in [own] + below;
      } else if i == n {
        assert all[i] == own && all[j] == below[j - n - 1] && all[j] in below;
      } else if n < i {
        assert all[i] == below[i - n - 1] && all[j] == below[j - n - 1];
      }
    }
  }

  function InsertByName(prim: Prim, sorted: seq<Prim>): (r: seq<Prim>)
    ensures forall p :: p in r <==> p == prim || p in sorted
    ensures |r| == |sorted| + 1
  {
    if sorted == [] || StringLess(prim.name, sorted[0].name) then [prim] + sorted
    else [sorted[0]] + InsertByName(prim, sorted[1..])
  }

  function SortByName(children: seq<Prim>): (r: seq<Prim>)
    ensures forall p :: p in r <==> p in children
    ensures |r| == |children|
  {
    if children == [] then [] else InsertByName(children[0], SortByName(children[1..]))
  }

  /** Depth of a tree; recursion below follows it. */
  function Height(children: seq<Prim>): nat {
    if children == [] then 0
    else Max(1 + Height(children[0].children), Height(children[1..]))
  }

  lemma {:induction false} ChildIsLower(children: seq<Prim>, child: Prim)
    requires child in children
    ensures Height(child.children) < Height(children)
  {
    if child != children[0] { ChildIsLower(children[1..], child); }
  }

  lemma ClearStep(parent: string, names: seq<string>, roots: set<string>)
    requires names != []
    ensures ClearOfMembers(parent, names, roots) <==>
      ChildPath(parent, names[0]) !in roots && ClearOfMembers(ChildPath(parent, names[0]), names[1..], roots)
  {
    var path := ChildPath(parent, names[0]);
    forall k: nat | 0 < k <= |names|
      ensures PathOf(parent, names[..k]) == PathOf(path, names[1..][..k - 1])
    {
      assert names[..k][1..] == names[1..][..k - 1];
    }
    if ChildPath(parent, names[0]) !in roots && ClearOfMembers(path, names[1..], roots) {
      forall k | 0 < k <= |names| ensures PathOf(parent, names[..k]) !in roots {
        if k == 1 { assert names[1..][..0] == []; }
      }
    }
    if ClearOfMembers(parent, names, roots) {
      assert names[1..][..0] == [] && PathOf(parent, names[..1]) == path;
      forall k | 0 < k <= |names[1..]| ensures PathOf(path, names[1..][..k]) !in roots {
        assert PathOf(parent, names[..k + 1]) == PathOf(path, names[1..][..k]);
      }
    }
  }

  lemma {:induction false} InsertKeepsNames(prim: Prim, sorted: seq<Prim>)
    requires WellNamed(sorted) && PlainName(prim.name) && WellNamed(prim.children)
    requires forall other | other in sorted :: other.name != prim.name
    ensures WellNamed(InsertByName(prim, sorted))
  {
    if sorted != [] && !StringLess(prim.name, sorted[0].name) {
      InsertKeepsNames(prim, sorted[1..]);
      var rest := InsertByName(prim, sorted[1..]);
      forall i | 0 <= i < |rest| ensures rest[i].name != sorted[0].name {
        assert rest[i] in rest;
        assert rest[i] == prim || rest[i] in sorted[1..];
      }
    }
  }

  lemma {:induction false} SortKeepsNames(children: seq<Prim>)
    requires WellNamed(children)
    ensures WellNamed(SortByName(children))
  {
    if children != [] {
      SortKeepsNames(children[1..]);
      InsertKeepsNames(children[0], SortByName(children[1..]));
    }
  }

  /** What one child contributes: nothing at or below a member root, otherwise itself and what it owns below. */
  ghost predicate FromChild(child: Prim, parent: string, roots: set<string>, path: string) {
    var own := ChildPath(parent, child.name);
    own !in roots && (path == own || IsOwnedPath(child.children, own, roots, path))
  }

  lemma ChildContributes(children: seq<Prim>, child: Prim, parent: string, roots: set<string>, path: string)
    requires child in children && FromChild(child, parent, roots, path)
    ensures IsOwnedPath(children, parent, roots, path)
  {
    var own := ChildPath(parent, child.name);
    var below: seq<string>;
    if path == own {
      below := [];
    } else {
      below :| OwnedChain(child.children, own, roots, below) && PathOf(own, below) == path;
    }
    var names := [child.name] + below;
    assert names[1..] == below;
    ClearStep(parent, names, roots);
    assert ClearOfMembers(own, [], roots);
    assert HasPrim(children, names);
    assert OwnedChain(children, parent, roots, names);
    assert PathOf(parent, names) == PathOf(own, below) == path;
  }

  lemma ContributionComesFromChild(children: seq<Prim>, parent: string, roots: set<string>, path: string)
    returns (child: Prim)
    requires IsOwnedPath(children, parent, roots, path)
    ensures child in children && FromChild(child, parent, roots, path)
  {
    var names :| OwnedChain(children, parent, roots, names) && PathOf(parent, names) == path;
    child :| child in children && child.name == names[0] && HasPrim(child.children, names[1..]);
    ClearStep(parent, names, roots);
    var own := ChildPath(parent, child.name);
    assert PathOf(parent, names) == PathOf(own, names[1..]);
    if names[1..] == [] {
      assert path == own;
    } else {
      assert OwnedChain(child.children, own, roots, names[1..]);
    }
  }

  lemma OneMoreChild(children: seq<Prim>, child: Prim, parent: string, roots: set<string>, path: string)
    ensures IsOwnedPath(children + [child], parent, roots, path)
      <==> IsOwnedPath(children, parent, roots, path) || FromChild(child, parent, roots, path)
  {
    if IsOwnedPath(children + [child], parent, roots, path) {
      var from := ContributionComesFromChild(children + [child], parent, roots, path);
      if from in children { ChildContributes(children, from, parent, roots, path); }
    }
    if FromChild(child, parent, roots, path) {
      ChildContributes(children + [child], child, parent, roots, path);
    } else if IsOwnedPath(children, parent, roots, path) {
      var from := ContributionComesFromChild(children, parent, roots, path);
      ChildContributes(children + [child], from, parent, roots, path);
    }
  }

  lemma SameChildrenSamePaths(a: seq<Prim>, b: seq<Prim>, parent: string, roots: set<string>, path: string)
    requires forall child | child in a :: child in b
    requires IsOwnedPath(a, parent, roots, path)
    ensures IsOwnedPath(b, parent, roots, path)
  {
    var from := ContributionComesFromChild(a, parent, roots, path);
    ChildContributes(b, from, parent, roots, path);
  }

  /** Depth-first, siblings in path order, skipping member roots with everything below them. */
  method CollectOwnedPrimPaths(children: seq<Prim>, parent: string, roots: set<string>, out: seq<string>)
    returns (collected: seq<string>)
    ensures out <= collected
    ensures forall path :: path in collected[|out|..] <==> IsOwnedPath(children, parent, roots, path)
    ensures WellNamed(children) ==> DistinctPaths(collected[|out|..])
    decreases Height(children)
  {
    collected := out;
    var sorted := SortByName(children);
    if WellNamed(children) { SortKeepsNames(children); }
    for i := 0 to |sorted|
      invariant out <= collected
      invariant forall path :: path in collected[|out|..] <==> IsOwnedPath(sorted[..i], parent, roots, path)
      invariant WellNamed(children) ==> DistinctPaths(collected[|out|..])
    {
      var child := sorted[i];
      assert child in children;
      var path := ChildPath(parent, child.name);
      ghost var before := collected;
      if path !in roots {
        ChildIsLower(children, child);
        collected := collected + [path];
        ghost var base := collected;
        collected := CollectOwnedPrimPaths(child.children, path, roots, collected);
        assert collected[|out|..] == before[|out|..] + [path] + collected[|base|..];
        if WellNamed(children) {
          assert WellNamed(child.children);
          FreshPathsStayDistinct(sorted, sorted[..i], child, parent, roots, before[|out|..], collected[|base|..]);
        }
      }
      forall p: string
        ensures p in collected[|out|..] <==> IsOwnedPath(sorted[..i + 1], parent, roots, p)
      {
        OneMoreChild(sorted[..i], child, parent, roots, p);
        assert sorted[..i + 1] == sorted[..i] + [child];
      }
    }
    assert sorted[..|sorted|] == sorted;
    forall path: string
      ensures IsOwnedPath(sorted, parent, roots, path) <==> IsOwnedPath(children, parent, roots, path)
    {
      if IsOwnedPath(sorted, parent, roots, path) {
        SameChildrenSamePaths(sorted, children, parent, roots, path);
      }
      if IsOwnedPath(children, parent, roots, path) {
        SameChildrenSamePaths(children, sorted, parent, roots, path);
      }
    }
  }

  /** The last row owning a prim path. */
  function PathIndex(entries: seq<Entry>, path: string): (index: Option<nat>)
    ensures index.Some? ==> index.value < |entries| && entries[index.value].kind == OwnedPrim(path)
    ensures index.None? <==> forall entry | entry in entries :: entry.kind != OwnedPrim(path)
    ensures index.Some? ==> forall k | index.value < k < |entries| :: entries[k].kind != OwnedPrim(path)
  {
    if entries == [] then None
    else
      var last := |entries| - 1;
      if entries[last].kind == OwnedPrim(path) then Some(last) else PathIndex(entries[..last], path)
  }

  function Parented(entries: seq<Entry>, entry: Entry): Entry {
    if entry.kind.OwnedPrim? then entry.(parent := PathIndex(entries, ParentPath(entry.kind.primPath))) else entry
  }

  function AssignParents(entries: seq<Entry>): (r: seq<Entry>)
    ensures |r| == |entries|
    ensures forall i | 0 <= i < |entries| :: r[i] == Parented(entries, entries[i])
  {
    seq(|entries|, i requires 0 <= i < |entries| => Parented(entries, entries[i]))
  }

  /** A map that gives every owned path its row. */
  ghost predicate IndexesPaths(indexes: map<string, nat>, entries: seq<Entry>) {
    forall path :: PathIndex(entries, path) == if path in indexes then Some(indexes[path]) else None
  }

  lemma OneMoreRowIndexed(indexes: map<string, nat>, entries: seq<Entry>, i: nat)
    requires i < |entries| && IndexesPaths(indexes, entries[..i])
    ensures entries[i].kind.OwnedPrim? ==>
              IndexesPaths(indexes[entries[i].kind.primPath := i], entries[..i + 1])
    ensures !entries[i].kind.OwnedPrim? ==> IndexesPaths(indexes, entries[..i + 1])
  {
    assert entries[..i + 1][..i] == entries[..i];
  }

  /** In place: first a map from owned path to row, then one assignment per owned row. */
  method AssignParentIndexes(entries: array<Entry>)
    modifies entries
    ensures entries[..] == AssignParents(old(entries[..]))
  {
    ghost var before := entries[..];
    var pathIndexes: map<string, nat> := map[];
    for i := 0 to entries.Length
      invariant entries[..] == before
      invariant IndexesPaths(pathIndexes, before[..i])
    {
      OneMoreRowIndexed(pathIndexes, before, i);
      if entries[i].kind.OwnedPrim? {
        pathIndexes := pathIndexes[entries[i].kind.primPath := i];
      }
    }
    assert before[..entries.Length] == before;
    for i := 0 to entries.Length
      invariant forall k | 0 <= k < i :: entries[k] == Parented(before, before[k])
      invariant forall k | i <= k < entries.Length :: entries[k] == before[k]
    {
      var entry := entries[i];
      if entry.kind.OwnedPrim? {
        var parent := ParentPath(entry.kind.primPath);
        entries[i] := entry.(parent := if parent in pathIndexes then Some(pathIndexes[parent]) else None);
      }
    }
  }

  /** The rows with bounds, in row order. */
  function SpatialEntries(entries: seq<Entry>): (r: seq<SpatialEntry>)
    ensures forall s | s in r :: exists entry | entry in entries :: s.address == entry.address
  {
    if entries == [] then []
    else
      var rest := SpatialEntries(entries[..|entries| - 1]);
      var last := entries[|entries| - 1];
      if last.bounds.Some? then rest + [SpatialEntry(last.address, last.bounds.value)] else rest
  }

  function BuildSpatialIndex(index: SceneIndex): SpatialIndex {
    SpatialIndex(SPATIAL_SCHEMA_VERSION, index.scene, index.generation, SpatialEntries(index.entries))
  }

  lemma AppendKeepsOrder(entries: seq<SpatialEntry>, last: SpatialEntry)
    requires SpatiallyOrdered(entries)
    requires entries != [] ==> AddressLess(entries[|entries| - 1].address, last.address)
    ensures SpatiallyOrdered(entries + [last])
  {
    forall i | 0 < i < |entries + [last]|
      ensures AddressLess((entries + [last])[i - 1].address, (entries + [last])[i].address)
    {
      if i < |entries| { assert AddressLess(entries[i - 1].address, entries[i].address); }
    }
  }

  lemma EarlierSpatialRowsSortBefore(entries: seq<Entry>, row: SpatialEntry)
    requires entries != [] && StrictlyOrdered(entries)
    requires row in SpatialEntries(entries[..|entries| - 1])
    ensures AddressLess(row.address, entries[|entries| - 1].address)
  {
    var init := entries[..|entries| - 1];
    var entry :| entry in init && row.address == entry.address;
    var k :| 0 <= k < |init| && init[k] == entry;
    OrderedAtAnyDistance(entries, k, |entries| - 1);
  }

  lemma {:induction false} SpatialEntriesAreOrdered(entries: seq<Entry>)
    requires StrictlyOrdered(entries)
    ensures SpatiallyOrdered(SpatialEntries(entries))
  {
    if entries != [] {
      var init, last := entries[..|entries| - 1], entries[|entries| - 1];
      SpatialEntriesAreOrdered(init);
      var rest := SpatialEntries(init);
      if last.bounds.Some? {
        if rest != [] { EarlierSpatialRowsSortBefore(entries, rest[|rest| - 1]); }
        AppendKeepsOrder(rest, SpatialEntry(last.address, last.bounds.value));
      }
    }
  }

  /** The spatial index of a valid index validates. */
  lemma SpatialIndexIsValid(index: SceneIndex, scene: nat, generation: nat)
    requires ValidIndex(index, scene, generation)
    ensures ValidSpatial(BuildSpatialIndex(index), scene, generation)
  {
    forall entry | entry in index.entries ensures entry.address.scene == scene {
      var i :| 0 <= i < |index.entries| && index.entries[i] == entry;
      assert ValidEntry(index, i);
    }
    SpatialEntriesAreOrdered(index.entries);
    var rows := SpatialEntries(index.entries);
    forall i | 0 <= i < |rows| ensures rows[i].address.scene == scene {
      assert rows[i] in rows;
    }
  }

  /** Assigning parents changes nothing else and never breaks an index: a path is not its own parent. */
  lemma ParentsKeepIndexValid(index: SceneIndex, scene: nat, generation: nat)
    requires ValidIndex(index, scene, generation)
    requires forall entry | entry in index.entries :: entry.kind.OwnedPrim? ==> entry.kind.primPath != ""
    ensures ValidIndex(index.(entries := AssignParents(index.entries)), scene, generation)
  {
    var after := index.(entries := AssignParents(index.entries));
    forall i | 0 <= i < |after.entries| ensures ValidEntry(after, i) {
      assert ValidEntry(index, i) && index.entries[i] in index.entries;
      var entry := index.entries[i];
      if entry.kind.OwnedPrim? { ParentIsProperPrefix(entry.kind.primPath); }
    }
    forall i | 0 < i < |after.entries| ensures AddressLess(after.entries[i - 1].address, after.entries[i].address) {
      assert AddressLess(index.entries[i - 1].address, index.entries[i].address);
    }
  }

  datatype MemberTarget = SceneMemberTarget(scene: nat) | ModelMemberTarget(model: nat)

  datatype SceneMember = SceneMember(id: nat, target: MemberTarget, transform: nat)

  /** What extraction found out about one owned prim. */
  datatype PrimFacts = PrimFacts(
    transform: nat,
    bounds: Option<nat>,
    bimEnabled: bool,
    semanticKey: Option<string>,
    geometry: Option<BlobRef>,
    material: Option<BlobRef>,
    animation: Option<BlobRef>)

  function MemberEntry(scene: nat, member: SceneMember): Entry {
    var kind := match member.target
      case SceneMemberTarget(child) => ChildScene(child, member.id)
      case ModelMemberTarget(model) => ChildModel(model, member.id);
    Entry(Address(scene, Member(member.id)), None, member.transform, None, false, false, None, None, None, None, kind,
          None)
  }

  function OwnedEntry(scene: nat, path: string, facts: PrimFacts): Entry {
    var hash := if facts.geometry.Some? && facts.geometry.value.blob.Hex?
                then Some(facts.geometry.value.blob.digest) else None;
    Entry(Address(scene, PrimPath(path)), None, facts.transform, facts.bounds, facts.geometry.Some?,
          facts.bimEnabled, facts.geometry, facts.material, facts.animation, facts.semanticKey, OwnedPrim(path), hash)
  }

  /** One row per member, then one per owned path. */
  function UnsortedEntries(scene: nat, members: seq<SceneMember>, paths: seq<string>,
                           facts: string -> PrimFacts): seq<Entry> {
    seq(|members|, i requires 0 <= i < |members| => MemberEntry(scene, members[i]))
    + seq(|paths|, i requires 0 <= i < |paths| => OwnedEntry(scene, paths[i], facts(paths[i])))
  }

  function InsertEntry(entry: Entry, sorted: seq<Entry>): (r: seq<Entry>)
    ensures multiset(r) == multiset(sorted) + multiset{entry}
  {
    if sorted == [] || !AddressLess(sorted[0].address, entry.address) then [entry] + sorted
    else
      assert sorted == [sorted[0]] + sorted[1..];
      [sorted[0]] + InsertEntry(entry, sorted[1..])
  }

  function SortByAddress(entries: seq<Entry>): (r: seq<Entry>)
    ensures multiset(r) == multiset(entries)
  {
    if entries == [] then []
    else
      assert entries == [entries[0]] + entries[1..];
      InsertEntry(entries[0], SortByAddress(entries[1..]))
  }

  predicate DistinctAddresses(entries: seq<Entry>) {
    forall i, j | 0 <= i < j < |entries| :: entries[i].address != entries[j].address
  }

  lemma {:induction false} InsertKeepsOrder(entry: Entry, sorted: seq<Entry>)
    requires StrictlyOrdered(sorted) && forall other | other in sorted :: other.address != entry.address
    ensures StrictlyOrdered(InsertEntry(entry, sorted))
    ensures sorted != [] ==> InsertEntry(entry, sorted)[0] == entry || InsertEntry(entry, sorted)[0] == sorted[0]
    ensures sorted == [] ==> InsertEntry(entry, sorted)[0] == entry
  {
    if sorted == [] {
    } else if !AddressLess(sorted[0].address, entry.address) {
      AddressLessIsTotal(entry.address, sorted[0].address);
      var r := [entry] + sorted;
      forall i | 0 < i < |r| ensures AddressLess(r[i - 1].address, r[i].address) {
        if i > 1 { assert AddressLess(sorted[i - 2].address, sorted[i - 1].address); }
      }
    } else {
      var tail := sorted[1..];
      forall i | 0 < i < |tail| ensures AddressLess(tail[i - 1].address, tail[i].address) {
        assert AddressLess(sorted[i].address, sorted[i + 1].address);
      }
      InsertKeepsOrder(entry, tail);
      var rest := InsertEntry(entry, tail);
      if tail != [] { assert AddressLess(sorted[0].address, sorted[1].address); }
      var r := [sorted[0]] + rest;
      forall i | 0 < i < |r| ensures AddressLess(r[i - 1].address, r[i].address) {
        if i > 1 { assert AddressLess(rest[i - 2].address, rest[i - 1].address); }
      }
    }
  }

  lemma {:induction false} SortOrders(entries: seq<Entry>)
    requires DistinctAddresses(entries)
    ensures StrictlyOrdered(SortByAddress(entries))
  {
    if entries != [] {
      SortOrders(entries[1..]);
      var sorted := SortByAddress(entries[1..]);
      forall other | other in sorted ensures other.address != entries[0].address {
        assert other in multiset(sorted) && other in entries[1..];
      }
      InsertKeepsOrder(entries[0], sorted);
    }
  }

  /** A sort of rows already in order moves nothing. */
  lemma {:induction false} SortKeepsSorted(entries: seq<Entry>)
    requires StrictlyOrdered(entries)
    ensures SortByAddress(entries) == entries
  {
    if entries != [] {
      forall i | 0 < i < |entries[1..]| ensures AddressLess(entries[1..][i - 1].address, entries[1..][i].address) {
        assert AddressLess(entries[i].address, entries[i + 1].address);
      }
      SortKeepsSorted(entries[1..]);
      if |entries| > 1 {
        assert AddressLess(entries[0].address, entries[1].address);
        AddressLessIsAsymmetric(entries[0].address, entries[1].address);
      }
    }
  }

  lemma AddressLessIsAsymmetric(a: Address, b: Address)
    requires AddressLess(a, b)
    ensures !AddressLess(b, a)
  {
    if AddressLess(b, a) { AddressLessIsTransitive(a, b, a); }
    AddressLessIsIrreflexive(a);
  }

  /** The rows with one address. */
  function RowsAt(entries: seq<Entry>, address: Address): seq<Entry> {
    if entries == [] then []
    else (if entries[0].address == address then [entries[0]] else []) + RowsAt(entries[1..], address)
  }

  lemma RowsAtStart(entry: Entry, entries: seq<Entry>, address: Address)
    ensures RowsAt([entry] + entries, address)
            == (if entry.address == address then [entry] else []) + RowsAt(entries, address)
  {
    assert ([entry] + entries)[1..] == entries;
  }

  lemma {:induction false} InsertIsStable(entry: Entry, sorted: seq<Entry>, address: Address)
    ensures RowsAt(InsertEntry(entry, sorted), address) == RowsAt([entry] + sorted, address)
  {
    if sorted != [] && AddressLess(sorted[0].address, entry.address) {
      AddressLessIsIrreflexive(entry.address);
      assert sorted[0].address != entry.address;
      InsertIsStable(entry, sorted[1..], address);
      RowsAtStart(sorted[0], InsertEntry(entry, sorted[1..]), address);
      RowsAtStart(entry, sorted[1..], address);
      RowsAtStart(entry, sorted, address);
    }
  }

  /** The sort is stable: rows of one address keep their order. */
  lemma {:induction false} SortIsStable(entries: seq<Entry>, address: Address)
    ensures RowsAt(SortByAddress(entries), address) == RowsAt(entries, address)
  {
    if entries != [] {
      InsertIsStable(entries[0], SortByAddress(entries[1..]), address);
      RowsAtStart(entries[0], SortByAddress(entries[1..]), address);
      SortIsStable(entries[1..], address);
    }
  }

  datatype BuildError = MalformedBlob | InvalidIndex

  function BuildSceneCacheIndex(scene: nat, generation: nat, members: seq<SceneMember>, paths: seq<string>,
                                facts: string -> PrimFacts): Result<(SceneIndex, SpatialIndex), BuildError>
  {
    if exists path | path in paths :: facts(path).geometry.Some? && facts(path).geometry.value.blob.Malformed? then
      Err(MalformedBlob)
    else
      var entries := AssignParents(SortByAddress(UnsortedEntries(scene, members, paths, facts)));
      var index := SceneIndex(INDEX_SCHEMA_VERSION, scene, generation, entries);
      var spatial := BuildSpatialIndex(index);
      if ValidIndex(index, scene, generation) && ValidSpatial(spatial, scene, generation)
      then Ok((index, spatial)) else Err(InvalidIndex)
  }

  /** The row at `i` owns a prim, and its parent link is what the tree says. */
  predicate ParentLink(entries: seq<Entry>, i: nat)
    requires i < |entries|
  {
    var entry := entries[i];
    match entry.kind
    case OwnedPrim(path) =>
      && entry.address.occurrence == PrimPath(path)
      && (entry.parent.Some? ==>
            entry.parent.value < i && entries[entry.parent.value].kind == OwnedPrim(ParentPath(path)))
      && (entry.parent.None? ==> forall other | other in entries :: other.kind != OwnedPrim(ParentPath(path)))
    case _ => entry.parent.None?
  }

  predicate DistinctMembers(members: seq<SceneMember>) {
    forall i, j | 0 <= i < j < |members| :: members[i].id != members[j].id
  }

  predicate CarriesItsHash(entry: Entry)
    requires entry.geometry.Some?
  {
    && entry.cacheable && entry.geometry.value.blob.Hex?
    && entry.contentHash == Some(entry.geometry.value.blob.digest)
  }

  /** How every row of a build looks before parents are assigned. */
  predicate BuiltRow(scene: nat, entry: Entry) {
    && entry.address.scene == scene && entry.parent.None?
    && (entry.geometry.Some? ==> CarriesItsHash(entry))
    && (entry.kind.OwnedPrim? ==>
          entry.address.occurrence == PrimPath(entry.kind.primPath) && entry.kind.primPath != "")
  }

  lemma UnsortedRows(scene: nat, members: seq<SceneMember>, paths: seq<string>, facts: string -> PrimFacts)
    requires DistinctMembers(members) && DistinctPaths(paths) && "" !in paths
    requires forall path | path in paths :: facts(path).geometry.Some? ==> facts(path).geometry.value.blob.Hex?
    ensures DistinctAddresses(UnsortedEntries(scene, members, paths, facts))
    ensures forall entry | entry in UnsortedEntries(scene, members, paths, facts) :: BuiltRow(scene, entry)
  {
    var rows := UnsortedEntries(scene, members, paths, facts);
    forall i | 0 <= i < |rows| ensures BuiltRow(scene, rows[i]) {
      if i >= |members| { assert paths[i - |members|] in paths; }
    }
  }

  lemma SortedRows(scene: nat, members: seq<SceneMember>, paths: seq<string>, facts: string -> PrimFacts)
    requires DistinctMembers(members) && DistinctPaths(paths) && "" !in paths
    requires forall path | path in paths :: facts(path).geometry.Some? ==> facts(path).geometry.value.blob.Hex?
    ensures var sorted := SortByAddress(UnsortedEntries(scene, members, paths, facts));
      && StrictlyOrdered(sorted)
      && forall entry | entry in sorted :: BuiltRow(scene, entry)
  {
    UnsortedRows(scene, members, paths, facts);
    SortOrders(UnsortedEntries(scene, members, paths, facts));
    var unsorted := UnsortedEntries(scene, members, paths, facts);
    forall entry | entry in SortByAddress(unsorted) ensures BuiltRow(scene, entry) {
      assert entry in multiset(SortByAddress(unsorted)) && entry in unsorted;
    }
  }

  /** In a sorted index a parent sits before its child, because its path is a proper prefix. */
  lemma ParentSitsBefore(entries: seq<Entry>, i: nat, j: nat, scene: nat)
    requires StrictlyOrdered(entries) && i < |entries| && j < |entries|
    requires BuiltRow(scene, entries[i]) && BuiltRow(scene, entries[j])
    requires entries[i].kind.OwnedPrim? && entries[j].kind == OwnedPrim(ParentPath(entries[i].kind.primPath))
    ensures j < i
  {
    var path := entries[i].kind.primPath;
    ParentSortsBefore(path);
    ParentIsProperPrefix(path);
    if i < j {
      OrderedAtAnyDistance(entries, i, j);
      StringLessIsTransitive(ParentPath(path), path, ParentPath(path));
      StringLessIsIrreflexive(ParentPath(path));
    }
  }

  /** A build always validates: one row per member and owned path in strict address order, and parent links
      that point to an earlier row owning the parent path whenever there is one. So the rows are a forest. */
  lemma BuiltIndexIsAForest(scene: nat, generation: nat, members: seq<SceneMember>, paths: seq<string>,
                            facts: string -> PrimFacts)
    requires DistinctMembers(members) && DistinctPaths(paths) && "" !in paths
    requires forall path | path in paths :: facts(path).geometry.Some? ==> facts(path).geometry.value.blob.Hex?
    ensures var built := BuildSceneCacheIndex(scene, generation, members, paths, facts);
      && built.Ok?
      && var (index, spatial) := built.value;
      && ValidIndex(index, scene, generation) && ValidSpatial(spatial, scene, generation)
      && |index.entries| == |members| + |paths|
      && forall i | 0 <= i < |index.entries| :: ParentLink(index.entries, i)
  {
    SortedRows(scene, members, paths, facts);
    var sorted := SortByAddress(UnsortedEntries(scene, members, paths, facts));
    var before := SceneIndex(INDEX_SCHEMA_VERSION, scene, generation, sorted);
    forall i | 0 <= i < |sorted| ensures ValidEntry(before, i) {
      assert BuiltRow(scene, sorted[i]);
    }
    ParentsKeepIndexValid(before, scene, generation);
    var entries := AssignParents(sorted);
    SpatialIndexIsValid(before.(entries := entries), scene, generation);
    assert |sorted| == |multiset(sorted)| == |members| + |paths|;
    forall i | 0 <= i < |entries| ensures ParentLink(entries, i) {
      LinkFollowsTree(scene, sorted, i);
    }
  }

  lemma LinkFollowsTree(scene: nat, sorted: seq<Entry>, i: nat)
    requires StrictlyOrdered(sorted) && i < |sorted|
    requires forall entry | entry in sorted :: BuiltRow(scene, entry)
    ensures ParentLink(AssignParents(sorted), i)
  {
    var entries := AssignParents(sorted);
    assert entries[i] == Parented(sorted, sorted[i]) && BuiltRow(scene, sorted[i]);
    if sorted[i].kind.OwnedPrim? {
      var parent := PathIndex(sorted, ParentPath(sorted[i].kind.primPath));
      if parent.Some? {
        ParentSitsBefore(sorted, i, parent.value, scene);
        assert entries[parent.value].kind == sorted[parent.value].kind;
      } else {
        forall other | other in entries ensures other.kind != OwnedPrim(ParentPath(sorted[i].kind.primPath)) {
          var k :| 0 <= k < |entries| && entries[k] == other;
          assert other.kind == sorted[k].kind && sorted[k] in sorted;
        }
      }
    }
  }

  /** A row with everything that extraction found out about its prim. */
  predicate CarriesFacts(scene: nat, row: Entry, path: string, facts: PrimFacts) {
    && row.kind == OwnedPrim(path) && row.address == Address(scene, PrimPath(path))
    && row.transform == facts.transform && row.bounds == facts.bounds && row.bimEnabled == facts.bimEnabled
    && row.geometry == facts.geometry && row.material == facts.material && row.animation == facts.animation
    && row.semanticKey == facts.semanticKey
    && (row.cacheable <==> facts.geometry.Some?)
    && (facts.geometry.Some? ==> row.contentHash.Some? && facts.geometry.value.blob == Hex(row.contentHash.value))
    && (facts.geometry.None? ==> row.contentHash.None?)
  }

  /** A row that stands for a member: its place and its transform, and nothing to draw. */
  predicate CarriesMember(scene: nat, row: Entry, member: SceneMember) {
    && row.address == Address(scene, Member(member.id)) && row.transform == member.transform
    && (match member.target
        case SceneMemberTarget(child) => row.kind == ChildScene(child, member.id)
        case ModelMemberTarget(model) => row.kind == ChildModel(model, member.id))
    && !row.cacheable && !row.bimEnabled && row.bounds.None? && row.geometry.None? && row.material.None?
    && row.animation.None? && row.semanticKey.None? && row.contentHash.None?
  }

  ghost predicate CarriesItsSource(scene: nat, row: Entry, members: seq<SceneMember>, facts: string -> PrimFacts) {
    match row.kind
    case OwnedPrim(path) => CarriesFacts(scene, row, path, facts(path))
    case _ => exists member | member in members :: CarriesMember(scene, row, member)
  }

  lemma LinkedRowCarries(scene: nat, row: Entry, parent: Option<nat>, members: seq<SceneMember>,
                         facts: string -> PrimFacts)
    requires CarriesItsSource(scene, row, members, facts)
    ensures CarriesItsSource(scene, row.(parent := parent), members, facts)
  {
    if !row.kind.OwnedPrim? {
      var member :| member in members && CarriesMember(scene, row, member);
      assert CarriesMember(scene, row.(parent := parent), member);
    }
  }

  lemma UnsortedRowCarries(scene: nat, members: seq<SceneMember>, paths: seq<string>, facts: string -> PrimFacts,
                           row: Entry)
    requires forall path :: facts(path).geometry.Some? ==> facts(path).geometry.value.blob.Hex?
    requires row in UnsortedEntries(scene, members, paths, facts)
    ensures CarriesItsSource(scene, row, members, facts)
  {
    var rows := UnsortedEntries(scene, members, paths, facts);
    var i :| 0 <= i < |rows| && rows[i] == row;
    if i < |members| {
      assert members[i] in members && CarriesMember(scene, row, members[i]);
    } else {
      assert CarriesFacts(scene, row, paths[i - |members|], facts(paths[i - |members|]));
    }
  }

  lemma BuiltRowCarries(scene: nat, members: seq<SceneMember>, paths: seq<string>, facts: string -> PrimFacts, k: nat)
    requires forall path :: facts(path).geometry.Some? ==> facts(path).geometry.value.blob.Hex?
    requires k < |SortByAddress(UnsortedEntries(scene, members, paths, facts))|
    ensures var sorted := SortByAddress(UnsortedEntries(scene, members, paths, facts));
      CarriesItsSource(scene, AssignParents(sorted)[k], members, facts)
  {
    var unsorted := UnsortedEntries(scene, members, paths, facts);
    var sorted := SortByAddress(unsorted);
    SortedRowWasThere(unsorted, sorted[k]);
    UnsortedRowCarries(scene, members, paths, facts, sorted[k]);
    LinkedRowCarries(scene, sorted[k], AssignParents(sorted)[k].parent, members, facts);
  }

  lemma MemberHasRow(scene: nat, members: seq<SceneMember>, paths: seq<string>, facts: string -> PrimFacts,
                     member: SceneMember)
    requires member in members
    ensures exists row | row in AssignParents(SortByAddress(UnsortedEntries(scene, members, paths, facts))) ::
              CarriesMember(scene, row, member)
  {
    var unsorted := UnsortedEntries(scene, members, paths, facts);
    var sorted := SortByAddress(unsorted);
    var i :| 0 <= i < |members| && members[i] == member;
    var row := unsorted[i];
    assert row in multiset(unsorted) && row in sorted;
    var k :| 0 <= k < |sorted| && sorted[k] == row;
    assert CarriesMember(scene, AssignParents(sorted)[k], member);
  }

  /** The owned paths named by an index. */
  ghost predicate OwnsExactly(entries: seq<Entry>, children: seq<Prim>, roots: set<string>) {
    forall path :: (exists entry | entry in entries :: entry.kind == OwnedPrim(path))
      <==> IsOwnedPath(children, "/SceneRoot", roots, path)
  }

  /** From a composed tree to a published pair: the index is a sorted forest that owns exactly the prims with no
      member root at or above them. */
  method BuildFromStage(scene: nat, generation: nat, children: seq<Prim>, roots: set<string>,
                        members: seq<SceneMember>, facts: string -> PrimFacts)
    returns (built: Result<(SceneIndex, SpatialIndex), BuildError>)
    requires WellNamed(children) && DistinctMembers(members)
    requires forall path :: facts(path).geometry.Some? ==> facts(path).geometry.value.blob.Hex?
    ensures built.Ok?
    ensures ValidIndex(built.value.0, scene, generation) && ValidSpatial(built.value.1, scene, generation)
    ensures forall i | 0 <= i < |built.value.0.entries| :: ParentLink(built.value.0.entries, i)
    ensures OwnsExactly(built.value.0.entries, children, roots)
    ensures forall row | row in built.value.0.entries :: CarriesItsSource(scene, row, members, facts)
    ensures forall member | member in members ::
              exists row | row in built.value.0.entries :: CarriesMember(scene, row, member)
    ensures built.value.1 == BuildSpatialIndex(built.value.0)
  {
    var paths := CollectOwnedPrimPaths(children, "/SceneRoot", roots, []);
    assert paths[0..] == paths;
    forall path | path in paths ensures path != "" {
      var names :| OwnedChain(children, "/SceneRoot", roots, names) && PathOf("/SceneRoot", names) == path;
      PathOfGrows("/SceneRoot", names);
    }
    built := BuildSceneCacheIndex(scene, generation, members, paths, facts);
    BuiltIndexIsAForest(scene, generation, members, paths, facts);
    forall path: string
      ensures path in paths <==> exists entry | entry in built.value.0.entries :: entry.kind == OwnedPrim(path)
    {
      OwnedRowsArePaths(scene, generation, members, paths, facts, path);
    }
    BuiltRowsCarry(scene, generation, members, paths, facts);
  }

  lemma BuiltRowsCarry(scene: nat, generation: nat, members: seq<SceneMember>, paths: seq<string>,
                       facts: string -> PrimFacts)
    requires forall path :: facts(path).geometry.Some? ==> facts(path).geometry.value.blob.Hex?
    requires BuildSceneCacheIndex(scene, generation, members, paths, facts).Ok?
    ensures var rows := BuildSceneCacheIndex(scene, generation, members, paths, facts).value.0.entries;
      && (forall row | row in rows :: CarriesItsSource(scene, row, members, facts))
      && (forall member | member in members :: exists row | row in rows :: CarriesMember(scene, row, member))
  {
    var rows := BuildSceneCacheIndex(scene, generation, members, paths, facts).value.0.entries;
    forall row | row in rows ensures CarriesItsSource(scene, row, members, facts) {
      var k :| 0 <= k < |rows| && rows[k] == row;
      BuiltRowCarries(scene, members, paths, facts, k);
    }
    forall member | member in members ensures exists row | row in rows :: CarriesMember(scene, row, member) {
      MemberHasRow(scene, members, paths, facts, member);
    }
  }

  lemma OwnedRowsArePaths(scene: nat, generation: nat, members: seq<SceneMember>, paths: seq<string>,
                          facts: string -> PrimFacts, path: string)
    requires BuildSceneCacheIndex(scene, generation, members, paths, facts).Ok?
    ensures path in paths <==>
      exists entry | entry in BuildSceneCacheIndex(scene, generation, members, paths, facts).value.0.entries ::
        entry.kind == OwnedPrim(path)
  {
    var entries := AssignParents(SortByAddress(UnsortedEntries(scene, members, paths, facts)));
    if path in paths {
      PathHasRow(scene, members, paths, facts, path);
    }
    if entry :| entry in entries && entry.kind == OwnedPrim(path) {
      RowHasPath(scene, members, paths, facts, entry, path);
    }
  }

  lemma PathHasRow(scene: nat, members: seq<SceneMember>, paths: seq<string>, facts: string -> PrimFacts, path: string)
    requires path in paths
    ensures exists entry | entry in AssignParents(SortByAddress(UnsortedEntries(scene, members, paths, facts))) ::
              entry.kind == OwnedPrim(path)
  {
    var unsorted := UnsortedEntries(scene, members, paths, facts);
    var sorted := SortByAddress(unsorted);
    var i :| 0 <= i < |paths| && paths[i] == path;
    var row := unsorted[|members| + i];
    assert row in multiset(unsorted) && row in sorted;
    var k :| 0 <= k < |sorted| && sorted[k] == row;
    assert AssignParents(sorted)[k].kind == OwnedPrim(path);
  }

  lemma RowHasPath(scene: nat, members: seq<SceneMember>, paths: seq<string>, facts: string -> PrimFacts,
                   entry: Entry, path: string)
    requires entry in AssignParents(SortByAddress(UnsortedEntries(scene, members, paths, facts)))
    requires entry.kind == OwnedPrim(path)
    ensures path in paths
  {
    var unsorted := UnsortedEntries(scene, members, paths, facts);
    KindComesFromRow(unsorted, entry);
    var i :| 0 <= i < |unsorted| && unsorted[i].kind == entry.kind;
    assert i >= |members|;
  }

  /** Sorting and linking change no row's kind. */
  lemma KindComesFromRow(unsorted: seq<Entry>, entry: Entry)
    requires entry in AssignParents(SortByAddress(unsorted))
    ensures exists i :: 0 <= i < |unsorted| && unsorted[i].kind == entry.kind
  {
    var sorted := SortByAddress(unsorted);
    var k :| 0 <= k < |sorted| && AssignParents(sorted)[k] == entry;
    ParentKeepsKind(sorted, k);
    SortedRowWasThere(unsorted, sorted[k]);
    var i :| 0 <= i < |unsorted| && unsorted[i] == sorted[k];
  }

  lemma ParentKeepsKind(entries: seq<Entry>, k: nat)
    requires k < |entries|
    ensures AssignParents(entries)[k].kind == entries[k].kind
  {
  }

  lemma SortedRowWasThere(unsorted: seq<Entry>, row: Entry)
    requires row in SortByAddress(unsorted)
    ensures row in unsorted
  {
    assert row in multiset(SortByAddress(unsorted));
  }
}
