/** Where each file of a source closure goes: next to the localized root as it was next to the root, or under
    `external` by its directory's label. */
module ClosurePlan {
  import opened Text
  import opened Wrappers
  import opened AssetPaths
  import opened Localize

  const EXTERNAL: string := "external"

  /** A plan's fixed parts; the label of a directory is the start of its digest. */
  datatype Plan = Plan(sourceParent: Path, destination: Path, tag: Path -> string)

  predicate Internal(p: Plan, file: Path) {
    p.sourceParent <= file
  }

  function LocalizedPath(p: Plan, original: Path): Option<Path> {
    if Internal(p, original) then Some(p.destination + original[|p.sourceParent|..])
    else if original == [] then None
    else Some(p.destination + [EXTERNAL, p.tag(Parent(original)), Last(original)])
  }

  function TargetOf(p: Plan, file: Path): Path
    requires file != []
  {
    LocalizedPath(p, file).value
  }

  method BuildMapping(p: Plan, files: set<Path>) returns (mapping: Option<map<Path, Path>>)
    ensures mapping.None? <==> exists file :: file in files && LocalizedPath(p, file).None?
    ensures mapping.Some? ==> mapping.value.Keys == files
                              && forall file | file in files :: Some(mapping.value[file]) == LocalizedPath(p, file)
  {
    var left := files;
    var built: map<Path, Path> := map[];
    while left != {}
      invariant left <= files && built.Keys == files - left
      invariant forall file | file in built :: Some(built[file]) == LocalizedPath(p, file)
      decreases |left|
    {
      var file :| file in left;
      left := left - {file};
      var target := LocalizedPath(p, file);
      if target.None? { return None; }
      built := built[file := target.value];
    }
    return Some(built);
  }

  // ---- Where the plan is orderly ----

  /** What a file system gives: no file is a directory of another, nor the source directory. */
  predicate AreFiles(p: Plan, files: set<Path>) {
    && (forall file | file in files :: file != [] && file != p.sourceParent)
    && (forall a, b | a in files && b in files && a <= b :: a == b)
  }

  predicate LabelsApart(p: Plan, files: set<Path>) {
    forall a, b | a in files && b in files && a != [] && b != [] ::
      p.tag(Parent(a)) == p.tag(Parent(b)) ==> Parent(a) == Parent(b)
  }

  /** A directory of the source is laid out like the place of an external file's directory. */
  predicate DirectoryClash(p: Plan, inner: Path, outer: Path)
    requires inner != [] && outer != []
  {
    && Internal(p, inner) && !Internal(p, outer) && inner != p.sourceParent
    && Parent(inner) == p.sourceParent + [EXTERNAL, p.tag(Parent(outer))]
  }

  predicate SameTargetDirectory(p: Plan, a: Path, b: Path)
    requires a != [] && b != []
    requires a != p.sourceParent && b != p.sourceParent
  {
    TargetOf(p, a) != [] && TargetOf(p, b) != [] && Parent(TargetOf(p, a)) == Parent(TargetOf(p, b))
  }

  lemma InternalTarget(p: Plan, file: Path)
    requires file != [] && file != p.sourceParent && Internal(p, file)
    ensures TargetOf(p, file) != [] && Last(TargetOf(p, file)) == Last(file)
    ensures p.sourceParent <= Parent(file)
    ensures Parent(TargetOf(p, file)) == p.destination + Parent(file)[|p.sourceParent|..]
  {
    var n := |p.sourceParent|;
    assert file[n..] != [] by { assert file == p.sourceParent + file[n..]; }
    assert Parent(file) == file[..|file| - 1] && Parent(file)[..n] == file[..n];
    assert Parent(TargetOf(p, file)) == p.destination + file[n..|file| - 1];
    assert Parent(file)[n..] == file[n..|file| - 1];
  }

  lemma ExternalTarget(p: Plan, file: Path)
    requires file != [] && !Internal(p, file)
    ensures TargetOf(p, file) != [] && Last(TargetOf(p, file)) == Last(file)
    ensures Parent(TargetOf(p, file)) == p.destination + [EXTERNAL, p.tag(Parent(file))]
  {
    assert TargetOf(p, file) == p.destination + [EXTERNAL, p.tag(Parent(file))] + [Last(file)];
  }

  /** Files are copied under their own names. */
  lemma NamesAreKept(p: Plan, file: Path)
    requires file != [] && file != p.sourceParent
    ensures TargetOf(p, file) != [] && Last(TargetOf(p, file)) == Last(file)
  {
    if Internal(p, file) { InternalTarget(p, file); } else { ExternalTarget(p, file); }
  }

  lemma SuffixesAgree(prefix: Path, a: Path, b: Path)
    requires prefix + a == prefix + b
    ensures a == b
  {
    assert (prefix + a)[|prefix|..] == a && (prefix + b)[|prefix|..] == b;
  }

  /** Two files go to one directory exactly when they come from one, or one comes from a source directory laid
      out like the other's place. */
  lemma OneTargetDirectoryExactlyWhen(p: Plan, files: set<Path>, a: Path, b: Path)
    requires AreFiles(p, files) && LabelsApart(p, files) && a in files && b in files
    ensures SameTargetDirectory(p, a, b) <==>
            Parent(a) == Parent(b) || DirectoryClash(p, a, b) || DirectoryClash(p, b, a)
  {
    if Internal(p, a) && Internal(p, b) {
      InternalTarget(p, a);
      InternalTarget(p, b);
      BothInternal(p, a, b);
    } else if Internal(p, a) {
      InternalTarget(p, a);
      ExternalTarget(p, b);
      OneInternal(p, a, b);
    } else if Internal(p, b) {
      InternalTarget(p, b);
      ExternalTarget(p, a);
      OneInternal(p, b, a);
    } else {
      ExternalTarget(p, a);
      ExternalTarget(p, b);
      var x, y := [EXTERNAL, p.tag(Parent(a))], [EXTERNAL, p.tag(Parent(b))];
      if p.destination + x == p.destination + y {
        SuffixesAgree(p.destination, x, y);
        assert x[1] == y[1];
      }
    }
  }

  lemma BothInternal(p: Plan, a: Path, b: Path)
    requires a != [] && b != [] && p.sourceParent <= Parent(a) && p.sourceParent <= Parent(b)
    ensures p.destination + Parent(a)[|p.sourceParent|..] == p.destination + Parent(b)[|p.sourceParent|..]
            <==> Parent(a) == Parent(b)
  {
    var x, y := Parent(a)[|p.sourceParent|..], Parent(b)[|p.sourceParent|..];
    if p.destination + x == p.destination + y {
      SuffixesAgree(p.destination, x, y);
      assert Parent(a) == p.sourceParent + x && Parent(b) == p.sourceParent + y;
    }
  }

  lemma OneInternal(p: Plan, inner: Path, outer: Path)
    requires inner != [] && outer != [] && inner != p.sourceParent
    requires Internal(p, inner) && !Internal(p, outer) && p.sourceParent <= Parent(inner)
    ensures p.destination + Parent(inner)[|p.sourceParent|..] == p.destination + [EXTERNAL, p.tag(Parent(outer))]
            <==> DirectoryClash(p, inner, outer)
    ensures Parent(inner) != Parent(outer)
  {
    var x, y := Parent(inner)[|p.sourceParent|..], [EXTERNAL, p.tag(Parent(outer))];
    if p.destination + x == p.destination + y {
      SuffixesAgree(p.destination, x, y);
      assert Parent(inner) == p.sourceParent + x;
    }
    if Parent(inner) == p.sourceParent + y {
      assert x == y;
    }
    assert p.sourceParent <= Parent(outer) ==> p.sourceParent <= outer;
  }

  predicate Maps(p: Plan, mapping: map<Path, Path>) {
    forall file | file in mapping :: Some(mapping[file]) == LocalizedPath(p, file)
  }

  /** No two files share a place exactly when no source file sits, under its name, where an external one goes. */
  lemma PlacesAreUniqueExactlyWhen(p: Plan, mapping: map<Path, Path>)
    requires AreFiles(p, mapping.Keys) && LabelsApart(p, mapping.Keys) && Maps(p, mapping)
    ensures (forall a, b | a in mapping && b in mapping && mapping[a] == mapping[b] :: a == b) <==>
            (forall a, b | a in mapping && b in mapping && DirectoryClash(p, a, b) :: Last(a) != Last(b))
  {
    forall a, b | a in mapping && b in mapping
      ensures mapping[a] == mapping[b] <==>
              Last(a) == Last(b) && (Parent(a) == Parent(b) || DirectoryClash(p, a, b) || DirectoryClash(p, b, a))
    {
      NamesAreKept(p, a);
      NamesAreKept(p, b);
      OneTargetDirectoryExactlyWhen(p, mapping.Keys, a, b);
      PartsMake(mapping[a]);
      PartsMake(mapping[b]);
    }
    forall a, b | a in mapping && b in mapping && Last(a) == Last(b) && Parent(a) == Parent(b) ensures a == b {
      PartsMake(a);
      PartsMake(b);
    }
    forall a, b | a in mapping && b in mapping && DirectoryClash(p, a, b) ensures a != b {}
  }

  /** The source keeps no file under a directory `external` of its own while others come from elsewhere. */
  predicate ExternalIsFree(p: Plan, files: set<Path>) {
    forall a, b | a in files && b in files && Internal(p, a) && !Internal(p, b) && |a| > |p.sourceParent| ::
      a[|p.sourceParent|] != EXTERNAL
  }

  lemma TargetsAreNoDirectories(p: Plan, files: set<Path>, a: Path, b: Path)
    requires AreFiles(p, files) && ExternalIsFree(p, files) && a in files && b in files
    requires TargetOf(p, a) <= TargetOf(p, b)
    ensures TargetOf(p, a) == TargetOf(p, b)
  {
    var n, k := |p.destination|, |p.sourceParent|;
    assert Internal(p, a) ==> |a| > k;
    assert Internal(p, b) ==> |b| > k;
    assert TargetOf(p, a)[n] == TargetOf(p, b)[n];
    if Internal(p, a) && Internal(p, b) {
      assert TargetOf(p, a)[n..] == a[k..] && TargetOf(p, b)[n..] == b[k..];
      assert a[k..] <= b[k..];
      assert a == p.sourceParent + a[k..] && b == p.sourceParent + b[k..];
    }
  }

  /** The names that a file brings along: below the source directory, or its own and its label. */
  predicate PlainFile(p: Plan, file: Path)
    requires file != []
  {
    if Internal(p, file) then forall step | step in file[|p.sourceParent|..] :: PlainName(step)
    else PlainName(p.tag(Parent(file))) && PlainName(Last(file))
  }

  lemma TokenStartsWithAngle(text: string)
    ensures StartsWith(text, TOKEN) ==> '<' in text
  {
    assert TOKEN[0] == '<';
    if StartsWith(text, TOKEN) { assert text[0] == text[..|TOKEN|][0]; }
  }

  lemma {:induction false} NoAngleNoToken(text: string)
    requires '<' !in text
    ensures !Contains(text, TOKEN)
    decreases |text|
  {
    TokenStartsWithAngle(text);
    if text != "" { NoAngleNoToken(text[1..]); }
  }

  lemma ExternalIsPlain()
    ensures PlainName(EXTERNAL)
  {
    NoAngleNoToken(EXTERNAL);
    assert EXTERNAL[0] == 'e' && "anon:"[0] == 'a';
  }

  lemma TargetIsPlain(p: Plan, file: Path)
    requires file != [] && file != p.sourceParent && PlainFile(p, file) && Plain(p.destination)
    ensures PlainTarget(p.destination, TargetOf(p, file))
  {
    ExternalIsPlain();
    var target := TargetOf(p, file);
    if Internal(p, file) {
      assert file[|p.sourceParent|..] != [] by { assert file == p.sourceParent + file[|p.sourceParent|..]; }
      assert target[|p.destination|..] == file[|p.sourceParent|..];
    } else {
      assert target[|p.destination|..] == [EXTERNAL, p.tag(Parent(file)), Last(file)];
    }
    assert target == p.destination + target[|p.destination|..];
  }

  /** The plan of a closure is orderly when `external` is free: names are kept, directories stay apart, and no
      place is a directory of another. */
  lemma PlanIsOrderly(p: Plan, mapping: map<Path, Path>)
    requires AreFiles(p, mapping.Keys) && LabelsApart(p, mapping.Keys) && ExternalIsFree(p, mapping.Keys)
    requires Maps(p, mapping) && Plain(p.destination) && forall file | file in mapping :: PlainFile(p, file)
    ensures Orderly(p.destination, mapping)
  {
    forall file | file in mapping
      ensures PlainTarget(p.destination, mapping[file]) && Last(mapping[file]) == Last(file)
    {
      NamesAreKept(p, file);
      TargetIsPlain(p, file);
    }
    forall a, b | a in mapping && b in mapping && Parent(mapping[a]) == Parent(mapping[b])
      ensures Parent(a) == Parent(b)
    {
      OneTargetDirectoryExactlyWhen(p, mapping.Keys, a, b);
      ClashUsesExternal(p, a, b);
      ClashUsesExternal(p, b, a);
    }
    forall a, b | a in mapping && b in mapping && mapping[a] <= mapping[b] ensures mapping[a] == mapping[b] {
      TargetsAreNoDirectories(p, mapping.Keys, a, b);
    }
  }

  lemma ClashUsesExternal(p: Plan, inner: Path, outer: Path)
    requires inner != [] && outer != []
    ensures DirectoryClash(p, inner, outer) ==> |inner| > |p.sourceParent| && inner[|p.sourceParent|] == EXTERNAL
  {
    if DirectoryClash(p, inner, outer) {
      assert Parent(inner)[|p.sourceParent|] == EXTERNAL;
    }
  }
}
