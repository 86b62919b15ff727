/** Publishing a Model: a storage key no other entry uses, then four replacements with rollback. */
module ModelPublication {
  import opened Text
  import opened Wrappers

  // ---- Storage keys ----

  /** The name itself, then the name with a number. */
  function Candidate(name: string, ordinal: nat): string {
    if ordinal <= 1 then name else name + " (" + Decimal(ordinal) + ")"
  }

  lemma CandidatesDiffer(name: string, i: nat, j: nat)
    requires 1 <= i < j
    ensures Candidate(name, i) != Candidate(name, j)
  {
    if i == 1 {
      assert |Candidate(name, j)| > |name|;
    } else if Candidate(name, i) == Candidate(name, j) {
      var n := |name| + 2;
      var x, y := Candidate(name, i), Candidate(name, j);
      assert x[n..|x| - 1] == Decimal(i) && y[n..|y| - 1] == Decimal(j);
      DecimalReadsBack(i);
      DecimalReadsBack(j);
    }
  }

  predicate ValidKey(key: string) {
    && key != "" && key != "." && key != ".."
    && '/' !in key && '\\' !in key && '\0' !in key
    && (|key| > 1 ==> key[1] != ':')
  }

  lemma CandidateIsValid(name: string, ordinal: nat)
    requires ValidKey(name)
    ensures ValidKey(Candidate(name, ordinal))
  {
    DecimalIsPlain(ordinal);
    if ordinal > 1 {
      var key := Candidate(name, ordinal);
      assert |name| > 1 ==> key[1] == name[1];
      assert |name| == 1 ==> key[1] == ' ';
    }
  }

  function Candidates(name: string, count: nat): set<string> {
    if count == 0 then {} else Candidates(name, count - 1) + {Candidate(name, count)}
  }

  lemma {:induction false} CandidatesAre(name: string, count: nat, key: string)
    requires key in Candidates(name, count)
    ensures exists k :: 1 <= k <= count && Candidate(name, k) == key
  {
    if key in Candidates(name, count - 1) {
      CandidatesAre(name, count - 1, key);
      var k :| 1 <= k <= count - 1 && Candidate(name, k) == key;
      assert 1 <= k <= count;
    }
  }

  lemma {:induction false} CandidatesCount(name: string, count: nat)
    ensures |Candidates(name, count)| == count
  {
    if count > 0 {
      CandidatesCount(name, count - 1);
      if Candidate(name, count) in Candidates(name, count - 1) {
        CandidatesAre(name, count - 1, Candidate(name, count));
        var k :| 1 <= k <= count - 1 && Candidate(name, k) == Candidate(name, count);
        CandidatesDiffer(name, k, count);
      }
    }
  }

  /** A run of used candidates is no longer than the set of used keys. */
  lemma UsedCandidatesAreFew(used: set<string>, name: string, count: nat)
    requires forall k | 1 <= k <= count :: Candidate(name, k) in used
    ensures count <= |used|
  {
    CandidatesCount(name, count);
    forall key | key in Candidates(name, count) ensures key in used { CandidatesAre(name, count, key); }
    SubsetSize(Candidates(name, count), used);
  }

  /** The first free candidate, found after no more attempts than there are keys, plus one. */
  method NextStorageKey(used: set<string>, name: string) returns (key: Option<string>, ghost ordinal: nat)
    ensures key.None? <==> !ValidKey(name)
    ensures key.Some? ==>
              && key.value !in used && ValidKey(key.value)
              && 1 <= ordinal <= |used| + 1 && key.value == Candidate(name, ordinal)
              && forall k | 1 <= k < ordinal :: Candidate(name, k) in used
  {
    var n := 1;
    ordinal := 1;
    while true
      invariant 1 <= n <= |used| + 1 && ordinal == n
      invariant forall k | 1 <= k < n :: Candidate(name, k) in used
      invariant n > 1 ==> ValidKey(name)
      decreases |used| + 1 - n
    {
      var candidate := Candidate(name, n);
      if !ValidKey(candidate) {
        if ValidKey(name) { CandidateIsValid(name, n); }
        return None, ordinal;
      }
      if candidate !in used {
        return Some(candidate), ordinal;
      }
      n := n + 1;
      ordinal := n;
      UsedCandidatesAreFew(used, name, n - 1);
    }
  }

  // ---- Publication ----

  datatype Directory = Absent | Bare | Tree(content: nat)

  /** What a publication touches: the parent Scene's layer, the Model's and its imports' directory, the manifest. */
  datatype Project = Project(parent: Option<nat>, model: Directory, imports: Directory, manifest: nat)

  /** What is to be published; with a placement, a new parent layer too. */
  datatype Request = Request(parent: Option<nat>, model: nat, imports: nat, manifest: nat)

  datatype Step =
    | Prepare
    | BackUpParent
    | ReplaceParent
    | CreateImportsRoot
    | MoveImports
    | CreateModelsRoot
    | MoveModel
    | WriteManifest

  datatype Undo = RemoveModel | RemoveImports | RemoveParent | RestoreParent

  /** A directory can be moved to where there is none, or an empty one. */
  predicate Vacant(directory: Directory) {
    !directory.Tree?
  }

  /** The import closure reaches its place. */
  predicate ImportsMove(p: Project, r: Request, fails: Step -> bool) {
    && !fails(Prepare)
    && (r.parent.Some? ==> p.parent.Some? && !fails(BackUpParent) && !fails(ReplaceParent))
    && !fails(CreateImportsRoot) && !fails(MoveImports) && Vacant(p.imports)
  }

  predicate Undone(undoes: Undo -> bool) {
    undoes(RemoveModel) && undoes(RemoveImports) && undoes(RestoreParent)
  }

  /** All or nothing: a publication that succeeds has put everything in place; one that fails, and whose rollback
      succeeds, has put everything back, except an empty import directory that the imports had replaced. */
  method PublishModel(p: Project, r: Request, fails: Step -> bool, undoes: Undo -> bool)
    returns (ok: bool, after: Project)
    ensures p.model != Absent ==> !ok && after == p
    ensures ok <==> p.model == Absent && ImportsMove(p, r, fails) && !fails(CreateModelsRoot) && !fails(MoveModel)
                    && (r.manifest != p.manifest ==> !fails(WriteManifest))
    ensures ok ==>
        after == Project(if r.parent.Some? then r.parent else p.parent, Tree(r.model), Tree(r.imports), r.manifest)
    ensures !ok && Undone(undoes) ==>
              after == p.(imports := if p.model == Absent && ImportsMove(p, r, fails) then Absent else p.imports)
    ensures !ok && Undone(undoes) ==>
              (after == p <==> !(p.model == Absent && p.imports == Bare && ImportsMove(p, r, fails)))
  {
    if p.model != Absent { return false, p; }
    after := p;
    var backup: Option<nat> := None;
    var parentPublished, modelPublished, importsPublished := false, false, false;
    ok := !fails(Prepare);
    if ok && r.parent.Some? {
      ok := after.parent.Some? && !fails(BackUpParent);
      if ok {
        backup := after.parent;
        ok := !fails(ReplaceParent);
        if ok {
          after := after.(parent := r.parent);
          parentPublished := true;
        }
      }
    }
    if ok { ok := !fails(CreateImportsRoot); }
    if ok {
      ok := !fails(MoveImports) && Vacant(after.imports);
      if ok {
        after := after.(imports := Tree(r.imports));
        importsPublished := true;
      }
    }
    if ok { ok := !fails(CreateModelsRoot); }
    if ok {
      ok := !fails(MoveModel) && Vacant(after.model);
      if ok {
        after := after.(model := Tree(r.model));
        modelPublished := true;
      }
    }
    if ok && r.manifest != after.manifest {
      ok := !fails(WriteManifest);
      if ok { after := after.(manifest := r.manifest); }
    }
    if ok { return; }
    if modelPublished && undoes(RemoveModel) { after := after.(model := Absent); }
    if importsPublished && undoes(RemoveImports) { after := after.(imports := Absent); }
    if parentPublished {
      if undoes(RemoveParent) { after := after.(parent := None); }
      if undoes(RestoreParent) { after := after.(parent := backup); }
    }
  }

  /** The exception is real: an empty import directory, and a Model directory that cannot be made. */
  method BareImportsAreLost() returns (before: Project, after: Project)
    ensures before.imports == Bare && after == before.(imports := Absent)
  {
    before := Project(None, Absent, Bare, 1);
    var ok;
    ok, after := PublishModel(before, Request(None, 2, 3, 4), step => step == CreateModelsRoot, _ => true);
  }

  /** The keys as they are written, and some that are refused. */
  lemma KeysAsWritten()
    ensures Candidate("Chair", 1) == "Chair" && Candidate("Chair", 2) == "Chair (2)"
    ensures Candidate("Chair", 12) == "Chair (12)"
    ensures ValidKey("Chair") && ValidKey("Chair (2)") && ValidKey(".chair")
    ensures !ValidKey("") && !ValidKey(".") && !ValidKey("..") && !ValidKey("a/b") && !ValidKey("a\\b")
    ensures !ValidKey("c:chair") && !ValidKey("a\0")
  {
    assert Decimal(2) == "2" && Decimal(12) == Decimal(1) + "2" && Decimal(1) == "1";
    assert "a/b"[1] == '/' && "a\\b"[1] == '\\' && "c:chair"[1] == ':' && "a\0"[1] == '\0';
  }
}
