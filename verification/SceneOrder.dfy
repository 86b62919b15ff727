/** The orders a Scene cache sorts by: strings by code point, then cache addresses. */
module SceneOrder {
  predicate StringLess(left: string, right: string) {
    if right == "" then false
    else if left == "" then true
    else left[0] < right[0] || (left[0] == right[0] && StringLess(left[1..], right[1..]))
  }

  lemma {:induction false} StringLessIsIrreflexive(text: string)
    ensures !StringLess(text, text)
  {
    if text != "" { StringLessIsIrreflexive(text[1..]); }
  }

  lemma {:induction false} StringLessIsTransitive(a: string, b: string, c: string)
    requires StringLess(a, b) && StringLess(b, c)
    ensures StringLess(a, c)
  {
    if a != "" && a[0] == b[0] == c[0] { StringLessIsTransitive(a[1..], b[1..], c[1..]); }
  }

  lemma {:induction false} StringLessIsTotal(a: string, b: string)
    ensures a == b || StringLess(a, b) || StringLess(b, a)
  {
    if a != "" && b != "" {
      StringLessIsTotal(a[1..], b[1..]);
      assert a == [a[0]] + a[1..] && b == [b[0]] + b[1..];
    }
  }

  /** A proper prefix sorts before the whole. */
  lemma {:induction false} PrefixIsLess(text: string, rest: string)
    requires rest != ""
    ensures StringLess(text, text + rest)
  {
    if text != "" {
      PrefixIsLess(text[1..], rest);
      assert (text + rest)[1..] == text[1..] + rest;
    }
  }

  /** Where in a Scene a cache row sits; prim paths sort before members. */
  datatype Occurrence = PrimPath(path: string) | Member(id: nat)

  datatype Address = Address(scene: nat, occurrence: Occurrence)

  predicate OccurrenceLess(left: Occurrence, right: Occurrence) {
    match left
    case PrimPath(path) => right.Member? || StringLess(path, right.path)
    case Member(id) => right.Member? && id < right.id
  }

  predicate AddressLess(left: Address, right: Address) {
    left.scene < right.scene || (left.scene == right.scene && OccurrenceLess(left.occurrence, right.occurrence))
  }

  lemma AddressLessIsIrreflexive(a: Address)
    ensures !AddressLess(a, a)
  {
    if a.occurrence.PrimPath? { StringLessIsIrreflexive(a.occurrence.path); }
  }

  lemma AddressLessIsTransitive(a: Address, b: Address, c: Address)
    requires AddressLess(a, b) && AddressLess(b, c)
    ensures AddressLess(a, c)
  {
    if a.scene == b.scene == c.scene && a.occurrence.PrimPath? && b.occurrence.PrimPath? && c.occurrence.PrimPath? {
      StringLessIsTransitive(a.occurrence.path, b.occurrence.path, c.occurrence.path);
    }
  }

  lemma AddressLessIsTotal(a: Address, b: Address)
    ensures a == b || AddressLess(a, b) || AddressLess(b, a)
  {
    if a.occurrence.PrimPath? && b.occurrence.PrimPath? {
      StringLessIsTotal(a.occurrence.path, b.occurrence.path);
    }
  }

  /** The first place where two texts differ, or where the left one ends. */
  predicate DiffersAt(left: string, right: string, k: nat) {
    && k <= |left| && k < |right| && (forall j | 0 <= j < k :: left[j] == right[j])
    && (k < |left| ==> left[k] != right[k])
  }

  /** At the first difference the smaller character comes first; a text comes before what continues it. */
  lemma {:induction false} StringLessExactlyWhen(left: string, right: string)
    ensures StringLess(left, right) <==>
            exists k: nat :: DiffersAt(left, right, k) && (k == |left| || left[k] < right[k])
  {
    if right != "" && left != "" {
      if left[0] == right[0] {
        StringLessExactlyWhen(left[1..], right[1..]);
        if k: nat :| DiffersAt(left[1..], right[1..], k) && (k == |left[1..]| || left[1..][k] < right[1..][k]) {
          forall j | 0 <= j < k + 1 ensures left[j] == right[j] {
            if j > 0 { assert left[1..][j - 1] == right[1..][j - 1]; }
          }
          assert DiffersAt(left, right, k + 1);
        }
        if k: nat :| DiffersAt(left, right, k) && (k == |left| || left[k] < right[k]) {
          assert DiffersAt(left[1..], right[1..], k - 1);
        }
      } else {
        assert DiffersAt(left, right, 0);
      }
    } else if right != "" {
      assert DiffersAt(left, right, 0);
    }
  }

  /** Scenes in order; in a Scene the prim paths before the members; members by their number. */
  lemma AddressesInOrder(a: Address, b: Address)
    ensures a.scene < b.scene ==> AddressLess(a, b)
    ensures a.scene == b.scene && a.occurrence.PrimPath? && b.occurrence.Member? ==> AddressLess(a, b)
    ensures a.scene == b.scene && a.occurrence.PrimPath? && b.occurrence.PrimPath? ==>
              (AddressLess(a, b) <==> StringLess(a.occurrence.path, b.occurrence.path))
    ensures a.scene == b.scene && a.occurrence.Member? && b.occurrence.Member? ==>
              (AddressLess(a, b) <==> a.occurrence.id < b.occurrence.id)
  {
  }
}
