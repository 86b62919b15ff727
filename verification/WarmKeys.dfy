/** Keys of the warm queue: a Project root together with the textual key of one cache target.
    Roots and identifiers are named by their rank in the source's order. */
module WarmKeys {
  /** The text of a target key starts with "model:", "project" or "scene:", and sorts in that order. */
  datatype TargetKey = ModelTarget(id: nat) | ProjectRootTarget | SceneTarget(id: nat)

  datatype Key = Key(project: nat, target: TargetKey)

  function Rank(target: TargetKey): nat {
    match target
    case ModelTarget(_) => 0
    case ProjectRootTarget => 1
    case SceneTarget(_) => 2
  }

  function Id(target: TargetKey): nat {
    match target
    case ModelTarget(id) => id
    case ProjectRootTarget => 0
    case SceneTarget(id) => id
  }

  predicate KeyLess(left: Key, right: Key) {
    || left.project < right.project
    || (left.project == right.project && Rank(left.target) < Rank(right.target))
    || (left.project == right.project && Rank(left.target) == Rank(right.target)
        && Id(left.target) < Id(right.target))
  }

  predicate IsLeastKey(keys: set<Key>, key: Key) {
    key in keys && forall other | other in keys :: other == key || KeyLess(key, other)
  }

  lemma {:induction false} LeastKeyExists(keys: set<Key>)
    requires keys != {}
    ensures exists least :: IsLeastKey(keys, least)
    decreases keys
  {
    var key :| key in keys;
    if keys == {key} {
      assert IsLeastKey(keys, key);
    } else {
      LeastKeyExists(keys - {key});
      var rest :| IsLeastKey(keys - {key}, rest);
      assert forall other | other in keys :: other == key || other in keys - {key};
      assert IsLeastKey(keys, if KeyLess(key, rest) then key else rest);
    }
  }

  lemma LeastKeyIsUnique(keys: set<Key>, left: Key, right: Key)
    requires IsLeastKey(keys, left) && IsLeastKey(keys, right)
    ensures left == right
  {
  }

  ghost function LeastKey(keys: set<Key>): (least: Key)
    requires keys != {}
    ensures IsLeastKey(keys, least)
  {
    LeastKeyExists(keys);
    var least :| IsLeastKey(keys, least);
    least
  }

  predicate IsLeast(values: set<nat>, value: nat) {
    value in values && forall other | other in values :: value <= other
  }

  lemma {:induction false} LeastExists(values: set<nat>)
    requires values != {}
    ensures exists least :: IsLeast(values, least)
    decreases values
  {
    var value :| value in values;
    if values == {value} {
      assert IsLeast(values, value);
    } else {
      LeastExists(values - {value});
      var rest :| IsLeast(values - {value}, rest);
      assert forall other | other in values :: other == value || other in values - {value};
      assert IsLeast(values, if value < rest then value else rest);
    }
  }

  ghost function Least(values: set<nat>): (least: nat)
    requires values != {}
    ensures IsLeast(values, least)
  {
    LeastExists(values);
    var least :| IsLeast(values, least);
    least
  }

  /** The elements of a key set in ascending order. */
  ghost function Ascending(keys: set<Key>): (sorted: seq<Key>)
    ensures forall key :: key in sorted <==> key in keys
    decreases keys
  {
    if keys == {} then [] else
    var least := LeastKey(keys);
    assert keys == {least} + (keys - {least});
    [least] + Ascending(keys - {least})
  }

  /** In ascending order, the least of what is left comes next. */
  lemma LeastComesNext(all: seq<Key>, i: nat, left: set<Key>)
    requires left != {} && i <= |all| && Ascending(left) == all[i..]
    ensures i < |all| && all[i] == LeastKey(left) && Ascending(left - {LeastKey(left)}) == all[i + 1..]
  {
    assert Ascending(left) == [LeastKey(left)] + Ascending(left - {LeastKey(left)});
    assert all[i..][1..] == all[i + 1..];
  }

  lemma {:induction false} AscendingAscends(keys: set<Key>)
    ensures forall i, j | 0 <= i < j < |Ascending(keys)| :: KeyLess(Ascending(keys)[i], Ascending(keys)[j])
    decreases keys
  {
    if keys != {} {
      var least := LeastKey(keys);
      var rest := Ascending(keys - {least});
      AscendingAscends(keys - {least});
      assert Ascending(keys) == [least] + rest;
      assert forall key | key in rest :: KeyLess(least, key);
    }
  }

  /** Projects in order; in a Project the Models, then the root, then the Scenes. */
  lemma KeysInOrder(a: Key, b: Key)
    ensures a.project < b.project ==> KeyLess(a, b) && !KeyLess(b, a)
    ensures a.project == b.project && a.target.ModelTarget? && !b.target.ModelTarget? ==> KeyLess(a, b)
    ensures a.project == b.project && a.target.ProjectRootTarget? && b.target.SceneTarget? ==> KeyLess(a, b)
    ensures a.project == b.project && a.target.ModelTarget? && b.target.ModelTarget? ==>
              (KeyLess(a, b) <==> a.target.id < b.target.id)
    ensures a.project == b.project && a.target.SceneTarget? && b.target.SceneTarget? ==>
              (KeyLess(a, b) <==> a.target.id < b.target.id)
    ensures !(KeyLess(a, b) && KeyLess(b, a)) && (a == b || KeyLess(a, b) || KeyLess(b, a))
  {
  }
}
