/** Merging bundle files (`mergeBundleData` and `readMergedBundleFromDisk` of
    packages/databricks-vscode/src/bundle/BundleFileSet.ts): the recursive merge
    in which a later value wins, except that null never does. */
module BundleMerge {
  import opened Wrappers

  /** What a YAML file parses to; sequences are not part of this model. */
  datatype Tree = Null | Scalar(value: string) | Node(children: map<string, Tree>)

  type Path = seq<string>

  function ChildrenOf(t: Option<Tree>): map<string, Tree> {
    if t.Some? && t.value.Node? then t.value.children else map[]
  }

  /** What one key comes to hold; `earlier` is what it held. */
  function Merge(earlier: Option<Tree>, later: Tree): Tree
    decreases later, 1
  {
    match later
    case Null => earlier.GetOr(Null)
    case Scalar(_) => later
    case Node(_) => Node(MergeChildren(ChildrenOf(earlier), later))
  }

  function MergeChildren(target: map<string, Tree>, later: Tree): map<string, Tree>
    requires later.Node?
    decreases later, 0
  {
    map key | key in target.Keys + later.children.Keys ::
      if key in later.children then Merge(Get(target, key), later.children[key]) else target[key]
  }

  /** One key of a merged map. */
  lemma MergeAtKey(earlier: Option<Tree>, later: Tree, key: string)
    requires later.Node?
    ensures Merge(earlier, later).Node?
    ensures Get(Merge(earlier, later).children, key) ==
            if key in later.children then Some(Merge(Get(ChildrenOf(earlier), key), later.children[key]))
            else Get(ChildrenOf(earlier), key)
  {}

  lemma MergeKeyByKey(target: map<string, Tree>, source: Tree)
    requires source.Node?
    ensures Merge(Some(Node(target)), source).Node?
    ensures forall key ::
              Get(Merge(Some(Node(target)), source).children, key) ==
              if key in source.children then Some(Merge(Get(target, key), source.children[key])) else Get(target, key)
  {
    forall key
      ensures Get(Merge(Some(Node(target)), source).children, key) ==
              if key in source.children then Some(Merge(Get(target, key), source.children[key])) else Get(target, key)
    {
      MergeAtKey(Some(Node(target)), source, key);
    }
  }

  /** The keys of the source up to the given ones have been merged. */
  ghost predicate MergedUpTo(r: map<string, Tree>, target: map<string, Tree>, goal: map<string, Tree>, keys: set<string>) {
    forall key :: Get(r, key) == if key in keys then Get(target, key) else Get(goal, key)
  }

  lemma MergedNext(r: map<string, Tree>, target: map<string, Tree>, goal: map<string, Tree>, keys: set<string>,
                   key: string, value: Tree)
    requires MergedUpTo(r, target, goal, keys) && key in keys && Get(goal, key) == Some(value)
    ensures MergedUpTo(r[key := value], target, goal, keys - {key})
  {
    assert forall other | other != key :: Get(r[key := value], other) == Get(r, other);
  }

  /** `mergeBundleData(target, source)`: a pass over the keys of the source that
      updates the target. */
  method BaseMerge(target: map<string, Tree>, source: Tree) returns (r: map<string, Tree>)
    requires source.Node?
    ensures Node(r) == Merge(Some(Node(target)), source)
    decreases source, 0
  {
    r := target;
    var keys := source.children.Keys;
    ghost var goal := Merge(Some(Node(target)), source).children;
    MergeKeyByKey(target, source);
    while keys != {}
      invariant keys <= source.children.Keys
      invariant MergedUpTo(r, target, goal, keys)
      decreases |keys|
    {
      var key :| key in keys;
      var value := MergeValue(Get(r, key), source.children[key]);
      MergedNext(r, target, goal, keys, key, value);
      r := r[key := value];
      keys := keys - {key};
    }
    SameMaps(r, goal);
  }

  /** The new value under one key. */
  method MergeValue(objValue: Option<Tree>, srcValue: Tree) returns (newValue: Tree)
    ensures newValue == Merge(objValue, srcValue)
    decreases srcValue, 1
  {
    if srcValue.Node? {
      var children := BaseMerge(ChildrenOf(objValue), srcValue);
      return Node(children);
    }
    if srcValue.Null? && objValue.Some? {
      return objValue.value;
    }
    return srcValue;
  }

  // ----------------------------------------------------------- one path, many files

  /** The scalar at a path, if there is one. */
  function ScalarAt(t: Option<Tree>, path: Path): Option<string>
    decreases path
  {
    if t.None? then None
    else if path == [] then (if t.value.Scalar? then Some(t.value.value) else None)
    else ScalarAt(Get(ChildrenOf(t), path[0]), path[1..])
  }

  /** What a file does to a path: nothing, set a scalar, or leave no scalar there
      (because it puts a map there, or a scalar above it). */
  datatype Effect = Silent | Sets(value: string) | Clears

  function EffectOf(t: Option<Tree>, path: Path): Effect
    decreases path
  {
    if t.None? || t.value.Null? then Silent
    else if path == [] then (if t.value.Scalar? then Sets(t.value.value) else Clears)
    else if t.value.Scalar? then Clears
    else EffectOf(Get(t.value.children, path[0]), path[1..])
  }

  lemma {:induction false} SetsIffScalar(t: Option<Tree>, path: Path, value: string)
    ensures EffectOf(t, path) == Sets(value) <==> ScalarAt(t, path) == Some(value)
    decreases path
  {
    if t.Some? && t.value.Node? && path != [] {
      SetsIffScalar(Get(t.value.children, path[0]), path[1..], value);
    }
  }

  function Apply(before: Option<string>, effect: Effect): Option<string> {
    match effect
    case Silent => before
    case Sets(value) => Some(value)
    case Clears => None
  }

  lemma {:induction false} MergeAtPath(earlier: Option<Tree>, later: Tree, path: Path)
    ensures ScalarAt(Some(Merge(earlier, later)), path) == Apply(ScalarAt(earlier, path), EffectOf(Some(later), path))
    decreases path
  {
    if later.Node? && path != [] {
      var key := path[0];
      if key in later.children {
        MergeAtPath(Get(ChildrenOf(earlier), key), later.children[key], path[1..]);
      }
    }
  }

  /** `readMergedBundleFromDisk`: a file that parses to null is skipped, as the
      merge of null into a map is the map. */
  function MergeAll(files: seq<Tree>): Tree {
    if files == [] then Node(map[]) else Merge(Some(MergeAll(files[..|files| - 1])), files[|files| - 1])
  }

  /** The last of the effects that is not silent. */
  function LastEffect(files: seq<Tree>, path: Path): Effect {
    if files == [] then Silent
    else
      var effect := EffectOf(Some(files[|files| - 1]), path);
      if effect.Silent? then LastEffect(files[..|files| - 1], path) else effect
  }

  /** At every path, the merged bundle holds what the last file that is not
      silent there makes of it; maps against scalars included. */
  lemma {:induction false} LastFileWins(files: seq<Tree>, path: Path)
    ensures ScalarAt(Some(MergeAll(files)), path) == Apply(None, LastEffect(files, path))
  {
    if files == [] {
      assert ScalarAt(Some(Node(map[])), path) == None;
    } else {
      var front, last := files[..|files| - 1], files[|files| - 1];
      LastFileWins(front, path);
      MergeAtPath(Some(MergeAll(front)), last, path);
    }
  }

  /** `path` in `t` passes a null (or ends at one). */
  predicate PassesNull(t: Tree, path: Path)
    decreases path
  {
    t.Null? || (t.Node? && path != [] && path[0] in t.children && PassesNull(t.children[path[0]], path[1..]))
  }

  /** A null at a path, or above it, never erases what an earlier file set. */
  lemma NullNeverErases(earlier: Tree, later: Tree, path: Path)
    requires PassesNull(later, path)
    ensures ScalarAt(Some(Merge(Some(earlier), later)), path) == ScalarAt(Some(earlier), path)
  {
    NullIsSilent(later, path);
    MergeAtPath(Some(earlier), later, path);
  }

  lemma {:induction false} NullIsSilent(t: Tree, path: Path)
    requires PassesNull(t, path)
    ensures EffectOf(Some(t), path) == Silent
    decreases path
  {
    if !t.Null? {
      NullIsSilent(t.children[path[0]], path[1..]);
    }
  }

  // -------------------------------------------------------- laws of the merge

  lemma {:induction false} MergeIsIdempotent(t: Tree)
    ensures Merge(Some(t), t) == t
  {
    if t.Node? {
      forall key | key in t.children
        ensures Merge(Some(t.children[key]), t.children[key]) == t.children[key]
      {
        MergeIsIdempotent(t.children[key]);
      }
      assert MergeChildren(t.children, t) == t.children;
    }
  }

  lemma {:induction false} MergeIntoNothing(t: Tree)
    ensures Merge(None, t) == t
  {
    if t.Node? {
      forall key | key in t.children
        ensures Merge(None, t.children[key]) == t.children[key]
      {
        MergeIntoNothing(t.children[key]);
      }
      assert MergeChildren(map[], t) == t.children;
    }
  }

  /** Maps are merged key by key; a null leaves what was there; anything else
      replaces it. */
  lemma MergeRules(earlier: Tree, later: Tree, key: string)
    ensures later == Null ==> Merge(Some(earlier), later) == earlier
    ensures later.Scalar? || (later.Node? && !earlier.Node?) ==> Merge(Some(earlier), later) == later
    ensures later.Node? && earlier.Node? ==>
              var merged := Merge(Some(earlier), later);
              && merged.Node?
              && Get(merged.children, key) ==
                 (if key !in later.children then Get(earlier.children, key)
                  else if key !in earlier.children then Some(later.children[key])
                  else Some(Merge(Some(earlier.children[key]), later.children[key])))
  {
    if later.Node? && !earlier.Node? {
      MergeIntoNothing(later);
      assert MergeChildren(map[], later) == later.children;
    }
    if later.Node? && key in later.children {
      MergeIntoNothing(later.children[key]);
    }
  }

  /** Somewhere `one` has a scalar where `other` has a map. */
  predicate Clash(one: Tree, other: Tree) {
    match other
    case Node(children) =>
      one.Scalar? ||
      (one.Node? && exists key | key in children && key in one.children :: Clash(one.children[key], children[key]))
    case _ => false
  }

  /** Both groupings, seen from one key of three maps. */
  lemma AssociativeAtKey(a: Option<Tree>, b: Tree, c: Tree, key: string)
    requires b.Node? && c.Node?
    ensures Merge(Some(Merge(a, b)), c).Node? && Merge(a, Merge(Some(b), c)).Node?
    ensures var earlier := Get(ChildrenOf(a), key);
            var left, right := Get(Merge(Some(Merge(a, b)), c).children, key),
                               Get(Merge(a, Merge(Some(b), c)).children, key);
            if key in b.children && key in c.children then
              left == Some(Merge(Some(Merge(earlier, b.children[key])), c.children[key])) &&
              right == Some(Merge(earlier, Merge(Some(b.children[key]), c.children[key])))
            else if key in c.children then
              left == Some(Merge(earlier, c.children[key])) &&
              right == Some(Merge(earlier, Merge(None, c.children[key])))
            else left == right
  {
    MergeAtKey(a, b, key);
    MergeAtKey(Some(Merge(a, b)), c, key);
    MergeAtKey(Some(b), c, key);
    MergeAtKey(a, Merge(Some(b), c), key);
  }

  lemma {:induction false} AssociativeWithoutClash(a: Option<Tree>, b: Tree, c: Tree)
    requires !Clash(b, c)
    ensures Merge(Some(Merge(a, b)), c) == Merge(a, Merge(Some(b), c))
    decreases c
  {
    if c.Node? && b.Node? {
      forall key
        ensures Get(Merge(Some(Merge(a, b)), c).children, key) == Get(Merge(a, Merge(Some(b), c)).children, key)
      {
        AssociativeAtKey(a, b, c, key);
        if key in c.children && key in b.children {
          AssociativeWithoutClash(Get(ChildrenOf(a), key), b.children[key], c.children[key]);
        } else if key in c.children {
          MergeIntoNothing(c.children[key]);
        }
      }
      SameMaps(Merge(Some(Merge(a, b)), c).children, Merge(a, Merge(Some(b), c)).children);
    } else if c.Node? {
      MergeIntoNothing(c);
    }
  }

  /** Some key that is not among the given ones: one longer than all of them. */
  lemma {:induction false} LongerThanAll(keys: set<string>) returns (n: nat)
    ensures forall key :: key in keys ==> |key| < n
  {
    n := 0;
    if keys != {} {
      var key :| key in keys;
      n := LongerThanAll(keys - {key});
      n := if |key| < n then n else |key| + 1;
    }
  }

  /** Where they clash, grouping the files differently gives different bundles. */
  lemma {:induction false} ClashBreaksAssociativity(b: Tree, c: Tree) returns (a: Tree)
    requires Clash(b, c)
    ensures Merge(Some(Merge(Some(a), b)), c) != Merge(Some(a), Merge(Some(b), c))
    decreases c
  {
    if b.Scalar? {
      var n := LongerThanAll(c.children.Keys);
      var key := seq(n, i => 'x');
      a := Node(map[key := Null]);
      MergeAtKey(Some(b), c, key);
      MergeAtKey(Some(a), Merge(Some(b), c), key);
      MergeAtKey(Some(Merge(Some(a), b)), c, key);
    } else {
      var key :| key in c.children && key in b.children && Clash(b.children[key], c.children[key]);
      var below := ClashBreaksAssociativity(b.children[key], c.children[key]);
      a := Node(map[key := below]);
      AssociativeAtKey(Some(a), b, c, key);
    }
  }

  /** Two files may be merged first, whatever comes before them, exactly when the
      later one has no map where the earlier one has a scalar. */
  lemma AssociativeIffNoClash(b: Tree, c: Tree)
    ensures (forall a :: Merge(Some(Merge(Some(a), b)), c) == Merge(Some(a), Merge(Some(b), c))) <==> !Clash(b, c)
  {
    if Clash(b, c) {
      var a := ClashBreaksAssociativity(b, c);
    } else {
      forall a
        ensures Merge(Some(Merge(Some(a), b)), c) == Merge(Some(a), Merge(Some(b), c))
      {
        AssociativeWithoutClash(Some(a), b, c);
      }
    }
  }
}
