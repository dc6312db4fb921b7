/** Which files make up a bundle, and in which order they are merged
    (packages/databricks-vscode/src/bundle/BundleFileSet.ts). */
module BundleFileSet {
  import opened Wrappers
  import opened BundleMerge
  import opened StringOrder

  /** A project on a case-sensitive file system. A file is named by its path
      relative to the project root; `matches` is what both glob libraries answer
      for an include pattern and a file, and `includes` reads the include list of a
      root file (empty when it has none). */
  datatype Project = Project(
    files: set<string>, includes: string -> seq<string>, matches: (string, string) -> bool)

  const ROOT_FILE_NAMES := ["databricks.yml", "databricks.yaml", "bundle.yml", "bundle.yaml"]

  // ----------------------------------------------------- what is to be loaded

  predicate IsRootName(file: string) {
    file in ROOT_FILE_NAMES
  }

  /** Those of the names that exist, as the glob of the root file pattern finds them. */
  function Existing(p: Project, names: seq<string>): seq<string> {
    if names == [] then []
    else (if names[0] in p.files then [names[0]] else []) + Existing(p, names[1..])
  }

  /** The root file, when there is exactly one. */
  function RootFile(p: Project): Option<string> {
    var found := Existing(p, ROOT_FILE_NAMES);
    if |found| != 1 then None else Some(found[0])
  }

  function Patterns(p: Project): seq<string> {
    match RootFile(p)
    case None => []
    case Some(root) => p.includes(root)
  }

  /** A file that a pattern brings in: the root names never come in this way. */
  predicate Brings(p: Project, pattern: string, file: string) {
    file in p.files && p.matches(pattern, file) && !IsRootName(file)
  }

  predicate IsIncluded(p: Project, file: string) {
    exists k | 0 <= k < |Patterns(p)| :: Brings(p, Patterns(p)[k], file)
  }

  /** The position of the first pattern that brings the file in. */
  function FirstFrom(p: Project, patterns: seq<string>, file: string): (k: nat)
    ensures k <= |patterns|
    ensures k < |patterns| ==> Brings(p, patterns[k], file)
    ensures forall i | 0 <= i < k :: !Brings(p, patterns[i], file)
  {
    if patterns == [] || Brings(p, patterns[0], file) then 0 else 1 + FirstFrom(p, patterns[1..], file)
  }

  function First(p: Project, file: string): nat {
    FirstFrom(p, Patterns(p), file)
  }

  /** By first matching pattern, then by name. */
  predicate LoadsBefore(p: Project, a: string, b: string) {
    First(p, a) < First(p, b) || (First(p, a) == First(p, b) && Before(a, b))
  }

  predicate InLoadOrder(p: Project, files: seq<string>) {
    forall i, j | 0 <= i < j < |files| :: LoadsBefore(p, files[i], files[j])
  }

  ghost predicate AreTheIncluded(p: Project, files: seq<string>) {
    forall file :: file in files <==> IsIncluded(p, file)
  }

  /** The result of `getIncludedFiles`, up to the case of no patterns at all. */
  ghost predicate IsIncludeList(p: Project, files: seq<string>) {
    InLoadOrder(p, files) && AreTheIncluded(p, files)
  }

  ghost predicate IsLoadList(p: Project, files: seq<string>) {
    match RootFile(p)
    case None => files == []
    case Some(root) => files != [] && files[0] == root && IsIncludeList(p, files[1..])
  }

  predicate IsLoaded(p: Project, file: string) {
    RootFile(p).Some? && (RootFile(p) == Some(file) || IsIncluded(p, file))
  }

  /** `isBundleFile`, which looks at the name only. */
  predicate IsBundleFile(p: Project, file: string) {
    IsRootName(file) || exists k | 0 <= k < |Patterns(p)| :: p.matches(Patterns(p)[k], file)
  }

  // ------------------------------------------------------------- the methods

  predicate Ascending(files: seq<string>) {
    forall i, j | 0 <= i < j < |files| :: Before(files[i], files[j])
  }

  /** The existing files that match, in no particular order. */
  method Glob(p: Project, pattern: string) returns (files: seq<string>)
    ensures NoRepeats(files)
    ensures forall file :: file in files <==> file in p.files && p.matches(pattern, file)
  {
    files := [];
    var left := p.files;
    while left != {}
      invariant left <= p.files && NoRepeats(files)
      invariant forall file :: file in files <==> file in p.files - left && p.matches(pattern, file)
      decreases |left|
    {
      var file :| file in left;
      left := left - {file};
      if p.matches(pattern, file) {
        files := files + [file];
      }
    }
  }

  method WithoutRoots(files: seq<string>) returns (kept: seq<string>)
    requires NoRepeats(files)
    ensures NoRepeats(kept)
    ensures forall file :: file in kept <==> file in files && !IsRootName(file)
  {
    kept := [];
    for i := 0 to |files|
      invariant NoRepeats(kept)
      invariant forall file :: file in kept <==> file in files[..i] && !IsRootName(file)
    {
      assert files[..i + 1] == files[..i] + [files[i]];
      if !IsRootName(files[i]) {
        kept := kept + [files[i]];
      }
    }
    assert files[..|files|] == files;
  }

  method Insert(sorted: seq<string>, file: string) returns (r: seq<string>)
    requires Ascending(sorted) && file !in sorted
    ensures Ascending(r)
    ensures forall f :: f in r <==> f in sorted || f == file
  {
    var at := 0;
    while at < |sorted| && Before(sorted[at], file)
      invariant at <= |sorted|
      invariant forall i | 0 <= i < at :: Before(sorted[i], file)
    {
      at := at + 1;
    }
    r := sorted[..at] + [file] + sorted[at..];
    InsertedIsAscending(sorted, at, file);
    assert sorted == sorted[..at] + sorted[at..];
  }

  lemma InsertedIsAscending(sorted: seq<string>, at: nat, file: string)
    requires Ascending(sorted) && file !in sorted && at <= |sorted|
    requires forall i | 0 <= i < at :: Before(sorted[i], file)
    requires at < |sorted| ==> !Before(sorted[at], file)
    ensures Ascending(sorted[..at] + [file] + sorted[at..])
  {
    var r := sorted[..at] + [file] + sorted[at..];
    forall i, j | 0 <= i < j < |r|
      ensures Before(r[i], r[j])
    {
      if i == at {
        BeforeIsTotal(sorted[at], file);
        if j > at + 1 {
          BeforeIsTransitive(file, sorted[at], sorted[j - 1]);
        }
      } else if j != at {
        assert r[i] == sorted[if i < at then i else i - 1] && r[j] == sorted[if j < at then j else j - 1];
      }
    }
  }

  method SortByName(files: seq<string>) returns (sorted: seq<string>)
    requires NoRepeats(files)
    ensures Ascending(sorted)
    ensures forall file :: file in sorted <==> file in files
  {
    sorted := [];
    for i := 0 to |files|
      invariant Ascending(sorted)
      invariant forall file :: file in sorted <==> file in files[..i]
    {
      assert files[..i + 1] == files[..i] + [files[i]];
      sorted := Insert(sorted, files[i]);
    }
    assert files[..|files|] == files;
  }

  /** A list of matches, pattern after pattern: `tags` says which pattern put each
      file there. */
  ghost predicate Tagged(p: Project, all: seq<string>, tags: seq<nat>, patterns: nat) {
    && |tags| == |all| && patterns <= |Patterns(p)|
    && (forall i | 0 <= i < |all| :: tags[i] < patterns && Brings(p, Patterns(p)[tags[i]], all[i]))
    && InTagOrder(all, tags)
    && (forall k, file | 0 <= k < patterns && Brings(p, Patterns(p)[k], file) :: Holds(all, tags, k, file))
  }

  ghost predicate InTagOrder(all: seq<string>, tags: seq<nat>) {
    |tags| == |all| &&
    forall i, j | 0 <= i < j < |all| :: tags[i] < tags[j] || (tags[i] == tags[j] && Before(all[i], all[j]))
  }

  ghost predicate Holds(all: seq<string>, tags: seq<nat>, k: nat, file: string) {
    |tags| == |all| && exists i | 0 <= i < |all| :: tags[i] == k && all[i] == file
  }

  function Repeat(k: nat, n: nat): (r: seq<nat>)
    ensures |r| == n && forall i | 0 <= i < n :: r[i] == k
  {
    seq(n, i => k)
  }

  lemma AppendKeepsTagOrder(all: seq<string>, tags: seq<nat>, k: nat, matches: seq<string>)
    requires InTagOrder(all, tags) && Ascending(matches)
    requires forall i | 0 <= i < |all| :: tags[i] < k
    ensures InTagOrder(all + matches, tags + Repeat(k, |matches|))
  {}

  lemma AppendHolds(all: seq<string>, tags: seq<nat>, k: nat, matches: seq<string>, l: nat, file: string)
    requires |tags| == |all| && (Holds(all, tags, l, file) || (l == k && file in matches))
    ensures Holds(all + matches, tags + Repeat(k, |matches|), l, file)
  {
    var all', tags' := all + matches, tags + Repeat(k, |matches|);
    if Holds(all, tags, l, file) {
      var i :| 0 <= i < |all| && tags[i] == l && all[i] == file;
      assert tags'[i] == l && all'[i] == file;
    } else {
      var i :| 0 <= i < |matches| && matches[i] == file;
      assert tags'[|all| + i] == l && all'[|all| + i] == file;
    }
  }

  lemma AppendMatches(p: Project, all: seq<string>, tags: seq<nat>, k: nat, matches: seq<string>)
    requires Tagged(p, all, tags, k) && k < |Patterns(p)| && Ascending(matches)
    requires forall file :: file in matches <==> Brings(p, Patterns(p)[k], file)
    ensures Tagged(p, all + matches, tags + Repeat(k, |matches|), k + 1)
  {
    AppendKeepsTagOrder(all, tags, k, matches);
    forall l, file | 0 <= l < k + 1 && Brings(p, Patterns(p)[l], file)
      ensures Holds(all + matches, tags + Repeat(k, |matches|), l, file)
    {
      AppendHolds(all, tags, k, matches, l, file);
    }
    assert forall i | 0 <= i < |matches| :: matches[i] in matches;
  }

  lemma FirstIsLeast(p: Project, file: string, k: nat)
    requires k < |Patterns(p)| && Brings(p, Patterns(p)[k], file)
    ensures First(p, file) <= k && Brings(p, Patterns(p)[First(p, file)], file)
  {}

  /** A file that did not occur before comes later in load order than all before it. */
  lemma FirstOccurrenceLoadsLast(p: Project, all: seq<string>, tags: seq<nat>, i: nat, j: nat)
    requires Tagged(p, all, tags, |Patterns(p)|) && j < i < |all|
    requires forall k | 0 <= k < i :: all[k] != all[i]
    ensures LoadsBefore(p, all[j], all[i])
  {
    FirstIsLeast(p, all[i], tags[i]);
    FirstIsLeast(p, all[j], tags[j]);
    assert Holds(all, tags, First(p, all[i]), all[i]);
    var k :| 0 <= k < |all| && tags[k] == First(p, all[i]) && all[k] == all[i];
  }

  lemma NewFileLoadsLast(p: Project, all: seq<string>, tags: seq<nat>, files: seq<string>, i: nat)
    requires Tagged(p, all, tags, |Patterns(p)|) && i < |all| && all[i] !in files
    requires forall file :: file in files <==> file in all[..i]
    ensures forall n | 0 <= n < |files| :: LoadsBefore(p, files[n], all[i])
  {
    assert forall k | 0 <= k < i :: all[k] in all[..i];
    forall n | 0 <= n < |files|
      ensures LoadsBefore(p, files[n], all[i])
    {
      assert files[n] in all[..i];
      var j :| 0 <= j < i && all[j] == files[n];
      FirstOccurrenceLoadsLast(p, all, tags, i, j);
    }
  }

  /** `[...new Set(allFiles)]`: the first occurrences. */
  method FirstOccurrences(p: Project, all: seq<string>, ghost tags: seq<nat>) returns (files: seq<string>)
    requires Tagged(p, all, tags, |Patterns(p)|)
    ensures InLoadOrder(p, files)
    ensures forall file :: file in files <==> file in all
  {
    files := [];
    for i := 0 to |all|
      invariant InLoadOrder(p, files)
      invariant forall file :: file in files <==> file in all[..i]
    {
      assert all[..i + 1] == all[..i] + [all[i]];
      if all[i] !in files {
        NewFileLoadsLast(p, all, tags, files, i);
        files := files + [all[i]];
      }
    }
    assert all[..|all|] == all;
  }

  /** `undefined` when there are no patterns. */
  method GetIncludedFiles(p: Project) returns (r: Option<seq<string>>)
    ensures r.None? <==> Patterns(p) == []
    ensures IsIncludeList(p, r.GetOr([]))
  {
    var patterns := Patterns(p);
    if patterns == [] {
      return None;
    }
    var all: seq<string> := [];
    ghost var tags: seq<nat> := [];
    for k := 0 to |patterns|
      invariant Tagged(p, all, tags, k)
    {
      var files := Glob(p, patterns[k]);
      var matches := WithoutRoots(files);
      matches := SortByName(matches);
      AppendMatches(p, all, tags, k, matches);
      all := all + matches;
      tags := tags + Repeat(k, |matches|);
    }
    var files := FirstOccurrences(p, all, tags);
    TaggedAreIncluded(p, all, tags);
    return Some(files);
  }

  lemma TaggedAreIncluded(p: Project, all: seq<string>, tags: seq<nat>)
    requires Tagged(p, all, tags, |Patterns(p)|)
    ensures AreTheIncluded(p, all)
  {
    forall file
      ensures file in all <==> IsIncluded(p, file)
    {
      if file in all {
        var i :| 0 <= i < |all| && all[i] == file;
        assert Brings(p, Patterns(p)[tags[i]], file);
      }
      if IsIncluded(p, file) {
        var k :| 0 <= k < |Patterns(p)| && Brings(p, Patterns(p)[k], file);
        assert Holds(all, tags, k, file);
      }
    }
  }

  method AllFiles(p: Project) returns (files: seq<string>)
    ensures IsLoadList(p, files)
    ensures NoRepeats(files)
    ensures forall file :: file in files <==> IsLoaded(p, file)
  {
    var rootFile := RootFile(p);
    if rootFile.None? {
      return [];
    }
    var included := GetIncludedFiles(p);
    files := [rootFile.value] + included.GetOr([]);
    assert files[1..] == included.GetOr([]);
    LoadListIsExact(p, files);
  }

  method IsIncludedBundleFile(p: Project, file: string) returns (r: bool)
    ensures r <==> exists k | 0 <= k < |Patterns(p)| :: p.matches(Patterns(p)[k], file)
  {
    var patterns := Patterns(p);
    for k := 0 to |patterns|
      invariant forall i | 0 <= i < k :: !p.matches(patterns[i], file)
    {
      if p.matches(patterns[k], file) {
        return true;
      }
    }
    return false;
  }

  /** A parsed file: a map, or null when the file is empty. */
  type Document = t: Tree | !t.Scalar? witness Null

  function Contents(files: seq<string>, read: string -> Document): seq<Tree> {
    seq(|files|, i requires 0 <= i < |files| => read(files[i]))
  }

  method ReadMergedBundle(p: Project, read: string -> Document) returns (bundle: Tree, files: seq<string>)
    ensures IsLoadList(p, files)
    ensures bundle == MergeAll(Contents(files, read))
  {
    files := AllFiles(p);
    var merged: map<string, Tree> := map[];
    for i := 0 to |files|
      invariant Node(merged) == MergeAll(Contents(files[..i], read))
    {
      var data := read(files[i]);
      assert Contents(files[..i + 1], read)[..i] == Contents(files[..i], read);
      if data.Node? {
        merged := BaseMerge(merged, data);
      }
    }
    assert files[..|files|] == files;
    bundle := Node(merged);
  }

  // ------------------------------------------------------------------- proof

  lemma {:induction false} RootExists(p: Project, names: seq<string>)
    ensures forall file :: file in Existing(p, names) <==> file in names && file in p.files
  {
    if names != [] {
      RootExists(p, names[1..]);
      assert names == [names[0]] + names[1..];
    }
  }

  // ------------------------------------------------------- what is loaded, in words

  predicate IsCandidate(p: Project, file: string) {
    file in p.files && file in {"databricks.yml", "databricks.yaml", "bundle.yml", "bundle.yaml"}
  }

  /** The only root file of the project. */
  ghost predicate IsOnlyRoot(p: Project, root: string) {
    IsCandidate(p, root) && forall other | IsCandidate(p, other) :: other == root
  }

  lemma {:induction false} ExistingNoRepeats(p: Project, names: seq<string>)
    requires NoRepeats(names)
    ensures NoRepeats(Existing(p, names))
  {
    if names != [] {
      assert NoRepeats(names[1..]);
      ExistingNoRepeats(p, names[1..]);
      RootExists(p, names[1..]);
      assert forall i | 1 <= i < |names| :: names[i] == names[1..][i - 1];
      var rest := Existing(p, names[1..]);
      assert forall j | 0 <= j < |rest| :: rest[j] in rest;
    }
  }

  lemma RootNames(file: string)
    ensures IsRootName(file) <==> file in {"databricks.yml", "databricks.yaml", "bundle.yml", "bundle.yaml"}
    ensures NoRepeats(ROOT_FILE_NAMES)
  {
    assert "databricks.yml" != "databricks.yaml" && "bundle.yml" != "bundle.yaml" by {
      assert |"databricks.yml"| != |"databricks.yaml"| && |"bundle.yml"| != |"bundle.yaml"|;
    }
    assert "databricks.yml"[0] == "databricks.yaml"[0] == 'd' && "bundle.yml"[0] == "bundle.yaml"[0] == 'b';
  }

  lemma RootFileIff(p: Project, root: string)
    ensures RootFile(p) == Some(root) <==> IsOnlyRoot(p, root)
  {
    var found := Existing(p, ROOT_FILE_NAMES);
    RootExists(p, ROOT_FILE_NAMES);
    RootNames(root);
    ExistingNoRepeats(p, ROOT_FILE_NAMES);
    forall file
      ensures IsCandidate(p, file) <==> file in found
    {
      RootNames(file);
    }
    if IsOnlyRoot(p, root) {
      assert root in found;
      var last := |found| - 1;
      assert found[0] in found && found[last] in found;
      assert found[0] == root == found[last];
    }
  }

  predicate IsMatched(p: Project, root: string, file: string) {
    exists k | 0 <= k < |p.includes(root)| :: p.matches(p.includes(root)[k], file)
  }

  /** The files loaded: with exactly one root file, that and every file that one of
      its patterns matches, other root names excepted; without one, or with more,
      none at all. */
  lemma LoadedIff(p: Project, file: string)
    ensures IsLoaded(p, file) <==>
      exists root | IsOnlyRoot(p, root) ::
        file == root || (file in p.files && !IsCandidate(p, file) && IsMatched(p, root, file))
  {
    forall root
      ensures RootFile(p) == Some(root) <==> IsOnlyRoot(p, root)
    {
      RootFileIff(p, root);
    }
    if RootFile(p).Some? {
      var root := RootFile(p).value;
      IncludedIff(p, root, file);
      assert IsOnlyRoot(p, root);
      assert IsLoaded(p, file) <==>
        file == root || (file in p.files && !IsCandidate(p, file) && IsMatched(p, root, file));
    }
  }

  lemma IncludedIff(p: Project, root: string, file: string)
    requires RootFile(p) == Some(root)
    ensures IsIncluded(p, file) <==> file in p.files && !IsCandidate(p, file) && IsMatched(p, root, file)
  {
    RootNames(file);
    assert Patterns(p) == p.includes(root);
    assert forall k | 0 <= k < |Patterns(p)| ::
        Brings(p, Patterns(p)[k], file) <==> file in p.files && !IsCandidate(p, file) && p.matches(Patterns(p)[k], file);
  }

  /** The membership test: every root name, and what a pattern of the only root
      file matches. */
  lemma TestedIff(p: Project, file: string)
    ensures IsBundleFile(p, file) <==>
      || file in {"databricks.yml", "databricks.yaml", "bundle.yml", "bundle.yaml"}
      || exists root | IsOnlyRoot(p, root) :: IsMatched(p, root, file)
  {
    RootNames(file);
    forall root
      ensures RootFile(p) == Some(root) <==> IsOnlyRoot(p, root)
    {
      RootFileIff(p, root);
    }
    if RootFile(p).Some? {
      var root := RootFile(p).value;
      assert IsOnlyRoot(p, root) && Patterns(p) == p.includes(root);
      assert IsMatched(p, root, file) <==> exists k | 0 <= k < |Patterns(p)| :: p.matches(Patterns(p)[k], file);
    }
  }

  /** Their order: the root file, then by the first pattern that matches, and by
      name among those of one pattern. */
  lemma LoadOrderIs(p: Project, files: seq<string>, i: nat, j: nat)
    requires IsLoadList(p, files) && 0 < i < j < |files|
    ensures IsOnlyRoot(p, files[0])
    ensures var patterns := p.includes(files[0]);
            exists k | 0 <= k < |patterns| ::
              && p.matches(patterns[k], files[i])
              && (forall m | 0 <= m < k :: !p.matches(patterns[m], files[j]))
              && (p.matches(patterns[k], files[j]) ==> Before(files[i], files[j]))
  {
    var root := RootFile(p).value;
    RootFileIff(p, root);
    var a, b := files[1..][i - 1], files[1..][j - 1];
    assert a in files[1..] && b in files[1..];
    assert IsIncluded(p, a) && IsIncluded(p, b);
    FirstOfIncluded(p, a);
    FirstOfIncluded(p, b);
    assert LoadsBefore(p, a, b);
    var k := First(p, a);
    assert p.matches(p.includes(root)[k], a);
  }

  lemma FirstOfIncluded(p: Project, file: string)
    requires IsIncluded(p, file)
    ensures First(p, file) < |Patterns(p)| && p.matches(Patterns(p)[First(p, file)], file)
    ensures forall m | 0 <= m < First(p, file) :: !p.matches(Patterns(p)[m], file)
  {
    var k :| 0 <= k < |Patterns(p)| && Brings(p, Patterns(p)[k], file);
    FirstIsLeast(p, file, k);
  }

  lemma LoadsBeforeIsStrict(p: Project, a: string, b: string)
    requires LoadsBefore(p, a, b)
    ensures a != b && !LoadsBefore(p, b, a)
  {
    if Before(a, b) {
      BeforeIsStrict(a, b);
    }
  }

  /** A load list has no file twice, and has exactly the files that are loaded. */
  lemma LoadListIsExact(p: Project, files: seq<string>)
    requires IsLoadList(p, files)
    ensures NoRepeats(files)
    ensures forall file :: file in files <==> IsLoaded(p, file)
  {
    if RootFile(p).Some? {
      RootExists(p, ROOT_FILE_NAMES);
      assert files == [files[0]] + files[1..];
      assert IsRootName(files[0]);
      forall i, j | 0 <= i < j < |files|
        ensures files[i] != files[j]
      {
        assert files[j] == files[1..][j - 1];
        if i == 0 {
          assert IsIncluded(p, files[j]);
        } else {
          assert files[i] == files[1..][i - 1];
          LoadsBeforeIsStrict(p, files[i], files[j]);
        }
      }
    }
  }

  /** The order leaves no choice: whatever order the glob library answers in, the
      included files come out in the same one. */
  lemma {:induction false} IncludeListIsUnique(p: Project, one: seq<string>, other: seq<string>)
    requires InLoadOrder(p, one) && InLoadOrder(p, other)
    requires forall file :: file in one <==> file in other
    ensures one == other
  {
    assert forall i | 0 <= i < |one| :: one[i] in other;
    assert forall j | 0 <= j < |other| :: other[j] in one;
    if one != [] && other != [] {
      var i :| 0 <= i < |one| && one[i] == other[0];
      var j :| 0 <= j < |other| && other[j] == one[0];
      if i > 0 {
        LoadsBeforeIsStrict(p, one[0], other[0]);
      }
      assert one[0] == other[0];
      TailIsTheRest(p, one);
      TailIsTheRest(p, other);
      IncludeListIsUnique(p, one[1..], other[1..]);
      assert one == [one[0]] + one[1..] && other == [other[0]] + other[1..];
    }
  }

  lemma TailIsTheRest(p: Project, files: seq<string>)
    requires files != [] && InLoadOrder(p, files)
    ensures InLoadOrder(p, files[1..])
    ensures forall file :: file in files[1..] <==> file in files && file != files[0]
  {
    forall i | 1 <= i < |files|
      ensures files[i] != files[0]
    {
      LoadsBeforeIsStrict(p, files[0], files[i]);
    }
    assert files == [files[0]] + files[1..];
  }

  lemma LoadListIsUnique(p: Project, one: seq<string>, other: seq<string>)
    requires IsLoadList(p, one) && IsLoadList(p, other)
    ensures one == other
  {
    if RootFile(p).Some? {
      IncludeListIsUnique(p, one[1..], other[1..]);
      assert one == [one[0]] + one[1..] && other == [other[0]] + other[1..];
    }
  }

  predicate MembershipAgrees(p: Project) {
    forall file | file in p.files :: IsBundleFile(p, file) <==> IsLoaded(p, file)
  }

  /** The membership test and the loader agree on every existing file exactly when
      the project has no more than one root file: with two, the loader gives up
      and the test does not. */
  lemma AgreesIffAtMostOneRoot(p: Project)
    ensures MembershipAgrees(p) <==> |Existing(p, ROOT_FILE_NAMES)| <= 1
  {
    var roots := Existing(p, ROOT_FILE_NAMES);
    RootExists(p, ROOT_FILE_NAMES);
    if |roots| > 1 {
      assert roots[0] in roots;
      assert IsBundleFile(p, roots[0]) && !IsLoaded(p, roots[0]);
    } else {
      forall file | file in p.files
        ensures IsBundleFile(p, file) <==> IsLoaded(p, file)
      {
        AgreesOnFile(p, file);
      }
    }
  }

  /** Such a project: two root files, whatever they include. */
  lemma TwoRootsDisagree(p: Project)
    requires p.files == {"databricks.yml", "bundle.yml"}
    ensures IsBundleFile(p, "bundle.yml") && !IsLoaded(p, "bundle.yml")
  {
    var roots := Existing(p, ROOT_FILE_NAMES);
    RootExists(p, ROOT_FILE_NAMES);
    assert ROOT_FILE_NAMES[0] == "databricks.yml" && ROOT_FILE_NAMES[2] == "bundle.yml";
    assert "databricks.yml" in roots && "bundle.yml" in roots;
    assert "databricks.yml"[0] != "bundle.yml"[0];
  }

  lemma AgreesOnFile(p: Project, file: string)
    requires file in p.files && |Existing(p, ROOT_FILE_NAMES)| <= 1
    ensures IsBundleFile(p, file) <==> IsLoaded(p, file)
  {
    var roots := Existing(p, ROOT_FILE_NAMES);
    RootExists(p, ROOT_FILE_NAMES);
    if IsRootName(file) {
      assert file in roots;
    } else {
      forall k | 0 <= k < |Patterns(p)|
        ensures p.matches(Patterns(p)[k], file) <==> Brings(p, Patterns(p)[k], file)
      {}
      assert RootFile(p).Some? ==> IsRootName(RootFile(p).value) by {
        assert roots != [] ==> roots[0] in roots;
      }
    }
  }
}
