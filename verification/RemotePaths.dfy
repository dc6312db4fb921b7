/** Local paths and their counterparts in the remote workspace
    (packages/databricks-execute/src/core.ts), on a POSIX system. `cwd` is the
    working directory, which `path.relative` consults. */
module RemotePaths {
  import opened Wrappers
  import opened Paths

  const WORKSPACE := "/Workspace"

  /** `p.replace(/\\/gu, "/")` */
  function Slashes(p: string): (r: string)
    ensures |r| == |p| && forall i | 0 <= i < |p| :: r[i] == if p[i] == '\\' then '/' else p[i]
  {
    seq(|p|, i requires 0 <= i < |p| => if p[i] == '\\' then '/' else p[i])
  }

  function NormalizeWorkspacePath(p: string): string {
    var normalized := Normalize(Slashes(p));
    if StartsWith(normalized, WORKSPACE + "/") then Normalize(normalized[|WORKSPACE|..]) else normalized
  }

  function WorkspacePrefixedPath(p: string): string {
    JoinPaths([WORKSPACE, NormalizeWorkspacePath(p)])
  }

  /** `None` where the source throws: the file is not within the root. */
  function LocalToRemote(cwd: string, localFile: string, localRoot: string, remoteRoot: string): Option<string> {
    var relative := Relative(cwd, localRoot, localFile);
    if StartsWith(relative, "..") || IsAbsolute(relative) then None
    else Some(JoinPaths([WorkspacePrefixedPath(remoteRoot), relative]))
  }

  function RemoteToLocal(cwd: string, remoteFile: string, localRoot: string, remoteRoot: string): Option<string> {
    var rel := Relative(cwd, NormalizeWorkspacePath(remoteRoot), NormalizeWorkspacePath(remoteFile));
    if StartsWith(rel, "..") then None else Some(JoinPaths([localRoot] + Split(rel)))
  }

  // ------------------------------------------------- normalised workspace paths

  /** An absolute path once its backslashes are slashes. */
  predicate IsRooted(p: string) {
    p != "" && (p[0] == '/' || p[0] == '\\')
  }

  predicate NoBackslash(s: string) {
    '\\' !in s
  }

  predicate AllNoBackslash(segments: seq<string>) {
    forall i | 0 <= i < |segments| :: NoBackslash(segments[i])
  }

  lemma {:induction false} SplitNoBackslash(p: string)
    requires NoBackslash(p)
    ensures AllNoBackslash(Split(p))
  {
    if p != "" {
      SplitNoBackslash(p[1..]);
    }
  }

  lemma {:induction false} FoldNoBackslash(stack: seq<string>, segments: seq<string>)
    requires AllNoBackslash(stack) && AllNoBackslash(segments)
    ensures AllNoBackslash(Fold(stack, segments, true))
    decreases |segments|
  {
    if segments != [] {
      FoldNoBackslash(stack, segments[..|segments| - 1]);
    }
  }

  /** The text up to the first slash. */
  lemma FirstNameIs(name: string, rest: string, other: string)
    requires NoSlash(name) && NoSlash(other) && (rest != "" ==> rest[0] == '/')
    ensures StartsWith(name + rest, other + "/") <==> name == other && rest != ""
  {
    var s := name + rest;
    SplitName(name);
    SplitName(other);
    if rest != "" {
      assert s == name + "/" + rest[1..];
      SplitConcat(name, rest[1..]);
    } else {
      assert s == name;
    }
    assert Split(s)[0] == name && (|Split(s)| > 1 <==> rest != "");
    if StartsWith(s, other + "/") {
      var tail := s[|other| + 1..];
      assert s == other + "/" + tail;
      SplitConcat(other, tail);
      assert Split(s)[0] == other && |Split(s)| > 1;
    }
    if name == other && rest != "" {
      assert s[..|other| + 1] == other + "/";
    }
  }

  lemma SlashPrefix(s: string, prefix: string)
    ensures StartsWith("/" + s, "/" + prefix) <==> StartsWith(s, prefix)
  {
    if |prefix| <= |s| {
      assert ("/" + s)[..|"/" + prefix|] == "/" + s[..|prefix|];
      assert ("/" + prefix)[1..] == prefix && ("/" + s[..|prefix|])[1..] == s[..|prefix|];
    }
  }

  /** The path starts with "/" and a name and a slash exactly when that is its
      first name and something, if only a slash, follows. */
  lemma HasFirst(names: seq<string>, trailing: bool, name: string)
    requires AllNames(names) && NoSlash(name)
    ensures StartsWith(Absolute(names, trailing), "/" + (name + "/")) <==>
            names != [] && names[0] == name && (|names| > 1 || trailing)
    ensures StartsWith(Absolute(names, trailing), "/" + (name + "/")) ==>
            Absolute(names, trailing)[|"/" + name|..] == Absolute(names[1..], trailing)
  {
    if names == [] {
      assert |Absolute(names, trailing)| == 1;
    } else {
      var rest := AfterFirst(names, trailing);
      FirstNameIs(names[0], rest, name);
      SlashPrefix(names[0] + rest, name + "/");
      Concatenation("/", names[0], rest);
      assert (("/" + names[0]) + rest)[|"/" + names[0]|..] == rest;
    }
  }

  lemma HasPrefix(names: seq<string>, trailing: bool)
    requires AllNames(names)
    ensures StartsWith(Absolute(names, trailing), WORKSPACE + "/") <==>
            names != [] && names[0] == "Workspace" && (|names| > 1 || trailing)
    ensures StartsWith(Absolute(names, trailing), WORKSPACE + "/") ==>
            Absolute(names, trailing)[|WORKSPACE|..] == Absolute(names[1..], trailing)
  {
    assert WORKSPACE == "/" + "Workspace" && WORKSPACE + "/" == "/" + ("Workspace" + "/");
    HasFirst(names, trailing, "Workspace");
  }

  lemma AfterFirst(names: seq<string>, trailing: bool) returns (rest: string)
    requires AllNames(names) && names != []
    ensures Absolute(names, trailing) == "/" + (names[0] + rest)
    ensures rest != "" <==> |names| > 1 || trailing
    ensures rest != "" ==> rest == Absolute(names[1..], trailing)
  {
    if |names| == 1 {
      rest := if trailing then "/" else "";
      assert JoinNames([]) == "" && "/" + "" + "" == "/";
    } else {
      var end := if trailing then "/" else "";
      rest := "/" + JoinNames(names[1..]) + end;
      assert "/" + (names[0] + "/" + JoinNames(names[1..])) + end == "/" + (names[0] + rest);
    }
  }

  /** What an absolute path becomes: the names without a first "Workspace". */
  lemma NormalizedWorkspace(p: string) returns (names: seq<string>, trailing: bool)
    requires IsAbsolute(Slashes(p))
    ensures AllNames(names) && AllNoBackslash(names) && NormalizeWorkspacePath(p) == Absolute(names, trailing)
  {
    var q := Slashes(p);
    var all := Fold([], Split(q), true);
    trailing := EndsWithSlash(q);
    NormalizeAbsolute(q);
    assert NoBackslash(q);
    SplitNoBackslash(q);
    FoldNoBackslash([], Split(q));
    HasPrefix(all, trailing);
    if StartsWith(Absolute(all, trailing), WORKSPACE + "/") {
      names := all[1..];
      NormalizeNormal(names, trailing);
    } else {
      names := all;
    }
  }

  /** A normalised path stays as it is. */
  lemma NormalizeNormal(names: seq<string>, trailing: bool)
    requires AllNames(names)
    ensures Normalize(Absolute(names, trailing)) == Absolute(names, trailing)
  {
    SplitAbsolute(names, trailing);
    NormalizeAbsolute(Absolute(names, trailing));
  }

  /** The prefixed form of a root: always under "/Workspace". */
  lemma Prefixed(root: string, names: seq<string>, trailing: bool)
    requires AllNames(names) && NormalizeWorkspacePath(root) == Absolute(names, trailing)
    ensures WorkspacePrefixedPath(root) == Absolute(["Workspace"] + names, trailing || names == [])
  {
    WorkspaceIsName();
    JoinedUnder("Workspace", Absolute(names, trailing), names, trailing);
  }

  lemma WorkspaceIsName()
    ensures WORKSPACE == "/" + "Workspace" && IsName("Workspace")
  {}

  lemma JoinedUnder(name: string, p: string, names: seq<string>, trailing: bool)
    requires IsName(name) && AllNames(names) && p == Absolute(names, trailing)
    ensures JoinPaths(["/" + name, p]) == Absolute([name] + names, trailing || names == [])
  {
    var q := "/" + name + "/" + p;
    SplitAbsolute(names, trailing);
    JoinTwo("/" + name, p);
    FoldUnder(name, p, names, trailing);
    NormalizeAbsolute(q);
  }

  lemma FoldUnder(name: string, p: string, names: seq<string>, trailing: bool)
    requires IsName(name) && AllNames(names) && p == Absolute(names, trailing)
    ensures Fold([], Split("/" + name + "/" + p), true) == [name] + names
  {
    SplitConcat("/" + name, p);
    RootedName(name);
    FoldConcat([], ["", name], Split(p), true);
    FoldStack([name], p, names, trailing);
  }

  lemma JoinTwo(a: string, b: string)
    requires a != ""
    ensures b != "" ==> JoinPaths([a, b]) == Normalize(a + "/" + b)
    ensures b == "" ==> JoinPaths([a, b]) == Normalize(a)
  {
    assert [a, b][1..] == [b] && [b][1..] == [];
    assert NonEmpty([b]) == if b == "" then [] else [b];
    assert NonEmpty([a, b]) == if b == "" then [a] else [a, b];
    assert JoinNames([a, b]) == a + "/" + JoinNames([b]);
  }

  lemma RootedName(name: string)
    requires NoSlash(name) && AllNames([name])
    ensures Split("/" + name) == ["", name] && Fold([], ["", name], true) == [name]
  {
    SplitName(name);
    assert ("/" + name)[1..] == name;
    assert ["", name][..1] == [""] && [""][..0] == [];
  }

  lemma SplitRoot()
    ensures Split("/") == ["", ""]
  {
    assert "/"[1..] == "" && [""] + [""] == ["", ""];
  }

  lemma FoldBlanks(stack: seq<string>)
    ensures Fold(stack, ["", ""], true) == stack
  {
    assert ["", ""][..1] == [""] && [""][..0] == [];
  }

  lemma FoldSegments(stack: seq<string>, names: seq<string>, trailing: bool)
    requires AllNames(names)
    ensures Fold(stack, [""] + names + if trailing then [""] else [], true) == stack + names
  {
    FoldNames(stack, names, true);
    FoldBlank(stack, names, true);
    if trailing {
      FoldBlank(stack, names + [""], true);
      assert [""] + names + [""] == [""] + (names + [""]);
    } else {
      assert [""] + names + [] == [""] + names;
    }
  }

  /** An absolute path appended to others only adds its names. */
  lemma FoldStack(stack: seq<string>, p: string, names: seq<string>, trailing: bool)
    requires AllNames(names) && p == Absolute(names, trailing)
    ensures Fold(stack, Split(p), true) == stack + names
  {
    if names == [] {
      assert p == "/";
      SplitRoot();
      FoldBlanks(stack);
    } else {
      SplitOfNames(names, trailing);
      FoldSegments(stack, names, trailing);
    }
  }

  lemma SplitOfNames(names: seq<string>, trailing: bool)
    requires AllNames(names) && names != []
    ensures Split(Absolute(names, trailing)) == [""] + names + if trailing then [""] else []
  {
    var body := JoinNames(names);
    SplitJoin(names);
    assert Absolute(names, false) == "" + "/" + body;
    SplitConcat("", body);
    assert Split("") == [""];
    if trailing {
      assert Absolute(names, true) == ("" + "/" + body) + "/" + "";
      SplitConcat("" + "/" + body, "");
    } else {
      assert [""] + names + [] == [""] + names;
    }
  }

  // ------------------------------------------------------------ local to remote

  /** `Relative` by names: up to the common part, and down. */
  lemma RelativeInside(cwd: string, from: string, to: string)
    requires IsAbsolute(cwd)
    ensures AllNames(Resolve(cwd, from)) && AllNames(Resolve(cwd, to))
    ensures var f, t := Resolve(cwd, from), Resolve(cwd, to);
            if f <= t then Relative(cwd, from, to) == JoinNames(t[|f|..]) else StartsWith(Relative(cwd, from, to), "..")
  {
    var f, t := Resolve(cwd, from), Resolve(cwd, to);
    ResolveIsNames(cwd, from);
    ResolveIsNames(cwd, to);
    var k := Common(f, t);
    var ups := seq(|f| - k, _ => "..");
    if f <= t {
      assert k == |f|;
      assert ups + t[k..] == t[|f|..];
    } else {
      assert k < |f|;
      JoinStarts(ups + t[k..]);
    }
  }

  lemma ResolveIsNames(cwd: string, p: string)
    requires IsAbsolute(cwd)
    ensures AllNames(Resolve(cwd, p))
  {
    NormalizeAbsolute(if IsAbsolute(p) then p else cwd + "/" + p);
  }

  lemma TwoDots(s: string)
    ensures StartsWith(s, "..") <==> |s| >= 2 && s[0] == '.' && s[1] == '.'
  {}

  lemma JoinStarts(segments: seq<string>)
    requires segments != []
    ensures StartsWith(JoinNames(segments), "..") <==> StartsWith(segments[0], "..")
  {
    TwoDots(segments[0]);
    TwoDots(JoinNames(segments));
    assert |segments| > 1 ==> JoinNames(segments) == segments[0] + "/" + JoinNames(segments[1..]);
  }

  /** Which files are accepted: those within the root, unless the first name
      below the root begins with two dots. */
  predicate Accepted(root: seq<string>, file: seq<string>) {
    root <= file && (|root| < |file| ==> !StartsWith(file[|root|], ".."))
  }

  /** A file in "..cache" below the root is refused though it is within the root. */
  lemma AcceptedIff(cwd: string, localFile: string, localRoot: string, remoteRoot: string)
    requires IsAbsolute(cwd)
    ensures LocalToRemote(cwd, localFile, localRoot, remoteRoot).Some?
       <==> Accepted(Resolve(cwd, localRoot), Resolve(cwd, localFile))
  {
    var root, file := Resolve(cwd, localRoot), Resolve(cwd, localFile);
    RelativeInside(cwd, localRoot, localFile);
    if root <= file && |root| < |file| {
      var rest := file[|root|..];
      JoinStarts(rest);
      JoinIsEmpty(rest);
      assert rest[0][0] in rest[0];
    }
  }

  lemma RemoteValue(cwd: string, localFile: string, localRoot: string, remoteRoot: string)
    requires LocalToRemote(cwd, localFile, localRoot, remoteRoot).Some?
    ensures LocalToRemote(cwd, localFile, localRoot, remoteRoot).value ==
            JoinPaths([WorkspacePrefixedPath(remoteRoot), Relative(cwd, localRoot, localFile)])
  {}

  lemma AcceptedRemote(cwd: string, localFile: string, localRoot: string, remoteRoot: string)
      returns (rest: seq<string>)
    requires IsAbsolute(cwd) && LocalToRemote(cwd, localFile, localRoot, remoteRoot).Some?
    ensures AllNames(rest) && Resolve(cwd, localFile) == Resolve(cwd, localRoot) + rest
    ensures rest != [] ==> !StartsWith(rest[0], "..")
    ensures Relative(cwd, localRoot, localFile) == JoinNames(rest)
    ensures LocalToRemote(cwd, localFile, localRoot, remoteRoot).value
         == JoinPaths([WorkspacePrefixedPath(remoteRoot), JoinNames(rest)])
  {
    RemoteValue(cwd, localFile, localRoot, remoteRoot);
    AcceptedIff(cwd, localFile, localRoot, remoteRoot);
    rest := AcceptedRest(cwd, localFile, localRoot);
  }

  lemma AcceptedRest(cwd: string, localFile: string, localRoot: string) returns (rest: seq<string>)
    requires IsAbsolute(cwd) && Accepted(Resolve(cwd, localRoot), Resolve(cwd, localFile))
    ensures AllNames(rest) && Resolve(cwd, localFile) == Resolve(cwd, localRoot) + rest
    ensures rest != [] ==> !StartsWith(rest[0], "..")
    ensures Relative(cwd, localRoot, localFile) == JoinNames(rest)
  {
    RelativeInside(cwd, localRoot, localFile);
    rest := Resolve(cwd, localFile)[|Resolve(cwd, localRoot)|..];
  }

  /** The remote path of an accepted file. */
  lemma RemoteOf(remoteRoot: string, names: seq<string>, t: bool, rest: seq<string>)
      returns (trailing: bool)
    requires AllNames(names) && AllNames(rest) && NormalizeWorkspacePath(remoteRoot) == Absolute(names, t)
    ensures JoinPaths([WorkspacePrefixedPath(remoteRoot), JoinNames(rest)]) == Absolute(["Workspace"] + (names + rest), trailing)
    ensures trailing <==> (t || names == []) && rest == []
  {
    Prefixed(remoteRoot, names, t);
    trailing := RemoteBelow(WorkspacePrefixedPath(remoteRoot), names, t || names == [], rest);
  }

  lemma RemoteBelow(prefixed: string, names: seq<string>, t: bool, rest: seq<string>)
      returns (trailing: bool)
    requires AllNames(["Workspace"] + names) && AllNames(rest) && prefixed == Absolute(["Workspace"] + names, t)
    ensures JoinPaths([prefixed, JoinNames(rest)]) == Absolute(["Workspace"] + (names + rest), trailing)
    ensures trailing <==> t && rest == []
  {
    trailing := t && rest == [];
    AppendNames(["Workspace"] + names, t, rest);
    Concatenation(["Workspace"], names, rest);
  }

  lemma AppendNames(names: seq<string>, trailing: bool, rest: seq<string>)
    requires AllNames(names) && names != [] && AllNames(rest)
    ensures JoinPaths([Absolute(names, trailing), JoinNames(rest)]) == Absolute(names + rest, trailing && rest == [])
  {
    var p, q := Absolute(names, trailing), JoinNames(rest);
    JoinTwo(p, q);
    JoinIsEmpty(rest);
    if rest == [] {
      NormalizeNormal(names, trailing);
      assert names + rest == names;
    } else {
      SplitConcat(p, q);
      SplitJoin(rest);
      FoldConcat([], Split(p), rest, true);
      SplitAbsolute(names, trailing);
      FoldNames(names, rest, true);
      NormalizeAbsolute(p + "/" + q);
    }
  }

  // ------------------------------------------------------------ remote to local

  lemma JoinedLocal(cwd: string, localRoot: string, names: seq<string>)
    requires IsAbsolute(cwd) && AllNames(names)
    ensures Resolve(cwd, JoinPaths([localRoot] + Split(JoinNames(names)))) == Resolve(cwd, localRoot) + names
  {
    var p := JoinNames(NonEmpty([localRoot] + Split(JoinNames(names))));
    ResolveNormalized(cwd, p);
    if names == [] {
      assert Split("") == [""];
      assert ([localRoot] + [""])[1..] == [""] && [""][1..] == [];
      assert NonEmpty([""]) == [];
      assert Resolve(cwd, localRoot) + names == Resolve(cwd, localRoot);
    } else {
      SplitJoin(names);
      NonEmptyNames(names);
      assert ([localRoot] + names)[1..] == names;
      if localRoot == "" {
        assert [] + names == names;
        ResolveNames(cwd, names);
      } else {
        assert ([localRoot] + names)[1..] == names;
        assert p == localRoot + "/" + JoinNames(names);
        ResolveBelow(cwd, localRoot, names);
      }
    }
  }

  lemma {:induction false} NonEmptyNames(names: seq<string>)
    requires AllNames(names)
    ensures NonEmpty(names) == names
  {
    if names != [] {
      NonEmptyNames(names[1..]);
    }
  }

  lemma ResolveNames(cwd: string, names: seq<string>)
    requires IsAbsolute(cwd) && AllNames(names) && names != []
    ensures Resolve(cwd, JoinNames(names)) == Resolve(cwd, "") + names
  {
    JoinIsEmpty(names);
    assert names[0][0] in names[0];
    ResolveRelative(cwd, JoinNames(names));
    ResolveRelative(cwd, "");
    SplitJoin(names);
    FoldNames(Fold([], Split(cwd), true), names, true);
    FoldBlank(Fold([], Split(cwd), true), [], true);
    assert Split("") == [""] + [];
  }

  lemma ResolveBelow(cwd: string, p: string, names: seq<string>)
    requires AllNames(names) && names != [] && p != ""
    ensures Resolve(cwd, p + "/" + JoinNames(names)) == Resolve(cwd, p) + names
  {
    var q := if IsAbsolute(p) then p else cwd + "/" + p;
    assert !IsAbsolute(p) ==> cwd + "/" + (p + "/" + JoinNames(names)) == q + "/" + JoinNames(names);
    SplitConcat(q, JoinNames(names));
    SplitJoin(names);
    FoldConcat([], Split(q), names, true);
    FoldNames(Fold([], Split(q), true), names, true);
  }

  /** What `RemoteToLocal` gives for a remote file with the given names. */
  lemma LocalOf(cwd: string, remoteFile: string, localRoot: string, remoteRoot: string,
                                   root: seq<string>, t: bool, names: seq<string>, u: bool)
    requires IsAbsolute(cwd) && AllNames(root) && AllNames(names)
    requires NormalizeWorkspacePath(remoteRoot) == Absolute(root, t)
    requires NormalizeWorkspacePath(remoteFile) == Absolute(names, u)
    ensures var l := RemoteToLocal(cwd, remoteFile, localRoot, remoteRoot);
            if Accepted(root, names) then l.Some? && Resolve(cwd, l.value) == Resolve(cwd, localRoot) + names[|root|..]
            else l.None?
  {
    SplitAbsolute(root, t);
    SplitAbsolute(names, u);
    RelativeInside(cwd, Absolute(root, t), Absolute(names, u));
    if root <= names {
      var rest := names[|root|..];
      if rest != [] {
        JoinStarts(rest);
      }
      JoinedLocal(cwd, localRoot, rest);
    }
  }

  lemma SlashesKept(names: seq<string>, trailing: bool)
    requires AllNoBackslash(names)
    ensures Slashes(Absolute(names, trailing)) == Absolute(names, trailing)
  {
    JoinNoBackslash(names);
  }

  lemma {:induction false} JoinNoBackslash(names: seq<string>)
    requires AllNoBackslash(names)
    ensures NoBackslash(JoinNames(names))
  {
    if |names| > 1 {
      JoinNoBackslash(names[1..]);
    }
  }

  /** Without backslashes, the remote path normalises to the root and the rest. */
  lemma PlainRemote(remote: string, names: seq<string>, trailing: bool)
    requires AllNames(names) && AllNoBackslash(names) && (names == [] ==> trailing)
    requires remote == Absolute(["Workspace"] + names, trailing)
    ensures NormalizeWorkspacePath(remote) == Absolute(names, trailing)
  {
    var all := ["Workspace"] + names;
    SlashesKept(all, trailing);
    NormalizeNormal(all, trailing);
    HasPrefix(all, trailing);
    assert all[1..] == names;
    NormalizeNormal(names, trailing);
  }

  lemma BackFromPlain(cwd: string, remote: string, localRoot: string, remoteRoot: string,
                                         root: seq<string>, t: bool, rest: seq<string>, trailing: bool)
    requires IsAbsolute(cwd) && AllNames(root + rest) && AllNames(root) && AllNoBackslash(root + rest)
    requires rest != [] ==> !StartsWith(rest[0], "..")
    requires root + rest == [] ==> trailing
    requires NormalizeWorkspacePath(remoteRoot) == Absolute(root, t)
    requires remote == Absolute(["Workspace"] + (root + rest), trailing)
    ensures var back := RemoteToLocal(cwd, remote, localRoot, remoteRoot);
            back.Some? && Resolve(cwd, back.value) == Resolve(cwd, localRoot) + rest
  {
    PlainRemote(remote, root + rest, trailing);
    LocalOf(cwd, remote, localRoot, remoteRoot, root, t, root + rest, trailing);
    assert (root + rest)[|root|..] == rest;
  }

  lemma BackFromOther(cwd: string, remote: string, localRoot: string, remoteRoot: string,
                                         root: seq<string>, t: bool, rest: seq<string>)
    requires IsAbsolute(cwd) && AllNames(root) && !AllNoBackslash(rest)
    requires NormalizeWorkspacePath(remoteRoot) == Absolute(root, t)
    requires IsAbsolute(Slashes(remote))
    ensures var back := RemoteToLocal(cwd, remote, localRoot, remoteRoot);
            !(back.Some? && Resolve(cwd, back.value) == Resolve(cwd, localRoot) + rest)
  {
    var base := Resolve(cwd, localRoot);
    var names, u := NormalizedWorkspace(remote);
    LocalOf(cwd, remote, localRoot, remoteRoot, root, t, names, u);
    if Accepted(root, names) {
      assert AllNoBackslash(names[|root|..]);
      assert (base + names[|root|..])[|base|..] != (base + rest)[|base|..];
    }
  }

  lemma BackFrom(cwd: string, remote: string, localRoot: string, remoteRoot: string,
                                    root: seq<string>, t: bool, rest: seq<string>, trailing: bool)
    requires IsAbsolute(cwd) && AllNames(root) && AllNames(rest) && AllNoBackslash(root)
    requires rest != [] ==> !StartsWith(rest[0], "..")
    requires root + rest == [] ==> trailing
    requires NormalizeWorkspacePath(remoteRoot) == Absolute(root, t)
    requires remote == Absolute(["Workspace"] + (root + rest), trailing)
    ensures var back := RemoteToLocal(cwd, remote, localRoot, remoteRoot);
            AllNoBackslash(rest) <==> back.Some? && Resolve(cwd, back.value) == Resolve(cwd, localRoot) + rest
  {
    if AllNoBackslash(rest) {
      BackFromPlain(cwd, remote, localRoot, remoteRoot, root, t, rest, trailing);
    } else {
      SplitAbsolute(["Workspace"] + (root + rest), trailing);
      BackFromOther(cwd, remote, localRoot, remoteRoot, root, t, rest);
    }
  }

  /** The remote path of an accepted file leads back to that file exactly when
      its path below the root has no backslash, for every absolute remote root. */
  lemma PathRoundTripIffNoBackslash(cwd: string, localFile: string, localRoot: string, remoteRoot: string)
    requires IsAbsolute(cwd) && IsRooted(remoteRoot)
    ensures var remote := LocalToRemote(cwd, localFile, localRoot, remoteRoot);
            remote.Some? ==>
              var back := RemoteToLocal(cwd, remote.value, localRoot, remoteRoot);
              NoBackslash(Relative(cwd, localRoot, localFile)) <==>
                back.Some? && Resolve(cwd, back.value) == Resolve(cwd, localFile)
  {
    if LocalToRemote(cwd, localFile, localRoot, remoteRoot).Some? {
      RoundTripOfAccepted(cwd, localFile, localRoot, remoteRoot);
    }
  }

  lemma RoundTripOfAccepted(cwd: string, localFile: string, localRoot: string, remoteRoot: string)
    requires IsAbsolute(cwd) && IsRooted(remoteRoot)
    requires LocalToRemote(cwd, localFile, localRoot, remoteRoot).Some?
    ensures var remote := LocalToRemote(cwd, localFile, localRoot, remoteRoot).value;
            var back := RemoteToLocal(cwd, remote, localRoot, remoteRoot);
            NoBackslash(Relative(cwd, localRoot, localFile)) <==>
              back.Some? && Resolve(cwd, back.value) == Resolve(cwd, localFile)
  {
    var root, t := NormalizedWorkspace(remoteRoot);
    var rest := AcceptedRemote(cwd, localFile, localRoot, remoteRoot);
    var trailing := RemoteOf(remoteRoot, root, t, rest);
    var remote := LocalToRemote(cwd, localFile, localRoot, remoteRoot).value;
    BackFrom(cwd, remote, localRoot, remoteRoot, root, t, rest, trailing);
    if AllNoBackslash(rest) {
      JoinNoBackslash(rest);
    } else {
      JoinHasBackslash(rest);
    }
  }

  /** Every file below the root whose path from there has a backslash, and does not
      start with "..", is accepted, and its remote path does not lead back to it. */
  lemma BackslashIsLost(cwd: string, root: seq<string>, rest: seq<string>, remoteRoot: string)
    requires IsAbsolute(cwd) && IsRooted(remoteRoot) && AllNames(root) && AllNames(rest)
    requires rest != [] && !StartsWith(rest[0], "..") && !AllNoBackslash(rest)
    ensures var localRoot, localFile := Absolute(root, false), Absolute(root + rest, false);
            var remote := LocalToRemote(cwd, localFile, localRoot, remoteRoot);
            remote.Some? &&
            var back := RemoteToLocal(cwd, remote.value, localRoot, remoteRoot);
            !(back.Some? && Resolve(cwd, back.value) == Resolve(cwd, localFile))
  {
    var localRoot, localFile := Absolute(root, false), Absolute(root + rest, false);
    SplitAbsolute(root, false);
    SplitAbsolute(root + rest, false);
    AcceptedIff(cwd, localFile, localRoot, remoteRoot);
    RelativeInside(cwd, localRoot, localFile);
    assert (root + rest)[|root|..] == rest;
    JoinHasBackslash(rest);
    RoundTripOfAccepted(cwd, localFile, localRoot, remoteRoot);
  }

  /** The path of a remote file always starts with "/Workspace/". */
  lemma RemoteIsUnderWorkspace(cwd: string, localFile: string, localRoot: string, remoteRoot: string)
    requires IsAbsolute(cwd) && IsRooted(remoteRoot)
    ensures var remote := LocalToRemote(cwd, localFile, localRoot, remoteRoot);
            remote.Some? ==> StartsWith(remote.value, WORKSPACE + "/")
  {
    if LocalToRemote(cwd, localFile, localRoot, remoteRoot).Some? {
      var root, t := NormalizedWorkspace(remoteRoot);
      var rest := AcceptedRemote(cwd, localFile, localRoot, remoteRoot);
      var trailing := RemoteOf(remoteRoot, root, t, rest);
      UnderPrefix(root + rest, trailing);
    }
  }

  predicate IsRemoteRoot(remoteRoot: string, base: seq<string>) {
    && base != [] && base[0] != "Workspace" && AllNames(base) && AllNoBackslash(base)
    && remoteRoot in {"/" + JoinNames(base), "/Workspace/" + JoinNames(base)}
  }

  lemma WrittenOut(names: seq<string>)
    requires names != []
    ensures Absolute(["Workspace"] + names, false) == "/Workspace/" + JoinNames(names)
  {
    var all := ["Workspace"] + names;
    assert all[1..] == names;
    assert JoinNames(all) == "Workspace" + "/" + JoinNames(names);
    assert Absolute(all, false) == "/" + JoinNames(all) + "";
  }

  lemma RootIsBase(remoteRoot: string, base: seq<string>)
    requires IsRemoteRoot(remoteRoot, base)
    ensures NormalizeWorkspacePath(remoteRoot) == Absolute(base, false)
  {
    WrittenOut(base);
    assert Absolute(base, false) == "/" + JoinNames(base);
    if remoteRoot == Absolute(base, false) {
      SlashesKept(base, false);
      NormalizeNormal(base, false);
      HasPrefix(base, false);
    } else {
      PlainRemote(remoteRoot, base, false);
    }
  }

  /** The remote path of a file, written out: the names of the remote root, whether
      it was given with the prefix or without, and those below the local root. */
  lemma RemotePathIs(cwd: string, localFile: string, localRoot: string, remoteRoot: string,
                     base: seq<string>, rest: seq<string>)
    requires IsAbsolute(cwd) && IsRemoteRoot(remoteRoot, base) && AllNames(rest)
    requires Resolve(cwd, localFile) == Resolve(cwd, localRoot) + rest
    requires rest != [] ==> !(|rest[0]| >= 2 && rest[0][..2] == "..")
    ensures LocalToRemote(cwd, localFile, localRoot, remoteRoot) == Some("/Workspace/" + JoinNames(base + rest))
  {
    var root := Resolve(cwd, localRoot);
    AcceptedIff(cwd, localFile, localRoot, remoteRoot);
    assert (root + rest)[|root|..] == rest;
    var found := AcceptedRemote(cwd, localFile, localRoot, remoteRoot);
    assert (root + found)[|root|..] == found;
    RootIsBase(remoteRoot, base);
    var trailing := RemoteOf(remoteRoot, base, false, rest);
    WrittenOut(base + rest);
  }

  /** A remote file without backslashes leads to the same names below the local root,
      or nowhere when it is not below the remote one. */
  lemma LocalPathIs(cwd: string, localRoot: string, remoteRoot: string, base: seq<string>, names: seq<string>)
    requires IsAbsolute(cwd) && IsRemoteRoot(remoteRoot, base)
    requires names != [] && AllNames(names) && AllNoBackslash(names)
    ensures var local := RemoteToLocal(cwd, "/Workspace/" + JoinNames(names), localRoot, remoteRoot);
            if base <= names && (base == names || !StartsWith(names[|base|], ".."))
            then local.Some? && Resolve(cwd, local.value) == Resolve(cwd, localRoot) + names[|base|..]
            else local == None
  {
    var remote := "/Workspace/" + JoinNames(names);
    WrittenOut(names);
    RootIsBase(remoteRoot, base);
    PlainRemote(remote, names, false);
    LocalOf(cwd, remote, localRoot, remoteRoot, base, false, names, false);
  }

  lemma UnderPrefix(names: seq<string>, trailing: bool)
    requires AllNames(names) && (names == [] ==> trailing)
    ensures StartsWith(Absolute(["Workspace"] + names, trailing), WORKSPACE + "/")
  {
    HasPrefix(["Workspace"] + names, trailing);
  }

  lemma {:induction false} JoinHasBackslash(names: seq<string>)
    requires !AllNoBackslash(names)
    ensures !NoBackslash(JoinNames(names))
  {
    if |names| > 1 && NoBackslash(names[0]) {
      JoinHasBackslash(names[1..]);
    }
  }
}
