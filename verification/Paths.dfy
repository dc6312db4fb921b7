/** POSIX paths as Node.js's `path.posix` computes with them. */
module Paths {
  import opened Wrappers

  // --------------------------------------------------------------- segments

  /** `p.split("/")` */
  function Split(p: string): (r: seq<string>)
    ensures r != []
  {
    if p == "" then [""]
    else if p[0] == '/' then [""] + Split(p[1..])
    else
      var rest := Split(p[1..]);
      [[p[0]] + rest[0]] + rest[1..]
  }

  /** `segments.join("/")` */
  function JoinNames(segments: seq<string>): string {
    Join(segments, "/")
  }

  predicate NoSlash(s: string) {
    '/' !in s
  }

  predicate AllNoSlash(segments: seq<string>) {
    forall i | 0 <= i < |segments| :: NoSlash(segments[i])
  }

  /** A segment that names a directory entry. */
  predicate IsName(s: string) {
    s != "" && s != "." && s != ".." && NoSlash(s)
  }

  predicate AllNames(segments: seq<string>) {
    forall i | 0 <= i < |segments| :: IsName(segments[i])
  }

  /** One step of normalisation: `stack` is what the segments before `s` come to. */
  function Push(stack: seq<string>, s: string, absolute: bool): seq<string> {
    if s == "" || s == "." then stack
    else if s == ".." then
      if stack != [] && stack[|stack| - 1] != ".." then stack[..|stack| - 1]
      else if absolute then stack
      else stack + [".."]
    else stack + [s]
  }

  function Fold(stack: seq<string>, segments: seq<string>, absolute: bool): seq<string>
    decreases |segments|
  {
    if segments == [] then stack
    else Push(Fold(stack, segments[..|segments| - 1], absolute), segments[|segments| - 1], absolute)
  }

  // ------------------------------------------------------------- path.posix

  predicate StartsWith(s: string, prefix: string) {
    |prefix| <= |s| && s[..|prefix|] == prefix
  }

  predicate IsAbsolute(p: string) {
    p != "" && p[0] == '/'
  }

  predicate EndsWithSlash(p: string) {
    p != "" && p[|p| - 1] == '/'
  }

  /** `path.posix.normalize` */
  function Normalize(p: string): string {
    if p == "" then "."
    else
      var body := JoinNames(Fold([], Split(p), IsAbsolute(p)));
      if body == "" then
        if IsAbsolute(p) then "/" else if EndsWithSlash(p) then "./" else "."
      else (if IsAbsolute(p) then "/" else "") + body + (if EndsWithSlash(p) then "/" else "")
  }

  function NonEmpty(paths: seq<string>): seq<string> {
    if paths == [] then []
    else (if paths[0] == "" then [] else [paths[0]]) + NonEmpty(paths[1..])
  }

  /** `path.posix.join` */
  function JoinPaths(paths: seq<string>): string {
    Normalize(JoinNames(NonEmpty(paths)))
  }

  /** The segments of `path.posix.resolve(p)` in the working directory `cwd`. */
  function Resolve(cwd: string, p: string): seq<string> {
    Fold([], Split(if IsAbsolute(p) then p else cwd + "/" + p), true)
  }

  /** The length of the longest common prefix. */
  function Common(a: seq<string>, b: seq<string>): (k: nat)
    ensures k <= |a| && k <= |b|
    ensures forall i | 0 <= i < k :: a[i] == b[i]
    ensures k < |a| && k < |b| ==> a[k] != b[k]
  {
    if a == [] || b == [] || a[0] != b[0] then 0
    else
      var k := Common(a[1..], b[1..]);
      assert forall i | 1 <= i < k + 1 :: a[i] == a[1..][i - 1] && b[i] == b[1..][i - 1];
      k + 1
  }

  /** `path.posix.relative` */
  function Relative(cwd: string, from: string, to: string): string {
    var f, t := Resolve(cwd, from), Resolve(cwd, to);
    JoinNames(seq(|f| - Common(f, t), _ => "..") + t[Common(f, t)..])
  }

  // ------------------------------------------------------------------ lemmas

  lemma {:induction false} SplitNoSlash(p: string)
    ensures AllNoSlash(Split(p))
  {
    if p != "" {
      SplitNoSlash(p[1..]);
    }
  }

  lemma {:induction false} SplitName(s: string)
    requires NoSlash(s)
    ensures Split(s) == [s]
  {
    if s != "" {
      assert s[0] in s;
      SplitName(s[1..]);
      assert [s[0]] + s[1..] == s;
    }
  }

  lemma {:induction false} SplitConcat(a: string, b: string)
    ensures Split(a + "/" + b) == Split(a) + Split(b)
    decreases a
  {
    var s := a + "/" + b;
    if a == "" {
      assert s == "/" + b && s[1..] == b;
    } else {
      assert s[1..] == a[1..] + "/" + b;
      SplitConcat(a[1..], b);
    }
  }

  lemma {:induction false} SplitJoin(segments: seq<string>)
    requires segments != [] && AllNoSlash(segments)
    ensures Split(JoinNames(segments)) == segments
  {
    SplitName(segments[0]);
    if |segments| > 1 {
      SplitJoin(segments[1..]);
      SplitConcat(segments[0], JoinNames(segments[1..]));
    }
  }

  lemma JoinFirst(text: string, segments: seq<string>)
    requires segments != []
    ensures JoinNames([text + segments[0]] + segments[1..]) == text + JoinNames(segments)
  {
    if |segments| > 1 {
      assert ([text + segments[0]] + segments[1..])[1..] == segments[1..];
      Concatenation(text, segments[0], "/");
      Concatenation(text, segments[0] + "/", JoinNames(segments[1..]));
    }
  }

  lemma {:induction false} JoinSplit(p: string)
    ensures JoinNames(Split(p)) == p
  {
    if p != "" {
      JoinSplit(p[1..]);
      var rest := Split(p[1..]);
      assert [p[0]] + p[1..] == p;
      if p[0] == '/' {
        assert ([""] + rest)[1..] == rest;
        assert "" + "/" + p[1..] == p;
      } else {
        JoinFirst([p[0]], rest);
      }
    }
  }

  lemma {:induction false} FoldConcat(stack: seq<string>, a: seq<string>, b: seq<string>, absolute: bool)
    ensures Fold(stack, a + b, absolute) == Fold(Fold(stack, a, absolute), b, absolute)
    decreases |b|
  {
    if b == [] {
      assert a + b == a;
    } else {
      var last := |b| - 1;
      assert (a + b)[..|a + b| - 1] == a + b[..last];
      FoldConcat(stack, a, b[..last], absolute);
    }
  }

  lemma {:induction false} FoldNames(stack: seq<string>, names: seq<string>, absolute: bool)
    requires AllNames(names)
    ensures Fold(stack, names, absolute) == stack + names
    decreases |names|
  {
    if names != [] {
      FoldNames(stack, names[..|names| - 1], absolute);
    }
  }

  /** An absolute path comes to names only. */
  lemma {:induction false} FoldIsNames(stack: seq<string>, segments: seq<string>)
    requires AllNames(stack) && AllNoSlash(segments)
    ensures AllNames(Fold(stack, segments, true))
    decreases |segments|
  {
    if segments != [] {
      FoldIsNames(stack, segments[..|segments| - 1]);
    }
  }

  /** Blank segments do not count. */
  lemma FoldBlank(stack: seq<string>, segments: seq<string>, absolute: bool)
    ensures Fold(stack, [""] + segments, absolute) == Fold(stack, segments, absolute)
    ensures Fold(stack, segments + [""], absolute) == Fold(stack, segments, absolute)
  {
    FoldConcat(stack, [""], segments, absolute);
    FoldConcat(stack, segments, [""], absolute);
    assert Fold(stack, [""], absolute) == stack;
  }

  /** Where a segment leads from a directory. */
  function Entered(names: seq<string>, s: string): seq<string> {
    if s in {"", "."} then names
    else if s == ".." then (if names == [] then [] else names[..|names| - 1])
    else names + [s]
  }

  /** A path resolves segment by segment, from the root or from the working directory. */
  lemma ResolveBySegment(cwd: string, p: string, s: string)
    requires IsAbsolute(cwd) && NoSlash(s)
    ensures p != "" ==> Resolve(cwd, p + "/" + s) == Entered(Resolve(cwd, p), s)
    ensures Resolve(cwd, "/" + s) == Entered([], s)
    ensures !IsAbsolute(p) ==> Resolve(cwd, p) == Resolve(cwd, cwd + "/" + p)
  {
    FoldOneMore("", s);
    assert "" + "/" + s == "/" + s && Fold([], Split(""), true) == [];
    if p != "" {
      var start := if IsAbsolute(p) then p else cwd + "/" + p;
      assert (if IsAbsolute(p + "/" + s) then p + "/" + s else cwd + "/" + (p + "/" + s)) == start + "/" + s;
      FoldOneMore(start, s);
    }
  }

  lemma FoldOneMore(p: string, s: string)
    requires NoSlash(s)
    ensures Fold([], Split(p + "/" + s), true) == Entered(Fold([], Split(p), true), s)
  {
    SplitName(s);
    SplitConcat(p, s);
    FoldConcat([], Split(p), [s], true);
    SplitNoSlash(p);
    FoldIsNames([], Split(p));
    PushEnters(Fold([], Split(p), true), s);
  }

  lemma PushEnters(names: seq<string>, s: string)
    requires AllNames(names)
    ensures Fold(names, [s], true) == Entered(names, s)
  {
    assert [s][..0] == [];
  }

  // ------------------------------------------------- normalised absolute paths

  /** The absolute path with the given names, perhaps with a slash at its end. */
  function Absolute(names: seq<string>, trailing: bool): string {
    "/" + JoinNames(names) + (if trailing && names != [] then "/" else "")
  }

  lemma {:induction false} JoinIsEmpty(segments: seq<string>)
    requires forall i | 0 <= i < |segments| :: segments[i] != ""
    ensures JoinNames(segments) == "" <==> segments == []
    ensures segments != [] ==> JoinNames(segments)[0] == segments[0][0]
    ensures segments != [] && AllNoSlash(segments) ==> JoinNames(segments)[|JoinNames(segments)| - 1] != '/'
  {
    if |segments| == 1 {
      var s := segments[0];
      assert s[|s| - 1] in s;
    } else if |segments| > 1 {
      JoinIsEmpty(segments[1..]);
    }
  }

  lemma SplitAbsolute(names: seq<string>, trailing: bool)
    requires AllNames(names)
    ensures Fold([], Split(Absolute(names, trailing)), true) == names
    ensures IsAbsolute(Absolute(names, trailing))
    ensures EndsWithSlash(Absolute(names, trailing)) <==> trailing || names == []
  {
    var p := Absolute(names, trailing);
    JoinIsEmpty(names);
    if names == [] {
      assert p == "/";
      assert Split("/") == ["", ""];
      assert Fold([], ["", ""], true) == Push(Fold([], ["", ""][..1], true), "", true);
    } else {
      SplitJoin(names);
      FoldNames([], names, true);
      assert [] + names == names;
      FoldBlank([], names, true);
      if trailing {
        assert p == "/" + JoinNames(names) + "/" + "";
        SplitConcat("/" + JoinNames(names), "");
        assert ("/" + JoinNames(names))[1..] == JoinNames(names);
        assert Split("/" + JoinNames(names)) == [""] + names;
        FoldBlank([], [""] + names, true);
      } else {
        assert p == "/" + JoinNames(names);
        assert p[1..] == JoinNames(names);
        assert Split(p) == [""] + names;
      }
    }
  }

  lemma NormalizeAbsolute(p: string)
    requires IsAbsolute(p)
    ensures AllNames(Fold([], Split(p), true))
    ensures Normalize(p) == Absolute(Fold([], Split(p), true), EndsWithSlash(p))
  {
    var names := Fold([], Split(p), true);
    SplitNoSlash(p);
    FoldIsNames([], Split(p));
    JoinIsEmpty(names);
  }

  // ---------------------------------------------------- relative paths resolve

  lemma {:induction false} FoldIsRelative(segments: seq<string>)
    requires AllNoSlash(segments)
    ensures AllNoSlash(Fold([], segments, false))
    ensures forall i | 0 <= i < |Fold([], segments, false)| ::
              Fold([], segments, false)[i] != "" && Fold([], segments, false)[i] != "."
    decreases |segments|
  {
    if segments != [] {
      FoldIsRelative(segments[..|segments| - 1]);
    }
  }

  /** Normalising a relative path first does not change where it leads. */
  lemma {:induction false} FoldRelative(base: seq<string>, segments: seq<string>)
    requires AllNames(base) && AllNoSlash(segments)
    ensures Fold(base, Fold([], segments, false), true) == Fold(base, segments, true)
    decreases |segments|
  {
    if segments != [] {
      var front, last := segments[..|segments| - 1], segments[|segments| - 1];
      var before := Fold([], front, false);
      FoldRelative(base, front);
      FoldIsRelative(front);
      var after := Push(before, last, false);
      if last == ".." && before != [] && before[|before| - 1] != ".." {
        assert Fold(base, before, true) == Fold(base, before[..|before| - 1], true) + [before[|before| - 1]];
      } else if last != "" && last != "." {
        assert after[..|after| - 1] == before;
      }
    }
  }

  lemma ResolveNormalized(cwd: string, p: string)
    requires IsAbsolute(cwd)
    ensures Resolve(cwd, Normalize(p)) == Resolve(cwd, p)
  {
    SplitNoSlash(p);
    if IsAbsolute(p) {
      NormalizeAbsolute(p);
      SplitAbsolute(Fold([], Split(p), true), EndsWithSlash(p));
    } else {
      var base := Fold([], Split(cwd), true);
      NormalizeAbsolute(cwd);
      RelativeSplit(p);
      FoldRelative(base, Split(p));
      ResolveRelative(cwd, p);
      ResolveRelative(cwd, Normalize(p));
      NormalizedFold(base, p);
    }
  }

  lemma ResolveRelative(cwd: string, p: string)
    requires !IsAbsolute(p)
    ensures Resolve(cwd, p) == Fold(Fold([], Split(cwd), true), Split(p), true)
  {
    SplitConcat(cwd, p);
    FoldConcat([], Split(cwd), Split(p), true);
  }

  lemma RelativeSplit(p: string)
    requires !IsAbsolute(p)
    ensures !IsAbsolute(Normalize(p))
  {
    var f := Fold([], Split(p), false);
    SplitNoSlash(p);
    FoldIsRelative(Split(p));
    JoinIsEmpty(f);
    if f != [] {
      assert f[0][0] in f[0];
    }
  }

  lemma {:induction false} NormalizeRelative(p: string)
    requires !IsAbsolute(p)
    ensures var f := Fold([], Split(p), false);
            if f == [] then Normalize(p) == "." || Normalize(p) == "./"
            else Normalize(p) == JoinNames(f) || Normalize(p) == JoinNames(f) + "/"
  {
    var f := Fold([], Split(p), false);
    if p == "" {
      assert f == Push([], "", false);
    } else if f != [] {
      SplitNoSlash(p);
      FoldIsRelative(Split(p));
      JoinIsEmpty(f);
      assert "" + JoinNames(f) == JoinNames(f) && JoinNames(f) + "" == JoinNames(f);
    }
  }

  lemma NormalizedFold(base: seq<string>, p: string)
    requires !IsAbsolute(p)
    ensures Fold(base, Split(Normalize(p)), true) == Fold(base, Fold([], Split(p), false), true)
  {
    var f := Fold([], Split(p), false);
    NormalizeRelative(p);
    if f == [] {
      FoldDots(base);
    } else {
      SplitNoSlash(p);
      FoldIsRelative(Split(p));
      SplitJoin(f);
      FoldSlash(base, f, JoinNames(f));
    }
  }

  /** A slash at the end does not count. */
  lemma FoldSlash(base: seq<string>, segments: seq<string>, p: string)
    requires Split(p) == segments
    ensures Fold(base, Split(p + "/"), true) == Fold(base, segments, true)
  {
    assert p + "/" + "" == p + "/";
    SplitConcat(p, "");
    FoldBlank(base, segments, true);
  }

  lemma FoldDots(base: seq<string>)
    ensures Fold(base, Split("."), true) == base && Fold(base, Split("./"), true) == base
  {
    SplitName(".");
    assert "." + "/" + "" == "./";
    SplitConcat(".", "");
    FoldBlank(base, ["."], true);
    assert Fold(base, ["."], true) == base by {
      assert ["."][..0] == [];
    }
  }
}
