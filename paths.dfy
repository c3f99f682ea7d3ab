/**
  Lexical POSIX path handling, the part of Node's `path` module that the
  generator relies on: `path.resolve`, `path.join` and `path.basename`.

  A canonical absolute path is kept as the sequence of its segments:
  "/ws/lib/mvvm" is ["ws", "lib", "mvvm"] and the root "/" is []. Only '/'
  separates segments (POSIX); a backslash is an ordinary character.
 */
module Paths {

  type Path = seq<string>

  /** A segment that can appear in a normalized path. */
  predicate ValidSegment(s: string) {
    s != "" && s != "." && s != ".." && '/' !in s
  }

  /** No empty, "." or ".." segment and no separator inside a segment. */
  predicate ValidPath(p: Path) {
    forall i :: 0 <= i < |p| ==> ValidSegment(p[i])
  }

  predicate IsAbsolute(s: string) {
    |s| > 0 && s[0] == '/'
  }

  /** The pieces of `s` between its '/' characters ("a//b/" gives ["a", "", "b", ""]). */
  function Split(s: string): (r: seq<string>)
    ensures |r| >= 1
    ensures forall i :: 0 <= i < |r| ==> '/' !in r[i]
    decreases |s|
  {
    if s == [] then [""]
    else if s[0] == '/' then [""] + Split(s[1..])
    else
      var rest := Split(s[1..]);
      [[s[0]] + rest[0]] + rest[1..]
  }

  /** One normalization step: "" and "." are dropped, ".." pops but never above the root. */
  function Step(p: Path, seg: string): Path {
    if seg == "" || seg == "." then p
    else if seg == ".." then (if p == [] then [] else p[..|p| - 1])
    else p + [seg]
  }

  /** Apply the segments `segs` one after another, starting from `p`. */
  function Walk(p: Path, segs: seq<string>): (r: Path)
    ensures ValidPath(p) && (forall i :: 0 <= i < |segs| ==> '/' !in segs[i]) ==> ValidPath(r)
    decreases |segs|
  {
    if segs == [] then p else Walk(Step(p, segs[0]), segs[1..])
  }

  /**
    `path.resolve` from the working directory `base`, reading the arguments
    left to right: an absolute argument restarts from the root, a relative
    one is walked from the path reached so far.
   */
  function ResolveFrom(base: Path, args: seq<string>): Path
    decreases |args|
  {
    if args == [] then base
    else
      var start := if IsAbsolute(args[0]) then [] else base;
      ResolveFrom(Walk(start, Split(args[0])), args[1..])
  }

  /** `path.resolve(...args)` in a process whose working directory is `cwd`. */
  function Resolve(cwd: string, args: seq<string>): (r: Path)
    ensures ValidPath(r)
  {
    ResolvedIsValid(Walk([], Split(cwd)), args);
    ResolveFrom(Walk([], Split(cwd)), args)
  }

  /** `path.basename` on segment paths: the last segment, or "" for the root (see BasenameMatchesNode). */
  function Basename(p: Path): string {
    if p == [] then "" else p[|p| - 1]
  }

  /** The segments joined by '/'. */
  function JoinSegments(p: Path): string
    decreases |p|
  {
    if p == [] then ""
    else if |p| == 1 then p[0]
    else p[0] + "/" + JoinSegments(p[1..])
  }

  /** The string form of a path, as Node's functions return it. */
  function Render(p: Path): (r: string)
    ensures IsAbsolute(r)
  {
    "/" + JoinSegments(p)
  }

  // ---------------------------------------------------------------------
  // Splitting

  lemma {:induction false} SplitWithoutSeparator(s: string)
    requires '/' !in s
    ensures Split(s) == [s]
    decreases |s|
  {
    if s != [] {
      assert '/' !in s[1..] by {
        forall i | 0 <= i < |s[1..]| ensures s[1..][i] != '/' { assert s[1..][i] == s[i + 1]; }
      }
      SplitWithoutSeparator(s[1..]);
      assert [s[0]] + s[1..] == s;
    }
  }

  /** Splitting a '/'-joined string splits each side. */
  lemma {:induction false} SplitConcat(a: string, b: string)
    ensures Split(a + "/" + b) == Split(a) + Split(b)
    decreases |a|
  {
    var s := a + "/" + b;
    if a == [] {
      assert s == "/" + b && s[1..] == b;
    } else {
      assert s[0] == a[0] && s[1..] == a[1..] + "/" + b;
      SplitConcat(a[1..], b);
      var ra, rb := Split(a[1..]), Split(b);
      if a[0] == '/' {
        assert Split(s) == [""] + (ra + rb);
      } else {
        assert Split(s[1..]) == ra + rb;
        assert (ra + rb)[0] == ra[0] && (ra + rb)[1..] == ra[1..] + rb;
        assert Split(s) == [[a[0]] + ra[0]] + (ra[1..] + rb);
      }
    }
  }

  // ---------------------------------------------------------------------
  // Rendering and joining

  lemma {:induction false} SplitJoinSegments(p: Path)
    requires ValidPath(p) && p != []
    ensures Split(JoinSegments(p)) == p
    decreases |p|
  {
    assert ValidSegment(p[0]);
    SplitWithoutSeparator(p[0]);
    if |p| > 1 {
      assert ValidPath(p[1..]) by {
        forall i | 0 <= i < |p[1..]| ensures ValidSegment(p[1..][i]) { assert p[1..][i] == p[i + 1]; }
      }
      SplitJoinSegments(p[1..]);
      SplitConcat(p[0], JoinSegments(p[1..]));
      assert [p[0]] + p[1..] == p;
    }
  }

  /** Normalizing the string form of a canonical path gives the path back. */
  lemma RenderRoundTrip(p: Path)
    requires ValidPath(p)
    ensures Walk([], Split(Render(p))) == p
  {
    assert Render(p) == "" + "/" + JoinSegments(p);
    SplitConcat("", JoinSegments(p));
    if p == [] {
      assert Split(Render(p)) == ["", ""];
      assert Walk([], ["", ""]) == Walk([], [""]) == Walk([], []);
    } else {
      SplitJoinSegments(p);
      assert Split(Render(p)) == [""] + p;
      assert Walk([], [""] + p) == Walk([], p) by {
        assert ([""] + p)[0] == "" && ([""] + p)[1..] == p;
      }
      WalkValidSegments([], p);
    }
  }

  /**
    `path.join(s, name)` normalizes `s + "/" + name`: when `s` normalizes to
    `base` and `name` is a plain segment, the result is `base` with `name` appended.
   */
  lemma JoinAppendsName(s: string, base: Path, name: string)
    requires IsAbsolute(s) && Walk([], Split(s)) == base && ValidSegment(name)
    ensures Walk([], Split(s + "/" + name)) == base + [name]
  {
    SplitConcat(s, name);
    WalkConcat([], Split(s), Split(name));
    SplitWithoutSeparator(name);
    WalkValidSegments(base, [name]);
  }

  // ---------------------------------------------------------------------
  // Basename on strings

  /** `s` without its trailing '/' characters. */
  function StripTrailingSlashes(s: string): string
    decreases |s|
  {
    if s != [] && s[|s| - 1] == '/' then StripTrailingSlashes(s[..|s| - 1]) else s
  }

  /** What follows the last '/' of `s` (all of `s` when it has none). */
  function AfterLastSlash(s: string): string
    decreases |s|
  {
    if s == [] || s[|s| - 1] == '/' then "" else AfterLastSlash(s[..|s| - 1]) + [s[|s| - 1]]
  }

  /** Node's POSIX `path.basename(s)`: trailing separators are ignored, then the last component is taken. */
  function NodeBasename(s: string): string {
    AfterLastSlash(StripTrailingSlashes(s))
  }

  lemma {:induction false} AfterSlashIsSuffix(x: string, y: string)
    requires '/' !in y
    ensures AfterLastSlash(x + "/" + y) == y
    decreases |y|
  {
    var s := x + "/" + y;
    if y == [] {
      assert s[|s| - 1] == '/';
    } else {
      var init := y[..|y| - 1];
      assert s[..|s| - 1] == x + "/" + init && s[|s| - 1] == y[|y| - 1];
      AfterSlashIsSuffix(x, init);
      assert init + [y[|y| - 1]] == y;
    }
  }

  lemma {:induction false} JoinSegmentsSnoc(p: Path, last: string)
    requires p != []
    ensures JoinSegments(p + [last]) == JoinSegments(p) + "/" + last
    decreases |p|
  {
    var q := p + [last];
    assert q[0] == p[0] && q[1..] == p[1..] + [last];
    if |p| > 1 {
      JoinSegmentsSnoc(p[1..], last);
    }
  }

  /** The string form of a non-root path ends in '/' and its last segment. */
  lemma RenderEndsInLast(p: Path)
    requires p != []
    ensures Render(p) == (if |p| == 1 then "" else Render(p[..|p| - 1])) + "/" + p[|p| - 1]
  {
    var init, last := p[..|p| - 1], p[|p| - 1];
    assert p == init + [last];
    if init != [] {
      JoinSegmentsSnoc(init, last);
    }
  }

  /**
    The string form of a non-root path is some prefix, a '/' and its last
    segment, and Node's `path.basename` of the string form is `Basename`
    ("/" gives "").
   */
  lemma BasenameMatchesNode(p: Path)
    requires ValidPath(p)
    ensures p != [] ==> '/' !in Basename(p) && exists pre :: Render(p) == pre + "/" + Basename(p)
    ensures NodeBasename(Render(p)) == Basename(p)
  {
    if p == [] {
      assert Render(p) == "/";
      assert StripTrailingSlashes("/") == StripTrailingSlashes("");
    } else {
      var last := p[|p| - 1];
      assert ValidSegment(last);
      var pre := if |p| == 1 then "" else Render(p[..|p| - 1]);
      var r := Render(p);
      assert r == pre + "/" + last by {
        RenderEndsInLast(p);
      }
      assert StripTrailingSlashes(r) == r by {
        assert r[|r| - 1] == last[|last| - 1];
      }
      AfterSlashIsSuffix(pre, last);
    }
  }

  // ---------------------------------------------------------------------
  // Walking

  /** Walking two sequences of segments is walking the first, then the second. */
  lemma {:induction false} WalkConcat(p: Path, x: seq<string>, y: seq<string>)
    ensures Walk(p, x + y) == Walk(Walk(p, x), y)
    decreases |x|
  {
    if x == [] {
      assert x + y == y;
    } else {
      assert (x + y)[0] == x[0];
      assert (x + y)[1..] == x[1..] + y;
      WalkConcat(Step(p, x[0]), x[1..], y);
    }
  }

  /** Walking segments that are already valid appends them unchanged. */
  lemma {:induction false} WalkValidSegments(p: Path, segs: seq<string>)
    requires ValidPath(segs)
    ensures Walk(p, segs) == p + segs
    decreases |segs|
  {
    if segs != [] {
      assert ValidPath(segs[1..]) by {
        forall i | 0 <= i < |segs[1..]| ensures ValidSegment(segs[1..][i]) { assert segs[1..][i] == segs[i + 1]; }
      }
      WalkValidSegments(p + [segs[0]], segs[1..]);
      assert p + [segs[0]] + segs[1..] == p + segs;
    }
  }

  /** ".." at the root stays at the root. */
  lemma ParentOfRootIsRoot(segs: seq<string>)
    requires forall i :: 0 <= i < |segs| ==> segs[i] == ".."
    ensures Walk([], segs) == []
    decreases |segs|
  {
    if segs != [] {
      ParentOfRootIsRoot(segs[1..]);
    }
  }

  // ---------------------------------------------------------------------
  // Resolving

  lemma {:induction false} ResolvedIsValid(base: Path, args: seq<string>)
    requires ValidPath(base)
    ensures ValidPath(ResolveFrom(base, args))
    decreases |args|
  {
    if args != [] {
      var start := if IsAbsolute(args[0]) then [] else base;
      ResolvedIsValid(Walk(start, Split(args[0])), args[1..]);
    }
  }

  /** Resolving `pre + post` resolves `post` from where `pre` led. */
  lemma {:induction false} ResolveAppend(base: Path, pre: seq<string>, post: seq<string>)
    ensures ResolveFrom(base, pre + post) == ResolveFrom(ResolveFrom(base, pre), post)
    decreases |pre|
  {
    if pre == [] {
      assert pre + post == post;
    } else {
      assert (pre + post)[0] == pre[0];
      assert (pre + post)[1..] == pre[1..] + post;
      var start := if IsAbsolute(pre[0]) then [] else base;
      ResolveAppend(Walk(start, Split(pre[0])), pre[1..], post);
    }
  }

  /** The last argument is walked from the result of the ones before it. */
  lemma ResolveSnoc(base: Path, args: seq<string>, a: string)
    ensures ResolveFrom(base, args + [a])
         == Walk(if IsAbsolute(a) then [] else ResolveFrom(base, args), Split(a))
  {
    ResolveAppend(base, args, [a]);
  }

  /** An absolute argument makes everything before it irrelevant. */
  lemma AbsoluteArgumentResets(base: Path, pre: seq<string>, a: string, post: seq<string>)
    requires IsAbsolute(a)
    ensures ResolveFrom(base, pre + [a] + post) == ResolveFrom([], [a] + post)
  {
    var args := [a] + post;
    assert pre + [a] + post == pre + args;
    ResolveAppend(base, pre, args);
    assert args[0] == a && args[1..] == post;
    assert ResolveFrom(ResolveFrom(base, pre), args) == ResolveFrom(Walk([], Split(a)), post);
  }

  // ---------------------------------------------------------------------
  // Node's own formulation of `path.resolve` (POSIX), as a reference

  /**
    Node walks the arguments from the last to the first, prefixing each
    non-empty one and a '/' to what it has collected, and stops at the first
    absolute one; the working directory `cwd` comes last and is absolute.
   */
  function Collect(cwd: string, args: seq<string>, suffix: string): string
    decreases |args|
  {
    if args == [] then cwd + "/" + suffix
    else
      var p := args[|args| - 1];
      if p == "" then Collect(cwd, args[..|args| - 1], suffix)
      else if IsAbsolute(p) then p + "/" + suffix
      else Collect(cwd, args[..|args| - 1], p + "/" + suffix)
  }

  /** The collected string, normalized, with the root prefixed. */
  function NodeResolve(cwd: string, args: seq<string>): string
    requires IsAbsolute(cwd)
  {
    Render(Walk([], Split(Collect(cwd, args, ""))))
  }

  lemma {:induction false} CollectWalk(cwd: string, args: seq<string>, suffix: string)
    ensures Walk([], Split(Collect(cwd, args, suffix)))
         == Walk(ResolveFrom(Walk([], Split(cwd)), args), Split(suffix))
    decreases |args|
  {
    var base := Walk([], Split(cwd));
    if args == [] {
      SplitConcat(cwd, suffix);
      WalkConcat([], Split(cwd), Split(suffix));
    } else {
      var init, p := args[..|args| - 1], args[|args| - 1];
      assert args == init + [p];
      ResolveSnoc(base, init, p);
      if p == "" {
        CollectWalk(cwd, init, suffix);
      } else if IsAbsolute(p) {
        SplitConcat(p, suffix);
        WalkConcat([], Split(p), Split(suffix));
      } else {
        CollectWalk(cwd, init, p + "/" + suffix);
        SplitConcat(p, suffix);
        WalkConcat(ResolveFrom(base, init), Split(p), Split(suffix));
      }
    }
  }

  /** The left-to-right model and Node's right-to-left algorithm agree. */
  lemma ResolveMatchesNode(cwd: string, args: seq<string>)
    requires IsAbsolute(cwd)
    ensures NodeResolve(cwd, args) == Render(Resolve(cwd, args))
  {
    CollectWalk(cwd, args, "");
  }
}
