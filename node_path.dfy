/** The parts of Node's `path` module that the relocation logic uses
    (`resolve`, `dirname`, `basename`, `join`, `normalize`, `relative`),
    over segment lists, for the POSIX and the win32 flavour. A resolved path
    is the list of its names below the root. The process working directory,
    which `resolve` and `relative` consult for relative arguments, is always
    an explicit parameter. */
module NodePath {
  import opened Text

  /** `path.posix` separates with '/', `path.win32` with '\\' and accepts '/'. */
  datatype Style = Posix | Win32

  /** `path.sep`. */
  function Sep(st: Style): char {
    match st
    case Posix => '/'
    case Win32 => '\\'
  }

  /** The characters the style treats as separators. */
  function Seps(st: Style): (cs: set<char>)
    ensures Sep(st) in cs && '/' in cs
  {
    match st
    case Posix => {'/'}
    case Win32 => {'/', '\\'}
  }

  predicate IsAbsolute(st: Style, s: string) {
    |s| > 0 && s[0] in Seps(st)
  }

  /** A segment that names a directory entry: not empty, not `.` or `..`,
      and free of separators. */
  predicate IsName(st: Style, p: string) {
    p != "" && p != "." && p != ".." && NoneIn(p, Seps(st))
  }

  predicate Names(st: Style, segs: seq<string>) {
    forall k :: 0 <= k < |segs| ==> IsName(st, segs[k])
  }

  /** A segment of a normalised relative path: a name or a `..`. */
  predicate Pieces(st: Style, segs: seq<string>) {
    forall k :: 0 <= k < |segs| ==> segs[k] == ".." || IsName(st, segs[k])
  }

  /** One step of Node's `normalizeString`: empty and `.` segments vanish,
      `..` removes the last name, or is kept (above the root of a relative
      path) or dropped (at the root of an absolute one). */
  function NormStep(acc: seq<string>, p: string, aboveRoot: bool): seq<string> {
    if p == "" || p == "." then acc
    else if p == ".." then
      if |acc| > 0 && acc[|acc| - 1] != ".." then acc[..|acc| - 1]
      else if aboveRoot then acc + [".."]
      else acc
    else acc + [p]
  }

  /** `normalizeString` over `parts`, starting from the already normalised `acc`. */
  function NormFrom(acc: seq<string>, parts: seq<string>, aboveRoot: bool): seq<string>
    decreases |parts|
  {
    if |parts| == 0 then acc
    else NormFrom(NormStep(acc, parts[0], aboveRoot), parts[1..], aboveRoot)
  }

  /** `n` segments `..`. */
  function Ups(n: nat): (r: seq<string>)
    ensures |r| == n && forall k :: 0 <= k < n ==> r[k] == ".."
  {
    seq(n, _ => "..")
  }

  /** Where a path is resolved from: the root when it is absolute, `dir` otherwise. */
  function Origin(st: Style, dir: seq<string>, s: string): seq<string> {
    if IsAbsolute(st, s) then [] else dir
  }

  /** `path.resolve(dir, s)` for a resolved directory `dir`; with `dir` the
      working directory this is `path.resolve(s)`. */
  function ResolveFrom(st: Style, dir: seq<string>, s: string): (r: seq<string>)
    requires Names(st, dir)
    ensures Names(st, r)
  {
    NormKeepsNames(st, Origin(st, dir, s), Split(s, Seps(st)));
    NormFrom(Origin(st, dir, s), Split(s, Seps(st)), false)
  }

  /** The string `path.resolve` returns for the resolved segments `segs`. */
  function Render(st: Style, segs: seq<string>): string {
    [Sep(st)] + Join(segs, Sep(st))
  }

  /** `path.dirname` of a resolved path: its parent, the root staying the root. */
  function Parent(segs: seq<string>): seq<string> {
    if |segs| == 0 then [] else segs[..|segs| - 1]
  }

  /** The pieces of a path without its trailing separators. */
  function DropTrailingEmpty(ps: seq<string>): (q: seq<string>)
    ensures q <= ps
    ensures |q| > 0 ==> q[|q| - 1] != ""
    decreases |ps|
  {
    if |ps| > 0 && ps[|ps| - 1] == "" then DropTrailingEmpty(ps[..|ps| - 1]) else ps
  }

  /** The pieces `path.dirname` keeps: all but the last, trailing separators ignored. */
  function DirParts(ps: seq<string>): seq<string> {
    var q := DropTrailingEmpty(ps);
    if |q| == 0 then [] else q[..|q| - 1]
  }

  /** `path.resolve(dir, path.dirname(s))`. */
  function ResolveDirname(st: Style, dir: seq<string>, s: string): (r: seq<string>)
    requires Names(st, dir)
    ensures Names(st, r)
  {
    var ps := Split(s, Seps(st));
    var q := DropTrailingEmpty(ps);
    assert forall k :: 0 <= k < |DirParts(ps)| ==> DirParts(ps)[k] == ps[k];
    NormKeepsNames(st, Origin(st, dir, s), DirParts(ps));
    NormFrom(Origin(st, dir, s), DirParts(ps), false)
  }

  /** `path.basename(s)`: the last piece, trailing separators ignored. */
  function Basename(st: Style, s: string): (r: string)
    ensures NoneIn(r, Seps(st))
  {
    var q := DropTrailingEmpty(Split(s, Seps(st)));
    if |q| == 0 then "" else q[|q| - 1]
  }

  /** `path.normalize(p)`: the normalised segments joined by the separator;
      a leading separator, a trailing separator and `.` for nothing are kept
      as Node keeps them. */
  function Normalize(st: Style, p: string): string {
    if p == "" then "."
    else
      var abs := p[0] in Seps(st);
      var trail := p[|p| - 1] in Seps(st);
      var segs := NormFrom([], Split(p, Seps(st)), !abs);
      if segs == [] then
        (if abs then [Sep(st)] else if trail then ['.', Sep(st)] else ".")
      else
        (if abs then [Sep(st)] else "") + Join(segs, Sep(st)) + (if trail then [Sep(st)] else "")
  }

  /** `path.join(a, b)`: the non-empty arguments joined by the separator, then
      normalised; `.` when both are empty. */
  function JoinPaths(st: Style, a: string, b: string): string {
    if a == "" && b == "" then "."
    else Normalize(st, if a == "" then b else if b == "" then a else a + [Sep(st)] + b)
  }

  /** The segments that lead from `from` to `to`: a `..` for each segment of
      `from` below their longest common prefix, then the rest of `to`. */
  function RelSegs(from: seq<string>, to: seq<string>): seq<string> {
    var k := |CommonPrefix(from, to)|;
    Ups(|from| - k) + to[k..]
  }

  /** `path.relative(from, to)` with both resolved against the working directory `cwd`. */
  function Relative(st: Style, cwd: seq<string>, from: string, to: string): string
    requires Names(st, cwd)
  {
    Join(RelSegs(ResolveFrom(st, cwd, from), ResolveFrom(st, cwd, to)), Sep(st))
  }

  // ---------------------------------------------------------------------
  // Normalisation

  lemma {:induction false} NormAppend(acc: seq<string>, a: seq<string>, b: seq<string>, aboveRoot: bool)
    ensures NormFrom(acc, a + b, aboveRoot) == NormFrom(NormFrom(acc, a, aboveRoot), b, aboveRoot)
    decreases |a|
  {
    if |a| == 0 {
      assert a + b == b;
    } else {
      assert (a + b)[1..] == a[1..] + b;
      NormAppend(NormStep(acc, a[0], aboveRoot), a[1..], b, aboveRoot);
    }
  }

  /** Names are appended unchanged. */
  lemma {:induction false} NormNames(st: Style, acc: seq<string>, parts: seq<string>, aboveRoot: bool)
    requires Names(st, parts)
    ensures NormFrom(acc, parts, aboveRoot) == acc + parts
    decreases |parts|
  {
    if |parts| > 0 {
      NormNames(st, acc + [parts[0]], parts[1..], aboveRoot);
      assert acc + [parts[0]] + parts[1..] == acc + parts;
    }
  }

  /** Each `..` removes one name. */
  lemma {:induction false} NormUps(st: Style, acc: seq<string>, n: nat, aboveRoot: bool)
    requires Names(st, acc) && n <= |acc|
    ensures NormFrom(acc, Ups(n), aboveRoot) == acc[..|acc| - n]
    decreases n
  {
    if n > 0 {
      assert Ups(n)[1..] == Ups(n - 1);
      var acc' := acc[..|acc| - 1];
      assert NormStep(acc, "..", aboveRoot) == acc';
      NormUps(st, acc', n - 1, aboveRoot);
      assert acc'[..|acc'| - (n - 1)] == acc[..|acc| - n];
    }
  }

  /** Normalising an absolute path from a list of names yields names. */
  lemma {:induction false} NormKeepsNames(st: Style, acc: seq<string>, parts: seq<string>)
    requires Names(st, acc)
    requires forall k :: 0 <= k < |parts| ==> NoneIn(parts[k], Seps(st))
    ensures Names(st, NormFrom(acc, parts, false))
    decreases |parts|
  {
    if |parts| > 0 {
      NormKeepsNames(st, NormStep(acc, parts[0], false), parts[1..]);
    }
  }

  /** Normalising a relative path yields `..`s and names. */
  lemma {:induction false} NormKeepsPieces(st: Style, acc: seq<string>, parts: seq<string>)
    requires Pieces(st, acc)
    requires forall k :: 0 <= k < |parts| ==> NoneIn(parts[k], Seps(st))
    ensures Pieces(st, NormFrom(acc, parts, true))
    decreases |parts|
  {
    if |parts| > 0 {
      NormKeepsPieces(st, NormStep(acc, parts[0], true), parts[1..]);
    }
  }

  /** Trailing separators do not change a normalisation. */
  lemma {:induction false} NormTrailing(acc: seq<string>, ps: seq<string>, aboveRoot: bool)
    ensures NormFrom(acc, DropTrailingEmpty(ps), aboveRoot) == NormFrom(acc, ps, aboveRoot)
    decreases |ps|
  {
    if |ps| > 0 && ps[|ps| - 1] == "" {
      var init := ps[..|ps| - 1];
      NormTrailing(acc, init, aboveRoot);
      NormAppend(acc, init, [""], aboveRoot);
      assert init + [""] == ps;
    }
  }

  /** One step of relative normalisation agrees with resolving afterwards. */
  lemma RelNormStep(st: Style, dir: seq<string>, acc: seq<string>, p: string)
    requires Names(st, dir) && Pieces(st, acc) && NoneIn(p, Seps(st))
    ensures NormFrom(dir, NormStep(acc, p, true), false) == NormStep(NormFrom(dir, acc, false), p, false)
  {
    var y := NormFrom(dir, acc, false);
    if p == "" || p == "." {
    } else if p == ".." && |acc| > 0 && acc[|acc| - 1] != ".." {
      var init := acc[..|acc| - 1];
      var l := acc[|acc| - 1];
      assert init + [l] == acc;
      NormAppend(dir, init, [l], false);
      assert IsName(st, l);
    } else {
      NormAppend(dir, acc, [p], false);
    }
  }

  /** Resolving the relative normalisation of `ps` from `dir` is resolving `ps`
      from `dir`: normalising first never changes where a path leads. */
  lemma {:induction false} RelNorm(st: Style, dir: seq<string>, acc: seq<string>, ps: seq<string>)
    requires Names(st, dir) && Pieces(st, acc)
    requires forall k :: 0 <= k < |ps| ==> NoneIn(ps[k], Seps(st))
    ensures NormFrom(dir, NormFrom(acc, ps, true), false) == NormFrom(NormFrom(dir, acc, false), ps, false)
    decreases |ps|
  {
    if |ps| > 0 {
      RelNormStep(st, dir, acc, ps[0]);
      assert Pieces(st, NormStep(acc, ps[0], true));
      RelNorm(st, dir, NormStep(acc, ps[0], true), ps[1..]);
    }
  }

  // ---------------------------------------------------------------------
  // Separators at the ends of a string

  /** A leading separator makes the first piece empty, a trailing one the last. */
  lemma SplitEnds(s: string, seps: set<char>)
    requires |s| > 0
    ensures s[0] in seps ==> Split(s, seps)[0] == ""
    ensures s[|s| - 1] in seps ==> Split(s, seps) == Split(s[..|s| - 1], seps) + [""]
    ensures s[|s| - 1] in seps ==> Split(s, seps)[|Split(s, seps)| - 1] == ""
  {
    if s[|s| - 1] in seps {
      SplitAppend(s[..|s| - 1], s[|s| - 1], "", seps);
      assert s[..|s| - 1] + [s[|s| - 1]] + "" == s;
    }
  }

  lemma SplitNamesEnds(st: Style, s: string)
    requires s != "" && Names(st, Split(s, Seps(st)))
    ensures s[0] !in Seps(st) && s[|s| - 1] !in Seps(st)
  {
    var seps := Seps(st);
    var ps := Split(s, seps);
    assert IsName(st, ps[0]) && IsName(st, ps[|ps| - 1]);
    SplitEnds(s, seps);
  }

  // ---------------------------------------------------------------------
  // Resolution facts

  /** A rendered resolved path resolves to itself. */
  lemma ResolveRender(st: Style, dir: seq<string>, segs: seq<string>)
    requires Names(st, dir) && Names(st, segs)
    ensures IsAbsolute(st, Render(st, segs))
    ensures ResolveFrom(st, dir, Render(st, segs)) == segs
  {
    var j := Join(segs, Sep(st));
    SplitAppend("", Sep(st), j, Seps(st));
    assert "" + [Sep(st)] + j == Render(st, segs);
    assert Split("", Seps(st)) == [""];
    if segs == [] {
      assert Split(j, Seps(st)) == [""];
      assert NormFrom([], ["", ""], false) == [];
    } else {
      SplitJoin(segs, Sep(st), Seps(st));
      NormNames(st, [], segs, false);
    }
  }

  /** A path resolves to its base name taken one step from the resolved
      directory of the path (`.`, `..` and an empty base name included). */
  lemma DirnameBasename(st: Style, dir: seq<string>, s: string)
    requires Names(st, dir)
    ensures ResolveFrom(st, dir, s) == NormFrom(ResolveDirname(st, dir, s), [Basename(st, s)], false)
  {
    var o := Origin(st, dir, s);
    var ps := Split(s, Seps(st));
    NormTrailing(o, ps, false);
    DirPartsBasename(st, s);
    if |DropTrailingEmpty(ps)| == 0 {
      NormEmptyPiece(o);
    } else {
      NormAppend(o, DirParts(ps), [Basename(st, s)], false);
    }
  }

  /** Without its trailing separators, a path is its `dirname` pieces followed
      by its `basename`. */
  lemma DirPartsBasename(st: Style, s: string)
    ensures var ps := Split(s, Seps(st));
            var q := DropTrailingEmpty(ps);
            (|q| == 0 ==> DirParts(ps) == [] && Basename(st, s) == "")
            && (|q| > 0 ==> q == DirParts(ps) + [Basename(st, s)])
  {
    var q := DropTrailingEmpty(Split(s, Seps(st)));
    if |q| > 0 {
      assert q == q[..|q| - 1] + [q[|q| - 1]];
    }
  }

  /** An empty piece leaves a normalisation where it is. */
  lemma NormEmptyPiece(o: seq<string>)
    ensures NormFrom(o, [""], false) == o
  {
    assert [""][1..] == [];
  }

  /** Normalising a string never changes what it resolves to. */
  lemma ResolveNormalize(st: Style, dir: seq<string>, x: string)
    requires Names(st, dir)
    ensures ResolveFrom(st, dir, Normalize(st, x)) == ResolveFrom(st, dir, x)
  {
    if x == "" {
      SplitNoSep(".", Seps(st));
    } else if x[0] in Seps(st) {
      ResolveNormalizeAbs(st, dir, x);
    } else {
      ResolveNormalizeRel(st, dir, x);
    }
  }

  lemma ResolveNormalizeAbs(st: Style, dir: seq<string>, x: string)
    requires Names(st, dir) && x != "" && x[0] in Seps(st)
    ensures ResolveFrom(st, dir, Normalize(st, x)) == ResolveFrom(st, dir, x)
  {
    var sep := Sep(st);
    var seps := Seps(st);
    var n := Normalize(st, x);
    var trail := x[|x| - 1] in seps;
    var ps := Split(x, seps);
    var segs := NormFrom([], ps, false);
    NormKeepsNames(st, [], ps);
    assert ResolveFrom(st, dir, x) == segs;
    if segs == [] {
      ResolveRender(st, dir, []);
      assert n == Render(st, []);
    } else {
      var core := [sep] + Join(segs, sep);
      ResolveRender(st, dir, segs);
      assert Render(st, segs) == core;
      if trail {
        assert n == core + [sep];
        SplitEnds(n, seps);
        assert n[..|n| - 1] == core;
        NormAppend([], Split(core, seps), [""], false);
      } else {
        assert n == core;
      }
    }
  }

  lemma ResolveNormalizeRel(st: Style, dir: seq<string>, x: string)
    requires Names(st, dir) && x != "" && x[0] !in Seps(st)
    ensures ResolveFrom(st, dir, Normalize(st, x)) == ResolveFrom(st, dir, x)
  {
    var sep := Sep(st);
    var seps := Seps(st);
    var ps := Split(x, seps);
    var segs := NormFrom([], ps, true);
    var trail := x[|x| - 1] in seps;
    assert Pieces(st, segs) by {
      NormKeepsPieces(st, [], ps);
    }
    assert ResolveFrom(st, dir, x) == NormFrom(dir, segs, false) by {
      RelNorm(st, dir, [], ps);
    }
    NormalizeRelative(st, x);
    if segs == [] {
      ResolveDot(st, dir);
    } else {
      ResolveJoinedPieces(st, dir, segs, trail);
    }
  }

  /** `path.normalize` of a relative path: its normalised pieces joined, a
      trailing separator kept, `.` for no pieces. */
  lemma NormalizeRelative(st: Style, x: string)
    requires x != "" && x[0] !in Seps(st)
    ensures var segs := NormFrom([], Split(x, Seps(st)), true);
            var trail := x[|x| - 1] in Seps(st);
            Normalize(st, x) == if segs == [] then (if trail then ['.', Sep(st)] else ".")
                                else Join(segs, Sep(st)) + (if trail then [Sep(st)] else "")
  {
    var j := Join(NormFrom([], Split(x, Seps(st)), true), Sep(st));
    assert "" + j == j;
  }

  /** `.` and `./` resolve to the directory they are resolved from. */
  lemma ResolveDot(st: Style, dir: seq<string>)
    requires Names(st, dir)
    ensures ResolveFrom(st, dir, ".") == dir
    ensures ResolveFrom(st, dir, ['.', Sep(st)]) == dir
  {
    var seps := Seps(st);
    SplitNoSep(".", seps);
    SplitAppend(".", Sep(st), "", seps);
    assert "." + [Sep(st)] + "" == ['.', Sep(st)];
    assert Split("", seps) == [""];
    assert Split(['.', Sep(st)], seps) == [".", ""];
    assert NormFrom(dir, [".", ""], false) == dir;
  }

  /** Relative pieces joined by the separator, with or without a trailing one,
      resolve as the pieces do. */
  lemma ResolveJoinedPieces(st: Style, dir: seq<string>, segs: seq<string>, trail: bool)
    requires Names(st, dir) && Pieces(st, segs) && segs != []
    ensures ResolveFrom(st, dir, Join(segs, Sep(st)) + (if trail then [Sep(st)] else ""))
         == NormFrom(dir, segs, false)
  {
    var sep := Sep(st);
    var seps := Seps(st);
    var core := Join(segs, sep);
    assert NoneIn("..", seps);
    assert forall k :: 0 <= k < |segs| ==> NoneIn(segs[k], seps);
    SplitJoin(segs, sep, seps);
    JoinEmpty(segs, sep);
    var n := core + (if trail then [sep] else "");
    assert n[0] == core[0];
    assert Origin(st, dir, n) == dir;
    if trail {
      SplitAppend(core, sep, "", seps);
      assert core + [sep] + "" == n;
      assert Split("", seps) == [""];
      assert Split(n, seps) == segs + [""];
      NormAppend(dir, segs, [""], false);
      NormEmptyPiece(NormFrom(dir, segs, false));
    } else {
      assert n == core;
    }
  }

  /** Resolving `path.join(a, b)` resolves `a`, then walks the pieces of `b`. */
  lemma JoinPathsResolve(st: Style, dir: seq<string>, a: string, b: string)
    requires Names(st, dir)
    requires a != "" || !IsAbsolute(st, b)
    ensures ResolveFrom(st, dir, JoinPaths(st, a, b))
         == NormFrom(ResolveFrom(st, dir, a), Split(b, Seps(st)), false)
  {
    var seps := Seps(st);
    assert Split("", seps) == [""];
    if a == "" && b == "" {
      SplitNoSep(".", seps);
    } else {
      var x := if a == "" then b else if b == "" then a else a + [Sep(st)] + b;
      ResolveNormalize(st, dir, x);
      assert NormFrom(dir, [""], false) == dir;
      assert ResolveFrom(st, dir, "") == dir;
      if a == "" {
        assert x == b && Origin(st, dir, b) == dir;
      } else if b == "" {
        assert x == a;
        assert NormFrom(ResolveFrom(st, dir, a), [""], false) == ResolveFrom(st, dir, a);
      } else {
        SplitAppend(a, Sep(st), b, seps);
        assert Origin(st, dir, x) == Origin(st, dir, a);
        NormAppend(Origin(st, dir, a), Split(a, seps), Split(b, seps), false);
      }
    }
  }

  /** The pieces of a string made only of names (none for the empty string). */
  function SegsOf(st: Style, s: string): seq<string> {
    if s == "" then [] else Split(s, Seps(st))
  }

  /** A path made only of names. */
  predicate Plain(st: Style, s: string) {
    Names(st, SegsOf(st, s))
  }

  /** `path.normalize` of a relative path that neither starts nor ends with
      a separator and keeps some segment is those segments joined. */
  lemma NormalizeInner(st: Style, x: string, segs: seq<string>)
    requires x != "" && x[0] !in Seps(st) && x[|x| - 1] !in Seps(st)
    requires NormFrom([], Split(x, Seps(st)), true) == segs && segs != []
    ensures Normalize(st, x) == Join(segs, Sep(st))
  {
    var j := Join(segs, Sep(st));
    assert "" + j + "" == j;
  }

  /** `path.join` of two paths made only of names is their names joined by
      the separator. */
  lemma JoinPathsNames(st: Style, a: string, b: string)
    requires Plain(st, a) && Plain(st, b) && (a != "" || b != "")
    ensures JoinPaths(st, a, b) == Join(SegsOf(st, a) + SegsOf(st, b), Sep(st))
  {
    var seps := Seps(st);
    var x := if a == "" then b else if b == "" then a else a + [Sep(st)] + b;
    var segs := SegsOf(st, a) + SegsOf(st, b);
    if a != "" && b != "" {
      SplitAppend(a, Sep(st), b, seps);
    } else if a == "" {
      assert segs == SegsOf(st, b);
    } else {
      assert segs == SegsOf(st, a);
    }
    assert Split(x, seps) == segs;
    SplitNamesEnds(st, x);
    NormNames(st, [], segs, true);
    NormalizeInner(st, x, segs);
  }

  /** `path.join('.', name)` is the name itself. */
  lemma JoinDotName(st: Style, n: string)
    requires IsName(st, n)
    ensures JoinPaths(st, ".", n) == n
  {
    var seps := Seps(st);
    var x := "." + [Sep(st)] + n;
    SplitAppend(".", Sep(st), n, seps);
    SplitNoSep(".", seps);
    SplitNoSep(n, seps);
    assert Split(x, seps) == [".", n];
    assert NormFrom([], [".", n], true) == NormFrom([], [n], true) by {
      assert [".", n][1..] == [n];
    }
    assert NormFrom([], [n], true) == NormFrom([n], [], true) by {
      assert [n][1..] == [];
    }
    assert x[0] == '.' && x[|x| - 1] == n[|n| - 1];
    NormalizeInner(st, x, [n]);
  }

  /** A plain path rebuilt from its names with the separator. */
  lemma PlainJoin(st: Style, segs: seq<string>)
    requires Names(st, segs)
    ensures Plain(st, Join(segs, Sep(st)))
    ensures SegsOf(st, Join(segs, Sep(st))) == segs
  {
    JoinEmpty(segs, Sep(st));
    if segs != [] {
      SplitJoin(segs, Sep(st), Seps(st));
    }
  }

  // ---------------------------------------------------------------------
  // Relative paths

  /** Walking from `from` along `path.relative(from, to)` arrives at `to`. */
  lemma RelativeRoundTrip(st: Style, from: seq<string>, to: seq<string>)
    requires Names(st, from) && Names(st, to)
    ensures NormFrom(from, RelSegs(from, to), false) == to
  {
    var k := |CommonPrefix(from, to)|;
    NormAppend(from, Ups(|from| - k), to[k..], false);
    NormUps(st, from, |from| - k, false);
    NamesSuffix(st, to, k);
    NormNames(st, from[..k], to[k..], false);
    PrefixSuffix(from, to, k);
  }

  lemma NamesSuffix(st: Style, segs: seq<string>, k: nat)
    requires Names(st, segs) && k <= |segs|
    ensures Names(st, segs[k..])
  {
    assert forall i :: 0 <= i < |segs| - k ==> segs[k..][i] == segs[k + i];
  }

  /** Rebuilding `to` from the part it shares with `from` and its own rest. */
  lemma PrefixSuffix(from: seq<string>, to: seq<string>, k: nat)
    requires k == |CommonPrefix(from, to)|
    ensures k <= |from| && from[..k] + to[k..] == to
  {
    assert from[..k] == to[..k];
    assert to[..k] + to[k..] == to;
  }

  /** `path.relative` of two paths below a common directory does not depend
      on that directory. */
  lemma RelSegsShift(p: seq<string>, a: seq<string>, b: seq<string>)
    ensures RelSegs(p + a, p + b) == RelSegs(a, b)
  {
    CommonPrefixAppend(p, a, b);
    var k := |CommonPrefix(a, b)|;
    assert (p + b)[|p| + k..] == b[k..];
  }

  /** The relative path from a directory to one below it descends only. */
  lemma RelSegsDown(c: seq<string>, a: seq<string>)
    requires c <= a
    ensures RelSegs(c, a) == a[|c|..]
  {
    CommonPrefixOfPrefix(c, a);
  }

  /** The pieces of a relative path are `..`s and names. */
  lemma RelSegsPieces(st: Style, from: seq<string>, to: seq<string>)
    requires Names(st, to)
    ensures Pieces(st, RelSegs(from, to))
    ensures forall k :: 0 <= k < |RelSegs(from, to)| ==> NoneIn(RelSegs(from, to)[k], Seps(st))
  {
    var r := RelSegs(from, to);
    var k := |CommonPrefix(from, to)|;
    forall i | 0 <= i < |r|
      ensures (r[i] == ".." || IsName(st, r[i])) && NoneIn(r[i], Seps(st))
    {
      if i < |from| - k {
        assert r[i] == "..";
        assert NoneIn("..", Seps(st));
      } else {
        assert r[i] == to[k + i - (|from| - k)];
      }
    }
  }
}
