/** The relocation of one `url(...)` reference (`generateDirs.js`): where the
    asset is copied to, below `options.base`, and the new `url("...")` that
    leads from the CSS file's pipeline-relative directory to that copy.

    Two defects of the source are modelled side by side, selected by
    `Revision`: `AsWritten` follows the code line for line, `Corrected` fixes
    them and is what the rest of the model uses. */
module GenerateDirs {
  import opened Results
  import opened Text
  import opened NodePath
  import opened UrlParse

  /** `options.pathTransform(newAssetFile, cssFilePathAbs, cssFilePathRel, urlMatch)`:
      user code, any function of its arguments. */
  type PathTransform = (string, string, string, string) -> string

  datatype Options = Options(base: string, pathTransform: Option<PathTransform>)

  /** The object `generateDirs` returns. */
  datatype Dirs = Dirs(newUrl: string, assetPath: string, newAssetFile: string)

  /** `url.parse(urlMatch).pathname` is `null`, so calling `replace` on it throws. */
  datatype Error = InvalidUrlReference

  /** `AsWritten`: `getCommonBaseDir` gives "" for directories that share only
      the root, and an empty relative directory yields the URL `/basename`.
      `Corrected`: the root is returned as the separator, and the URL is the
      bare basename. */
  datatype Revision = AsWritten | Corrected

  // ---------------------------------------------------------------------
  // getCommonBaseDir

  /** The pieces both paths start with, compared whole pieces at a time, joined again. */
  function CommonBaseDirOf(a: string, b: string, sep: char): string {
    Join(CommonPrefix(Split(a, {sep}), Split(b, {sep})), sep)
  }

  /** `getCommonBaseDir(a, b)`: walks the pieces of `a` while `b` has the same
      piece at the same place, collecting them. */
  method CommonBaseDir(a: string, b: string, sep: char) returns (common: string)
    ensures common == CommonBaseDirOf(a, b, sep)
  {
    var aps := Split(a, {sep});
    var bps := Split(b, {sep});
    var shared: seq<string> := [];
    var i := 0;
    while i < |aps|
      invariant 0 <= i <= |aps| && i <= |bps|
      invariant shared == aps[..i] == bps[..i]
    {
      if i >= |bps| || bps[i] != aps[i] {
        break;
      }
      shared := shared + [aps[i]];
      i := i + 1;
    }
    CommonPrefixAt(aps, bps, i);
    common := Join(shared, sep);
  }

  /** Where two lists first differ, or one ends, their common prefix ends. */
  lemma CommonPrefixAt(x: seq<string>, y: seq<string>, i: nat)
    requires i <= |x| && i <= |y| && x[..i] == y[..i]
    requires i == |x| || i == |y| || x[i] != y[i]
    ensures CommonPrefix(x, y) == x[..i]
  {
    assert x == x[..i] + x[i..] && y == x[..i] + y[i..];
    CommonPrefixAppend(x[..i], x[i..], y[i..]);
    assert CommonPrefix(x[i..], y[i..]) == [];
  }

  lemma CommonBaseDirSymmetric(a: string, b: string, sep: char)
    ensures CommonBaseDirOf(a, b, sep) == CommonBaseDirOf(b, a, sep)
  {
    CommonPrefixSymmetric(Split(a, {sep}), Split(b, {sep}));
  }

  lemma CommonBaseDirSelf(a: string, sep: char)
    ensures CommonBaseDirOf(a, a, sep) == a
  {
    CommonPrefixSelf(Split(a, {sep}));
    JoinSplit(a, sep);
  }

  /** For two absolute paths the pieces of the result are the longest list
      of whole pieces both paths start with. */
  lemma CommonBaseDirLongest(a: string, b: string, sep: char)
    requires |a| > 0 && |b| > 0 && a[0] == sep && b[0] == sep
    ensures var c := Split(CommonBaseDirOf(a, b, sep), {sep});
            var pa := Split(a, {sep});
            var pb := Split(b, {sep});
            c <= pa && c <= pb && (|c| < |pa| && |c| < |pb| ==> pa[|c|] != pb[|c|])
  {
    var pa := Split(a, {sep});
    var pb := Split(b, {sep});
    assert pa[0] == "" && pb[0] == "";
    var cp := CommonPrefix(pa, pb);
    assert |cp| > 0;
    SplitJoin(cp, sep, {sep});
  }

  /** `/a/b/c` and `/a/bc/d` share `/a`, not `/a/b`. */
  lemma CommonBaseDirExample()
    ensures CommonBaseDirOf("/a/b/c", "/a/bc/d", '/') == "/a"
  {
    var pa, pb := ["", "a", "b", "c"], ["", "a", "bc", "d"];
    assert Join(pa, '/') == "/a/b/c" && Join(pb, '/') == "/a/bc/d";
    SplitJoin(pa, '/', {'/'});
    SplitJoin(pb, '/', {'/'});
    assert CommonPrefix(["", "a", "b", "c"], ["", "a", "bc", "d"]) == ["", "a"];
  }

  /** The pieces `split(path.sep)` finds in a resolved path. */
  lemma SplitRender(st: Style, segs: seq<string>)
    requires Names(st, segs)
    ensures Split(Render(st, segs), {Sep(st)}) == [""] + RootPieces(segs)
  {
    var sep := Sep(st);
    SplitAppend("", sep, Join(segs, sep), {sep});
    assert "" + [sep] + Join(segs, sep) == Render(st, segs);
    assert Split("", {sep}) == [""];
    if segs != [] {
      assert forall k :: 0 <= k < |segs| ==> NoneIn(segs[k], {sep});
      SplitJoin(segs, sep, {sep});
    }
  }

  /** The common ancestor handed to `path.relative`. */
  function CommonDir(rev: Revision, st: Style, a: string, b: string): string {
    var c := CommonBaseDirOf(a, b, Sep(st));
    if rev == Corrected && c == "" then [Sep(st)] else c
  }

  /** The common ancestor of two resolved directories resolves to their
      longest common prefix, except as written when that prefix is only the
      root: then the empty string resolves to the working directory. */
  lemma CommonDirResolve(rev: Revision, st: Style, cwd: seq<string>, a: seq<string>, c: seq<string>)
    requires Names(st, cwd) && Names(st, a) && Names(st, c)
    ensures ResolveFrom(st, cwd, CommonDir(rev, st, Render(st, a), Render(st, c)))
         == if rev == AsWritten && CommonPrefix(a, c) == [] && (a != [] || c != []) then cwd
            else CommonPrefix(a, c)
  {
    var k := CommonPrefix(a, c);
    var dir := CommonDir(rev, st, Render(st, a), Render(st, c));
    CommonBaseDirRender(st, a, c);
    if a == [] && c == [] {
      ResolveRender(st, cwd, []);
    } else if k == [] {
      if rev == AsWritten {
        assert dir == "";
        assert Split("", Seps(st)) == [""];
        assert NormFrom(cwd, [""], false) == cwd by {
          assert [""][1..] == [];
        }
      } else {
        assert dir == Render(st, []);
        ResolveRender(st, cwd, []);
      }
    } else {
      assert Names(st, k) by {
        assert k <= a;
      }
      ResolveRender(st, cwd, k);
    }
  }

  /** `getCommonBaseDir` of two resolved paths: the rendered longest common
      prefix, except the empty string when they share only the root. */
  lemma CommonBaseDirRender(st: Style, a: seq<string>, c: seq<string>)
    requires Names(st, a) && Names(st, c)
    ensures CommonBaseDirOf(Render(st, a), Render(st, c), Sep(st))
         == if CommonPrefix(a, c) == [] && (a != [] || c != []) then "" else Render(st, CommonPrefix(a, c))
  {
    var sep := Sep(st);
    SplitRender(st, a);
    SplitRender(st, c);
    CommonPrefixAppend([""], RootPieces(a), RootPieces(c));
    RootPiecesPrefix(st, a, c);
    var k := CommonPrefix(a, c);
    if a == [] && c == [] {
      RootedJoin([""], sep);
    } else if k != [] {
      RootedJoin(k, sep);
    }
  }

  /** The pieces after the leading empty one in a split resolved path. */
  function RootPieces(segs: seq<string>): seq<string> {
    if segs == [] then [""] else segs
  }

  lemma RootPiecesPrefix(st: Style, a: seq<string>, c: seq<string>)
    requires Names(st, a) && Names(st, c)
    ensures CommonPrefix(RootPieces(a), RootPieces(c)) == if a == [] && c == [] then [""] else CommonPrefix(a, c)
  {
    if a == [] && c != [] {
      assert IsName(st, c[0]);
    } else if a != [] && c == [] {
      assert IsName(st, a[0]);
    }
  }

  /** A list of pieces after an empty first piece joins to a leading separator. */
  lemma RootedJoin(rest: seq<string>, sep: char)
    requires rest != []
    ensures Join([""] + rest, sep) == [sep] + Join(rest, sep)
  {
    assert ([""] + rest)[1..] == rest;
  }

  // ---------------------------------------------------------------------
  // generateDirs

  /** `cssFromDirAbs = path.dirname(path.resolve(cssFilePathAbs))`. */
  function CssDirAbs(st: Style, cwd: seq<string>, cssAbs: string): (r: seq<string>)
    requires Names(st, cwd)
    ensures Names(st, r)
  {
    Parent(ResolveFrom(st, cwd, cssAbs))
  }

  /** `assetFromDirAbs = path.dirname(path.resolve(cssFromDirAbs, assetPath))`. */
  function AssetDirAbs(st: Style, cwd: seq<string>, cssAbs: string, assetPath: string): (r: seq<string>)
    requires Names(st, cwd)
    ensures Names(st, r)
  {
    Parent(ResolveFrom(st, CssDirAbs(st, cwd, cssAbs), assetPath))
  }

  /** `newAssetPath = path.join(options.base, path.relative(fromBaseDirAbs, assetFromDirAbs))`. */
  function NewAssetPath(rev: Revision, st: Style, cwd: seq<string>, cssAbs: string, assetPath: string, base: string): string
    requires Names(st, cwd)
  {
    var assetDir := AssetDirAbs(st, cwd, cssAbs, assetPath);
    var common := CommonDir(rev, st, Render(st, assetDir), Render(st, CssDirAbs(st, cwd, cssAbs)));
    JoinPaths(st, base, Relative(st, cwd, common, Render(st, assetDir)))
  }

  /** `path.relative(cssFromDirRel, newAssetPath)` for the resolved new asset directory `target`. */
  function UrlDir(st: Style, cwd: seq<string>, cssRel: string, target: seq<string>): string
    requires Names(st, cwd)
  {
    Join(RelSegs(ResolveDirname(st, cwd, cssRel), target), Sep(st))
  }

  /** The path inside the new `url("...")`: the relative directory with `/`
      separators, a `/`, and the basename. */
  function UrlPath(rev: Revision, st: Style, dir: string, basename: string): string {
    if rev == Corrected && dir == "" then basename
    else Replace(dir, Sep(st), '/') + "/" + basename
  }

  /** `assetPath` is `u` up to its first `?` or `#`, with each `/` turned
      into the separator. */
  predicate IsPathnameOf(st: Style, u: string, assetPath: string) {
    |assetPath| <= |u|
    && (|assetPath| < |u| ==> u[|assetPath|] == '?' || u[|assetPath|] == '#')
    && forall k :: 0 <= k < |assetPath| ==>
         u[k] != '?' && u[k] != '#' && assetPath[k] == (if u[k] == '/' then Sep(st) else u[k])
  }

  /** The `url("...")` text around a path and the query and fragment. */
  function UrlOf(p: string, rest: string): string {
    "url(\"" + p + rest + "\")"
  }

  /** Where the asset goes and the URL path leading there, for a pathname
      `assetPath` already converted to separators: `(urlPath, newAssetFile)`. */
  function Relocate(rev: Revision, st: Style, cwd: seq<string>, cssAbs: string, cssRel: string,
                    u: string, assetPath: string, opts: Options): (string, string)
    requires Names(st, cwd)
  {
    var newAssetPath := NewAssetPath(rev, st, cwd, cssAbs, assetPath, opts.base);
    var assetBasename := Basename(st, assetPath);
    var newAssetFile := JoinPaths(st, newAssetPath, assetBasename);
    match opts.pathTransform
    case None =>
      (UrlPath(rev, st, UrlDir(st, cwd, cssRel, ResolveFrom(st, cwd, newAssetPath)), assetBasename), newAssetFile)
    case Some(transform) =>
      var file := transform(newAssetFile, cssAbs, cssRel, u);
      (UrlPath(rev, st, UrlDir(st, cwd, cssRel, ResolveDirname(st, cwd, file)), Basename(st, file)), file)
  }

  /** What `url.parse(urlMatch).pathname.replace(/\//g, path.sep)` gives:
      nothing exactly when `u`, once stripped of white space at its ends, is
      empty or starts with `?` or `#`, and otherwise the converted text of
      the stripped reference before the query and fragment. */
  lemma ParsedPathname(st: Style, u: string)
    ensures var parsed, t := ParseUrl(u), TrimUrl(u);
            (parsed.pathname.None? <==> (|t| == 0 || t[0] == '?' || t[0] == '#'))
            && (parsed.pathname.Some? ==>
                  var assetPath := Replace(parsed.pathname.value, '/', Sep(st));
                  IsPathnameOf(st, t, assetPath) && t[|assetPath|..] == parsed.search + parsed.hash)
  {
    SplitPathname(st, TrimUrl(u));
  }

  /** `ParsedPathname` for the reference once stripped. */
  lemma SplitPathname(st: Style, t: string)
    ensures var parsed := SplitUrl(t);
            (parsed.pathname.None? <==> (|t| == 0 || t[0] == '?' || t[0] == '#'))
            && (parsed.pathname.Some? ==>
                  var assetPath := Replace(parsed.pathname.value, '/', Sep(st));
                  IsPathnameOf(st, t, assetPath) && t[|assetPath|..] == parsed.search + parsed.hash)
  {
    var parsed := SplitUrl(t);
    if parsed.pathname.None? {
      assert t == parsed.search + parsed.hash;
    } else {
      var pathname := parsed.pathname.value;
      assert t == pathname + (parsed.search + parsed.hash);
      assert forall k :: 0 <= k < |pathname| ==> t[k] == pathname[k];
      assert t[|pathname|..] == parsed.search + parsed.hash;
    }
  }

  /** `generateDirs(cssFilePathAbs, cssFilePathRel, urlMatch, options)`. */
  function GenerateDirs(rev: Revision, st: Style, cwd: seq<string>, cssAbs: string, cssRel: string,
                        u: string, opts: Options): (r: Result<Dirs, Error>)
    requires Names(st, cwd)
    ensures var t := TrimUrl(u); r.Failure? <==> (|t| == 0 || t[0] == '?' || t[0] == '#')
    ensures r.Success? ==> IsPathnameOf(st, TrimUrl(u), r.value.assetPath)
    ensures r.Success? ==> exists p :: r.value.newUrl == UrlOf(p, TrimUrl(u)[|r.value.assetPath|..])
  {
    ParsedPathname(st, u);
    var parsed := ParseUrl(u);
    if parsed.pathname.None? then
      Failure(InvalidUrlReference)
    else
      var assetPath := Replace(parsed.pathname.value, '/', Sep(st));
      var moved := Relocate(rev, st, cwd, cssAbs, cssRel, u, assetPath, opts);
      var rest := parsed.search + parsed.hash;
      assert UrlOf(moved.0, rest) == UrlOf(moved.0, TrimUrl(u)[|assetPath|..]);
      Success(Dirs(UrlOf(moved.0, rest), assetPath, moved.1))
  }

  /** A reference with a path is relocated from its converted pathname, and
      keeps its query and fragment. */
  lemma GenerateDirsUnfold(rev: Revision, st: Style, cwd: seq<string>, cssAbs: string, cssRel: string,
                           u: string, opts: Options)
    requires Names(st, cwd)
    requires var t := TrimUrl(u); |t| > 0 && t[0] != '?' && t[0] != '#'
    ensures var parsed := ParseUrl(u);
            parsed.pathname.Some?
            && var assetPath := Replace(parsed.pathname.value, '/', Sep(st));
               var moved := Relocate(rev, st, cwd, cssAbs, cssRel, u, assetPath, opts);
               GenerateDirs(rev, st, cwd, cssAbs, cssRel, u, opts)
                 == Success(Dirs(UrlOf(moved.0, parsed.search + parsed.hash), assetPath, moved.1))
  {
    ParsedPathname(st, u);
  }

  // ---------------------------------------------------------------------
  // Properties of the relocation

  /** The corrected URL path, read from the CSS file's directory `from`,
      leads to `bn` taken one step from `to`; it is never root-absolute and,
      for win32, holds no backslash. */
  lemma UrlPathResolves(st: Style, from: seq<string>, to: seq<string>, bn: string)
    requires Names(st, from) && Names(st, to) && NoneIn(bn, Seps(st))
    ensures var p := UrlPath(Corrected, st, Join(RelSegs(from, to), Sep(st)), bn);
            !IsAbsolute(st, p)
            && ResolveFrom(st, from, p) == NormFrom(to, [bn], false)
  {
    var sep, seps := Sep(st), Seps(st);
    var rs := RelSegs(from, to);
    var rel := Join(rs, sep);
    RelativeRoundTrip(st, from, to);
    RelSegsPieces(st, from, to);
    SplitNoSep(bn, seps);
    JoinEmpty(rs, sep);
    if rs == [] {
      assert UrlPath(Corrected, st, rel, bn) == bn;
      assert from == to;
    } else {
      var rr := Replace(rel, sep, '/');
      var p := rr + "/" + bn;
      assert p == rr + ['/'] + bn;
      SplitAppend(rr, '/', bn, seps);
      SplitReplace(rel, sep, '/', seps);
      SplitJoin(rs, sep, seps);
      assert Split(p, seps) == rs + [bn];
      assert rel[0] == rs[0][0] && rs[0][0] !in seps;
      assert p[0] == rel[0];
      NormAppend(from, rs, [bn], false);
    }
  }

  /** For win32 the URL path uses `/` only, whatever the relative directory. */
  lemma UrlPathSlashes(rev: Revision, dir: string, bn: string)
    requires NoneIn(bn, Seps(Win32))
    ensures var p := UrlPath(rev, Win32, dir, bn);
            forall k :: 0 <= k < |p| ==> p[k] != '\\'
  {
    var p := UrlPath(rev, Win32, dir, bn);
    if !(rev == Corrected && dir == "") {
      var rr := Replace(dir, '\\', '/');
      assert p == rr + "/" + bn;
      assert forall k :: 0 <= k < |bn| ==> p[|rr| + 1 + k] == bn[k];
    }
  }

  /** The URL written into the stylesheet, read from the directory of the
      CSS file's pipeline-relative path, leads to the file the asset is
      written to, whether or not a `pathTransform` chose that file. */
  lemma NewUrlRoundTrip(st: Style, cwd: seq<string>, cssAbs: string, cssRel: string, u: string, opts: Options)
    requires Names(st, cwd)
    requires GenerateDirs(Corrected, st, cwd, cssAbs, cssRel, u, opts).Success?
    ensures var d := GenerateDirs(Corrected, st, cwd, cssAbs, cssRel, u, opts).value;
            exists p :: d.newUrl == UrlOf(p, TrimUrl(u)[|d.assetPath|..]) && !IsAbsolute(st, p)
              && ResolveFrom(st, ResolveDirname(st, cwd, cssRel), p) == ResolveFrom(st, cwd, d.newAssetFile)
              && (st == Win32 ==> forall k :: 0 <= k < |p| ==> p[k] != '\\')
  {
    ParsedPathname(st, u);
    var parsed := ParseUrl(u);
    var assetPath := Replace(parsed.pathname.value, '/', Sep(st));
    var moved := Relocate(Corrected, st, cwd, cssAbs, cssRel, u, assetPath, opts);
    var from := ResolveDirname(st, cwd, cssRel);
    var newAssetPath := NewAssetPath(Corrected, st, cwd, cssAbs, assetPath, opts.base);
    var bn := Basename(st, assetPath);
    match opts.pathTransform
    case None =>
      if st == Win32 {
        UrlPathSlashes(Corrected, UrlDir(st, cwd, cssRel, ResolveFrom(st, cwd, newAssetPath)), bn);
      }
      UrlPathResolves(st, from, ResolveFrom(st, cwd, newAssetPath), bn);
      SplitNoSep(bn, Seps(st));
      JoinPathsResolve(st, cwd, newAssetPath, bn);
      assert ResolveFrom(st, cwd, moved.1) == NormFrom(ResolveFrom(st, cwd, newAssetPath), [bn], false);
    case Some(transform) =>
      var file := moved.1;
      if st == Win32 {
        UrlPathSlashes(Corrected, UrlDir(st, cwd, cssRel, ResolveDirname(st, cwd, file)), Basename(st, file));
      }
      UrlPathResolves(st, from, ResolveDirname(st, cwd, file), Basename(st, file));
      DirnameBasename(st, cwd, file);
  }

  /** With a `pathTransform`, the asset goes where the transform says, and
      the transform is handed the file the plugin would have chosen itself. */
  lemma PathTransformOverrides(rev: Revision, st: Style, cwd: seq<string>, cssAbs: string, cssRel: string,
                               u: string, opts: Options)
    requires Names(st, cwd)
    requires opts.pathTransform.Some?
    requires GenerateDirs(rev, st, cwd, cssAbs, cssRel, u, opts).Success?
    ensures GenerateDirs(rev, st, cwd, cssAbs, cssRel, u, opts.(pathTransform := None)).Success?
    ensures var d := GenerateDirs(rev, st, cwd, cssAbs, cssRel, u, opts).value;
            var plain := GenerateDirs(rev, st, cwd, cssAbs, cssRel, u, opts.(pathTransform := None)).value;
            d.assetPath == plain.assetPath
            && d.newAssetFile == opts.pathTransform.value(plain.newAssetFile, cssAbs, cssRel, u)
  {
    ParsedPathname(st, u);
  }

  /** Without a transform, and for a `base` made of names and an asset
      whose base name is a name, the asset goes to `base` followed by the
      asset's directory below the directory it shares with the CSS file,
      followed by its base name. */
  lemma NewAssetFileLayout(st: Style, cwd: seq<string>, cssAbs: string, cssRel: string, u: string, opts: Options)
    requires Names(st, cwd) && opts.pathTransform.None? && Plain(st, opts.base)
    requires GenerateDirs(Corrected, st, cwd, cssAbs, cssRel, u, opts).Success?
    requires IsName(st, Basename(st, GenerateDirs(Corrected, st, cwd, cssAbs, cssRel, u, opts).value.assetPath))
    ensures var d := GenerateDirs(Corrected, st, cwd, cssAbs, cssRel, u, opts).value;
            var a := AssetDirAbs(st, cwd, cssAbs, d.assetPath);
            var c := CssDirAbs(st, cwd, cssAbs);
            d.newAssetFile == Join(SegsOf(st, opts.base) + a[|CommonPrefix(a, c)|..] + [Basename(st, d.assetPath)], Sep(st))
  {
    GenerateDirsUnfold(Corrected, st, cwd, cssAbs, cssRel, u, opts);
    var assetPath := Replace(ParseUrl(u).pathname.value, '/', Sep(st));
    RelocateLayout(st, cwd, cssAbs, cssRel, u, assetPath, opts);
  }

  /** `NewAssetFileLayout` for an already converted pathname. */
  lemma RelocateLayout(st: Style, cwd: seq<string>, cssAbs: string, cssRel: string, u: string, assetPath: string, opts: Options)
    requires Names(st, cwd) && opts.pathTransform.None? && Plain(st, opts.base)
    requires IsName(st, Basename(st, assetPath))
    ensures var a := AssetDirAbs(st, cwd, cssAbs, assetPath);
            var c := CssDirAbs(st, cwd, cssAbs);
            Relocate(Corrected, st, cwd, cssAbs, cssRel, u, assetPath, opts).1
              == Join(SegsOf(st, opts.base) + a[|CommonPrefix(a, c)|..] + [Basename(st, assetPath)], Sep(st))
  {
    var a := AssetDirAbs(st, cwd, cssAbs, assetPath);
    var c := CssDirAbs(st, cwd, cssAbs);
    var rest := a[|CommonPrefix(a, c)|..];
    RelativeToCommon(st, cwd, a, c);
    BaseLayout(st, opts.base, rest, Basename(st, assetPath));
  }

  /** With a non-empty `base`, the leading pieces of the copy's path are
      exactly `base`'s pieces. */
  lemma NewAssetFileInBase(st: Style, cwd: seq<string>, cssAbs: string, cssRel: string, u: string, opts: Options)
    requires Names(st, cwd) && opts.pathTransform.None? && Plain(st, opts.base)
    requires GenerateDirs(Corrected, st, cwd, cssAbs, cssRel, u, opts).Success?
    requires IsName(st, Basename(st, GenerateDirs(Corrected, st, cwd, cssAbs, cssRel, u, opts).value.assetPath))
    ensures var segs := SegsOf(st, GenerateDirs(Corrected, st, cwd, cssAbs, cssRel, u, opts).value.newAssetFile);
            var b := SegsOf(st, opts.base);
            |b| < |segs| && segs[..|b|] == b
  {
    GenerateDirsUnfold(Corrected, st, cwd, cssAbs, cssRel, u, opts);
    RelocateInBase(st, cwd, cssAbs, cssRel, u, Replace(ParseUrl(u).pathname.value, '/', Sep(st)), opts);
  }

  /** `NewAssetFileInBase` for an already converted pathname. */
  lemma RelocateInBase(st: Style, cwd: seq<string>, cssAbs: string, cssRel: string, u: string, assetPath: string, opts: Options)
    requires Names(st, cwd) && opts.pathTransform.None? && Plain(st, opts.base)
    requires IsName(st, Basename(st, assetPath))
    ensures var segs := SegsOf(st, Relocate(Corrected, st, cwd, cssAbs, cssRel, u, assetPath, opts).1);
            var b := SegsOf(st, opts.base);
            |b| < |segs| && segs[..|b|] == b
  {
    var a := AssetDirAbs(st, cwd, cssAbs, assetPath);
    var c := CssDirAbs(st, cwd, cssAbs);
    RelocateLayout(st, cwd, cssAbs, cssRel, u, assetPath, opts);
    LayoutPieces(st, SegsOf(st, opts.base), a[|CommonPrefix(a, c)|..], Basename(st, assetPath),
                 Relocate(Corrected, st, cwd, cssAbs, cssRel, u, assetPath, opts).1);
  }

  /** Joining names and splitting again gives the names back, in order. */
  lemma LayoutPieces(st: Style, b: seq<string>, rest: seq<string>, bn: string, file: string)
    requires Names(st, b) && Names(st, rest) && IsName(st, bn)
    requires file == Join(b + rest + [bn], Sep(st))
    ensures var segs := SegsOf(st, file);
            |b| < |segs| && segs[..|b|] == b
  {
    var all := b + rest + [bn];
    assert Names(st, all);
    PlainJoin(st, all);
    assert all[..|b|] == b;
  }

  /** With an empty `base`, the copy's path is the asset's directory below
      the common ancestor, then its base name. */
  lemma NewAssetFileEmptyBase(st: Style, cwd: seq<string>, cssAbs: string, cssRel: string, u: string, opts: Options)
    requires Names(st, cwd) && opts.pathTransform.None? && opts.base == ""
    requires GenerateDirs(Corrected, st, cwd, cssAbs, cssRel, u, opts).Success?
    requires IsName(st, Basename(st, GenerateDirs(Corrected, st, cwd, cssAbs, cssRel, u, opts).value.assetPath))
    ensures var d := GenerateDirs(Corrected, st, cwd, cssAbs, cssRel, u, opts).value;
            var a := AssetDirAbs(st, cwd, cssAbs, d.assetPath);
            var c := CssDirAbs(st, cwd, cssAbs);
            d.newAssetFile == Join(a[|CommonPrefix(a, c)|..] + [Basename(st, d.assetPath)], Sep(st))
  {
    GenerateDirsUnfold(Corrected, st, cwd, cssAbs, cssRel, u, opts);
    var assetPath := Replace(ParseUrl(u).pathname.value, '/', Sep(st));
    var a := AssetDirAbs(st, cwd, cssAbs, assetPath);
    var c := CssDirAbs(st, cwd, cssAbs);
    EmptyBasePieces(st, opts.base, a[|CommonPrefix(a, c)|..], Basename(st, assetPath));
    RelocateLayout(st, cwd, cssAbs, cssRel, u, assetPath, opts);
  }

  lemma EmptyBasePieces(st: Style, base: string, rest: seq<string>, bn: string)
    requires base == ""
    ensures Plain(st, base) && SegsOf(st, base) + rest + [bn] == rest + [bn]
  {
  }

  /** From the corrected common ancestor of two resolved directories, the
      first is reached by its own names below their longest common prefix. */
  lemma RelativeToCommon(st: Style, cwd: seq<string>, a: seq<string>, c: seq<string>)
    requires Names(st, cwd) && Names(st, a) && Names(st, c)
    ensures Relative(st, cwd, CommonDir(Corrected, st, Render(st, a), Render(st, c)), Render(st, a))
         == Join(a[|CommonPrefix(a, c)|..], Sep(st))
  {
    CommonDirResolve(Corrected, st, cwd, a, c);
    ResolveRender(st, cwd, a);
    RelSegsDown(CommonPrefix(a, c), a);
  }

  /** `path.join(path.join(base, rest), bn)` for names only. */
  lemma BaseLayout(st: Style, base: string, rest: seq<string>, bn: string)
    requires Plain(st, base) && Names(st, rest) && IsName(st, bn)
    ensures JoinPaths(st, JoinPaths(st, base, Join(rest, Sep(st))), bn)
         == Join(SegsOf(st, base) + rest + [bn], Sep(st))
  {
    var sep := Sep(st);
    PlainJoin(st, rest);
    SplitNoSep(bn, Seps(st));
    assert Plain(st, bn) && SegsOf(st, bn) == [bn];
    var segs := SegsOf(st, base) + rest;
    if base == "" && rest == [] {
      assert JoinPaths(st, base, Join(rest, sep)) == ".";
      JoinDotName(st, bn);
    } else {
      JoinPathsNames(st, base, Join(rest, sep));
      PlainJoin(st, segs);
      JoinPathsNames(st, Join(segs, sep), bn);
    }
  }

  // ---------------------------------------------------------------------
  // The code as written

  /** When the asset's directory and the CSS file's directory share more
      than the root, the code as written puts the asset where the corrected
      code does, and its URL differs at most by a leading `/` in front of a
      bare base name. */
  lemma AsWrittenAgrees(st: Style, cwd: seq<string>, cssAbs: string, cssRel: string, u: string, opts: Options)
    requires Names(st, cwd)
    requires GenerateDirs(AsWritten, st, cwd, cssAbs, cssRel, u, opts).Success?
    requires var assetPath := GenerateDirs(AsWritten, st, cwd, cssAbs, cssRel, u, opts).value.assetPath;
             CommonPrefix(AssetDirAbs(st, cwd, cssAbs, assetPath), CssDirAbs(st, cwd, cssAbs)) != []
    ensures var dA := GenerateDirs(AsWritten, st, cwd, cssAbs, cssRel, u, opts).value;
            var dC := GenerateDirs(Corrected, st, cwd, cssAbs, cssRel, u, opts).value;
            var rest := TrimUrl(u)[|dC.assetPath|..];
            dA.assetPath == dC.assetPath && dA.newAssetFile == dC.newAssetFile
            && (dA.newUrl == dC.newUrl
                || exists p :: NoneIn(p, Seps(st)) && dC.newUrl == UrlOf(p, rest) && dA.newUrl == UrlOf("/" + p, rest))
  {
    ParsedPathname(st, u);
    var parsed := ParseUrl(u);
    var assetPath := Replace(parsed.pathname.value, '/', Sep(st));
    var a := AssetDirAbs(st, cwd, cssAbs, assetPath);
    var c := CssDirAbs(st, cwd, cssAbs);
    CommonDirAgrees(st, a, c);
    assert NewAssetPath(AsWritten, st, cwd, cssAbs, assetPath, opts.base)
        == NewAssetPath(Corrected, st, cwd, cssAbs, assetPath, opts.base);
    var mA := Relocate(AsWritten, st, cwd, cssAbs, cssRel, u, assetPath, opts);
    var mC := Relocate(Corrected, st, cwd, cssAbs, cssRel, u, assetPath, opts);
    assert mA.1 == mC.1;
    var rest := parsed.search + parsed.hash;
    assert rest == TrimUrl(u)[|assetPath|..];
    GenerateDirsUnfold(AsWritten, st, cwd, cssAbs, cssRel, u, opts);
    GenerateDirsUnfold(Corrected, st, cwd, cssAbs, cssRel, u, opts);
    assert GenerateDirs(AsWritten, st, cwd, cssAbs, cssRel, u, opts).value == Dirs(UrlOf(mA.0, rest), assetPath, mA.1);
    assert GenerateDirs(Corrected, st, cwd, cssAbs, cssRel, u, opts).value == Dirs(UrlOf(mC.0, rest), assetPath, mC.1);
    match opts.pathTransform
    case None =>
      var napC := NewAssetPath(Corrected, st, cwd, cssAbs, assetPath, opts.base);
      UrlPathRevisions(st, UrlDir(st, cwd, cssRel, ResolveFrom(st, cwd, napC)), Basename(st, assetPath));
    case Some(t) =>
      UrlPathRevisions(st, UrlDir(st, cwd, cssRel, ResolveDirname(st, cwd, mC.1)), Basename(st, mC.1));
  }

  /** The two revisions of the URL path differ only for an empty directory. */
  lemma UrlPathRevisions(st: Style, dir: string, bn: string)
    ensures UrlPath(AsWritten, st, dir, bn) == UrlPath(Corrected, st, dir, bn)
         || (dir == "" && UrlPath(Corrected, st, dir, bn) == bn && UrlPath(AsWritten, st, dir, bn) == "/" + bn)
  {
    if dir == "" {
      assert Replace(dir, Sep(st), '/') == "";
    }
  }

  /** The two revisions of the common ancestor agree unless only the root is shared. */
  lemma CommonDirAgrees(st: Style, a: seq<string>, c: seq<string>)
    requires Names(st, a) && Names(st, c) && CommonPrefix(a, c) != []
    ensures CommonDir(AsWritten, st, Render(st, a), Render(st, c)) == CommonDir(Corrected, st, Render(st, a), Render(st, c))
  {
    var k := CommonPrefix(a, c);
    SplitRender(st, a);
    SplitRender(st, c);
    CommonPrefixAppend([""], a, c);
    assert ([""] + k)[1..] == k;
    assert CommonBaseDirOf(Render(st, a), Render(st, c), Sep(st)) != "";
  }

  /** Finding: a stylesheet at the top of the pipeline (pipeline path
      `css`) that references a file `n` next to it gets the URL `/n`, which
      names `n` at the root of the file system rather than the copy the
      plugin writes next to the stylesheet; corrected, the URL is `n`. In
      both, `assetPath` and `newAssetFile` are `n`. */
  lemma SameDirUrl(rev: Revision, st: Style, cwd: seq<string>, dir: seq<string>, css: string, n: string)
    requires Names(st, cwd) && Names(st, dir) && dir != [] && IsName(st, css) && IsName(st, n)
    requires Unqueried(n) && Untrimmed(n)
    ensures GenerateDirs(rev, st, cwd, Render(st, dir + [css]), css, n, Options("", None))
         == Success(Dirs(UrlOf(if rev == AsWritten then "/" + n else n, ""), n, n))
  {
    SameDirDirs(rev, st, cwd, dir, css, n);
    BareUrlPath(rev, st, n);
  }

  lemma SameDirDirs(rev: Revision, st: Style, cwd: seq<string>, dir: seq<string>, css: string, n: string)
    requires Names(st, cwd) && Names(st, dir) && dir != [] && IsName(st, css) && IsName(st, n)
    requires Unqueried(n) && Untrimmed(n)
    ensures GenerateDirs(rev, st, cwd, Render(st, dir + [css]), css, n, Options("", None))
         == Success(Dirs(UrlOf(UrlPath(rev, st, "", n), ""), n, n))
  {
    var cssAbs := Render(st, dir + [css]);
    ParsesAsPath(n);
    NameUnchanged(st, n);
    GenerateDirsUnfold(rev, st, cwd, cssAbs, css, n, Options("", None));
    SameDirRelocate(rev, st, cwd, dir, css, n);
    assert "" + "" == "";
  }

  /** The URL path for an empty directory: `/n` as written, `n` corrected. */
  lemma BareUrlPath(rev: Revision, st: Style, n: string)
    ensures UrlPath(rev, st, "", n) == if rev == AsWritten then "/" + n else n
  {
    assert Replace("", Sep(st), '/') == "";
  }

  lemma SameDirRelocate(rev: Revision, st: Style, cwd: seq<string>, dir: seq<string>, css: string, n: string)
    requires Names(st, cwd) && Names(st, dir) && dir != [] && IsName(st, css) && IsName(st, n)
    ensures Relocate(rev, st, cwd, Render(st, dir + [css]), css, n, n, Options("", None)) == (UrlPath(rev, st, "", n), n)
  {
    var cssAbs := Render(st, dir + [css]);
    var nap := NewAssetPath(rev, st, cwd, cssAbs, n, "");
    assert nap == "." by {
      SameDirNewAssetPath(rev, st, cwd, dir, css, n);
    }
    assert Basename(st, n) == n by {
      SplitNoSep(n, Seps(st));
    }
    JoinDotName(st, n);
    ResolveDot(st, cwd);
    NameDirname(st, cwd, css);
    RelSegsDown(cwd, cwd);
    assert UrlDir(st, cwd, css, cwd) == "";
  }

  /** As written, that URL leads from the stylesheet's directory to `n` at
      the root, while `newAssetFile` resolves from the working directory to
      `n` below it: for the working directory `/w`, stylesheet `/p/s.css`
      with pipeline path `s.css` and reference `x.png`, the URL names
      `/x.png`, `newAssetFile` resolves to `/w/x.png`, and the plugin writes
      the copy to `/p/x.png`. */
  lemma RootUrlAsWritten(st: Style, cwd: seq<string>, dir: seq<string>, css: string, n: string)
    requires Names(st, cwd) && cwd != [] && Names(st, dir) && dir != [] && IsName(st, css) && IsName(st, n)
    requires Unqueried(n) && Untrimmed(n)
    ensures var d := GenerateDirs(AsWritten, st, cwd, Render(st, dir + [css]), css, n, Options("", None)).value;
            d.newUrl == UrlOf("/" + n, "")
            && ResolveFrom(st, ResolveDirname(st, cwd, css), "/" + n) == [n]
            && ResolveFrom(st, cwd, d.newAssetFile) == cwd + [n]
            && [n] != cwd + [n]
  {
    SameDirUrl(AsWritten, st, cwd, dir, css, n);
    NameDirname(st, cwd, css);
    SlashName(st, n);
    NameResolves(st, cwd, n, n);
  }

  /** Corrected, the URL `n` leads from the stylesheet's directory to the copy. */
  lemma RootUrlCorrected(st: Style, cwd: seq<string>, dir: seq<string>, css: string, n: string)
    requires Names(st, cwd) && Names(st, dir) && dir != [] && IsName(st, css) && IsName(st, n)
    requires Unqueried(n) && Untrimmed(n)
    ensures var d := GenerateDirs(Corrected, st, cwd, Render(st, dir + [css]), css, n, Options("", None)).value;
            d.newUrl == UrlOf(n, "")
            && ResolveFrom(st, ResolveDirname(st, cwd, css), n) == ResolveFrom(st, cwd, d.newAssetFile)
  {
    SameDirUrl(Corrected, st, cwd, dir, css, n);
    NameDirname(st, cwd, css);
  }

  /** `/n` resolves to `n` below the root, in either style. */
  lemma SlashName(st: Style, n: string)
    requires IsName(st, n)
    ensures forall dir :: Names(st, dir) ==> ResolveFrom(st, dir, "/" + n) == [n]
  {
    assert "/" + n == "" + ['/'] + n;
    SplitAppend("", '/', n, Seps(st));
    SplitNoSep(n, Seps(st));
    assert Split("/" + n, Seps(st)) == [""] + [n];
    NormAppend([], [""], [n], false);
    NormNames(st, [], [n], false);
  }

  /** A name, or a separator and a name, resolves to that name below the
      directory, or below the root. */
  lemma NameResolves(st: Style, dir: seq<string>, s: string, n: string)
    requires Names(st, dir) && IsName(st, n)
    requires s == n || s == [Sep(st)] + n
    ensures ResolveFrom(st, dir, s) == (if s == n then dir else []) + [n]
  {
    SplitNoSep(n, Seps(st));
    if s != n {
      assert s == "" + [Sep(st)] + n;
      SplitAppend("", Sep(st), n, Seps(st));
      assert Split(s, Seps(st)) == [""] + [n];
      NormAppend([], [""], [n], false);
      NormNames(st, [], [n], false);
    } else {
      NormNames(st, dir, [n], false);
    }
  }

  /** A name has no `/` to convert. */
  lemma NameUnchanged(st: Style, n: string)
    requires NoneIn(n, Seps(st))
    ensures Replace(n, '/', Sep(st)) == n
  {
  }

  /** `path.resolve(path.dirname(name))` is the working directory. */
  lemma NameDirname(st: Style, cwd: seq<string>, n: string)
    requires Names(st, cwd) && IsName(st, n)
    ensures ResolveDirname(st, cwd, n) == cwd
  {
    SplitNoSep(n, Seps(st));
    assert DirParts([n]) == [];
  }

  /** No `?` and no `#` in `s`. */
  predicate Unqueried(s: string) {
    forall k :: 0 <= k < |s| ==> s[k] != '?' && s[k] != '#'
  }

  /** A reference without `?` or `#`, and without white space at its ends,
      is all pathname. */
  lemma ParsesAsPath(u: string)
    requires u != "" && Unqueried(u) && Untrimmed(u)
    ensures TrimUrl(u) == u
    ensures ParseUrl(u) == UrlParts(Some(u), "", "")
  {
    TrimUrlKeeps(u);
    ParseUrlUnique(u, UrlParts(Some(u), "", ""));
  }

  /** The asset's new directory, for an asset next to its stylesheet and an empty `base`. */
  lemma SameDirNewAssetPath(rev: Revision, st: Style, cwd: seq<string>, dir: seq<string>, css: string, n: string)
    requires Names(st, cwd) && Names(st, dir) && dir != [] && IsName(st, css) && IsName(st, n)
    ensures NewAssetPath(rev, st, cwd, Render(st, dir + [css]), n, "") == "."
  {
    var cssAbs := Render(st, dir + [css]);
    ResolveRender(st, cwd, dir + [css]);
    assert Parent(dir + [css]) == dir;
    var c := CssDirAbs(st, cwd, cssAbs);
    NameResolves(st, dir, n, n);
    var a := AssetDirAbs(st, cwd, cssAbs, n);
    assert a == dir && c == dir;
    CommonPrefixSelf(a);
    RelativeToCommon(st, cwd, a, c);
    assert a[|CommonPrefix(a, c)|..] == [];
    if rev == AsWritten {
      CommonDirAgrees(st, a, c);
    }
  }

  /** Finding: when the asset's directory and the stylesheet's share only
      the root, `getCommonBaseDir` gives "", which `path.relative` reads as
      the working directory. With `base` `b`, a stylesheet `/y/css` and the
      reference `../x/n`, the copy goes to `x/n`, outside `b`, when the
      working directory is `/w`, and to `b/x/n` when it is the root. */
  lemma EscapesBaseAsWritten(w: string, b: string, x: string, y: string, css: string, n: string, cssRel: string)
    requires IsName(Posix, w) && IsName(Posix, b) && IsName(Posix, x) && IsName(Posix, y)
    requires IsName(Posix, css) && IsName(Posix, n) && w != x && x != y
    requires Unqueried(x) && Unqueried(n) && Untrimmed(n)
    ensures GenerateDirs(AsWritten, Posix, [w], Render(Posix, [y, css]), cssRel, UpOver(x, n), Options(b, None)).Success?
    ensures GenerateDirs(AsWritten, Posix, [w], Render(Posix, [y, css]), cssRel, UpOver(x, n), Options(b, None)).value.newAssetFile
         == x + "/" + n
    ensures GenerateDirs(AsWritten, Posix, [], Render(Posix, [y, css]), cssRel, UpOver(x, n), Options(b, None)).Success?
    ensures GenerateDirs(AsWritten, Posix, [], Render(Posix, [y, css]), cssRel, UpOver(x, n), Options(b, None)).value.newAssetFile
         == b + "/" + x + "/" + n
  {
    UpOverFile([w], b, x, y, css, n, cssRel);
    UpOverFile([], b, x, y, css, n, cssRel);
  }

  /** The corrected code puts the copy at `b/x/n` whatever the working directory. */
  lemma EscapesBaseCorrected(cwd: seq<string>, b: string, x: string, y: string, css: string, n: string, cssRel: string)
    requires Names(Posix, cwd) && IsName(Posix, b) && IsName(Posix, x) && IsName(Posix, y)
    requires IsName(Posix, css) && IsName(Posix, n) && x != y
    requires Unqueried(x) && Unqueried(n) && Untrimmed(n)
    ensures GenerateDirs(Corrected, Posix, cwd, Render(Posix, [y, css]), cssRel, UpOver(x, n), Options(b, None)).Success?
    ensures GenerateDirs(Corrected, Posix, cwd, Render(Posix, [y, css]), cssRel, UpOver(x, n), Options(b, None)).value.newAssetFile
         == b + "/" + x + "/" + n
  {
    UpOverRelocateCorrected(cwd, b, x, y, css, n, cssRel);
    UpOverParses(x, n);
  }

  lemma UpOverRelocateCorrected(cwd: seq<string>, b: string, x: string, y: string, css: string, n: string, cssRel: string)
    requires Names(Posix, cwd) && IsName(Posix, b) && IsName(Posix, x) && IsName(Posix, y)
    requires IsName(Posix, css) && IsName(Posix, n) && x != y
    ensures Relocate(Corrected, Posix, cwd, Render(Posix, [y, css]), cssRel, UpOver(x, n), UpOver(x, n), Options(b, None)).1
         == b + "/" + x + "/" + n
  {
    UpOverDirs(cwd, x, y, css, n);
    UpOverBasename(x, n);
    RelativeToCommon(Posix, cwd, [x], [y]);
    assert CommonPrefix([x], [y]) == [];
    SplitNoSep(b, {'/'});
    assert SegsOf(Posix, b) == [b];
    BaseLayout(Posix, b, [x], n);
    assert [b] + [x] + [n] == [b, x, n];
    JoinThree(b, x, n, '/');
  }

  /** The reference `../x/n`. */
  function UpOver(x: string, n: string): string {
    ".." + "/" + x + "/" + n
  }

  /** The pieces of `../x/n`. */
  lemma UpOverSplit(x: string, n: string)
    requires IsName(Posix, x) && IsName(Posix, n)
    ensures Split(UpOver(x, n), {'/'}) == ["..", x, n]
  {
    SplitNoSep("..", {'/'});
    SplitNoSep(x, {'/'});
    SplitNoSep(n, {'/'});
    assert x + "/" + n == x + ['/'] + n;
    SplitAppend(x, '/', n, {'/'});
    assert UpOver(x, n) == ".." + ['/'] + (x + "/" + n);
    SplitAppend("..", '/', x + "/" + n, {'/'});
  }

  /** `../x/n` is all pathname, and its `/` are already separators. */
  lemma UpOverParses(x: string, n: string)
    requires IsName(Posix, x) && IsName(Posix, n) && Unqueried(x) && Unqueried(n) && Untrimmed(n)
    ensures ParseUrl(UpOver(x, n)) == UrlParts(Some(UpOver(x, n)), "", "")
    ensures Replace(UpOver(x, n), '/', Sep(Posix)) == UpOver(x, n)
  {
    UpOverBare(x, n);
    ParsesAsPath(UpOver(x, n));
  }

  lemma UpOverBare(x: string, n: string)
    requires n != "" && Unqueried(x) && Unqueried(n) && Untrimmed(n)
    ensures Unqueried(UpOver(x, n)) && Untrimmed(UpOver(x, n))
  {
    var u := UpOver(x, n);
    assert forall k :: 0 <= k < |x| ==> u[3 + k] == x[k];
    assert forall k :: 0 <= k < |n| ==> u[4 + |x| + k] == n[k];
    assert u[|u| - 1] == u[4 + |x| + (|n| - 1)];
  }

  lemma UpOverBasename(x: string, n: string)
    requires IsName(Posix, x) && IsName(Posix, n)
    ensures Basename(Posix, UpOver(x, n)) == n
  {
    UpOverSplit(x, n);
  }

  /** The stylesheet's directory is `/y` and the asset's is `/x`. */
  lemma UpOverDirs(cwd: seq<string>, x: string, y: string, css: string, n: string)
    requires Names(Posix, cwd) && IsName(Posix, x) && IsName(Posix, y) && IsName(Posix, css) && IsName(Posix, n)
    ensures CssDirAbs(Posix, cwd, Render(Posix, [y, css])) == [y]
    ensures AssetDirAbs(Posix, cwd, Render(Posix, [y, css]), UpOver(x, n)) == [x]
  {
    ResolveRender(Posix, cwd, [y, css]);
    UpOverSplit(x, n);
    assert NormFrom([y], ["..", x, n], false) == [x, n] by {
      NormAppend([y], [".."], [x, n], false);
      assert NormFrom([y], [".."], false) == [];
      NormNames(Posix, [], [x, n], false);
    }
  }

  /** As written, from the root-only common ancestor the asset directory
      `/x` is reached as from the working directory. */
  lemma UpOverRelative(cwd: seq<string>, x: string, y: string)
    requires cwd == [] || (|cwd| == 1 && cwd[0] != x)
    requires Names(Posix, cwd) && IsName(Posix, x) && IsName(Posix, y) && x != y
    ensures Relative(Posix, cwd, CommonDir(AsWritten, Posix, Render(Posix, [x]), Render(Posix, [y])), Render(Posix, [x]))
         == if cwd == [] then x else ".." + "/" + x
  {
    CommonDirResolve(AsWritten, Posix, cwd, [x], [y]);
    ResolveRender(Posix, cwd, [x]);
    if cwd == [] {
      assert RelSegs([], [x]) == [x];
    } else {
      assert CommonPrefix(cwd, [x]) == [];
      assert RelSegs(cwd, [x]) == ["..", x];
    }
  }

  /** `path.join(b, '../x')` is `x`. */
  lemma JoinUpOver(b: string, x: string)
    requires IsName(Posix, b) && IsName(Posix, x)
    ensures JoinPaths(Posix, b, ".." + "/" + x) == x
  {
    var rel := ".." + "/" + x;
    var p := b + ['/'] + rel;
    SplitNoSep(b, {'/'});
    SplitNoSep(x, {'/'});
    SplitNoSep("..", {'/'});
    assert rel == ".." + ['/'] + x;
    SplitAppend("..", '/', x, {'/'});
    SplitAppend(b, '/', rel, {'/'});
    assert Split(p, {'/'}) == [b, "..", x];
    assert NormFrom([], [b, "..", x], true) == [x] by {
      NormAppend([], [b, ".."], [x], true);
      NormAppend([], [b], [".."], true);
      assert NormFrom([], [b], true) == [b];
      NormNames(Posix, [], [x], true);
    }
    assert p[0] == b[0] && p[|p| - 1] == x[|x| - 1];
  }

  /** The new directory as written: `b/x` from the root, `x` from `/w`. */
  lemma UpOverPath(cwd: seq<string>, b: string, x: string, y: string, css: string, n: string)
    requires cwd == [] || (|cwd| == 1 && cwd[0] != x)
    requires Names(Posix, cwd) && IsName(Posix, b) && IsName(Posix, x) && IsName(Posix, y)
    requires IsName(Posix, css) && IsName(Posix, n) && x != y
    ensures NewAssetPath(AsWritten, Posix, cwd, Render(Posix, [y, css]), UpOver(x, n), b)
         == if cwd == [] then b + "/" + x else x
  {
    var rel := if cwd == [] then x else ".." + "/" + x;
    assert NewAssetPath(AsWritten, Posix, cwd, Render(Posix, [y, css]), UpOver(x, n), b) == JoinPaths(Posix, b, rel) by {
      UpOverDirs(cwd, x, y, css, n);
      UpOverRelative(cwd, x, y);
    }
    if cwd == [] {
      SplitNoSep(b, {'/'});
      SplitNoSep(x, {'/'});
      JoinPathsNames(Posix, b, x);
      assert Join([b, x], '/') == b + "/" + x;
    } else {
      JoinUpOver(b, x);
    }
  }

  /** `path.join('b/x', n)` is `b/x/n` and `path.join(x, n)` is `x/n`. */
  lemma JoinTwoNames(b: string, x: string, n: string)
    requires IsName(Posix, b) && IsName(Posix, x) && IsName(Posix, n)
    ensures JoinPaths(Posix, b + "/" + x, n) == b + "/" + x + "/" + n
    ensures JoinPaths(Posix, x, n) == x + "/" + n
  {
    SplitNoSep(n, {'/'});
    SplitNoSep(x, {'/'});
    SplitNoSep(b, {'/'});
    JoinPathsNames(Posix, x, n);
    JoinThree(b, x, n, '/');
    var bx := b + "/" + x;
    PlainJoin(Posix, [b, x]);
    JoinPathsNames(Posix, bx, n);
    assert [b, x] + [n] == [b, x, n];
  }

  /** Two and three pieces joined by a separator. */
  lemma JoinThree(b: string, x: string, n: string, sep: char)
    ensures Join([x, n], sep) == x + [sep] + n
    ensures Join([b, x], sep) == b + [sep] + x
    ensures Join([b, x, n], sep) == b + [sep] + x + [sep] + n
  {
    assert [x, n][1..] == [n];
    assert [b, x][1..] == [x];
    assert [b, x, n][1..] == [x, n];
  }

  lemma UpOverRelocate(cwd: seq<string>, b: string, x: string, y: string, css: string, n: string, cssRel: string)
    requires cwd == [] || (|cwd| == 1 && cwd[0] != x)
    requires Names(Posix, cwd) && IsName(Posix, b) && IsName(Posix, x) && IsName(Posix, y)
    requires IsName(Posix, css) && IsName(Posix, n) && x != y
    ensures Relocate(AsWritten, Posix, cwd, Render(Posix, [y, css]), cssRel, UpOver(x, n), UpOver(x, n), Options(b, None)).1
         == if cwd == [] then b + "/" + x + "/" + n else x + "/" + n
  {
    UpOverBasename(x, n);
    UpOverPath(cwd, b, x, y, css, n);
    JoinTwoNames(b, x, n);
  }

  /** The copy's path as written, for both working directories. */
  lemma UpOverFile(cwd: seq<string>, b: string, x: string, y: string, css: string, n: string, cssRel: string)
    requires cwd == [] || (|cwd| == 1 && cwd[0] != x)
    requires Names(Posix, cwd) && IsName(Posix, b) && IsName(Posix, x) && IsName(Posix, y)
    requires IsName(Posix, css) && IsName(Posix, n) && x != y
    requires Unqueried(x) && Unqueried(n) && Untrimmed(n)
    ensures GenerateDirs(AsWritten, Posix, cwd, Render(Posix, [y, css]), cssRel, UpOver(x, n), Options(b, None)).Success?
    ensures GenerateDirs(AsWritten, Posix, cwd, Render(Posix, [y, css]), cssRel, UpOver(x, n), Options(b, None)).value.newAssetFile
         == if cwd == [] then b + "/" + x + "/" + n else x + "/" + n
  {
    UpOverRelocate(cwd, b, x, y, css, n, cssRel);
    UpOverParses(x, n);
  }
}
