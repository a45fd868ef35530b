/** The plugin's per-file transform (`index.js`): the gate on a file's
    contents, and the scan of a buffered CSS file that rewrites each
    `url(...)` reference and pushes a copy of the referenced asset. The
    file system read is a parameter (`read`), the pushed files and logged
    warnings are sequences the plugin accumulates. */
module CssUseRef {
  import opened Results
  import opened Text
  import opened NodePath
  import opened UrlParse
  import opened G = GenerateDirs

  newtype byte = x: int | 0 <= x < 256

  /** `micromatch.isMatch(reference, options.match)` for the configured pattern. */
  type Glob = string -> bool

  /** What a pipeline file carries: nothing, a stream, or a buffer, seen as text. */
  datatype Contents = Null | Streamed | Buffer(text: string)

  /** The location fields of a pipeline file. */
  datatype FileInfo = FileInfo(cwd: string, base: string, path: string, relative: string)

  /** An asset copy pushed downstream (a `gutil.File`). */
  datatype AssetFile = AssetFile(cwd: string, base: string, path: string, contents: seq<byte>)

  /** What the scan consults: the path flavour, the working directory, the
      normalised options and the file system read. */
  datatype Env = Env(st: Style, cwd: seq<string>, base: string, matchPattern: Option<Glob>,
                     pathTransform: Option<PathTransform>, read: string -> Option<seq<byte>>)
  {
    predicate Valid() {
      Names(st, cwd)
    }
  }

  // ---------------------------------------------------------------------
  // Options

  /** `options.base || ''`: a missing, null or empty base all become `''`. */
  function EffectiveBase(base: Option<string>): (r: string)
    ensures r == "" <==> (base.None? || base.value == "")
    ensures r != "" ==> base == Some(r)
  {
    base.GetOr("")
  }

  // ---------------------------------------------------------------------
  // trimUrlValue

  /** The characters `String.prototype.trim` removes: white space and line terminators. */
  predicate IsSpace(c: char) {
    c == ' ' || c == '\t' || c == '\n' || c == '\U{000B}' || c == '\U{000C}' || c == '\r'
    || c == '\U{00A0}' || c == '\U{1680}' || ('\U{2000}' <= c <= '\U{200A}')
    || c == '\U{2028}' || c == '\U{2029}' || c == '\U{202F}' || c == '\U{205F}'
    || c == '\U{3000}' || c == '\U{FEFF}'
  }

  predicate AllSpace(s: string) {
    forall k :: 0 <= k < |s| ==> IsSpace(s[k])
  }

  /** `s` without its leading white space. */
  function TrimStart(s: string): (r: string)
    ensures |r| <= |s| && r == s[|s| - |r|..]
    ensures r == "" || !IsSpace(r[0])
    ensures AllSpace(s[..|s| - |r|])
    decreases |s|
  {
    if |s| > 0 && IsSpace(s[0]) then TrimStart(s[1..]) else s
  }

  /** `s` without its trailing white space. */
  function TrimEnd(s: string): (r: string)
    ensures |r| <= |s| && r == s[..|r|]
    ensures r == "" || !IsSpace(r[|r| - 1])
    ensures AllSpace(s[|r|..])
    decreases |s|
  {
    if |s| > 0 && IsSpace(s[|s| - 1]) then TrimEnd(s[..|s| - 1]) else s
  }

  predicate IsQuote(c: char) {
    c == '"' || c == '\''
  }

  /** `t` without one pair of matching surrounding quotes. */
  function Unquote(t: string): string {
    if |t| >= 2 && IsQuote(t[0]) && t[|t| - 1] == t[0] then t[1..|t| - 1] else t
  }

  /** `trimUrlValue`: the reference inside `url(...)` without surrounding
      white space and one pair of matching quotes. */
  function TrimUrlValue(v: string): string {
    Unquote(TrimEnd(TrimStart(v)))
  }

  /** Leading white space does not change what `TrimStart` keeps. */
  lemma {:induction false} TrimStartSpaces(pre: string, x: string)
    requires AllSpace(pre) && x != "" && !IsSpace(x[0])
    ensures TrimStart(pre + x) == x
    decreases |pre|
  {
    if pre != "" {
      assert (pre + x)[1..] == pre[1..] + x;
      TrimStartSpaces(pre[1..], x);
    }
  }

  /** Trailing white space does not change what `TrimEnd` keeps. */
  lemma {:induction false} TrimEndSpaces(x: string, post: string)
    requires AllSpace(post) && x != "" && !IsSpace(x[|x| - 1])
    ensures TrimEnd(x + post) == x
    decreases |post|
  {
    if post != "" {
      assert (x + post)[..|x + post| - 1] == x + post[..|post| - 1];
      TrimEndSpaces(x, post[..|post| - 1]);
    }
  }

  /** A quoted reference, with white space around it, gives back exactly what
      the quotes enclose. */
  lemma TrimUrlValueQuoted(pre: string, q: char, x: string, post: string)
    requires AllSpace(pre) && AllSpace(post) && IsQuote(q)
    ensures TrimUrlValue(pre + [q] + x + [q] + post) == x
  {
    var core := [q] + x + [q];
    var v := pre + [q] + x + [q] + post;
    assert v == pre + (core + post);
    assert !IsSpace(core[0]) && !IsSpace(core[|core| - 1]);
    TrimStartSpaces(pre, core + post);
    assert TrimStart(v) == core + post;
    TrimEndSpaces(core, post);
    assert TrimEnd(TrimStart(v)) == core;
    assert core[1..|core| - 1] == x;
  }

  /** An unquoted reference, with white space around it, is kept as it is. */
  lemma TrimUrlValueBare(pre: string, x: string, post: string)
    requires AllSpace(pre) && AllSpace(post)
    requires x != "" && !IsSpace(x[0]) && !IsSpace(x[|x| - 1]) && !IsQuote(x[0])
    ensures TrimUrlValue(pre + x + post) == x
  {
    assert pre + x + post == pre + (x + post);
    TrimStartSpaces(pre, x + post);
    TrimEndSpaces(x, post);
  }

  // ---------------------------------------------------------------------
  // The references that are not rewritten

  predicate IsLower(c: char) {
    'a' <= c <= 'z'
  }

  /** The number of lowercase letters `s` starts with. */
  function LowerRun(s: string): (n: nat)
    ensures n <= |s|
    ensures forall k :: 0 <= k < n ==> IsLower(s[k])
    ensures n < |s| ==> !IsLower(s[n])
    decreases |s|
  {
    if |s| > 0 && IsLower(s[0]) then 1 + LowerRun(s[1..]) else 0
  }

  /** `/^[a-z]+:\/\//.test(u)`: the lowercase letters `u` starts with are
      followed by `://`. */
  predicate HasScheme(u: string) {
    var n := LowerRun(u);
    0 < n && StartsWith(u[n..], "://")
  }

  /** `u` starts with `n > 0` lowercase letters followed by `://`. */
  predicate SchemeEndsAt(u: string, n: nat) {
    0 < n && n + 3 <= |u| && u[n..n + 3] == "://" && forall k :: 0 <= k < n ==> IsLower(u[k])
  }

  /** `HasScheme` is the regular expression's meaning: some non-empty run of
      lowercase letters at the start is followed by `://`. */
  lemma HasSchemeIff(u: string)
    ensures HasScheme(u) <==> exists n :: SchemeEndsAt(u, n)
  {
    var m := LowerRun(u);
    if HasScheme(u) {
      assert u[m..][..3] == u[m..m + 3];
      assert SchemeEndsAt(u, m);
    }
    if n: nat :| SchemeEndsAt(u, n) {
      assert u[n] == u[n..n + 3][0] == ':';
      assert m == n;
      assert u[m..][..3] == u[m..m + 3];
    }
  }

  /** The references returned as they are: those starting with `/`, `data:`
      or `#`, and those starting with a lowercase scheme followed by `://`. */
  predicate IsSkipped(u: string) {
    StartsWith(u, "/") || StartsWith(u, "data:") || StartsWith(u, "#") || HasScheme(u)
  }

  /** `options.match && !micromatch.isMatch(u, options.match)`. */
  predicate IsFilteredOut(matchPattern: Option<Glob>, u: string) {
    matchPattern.Some? && !matchPattern.value(u)
  }

  // ---------------------------------------------------------------------
  // One occurrence

  /** What the replacement callback does with one occurrence. */
  datatype Step =
    | Kept
    | Unreadable(warning: string)
    | Replaced(newUrl: string, asset: AssetFile)
    | Threw(error: Error)

  /** `generateDirs(file.path, file.relative, u, options)`. */
  function DirsOf(env: Env, f: FileInfo, u: string): Result<Dirs, Error>
    requires env.Valid()
  {
    G.GenerateDirs(Corrected, env.st, env.cwd, f.path, f.relative, u, Options(env.base, env.pathTransform))
  }

  /** `path.resolve(path.dirname(file.path), assetPath)`: where the asset is read from. */
  function AssetSource(env: Env, f: FileInfo, assetPath: string): string
    requires env.Valid()
  {
    Render(env.st, ResolveFrom(env.st, ResolveDirname(env.st, env.cwd, f.path), assetPath))
  }

  /** `file.path` without its trailing `file.relative`: the directory the
      relative paths count from. */
  function CssBaseDirAbs(f: FileInfo): (r: string)
    ensures r <= f.path
    ensures |f.relative| <= |f.path| ==> r + f.path[|r|..] == f.path && |f.path[|r|..]| == |f.relative|
  {
    f.path[..if |f.relative| <= |f.path| then |f.path| - |f.relative| else 0]
  }

  /** The warning logged for an asset that cannot be read. */
  function ReadWarning(source: string, cssPath: string): string {
    "gulp-css-useref: Can't read asset file \"" + source + "\" referenced in \"" + cssPath + "\". Ignoring."
  }

  /** The callback for a reference `u` that passed the skip and match tests:
      generate the new locations, read the asset, build the replacement. It
      throws exactly when `u`, stripped of white space at its ends, is empty
      or starts with `?` or `#`. */
  function Fetch(env: Env, f: FileInfo, u: string): (r: Step)
    requires env.Valid()
    ensures var t := TrimUrl(u); r.Threw? <==> (|t| == 0 || t[0] == '?' || t[0] == '#')
    ensures !r.Kept?
  {
    match DirsOf(env, f, u)
    case Failure(e) => Threw(e)
    case Success(d) =>
      var source := AssetSource(env, f, d.assetPath);
      match env.read(source)
      case None => Unreadable(ReadWarning(source, f.path))
      case Some(bytes) =>
        Replaced(d.newUrl, AssetFile(f.cwd, f.base, JoinPaths(env.st, CssBaseDirAbs(f), d.newAssetFile), bytes))
  }

  /** The replacement callback for the occurrence whose parenthesised text is
      `raw`: skipped and unmatched references are kept whatever the options'
      transform and the file system hold; a reference without a path throws. */
  function StepOf(env: Env, f: FileInfo, raw: string): (r: Step)
    requires env.Valid()
    ensures var u := TrimUrlValue(raw);
            var t := TrimUrl(u);
            (IsSkipped(u) || IsFilteredOut(env.matchPattern, u) ==> r == Kept)
            && (r.Threw? <==> !IsSkipped(u) && !IsFilteredOut(env.matchPattern, u)
                              && (|t| == 0 || t[0] == '?' || t[0] == '#'))
  {
    var u := TrimUrlValue(raw);
    if IsSkipped(u) || IsFilteredOut(env.matchPattern, u) then Kept else Fetch(env, f, u)
  }

  /** A rewritten reference keeps its query and fragment; the copy is
      written to `join(cssBaseDirAbs, newAssetFile)`; and the new path, read
      from the CSS file's relative directory, leads to where `newAssetFile`
      resolves from the working directory. */
  lemma ReplacedReachesAsset(env: Env, f: FileInfo, u: string)
    requires env.Valid() && Fetch(env, f, u).Replaced?
    ensures var d := DirsOf(env, f, u).value;
            var r := Fetch(env, f, u);
            r.asset.path == JoinPaths(env.st, CssBaseDirAbs(f), d.newAssetFile)
            && exists p :: r.newUrl == UrlOf(p, TrimUrl(u)[|d.assetPath|..])
                           && !IsAbsolute(env.st, p)
                           && ResolveFrom(env.st, ResolveDirname(env.st, env.cwd, f.relative), p)
                              == ResolveFrom(env.st, env.cwd, d.newAssetFile)
  {
    NewUrlRoundTrip(env.st, env.cwd, f.path, f.relative, u, Options(env.base, env.pathTransform));
  }

  // ---------------------------------------------------------------------
  // The scan: `/url\((.*?)\)/g`

  predicate IsLineTerminator(c: char) {
    c == '\n' || c == '\r' || c == '\U{2028}' || c == '\U{2029}'
  }

  /** `.*?\)` matched from `j` ends at `c`: the first `)`, with no line
      terminator before it. */
  predicate IsClose(s: string, j: nat, c: nat) {
    j <= c < |s| && s[c] == ')'
    && forall k :: j <= k < c ==> s[k] != ')' && !IsLineTerminator(s[k])
  }

  /** The `)` that ends the lazy match from `j`, if there is one. */
  function CloseFrom(s: string, j: nat): (r: Option<nat>)
    requires j <= |s|
    ensures r.Some? ==> IsClose(s, j, r.value)
    ensures r.None? ==> forall c :: !IsClose(s, j, c)
    decreases |s| - j
  {
    if j == |s| then None
    else if s[j] == ')' then Some(j)
    else if IsLineTerminator(s[j]) then None
    else
      var r := CloseFrom(s, j + 1);
      assert forall c :: IsClose(s, j, c) ==> IsClose(s, j + 1, c);
      r
  }

  /** `url\((.*?)\)` matches at `i` and ends at `c`. */
  predicate IsMatch(s: string, i: nat, c: nat) {
    i + 4 <= |s| && s[i..i + 4] == "url(" && IsClose(s, i + 4, c)
  }

  /** Where the match starting at `i` ends, if one starts there. */
  function MatchAt(s: string, i: nat): (r: Option<nat>)
    requires i <= |s|
    ensures r.Some? ==> IsMatch(s, i, r.value)
    ensures r.None? ==> forall c :: !IsMatch(s, i, c)
  {
    if i + 4 <= |s| && s[i..i + 4] == "url(" then CloseFrom(s, i + 4) else None
  }

  /** A piece of the scanned text: one character outside any match, or a
      match from `at` to the `)` at `close`. */
  datatype Token = Lit(at: nat) | Ref(at: nat, close: nat)

  function End(t: Token): nat {
    match t
    case Lit(at) => at + 1
    case Ref(_, close) => close + 1
  }

  /** Each piece lies inside `s`, and a match holds at least `url(`. */
  predicate Placed(s: string, ts: seq<Token>) {
    forall k :: 0 <= k < |ts| ==> ts[k].at < End(ts[k]) <= |s| && (ts[k].Ref? ==> ts[k].at + 4 <= ts[k].close)
  }

  /** The non-overlapping matches of `/url\((.*?)\)/g` from `i`, left to
      right, with the characters between them. */
  function Tokenize(s: string, i: nat): (ts: seq<Token>)
    requires i <= |s|
    ensures Placed(s, ts)
    ensures |ts| == 0 <==> i == |s|
    ensures |ts| > 0 ==> ts[0].at == i
    decreases |s| - i
  {
    if i == |s| then []
    else
      match MatchAt(s, i)
      case None => [Lit(i)] + Tokenize(s, i + 1)
      case Some(c) => [Ref(i, c)] + Tokenize(s, c + 1)
  }

  /** The first piece of a scan from `i` is the match starting at `i`, or the
      character there, and the scan goes on after it. */
  lemma TokenizeHead(s: string, i: nat)
    requires i < |s|
    ensures var ts := Tokenize(s, i);
            ts[0] == (if MatchAt(s, i).None? then Lit(i) else Ref(i, MatchAt(s, i).value))
            && ts[1..] == Tokenize(s, End(ts[0]))
  {
    var m := MatchAt(s, i);
    if m.None? {
      SeqRest(Lit(i), Tokenize(s, i + 1));
    } else {
      SeqRest(Ref(i, m.value), Tokenize(s, m.value + 1));
    }
  }

  lemma SeqRest<T>(x: T, rest: seq<T>)
    ensures ([x] + rest)[0] == x && ([x] + rest)[1..] == rest
  {
  }

  /** The pieces of a scan follow each other without gap up to the end of
      `s`, and each is what the regular expression finds at its place: a
      match where one starts, a single character where none does. */
  lemma {:induction false} TokenizeScans(s: string, i: nat)
    requires i <= |s|
    ensures var ts := Tokenize(s, i);
            (|ts| > 0 ==> End(ts[|ts| - 1]) == |s|)
            && (forall k :: 0 <= k < |ts| - 1 ==> End(ts[k]) == ts[k + 1].at)
            && (forall k :: 0 <= k < |ts| ==> ts[k].Lit? ==> MatchAt(s, ts[k].at).None?)
            && (forall k :: 0 <= k < |ts| ==> ts[k].Ref? ==> MatchAt(s, ts[k].at) == Some(ts[k].close))
    decreases |s| - i
  {
    var ts := Tokenize(s, i);
    if i < |s| {
      TokenizeHead(s, i);
      var next := End(ts[0]);
      TokenizeScans(s, next);
      forall k | 0 <= k < |ts| - 1
        ensures End(ts[k]) == ts[k + 1].at
      {
        if k > 0 { assert ts[k] == ts[1..][k - 1] && ts[k + 1] == ts[1..][k]; }
      }
      forall k | 0 <= k < |ts|
        ensures ts[k].Lit? ==> MatchAt(s, ts[k].at).None?
        ensures ts[k].Ref? ==> MatchAt(s, ts[k].at) == Some(ts[k].close)
      {
        if k > 0 { assert ts[k] == ts[1..][k - 1]; }
      }
    }
  }

  /** The text of the pieces `ts`, as they stand in `s`. */
  function Concat(s: string, ts: seq<Token>): string
    requires Placed(s, ts)
  {
    if |ts| == 0 then "" else s[ts[0].at..End(ts[0])] + Concat(s, ts[1..])
  }

  lemma SliceSplit(s: string, i: nat, j: nat)
    requires i <= j <= |s|
    ensures s[i..] == s[i..j] + s[j..]
  {
  }

  lemma ConcatFirst(s: string, ts: seq<Token>)
    requires Placed(s, ts) && |ts| > 0
    ensures Concat(s, ts) == s[ts[0].at..End(ts[0])] + Concat(s, ts[1..])
  {
  }

  /** The pieces of a scan from `i` spell out `s` from `i` on: the scan drops
      and invents nothing. */
  lemma {:induction false} TokenizeCovers(s: string, i: nat)
    requires i <= |s|
    ensures Concat(s, Tokenize(s, i)) == s[i..]
    decreases |s| - i
  {
    if i < |s| {
      var ts := Tokenize(s, i);
      TokenizeHead(s, i);
      var next := End(ts[0]);
      var rest := Tokenize(s, next);
      TokenizeCovers(s, next);
      ConcatFirst(s, ts);
      SliceSplit(s, i, next);
    }
  }

  // ---------------------------------------------------------------------
  // The rewrite

  /** The rewritten text, the assets pushed and the warnings logged, in order;
      `threw` is the error that ended the scan early, if any. */
  datatype Scan = Scan(text: string, assets: seq<AssetFile>, warnings: seq<string>, threw: Option<Error>)

  /** `a` followed by `b`. */
  function Then(a: Scan, b: Scan): Scan {
    Scan(a.text + b.text, a.assets + b.assets, a.warnings + b.warnings, b.threw)
  }

  /** What one piece turns into under the callback `cb`: a character is
      copied, a match becomes what the callback returns for its
      parenthesised text. */
  function Out(cb: string -> Step, s: string, t: Token): (r: Scan)
    requires t.at < End(t) <= |s| && (t.Ref? ==> t.at + 4 <= t.close)
    ensures r.threw.None? && r.assets == [] ==> r.text == s[t.at..End(t)]
    ensures |r.assets| + |r.warnings| <= 1
  {
    match t
    case Lit(at) => Scan([s[at]], [], [], None)
    case Ref(at, close) =>
      match cb(s[at + 4..close])
      case Kept => Scan(s[at..close + 1], [], [], None)
      case Unreadable(w) => Scan(s[at..close + 1], [], [w], None)
      case Replaced(newUrl, asset) => Scan(newUrl, [asset], [], None)
      case Threw(e) => Scan("", [], [], Some(e))
  }

  /** `String.prototype.replace` with the callback `cb` over the pieces `ts`;
      an error stops the scan, keeping what was pushed and logged before it. */
  function Apply(cb: string -> Step, s: string, ts: seq<Token>): (r: Scan)
    requires Placed(s, ts)
    decreases |ts|
  {
    if |ts| == 0 then Scan("", [], [], None)
    else
      var o := Out(cb, s, ts[0]);
      if o.threw.Some? then o else Then(o, Apply(cb, s, ts[1..]))
  }

  /** A rewrite that pushes no asset and does not throw returns the text it
      was given, and each piece adds at most one asset or one warning. */
  lemma {:induction false} ApplyKeepsText(cb: string -> Step, s: string, ts: seq<Token>)
    requires Placed(s, ts)
    ensures var r := Apply(cb, s, ts);
            (r.threw.None? && r.assets == [] ==> r.text == Concat(s, ts))
            && |r.assets| + |r.warnings| <= |ts|
    decreases |ts|
  {
    if |ts| > 0 {
      ApplyKeepsText(cb, s, ts[1..]);
    }
  }

  /** Rewriting is piecewise: the rewrite of two stretches of pieces is the
      rewrite of the first followed by that of the second, unless the first
      stops early. In particular text between matches comes out as it is. */
  lemma {:induction false} ApplyThen(cb: string -> Step, s: string, ts1: seq<Token>, ts2: seq<Token>)
    requires Placed(s, ts1) && Placed(s, ts2)
    ensures Placed(s, ts1 + ts2)
    ensures Apply(cb, s, ts1).threw.None? ==>
              Apply(cb, s, ts1 + ts2) == Then(Apply(cb, s, ts1), Apply(cb, s, ts2))
    ensures Apply(cb, s, ts1).threw.Some? ==>
              Apply(cb, s, ts1 + ts2) == Apply(cb, s, ts1)
    decreases |ts1|
  {
    assert Placed(s, ts1 + ts2) by {
      forall k | 0 <= k < |ts1 + ts2|
        ensures (ts1 + ts2)[k].at < End((ts1 + ts2)[k]) <= |s|
        ensures (ts1 + ts2)[k].Ref? ==> (ts1 + ts2)[k].at + 4 <= (ts1 + ts2)[k].close
      {
        if k < |ts1| { assert (ts1 + ts2)[k] == ts1[k]; } else { assert (ts1 + ts2)[k] == ts2[k - |ts1|]; }
      }
    }
    if |ts1| == 0 {
      assert ts1 + ts2 == ts2;
      var b := Apply(cb, s, ts2);
      assert Then(Scan("", [], [], None), b) == b by {
        assert "" + b.text == b.text && [] + b.assets == b.assets && [] + b.warnings == b.warnings;
      }
    } else {
      assert (ts1 + ts2)[0] == ts1[0];
      assert (ts1 + ts2)[1..] == ts1[1..] + ts2;
      ApplyThen(cb, s, ts1[1..], ts2);
      var o := Out(cb, s, ts1[0]);
      if o.threw.None? {
        ThenAssoc(o, Apply(cb, s, ts1[1..]), Apply(cb, s, ts2));
      }
    }
  }

  lemma ThenAssoc(a: Scan, b: Scan, c: Scan)
    ensures Then(Then(a, b), c) == Then(a, Then(b, c))
  {
    assert (a.text + b.text) + c.text == a.text + (b.text + c.text);
    assert (a.assets + b.assets) + c.assets == a.assets + (b.assets + c.assets);
    assert (a.warnings + b.warnings) + c.warnings == a.warnings + (b.warnings + c.warnings);
  }

  /** The callback `processUrlDecls` hands to `replace`. */
  function Callback(env: Env, f: FileInfo): string -> Step
    requires env.Valid()
  {
    raw => StepOf(env, f, raw)
  }

  /** The whole rewrite of a CSS text. */
  function Rewrite(env: Env, f: FileInfo, s: string): Scan
    requires env.Valid()
  {
    Apply(Callback(env, f), s, Tokenize(s, 0))
  }

  /** A CSS text in which no asset is pushed and nothing throws comes out
      exactly as it went in. */
  lemma RewriteKeepsText(env: Env, f: FileInfo, s: string)
    requires env.Valid()
    ensures var r := Rewrite(env, f, s);
            r.threw.None? && r.assets == [] ==> r.text == s
  {
    TokenizeCovers(s, 0);
    ApplyKeepsText(Callback(env, f), s, Tokenize(s, 0));
  }

  /** A match the callback does not throw on contributes its replacement,
      then the rewrite goes on after it. */
  lemma ApplyRef(cb: string -> Step, s: string, ts: seq<Token>)
    requires Placed(s, ts) && |ts| > 0 && ts[0].Ref? && !cb(s[ts[0].at + 4..ts[0].close]).Threw?
    ensures Apply(cb, s, ts) == Then(Out(cb, s, ts[0]), Apply(cb, s, ts[1..]))
  {
  }

  /** A reference that is skipped or does not match `options.match` stays as
      it stands, with nothing pushed or logged for it. */
  lemma SkippedKeepsText(env: Env, f: FileInfo, s: string, ts: seq<Token>)
    requires env.Valid() && Placed(s, ts) && |ts| > 0 && ts[0].Ref?
    requires var u := TrimUrlValue(s[ts[0].at + 4..ts[0].close]);
             IsSkipped(u) || IsFilteredOut(env.matchPattern, u)
    ensures var cb := Callback(env, f);
            Apply(cb, s, ts) == Then(Scan(s[ts[0].at..End(ts[0])], [], [], None), Apply(cb, s, ts[1..]))
  {
    var cb := Callback(env, f);
    assert cb(s[ts[0].at + 4..ts[0].close]) == Kept;
    ApplyRef(cb, s, ts);
  }

  /** An occurrence the callback answers with a warning stays as it stands,
      with that one warning logged and nothing pushed for it. */
  lemma UnreadableKeepsText(cb: string -> Step, s: string, ts: seq<Token>)
    requires Placed(s, ts) && |ts| > 0 && ts[0].Ref?
    requires cb(s[ts[0].at + 4..ts[0].close]).Unreadable?
    ensures var w := cb(s[ts[0].at + 4..ts[0].close]).warning;
            Apply(cb, s, ts) == Then(Scan(s[ts[0].at..End(ts[0])], [], [w], None), Apply(cb, s, ts[1..]))
  {
    ApplyRef(cb, s, ts);
  }

  /** An occurrence the callback answers with a replacement is replaced by
      the new URL, and exactly one asset is pushed for it. */
  lemma ReadPushesOneAsset(cb: string -> Step, s: string, ts: seq<Token>)
    requires Placed(s, ts) && |ts| > 0 && ts[0].Ref?
    requires cb(s[ts[0].at + 4..ts[0].close]).Replaced?
    ensures var step := cb(s[ts[0].at + 4..ts[0].close]);
            Apply(cb, s, ts) == Then(Scan(step.newUrl, [step.asset], [], None), Apply(cb, s, ts[1..]))
  {
    ApplyRef(cb, s, ts);
  }

  /** The callback's answer for a reference whose asset cannot be read. */
  lemma StepUnreadable(env: Env, f: FileInfo, raw: string, d: Dirs)
    requires env.Valid()
    requires var u := TrimUrlValue(raw);
             !IsSkipped(u) && !IsFilteredOut(env.matchPattern, u) && DirsOf(env, f, u) == Success(d)
    requires env.read(AssetSource(env, f, d.assetPath)).None?
    ensures Callback(env, f)(raw) == Unreadable(ReadWarning(AssetSource(env, f, d.assetPath), f.path))
  {
  }

  /** The callback's answer for a reference whose asset is read. */
  lemma StepRead(env: Env, f: FileInfo, raw: string, d: Dirs)
    requires env.Valid()
    requires var u := TrimUrlValue(raw);
             !IsSkipped(u) && !IsFilteredOut(env.matchPattern, u) && DirsOf(env, f, u) == Success(d)
    requires env.read(AssetSource(env, f, d.assetPath)).Some?
    ensures var bytes := env.read(AssetSource(env, f, d.assetPath)).value;
            Callback(env, f)(raw)
            == Replaced(d.newUrl, AssetFile(f.cwd, f.base, JoinPaths(env.st, CssBaseDirAbs(f), d.newAssetFile), bytes))
  {
  }

  /** What the pieces after the first turn into. */
  function ApplyRest(cb: string -> Step, s: string, ts: seq<Token>): Scan
    requires Placed(s, ts) && |ts| > 0
  {
    Apply(cb, s, ts[1..])
  }

  /** A reference that passes the tests, with the new locations `d`, but
      whose asset cannot be read stays as it stands; the log gains exactly
      the warning naming the asset's source and the CSS file, and nothing is
      pushed for it. */
  lemma UnreadableWarns(env: Env, f: FileInfo, s: string, ts: seq<Token>, d: Dirs)
    requires env.Valid() && Placed(s, ts) && |ts| > 0 && ts[0].Ref?
    requires var u := TrimUrlValue(s[ts[0].at + 4..ts[0].close]);
             !IsSkipped(u) && !IsFilteredOut(env.matchPattern, u) && DirsOf(env, f, u) == Success(d)
    requires env.read(AssetSource(env, f, d.assetPath)).None?
    ensures var w := ReadWarning(AssetSource(env, f, d.assetPath), f.path);
            var cb := Callback(env, f);
            Apply(cb, s, ts) == Then(Scan(s[ts[0].at..End(ts[0])], [], [w], None), ApplyRest(cb, s, ts))
  {
    StepUnreadable(env, f, s[ts[0].at + 4..ts[0].close], d);
    UnreadableKeepsText(Callback(env, f), s, ts);
  }

  /** A reference that passes the tests, with the new locations `d`, and
      whose asset is read is replaced by the new URL, and exactly one copy is
      pushed for it: in the CSS file's `cwd` and `base`, at
      `join(cssBaseDirAbs, newAssetFile)`, carrying the bytes read from where
      the reference points. */
  lemma ReadCopies(env: Env, f: FileInfo, s: string, ts: seq<Token>, d: Dirs)
    requires env.Valid() && Placed(s, ts) && |ts| > 0 && ts[0].Ref?
    requires var u := TrimUrlValue(s[ts[0].at + 4..ts[0].close]);
             !IsSkipped(u) && !IsFilteredOut(env.matchPattern, u) && DirsOf(env, f, u) == Success(d)
    requires env.read(AssetSource(env, f, d.assetPath)).Some?
    ensures var bytes := env.read(AssetSource(env, f, d.assetPath)).value;
            var copy := AssetFile(f.cwd, f.base, JoinPaths(env.st, CssBaseDirAbs(f), d.newAssetFile), bytes);
            var cb := Callback(env, f);
            Apply(cb, s, ts) == Then(Scan(d.newUrl, [copy], [], None), ApplyRest(cb, s, ts))
  {
    StepRead(env, f, s[ts[0].at + 4..ts[0].close], d);
    ReadPushesOneAsset(Callback(env, f), s, ts);
  }

  /** After the pieces before `i`, whose output is `acc`, what is left of the
      pass from `i` completes it to `whole`. */
  predicate Pending(cb: string -> Step, s: string, i: nat, acc: Scan, whole: Scan) {
    i <= |s| && Then(acc, Apply(cb, s, Tokenize(s, i))) == whole
  }

  /** One step of the left-to-right pass: the piece at `i` is the match
      starting there or else the single character, and its output, added to
      what came before, leaves the rest of the pass to start after it. */
  lemma ScanAdvance(cb: string -> Step, s: string, i: nat, acc: Scan, whole: Scan)
    requires i < |s| && Pending(cb, s, i, acc, whole)
    ensures var t := if MatchAt(s, i).None? then Lit(i) else Ref(i, MatchAt(s, i).value);
            t == Tokenize(s, i)[0]
            && t.at < End(t) <= |s| && (t.Ref? ==> t.at + 4 <= t.close)
            && (Out(cb, s, t).threw.None? ==> Pending(cb, s, End(t), Then(acc, Out(cb, s, t)), whole))
            && (Out(cb, s, t).threw.Some? ==> Then(acc, Out(cb, s, t)) == whole)
  {
    var ts := Tokenize(s, i);
    TokenizeHead(s, i);
    var o := Out(cb, s, ts[0]);
    if o.threw.None? {
      ThenAssoc(acc, o, Apply(cb, s, ts[1..]));
    }
  }

  /** A pass starts with nothing done... */
  lemma PendingStart(cb: string -> Step, s: string)
    ensures Pending(cb, s, 0, Scan("", [], [], None), Apply(cb, s, Tokenize(s, 0)))
  {
    var whole := Apply(cb, s, Tokenize(s, 0));
    assert "" + whole.text == whole.text && [] + whole.assets == whole.assets && [] + whole.warnings == whole.warnings;
  }

  /** ...and, at the end of the text, what is done is all of it. */
  lemma PendingDone(cb: string -> Step, s: string, acc: Scan, whole: Scan)
    requires Pending(cb, s, |s|, acc, whole) && acc.threw.None?
    ensures acc == whole
  {
    assert Tokenize(s, |s|) == [];
    assert acc.text + "" == acc.text && acc.assets + [] == acc.assets && acc.warnings + [] == acc.warnings;
  }

  /** The left-to-right pass of `String.prototype.replace` with a global
      pattern: each match is handed to `cb` in turn, and the first error
      ends the pass. */
  method ScanUrls(cb: string -> Step, s: string) returns (r: Scan)
    ensures r == Apply(cb, s, Tokenize(s, 0))
  {
    ghost var whole := Apply(cb, s, Tokenize(s, 0));
    r := Scan("", [], [], None);
    PendingStart(cb, s);
    var i := 0;
    while i < |s|
      invariant r.threw.None? && Pending(cb, s, i, r, whole)
      decreases |s| - i
    {
      var m := MatchAt(s, i);
      var t := if m.None? then Lit(i) else Ref(i, m.value);
      ScanAdvance(cb, s, i, r, whole);
      var o := Out(cb, s, t);
      r := Then(r, o);
      if o.threw.Some? {
        return;
      }
      i := End(t);
    }
    PendingDone(cb, s, r, whole);
  }

  // ---------------------------------------------------------------------
  // Files, options and the plugin

  /** A file in the pipeline; the transform overwrites its contents. */
  class CssFile {
    const info: FileInfo
    var contents: Contents

    constructor(info: FileInfo, contents: Contents)
      ensures this.info == info && this.contents == contents
    {
      this.info := info;
      this.contents := contents;
    }
  }

  /** What goes downstream: a CSS file (by reference) or an asset copy. */
  datatype Emitted = CssOut(css: CssFile) | AssetOut(asset: AssetFile)

  /** The asset copies as stream entries, in order. */
  function AssetsOut(assets: seq<AssetFile>): (r: seq<Emitted>)
    ensures |r| == |assets|
    ensures forall k :: 0 <= k < |r| ==> r[k] == AssetOut(assets[k])
  {
    seq(|assets|, k requires 0 <= k < |assets| => AssetOut(assets[k]))
  }

  lemma AssetsOutAppend(a: seq<AssetFile>, b: seq<AssetFile>)
    ensures AssetsOut(a + b) == AssetsOut(a) + AssetsOut(b)
  {
    assert forall k :: 0 <= k < |a + b| ==> AssetsOut(a + b)[k] == (AssetsOut(a) + AssetsOut(b))[k];
  }

  /** The options object the caller hands over. */
  class UserOptions {
    var base: Option<string>
    var matchPattern: Option<Glob>
    var pathTransform: Option<PathTransform>

    constructor(base: Option<string>, matchPattern: Option<Glob>, pathTransform: Option<PathTransform>)
      ensures this.base == base && this.matchPattern == matchPattern && this.pathTransform == pathTransform
    {
      this.base := base;
      this.matchPattern := matchPattern;
      this.pathTransform := pathTransform;
    }
  }

  /** Why a file was not passed on. */
  datatype TransformError = PluginError(plugin: string, message: string) | Uncaught(error: Error)

  /** The object stream the plugin returns, with what it has pushed and what
      it has logged. */
  class Plugin {
    const st: Style
    const cwd: seq<string>
    const read: string -> Option<seq<byte>>
    const options: UserOptions
    var pushed: seq<Emitted>
    var log: seq<string>

    /** The scan's view of the plugin's settings. */
    function Settings(): Env
      reads this, options
    {
      Env(st, cwd, options.base.GetOr(""), options.matchPattern, options.pathTransform, read)
    }

    /** `module.exports(options)`: takes the options object, or a fresh empty
        one, and normalises its `base` in place. */
    constructor(st: Style, cwd: seq<string>, read: string -> Option<seq<byte>>, given: UserOptions?)
      modifies given
      ensures this.st == st && this.cwd == cwd && this.read == read
      ensures given != null ==> options == given
      ensures given == null ==> fresh(options) && options.matchPattern.None? && options.pathTransform.None?
      ensures given != null ==> options.matchPattern == old(given.matchPattern) && options.pathTransform == old(given.pathTransform)
      ensures options.base == Some(EffectiveBase(if given == null then None else old(given.base)))
      ensures pushed == [] && log == []
    {
      this.st := st;
      this.cwd := cwd;
      this.read := read;
      var o: UserOptions;
      if given == null {
        o := new UserOptions(None, None, None);
      } else {
        o := given;
      }
      o.base := Some(EffectiveBase(o.base));
      options := o;
      pushed := [];
      log := [];
    }

    /** `contents.replace(/url\((.*?)\)/g, cb)`: the callback's pushes and
        log lines reach this stream in the order the scan meets them; an
        error from the callback ends the pass with the pushes before it. */
    method ReplaceUrls(cb: string -> Step, s: string) returns (r: Result<string, Error>)
      modifies this
      ensures var sc := Apply(cb, s, Tokenize(s, 0));
              pushed == old(pushed) + AssetsOut(sc.assets)
              && log == old(log) + sc.warnings
              && (sc.threw.None? ==> r == Success(sc.text))
              && (sc.threw.Some? ==> r == Failure(sc.threw.value))
    {
      var sc := ScanUrls(cb, s);
      pushed := pushed + AssetsOut(sc.assets);
      log := log + sc.warnings;
      r := if sc.threw.None? then Success(sc.text) else Failure(sc.threw.value);
    }

    /** `processUrlDecls`: rewrites each `url(...)` of a buffered file with
        the plugin's callback; an error leaves the contents as they were. */
    method ProcessUrlDecls(file: CssFile) returns (r: Result<(), Error>)
      requires Names(st, cwd) && file.contents.Buffer?
      modifies this, file
      ensures var sc := Rewrite(Settings(), file.info, old(file.contents).text);
              pushed == old(pushed) + AssetsOut(sc.assets)
              && log == old(log) + sc.warnings
              && (sc.threw.None? ==> r.Success? && file.contents == Buffer(sc.text))
              && (sc.threw.Some? ==> r == Failure(sc.threw.value) && file.contents == old(file.contents))
    {
      var replaced := ReplaceUrls(Callback(Settings(), file.info), file.contents.text);
      if replaced.Failure? {
        return Failure(replaced.error);
      }
      file.contents := Buffer(replaced.value);
      r := Success(());
    }

    /** The transform applied to each file: a file without contents passes
        through, a streamed one is refused, a buffered one is rewritten and
        then pushed after its assets. */
    method Transform(file: CssFile) returns (r: Result<(), TransformError>)
      requires Names(st, cwd)
      modifies this, file
      ensures old(file.contents).Null? ==>
                r.Success? && pushed == old(pushed) + [CssOut(file)] && log == old(log)
                && file.contents == old(file.contents)
      ensures old(file.contents).Streamed? ==>
                r == Failure(PluginError("gulp-css-useref", "Streaming not supported"))
                && pushed == old(pushed) && log == old(log) && file.contents == old(file.contents)
      ensures old(file.contents).Buffer? ==>
                var sc := Rewrite(Settings(), file.info, old(file.contents).text);
                log == old(log) + sc.warnings
                && (sc.threw.None? ==>
                      r.Success? && file.contents == Buffer(sc.text)
                      && pushed == old(pushed) + AssetsOut(sc.assets) + [CssOut(file)])
                && (sc.threw.Some? ==>
                      r == Failure(Uncaught(sc.threw.value)) && file.contents == old(file.contents)
                      && pushed == old(pushed) + AssetsOut(sc.assets))
    {
      if file.contents.Null? {
        pushed := pushed + [CssOut(file)];
        return Success(());
      }
      if file.contents.Streamed? {
        return Failure(PluginError("gulp-css-useref", "Streaming not supported"));
      }
      var done := ProcessUrlDecls(file);
      if done.Failure? {
        return Failure(Uncaught(done.error));
      }
      pushed := pushed + [CssOut(file)];
      r := Success(());
    }
  }
}
