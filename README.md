# gulp-css-useref, modelled in Dafny

gulp-css-useref is a gulp plugin. For every buffered CSS file in the pipeline it:
- finds each `url(...)` reference;
- works out where a copy of the referenced asset should go, below `options.base`;
- reads the asset and pushes the copy downstream as a new file;
- rewrites the reference so that, read from the CSS file's pipeline-relative directory, it leads to the copy.

References that start with `/`, `data:` or `#`, references that start with a lowercase scheme followed by `://`, and references outside `options.match` are left alone.

The project has one module per part of the program:

- `Results` (`results.dfy`): `Option` and `Result`.
- `Text` (`text.dfy`): the JavaScript string built-ins the code relies on: `split` (generalised to a set of separators), `join`, character `replace`, plus common prefixes.
- `NodePath` (`node_path.dfy`): the parts of Node's `path` module the relocation uses, for the POSIX and the win32 flavour (`resolve`, `dirname`, `basename`, `join`/`normalize`, `relative`). A resolved path is the list of names below the root. The process working directory is a parameter `cwd` wherever Node would consult it.
- `UrlParse` (`url_parse.dfy`): what `url.parse` does to a reference without a scheme: it strips white space from both ends, then splits what remains into pathname, query and fragment.
- `GenerateDirs` (`generate_dirs.dfy`): `generateDirs.js`.
  - `getCommonBaseDir` is a `method` with its loop and `break`.
  - `generateDirs` is a function returning the new URL, the asset path and the new asset file.
  - Two defects of the code are modelled side by side through `Revision`. `AsWritten` follows the code; `Corrected` fixes the defects and is what the plugin uses (see Findings).
- `CssUseRef` (`index.dfy`): `index.js`.
  - The options normalisation mutates the caller's options object, so it lives in a class.
  - The skip and `match` tests are predicates on the trimmed reference.
  - The scan of `/url\((.*?)\)/g` is a tokenizer with its proof of coverage.
  - The replacement callback is a function from the reference to a `Step`: kept, unreadable with a warning, replaced with an asset copy, or thrown.
  - `String.prototype.replace` is a method with a loop (`ScanUrls`).
  - The plugin is a class `Plugin` whose `pushed` and `log` sequences grow as files and assets are pushed and warnings logged.
  - Files are objects (`CssFile`) whose contents the transform overwrites.
- `TestVectors` (`test_vectors.dfy`): cases of the plugin's test suite, derived from one general statement about `generateDirs`.

`index.js` as it stands cannot run: it has syntax errors, undefined names and the wrong `through2` signature. The model follows what the code evidently means. Each point is listed under "Left out".

## Model

| member | source | states |
|---|---|---|
| GenerateDirs.CommonBaseDir | generateDirs.js:17-28 | the loop collects exactly the longest run of whole leading pieces both paths share, joined by the separator |
| GenerateDirs.CommonBaseDirLongest | generateDirs.js:10-28 | for absolute paths the pieces of the result are a prefix of both paths' pieces, and the next pieces differ (longest common prefix) |
| GenerateDirs.CommonBaseDirSymmetric | generateDirs.js:17-28 | the common base dir does not depend on the order of the two paths |
| GenerateDirs.CommonBaseDirSelf | generateDirs.js:17-28 | the common base dir of a path with itself is the path |
| GenerateDirs.CommonBaseDirExample | generateDirs.js:11 | `/a/b/c` and `/a/bc/d` share `/a`: pieces are compared whole, not character by character |
| GenerateDirs.CommonBaseDirRender | generateDirs.js:17-28 | for two resolved paths the result is their rendered longest common prefix, except "" when only the root is shared |
| GenerateDirs.CommonDirResolve | generateDirs.js:55-57 | the common ancestor resolves to the longest common prefix; as written, a root-only prefix resolves to the working directory instead |
| GenerateDirs.GenerateDirs | generateDirs.js:31-88 | fails exactly when the reference, with the white space `url.parse` strips from its ends removed, has no pathname (empty, or starting with `?` or `#`, where `.replace` on null throws); otherwise `assetPath` is that stripped reference before its query and fragment with `/` turned into the separator, and the new URL keeps the query and fragment |
| GenerateDirs.ParsedPathname | generateDirs.js:43-45 | `url.parse(u).pathname` is null exactly when `u` stripped of white space at its ends is empty or starts with `?` or `#`; otherwise the converted path and the query and fragment rebuild the stripped `u` |
| GenerateDirs.NewUrlRoundTrip | generateDirs.js:73-80 | the new URL is relative, ends with the query and fragment of the stripped reference, and, resolved from the directory of the CSS file's pipeline path, reaches the file the asset is written to, with or without a `pathTransform`; for win32 it holds no backslash |
| GenerateDirs.UrlPathResolves | generateDirs.js:78-80 | `path.relative(from, to)` with `/` separators plus `/basename` leads from `from` to the basename inside `to`, and is never root-absolute |
| GenerateDirs.UrlPathSlashes | generateDirs.js:79 | after the separator replacement the URL path of a win32 path holds only `/` |
| GenerateDirs.PathTransformOverrides | generateDirs.js:66-70 | with a `pathTransform` the asset goes where it says, and it receives the file the plugin would have chosen itself, the CSS paths and the reference |
| GenerateDirs.NewAssetFileLayout | generateDirs.js:54-61 | without a transform the copy's path is `base`'s pieces, then the asset directory below the directory it shares with the CSS file, then the basename |
| GenerateDirs.NewAssetFileInBase | generateDirs.js:59-61 | with a non-empty `base` the copy's path starts with `base` |
| GenerateDirs.NewAssetFileEmptyBase | generateDirs.js:59-61 | with an empty `base` the copy's path is the asset directory below the common ancestor, then the basename |
| GenerateDirs.AsWrittenAgrees | generateDirs.js:17-80 | when the asset and CSS directories share more than the root, the code as written puts the asset where the corrected code does; the URL differs at most by a leading `/` before a bare basename |
| GenerateDirs.SameDirUrl | generateDirs.js:79 | an asset next to a top-level stylesheet gets the URL `/n` as written and `n` corrected; in both, `assetPath` and `newAssetFile` are `n` |
| GenerateDirs.RootUrlAsWritten | generateDirs.js:79 | as written, that `/n` names the root's `n`, while `newAssetFile` resolves from the working directory to `n` below it |
| GenerateDirs.RootUrlCorrected | generateDirs.js:79 | corrected, the URL `n` leads from the stylesheet's directory to the copy |
| GenerateDirs.EscapesBaseAsWritten | generateDirs.js:17-59 | as written, with directories sharing only the root, the copy lands at `x/n` (outside `base`) for working directory `/w`, and at `b/x/n` for the root |
| GenerateDirs.EscapesBaseCorrected | generateDirs.js:55-61 | corrected, the same copy lands at `b/x/n` whatever the working directory |
| TestVectors.Vector | test/test.js:19-129 | with the root as working directory, for a stylesheet `dir/css`, a reference `(../)^k dirs/n` followed by a query `q`, and a base of names `b`, whenever the copy's directory is not the stylesheet's: both revisions succeed; the asset path is the reference's pieces joined by the separator; the copy goes to `b`, then the asset's directory below the one it shares with the stylesheet, then `n`; the URL is the relative path from `dir` to the copy's directory in `/`, then `/n` and `q` |
| TestVectors.TwoLevelsUpPosix | test/test.js:20-27 | with `path.posix`, `css/page/home.css`, `../../images/foo.png?a=123` and base `assets` give `url("../../assets/images/foo.png?a=123")`, `../../images/foo.png` and `assets/images/foo.png` |
| TestVectors.TwoLevelsUpWin32 | test/test.js:20-27 | the same case with `path.win32` and backslashes in the paths; the URL is the same |
| TestVectors.TwoDeepOneUpPosix | test/test.js:30-37 | with `path.posix`, `test/fixtures/01.css`, `../fonts/font1.woff?a=123` and base `fonts` give `url("../../fonts/fonts/font1.woff?a=123")`, `../fonts/font1.woff` and `fonts/fonts/font1.woff` |
| TestVectors.TwoDeepOneUpWin32 | test/test.js:30-37 | the same case with `path.win32` and backslashes in the paths; the URL is the same |
| TestVectors.OneDeepOneUpPosix | test/test.js:40-47 | with `path.posix`, `fixtures/01.css`, `../fonts/font1.woff?a=123` and base `fonts` give `url("../fonts/fonts/font1.woff?a=123")`, `../fonts/font1.woff` and `fonts/fonts/font1.woff` |
| TestVectors.OneDeepOneUpWin32 | test/test.js:40-47 | the same case with `path.win32` and backslashes in the paths; the URL is the same |
| TestVectors.OneDeepNoneUpPosix | test/test.js:50-57 | with `path.posix`, `fixtures/01.css`, `fonts/font1.woff?a=123` and base `fonts` give `url("../fonts/fonts/font1.woff?a=123")`, `fonts/font1.woff` and `fonts/fonts/font1.woff` |
| TestVectors.OneDeepNoneUpWin32 | test/test.js:50-57 | the same case with `path.win32` and backslashes in the paths; the URL is the same |
| TestVectors.TopLevelPosix | test/test.js:60-67 | with `path.posix`, `01.css`, `fonts/font1.woff?a=123` and base `fonts` give `url("fonts/fonts/font1.woff?a=123")`, `fonts/font1.woff` and `fonts/fonts/font1.woff` |
| TestVectors.TopLevelWin32 | test/test.js:60-67 | the same case with `path.win32` and backslashes in the paths; the URL is the same |
| TestVectors.MultilevelBasePosix | test/test.js:70-77 | with `path.posix`, `fixtures/01.css`, `fonts/font1.woff?a=123` and base `fonts/foo` give `url("../fonts/foo/fonts/font1.woff?a=123")`, `fonts/font1.woff` and `fonts/foo/fonts/font1.woff` |
| TestVectors.MultilevelBaseWin32 | test/test.js:70-77 | the same case with `path.win32`, base `fonts\foo`; the URL is the same |
| TestVectors.MultilevelBaseUpPosix | test/test.js:80-87 | with `path.posix`, `../fonts/font1.woff?a=123` from `fixtures/01.css` with base `fonts/foo` gives the same URL, `../fonts/font1.woff` and `fonts/foo/fonts/font1.woff` |
| TestVectors.BlankBasePosix | test/test.js:90-97 | with `path.posix` and an empty base, `fixtures/01.css` and `fonts/font1.woff?a=123` give `url("../fonts/font1.woff?a=123")`, `fonts/font1.woff` and `fonts/font1.woff` |
| NodePath.ResolveRender | generateDirs.js:39 | a rendered resolved path is absolute and resolves to itself |
| NodePath.DirnameBasename | generateDirs.js:68-69 | `path.resolve(dirname(s))` followed by `basename(s)` is `path.resolve(s)` |
| NodePath.RelativeRoundTrip | generateDirs.js:57 | walking from `from` along `path.relative(from, to)` arrives at `to` |
| NodePath.JoinPathsResolve | generateDirs.js:59-61 | resolving `path.join(a, b)` resolves `a`, then walks `b` |
| NodePath.ResolveNormalize | generateDirs.js:59-61 | `path.normalize` never changes where a path resolves |
| NodePath.JoinPathsNames | generateDirs.js:59-61 | `path.join` of plain paths is their names joined by the separator |
| NodePath.JoinDotName | generateDirs.js:61 | `path.join('.', name)` is the name |
| NodePath.PlainJoin | generateDirs.js:59-61 | names joined by the separator split back into the same names |
| UrlParse.ParseUrl | generateDirs.js:43 | white space (code points below `!`, U+00A0, U+FEFF) is stripped from both ends; pathname, query and fragment then recompose the stripped reference; the pathname is non-empty and holds no `?` or `#`, the query is empty or starts with `?` and holds no `#`, the fragment is empty or starts with `#` |
| UrlParse.ParseUrlUnique | generateDirs.js:43 | any decomposition of the stripped reference with those properties is the one `ParseUrl` returns |
| UrlParse.SplitUrlUnique | generateDirs.js:43 | the same for the split of a reference that has already been stripped |
| UrlParse.TrimUrlPadded | generateDirs.js:43 | stripping a reference that has white space around it, but none at its own ends, gives back exactly that reference |
| UrlParse.TrimUrlKeeps | generateDirs.js:43 | a reference with no white space at its ends is split as it stands |
| UrlParse.BlankReference | generateDirs.js:43-45 | a reference of a single space has no pathname, so `.replace` throws |
| UrlParse.BlankQueryReference | generateDirs.js:43-45 | ` ?a` has no pathname and the query `?a` |
| UrlParse.PaddedReference | generateDirs.js:43-45 | ` x.png` has the pathname `x.png`: the leading space is not part of it |
| UrlParse.IndexOf | generateDirs.js:43 | the index is the first occurrence, or the length when there is none |
| Text.SplitJoin | generateDirs.js:19-27 | joining pieces free of the separator and splitting again gives the pieces back |
| Text.JoinSplit | generateDirs.js:19-27 | splitting on a character and joining with it gives the string back |
| Text.SplitReplace | generateDirs.js:45 | turning `/` into the separator does not change how the path splits on both |
| CssUseRef.EffectiveBase | index.js:11 | the base is "" exactly when it was missing or empty, and otherwise the given one |
| CssUseRef.Plugin.constructor | index.js:9-11 | takes the caller's options object (or a fresh empty one) and normalises its `base` in place, leaving `match` and `pathTransform` as given; nothing pushed or logged |
| CssUseRef.TrimStart | index.js:43 | the result is a suffix not starting with white space, and what was removed is all white space |
| CssUseRef.TrimEnd | index.js:43 | the result is a prefix not ending with white space, and what was removed is all white space |
| CssUseRef.TrimUrlValueQuoted | index.js:42-43 | a quoted reference with white space around it gives back exactly what the quotes enclose |
| CssUseRef.TrimUrlValueBare | index.js:42-43 | an unquoted reference with white space around it is kept as it is |
| CssUseRef.HasSchemeIff | index.js:49 | `/^[a-z]+:\/\//` holds exactly when some non-empty run of lowercase letters at the start is followed by `://` |
| CssUseRef.StepOf | index.js:35-88 | skipped and unmatched references are kept whatever the transform and file system hold; the callback throws exactly for a kept-through reference that, stripped of white space at its ends, is empty or starts with `?` or `#` |
| CssUseRef.Fetch | index.js:56-87 | the callback after the tests throws exactly when the reference has no pathname (stripped of white space at its ends, it is empty or starts with `?` or `#`), and never returns the match unchanged without a warning |
| CssUseRef.ReplacedReachesAsset | index.js:56-87 | a replaced reference keeps its query and fragment (what follows the asset path in the stripped reference); the copy is written to `join(cssBaseDirAbs, newAssetFile)`; the new path is relative and leads from the CSS file's relative directory to where `newAssetFile` resolves from the working directory |
| CssUseRef.CssBaseDirAbs | index.js:63 | the base directory is a prefix of `file.path`, and what follows it is as long as `file.relative` |
| CssUseRef.CloseFrom | index.js:34 | the lazy `.*?\)` ends at the first `)` with no line terminator before it, and there is none when such a `)` is missing |
| CssUseRef.MatchAt | index.js:34 | a match starts at `i` exactly when `url(` is there and a closing `)` follows on the same line |
| CssUseRef.Tokenize | index.js:34 | the pieces of the global scan lie inside the text, and there are none only at the end |
| CssUseRef.TokenizeScans | index.js:34 | the pieces tile the text left to right; a match is taken wherever one starts, and a single character is passed over where none does |
| CssUseRef.TokenizeCovers | index.js:34 | the pieces spell out the text from where the scan started: nothing dropped or invented |
| CssUseRef.Out | index.js:35-88 | one piece yields at most one asset or one warning, and its own text unless an asset is pushed or the callback throws |
| CssUseRef.ApplyKeepsText | index.js:34-89 | a rewrite that pushes nothing and does not throw returns the pieces' text; assets and warnings are at most one per piece |
| CssUseRef.ApplyThen | index.js:34-89 | rewriting two stretches is rewriting the first then the second, unless the first throws, which ends the rewrite |
| CssUseRef.RewriteKeepsText | index.js:34-89 | a CSS text in which no asset is pushed and nothing throws comes out exactly as it went in |
| CssUseRef.SkippedKeepsText | index.js:45-54 | a skipped or unmatched reference stays as it stands with nothing pushed or logged |
| CssUseRef.UnreadableKeepsText | index.js:70-76 | an unreadable reference stays as it stands with its one warning logged and nothing pushed |
| CssUseRef.ReadPushesOneAsset | index.js:78-87 | a readable reference is replaced by the new URL and exactly one asset is pushed for it |
| CssUseRef.UnreadableWarns | index.js:61-76 | a reference that passes the skip and `match` tests, for which `generateDirs` gives `d`, but whose asset cannot be read stays exactly as it stands; the log gains exactly the warning naming `resolve(dirname(file.path), d.assetPath)` and `file.path`; nothing is pushed |
| CssUseRef.ReadCopies | index.js:61-87 | such a reference whose asset is read is replaced by `d.newUrl`, and exactly one copy is pushed: with the CSS file's `cwd` and `base`, at `join(cssBaseDirAbs, d.newAssetFile)`, carrying the bytes read from `resolve(dirname(file.path), d.assetPath)`; nothing is logged |
| CssUseRef.ScanUrls | index.js:34-89 | the loop computes the rewrite of the whole text: new text, assets and warnings in order, and the first error |
| CssUseRef.Plugin.ReplaceUrls | index.js:34-89 | the assets reach the stream and the warnings the log in scan order; the rewritten text, or the error, is returned |
| CssUseRef.Plugin.ProcessUrlDecls | index.js:32-90 | a buffered file's contents become the rewrite; an error leaves them unchanged, with the pushes and warnings before it kept |
| CssUseRef.Plugin.Transform | index.js:13-28 | a null file passes through; a streamed one fails with "Streaming not supported"; a buffered one is rewritten and pushed after its assets, or fails with the callback's error |

## Left out

- The file system, `gutil.log` and the stream are not modelled as I/O. The read is a function `read` from a path to optional bytes. The log and the stream are sequences on `Plugin`.
- `micromatch` is left out: `options.match` is an arbitrary predicate on the trimmed reference.
- `options.pathTransform` is an arbitrary function of four arguments. The fifth, the options object (generateDirs.js:67), is not passed.
- Win32 drive letters, UNC paths and case-insensitive comparison are left out. Win32 paths are rooted at a single separator.
- `UrlParse.ParseUrl`: `url.parse` is modelled only for what `generateDirs` reads (pathname, search, hash), for a reference without a scheme or host. The skip at index.js:46-49 removes only references that start with `/`, `data:` or `#` and those matching `^[a-z]+:\/\/`. Others with a scheme (`Http://h/x`, `mailto:a@b`, `c:\x.png`) do reach `url.parse`, which strips their protocol and host. The model instead takes everything before the first `?` or `#` as the pathname.
- `UrlParse.ParseUrl`: legacy `url.parse` also percent-escapes spaces, quotes and `{}|^<>` in the path, and turns `\` into `/` before the query. The model keeps every character as written. For `my image.png` the model reads and copies `my image.png`, while the code looks for `my%20image.png` and warns when that file is missing. For POSIX a `\` in a reference stays part of a name in the model.
- Working directory: the process working directory is an explicit parameter `cwd`. The test vectors for local paths (test/test.js:177-206) depend on the machine's working directory and are not restated.
- Test vectors: the suite calls `generateDirs(cssRel, url, options)`, an older three-argument signature. The model's cases (`TestVectors`) take the stylesheet's absolute path to be that path below the root, with the root as working directory. The eight cases of test/test.js:20-97 are spelled out, in fourteen lemmas for POSIX, win32 or both. The three `bower_components` cases (test/test.js:100-128) fall under `TestVectors.Vector` as well, but are not spelled out: equalities between their literals of 60 to 80 characters and the pieces they are made of do not verify within the resource limit.
- Text decoding: file contents are text, and the asset bytes are passed through unchanged.
- Duplicate assets: nothing in the code suppresses them, so a reference that occurs twice pushes two copies. The expectation in test/test.js:603-621 that duplicates are not returned is not part of the model.
- Errors: an invalid reference (empty once white space is stripped from its ends, or starting with `?` or `#` then) makes `url.parse(u).pathname.replace` throw inside the callback.
  - The model ends the file's rewrite with that error: the file's contents stay as they were, the file is not pushed, and the assets pushed and warnings logged before it stay.
  - How gulp then reports the uncaught exception is not modelled.
- `index.js` defects, modelled by their evident intent:
  - the missing `)` at index.js:53 and the missing `,` at index.js:79;
  - `path` is never required;
  - `trimUrlValue` is not defined anywhere. It is modelled as `String.prototype.trim` followed by removing one pair of matching `"` or `'` quotes;
  - `cssFilePathAbs` and `cssFilePathRel` are undefined at index.js:63. They are taken to be `file.path` and `file.relative`. JavaScript `substr` with a negative length gives "", which `CssBaseDirAbs` keeps;
  - `generateDirs` is called with three arguments at index.js:56. The model calls it with `file.path`, `file.relative`, the reference and the options;
  - `through2` calls the transform with `(file, encoding, callback)`, so the code's `cb` is really the encoding. The model treats `cb` as the callback.
- `ScanUrls` builds the pushes and log lines as values during the scan, and `ReplaceUrls` appends them to the plugin's stream afterwards. The final stream and log equal those the source produces by pushing inside the callback. No other code runs in between.
- GenerateDirs.NewAssetFileLayout / NewAssetFileInBase: stated only for a `base` made of plain names joined by the separator, and a reference whose basename is a name. Bases with a trailing separator (`assets/`), a `.` or `..` piece (`./assets`, `../out`) or a leading separator (`/out`) are not covered, nor a reference ending in `.` or `..`. `GenerateDirs.GenerateDirs` itself covers every base.
- `GenerateDirs.CommonBaseDir` is stated for a single separator character (`path.sep`), as the code splits. Win32 paths produced by `path.resolve` use only that separator.

## Findings

| source | as written | input that shows it | evidently intended | confidence | as-written member | corrected member |
|---|---|---|---|---|---|---|
| generateDirs.js:79 | the URL is always `relative + '/' + basename`, so an empty relative directory yields `/basename`, a root-absolute URL | working directory `/w`, stylesheet `/p/s.css` with pipeline path `s.css`, reference `x.png`: the URL becomes `/x.png`, which names `/x.png`, while index.js:63-64 writes the copy to `/p/x.png` (and `newAssetFile` `x.png` resolves from the working directory to `/w/x.png`) | a bare `basename` when the relative directory is empty, so the URL leads to the copy | not executed | GenerateDirs.RootUrlAsWritten | GenerateDirs.RootUrlCorrected |
| generateDirs.js:27 | `getCommonBaseDir` joins the shared pieces `[""]` of two paths that share only the root into "", and `path.relative("", dir)` measures from the working directory | `base` `b`, stylesheet `/y/s.css`, reference `../x/n`, working directory `/w`: the copy goes to `x/n`, outside `b`; with working directory `/` it goes to `b/x/n` | the root itself as the common ancestor, so the copy always lands below `base` | not executed | GenerateDirs.EscapesBaseAsWritten | GenerateDirs.EscapesBaseCorrected |
