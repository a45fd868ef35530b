/** Cases of the plugin's test suite (test/test.js:19-129), each stated for
    the flavour of `path` the suite runs it with (POSIX, win32 or both). The
    suite calls `generateDirs` with the CSS file's pipeline-relative path
    first; here the stylesheet's absolute path is that path below the root,
    and the working directory is the root. Each case holds for the code as
    written and for the corrected code. The general statement is `Vector`;
    each case instantiates it through `Case`. */
module TestVectors {
  import opened Results
  import opened Text
  import opened NodePath
  import opened UrlParse
  import GD = GenerateDirs

  /** test/test.js:20-27, with `path.posix`: a stylesheet two levels deep, a reference two levels up. */
  lemma TwoLevelsUpPosix(rev: GD.Revision)
    ensures GD.GenerateDirs(rev, Posix, [], "/css/page/home.css", "css/page/home.css",
                            "../../images/foo.png?a=123", GD.Options("assets", None))
         == Success(GD.Dirs(GD.UrlOf("../../assets/images/foo.png", "?a=123"), "../../images/foo.png",
                            "assets/images/foo.png"))
  {
    TwoLevelsUpPosixLayout();
    TwoLevelsUpPosixNames();
    TwoLevelsUpPosixStylesheet();
    TwoLevelsUpPosixReference();
    TwoLevelsUpPosixAssetPath();
    TwoLevelsUpPosixUrlPath();
    TwoLevelsUpPosixNewAssetFile();
    Case(rev, Posix, ["css", "page"], "home.css", 2, ["images"], "foo.png", "?a=123",
         ["assets"], ["assets", "images"], ["..", "..", "assets", "images"],
         "/css/page/home.css", "css/page/home.css", "../../images/foo.png?a=123", "assets",
         "../../assets/images/foo.png", "../../images/foo.png", "assets/images/foo.png");
  }

  // The strings of TwoLevelsUpPosix, each checked against the pieces it is made of;
  // a `Spelled` lemma states a fact's strings as concatenations, apart from `Join`.
  lemma TwoLevelsUpPosixLayout()
    ensures var dir, to := ["css", "page"], ["assets", "images"];
            to == ["assets"] + Below(dir[..|dir| - 2] + ["images"], dir) && ["..", "..", "assets", "images"] == RelSegs(dir, to)
  {
    var dir := ["css", "page"];
    assert dir[..0] + ["images"] == ["images"];
    assert Below(["images"], dir) == ["images"];
    assert ["assets"] + ["images"] == ["assets", "images"];
  }

  lemma TwoLevelsUpPosixNames()
    ensures Names(Posix, ["css", "page"]) && IsName(Posix, "home.css") && Names(Posix, ["assets"])
            && PlainNames(Posix, ["images"]) && PlainNames(Posix, ["foo.png"]) && IsQuery("?a=123")
  {
  }

  lemma TwoLevelsUpPosixStylesheet()
    ensures "/css/page/home.css" == Render(Posix, ["css", "page"] + ["home.css"])
            && "css/page/home.css" == Join(["css", "page"] + ["home.css"], '/')
  {
    assert ["css", "page"] + ["home.css"] == ["css", "page", "home.css"];
    JoinThree("css", "page", "home.css", '/');
    TwoLevelsUpPosixStylesheetSpelled();
  }

  lemma TwoLevelsUpPosixStylesheetSpelled()
    ensures "css/page/home.css" == "css" + ['/'] + "page" + ['/'] + "home.css"
    ensures "/css/page/home.css" == ['/'] + "css/page/home.css"
  {
  }

  lemma TwoLevelsUpPosixReference()
    ensures "../../images/foo.png?a=123" == Join(RefPieces(2, ["images"], "foo.png"), '/') + "?a=123"
  {
    assert RefPieces(2, ["images"], "foo.png") == ["..", "..", "images", "foo.png"];
    JoinFour("..", "..", "images", "foo.png", '/');
    TwoLevelsUpPosixReferenceSpelled();
  }

  lemma TwoLevelsUpPosixReferenceSpelled()
    ensures "../../images/foo.png" == ".." + ['/'] + ".." + ['/'] + "images" + ['/'] + "foo.png"
    ensures "../../images/foo.png?a=123" == "../../images/foo.png" + "?a=123"
  {
  }

  lemma TwoLevelsUpPosixAssetPath()
    ensures "../../images/foo.png" == Join(RefPieces(2, ["images"], "foo.png"), '/')
  {
    assert RefPieces(2, ["images"], "foo.png") == ["..", "..", "images", "foo.png"];
    JoinFour("..", "..", "images", "foo.png", '/');
    TwoLevelsUpPosixAssetPathSpelled();
  }

  lemma TwoLevelsUpPosixAssetPathSpelled()
    ensures "../../images/foo.png" == ".." + ['/'] + ".." + ['/'] + "images" + ['/'] + "foo.png"
  {
  }

  lemma TwoLevelsUpPosixUrlPath()
    ensures "../../assets/images/foo.png" == Join(["..", "..", "assets", "images"], '/') + "/" + "foo.png"
  {
    JoinFour("..", "..", "assets", "images", '/');
    TwoLevelsUpPosixUrlPathSpelled();
  }

  lemma TwoLevelsUpPosixUrlPathSpelled()
    ensures "../../assets/images" == ".." + ['/'] + ".." + ['/'] + "assets" + ['/'] + "images"
    ensures "../../assets/images/foo.png" == "../../assets/images" + "/" + "foo.png"
  {
  }

  lemma TwoLevelsUpPosixNewAssetFile()
    ensures "assets" == Join(["assets"], '/') && "assets/images/foo.png" == Join(["assets", "images"] + ["foo.png"], '/')
  {
    assert ["assets", "images"] + ["foo.png"] == ["assets", "images", "foo.png"];
    JoinThree("assets", "images", "foo.png", '/');
    TwoLevelsUpPosixNewAssetFileSpelled();
  }

  lemma TwoLevelsUpPosixNewAssetFileSpelled()
    ensures "assets/images/foo.png" == "assets" + ['/'] + "images" + ['/'] + "foo.png"
  {
  }

  /** test/test.js:20-27, with `path.win32`: a stylesheet two levels deep, a reference two levels up. */
  lemma TwoLevelsUpWin32(rev: GD.Revision)
    ensures GD.GenerateDirs(rev, Win32, [], "\\css\\page\\home.css", "css\\page\\home.css",
                            "../../images/foo.png?a=123", GD.Options("assets", None))
         == Success(GD.Dirs(GD.UrlOf("../../assets/images/foo.png", "?a=123"), "..\\..\\images\\foo.png",
                            "assets\\images\\foo.png"))
  {
    TwoLevelsUpPosixLayout();
    TwoLevelsUpWin32Names();
    TwoLevelsUpWin32Stylesheet();
    TwoLevelsUpPosixReference();
    TwoLevelsUpWin32AssetPath();
    TwoLevelsUpPosixUrlPath();
    TwoLevelsUpWin32NewAssetFile();
    Case(rev, Win32, ["css", "page"], "home.css", 2, ["images"], "foo.png", "?a=123",
         ["assets"], ["assets", "images"], ["..", "..", "assets", "images"],
         "\\css\\page\\home.css", "css\\page\\home.css", "../../images/foo.png?a=123", "assets",
         "../../assets/images/foo.png", "..\\..\\images\\foo.png", "assets\\images\\foo.png");
  }

  // The strings of TwoLevelsUpWin32, each checked against the pieces it is made of;
  // a `Spelled` lemma states a fact's strings as concatenations, apart from `Join`.
  lemma TwoLevelsUpWin32Names()
    ensures Names(Win32, ["css", "page"]) && IsName(Win32, "home.css") && Names(Win32, ["assets"])
            && PlainNames(Win32, ["images"]) && PlainNames(Win32, ["foo.png"]) && IsQuery("?a=123")
  {
  }

  lemma TwoLevelsUpWin32Stylesheet()
    ensures "\\css\\page\\home.css" == Render(Win32, ["css", "page"] + ["home.css"])
            && "css\\page\\home.css" == Join(["css", "page"] + ["home.css"], '\\')
  {
    assert ["css", "page"] + ["home.css"] == ["css", "page", "home.css"];
    JoinThree("css", "page", "home.css", '\\');
    TwoLevelsUpWin32StylesheetSpelled();
  }

  lemma TwoLevelsUpWin32StylesheetSpelled()
    ensures "css\\page\\home.css" == "css" + ['\\'] + "page" + ['\\'] + "home.css"
    ensures "\\css\\page\\home.css" == ['\\'] + "css\\page\\home.css"
  {
  }

  lemma TwoLevelsUpWin32AssetPath()
    ensures "..\\..\\images\\foo.png" == Join(RefPieces(2, ["images"], "foo.png"), '\\')
  {
    assert RefPieces(2, ["images"], "foo.png") == ["..", "..", "images", "foo.png"];
    JoinFour("..", "..", "images", "foo.png", '\\');
    TwoLevelsUpWin32AssetPathSpelled();
  }

  lemma TwoLevelsUpWin32AssetPathSpelled()
    ensures "..\\..\\images\\foo.png" == ".." + ['\\'] + ".." + ['\\'] + "images" + ['\\'] + "foo.png"
  {
  }

  lemma TwoLevelsUpWin32NewAssetFile()
    ensures "assets" == Join(["assets"], '\\') && "assets\\images\\foo.png" == Join(["assets", "images"] + ["foo.png"], '\\')
  {
    assert ["assets", "images"] + ["foo.png"] == ["assets", "images", "foo.png"];
    JoinThree("assets", "images", "foo.png", '\\');
    TwoLevelsUpWin32NewAssetFileSpelled();
  }

  lemma TwoLevelsUpWin32NewAssetFileSpelled()
    ensures "assets\\images\\foo.png" == "assets" + ['\\'] + "images" + ['\\'] + "foo.png"
  {
  }

  /** test/test.js:30-37, with `path.posix`: a stylesheet two levels deep, a reference one level up. */
  lemma TwoDeepOneUpPosix(rev: GD.Revision)
    ensures GD.GenerateDirs(rev, Posix, [], "/test/fixtures/01.css", "test/fixtures/01.css",
                            "../fonts/font1.woff?a=123", GD.Options("fonts", None))
         == Success(GD.Dirs(GD.UrlOf("../../fonts/fonts/font1.woff", "?a=123"), "../fonts/font1.woff",
                            "fonts/fonts/font1.woff"))
  {
    TwoDeepOneUpPosixLayout();
    TwoDeepOneUpPosixNames();
    TwoDeepOneUpPosixStylesheet();
    TwoDeepOneUpPosixReference();
    TwoDeepOneUpPosixAssetPath();
    TwoDeepOneUpPosixUrlPath();
    TwoDeepOneUpPosixNewAssetFile();
    Case(rev, Posix, ["test", "fixtures"], "01.css", 1, ["fonts"], "font1.woff", "?a=123",
         ["fonts"], ["fonts", "fonts"], ["..", "..", "fonts", "fonts"],
         "/test/fixtures/01.css", "test/fixtures/01.css", "../fonts/font1.woff?a=123", "fonts",
         "../../fonts/fonts/font1.woff", "../fonts/font1.woff", "fonts/fonts/font1.woff");
  }

  // The strings of TwoDeepOneUpPosix, each checked against the pieces it is made of;
  // a `Spelled` lemma states a fact's strings as concatenations, apart from `Join`.
  lemma TwoDeepOneUpPosixLayout()
    ensures var dir, to := ["test", "fixtures"], ["fonts", "fonts"];
            to == ["fonts"] + Below(dir[..|dir| - 1] + ["fonts"], dir) && ["..", "..", "fonts", "fonts"] == RelSegs(dir, to)
  {
    var dir := ["test", "fixtures"];
    assert dir[..1] + ["fonts"] == ["test", "fonts"];
    assert Below(["test", "fonts"], dir) == ["fonts"];
    assert ["fonts"] + ["fonts"] == ["fonts", "fonts"];
  }

  lemma TwoDeepOneUpPosixNames()
    ensures Names(Posix, ["test", "fixtures"]) && IsName(Posix, "01.css") && Names(Posix, ["fonts"])
            && PlainNames(Posix, ["fonts"]) && PlainNames(Posix, ["font1.woff"]) && IsQuery("?a=123")
  {
  }

  lemma TwoDeepOneUpPosixStylesheet()
    ensures "/test/fixtures/01.css" == Render(Posix, ["test", "fixtures"] + ["01.css"])
            && "test/fixtures/01.css" == Join(["test", "fixtures"] + ["01.css"], '/')
  {
    assert ["test", "fixtures"] + ["01.css"] == ["test", "fixtures", "01.css"];
    JoinThree("test", "fixtures", "01.css", '/');
    TwoDeepOneUpPosixStylesheetSpelled();
  }

  lemma TwoDeepOneUpPosixStylesheetSpelled()
    ensures "test/fixtures/01.css" == "test" + ['/'] + "fixtures" + ['/'] + "01.css"
    ensures "/test/fixtures/01.css" == ['/'] + "test/fixtures/01.css"
  {
  }

  lemma TwoDeepOneUpPosixReference()
    ensures "../fonts/font1.woff?a=123" == Join(RefPieces(1, ["fonts"], "font1.woff"), '/') + "?a=123"
  {
    assert RefPieces(1, ["fonts"], "font1.woff") == ["..", "fonts", "font1.woff"];
    JoinThree("..", "fonts", "font1.woff", '/');
    TwoDeepOneUpPosixReferenceSpelled();
  }

  lemma TwoDeepOneUpPosixReferenceSpelled()
    ensures "../fonts/font1.woff" == ".." + ['/'] + "fonts" + ['/'] + "font1.woff"
    ensures "../fonts/font1.woff?a=123" == "../fonts/font1.woff" + "?a=123"
  {
  }

  lemma TwoDeepOneUpPosixAssetPath()
    ensures "../fonts/font1.woff" == Join(RefPieces(1, ["fonts"], "font1.woff"), '/')
  {
    assert RefPieces(1, ["fonts"], "font1.woff") == ["..", "fonts", "font1.woff"];
    JoinThree("..", "fonts", "font1.woff", '/');
    TwoDeepOneUpPosixAssetPathSpelled();
  }

  lemma TwoDeepOneUpPosixAssetPathSpelled()
    ensures "../fonts/font1.woff" == ".." + ['/'] + "fonts" + ['/'] + "font1.woff"
  {
  }

  lemma TwoDeepOneUpPosixUrlPath()
    ensures "../../fonts/fonts/font1.woff" == Join(["..", "..", "fonts", "fonts"], '/') + "/" + "font1.woff"
  {
    JoinFour("..", "..", "fonts", "fonts", '/');
    TwoDeepOneUpPosixUrlPathSpelled();
  }

  lemma TwoDeepOneUpPosixUrlPathSpelled()
    ensures "../../fonts/fonts" == ".." + ['/'] + ".." + ['/'] + "fonts" + ['/'] + "fonts"
    ensures "../../fonts/fonts/font1.woff" == "../../fonts/fonts" + "/" + "font1.woff"
  {
  }

  lemma TwoDeepOneUpPosixNewAssetFile()
    ensures "fonts" == Join(["fonts"], '/') && "fonts/fonts/font1.woff" == Join(["fonts", "fonts"] + ["font1.woff"], '/')
  {
    assert ["fonts", "fonts"] + ["font1.woff"] == ["fonts", "fonts", "font1.woff"];
    JoinThree("fonts", "fonts", "font1.woff", '/');
    TwoDeepOneUpPosixNewAssetFileSpelled();
  }

  lemma TwoDeepOneUpPosixNewAssetFileSpelled()
    ensures "fonts/fonts/font1.woff" == "fonts" + ['/'] + "fonts" + ['/'] + "font1.woff"
  {
  }

  /** test/test.js:30-37, with `path.win32`: a stylesheet two levels deep, a reference one level up. */
  lemma TwoDeepOneUpWin32(rev: GD.Revision)
    ensures GD.GenerateDirs(rev, Win32, [], "\\test\\fixtures\\01.css", "test\\fixtures\\01.css",
                            "../fonts/font1.woff?a=123", GD.Options("fonts", None))
         == Success(GD.Dirs(GD.UrlOf("../../fonts/fonts/font1.woff", "?a=123"), "..\\fonts\\font1.woff",
                            "fonts\\fonts\\font1.woff"))
  {
    TwoDeepOneUpPosixLayout();
    TwoDeepOneUpWin32Names();
    TwoDeepOneUpWin32Stylesheet();
    TwoDeepOneUpPosixReference();
    TwoDeepOneUpWin32AssetPath();
    TwoDeepOneUpPosixUrlPath();
    TwoDeepOneUpWin32NewAssetFile();
    Case(rev, Win32, ["test", "fixtures"], "01.css", 1, ["fonts"], "font1.woff", "?a=123",
         ["fonts"], ["fonts", "fonts"], ["..", "..", "fonts", "fonts"],
         "\\test\\fixtures\\01.css", "test\\fixtures\\01.css", "../fonts/font1.woff?a=123", "fonts",
         "../../fonts/fonts/font1.woff", "..\\fonts\\font1.woff", "fonts\\fonts\\font1.woff");
  }

  // The strings of TwoDeepOneUpWin32, each checked against the pieces it is made of;
  // a `Spelled` lemma states a fact's strings as concatenations, apart from `Join`.
  lemma TwoDeepOneUpWin32Names()
    ensures Names(Win32, ["test", "fixtures"]) && IsName(Win32, "01.css") && Names(Win32, ["fonts"])
            && PlainNames(Win32, ["fonts"]) && PlainNames(Win32, ["font1.woff"]) && IsQuery("?a=123")
  {
  }

  lemma TwoDeepOneUpWin32Stylesheet()
    ensures "\\test\\fixtures\\01.css" == Render(Win32, ["test", "fixtures"] + ["01.css"])
            && "test\\fixtures\\01.css" == Join(["test", "fixtures"] + ["01.css"], '\\')
  {
    assert ["test", "fixtures"] + ["01.css"] == ["test", "fixtures", "01.css"];
    JoinThree("test", "fixtures", "01.css", '\\');
    TwoDeepOneUpWin32StylesheetSpelled();
  }

  lemma TwoDeepOneUpWin32StylesheetSpelled()
    ensures "test\\fixtures\\01.css" == "test" + ['\\'] + "fixtures" + ['\\'] + "01.css"
    ensures "\\test\\fixtures\\01.css" == ['\\'] + "test\\fixtures\\01.css"
  {
  }

  lemma TwoDeepOneUpWin32AssetPath()
    ensures "..\\fonts\\font1.woff" == Join(RefPieces(1, ["fonts"], "font1.woff"), '\\')
  {
    assert RefPieces(1, ["fonts"], "font1.woff") == ["..", "fonts", "font1.woff"];
    JoinThree("..", "fonts", "font1.woff", '\\');
    TwoDeepOneUpWin32AssetPathSpelled();
  }

  lemma TwoDeepOneUpWin32AssetPathSpelled()
    ensures "..\\fonts\\font1.woff" == ".." + ['\\'] + "fonts" + ['\\'] + "font1.woff"
  {
  }

  lemma TwoDeepOneUpWin32NewAssetFile()
    ensures "fonts" == Join(["fonts"], '\\') && "fonts\\fonts\\font1.woff" == Join(["fonts", "fonts"] + ["font1.woff"], '\\')
  {
    assert ["fonts", "fonts"] + ["font1.woff"] == ["fonts", "fonts", "font1.woff"];
    JoinThree("fonts", "fonts", "font1.woff", '\\');
    TwoDeepOneUpWin32NewAssetFileSpelled();
  }

  lemma TwoDeepOneUpWin32NewAssetFileSpelled()
    ensures "fonts\\fonts\\font1.woff" == "fonts" + ['\\'] + "fonts" + ['\\'] + "font1.woff"
  {
  }

  /** test/test.js:40-47, with `path.posix`: a stylesheet one level deep, a reference one level up. */
  lemma OneDeepOneUpPosix(rev: GD.Revision)
    ensures GD.GenerateDirs(rev, Posix, [], "/fixtures/01.css", "fixtures/01.css",
                            "../fonts/font1.woff?a=123", GD.Options("fonts", None))
         == Success(GD.Dirs(GD.UrlOf("../fonts/fonts/font1.woff", "?a=123"), "../fonts/font1.woff",
                            "fonts/fonts/font1.woff"))
  {
    OneDeepOneUpPosixLayout();
    OneDeepOneUpPosixNames();
    OneDeepOneUpPosixStylesheet();
    TwoDeepOneUpPosixReference();
    TwoDeepOneUpPosixAssetPath();
    OneDeepOneUpPosixUrlPath();
    TwoDeepOneUpPosixNewAssetFile();
    Case(rev, Posix, ["fixtures"], "01.css", 1, ["fonts"], "font1.woff", "?a=123",
         ["fonts"], ["fonts", "fonts"], ["..", "fonts", "fonts"],
         "/fixtures/01.css", "fixtures/01.css", "../fonts/font1.woff?a=123", "fonts",
         "../fonts/fonts/font1.woff", "../fonts/font1.woff", "fonts/fonts/font1.woff");
  }

  // The strings of OneDeepOneUpPosix, each checked against the pieces it is made of;
  // a `Spelled` lemma states a fact's strings as concatenations, apart from `Join`.
  lemma OneDeepOneUpPosixLayout()
    ensures var dir, to := ["fixtures"], ["fonts", "fonts"];
            to == ["fonts"] + Below(dir[..|dir| - 1] + ["fonts"], dir) && ["..", "fonts", "fonts"] == RelSegs(dir, to)
  {
    var dir := ["fixtures"];
    assert dir[..0] + ["fonts"] == ["fonts"];
    assert Below(["fonts"], dir) == ["fonts"];
    assert ["fonts"] + ["fonts"] == ["fonts", "fonts"];
  }

  lemma OneDeepOneUpPosixNames()
    ensures Names(Posix, ["fixtures"]) && IsName(Posix, "01.css") && Names(Posix, ["fonts"])
            && PlainNames(Posix, ["fonts"]) && PlainNames(Posix, ["font1.woff"]) && IsQuery("?a=123")
  {
  }

  lemma OneDeepOneUpPosixStylesheet()
    ensures "/fixtures/01.css" == Render(Posix, ["fixtures"] + ["01.css"])
            && "fixtures/01.css" == Join(["fixtures"] + ["01.css"], '/')
  {
    assert ["fixtures"] + ["01.css"] == ["fixtures", "01.css"];
    JoinTwo("fixtures", "01.css", '/');
    OneDeepOneUpPosixStylesheetSpelled();
  }

  lemma OneDeepOneUpPosixStylesheetSpelled()
    ensures "fixtures/01.css" == "fixtures" + ['/'] + "01.css"
    ensures "/fixtures/01.css" == ['/'] + "fixtures/01.css"
  {
  }

  lemma OneDeepOneUpPosixUrlPath()
    ensures "../fonts/fonts/font1.woff" == Join(["..", "fonts", "fonts"], '/') + "/" + "font1.woff"
  {
    JoinThree("..", "fonts", "fonts", '/');
    OneDeepOneUpPosixUrlPathSpelled();
  }

  lemma OneDeepOneUpPosixUrlPathSpelled()
    ensures "../fonts/fonts" == ".." + ['/'] + "fonts" + ['/'] + "fonts"
    ensures "../fonts/fonts/font1.woff" == "../fonts/fonts" + "/" + "font1.woff"
  {
  }

  /** test/test.js:40-47, with `path.win32`: a stylesheet one level deep, a reference one level up. */
  lemma OneDeepOneUpWin32(rev: GD.Revision)
    ensures GD.GenerateDirs(rev, Win32, [], "\\fixtures\\01.css", "fixtures\\01.css",
                            "../fonts/font1.woff?a=123", GD.Options("fonts", None))
         == Success(GD.Dirs(GD.UrlOf("../fonts/fonts/font1.woff", "?a=123"), "..\\fonts\\font1.woff",
                            "fonts\\fonts\\font1.woff"))
  {
    OneDeepOneUpPosixLayout();
    OneDeepOneUpWin32Names();
    OneDeepOneUpWin32Stylesheet();
    TwoDeepOneUpPosixReference();
    TwoDeepOneUpWin32AssetPath();
    OneDeepOneUpPosixUrlPath();
    TwoDeepOneUpWin32NewAssetFile();
    Case(rev, Win32, ["fixtures"], "01.css", 1, ["fonts"], "font1.woff", "?a=123",
         ["fonts"], ["fonts", "fonts"], ["..", "fonts", "fonts"],
         "\\fixtures\\01.css", "fixtures\\01.css", "../fonts/font1.woff?a=123", "fonts",
         "../fonts/fonts/font1.woff", "..\\fonts\\font1.woff", "fonts\\fonts\\font1.woff");
  }

  // The strings of OneDeepOneUpWin32, each checked against the pieces it is made of;
  // a `Spelled` lemma states a fact's strings as concatenations, apart from `Join`.
  lemma OneDeepOneUpWin32Names()
    ensures Names(Win32, ["fixtures"]) && IsName(Win32, "01.css") && Names(Win32, ["fonts"])
            && PlainNames(Win32, ["fonts"]) && PlainNames(Win32, ["font1.woff"]) && IsQuery("?a=123")
  {
  }

  lemma OneDeepOneUpWin32Stylesheet()
    ensures "\\fixtures\\01.css" == Render(Win32, ["fixtures"] + ["01.css"])
            && "fixtures\\01.css" == Join(["fixtures"] + ["01.css"], '\\')
  {
    assert ["fixtures"] + ["01.css"] == ["fixtures", "01.css"];
    JoinTwo("fixtures", "01.css", '\\');
    OneDeepOneUpWin32StylesheetSpelled();
  }

  lemma OneDeepOneUpWin32StylesheetSpelled()
    ensures "fixtures\\01.css" == "fixtures" + ['\\'] + "01.css"
    ensures "\\fixtures\\01.css" == ['\\'] + "fixtures\\01.css"
  {
  }

  /** test/test.js:50-57, with `path.posix`: a stylesheet one level deep, a reference that does not go up. */
  lemma OneDeepNoneUpPosix(rev: GD.Revision)
    ensures GD.GenerateDirs(rev, Posix, [], "/fixtures/01.css", "fixtures/01.css",
                            "fonts/font1.woff?a=123", GD.Options("fonts", None))
         == Success(GD.Dirs(GD.UrlOf("../fonts/fonts/font1.woff", "?a=123"), "fonts/font1.woff",
                            "fonts/fonts/font1.woff"))
  {
    OneDeepNoneUpPosixLayout();
    OneDeepOneUpPosixNames();
    OneDeepOneUpPosixStylesheet();
    OneDeepNoneUpPosixReference();
    OneDeepNoneUpPosixAssetPath();
    OneDeepOneUpPosixUrlPath();
    TwoDeepOneUpPosixNewAssetFile();
    Case(rev, Posix, ["fixtures"], "01.css", 0, ["fonts"], "font1.woff", "?a=123",
         ["fonts"], ["fonts", "fonts"], ["..", "fonts", "fonts"],
         "/fixtures/01.css", "fixtures/01.css", "fonts/font1.woff?a=123", "fonts",
         "../fonts/fonts/font1.woff", "fonts/font1.woff", "fonts/fonts/font1.woff");
  }

  // The strings of OneDeepNoneUpPosix, each checked against the pieces it is made of;
  // a `Spelled` lemma states a fact's strings as concatenations, apart from `Join`.
  lemma OneDeepNoneUpPosixLayout()
    ensures var dir, to := ["fixtures"], ["fonts", "fonts"];
            to == ["fonts"] + Below(dir[..|dir| - 0] + ["fonts"], dir) && ["..", "fonts", "fonts"] == RelSegs(dir, to)
  {
    var dir := ["fixtures"];
    assert dir[..1] + ["fonts"] == ["fixtures", "fonts"];
    assert Below(["fixtures", "fonts"], dir) == ["fonts"];
    assert ["fonts"] + ["fonts"] == ["fonts", "fonts"];
  }

  lemma OneDeepNoneUpPosixReference()
    ensures "fonts/font1.woff?a=123" == Join(RefPieces(0, ["fonts"], "font1.woff"), '/') + "?a=123"
  {
    assert RefPieces(0, ["fonts"], "font1.woff") == ["fonts", "font1.woff"];
    JoinTwo("fonts", "font1.woff", '/');
    OneDeepNoneUpPosixReferenceSpelled();
  }

  lemma OneDeepNoneUpPosixReferenceSpelled()
    ensures "fonts/font1.woff" == "fonts" + ['/'] + "font1.woff"
    ensures "fonts/font1.woff?a=123" == "fonts/font1.woff" + "?a=123"
  {
  }

  lemma OneDeepNoneUpPosixAssetPath()
    ensures "fonts/font1.woff" == Join(RefPieces(0, ["fonts"], "font1.woff"), '/')
  {
    assert RefPieces(0, ["fonts"], "font1.woff") == ["fonts", "font1.woff"];
    JoinTwo("fonts", "font1.woff", '/');
    OneDeepNoneUpPosixAssetPathSpelled();
  }

  lemma OneDeepNoneUpPosixAssetPathSpelled()
    ensures "fonts/font1.woff" == "fonts" + ['/'] + "font1.woff"
  {
  }

  /** test/test.js:50-57, with `path.win32`: a stylesheet one level deep, a reference that does not go up. */
  lemma OneDeepNoneUpWin32(rev: GD.Revision)
    ensures GD.GenerateDirs(rev, Win32, [], "\\fixtures\\01.css", "fixtures\\01.css",
                            "fonts/font1.woff?a=123", GD.Options("fonts", None))
         == Success(GD.Dirs(GD.UrlOf("../fonts/fonts/font1.woff", "?a=123"), "fonts\\font1.woff",
                            "fonts\\fonts\\font1.woff"))
  {
    OneDeepNoneUpPosixLayout();
    OneDeepOneUpWin32Names();
    OneDeepOneUpWin32Stylesheet();
    OneDeepNoneUpPosixReference();
    OneDeepNoneUpWin32AssetPath();
    OneDeepOneUpPosixUrlPath();
    TwoDeepOneUpWin32NewAssetFile();
    Case(rev, Win32, ["fixtures"], "01.css", 0, ["fonts"], "font1.woff", "?a=123",
         ["fonts"], ["fonts", "fonts"], ["..", "fonts", "fonts"],
         "\\fixtures\\01.css", "fixtures\\01.css", "fonts/font1.woff?a=123", "fonts",
         "../fonts/fonts/font1.woff", "fonts\\font1.woff", "fonts\\fonts\\font1.woff");
  }

  // The strings of OneDeepNoneUpWin32, each checked against the pieces it is made of;
  // a `Spelled` lemma states a fact's strings as concatenations, apart from `Join`.
  lemma OneDeepNoneUpWin32AssetPath()
    ensures "fonts\\font1.woff" == Join(RefPieces(0, ["fonts"], "font1.woff"), '\\')
  {
    assert RefPieces(0, ["fonts"], "font1.woff") == ["fonts", "font1.woff"];
    JoinTwo("fonts", "font1.woff", '\\');
    OneDeepNoneUpWin32AssetPathSpelled();
  }

  lemma OneDeepNoneUpWin32AssetPathSpelled()
    ensures "fonts\\font1.woff" == "fonts" + ['\\'] + "font1.woff"
  {
  }

  /** test/test.js:60-67, with `path.posix`: a stylesheet at the top, a reference that does not go up. */
  lemma TopLevelPosix(rev: GD.Revision)
    ensures GD.GenerateDirs(rev, Posix, [], "/01.css", "01.css",
                            "fonts/font1.woff?a=123", GD.Options("fonts", None))
         == Success(GD.Dirs(GD.UrlOf("fonts/fonts/font1.woff", "?a=123"), "fonts/font1.woff",
                            "fonts/fonts/font1.woff"))
  {
    TopLevelPosixLayout();
    TopLevelPosixNames();
    TopLevelPosixStylesheet();
    OneDeepNoneUpPosixReference();
    OneDeepNoneUpPosixAssetPath();
    TopLevelPosixUrlPath();
    TwoDeepOneUpPosixNewAssetFile();
    Case(rev, Posix, [], "01.css", 0, ["fonts"], "font1.woff", "?a=123",
         ["fonts"], ["fonts", "fonts"], ["fonts", "fonts"],
         "/01.css", "01.css", "fonts/font1.woff?a=123", "fonts",
         "fonts/fonts/font1.woff", "fonts/font1.woff", "fonts/fonts/font1.woff");
  }

  // The strings of TopLevelPosix, each checked against the pieces it is made of;
  // a `Spelled` lemma states a fact's strings as concatenations, apart from `Join`.
  lemma TopLevelPosixLayout()
    ensures var dir, to := [], ["fonts", "fonts"];
            to == ["fonts"] + Below(dir[..|dir| - 0] + ["fonts"], dir) && ["fonts", "fonts"] == RelSegs(dir, to)
  {
    var dir: seq<string> := [];
    assert dir[..0] + ["fonts"] == ["fonts"];
    assert Below(["fonts"], dir) == ["fonts"];
    assert ["fonts"] + ["fonts"] == ["fonts", "fonts"];
  }

  lemma TopLevelPosixNames()
    ensures Names(Posix, []) && IsName(Posix, "01.css") && Names(Posix, ["fonts"])
            && PlainNames(Posix, ["fonts"]) && PlainNames(Posix, ["font1.woff"]) && IsQuery("?a=123")
  {
  }

  lemma TopLevelPosixStylesheet()
    ensures "/01.css" == Render(Posix, [] + ["01.css"])
            && "01.css" == Join([] + ["01.css"], '/')
  {
    assert [] + ["01.css"] == ["01.css"];
    TopLevelPosixStylesheetSpelled();
  }

  lemma TopLevelPosixStylesheetSpelled()
    ensures "/01.css" == ['/'] + "01.css"
  {
  }

  lemma TopLevelPosixUrlPath()
    ensures "fonts/fonts/font1.woff" == Join(["fonts", "fonts"], '/') + "/" + "font1.woff"
  {
    JoinTwo("fonts", "fonts", '/');
    TopLevelPosixUrlPathSpelled();
  }

  lemma TopLevelPosixUrlPathSpelled()
    ensures "fonts/fonts" == "fonts" + ['/'] + "fonts"
    ensures "fonts/fonts/font1.woff" == "fonts/fonts" + "/" + "font1.woff"
  {
  }

  /** test/test.js:60-67, with `path.win32`: a stylesheet at the top, a reference that does not go up. */
  lemma TopLevelWin32(rev: GD.Revision)
    ensures GD.GenerateDirs(rev, Win32, [], "\\01.css", "01.css",
                            "fonts/font1.woff?a=123", GD.Options("fonts", None))
         == Success(GD.Dirs(GD.UrlOf("fonts/fonts/font1.woff", "?a=123"), "fonts\\font1.woff",
                            "fonts\\fonts\\font1.woff"))
  {
    TopLevelPosixLayout();
    TopLevelWin32Names();
    TopLevelWin32Stylesheet();
    OneDeepNoneUpPosixReference();
    OneDeepNoneUpWin32AssetPath();
    TopLevelPosixUrlPath();
    TwoDeepOneUpWin32NewAssetFile();
    Case(rev, Win32, [], "01.css", 0, ["fonts"], "font1.woff", "?a=123",
         ["fonts"], ["fonts", "fonts"], ["fonts", "fonts"],
         "\\01.css", "01.css", "fonts/font1.woff?a=123", "fonts",
         "fonts/fonts/font1.woff", "fonts\\font1.woff", "fonts\\fonts\\font1.woff");
  }

  // The strings of TopLevelWin32, each checked against the pieces it is made of;
  // a `Spelled` lemma states a fact's strings as concatenations, apart from `Join`.
  lemma TopLevelWin32Names()
    ensures Names(Win32, []) && IsName(Win32, "01.css") && Names(Win32, ["fonts"])
            && PlainNames(Win32, ["fonts"]) && PlainNames(Win32, ["font1.woff"]) && IsQuery("?a=123")
  {
  }

  lemma TopLevelWin32Stylesheet()
    ensures "\\01.css" == Render(Win32, [] + ["01.css"])
            && "01.css" == Join([] + ["01.css"], '\\')
  {
    assert [] + ["01.css"] == ["01.css"];
    TopLevelWin32StylesheetSpelled();
  }

  lemma TopLevelWin32StylesheetSpelled()
    ensures "\\01.css" == ['\\'] + "01.css"
  {
  }

  /** test/test.js:70-77, with `path.posix`: a base of two levels. */
  lemma MultilevelBasePosix(rev: GD.Revision)
    ensures GD.GenerateDirs(rev, Posix, [], "/fixtures/01.css", "fixtures/01.css",
                            "fonts/font1.woff?a=123", GD.Options("fonts/foo", None))
         == Success(GD.Dirs(GD.UrlOf("../fonts/foo/fonts/font1.woff", "?a=123"), "fonts/font1.woff",
                            "fonts/foo/fonts/font1.woff"))
  {
    MultilevelBasePosixLayout();
    MultilevelBasePosixNames();
    OneDeepOneUpPosixStylesheet();
    OneDeepNoneUpPosixReference();
    OneDeepNoneUpPosixAssetPath();
    MultilevelBasePosixUrlPath();
    MultilevelBasePosixNewAssetFile();
    Case(rev, Posix, ["fixtures"], "01.css", 0, ["fonts"], "font1.woff", "?a=123",
         ["fonts", "foo"], ["fonts", "foo", "fonts"], ["..", "fonts", "foo", "fonts"],
         "/fixtures/01.css", "fixtures/01.css", "fonts/font1.woff?a=123", "fonts/foo",
         "../fonts/foo/fonts/font1.woff", "fonts/font1.woff", "fonts/foo/fonts/font1.woff");
  }

  // The strings of MultilevelBasePosix, each checked against the pieces it is made of;
  // a `Spelled` lemma states a fact's strings as concatenations, apart from `Join`.
  lemma MultilevelBasePosixLayout()
    ensures var dir, to := ["fixtures"], ["fonts", "foo", "fonts"];
            to == ["fonts", "foo"] + Below(dir[..|dir| - 0] + ["fonts"], dir) && ["..", "fonts", "foo", "fonts"] == RelSegs(dir, to)
  {
    var dir := ["fixtures"];
    assert dir[..1] + ["fonts"] == ["fixtures", "fonts"];
    assert Below(["fixtures", "fonts"], dir) == ["fonts"];
    assert ["fonts", "foo"] + ["fonts"] == ["fonts", "foo", "fonts"];
  }

  lemma MultilevelBasePosixNames()
    ensures Names(Posix, ["fixtures"]) && IsName(Posix, "01.css") && Names(Posix, ["fonts", "foo"])
            && PlainNames(Posix, ["fonts"]) && PlainNames(Posix, ["font1.woff"]) && IsQuery("?a=123")
  {
  }

  lemma MultilevelBasePosixUrlPath()
    ensures "../fonts/foo/fonts/font1.woff" == Join(["..", "fonts", "foo", "fonts"], '/') + "/" + "font1.woff"
  {
    JoinFour("..", "fonts", "foo", "fonts", '/');
    MultilevelBasePosixUrlPathSpelled();
  }

  lemma MultilevelBasePosixUrlPathSpelled()
    ensures "../fonts/foo/fonts" == ".." + ['/'] + "fonts" + ['/'] + "foo" + ['/'] + "fonts"
    ensures "../fonts/foo/fonts/font1.woff" == "../fonts/foo/fonts" + "/" + "font1.woff"
  {
  }

  lemma MultilevelBasePosixNewAssetFile()
    ensures "fonts/foo" == Join(["fonts", "foo"], '/') && "fonts/foo/fonts/font1.woff" == Join(["fonts", "foo", "fonts"] + ["font1.woff"], '/')
  {
    assert ["fonts", "foo", "fonts"] + ["font1.woff"] == ["fonts", "foo", "fonts", "font1.woff"];
    JoinTwo("fonts", "foo", '/');
    JoinFour("fonts", "foo", "fonts", "font1.woff", '/');
    MultilevelBasePosixNewAssetFileSpelled();
  }

  lemma MultilevelBasePosixNewAssetFileSpelled()
    ensures "fonts/foo" == "fonts" + ['/'] + "foo"
    ensures "fonts/foo/fonts/font1.woff" == "fonts" + ['/'] + "foo" + ['/'] + "fonts" + ['/'] + "font1.woff"
  {
  }

  /** test/test.js:70-77, with `path.win32`: a base of two levels. */
  lemma MultilevelBaseWin32(rev: GD.Revision)
    ensures GD.GenerateDirs(rev, Win32, [], "\\fixtures\\01.css", "fixtures\\01.css",
                            "fonts/font1.woff?a=123", GD.Options("fonts\\foo", None))
         == Success(GD.Dirs(GD.UrlOf("../fonts/foo/fonts/font1.woff", "?a=123"), "fonts\\font1.woff",
                            "fonts\\foo\\fonts\\font1.woff"))
  {
    MultilevelBasePosixLayout();
    MultilevelBaseWin32Names();
    OneDeepOneUpWin32Stylesheet();
    OneDeepNoneUpPosixReference();
    OneDeepNoneUpWin32AssetPath();
    MultilevelBasePosixUrlPath();
    MultilevelBaseWin32NewAssetFile();
    Case(rev, Win32, ["fixtures"], "01.css", 0, ["fonts"], "font1.woff", "?a=123",
         ["fonts", "foo"], ["fonts", "foo", "fonts"], ["..", "fonts", "foo", "fonts"],
         "\\fixtures\\01.css", "fixtures\\01.css", "fonts/font1.woff?a=123", "fonts\\foo",
         "../fonts/foo/fonts/font1.woff", "fonts\\font1.woff", "fonts\\foo\\fonts\\font1.woff");
  }

  // The strings of MultilevelBaseWin32, each checked against the pieces it is made of;
  // a `Spelled` lemma states a fact's strings as concatenations, apart from `Join`.
  lemma MultilevelBaseWin32Names()
    ensures Names(Win32, ["fixtures"]) && IsName(Win32, "01.css") && Names(Win32, ["fonts", "foo"])
            && PlainNames(Win32, ["fonts"]) && PlainNames(Win32, ["font1.woff"]) && IsQuery("?a=123")
  {
  }

  lemma MultilevelBaseWin32NewAssetFile()
    ensures "fonts\\foo" == Join(["fonts", "foo"], '\\') && "fonts\\foo\\fonts\\font1.woff" == Join(["fonts", "foo", "fonts"] + ["font1.woff"], '\\')
  {
    assert ["fonts", "foo", "fonts"] + ["font1.woff"] == ["fonts", "foo", "fonts", "font1.woff"];
    JoinTwo("fonts", "foo", '\\');
    JoinFour("fonts", "foo", "fonts", "font1.woff", '\\');
    MultilevelBaseWin32NewAssetFileSpelled();
  }

  lemma MultilevelBaseWin32NewAssetFileSpelled()
    ensures "fonts\\foo" == "fonts" + ['\\'] + "foo"
    ensures "fonts\\foo\\fonts\\font1.woff" == "fonts" + ['\\'] + "foo" + ['\\'] + "fonts" + ['\\'] + "font1.woff"
  {
  }

  /** test/test.js:80-87, with `path.posix`: a base of two levels, a reference one level up. */
  lemma MultilevelBaseUpPosix(rev: GD.Revision)
    ensures GD.GenerateDirs(rev, Posix, [], "/fixtures/01.css", "fixtures/01.css",
                            "../fonts/font1.woff?a=123", GD.Options("fonts/foo", None))
         == Success(GD.Dirs(GD.UrlOf("../fonts/foo/fonts/font1.woff", "?a=123"), "../fonts/font1.woff",
                            "fonts/foo/fonts/font1.woff"))
  {
    MultilevelBaseUpPosixLayout();
    MultilevelBasePosixNames();
    OneDeepOneUpPosixStylesheet();
    TwoDeepOneUpPosixReference();
    TwoDeepOneUpPosixAssetPath();
    MultilevelBasePosixUrlPath();
    MultilevelBasePosixNewAssetFile();
    Case(rev, Posix, ["fixtures"], "01.css", 1, ["fonts"], "font1.woff", "?a=123",
         ["fonts", "foo"], ["fonts", "foo", "fonts"], ["..", "fonts", "foo", "fonts"],
         "/fixtures/01.css", "fixtures/01.css", "../fonts/font1.woff?a=123", "fonts/foo",
         "../fonts/foo/fonts/font1.woff", "../fonts/font1.woff", "fonts/foo/fonts/font1.woff");
  }

  // The strings of MultilevelBaseUpPosix, each checked against the pieces it is made of;
  // a `Spelled` lemma states a fact's strings as concatenations, apart from `Join`.
  lemma MultilevelBaseUpPosixLayout()
    ensures var dir, to := ["fixtures"], ["fonts", "foo", "fonts"];
            to == ["fonts", "foo"] + Below(dir[..|dir| - 1] + ["fonts"], dir) && ["..", "fonts", "foo", "fonts"] == RelSegs(dir, to)
  {
    var dir := ["fixtures"];
    assert dir[..0] + ["fonts"] == ["fonts"];
    assert Below(["fonts"], dir) == ["fonts"];
    assert ["fonts", "foo"] + ["fonts"] == ["fonts", "foo", "fonts"];
  }

  /** test/test.js:90-97, with `path.posix`: an empty base. */
  lemma BlankBasePosix(rev: GD.Revision)
    ensures GD.GenerateDirs(rev, Posix, [], "/fixtures/01.css", "fixtures/01.css",
                            "fonts/font1.woff?a=123", GD.Options("", None))
         == Success(GD.Dirs(GD.UrlOf("../fonts/font1.woff", "?a=123"), "fonts/font1.woff",
                            "fonts/font1.woff"))
  {
    BlankBasePosixLayout();
    BlankBasePosixNames();
    OneDeepOneUpPosixStylesheet();
    OneDeepNoneUpPosixReference();
    OneDeepNoneUpPosixAssetPath();
    BlankBasePosixUrlPath();
    BlankBasePosixNewAssetFile();
    Case(rev, Posix, ["fixtures"], "01.css", 0, ["fonts"], "font1.woff", "?a=123",
         [], ["fonts"], ["..", "fonts"],
         "/fixtures/01.css", "fixtures/01.css", "fonts/font1.woff?a=123", "",
         "../fonts/font1.woff", "fonts/font1.woff", "fonts/font1.woff");
  }

  // The strings of BlankBasePosix, each checked against the pieces it is made of;
  // a `Spelled` lemma states a fact's strings as concatenations, apart from `Join`.
  lemma BlankBasePosixLayout()
    ensures var dir, to := ["fixtures"], ["fonts"];
            to == [] + Below(dir[..|dir| - 0] + ["fonts"], dir) && ["..", "fonts"] == RelSegs(dir, to)
  {
    var dir := ["fixtures"];
    assert dir[..1] + ["fonts"] == ["fixtures", "fonts"];
    assert Below(["fixtures", "fonts"], dir) == ["fonts"];
    assert [] + ["fonts"] == ["fonts"];
  }

  lemma BlankBasePosixNames()
    ensures Names(Posix, ["fixtures"]) && IsName(Posix, "01.css") && Names(Posix, [])
            && PlainNames(Posix, ["fonts"]) && PlainNames(Posix, ["font1.woff"]) && IsQuery("?a=123")
  {
  }

  lemma BlankBasePosixUrlPath()
    ensures "../fonts/font1.woff" == Join(["..", "fonts"], '/') + "/" + "font1.woff"
  {
    JoinTwo("..", "fonts", '/');
    BlankBasePosixUrlPathSpelled();
  }

  lemma BlankBasePosixUrlPathSpelled()
    ensures "../fonts" == ".." + ['/'] + "fonts"
    ensures "../fonts/font1.woff" == "../fonts" + "/" + "font1.woff"
  {
  }

  lemma BlankBasePosixNewAssetFile()
    ensures "" == Join([], '/') && "fonts/font1.woff" == Join(["fonts"] + ["font1.woff"], '/')
  {
    assert ["fonts"] + ["font1.woff"] == ["fonts", "font1.woff"];
    JoinTwo("fonts", "font1.woff", '/');
    BlankBasePosixNewAssetFileSpelled();
  }

  lemma BlankBasePosixNewAssetFileSpelled()
    ensures "fonts/font1.woff" == "fonts" + ['/'] + "font1.woff"
  {
  }


  /** `Join` of two, three and four pieces spelled out; the cases use these
      rather than letting the verifier unroll `Join` over their literals. */
  lemma JoinTwo(a: string, b: string, sep: char)
    ensures Join([a, b], sep) == a + [sep] + b
  {
    assert [a, b][1..] == [b];
  }

  lemma JoinThree(a: string, b: string, c: string, sep: char)
    ensures Join([a, b, c], sep) == a + [sep] + b + [sep] + c
  {
    assert [a, b, c][1..] == [b, c];
    JoinTwo(b, c, sep);
  }

  lemma JoinFour(a: string, b: string, c: string, d: string, sep: char)
    ensures Join([a, b, c, d], sep) == a + [sep] + b + [sep] + c + [sep] + d
  {
    assert [a, b, c, d][1..] == [b, c, d];
    JoinThree(b, c, d, sep);
  }

  /** `Vector` for the strings a test case spells out. */
  lemma Case(rev: GD.Revision, st: Style, dir: seq<string>, css: string, k: nat, dirs: seq<string>, n: string,
             q: string, b: seq<string>, to: seq<string>, rel: seq<string>,
             cssAbs: string, cssRel: string, u: string, base: string, urlPath: string, assetPath: string, newAssetFile: string)
    requires Names(st, dir) && IsName(st, css) && k <= |dir|
    requires PlainNames(st, dirs) && PlainNames(st, [n]) && Names(st, b) && IsQuery(q)
    requires to == b + Below(dir[..|dir| - k] + dirs, dir) && rel == RelSegs(dir, to) && rel != []
    requires cssAbs == Render(st, dir + [css]) && cssRel == Join(dir + [css], Sep(st))
    requires u == Join(RefPieces(k, dirs, n), '/') + q && base == Join(b, Sep(st))
    requires urlPath == Join(rel, '/') + "/" + n
    requires assetPath == Join(RefPieces(k, dirs, n), Sep(st)) && newAssetFile == Join(to + [n], Sep(st))
    ensures GD.GenerateDirs(rev, st, [], cssAbs, cssRel, u, GD.Options(base, None))
         == Success(GD.Dirs(GD.UrlOf(urlPath, q), assetPath, newAssetFile))
  {
    Vector(rev, st, dir, css, k, dirs, n, q, b);
  }

  /** The pieces of a reference that climbs `k` levels and then descends
      into `dirs` to the file `n`. */
  function RefPieces(k: nat, dirs: seq<string>, n: string): seq<string> {
    Ups(k) + dirs + [n]
  }

  /** Pieces that are names free of `?` and `#`, with no white space at
      their ends. */
  predicate PlainNames(st: Style, segs: seq<string>) {
    forall k :: 0 <= k < |segs| ==> IsName(st, segs[k]) && NoneIn(segs[k], {'?', '#'}) && Untrimmed(segs[k])
  }

  /** A query that `url.parse` reads as the whole search part, with no white
      space at its end. */
  predicate IsQuery(q: string) {
    q == "" || (q[0] == '?' && NoneIn(q, {'#'}) && !IsUrlSpace(q[|q| - 1]))
  }

  /** The directory below the common ancestor of `a` and `c`. */
  function Below(a: seq<string>, c: seq<string>): seq<string> {
    a[|CommonPrefix(a, c)|..]
  }

  /** A stylesheet at `dir/css` below the root, with pipeline path
      `dir/css`, that references `(../)^k dirs/n` followed by the query
      `q`, with `base` made of the names `b`: the asset path is the
      reference's pieces joined by the separator; the copy goes to `base`,
      then the asset's directory below the one it shares with the
      stylesheet, then `n`; and the URL is the relative path from `dir` to
      the copy's directory in `/`, then `/n` and the query. */
  lemma Vector(rev: GD.Revision, st: Style, dir: seq<string>, css: string, k: nat, dirs: seq<string>, n: string,
               q: string, b: seq<string>)
    requires Names(st, dir) && IsName(st, css) && k <= |dir|
    requires PlainNames(st, dirs) && PlainNames(st, [n]) && Names(st, b) && IsQuery(q)
    requires RelSegs(dir, b + Below(dir[..|dir| - k] + dirs, dir)) != []
    ensures var to := b + Below(dir[..|dir| - k] + dirs, dir);
            GD.GenerateDirs(rev, st, [], Render(st, dir + [css]), Join(dir + [css], Sep(st)),
                            Join(RefPieces(k, dirs, n), '/') + q, GD.Options(Join(b, Sep(st)), None))
            == Success(GD.Dirs(GD.UrlOf(Join(RelSegs(dir, to), '/') + "/" + n, q),
                               Join(RefPieces(k, dirs, n), Sep(st)),
                               Join(to + [n], Sep(st))))
  {
    var sep := Sep(st);
    var segs := RefPieces(k, dirs, n);
    var path := Join(segs, '/');
    var u := path + q;
    RefParse(st, k, dirs, n, q);
    GD.GenerateDirsUnfold(rev, st, [], Render(st, dir + [css]), Join(dir + [css], sep), u, GD.Options(Join(b, sep), None));
    RefConvert(st, k, dirs, n);
    assert q + "" == q;
    VectorRelocate(rev, st, dir, css, k, dirs, n, u, b);
  }

  /** The pieces of the reference contain neither separator, nor `?` or `#`,
      and none is empty. */
  lemma RefPiecesPlain(st: Style, k: nat, dirs: seq<string>, n: string)
    requires PlainNames(st, dirs) && PlainNames(st, [n])
    ensures var segs := RefPieces(k, dirs, n);
            forall i :: 0 <= i < |segs| ==>
              segs[i] != "" && NoneIn(segs[i], Seps(st)) && NoneIn(segs[i], {'?', '#'}) && segs[i][0] !in Seps(st)
              && Untrimmed(segs[i])
  {
    var segs := RefPieces(k, dirs, n);
    forall i | 0 <= i < |segs|
      ensures segs[i] != "" && NoneIn(segs[i], Seps(st)) && NoneIn(segs[i], {'?', '#'}) && segs[i][0] !in Seps(st)
      ensures Untrimmed(segs[i])
    {
      if i < k {
        assert segs[i] == "..";
      } else if i < k + |dirs| {
        assert segs[i] == dirs[i - k];
      } else {
        assert segs[i] == n;
      }
    }
  }

  /** `url.parse` reads the reference as the joined pieces and the query. */
  lemma RefParse(st: Style, k: nat, dirs: seq<string>, n: string, q: string)
    requires PlainNames(st, dirs) && PlainNames(st, [n]) && IsQuery(q)
    ensures var path := Join(RefPieces(k, dirs, n), '/');
            var u := path + q;
            path != "" && u[0] == path[0] && path[0] != '?' && path[0] != '#'
            && ParseUrl(u) == UrlParts(Some(path), q, "")
  {
    var segs := RefPieces(k, dirs, n);
    var path := Join(segs, '/');
    RefPiecesPlain(st, k, dirs, n);
    JoinEmpty(segs, '/');
    JoinNoneIn(segs, '/', {'?', '#'});
    var u := path + q;
    assert u[0] == path[0] && u[|u| - 1] == if q == "" then path[|path| - 1] else q[|q| - 1];
    TrimUrlKeeps(u);
    ParseUrlUnique(u, UrlParts(Some(path), q, ""));
  }

  /** The pathname with each `/` turned into the separator. */
  lemma RefConvert(st: Style, k: nat, dirs: seq<string>, n: string)
    requires PlainNames(st, dirs) && PlainNames(st, [n])
    ensures Replace(Join(RefPieces(k, dirs, n), '/'), '/', Sep(st)) == Join(RefPieces(k, dirs, n), Sep(st))
  {
    RefPiecesPlain(st, k, dirs, n);
    ReplaceJoin(RefPieces(k, dirs, n), '/', Sep(st));
  }

  /** The relocation of the converted pathname. */
  lemma VectorRelocate(rev: GD.Revision, st: Style, dir: seq<string>, css: string, k: nat, dirs: seq<string>, n: string,
                       u: string, b: seq<string>)
    requires Names(st, dir) && IsName(st, css) && k <= |dir|
    requires PlainNames(st, dirs) && PlainNames(st, [n]) && Names(st, b)
    requires RelSegs(dir, b + Below(dir[..|dir| - k] + dirs, dir)) != []
    ensures var to := b + Below(dir[..|dir| - k] + dirs, dir);
            GD.Relocate(rev, st, [], Render(st, dir + [css]), Join(dir + [css], Sep(st)), u,
                        Join(RefPieces(k, dirs, n), Sep(st)), GD.Options(Join(b, Sep(st)), None))
            == (Join(RelSegs(dir, to), '/') + "/" + n, Join(to + [n], Sep(st)))
  {
    var sep := Sep(st);
    var cssAbs := Render(st, dir + [css]);
    var cssRel := Join(dir + [css], sep);
    var assetPath := Join(RefPieces(k, dirs, n), sep);
    var a := dir[..|dir| - k] + dirs;
    var rest := Below(a, dir);
    var to := b + rest;
    var nap := GD.NewAssetPath(rev, st, [], cssAbs, assetPath, Join(b, sep));
    assert nap == JoinPaths(st, Join(b, sep), Join(rest, sep)) by {
      RefDirs(st, dir, css, k, dirs, n);
      RootNewAssetPath(rev, st, a, dir, cssAbs, assetPath, b);
    }
    assert Basename(st, assetPath) == n by {
      RefBasename(st, k, dirs, n);
    }
    assert Names(st, rest) by {
      NamesSuffix(st, a, |CommonPrefix(a, dir)|);
    }
    assert IsName(st, n) by {
      assert [n][0] == n;
    }
    assert JoinPaths(st, nap, n) == Join(to + [n], sep) && ResolveFrom(st, [], nap) == to by {
      BaseNames(st, b, rest);
      GD.BaseLayout(st, Join(b, sep), rest, n);
    }
    assert GD.UrlDir(st, [], cssRel, to) == Join(RelSegs(dir, to), sep) by {
      StylesheetDir(st, dir, css);
    }
    RootUrlPath(rev, st, dir, to, n);
  }

  /** The stylesheet's directory is `dir`, and the asset's the part of
      `dir` the reference does not climb out of, then `dirs`. */
  lemma RefDirs(st: Style, dir: seq<string>, css: string, k: nat, dirs: seq<string>, n: string)
    requires Names(st, dir) && IsName(st, css) && k <= |dir|
    requires PlainNames(st, dirs) && PlainNames(st, [n])
    ensures GD.CssDirAbs(st, [], Render(st, dir + [css])) == dir
    ensures GD.AssetDirAbs(st, [], Render(st, dir + [css]), Join(RefPieces(k, dirs, n), Sep(st))) == dir[..|dir| - k] + dirs
  {
    ResolveRender(st, [], dir + [css]);
    assert Parent(dir + [css]) == dir;
    RefResolves(st, dir, k, dirs, n);
    assert Parent(dir[..|dir| - k] + dirs + [n]) == dir[..|dir| - k] + dirs;
  }

  /** The reference, resolved from `dir`, climbs `k` levels and descends. */
  lemma RefResolves(st: Style, dir: seq<string>, k: nat, dirs: seq<string>, n: string)
    requires Names(st, dir) && k <= |dir|
    requires PlainNames(st, dirs) && PlainNames(st, [n])
    ensures ResolveFrom(st, dir, Join(RefPieces(k, dirs, n), Sep(st))) == dir[..|dir| - k] + dirs + [n]
  {
    var segs := RefPieces(k, dirs, n);
    var s := Join(segs, Sep(st));
    RefPiecesPlain(st, k, dirs, n);
    JoinEmpty(segs, Sep(st));
    SplitJoin(segs, Sep(st), Seps(st));
    assert !IsAbsolute(st, s);
    TailNames(st, dirs, n);
    RefNorm(st, dir, k, dirs + [n]);
    assert Ups(k) + (dirs + [n]) == segs;
  }

  /** Normalising `k` steps up and then names from `dir`. */
  lemma RefNorm(st: Style, dir: seq<string>, k: nat, tail: seq<string>)
    requires Names(st, dir) && k <= |dir| && Names(st, tail)
    ensures NormFrom(dir, Ups(k) + tail, false) == dir[..|dir| - k] + tail
  {
    NormAppend(dir, Ups(k), tail, false);
    NormUps(st, dir, k, false);
    NormNames(st, dir[..|dir| - k], tail, false);
  }

  /** The names below the last `..` of the reference. */
  lemma TailNames(st: Style, dirs: seq<string>, n: string)
    requires PlainNames(st, dirs) && PlainNames(st, [n])
    ensures Names(st, dirs + [n])
  {
    var tail := dirs + [n];
    forall i | 0 <= i < |tail|
      ensures IsName(st, tail[i])
    {
      if i < |dirs| {
        assert tail[i] == dirs[i];
      } else {
        assert tail[i] == [n][0];
      }
    }
  }

  /** The base name of the reference is `n`. */
  lemma RefBasename(st: Style, k: nat, dirs: seq<string>, n: string)
    requires PlainNames(st, dirs) && PlainNames(st, [n])
    ensures Basename(st, Join(RefPieces(k, dirs, n), Sep(st))) == n
  {
    var segs := RefPieces(k, dirs, n);
    RefPiecesPlain(st, k, dirs, n);
    SplitJoin(segs, Sep(st), Seps(st));
    assert DropTrailingEmpty(segs) == segs;
  }

  /** With the root as working directory, both revisions take the asset's
      directory below the common ancestor. */
  lemma RootNewAssetPath(rev: GD.Revision, st: Style, a: seq<string>, c: seq<string>, cssAbs: string, assetPath: string,
                         b: seq<string>)
    requires Names(st, a) && Names(st, c)
    requires GD.CssDirAbs(st, [], cssAbs) == c && GD.AssetDirAbs(st, [], cssAbs, assetPath) == a
    ensures GD.NewAssetPath(rev, st, [], cssAbs, assetPath, Join(b, Sep(st)))
         == JoinPaths(st, Join(b, Sep(st)), Join(Below(a, c), Sep(st)))
  {
    GD.CommonDirResolve(rev, st, [], a, c);
    ResolveRender(st, [], a);
    RelSegsDown(CommonPrefix(a, c), a);
  }

  /** `path.join(base, rest)` for names, and where it resolves from the root. */
  lemma BaseNames(st: Style, b: seq<string>, rest: seq<string>)
    requires Names(st, b) && Names(st, rest)
    ensures Plain(st, Join(b, Sep(st))) && SegsOf(st, Join(b, Sep(st))) == b
    ensures ResolveFrom(st, [], JoinPaths(st, Join(b, Sep(st)), Join(rest, Sep(st)))) == b + rest
  {
    var sep := Sep(st);
    PlainJoin(st, b);
    PlainJoin(st, rest);
    assert Names(st, b + rest);
    if b + rest == [] {
      assert JoinPaths(st, Join(b, sep), Join(rest, sep)) == ".";
      SplitNoSep(".", Seps(st));
    } else {
      JoinPathsNames(st, Join(b, sep), Join(rest, sep));
      ResolveJoinedNames(st, b + rest);
    }
  }

  /** Names joined by the separator resolve from the root to themselves. */
  lemma ResolveJoinedNames(st: Style, segs: seq<string>)
    requires Names(st, segs) && segs != []
    ensures ResolveFrom(st, [], Join(segs, Sep(st))) == segs
  {
    JoinEmpty(segs, Sep(st));
    SplitJoin(segs, Sep(st), Seps(st));
    NormNames(st, [], segs, false);
  }

  /** The directory of the pipeline path `dir/css`, resolved from the root, is `dir`. */
  lemma StylesheetDir(st: Style, dir: seq<string>, css: string)
    requires Names(st, dir) && IsName(st, css)
    ensures ResolveDirname(st, [], Join(dir + [css], Sep(st))) == dir
  {
    var segs := dir + [css];
    JoinEmpty(segs, Sep(st));
    SplitJoin(segs, Sep(st), Seps(st));
    assert DropTrailingEmpty(segs) == segs;
    assert DirParts(segs) == dir;
    NormNames(st, [], dir, false);
  }

  /** A non-empty relative directory becomes the URL path in `/`, in both revisions. */
  lemma RootUrlPath(rev: GD.Revision, st: Style, from: seq<string>, to: seq<string>, n: string)
    requires Names(st, to) && RelSegs(from, to) != []
    ensures GD.UrlPath(rev, st, Join(RelSegs(from, to), Sep(st)), n) == Join(RelSegs(from, to), '/') + "/" + n
  {
    var rs := RelSegs(from, to);
    RelSegsPieces(st, from, to);
    assert forall i :: 0 <= i < |rs| ==> rs[i] != "" && NoneIn(rs[i], {Sep(st)});
    JoinEmpty(rs, Sep(st));
    ReplaceJoin(rs, Sep(st), '/');
  }
}
