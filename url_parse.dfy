/** The split of a reference into path, query and fragment that `url.parse`
    performs (sections 3.4 and 3.5 of RFC 3986): white space is stripped from
    both ends, then the fragment starts at the first `#`, the query at the
    first `?` before it. Only references without a scheme or host are
    covered, and the other characters are kept as written (no
    percent-escaping, no `\` to `/`). */
module UrlParse {
  import opened Results

  /** `pathname` is `null` when nothing precedes the query and fragment;
      `search` and `hash` are empty when absent (a falsy value in the source). */
  datatype UrlParts = UrlParts(pathname: Option<string>, search: string, hash: string)

  /** The index of the first `c` in `s`, or `|s|` when there is none. */
  function IndexOf(s: string, c: char): (i: nat)
    ensures i <= |s|
    ensures i < |s| ==> s[i] == c
    ensures forall k :: 0 <= k < i ==> s[k] != c
    decreases |s|
  {
    if |s| == 0 then 0
    else if s[0] == c then 0
    else 1 + IndexOf(s[1..], c)
  }

  /** `IndexOf`'s contract determines it. */
  lemma IndexOfAt(s: string, c: char, i: nat)
    requires i <= |s| && (i < |s| ==> s[i] == c)
    requires forall k :: 0 <= k < i ==> s[k] != c
    ensures IndexOf(s, c) == i
  {
  }

  /** The characters `url.parse` strips from both ends of a reference before
      splitting it: code points below 33, U+00A0 and U+FEFF. */
  predicate IsUrlSpace(c: char) {
    c < '!' || c == '\U{00A0}' || c == '\U{FEFF}'
  }

  predicate AllUrlSpace(s: string) {
    forall k :: 0 <= k < |s| ==> IsUrlSpace(s[k])
  }

  /** Nothing for `url.parse` to strip at either end. */
  predicate Untrimmed(s: string) {
    s == "" || (!IsUrlSpace(s[0]) && !IsUrlSpace(s[|s| - 1]))
  }

  /** The first index from `i` on that holds no white space, or `|u|`. */
  function SkipSpace(u: string, i: nat): (j: nat)
    requires i <= |u|
    ensures i <= j <= |u| && (j < |u| ==> !IsUrlSpace(u[j]))
    ensures forall k :: i <= k < j ==> IsUrlSpace(u[k])
    decreases |u| - i
  {
    if i < |u| && IsUrlSpace(u[i]) then SkipSpace(u, i + 1) else i
  }

  /** Where `u[lo..e]` ends once the white space at its end is dropped. */
  function SkipSpaceBack(u: string, lo: nat, e: nat): (j: nat)
    requires lo <= e <= |u|
    ensures lo <= j <= e && (j > lo ==> !IsUrlSpace(u[j - 1]))
    ensures forall k :: j <= k < e ==> IsUrlSpace(u[k])
    decreases e
  {
    if e > lo && IsUrlSpace(u[e - 1]) then SkipSpaceBack(u, lo, e - 1) else e
  }

  /** The reference `url.parse` splits: `u` without white space at either end. */
  function TrimUrl(u: string): (t: string)
    ensures Untrimmed(t)
  {
    var i := SkipSpace(u, 0);
    u[i..SkipSpaceBack(u, i, |u|)]
  }

  /** `SkipSpace` stops at the first character that is not white space. */
  lemma SkipSpaceAt(u: string, i: nat, j: nat)
    requires i <= j <= |u| && (j < |u| ==> !IsUrlSpace(u[j]))
    requires forall k :: i <= k < j ==> IsUrlSpace(u[k])
    ensures SkipSpace(u, i) == j
  {
  }

  /** `SkipSpaceBack` stops after the last character that is not white space. */
  lemma SkipSpaceBackAt(u: string, lo: nat, e: nat, j: nat)
    requires lo <= j <= e <= |u| && (j > lo ==> !IsUrlSpace(u[j - 1]))
    requires forall k :: j <= k < e ==> IsUrlSpace(u[k])
    ensures SkipSpaceBack(u, lo, e) == j
  {
  }

  /** `TrimUrl` keeps exactly what lies between white space at the ends: for
      a reference padded with white space it gives the reference back. */
  lemma TrimUrlPadded(pre: string, x: string, post: string)
    requires AllUrlSpace(pre) && AllUrlSpace(post) && Untrimmed(x)
    ensures TrimUrl(pre + x + post) == x
  {
    var u := pre + x + post;
    assert forall k :: 0 <= k < |pre| ==> u[k] == pre[k];
    assert forall k :: |pre| + |x| <= k < |u| ==> u[k] == post[k - |pre| - |x|];
    if x == "" {
      SkipSpaceAt(u, 0, |u|);
      SkipSpaceBackAt(u, |u|, |u|, |u|);
    } else {
      assert u[|pre|] == x[0] && u[|pre| + |x| - 1] == x[|x| - 1];
      SkipSpaceAt(u, 0, |pre|);
      SkipSpaceBackAt(u, |pre|, |u|, |pre| + |x|);
      assert u[|pre|..|pre| + |x|] == x;
    }
  }

  /** A reference with nothing to strip is split as it stands. */
  lemma TrimUrlKeeps(u: string)
    requires Untrimmed(u)
    ensures TrimUrl(u) == u
  {
    assert "" + u + "" == u;
    TrimUrlPadded("", u, "");
  }

  /** `r` is a split of `t`: path, query and fragment recompose `t`; the
      path, when there is one, is not empty and free of `?` and `#`; the
      query is empty or a `?` followed by no `#`; the fragment is empty or
      starts with `#`. */
  predicate Splits(t: string, r: UrlParts) {
    && r.pathname.GetOr("") + r.search + r.hash == t
    && (r.pathname.Some? ==> r.pathname.value != "")
    && (forall k :: 0 <= k < |r.pathname.GetOr("")| ==> r.pathname.GetOr("")[k] != '?' && r.pathname.GetOr("")[k] != '#')
    && (r.search == "" || (r.search[0] == '?' && forall k :: 0 <= k < |r.search| ==> r.search[k] != '#'))
    && (r.hash == "" || r.hash[0] == '#')
  }

  /** The path, query (from the first `?` up to the fragment) and fragment
      (from the first `#`) of `t`. */
  function SplitUrl(t: string): (r: UrlParts)
    ensures Splits(t, r)
  {
    var h := IndexOf(t, '#');
    var rest := t[..h];
    var q := IndexOf(rest, '?');
    var path := rest[..q];
    assert path + rest[q..] + t[h..] == t;
    UrlParts(if path == "" then None else Some(path), rest[q..], t[h..])
  }

  /** The path, query and fragment of `u`, once `url.parse` has stripped the
      white space at its ends. */
  function ParseUrl(u: string): (r: UrlParts)
    ensures Splits(TrimUrl(u), r)
  {
    SplitUrl(TrimUrl(u))
  }

  /** `SplitUrl`'s contract determines it: every split of `t` is the one it
      returns. */
  lemma SplitUrlUnique(t: string, r: UrlParts)
    requires Splits(t, r)
    ensures SplitUrl(t) == r
  {
    var path, search, hash := r.pathname.GetOr(""), r.search, r.hash;
    SplitMarks(path, search, hash);
    var h := IndexOf(t, '#');
    assert h == |path| + |search|;
    var rest := t[..h];
    assert rest == path + search;
    var q := IndexOf(rest, '?');
    assert q == |path|;
    assert rest[..q] == path && rest[q..] == search && t[h..] == hash;
    assert r.pathname == if path == "" then None else Some(path);
  }

  /** In a split, the fragment starts at the first `#` and the query at the
      first `?` before it. */
  lemma SplitMarks(path: string, search: string, hash: string)
    requires forall k :: 0 <= k < |path| ==> path[k] != '?' && path[k] != '#'
    requires search == "" || (search[0] == '?' && forall k :: 0 <= k < |search| ==> search[k] != '#')
    requires hash == "" || hash[0] == '#'
    ensures IndexOf(path + search + hash, '#') == |path| + |search|
    ensures IndexOf(path + search, '?') == |path|
  {
    var t := path + search + hash;
    assert forall k :: 0 <= k < |path| ==> t[k] == path[k];
    assert forall k :: |path| <= k < |path| + |search| ==> t[k] == search[k - |path|];
    assert |hash| > 0 ==> t[|path| + |search|] == hash[0];
    IndexOfAt(t, '#', |path| + |search|);
    var rest := path + search;
    assert forall k :: 0 <= k < |path| ==> rest[k] == path[k];
    assert |search| > 0 ==> rest[|path|] == search[0];
    IndexOfAt(rest, '?', |path|);
  }

  /** `ParseUrl`'s contract determines it: every split of the stripped
      reference is the one it returns. */
  lemma ParseUrlUnique(u: string, r: UrlParts)
    requires Splits(TrimUrl(u), r)
    ensures ParseUrl(u) == r
  {
    SplitUrlUnique(TrimUrl(u), r);
  }

  /** A reference that is only white space has no pathname. */
  lemma BlankReference()
    ensures ParseUrl(" ").pathname.None?
  {
    assert " " + "" + "" == " ";
    TrimUrlPadded(" ", "", "");
    ParseUrlUnique(" ", UrlParts(None, "", ""));
  }

  /** White space followed by a query leaves no pathname. */
  lemma BlankQueryReference()
    ensures ParseUrl(" ?a") == UrlParts(None, "?a", "")
  {
    assert " " + "?a" + "" == " ?a";
    TrimUrlPadded(" ", "?a", "");
    ParseUrlUnique(" ?a", UrlParts(None, "?a", ""));
  }

  /** White space before a path is not part of it. */
  lemma PaddedReference()
    ensures ParseUrl(" x.png") == UrlParts(Some("x.png"), "", "")
  {
    assert " " + "x.png" + "" == " x.png";
    TrimUrlPadded(" ", "x.png", "");
    ParseUrlUnique(" x.png", UrlParts(Some("x.png"), "", ""));
  }
}
