/** Strings as the JavaScript built-ins `String.prototype.split`,
    `Array.prototype.join` and character-for-character `replace` see them. */
module Text {

  /** True when no character of `s` is in `cs`. */
  predicate NoneIn(s: string, cs: set<char>) {
    forall k :: 0 <= k < |s| ==> s[k] !in cs
  }

  /** `s.split(c)` generalised to a set of separator characters: the pieces
      between separators, from left to right; never an empty list. */
  function Split(s: string, seps: set<char>): (parts: seq<string>)
    ensures |parts| >= 1
    ensures forall k :: 0 <= k < |parts| ==> NoneIn(parts[k], seps)
    decreases |s|
  {
    if |s| == 0 then [""]
    else
      var rest := Split(s[1..], seps);
      if s[0] in seps then [""] + rest
      else [[s[0]] + rest[0]] + rest[1..]
  }

  /** `parts.join(sep)`. */
  function Join(parts: seq<string>, sep: char): string
    decreases |parts|
  {
    if |parts| == 0 then ""
    else if |parts| == 1 then parts[0]
    else parts[0] + [sep] + Join(parts[1..], sep)
  }

  /** `s.replace(/from/g, to)` for single characters. */
  function Replace(s: string, from: char, to: char): (r: string)
    ensures |r| == |s|
    ensures forall k :: 0 <= k < |s| ==> r[k] == (if s[k] == from then to else s[k])
  {
    seq(|s|, k requires 0 <= k < |s| => if s[k] == from then to else s[k])
  }

  /** `s.indexOf(prefix) === 0`. */
  predicate StartsWith(s: string, prefix: string) {
    |prefix| <= |s| && s[..|prefix|] == prefix
  }

  lemma JoinCons(x: string, parts: seq<string>, sep: char)
    requires |parts| >= 1
    ensures Join([x + parts[0]] + parts[1..], sep) == x + Join(parts, sep)
  {
    var ps := [x + parts[0]] + parts[1..];
    if |parts| > 1 {
      assert ps[1..] == parts[1..];
    }
  }

  /** Splitting on one character and joining with it gives the string back. */
  lemma {:induction false} JoinSplit(s: string, sep: char)
    ensures Join(Split(s, {sep}), sep) == s
    decreases |s|
  {
    if |s| > 0 {
      var rest := Split(s[1..], {sep});
      JoinSplit(s[1..], sep);
      if s[0] == sep {
        assert ([""] + rest)[1..] == rest;
      } else {
        JoinCons([s[0]], rest, sep);
      }
    }
  }

  /** Splitting distributes over a separator character. */
  lemma {:induction false} SplitAppend(a: string, c: char, b: string, seps: set<char>)
    requires c in seps
    ensures Split(a + [c] + b, seps) == Split(a, seps) + Split(b, seps)
    decreases |a|
  {
    if |a| == 0 {
      assert a + [c] + b == [c] + b;
      assert ([c] + b)[1..] == b;
    } else {
      assert (a + [c] + b)[1..] == a[1..] + [c] + b;
      SplitAppend(a[1..], c, b, seps);
    }
  }

  /** A string without separators is a single piece. */
  lemma {:induction false} SplitNoSep(s: string, seps: set<char>)
    requires NoneIn(s, seps)
    ensures Split(s, seps) == [s]
    decreases |s|
  {
    if |s| > 0 {
      SplitNoSep(s[1..], seps);
      assert [s[0]] + s[1..] == s;
    }
  }

  /** Joining pieces free of separators with a separator and splitting again
      gives the pieces back. */
  lemma {:induction false} SplitJoin(parts: seq<string>, sep: char, seps: set<char>)
    requires sep in seps && |parts| >= 1
    requires forall k :: 0 <= k < |parts| ==> NoneIn(parts[k], seps)
    ensures Split(Join(parts, sep), seps) == parts
    decreases |parts|
  {
    if |parts| == 1 {
      SplitNoSep(parts[0], seps);
    } else {
      SplitJoin(parts[1..], sep, seps);
      SplitNoSep(parts[0], seps);
      SplitAppend(parts[0], sep, Join(parts[1..], sep), seps);
      assert [parts[0]] + parts[1..] == parts;
    }
  }

  /** Joining two non-empty lists of pieces is joining their concatenation. */
  lemma {:induction false} JoinAppend(a: seq<string>, b: seq<string>, sep: char)
    requires |a| >= 1 && |b| >= 1
    ensures Join(a + b, sep) == Join(a, sep) + [sep] + Join(b, sep)
    decreases |a|
  {
    if |a| > 1 {
      JoinAppend(a[1..], b, sep);
      assert (a + b)[1..] == a[1..] + b;
    } else {
      assert (a + b)[1..] == b;
    }
  }

  /** Replacing one separator by another leaves the pieces unchanged. */
  lemma {:induction false} SplitReplace(s: string, from: char, to: char, seps: set<char>)
    requires from in seps && to in seps
    ensures Split(Replace(s, from, to), seps) == Split(s, seps)
    decreases |s|
  {
    if |s| > 0 {
      var r := Replace(s, from, to);
      SplitReplace(s[1..], from, to, seps);
      assert r[1..] == Replace(s[1..], from, to);
    }
  }

  /** A joined list of non-empty pieces is empty exactly when the list is. */
  lemma {:induction false} JoinEmpty(parts: seq<string>, sep: char)
    requires forall k :: 0 <= k < |parts| ==> parts[k] != ""
    ensures (Join(parts, sep) == "") == (parts == [])
    ensures |parts| >= 1 ==> Join(parts, sep)[0] == parts[0][0]
    ensures |parts| >= 1 ==> Join(parts, sep)[|Join(parts, sep)| - 1] == parts[|parts| - 1][|parts[|parts| - 1]| - 1]
    decreases |parts|
  {
    if |parts| > 1 {
      JoinEmpty(parts[1..], sep);
    }
  }

  /** Pieces joined by a separator hold only the characters of the pieces
      and the separator. */
  lemma {:induction false} JoinNoneIn(parts: seq<string>, sep: char, cs: set<char>)
    requires sep !in cs
    requires forall k :: 0 <= k < |parts| ==> NoneIn(parts[k], cs)
    ensures NoneIn(Join(parts, sep), cs)
    decreases |parts|
  {
    if |parts| > 1 {
      JoinNoneIn(parts[1..], sep, cs);
      var x, y := parts[0], Join(parts[1..], sep);
      assert forall k :: 0 <= k < |y| ==> (x + [sep] + y)[|x| + 1 + k] == y[k];
    }
  }

  /** Replacing characters in two strings one after the other. */
  lemma ReplaceConcat(x: string, y: string, from: char, to: char)
    ensures Replace(x + y, from, to) == Replace(x, from, to) + Replace(y, from, to)
  {
    var r := Replace(x + y, from, to);
    assert forall k :: 0 <= k < |y| ==> r[|x| + k] == Replace(y, from, to)[k];
  }

  /** Turning the separator of a join into another character joins the
      same pieces with that character. */
  lemma {:induction false} ReplaceJoin(parts: seq<string>, from: char, to: char)
    requires forall k :: 0 <= k < |parts| ==> NoneIn(parts[k], {from})
    ensures Replace(Join(parts, from), from, to) == Join(parts, to)
    decreases |parts|
  {
    if |parts| == 1 {
      assert Replace(parts[0], from, to) == parts[0];
    } else if |parts| > 1 {
      ReplaceJoin(parts[1..], from, to);
      var x, y := parts[0], Join(parts[1..], from);
      ReplaceConcat(x + [from], y, from, to);
      ReplaceConcat(x, [from], from, to);
      assert Replace(x, from, to) == x;
    }
  }

  /** The longest common prefix of two sequences. */
  function CommonPrefix<T(==)>(a: seq<T>, b: seq<T>): (c: seq<T>)
    ensures c <= a && c <= b
    ensures |c| < |a| && |c| < |b| ==> a[|c|] != b[|c|]
    decreases |a|
  {
    if |a| == 0 || |b| == 0 || a[0] != b[0] then []
    else [a[0]] + CommonPrefix(a[1..], b[1..])
  }

  /** The common prefix does not depend on the order of its arguments. */
  lemma {:induction false} CommonPrefixSymmetric<T>(a: seq<T>, b: seq<T>)
    ensures CommonPrefix(a, b) == CommonPrefix(b, a)
    decreases |a|
  {
    if |a| > 0 && |b| > 0 && a[0] == b[0] {
      CommonPrefixSymmetric(a[1..], b[1..]);
    }
  }

  /** A sequence is its own common prefix with itself. */
  lemma {:induction false} CommonPrefixSelf<T>(a: seq<T>)
    ensures CommonPrefix(a, a) == a
    decreases |a|
  {
    if |a| > 0 {
      CommonPrefixSelf(a[1..]);
    }
  }

  /** A shared leading part passes through the common prefix. */
  lemma {:induction false} CommonPrefixAppend<T>(p: seq<T>, a: seq<T>, b: seq<T>)
    ensures CommonPrefix(p + a, p + b) == p + CommonPrefix(a, b)
    decreases |p|
  {
    if |p| > 0 {
      assert (p + a)[1..] == p[1..] + a;
      assert (p + b)[1..] == p[1..] + b;
      CommonPrefixAppend(p[1..], a, b);
      assert [p[0]] + p[1..] == p;
    } else {
      assert p + a == a && p + b == b;
    }
  }

  /** The common prefix of a sequence and one of its extensions is the sequence. */
  lemma {:induction false} CommonPrefixOfPrefix<T>(a: seq<T>, b: seq<T>)
    requires a <= b
    ensures CommonPrefix(a, b) == a
    decreases |a|
  {
    if |a| > 0 {
      CommonPrefixOfPrefix(a[1..], b[1..]);
    }
  }
}
