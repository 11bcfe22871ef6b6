/**
 * The string handling that src/cloud.rs does on request paths:
 * `str::starts_with`, `str::split('/')` and `join("/")`, and the parent
 * directory they compute together (`split`, `take(count - 1)`, `join`).
 */
module Paths {

  /** `s.starts_with(p)`: a raw prefix test that knows nothing about `/`. */
  predicate StartsWith(s: string, p: string) {
    p <= s
  }

  /** Position of the first `sep` in `s`, or `|s|` when `s` has none. */
  function FirstIndex(s: string, sep: char): (i: nat)
    ensures i <= |s|
    ensures i < |s| ==> s[i] == sep
    ensures forall j :: 0 <= j < i ==> s[j] != sep
  {
    if s == [] then 0
    else if s[0] == sep then 0
    else 1 + FirstIndex(s[1..], sep)
  }

  /** Position of the last `/` in `s`, or -1 when `s` has none. */
  function LastSlash(s: string): (i: int)
    ensures -1 <= i < |s|
    ensures i >= 0 ==> s[i] == '/'
    ensures forall j :: i < j < |s| ==> s[j] != '/'
  {
    if s == [] then -1
    else if s[|s| - 1] == '/' then |s| - 1
    else LastSlash(s[..|s| - 1])
  }

  /**
   * `s.split(sep)`: the pieces between separators, left to right. As in
   * Rust, there is always at least one piece (the empty string splits
   * into one empty piece) and no piece contains the separator.
   */
  function Split(s: string, sep: char): (parts: seq<string>)
    ensures |parts| >= 1
    ensures forall k :: 0 <= k < |parts| ==> sep !in parts[k]
    decreases |s|
  {
    var i := FirstIndex(s, sep);
    if i == |s| then [s] else [s[..i]] + Split(s[i + 1..], sep)
  }

  /** `parts.join(sep)`: the empty vector joins to the empty string. */
  function Join(parts: seq<string>, sep: char): string {
    if |parts| == 0 then ""
    else if |parts| == 1 then parts[0]
    else parts[0] + [sep] + Join(parts[1..], sep)
  }

  /**
   * `path.split('/').take(path.split('/').count() - 1).collect().join("/")`
   * (src/cloud.rs:150 and 164). `count()` is at least one, so the
   * subtraction never underflows.
   */
  function Parent(path: string): string {
    var parts := Split(path, '/');
    Join(parts[..|parts| - 1], '/')
  }

  /** Joining the pieces of a split gives back the original string. */
  lemma {:induction false} JoinSplit(s: string, sep: char)
    ensures Join(Split(s, sep), sep) == s
    decreases |s|
  {
    var i := FirstIndex(s, sep);
    if i < |s| {
      var rest := s[i + 1..];
      JoinSplit(rest, sep);
      var parts := Split(s, sep);
      assert parts == [s[..i]] + Split(rest, sep);
      assert |parts| >= 2 && parts[1..] == Split(rest, sep);
      assert Join(parts, sep) == s[..i] + [sep] + rest;
      assert s == s[..i] + [sep] + rest;
    }
  }

  /** Appending to a string does not move a separator it already has. */
  lemma FirstIndexAppend(p: string, q: string, sep: char)
    requires FirstIndex(p, sep) < |p|
    ensures FirstIndex(p + q, sep) == FirstIndex(p, sep)
  {
    var i, j := FirstIndex(p, sep), FirstIndex(p + q, sep);
    assert (p + q)[i] == sep;
    if j < i {
      assert (p + q)[j] == p[j];
    }
  }

  /** The first separator of `p + [sep] + t`, where `p` has none, follows `p`. */
  lemma FirstIndexAfter(p: string, t: string, sep: char)
    requires FirstIndex(p, sep) == |p|
    ensures FirstIndex(p + [sep] + t, sep) == |p|
  {
    var s := p + [sep] + t;
    var j := FirstIndex(s, sep);
    assert s[|p|] == sep;
  }

  /** Splitting a string whose last separator sits right after `p`. */
  lemma {:induction false} SplitLast(p: string, t: string, sep: char)
    requires sep !in t
    ensures Split(p + [sep] + t, sep) == Split(p, sep) + [t]
    decreases |p|
  {
    var s := p + [sep] + t;
    var i := FirstIndex(p, sep);
    assert Split(t, sep) == [t] by {
      assert FirstIndex(t, sep) == |t|;
    }
    if i == |p| {
      FirstIndexAfter(p, t, sep);
      assert s[..|p|] == p && s[|p| + 1..] == t;
      assert Split(s, sep) == [p] + Split(t, sep);
    } else {
      FirstIndexAppend(p, [sep] + t, sep);
      assert s == p + ([sep] + t);
      var rest := p[i + 1..];
      assert s[..i] == p[..i];
      assert s[i + 1..] == rest + [sep] + t;
      SplitLast(rest, t, sep);
      assert Split(s, sep) == [p[..i]] + Split(rest + [sep] + t, sep);
      assert Split(p, sep) == [p[..i]] + Split(rest, sep);
    }
  }

  /** The parent of `p + "/" + t`, where `t` has no `/`, is `p`. */
  lemma ParentOfChild(p: string, t: string)
    requires '/' !in t
    ensures Parent(p + "/" + t) == p
  {
    SplitLast(p, t, '/');
    var parts := Split(p + "/" + t, '/');
    assert parts[..|parts| - 1] == Split(p, '/');
    JoinSplit(p, '/');
  }

  /** A path without `/` has the empty parent. */
  lemma ParentOfName(t: string)
    requires '/' !in t
    ensures Parent(t) == ""
  {
    assert FirstIndex(t, '/') == |t|;
    assert Split(t, '/') == [t];
  }

  /**
   * The parent is everything before the last `/`, or the empty string
   * when the path has no `/` at all.
   */
  lemma ParentSpec(path: string)
    ensures Parent(path) == if LastSlash(path) < 0 then "" else path[..LastSlash(path)]
  {
    var i := LastSlash(path);
    if i < 0 {
      assert '/' !in path;
      ParentOfName(path);
    } else {
      var t := path[i + 1..];
      assert '/' !in t by {
        forall k | 0 <= k < |t| ensures t[k] != '/' {
          assert t[k] == path[i + 1 + k];
        }
      }
      assert path == path[..i] + "/" + t;
      ParentOfChild(path[..i], t);
    }
  }

  /** The parent of a path is a string prefix of it. */
  lemma ParentIsPrefix(path: string)
    ensures StartsWith(path, Parent(path))
  {
    ParentSpec(path);
  }
}
