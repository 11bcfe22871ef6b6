/**
 * Directory-scoped access grants and the check that src/cloud.rs runs on
 * them (`check_access`, src/cloud.rs:174-182): keep the grants that allow
 * the requested kind of access, keep those whose directory is a raw string
 * prefix of the target, reduce to the longest one and report whether
 * anything survived.
 */
module Grants {
  import opened Wrappers
  import opened Paths

  /** A record of the `cloud` collection (src/cloud.rs:212-217). */
  datatype Access = Access(id: string, user: string, dir: string, write: bool)

  /** `path.starts_with(&a.dir)`: the grant's directory is a raw prefix of `path`. */
  predicate Covers(a: Access, path: string)
    ensures Covers(a, path) <==> |a.dir| <= |path| && path[..|a.dir|] == a.dir
  {
    StartsWith(path, a.dir)
  }

  /** `.filter(|&a| !write || a.write == write)` */
  function WriteFilter(grants: seq<Access>, write: bool): (r: seq<Access>)
    ensures forall a :: a in r <==> a in grants && (!write || a.write)
  {
    if grants == [] then []
    else
      var last := grants[|grants| - 1];
      WriteFilter(grants[..|grants| - 1], write) + (if !write || last.write == write then [last] else [])
  }

  /** `.filter(|a| path.starts_with(&a.dir))` */
  function CoverFilter(grants: seq<Access>, path: string): (r: seq<Access>)
    ensures forall a :: a in r <==> a in grants && Covers(a, path)
  {
    if grants == [] then []
    else
      var last := grants[|grants| - 1];
      CoverFilter(grants[..|grants| - 1], path) + (if Covers(last, path) then [last] else [])
  }

  /** The closure given to `reduce`: the accumulator survives only if strictly longer. */
  function Longer(acc: Access, x: Access): Access {
    if |acc.dir| > |x.dir| then acc else x
  }

  /**
   * `.reduce(|a, x| if a.dir.len() > x.dir.len() {a} else {x})`: a left
   * fold started from the first element. It picks the longest directory,
   * and among equally long ones the latest.
   */
  function Reduce(s: seq<Access>): (r: Option<Access>)
    ensures r.None? <==> s == []
    ensures r.Some? ==> r.value in s && forall a :: a in s ==> |a.dir| <= |r.value.dir|
  {
    if s == [] then None
    else
      var x := s[|s| - 1];
      match Reduce(s[..|s| - 1])
      case None => Some(x)
      case Some(acc) => Some(Longer(acc, x))
  }

  /**
   * `check_access`. The result says whether some grant allows the
   * requested kind of access and covers `dir`; the longest-prefix
   * reduction only chooses among the survivors.
   */
  function CheckAccess(grants: seq<Access>, dir: string, write: bool): (granted: bool)
    ensures granted <==> exists a :: a in grants && Covers(a, dir) && (!write || a.write)
  {
    Reduce(CoverFilter(WriteFilter(grants, write), dir)).Some?
  }

  /** Asking for write access is never easier than asking for read access. */
  lemma WriteImpliesRead(grants: seq<Access>, dir: string)
    requires CheckAccess(grants, dir, true)
    ensures CheckAccess(grants, dir, false)
  {
  }

  /** A read check ignores every grant's `write` flag. */
  lemma ReadIgnoresWriteFlag(grants: seq<Access>, other: seq<Access>, dir: string)
    requires |grants| == |other|
    requires forall i :: 0 <= i < |grants| ==> grants[i].dir == other[i].dir
    ensures CheckAccess(grants, dir, false) == CheckAccess(other, dir, false)
  {
    if CheckAccess(grants, dir, false) {
      var a :| a in grants && Covers(a, dir);
      var i :| 0 <= i < |grants| && grants[i] == a;
      assert other[i] in other && Covers(other[i], dir);
    }
    if CheckAccess(other, dir, false) {
      var a :| a in other && Covers(a, dir);
      var i :| 0 <= i < |other| && other[i] == a;
      assert grants[i] in grants && Covers(grants[i], dir);
    }
  }

  /** Adding grants, before or after the existing ones, never revokes access. */
  lemma MoreGrantsNeverRevoke(grants: seq<Access>, more: seq<Access>, dir: string, write: bool)
    requires CheckAccess(grants, dir, write)
    ensures CheckAccess(grants + more, dir, write)
    ensures CheckAccess(more + grants, dir, write)
  {
    var a :| a in grants && Covers(a, dir) && (!write || a.write);
    assert a in grants + more && a in more + grants;
  }

  /** Access to a directory extends to every string it is a prefix of. */
  lemma AccessExtendsToLongerPaths(grants: seq<Access>, dir: string, path: string, write: bool)
    requires CheckAccess(grants, dir, write) && StartsWith(path, dir)
    ensures CheckAccess(grants, path, write)
  {
    var a :| a in grants && Covers(a, dir) && (!write || a.write);
    assert Covers(a, path);
  }

  /** A grant with the empty directory covers every directory. */
  lemma EmptyDirCoversAll(grants: seq<Access>, dir: string, a: Access)
    requires a in grants && a.dir == ""
    ensures CheckAccess(grants, dir, false)
    ensures a.write ==> CheckAccess(grants, dir, true)
  {
    assert Covers(a, dir);
  }

  /**
   * Coverage is a raw string prefix, not a whole path segment: a grant on
   * "ab" covers "abc", a sibling of "ab".
   */
  lemma PrefixIsNotSegmentAware()
    ensures CheckAccess([Access("g", "u", "ab", true)], "abc", true)
  {
    assert Covers(Access("g", "u", "ab", true), "abc");
  }

  /**
   * The grant among `grants` that decides `path`: it covers `path`, no
   * covering grant is longer, and no later covering grant is as long.
   */
  ghost predicate GoverningAt(grants: seq<Access>, path: string, k: int) {
    && 0 <= k < |grants| && Covers(grants[k], path)
    && (forall j :: 0 <= j < |grants| && Covers(grants[j], path) ==> |grants[j].dir| <= |grants[k].dir|)
    && (forall j :: k < j < |grants| && Covers(grants[j], path) ==> |grants[j].dir| < |grants[k].dir|)
  }

  /** A grant that does not cover `path` changes nothing about who governs it. */
  lemma GoverningSkip(init: seq<Access>, x: Access, path: string, k: int)
    requires GoverningAt(init, path, k) && !Covers(x, path)
    ensures GoverningAt(init + [x], path, k)
  {
    var s := init + [x];
    assert forall j :: 0 <= j < |init| ==> s[j] == init[j];
  }

  /** A covering grant strictly shorter than the governing one leaves it governing. */
  lemma GoverningKeep(init: seq<Access>, x: Access, path: string, k: int)
    requires GoverningAt(init, path, k) && |init[k].dir| > |x.dir|
    ensures GoverningAt(init + [x], path, k)
  {
    var s := init + [x];
    assert forall j :: 0 <= j < |init| ==> s[j] == init[j];
  }

  /** A covering grant at least as long as every earlier covering one takes over. */
  lemma GoverningTakeOver(init: seq<Access>, x: Access, path: string)
    requires Covers(x, path)
    requires forall a :: a in init && Covers(a, path) ==> |a.dir| <= |x.dir|
    ensures GoverningAt(init + [x], path, |init|)
  {
    var s := init + [x];
    forall j | 0 <= j < |s| && Covers(s[j], path)
      ensures |s[j].dir| <= |x.dir|
    {
      if j < |init| {
        assert s[j] == init[j] && init[j] in init;
      }
    }
  }

  /** Reducing one more grant: the fold step. */
  lemma ReduceSnoc(f: seq<Access>, x: Access)
    ensures Reduce(f + [x]) == if f == [] then Some(x) else Some(Longer(Reduce(f).value, x))
  {
    assert (f + [x])[..|f|] == f;
  }

  /**
   * Filtering by coverage and then reducing picks the governing grant of
   * `path` among all of `grants`, and finds nothing only when no grant
   * covers `path`.
   */
  lemma {:induction false} GoverningGrant(grants: seq<Access>, path: string)
    ensures Reduce(CoverFilter(grants, path)).None? <==> forall a :: a in grants ==> !Covers(a, path)
    ensures Reduce(CoverFilter(grants, path)).Some? ==>
      exists k :: GoverningAt(grants, path, k) && grants[k] == Reduce(CoverFilter(grants, path)).value
  {
    if grants != [] {
      var n := |grants|;
      var init, x := grants[..n - 1], grants[n - 1];
      assert grants == init + [x];
      GoverningGrant(init, path);
      var f := CoverFilter(init, path);
      if !Covers(x, path) {
        assert CoverFilter(grants, path) == f;
        if f != [] {
          var k :| GoverningAt(init, path, k) && init[k] == Reduce(f).value;
          GoverningSkip(init, x, path, k);
        }
      } else {
        assert CoverFilter(grants, path) == f + [x];
        ReduceSnoc(f, x);
        if f == [] {
          GoverningTakeOver(init, x, path);
        } else {
          var acc := Reduce(f).value;
          var k :| GoverningAt(init, path, k) && init[k] == acc;
          if |acc.dir| > |x.dir| {
            GoverningKeep(init, x, path, k);
          } else {
            GoverningTakeOver(init, x, path);
          }
        }
      }
    }
  }

  /**
   * The write filter runs before the longest-prefix reduction, so a shorter
   * write grant allows writing beneath a longer read-only grant.
   */
  lemma WriteFilterRunsFirst()
    ensures var grants := [Access("1", "u", "a", true), Access("2", "u", "a/b", false)];
      && CheckAccess(grants, "a/b", true)
      && Reduce(CoverFilter(grants, "a/b")) == Some(grants[1])
  {
    var grants := [Access("1", "u", "a", true), Access("2", "u", "a/b", false)];
    assert Covers(grants[0], "a/b") && Covers(grants[1], "a/b");
    assert CoverFilter(grants[..1], "a/b") == [grants[0]];
    assert CoverFilter(grants, "a/b") == [grants[0], grants[1]];
    assert [grants[0], grants[1]][..1] == [grants[0]];
  }

  /**
   * Precedence by depth: read-only on "a" and write on "a/b" allow writing
   * "a/b/c" but only reading "a/x".
   */
  lemma DeeperWriteGrant()
    ensures var grants := [Access("1", "u", "a", false), Access("2", "u", "a/b", true)];
      && CheckAccess(grants, "a/b/c", true)
      && CheckAccess(grants, "a/x", false) && !CheckAccess(grants, "a/x", true)
  {
    var grants := [Access("1", "u", "a", false), Access("2", "u", "a/b", true)];
    assert Covers(grants[1], "a/b/c");
    assert Covers(grants[0], "a/x");
    assert !Covers(grants[1], "a/x") by {
      assert "a/x"[2] != "a/b"[2];
    }
  }
}
