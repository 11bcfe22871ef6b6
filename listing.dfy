/**
 * Listing visibility (`check_files_access`, src/cloud.rs:184-209) and the
 * listing endpoint around it (`get_dir_files`, src/cloud.rs:50-64). The
 * directory's children come in as a sequence, in the order the filesystem
 * enumerated them.
 */
module Listing {
  import opened Wrappers
  import opened Paths
  import opened Permissions
  import opened Grants

  /** A child as read from the directory (src/cloud.rs:245-248). */
  datatype CloudFileTemp = CloudFileTemp(name: string, dir: bool)

  /** A child as returned to the caller (src/cloud.rs:251-255). */
  datatype CloudFile = CloudFile(name: string, dir: bool, write: bool)

  /** `format!("{}/{}", dir, file.name)`: the separator is there even when `dir` is empty. */
  function ChildPath(dir: string, name: string): (path: string)
    ensures StartsWith(path, dir) && |name| <= |path| && path[|path| - |name|..] == name
    ensures '/' !in name ==> Parent(path) == dir
  {
    if '/' !in name then ParentOfChild(dir, name); dir + "/" + name
    else dir + "/" + name
  }

  /** `Option::iter`: no element for `None`, one for `Some`. */
  function OptionIter(o: Option<Access>): (r: seq<Access>)
    ensures |r| <= 1
    ensures forall a :: a in r <==> o == Some(a)
  {
    match o
    case None => []
    case Some(a) => [a]
  }

  /** `.filter(|a| a.dir.starts_with(&path))`: grants at or beneath `path`. */
  function DescendantFilter(grants: seq<Access>, path: string): (r: seq<Access>)
    ensures forall a :: a in r <==> a in grants && StartsWith(a.dir, path)
  {
    if grants == [] then []
    else
      var last := grants[|grants| - 1];
      DescendantFilter(grants[..|grants| - 1], path) + (if StartsWith(last.dir, path) then [last] else [])
  }

  /**
   * What one pass of the loop appends for `file` (src/cloud.rs:190-206).
   * The descendant branch searches `access.iter()`, where `access` is the
   * `Option` of line 191 that is `None` in that branch, as written.
   */
  function Entry(grants: seq<Access>, isAdmin: bool, dir: string, file: CloudFileTemp): seq<CloudFile> {
    var path := ChildPath(dir, file.name);
    var access := Reduce(CoverFilter(grants, path));
    if isAdmin then [CloudFile(file.name, file.dir, true)]
    else if access.Some? then [CloudFile(file.name, file.dir, access.value.write)]
    else
      var childAccess := Reduce(DescendantFilter(OptionIter(access), path));
      if childAccess.Some? then [CloudFile(file.name, file.dir, false)] else []
  }

  /** The entries `check_files_access` returns for `files`, in order. */
  function Listing(grants: seq<Access>, isAdmin: bool, files: seq<CloudFileTemp>, dir: string): seq<CloudFile> {
    if files == [] then []
    else Listing(grants, isAdmin, files[..|files| - 1], dir) + Entry(grants, isAdmin, dir, files[|files| - 1])
  }

  /** The loop of `check_files_access`, pushing onto `final_files`. */
  method CheckFilesAccess(grants: seq<Access>, isAdmin: bool, files: seq<CloudFileTemp>, dir: string)
    returns (finalFiles: seq<CloudFile>)
    ensures finalFiles == Listing(grants, isAdmin, files, dir)
  {
    finalFiles := [];
    var i := 0;
    while i < |files|
      invariant 0 <= i <= |files|
      invariant finalFiles == Listing(grants, isAdmin, files[..i], dir)
    {
      var file := files[i];
      var fileNameFormat := dir + "/" + file.name;
      var access := Reduce(CoverFilter(grants, fileNameFormat));
      if isAdmin {
        finalFiles := finalFiles + [CloudFile(file.name, file.dir, true)];
      } else if access.Some? {
        finalFiles := finalFiles + [CloudFile(file.name, file.dir, access.value.write)];
      } else {
        var childAccess := Reduce(DescendantFilter(OptionIter(access), fileNameFormat));
        if childAccess.Some? {
          finalFiles := finalFiles + [CloudFile(file.name, file.dir, false)];
        }
      }
      assert files[..i + 1][..i] == files[..i];
      i := i + 1;
    }
    assert files[..|files|] == files;
  }

  /** A child is listed: the caller is an admin or a grant covers its child path. */
  ghost predicate Visible(grants: seq<Access>, isAdmin: bool, dir: string, name: string) {
    isAdmin || exists a :: a in grants && Covers(a, ChildPath(dir, name))
  }

  /**
   * The write flag shown for a listed entry: always set for an admin,
   * otherwise that of the governing grant of its child path (the longest
   * covering grant, the later one among equally long ones).
   */
  ghost predicate ShownWrite(grants: seq<Access>, isAdmin: bool, dir: string, e: CloudFile) {
    if isAdmin then e.write
    else exists k :: GoverningAt(grants, ChildPath(dir, e.name), k) && grants[k].write == e.write
  }

  /** One pass adds one entry for a visible child, with its name, kind and write flag, and none otherwise. */
  lemma EntrySpec(grants: seq<Access>, isAdmin: bool, dir: string, file: CloudFileTemp)
    ensures |Entry(grants, isAdmin, dir, file)| <= 1
    ensures |Entry(grants, isAdmin, dir, file)| == 1 <==> Visible(grants, isAdmin, dir, file.name)
    ensures |Entry(grants, isAdmin, dir, file)| == 1 ==>
      var e := Entry(grants, isAdmin, dir, file)[0];
      e.name == file.name && e.dir == file.dir && ShownWrite(grants, isAdmin, dir, e)
  {
    GoverningGrant(grants, ChildPath(dir, file.name));
  }

  /**
   * The listing never shows a child that no grant covers, even when a
   * grant lies beneath it: the descendant branch adds nothing.
   */
  lemma DescendantBranchNeverAdds(grants: seq<Access>, dir: string, file: CloudFileTemp)
    requires forall a :: a in grants ==> !Covers(a, ChildPath(dir, file.name))
    ensures Entry(grants, false, dir, file) == []
  {
    EntrySpec(grants, false, dir, file);
  }

  /** The positions in `flags` that hold `true`, in increasing order. */
  ghost function Positions(flags: seq<bool>): seq<int> {
    if flags == [] then []
    else
      var n := |flags| - 1;
      Positions(flags[..n]) + (if flags[n] then [n] else [])
  }

  /** `Positions` lists, in increasing order, exactly the positions that hold `true`. */
  lemma {:induction false} PositionsSpec(flags: seq<bool>)
    ensures var idx := Positions(flags);
      && (forall k :: 0 <= k < |idx| ==> 0 <= idx[k] < |flags|)
      && (forall k, l :: 0 <= k < l < |idx| ==> idx[k] < idx[l])
      && (forall i :: 0 <= i < |flags| ==> (i in idx <==> flags[i]))
  {
    if flags != [] {
      var n := |flags| - 1;
      PositionsSpec(flags[..n]);
      var idxI := Positions(flags[..n]);
      assert n !in idxI;
      forall i | 0 <= i < n
        ensures i in Positions(flags) <==> flags[i]
      {
        assert flags[..n][i] == flags[i];
      }
    }
  }

  /** Whether the pass for each child adds an entry. */
  ghost function Adds(grants: seq<Access>, isAdmin: bool, files: seq<CloudFileTemp>, dir: string): (flags: seq<bool>)
    ensures |flags| == |files|
    ensures forall i :: 0 <= i < |files| ==> flags[i] == (Entry(grants, isAdmin, dir, files[i]) != [])
  {
    seq(|files|, i requires 0 <= i < |files| => Entry(grants, isAdmin, dir, files[i]) != [])
  }

  /** The positions in `files` of the children that get an entry, in increasing order. */
  ghost function Kept(grants: seq<Access>, isAdmin: bool, files: seq<CloudFileTemp>, dir: string): seq<int> {
    Positions(Adds(grants, isAdmin, files, dir))
  }

  /** `Kept` holds, in increasing order, exactly the positions whose pass adds an entry. */
  lemma KeptPositions(grants: seq<Access>, isAdmin: bool, files: seq<CloudFileTemp>, dir: string)
    ensures var idx := Kept(grants, isAdmin, files, dir);
      && (forall k :: 0 <= k < |idx| ==> 0 <= idx[k] < |files|)
      && (forall k, l :: 0 <= k < l < |idx| ==> idx[k] < idx[l])
      && (forall i :: 0 <= i < |files| ==> (i in idx <==> Entry(grants, isAdmin, dir, files[i]) != []))
  {
    PositionsSpec(Adds(grants, isAdmin, files, dir));
  }

  /** The listing is the entries of the kept children, in their input order. */
  lemma {:induction false} ListingKept(grants: seq<Access>, isAdmin: bool, files: seq<CloudFileTemp>, dir: string)
    ensures var out, idx := Listing(grants, isAdmin, files, dir), Kept(grants, isAdmin, files, dir);
      && |out| == |idx|
      && (forall k :: 0 <= k < |idx| ==> 0 <= idx[k] < |files| && [out[k]] == Entry(grants, isAdmin, dir, files[idx[k]]))
  {
    if files != [] {
      var n := |files| - 1;
      var init := files[..n];
      ListingKept(grants, isAdmin, init, dir);
      var outI, idxI := Listing(grants, isAdmin, init, dir), Kept(grants, isAdmin, init, dir);
      var e := Entry(grants, isAdmin, dir, files[n]);
      var out, idx := Listing(grants, isAdmin, files, dir), Kept(grants, isAdmin, files, dir);
      assert out == outI + e;
      assert Adds(grants, isAdmin, files, dir)[..n] == Adds(grants, isAdmin, init, dir);
      assert idx == idxI + (if e != [] then [n] else []);
      forall k | 0 <= k < |idx|
        ensures 0 <= idx[k] < |files| && [out[k]] == Entry(grants, isAdmin, dir, files[idx[k]])
      {
        if k < |idxI| {
          assert out[k] == outI[k] && idx[k] == idxI[k];
          assert files[idx[k]] == init[idx[k]];
        } else {
          assert out[k] == e[0] && idx[k] == n;
        }
      }
    }
  }

  /**
   * The listing of `files`: an order-preserving selection of exactly the
   * visible children, each with its own name and kind and the write flag
   * of its governing grant (always set for an admin).
   */
  lemma ListingSpec(grants: seq<Access>, isAdmin: bool, files: seq<CloudFileTemp>, dir: string)
    ensures var out, idx := Listing(grants, isAdmin, files, dir), Kept(grants, isAdmin, files, dir);
      && |out| == |idx|
      && (forall k, l :: 0 <= k < l < |idx| ==> 0 <= idx[k] < idx[l] < |files|)
      && (forall i :: 0 <= i < |files| ==> (i in idx <==> Visible(grants, isAdmin, dir, files[i].name)))
      && (forall k :: 0 <= k < |idx| ==>
            (0 <= idx[k] < |files|
             && out[k].name == files[idx[k]].name && out[k].dir == files[idx[k]].dir
             && ShownWrite(grants, isAdmin, dir, out[k])))
  {
    ListingKept(grants, isAdmin, files, dir);
    KeptPositions(grants, isAdmin, files, dir);
    forall i | 0 <= i < |files| {
      EntrySpec(grants, isAdmin, dir, files[i]);
    }
  }

  /** An admin sees every child, in order, as writable. */
  lemma {:induction false} ListingAdmin(grants: seq<Access>, files: seq<CloudFileTemp>, dir: string)
    ensures |Listing(grants, true, files, dir)| == |files|
    ensures forall i :: 0 <= i < |files| ==>
      Listing(grants, true, files, dir)[i] == CloudFile(files[i].name, files[i].dir, true)
  {
    if files != [] {
      var n := |files| - 1;
      ListingAdmin(grants, files[..n], dir);
    }
  }

  /** The outcome of `get_dir_files`: the listing, or a refusal with its status. */
  datatype Listed = Listed(files: seq<CloudFile>) | Refused(status: nat)

  /**
   * `get_dir_files`. `children` is what `read_dir` found, `None` when the
   * directory could not be read. Only the `Cloud` bit is checked: no grant
   * is consulted for the listed directory itself.
   */
  function GetDirFiles(mask: Mask, grants: seq<Access>, isAdmin: bool, dir: string,
                       children: Option<seq<CloudFileTemp>>): (r: Listed)
    ensures !HasPermissions(mask, Value(Cloud)) ==> r == Refused(403)
    ensures HasPermissions(mask, Value(Cloud)) && children.None? ==> r == Refused(410)
    ensures HasPermissions(mask, Value(Cloud)) && children.Some? ==> r.Listed?
    ensures HasPermissions(mask, Value(Cloud)) && children.Some? ==>
      r == Listed(Listing(grants, isAdmin, children.value, dir))
    ensures r.Listed? ==> |r.files| <= |children.value|
  {
    if !HasPermissions(mask, Value(Cloud)) then Refused(403)
    else if children.None? then Refused(410)
    else
      var files := Listing(grants, isAdmin, children.value, dir);
      ListingSpec(grants, isAdmin, children.value, dir);
      KeptBound(Kept(grants, isAdmin, children.value, dir), |children.value|);
      Listed(files)
  }

  /** A strictly increasing sequence of positions below `n` has at most `n` elements. */
  lemma {:induction false} KeptBound(idx: seq<int>, n: nat)
    requires forall k, l :: 0 <= k < l < |idx| ==> 0 <= idx[k] < idx[l] < n
    requires forall k :: 0 <= k < |idx| ==> 0 <= idx[k] < n
    ensures |idx| <= n
  {
    if idx != [] {
      var last := idx[|idx| - 1];
      KeptBound(idx[..|idx| - 1], last);
    }
  }

  // The two behaviours below are the code as written; the intended
  // counterparts follow them.

  /**
   * A child with a grant only beneath it is hidden: with a grant on
   * "a/b/c" alone, listing "a" does not show "b".
   */
  lemma HiddenDescendantExample()
    ensures Listing([Access("1", "u", "a/b/c", true)], false, [CloudFileTemp("b", true)], "a") == []
  {
    var grants := [Access("1", "u", "a/b/c", true)];
    var file := CloudFileTemp("b", true);
    assert ChildPath("a", "b") == "a/b";
    assert !Covers(grants[0], "a/b");
    DescendantBranchNeverAdds(grants, "a", file);
    assert [file][..0] == [];
  }

  /**
   * At the root the child path starts with "/": a grant on "docs" lets
   * the caller read "docs", yet listing the root does not show "docs".
   */
  lemma HiddenRootChildExample()
    ensures CheckAccess([Access("1", "u", "docs", true)], "docs", false)
    ensures Listing([Access("1", "u", "docs", true)], false, [CloudFileTemp("docs", true)], "") == []
  {
    var grants := [Access("1", "u", "docs", true)];
    var file := CloudFileTemp("docs", true);
    assert Covers(grants[0], "docs");
    assert ChildPath("", "docs") == "/docs";
    assert !Covers(grants[0], "/docs") by {
      assert "/docs"[0] != "docs"[0];
    }
    DescendantBranchNeverAdds(grants, "", file);
    assert [file][..0] == [];
  }

  /** The child path the listing evidently means: no leading "/" at the root. */
  function IntendedChildPath(dir: string, name: string): (path: string)
    ensures StartsWith(path, dir) && |name| <= |path| && path[|path| - |name|..] == name
    ensures '/' !in name ==> Parent(path) == dir
    ensures dir == "" ==> !StartsWith(path, "/") || StartsWith(name, "/")
  {
    if dir == "" then
      if '/' !in name then ParentOfName(name); name
      else name
    else ChildPath(dir, name)
  }

  /** One pass of the loop with the descendant branch searching all of the caller's grants. */
  function IntendedEntry(grants: seq<Access>, isAdmin: bool, dir: string, file: CloudFileTemp): seq<CloudFile> {
    var path := IntendedChildPath(dir, file.name);
    var access := Reduce(CoverFilter(grants, path));
    if isAdmin then [CloudFile(file.name, file.dir, true)]
    else if access.Some? then [CloudFile(file.name, file.dir, access.value.write)]
    else
      var childAccess := Reduce(DescendantFilter(grants, path));
      if childAccess.Some? then [CloudFile(file.name, file.dir, false)] else []
  }

  /**
   * The intended listing: every child the read check admits is shown with
   * the write flag of its governing grant, and a child with a grant only
   * beneath it is shown read-only; nothing else is shown to a non-admin.
   */
  lemma IntendedEntrySpec(grants: seq<Access>, dir: string, file: CloudFileTemp)
    ensures var path := IntendedChildPath(dir, file.name);
      && (CheckAccess(grants, path, false) ==>
            |IntendedEntry(grants, false, dir, file)| == 1
            && exists k :: GoverningAt(grants, path, k)
                 && IntendedEntry(grants, false, dir, file)[0] == CloudFile(file.name, file.dir, grants[k].write))
      && (!CheckAccess(grants, path, false) && (exists a :: a in grants && StartsWith(a.dir, path)) ==>
            IntendedEntry(grants, false, dir, file) == [CloudFile(file.name, file.dir, false)])
      && (!CheckAccess(grants, path, false) && (forall a :: a in grants ==> !StartsWith(a.dir, path)) ==>
            IntendedEntry(grants, false, dir, file) == [])
  {
    GoverningGrant(grants, IntendedChildPath(dir, file.name));
  }

  /**
   * At the root, the intended listing shows every child whose bare name
   * the read check admits.
   */
  lemma IntendedRootListing(grants: seq<Access>, file: CloudFileTemp)
    requires CheckAccess(grants, file.name, false)
    ensures IntendedEntry(grants, false, "", file) != []
  {
    IntendedEntrySpec(grants, "", file);
  }

  /** The intended listing shows both children the code as written hides. */
  lemma IntendedExamples()
    ensures IntendedEntry([Access("1", "u", "a/b/c", true)], false, "a", CloudFileTemp("b", true))
      == [CloudFile("b", true, false)]
    ensures IntendedEntry([Access("1", "u", "docs", true)], false, "", CloudFileTemp("docs", true))
      == [CloudFile("docs", true, true)]
  {
    var g1 := [Access("1", "u", "a/b/c", true)];
    assert IntendedChildPath("a", "b") == "a/b";
    assert !Covers(g1[0], "a/b");
    assert StartsWith(g1[0].dir, "a/b");
    IntendedEntrySpec(g1, "a", CloudFileTemp("b", true));
    var g2 := [Access("1", "u", "docs", true)];
    assert IntendedChildPath("", "docs") == "docs";
    assert Covers(g2[0], "docs");
    IntendedEntrySpec(g2, "", CloudFileTemp("docs", true));
  }
}
