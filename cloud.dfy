/**
 * The authorisation gate of the file endpoints in src/cloud.rs
 * (`check_permissions`, src/cloud.rs:155-172), the flags each endpoint
 * passes to it, and the target of a rename (src/cloud.rs:150).
 */
module Cloud {
  import opened Paths
  import opened Permissions
  import opened Grants

  /** The HTTP status of a refusal: 403 Forbidden. */
  const Forbidden: nat := 403

  /** What `check_permissions` returns: `Ok((path, dir))` or `Err(response)`. */
  datatype Decision = Granted(path: string, dir: string) | Denied(status: nat)

  /**
   * The directory a request is authorised against: the path itself for a
   * directory operation, otherwise its parent (src/cloud.rs:161-165).
   */
  function GoverningDir(path: string, isDir: bool): (dir: string)
    ensures isDir ==> dir == path
    ensures !isDir ==> dir == if LastSlash(path) < 0 then "" else path[..LastSlash(path)]
    ensures StartsWith(path, dir)
  {
    ParentSpec(path);
    if isDir then path else Parent(path)
  }

  /**
   * `check_permissions`. `mask` is the `Permissions` header, `grants` the
   * caller's records of the `cloud` collection and `isAdmin` the answer of
   * `is_admin`; `path` is the `path` parameter of the request.
   */
  function CheckPermissions(mask: Mask, grants: seq<Access>, isAdmin: bool,
                            path: string, isDir: bool, write: bool): (d: Decision)
    ensures !HasPermissions(mask, Value(Cloud)) ==> d == Denied(Forbidden)
    ensures HasPermissions(mask, Value(Cloud)) ==>
      (d.Denied? <==> !CheckAccess(grants, GoverningDir(path, isDir), write) && !isAdmin)
    ensures d.Denied? ==> d.status == Forbidden
    ensures d.Granted? ==> d.path == path && d.dir == GoverningDir(path, isDir)
  {
    if !HasPermissions(mask, Value(Cloud)) then Denied(Forbidden)
    else
      var dir := GoverningDir(path, isDir);
      if !CheckAccess(grants, dir, write) && !isAdmin then Denied(Forbidden)
      else Granted(path, dir)
  }

  /**
   * A request with the `Admin` mask and the admin flag passes the gate
   * whatever its grants.
   */
  lemma AdminAlwaysGranted(grants: seq<Access>, path: string, isDir: bool, write: bool)
    ensures CheckPermissions(Value(Admin), grants, true, path, isDir, write).Granted?
  {
    AdminMaskPassesAll(Value(Cloud));
  }

  /**
   * A granted non-admin request is covered by a grant of the requested
   * kind on the path itself, not only on its parent.
   */
  lemma GrantedCoversPath(mask: Mask, grants: seq<Access>, path: string, isDir: bool, write: bool)
    requires CheckPermissions(mask, grants, false, path, isDir, write).Granted?
    ensures CheckAccess(grants, path, write)
  {
    AccessExtendsToLongerPaths(grants, GoverningDir(path, isDir), path, write);
  }

  /**
   * The new path of `rename_file`: the parent of `path`, a `/`, and the
   * new name (src/cloud.rs:150). The `/` is there even when the parent is
   * empty.
   */
  function RenamePath(path: string, newName: string): (newPath: string)
    ensures LastSlash(path) < 0 ==> newPath == "/" + newName
    ensures LastSlash(path) >= 0 ==> newPath == path[..LastSlash(path) + 1] + newName
  {
    ParentSpec(path);
    var parts := Split(path, '/');
    Join(parts[..|parts| - 1], '/') + "/" + newName
  }

  /** A rename to a name without `/` keeps the file in its directory. */
  lemma RenameKeepsDirectory(path: string, newName: string)
    requires '/' !in newName
    ensures Parent(RenamePath(path, newName)) == Parent(path)
  {
    assert RenamePath(path, newName) == Parent(path) + "/" + newName;
    ParentOfChild(Parent(path), newName);
  }

  /**
   * The grant that authorised a rename (one on the parent of `path`)
   * also covers the new path, whatever the new name is.
   */
  lemma RenameTargetCovered(grants: seq<Access>, path: string, newName: string, write: bool)
    requires CheckAccess(grants, Parent(path), write)
    ensures CheckAccess(grants, RenamePath(path, newName), write)
  {
    assert RenamePath(path, newName) == Parent(path) + "/" + newName;
    AccessExtendsToLongerPaths(grants, Parent(path), RenamePath(path, newName), write);
  }

  /** The file endpoints that go through `check_permissions`. */
  datatype Endpoint =
    | UploadFile | DownloadFile | CheckIfExists | CreateDir
    | DeleteFile | DeleteDir | RenameFile

  /** Whether the endpoint changes the store. */
  predicate Mutates(e: Endpoint) {
    !e.DownloadFile? && !e.CheckIfExists?
  }

  /** The `is_dir` and `write` arguments a handler passes to `check_permissions`. */
  datatype GateFlags = GateFlags(isDir: bool, write: bool)

  /** The flags of each handler (src/cloud.rs:67-144). */
  function Flags(e: Endpoint): (f: GateFlags)
    ensures f.isDir <==> e == DeleteDir
    ensures f.write <==> Mutates(e)
  {
    match e
    case UploadFile => GateFlags(false, true)
    case DownloadFile => GateFlags(false, false)
    case CheckIfExists => GateFlags(false, false)
    case CreateDir => GateFlags(false, true)
    case DeleteFile => GateFlags(false, true)
    case DeleteDir => GateFlags(true, true)
    case RenameFile => GateFlags(false, true)
  }

  /** The gate as one endpoint runs it. */
  function Authorize(e: Endpoint, mask: Mask, grants: seq<Access>, isAdmin: bool, path: string): (d: Decision)
    ensures d == CheckPermissions(mask, grants, isAdmin, path, e == DeleteDir, Mutates(e))
    ensures d.Granted? <==>
      (HasPermissions(mask, Value(Cloud)) &&
       (isAdmin || CheckAccess(grants, if e == DeleteDir then path else Parent(path), Mutates(e))))
    ensures d.Granted? && !isAdmin ==> CheckAccess(grants, path, Mutates(e))
    ensures d.Granted? ==> d.dir == (if e == DeleteDir then path else Parent(path))
  {
    var flags := Flags(e);
    var d := CheckPermissions(mask, grants, isAdmin, path, flags.isDir, flags.write);
    if d.Granted? && !isAdmin then
      GrantedCoversPath(mask, grants, path, flags.isDir, flags.write);
      d
    else d
  }
}
