# Cloud access control of the profidev-io backend, in Dafny

This project models the authorisation core of the backend's cloud file store.
The store keeps files in a directory tree. Each user holds access grants
`{dir, write}` from the `cloud` collection. The core decides what a request
may do. It has five parts:

- `Permissions` (`permissions.dfy`): the coarse permission mask that the
  authentication middleware attaches to every request. It also holds the
  `has_permissions` bit test.
- `Paths` (`paths.dfy`): the string handling on request paths. That is
  `starts_with`, `split('/')`, `join("/")`, and the parent directory that
  `split`/`take(count - 1)`/`join` computes.
- `Grants` (`grants.dfy`): `check_access`. It filters a user's grants by the
  requested kind of access, then by raw-prefix coverage of the target
  directory. It reduces the survivors to the longest one and reports whether
  anything survived.
- `Cloud` (`cloud.dfy`): `check_permissions`, the gate of the file
  endpoints. It checks the Cloud bit first. It then checks grant access on the
  governing directory, with an admin override. This module also holds the
  `(is_dir, write)` flags each endpoint passes, and the target path of a
  rename.
- `Listing` (`listing.dfy`): `check_files_access`, the loop that builds the
  visible part of a directory listing. It also holds the `get_dir_files`
  endpoint around it.

`Wrappers` (`wrappers.dfy`) holds Rust's `Option`.

Everything is a pure function over sequences, strings and 32-bit masks,
except the listing loop. That loop pushes onto a local vector in the source,
so here it is a method with a `while` loop. The method is proved equal to the
specification function `Listing`, and the lemmas about `Listing` give its
meaning.

Inputs that the source reads from the request or from outside services are
parameters:

- the `Permissions` header is a `bv32` mask, the bit pattern of the `i32`;
- the caller's grant records are a `seq<Access>`;
- the result of `is_admin` is a `bool`;
- the `path` and `new_name` parameters are strings;
- the children that `read_dir` found are a `seq<CloudFileTemp>`, or `None`
  when the directory could not be read.

Strings are `seq<char>`. Rust compares bytes of UTF-8. UTF-8 is a prefix-free
code, so "is a byte prefix" and "is a character prefix" agree for valid
strings. `len()` counts bytes, but the model compares lengths only among
prefixes of one and the same string, where byte order and character order
agree.

## Behaviour as coded

The model follows the code. These points are easy to get wrong, and each is
proved:

- Coverage is a raw string prefix, not a path-segment test. A grant on `ab`
  covers `abc`, and a grant on the empty string covers everything
  (`Grants.PrefixIsNotSegmentAware`, `Grants.EmptyDirCoversAll`).
- `check_access` drops non-write grants before it picks the longest prefix.
  So a shorter write grant allows writing beneath a longer read-only grant
  (`Grants.WriteFilterRunsFirst`). The longest-prefix reduction never changes
  the answer (`Grants.CheckAccess`).
- Among equally long covering grants, the later one in the list wins
  (`Grants.GoverningGrant`).
- `create_dir` and `rename_file` pass `is_dir = false`. They are therefore
  authorised against the parent of the path. Only `delete_dir` is authorised
  against the path itself (`Cloud.Authorize`).
- `get_dir_files` checks only the Cloud bit. No grant is consulted for the
  listed directory itself (`Listing.GetDirFiles`).
- A rename of a path without `/` targets `"/" + new_name` (`Cloud.RenamePath`).
- The Admin mask (0) passes every mask check, but adding any bit to it can
  lose permissions (`Permissions.AdminMaskNotMonotone`).

## Model

| member | source | states |
|---|---|---|
| Permissions.Value | src/permissions.rs:3-9 | `Admin` is the only permission whose value is 0, and every value fits in the low four bits |
| Permissions.FeatureBitsDisjoint | src/permissions.rs:4-8 | two different permissions share no bit, so each feature area is tested on its own |
| Permissions.HasPermissions | src/permissions.rs:11-14 | a check passes iff the mask is `Admin` (0) or no requested bit lies outside the mask |
| Permissions.AdminMaskPassesAll | src/permissions.rs:13 | the `Admin` mask passes every request |
| Permissions.AdminRequestAlwaysPasses | src/permissions.rs:4-13 | requesting the `Admin` value (no bits) passes for every mask |
| Permissions.CombinedRequest | src/permissions.rs:13 | for a non-admin mask, a request for the union of two bit sets passes iff the request for each set passes |
| Permissions.MoreBitsKeepPassing | src/permissions.rs:13 | for a non-admin mask, holding more bits never turns a pass into a failure |
| Permissions.AdminMaskNotMonotone | src/permissions.rs:13 | the exception: the `Admin` mask passes `Cloud`, but the `Admin` mask with the `Metrics` bit added fails it |
| Permissions.MaskExamples | src/permissions.rs:5-13 | mask 4 passes `Cloud` and fails `Metrics`; mask 6 passes both |
| Paths.Split | src/cloud.rs:164 | `split('/')` always yields at least one piece, and no piece contains the separator |
| Paths.JoinSplit | src/cloud.rs:164 | joining the pieces of a split with the same separator gives back the original string |
| Paths.SplitLast | src/cloud.rs:164 | splitting `p + "/" + t`, where `t` has no `/`, gives the pieces of `p` followed by `t` |
| Paths.ParentOfChild | src/cloud.rs:164 | the parent of `p + "/" + t`, where `t` has no `/`, is exactly `p` |
| Paths.ParentOfName | src/cloud.rs:164 | a path without `/` has the empty parent |
| Paths.Parent | src/cloud.rs:164 | `split`/`take(count - 1)`/`join` on `/`; its meaning is proved in `Paths.ParentSpec` |
| Paths.ParentSpec | src/cloud.rs:164 | the parent is everything before the last `/`, or the empty string when there is no `/` |
| Paths.ParentIsPrefix | src/cloud.rs:164 | the parent of a path is a string prefix of it |
| Grants.Covers | src/cloud.rs:179 | `starts_with`: a grant covers a path iff its directory is no longer than the path and equals the path's leading characters |
| Grants.WriteFilter | src/cloud.rs:178 | keeps exactly the grants that allow the requested kind: all of them for a read, the write grants for a write |
| Grants.CoverFilter | src/cloud.rs:179 | keeps exactly the grants whose directory is a raw prefix of the target |
| Grants.Reduce | src/cloud.rs:180 | the reduction is empty iff its input is; otherwise it returns an input grant whose directory is at least as long as every other |
| Grants.CheckAccess | src/cloud.rs:174-182 | access is granted iff some grant covers the directory and, for a write, allows writing |
| Grants.WriteImpliesRead | src/cloud.rs:178 | write access to a directory implies read access with the same grants |
| Grants.ReadIgnoresWriteFlag | src/cloud.rs:178 | the read check gives the same answer for two grant lists that differ only in their write flags |
| Grants.MoreGrantsNeverRevoke | src/cloud.rs:177-181 | adding grants, before or after the existing ones, never revokes access |
| Grants.AccessExtendsToLongerPaths | src/cloud.rs:179 | access to a directory extends to every string that it is a prefix of |
| Grants.EmptyDirCoversAll | src/cloud.rs:179 | a grant on the empty directory gives read access everywhere, and write access everywhere if it is a write grant |
| Grants.PrefixIsNotSegmentAware | src/cloud.rs:179 | a grant on `ab` covers `abc`: coverage does not respect `/` boundaries |
| Grants.GoverningGrant | src/cloud.rs:179-180 | coverage filtering followed by the reduction finds nothing iff no grant covers the path; otherwise it finds the longest covering grant, the later one among equally long ones |
| Grants.WriteFilterRunsFirst | src/cloud.rs:177-180 | with write on `a` and read-only on `a/b`, writing to `a/b` is allowed although the longest covering grant is read-only |
| Grants.DeeperWriteGrant | src/cloud.rs:177-181 | with read-only on `a` and write on `a/b`, `a/b/c` is writable, and `a/x` is readable but not writable |
| Cloud.GoverningDir | src/cloud.rs:161-165 | a directory operation is authorised against the path itself; a file operation against everything before the last `/`, or `""`; either way a prefix of the path |
| Cloud.CheckPermissions | src/cloud.rs:155-172 | refuses with 403 whenever the Cloud bit is missing, before any grant lookup; otherwise refuses iff neither the grant check on the governing directory nor the admin flag allows it; on success returns the path and its governing directory |
| Cloud.AdminAlwaysGranted | src/cloud.rs:156-171 | an `Admin` mask with the admin flag passes the gate whatever its grants |
| Cloud.GrantedCoversPath | src/cloud.rs:161-171 | a non-admin request that passes the gate holds a grant of the requested kind on the path itself, not only on its parent |
| Cloud.RenamePath | src/cloud.rs:150 | the new path is the old path up to and including its last `/`, then the new name; it is `"/" + name` when the old path has no `/` |
| Cloud.RenameKeepsDirectory | src/cloud.rs:150 | renaming to a name without `/` keeps the file in the same parent directory |
| Cloud.RenameTargetCovered | src/cloud.rs:143-150 | the grant that authorised a rename, on the parent of the old path, also covers the new path, whatever the new name |
| Cloud.Flags | src/cloud.rs:67-144 | only `delete_dir` passes `is_dir = true`, and exactly the endpoints that change the store (all but `download_file` and `check_if_exists`) pass `write = true` |
| Cloud.Authorize | src/cloud.rs:66-147 | an endpoint's decision is the gate's decision on its own flags: it is granted iff the mask holds the Cloud bit and the caller is an admin or holds a grant on the governing directory (the path for `delete_dir`, the parent otherwise), a write grant exactly for the endpoints that change the store and a read grant for downloads and existence checks; a granted non-admin request therefore holds such a grant on the path itself |
| Listing.ChildPath | src/cloud.rs:190 | the child path extends the listed directory and ends with the child's name, and for a name without `/` its parent is the listed directory again |
| Listing.OptionIter | src/cloud.rs:200 | iterating an `Option` yields at most one grant, and exactly the one it holds |
| Listing.Entry | src/cloud.rs:190-206 | one pass of the loop as written; its meaning is proved in `Listing.EntrySpec` and `Listing.DescendantBranchNeverAdds` |
| Listing.Listing | src/cloud.rs:188-208 | the entries the loop returns, in order; its meaning is proved in `Listing.ListingSpec`, `Listing.ListingKept` and `Listing.ListingAdmin` |
| Listing.DescendantFilter | src/cloud.rs:201 | keeps exactly the grants whose directory starts with the child path |
| Listing.CheckFilesAccess | src/cloud.rs:184-209 | the loop returns exactly the listing `Listing` of the children, built one child at a time |
| Listing.EntrySpec | src/cloud.rs:190-206 | one pass adds at most one entry; it adds one iff the caller is an admin or a grant covers `dir + "/" + name`; the entry keeps the child's name and kind, and is writable for an admin and otherwise carries the write flag of the governing grant |
| Listing.DescendantBranchNeverAdds | src/cloud.rs:197-206 | when no grant covers the child path, a non-admin gets no entry, even if a grant lies beneath the child |
| Listing.ListingKept | src/cloud.rs:188-208 | the listing has one entry per kept child, in input order, each being that child's entry |
| Listing.KeptPositions | src/cloud.rs:188-208 | the kept children are, in increasing order, exactly the positions whose pass adds an entry |
| Listing.ListingSpec | src/cloud.rs:188-208 | the listing is an order-preserving selection of exactly the visible children, each with its own name and kind and the write flag of its governing grant (always set for an admin) |
| Listing.ListingAdmin | src/cloud.rs:195-196 | an admin sees every child, in input order, as writable |
| Listing.GetDirFiles | src/cloud.rs:50-64 | refuses with 403 without the Cloud bit and with 410 when the directory cannot be read; otherwise returns exactly the listing of its children that `check_files_access` builds (`Listing.Listing`, characterised by `Listing.ListingSpec`), without any grant check on the directory itself, and never longer than the directory |
| Listing.HiddenDescendantExample | src/cloud.rs:200-205 | as written, with a grant on `a/b/c` only, listing `a` does not show `b` |
| Listing.HiddenRootChildExample | src/cloud.rs:190 | as written, a grant on `docs` allows reading `docs`, yet listing the root does not show `docs` |
| Listing.IntendedChildPath | src/cloud.rs:190 | the corrected child path extends the listed directory and ends with the child's name; for a name without `/` its parent is the listed directory, and at the root it starts with `/` only if the name does |
| Listing.IntendedEntrySpec | src/cloud.rs:190-206 | corrected pass: a child the read check admits is shown with its governing grant's write flag; a child with a grant only beneath it is shown read-only; any other child is hidden from a non-admin |
| Listing.IntendedRootListing | src/cloud.rs:190 | corrected pass: at the root, every child whose bare name the read check admits is shown |
| Listing.IntendedExamples | src/cloud.rs:190-205 | the corrected pass shows both children that the code as written hides |

## Findings

| source | as written | input that shows it | evidently intended | confidence | as-written member | corrected member |
|---|---|---|---|---|---|---|
| src/cloud.rs:200-205 | the descendant search calls `iter()` on the `Option` bound at line 191, which is `None` in that branch, so the branch never adds an entry | one grant on `a/b/c`; list `a`, which has a child directory `b`: the listing is empty | search the caller's grant list, so that `b` is shown read-only | high; not executed | Listing.HiddenDescendantExample | Listing.IntendedEntrySpec |
| src/cloud.rs:190 | the child path is `dir + "/" + name` even when `dir` is empty, so every root child's path starts with `/` | one grant on `docs`; list the root (`dir = ""`), which has a child `docs`: the listing is empty, although `check_access` allows reading `docs` | use the bare name at the root, so that the listing agrees with `check_access` | medium (the routes that reach `get_dir_files` are not in the source); not executed | Listing.HiddenRootChildExample | Listing.IntendedRootListing |

The loop `Listing.CheckFilesAccess` and the functions `Listing.Entry` and
`Listing.Listing` keep the code's behaviour, because that is what the service
returns. The corrected pass is `Listing.IntendedEntry`.

## Left out

- Filesystem effects are not modelled: `read_dir`, `create_dir_all`, `write`, `read`, `remove_file`, `remove_dir_all`, `rename` and `metadata`. They are I/O. The listing takes the enumerated children as input, and `read_dir` failing is `None`.
- Gzip compression and decompression (flate2) are not modelled. They are a foreign library, so the store's round trip cannot be stated from this source.
- The PocketBase client is not modelled. That includes the record query with its `perPage=100` cap, the `user='…'` filter string, record creation, update and deletion, and token refresh. These are network calls. A user's grants are a given list, assumed already restricted to that user.
- The grant management endpoints `get_access`, `create_access`, `delete_access` and `update_access` are not modelled. Their only logic is a mask check against `Permissions::CloudManage`, which the permissions file does not define. The rest is REST calls.
- `is_admin` is not modelled. It is imported from the permissions module but not defined there, so the model takes it as a boolean input.
- Panics from `unwrap()` on a missing or unparsable `Permissions` or `User` header are not modelled. Neither are panics from a failed grant query or a failed gzip step. The model starts from a parsed mask and a fetched grant list.
- The token-validating middleware is not modelled. It is a network call that produces the mask.
- The metrics, image and iframe proxies, user management and routing are not modelled. They are outside this core.
- Concurrency is not modelled: the shared PocketBase token lock and races between concurrent file operations.
- Archive building and direct links are not part of this model. They do not appear in the source files.
- The handlers' work after the gate is not modelled: reading the request body, compressing and storing. Only the gate decision (`Cloud.Authorize`) and the rename target are modelled.
