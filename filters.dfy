/**
 * Which files take part in a sync: the local scan of the vault and the
 * filter applied to remote listing items.
 */
module Filters {
  import opened Common
  import opened Glob
  import opened Paths
  import opened Records

  /** An entry of the vault as the host reports it. */
  datatype VaultEntry = VaultEntry(path: string, isFolder: bool, size: int, mtime: int)

  const MiB: real := 1048576.0

  /** `allowRemoteItem`: not ignored, extension not excluded, and within the size limit when one is set. */
  predicate AllowRemoteItem(s: Settings, item: RemoteFile) {
    !MatchesIgnore(s.ignorePatterns, item.rel)
    && GetExt(item.rel) !in s.excludeExtensions
    && !(s.maxSizeMB > 0.0 && item.size as real > s.maxSizeMB * MiB)
  }

  /** `remoteListing.filter(allowRemoteItem)`. */
  function FilterRemote(s: Settings, listing: seq<RemoteFile>): (r: seq<RemoteFile>)
    ensures |r| <= |listing|
    ensures forall i :: 0 <= i < |r| ==> r[i] in listing && AllowRemoteItem(s, r[i])
    ensures forall x :: x in listing && AllowRemoteItem(s, x) ==> x in r
  {
    if listing == [] then []
    else
      var rest := FilterRemote(s, listing[..|listing| - 1]);
      var last := listing[|listing| - 1];
      assert listing == listing[..|listing| - 1] + [last];
      if AllowRemoteItem(s, last) then rest + [last] else rest
  }

  /** The tests `listLocalFilesInScope` applies to one vault entry. */
  predicate LocalKept(np: string -> string, s: Settings, f: VaultEntry) {
    var rel := ToLocalRel(np, s.localBasePath, f.path);
    !f.isFolder
    && InScope(np, s.localBasePath, Some(rel), Some(f.path))
    && !MatchesIgnore(s.ignorePatterns, rel)
    && GetExt(rel) !in s.excludeExtensions
    && !(f.size as real > s.maxSizeMB * MiB)
  }

  function LocalRecord(np: string -> string, s: Settings, f: VaultEntry): LocalFile {
    LocalFile(ToLocalRel(np, s.localBasePath, f.path), f.size, f.mtime)
  }

  /** The records of the kept entries, in vault order. */
  function LocalListing(np: string -> string, s: Settings, vault: seq<VaultEntry>): seq<LocalFile> {
    if vault == [] then []
    else
      var rest := LocalListing(np, s, vault[..|vault| - 1]);
      var f := vault[|vault| - 1];
      if LocalKept(np, s, f) then rest + [LocalRecord(np, s, f)] else rest
  }

  /** A local record is listed exactly when some vault entry passes every test and yields it. */
  lemma {:induction false} LocalListingMembers(np: string -> string, s: Settings, vault: seq<VaultEntry>, x: LocalFile)
    ensures x in LocalListing(np, s, vault) <==> exists f :: f in vault && LocalKept(np, s, f) && LocalRecord(np, s, f) == x
  {
    if vault != [] {
      var p := vault[..|vault| - 1];
      var f := vault[|vault| - 1];
      assert vault == p + [f];
      LocalListingMembers(np, s, p, x);
      if x in LocalListing(np, s, vault) && x !in LocalListing(np, s, p) {
        assert LocalKept(np, s, f) && LocalRecord(np, s, f) == x;
      }
      if exists g :: g in vault && LocalKept(np, s, g) && LocalRecord(np, s, g) == x {
        var g :| g in vault && LocalKept(np, s, g) && LocalRecord(np, s, g) == x;
        if g != f {
          assert g in p;
        }
      }
    }
  }

  /** `listLocalFilesInScope`: one pass over the vault, pushing the kept entries. */
  method ListLocalFilesInScope(np: string -> string, s: Settings, vault: seq<VaultEntry>) returns (out: seq<LocalFile>)
    ensures out == LocalListing(np, s, vault)
    ensures |out| <= |vault|
  {
    out := [];
    for i := 0 to |vault|
      invariant out == LocalListing(np, s, vault[..i])
      invariant |out| <= i
    {
      assert vault[..i + 1] == vault[..i] + [vault[i]];
      var f := vault[i];
      if f.isFolder {
        continue;
      }
      var rel := ToLocalRel(np, s.localBasePath, f.path);
      if !InScope(np, s.localBasePath, Some(rel), Some(f.path)) {
        continue;
      }
      if MatchesIgnore(s.ignorePatterns, rel) {
        continue;
      }
      if GetExt(rel) in s.excludeExtensions {
        continue;
      }
      if f.size as real > s.maxSizeMB * MiB {
        continue;
      }
      out := out + [LocalFile(rel, f.size, f.mtime)];
    }
    assert vault[..|vault|] == vault;
  }

  /**
   * With a positive size limit, a file the local scan keeps is exactly one
   * whose remote counterpart (same path and size) passes the remote filter.
   */
  lemma {:induction false} FiltersAgree(np: string -> string, s: Settings, f: VaultEntry, path: string, modified: int, revision: Option<string>)
    requires s.maxSizeMB > 0.0
    ensures LocalKept(np, s, f) <==>
      !f.isFolder
      && InScope(np, s.localBasePath, Some(ToLocalRel(np, s.localBasePath, f.path)), Some(f.path))
      && AllowRemoteItem(s, RemoteFile(ToLocalRel(np, s.localBasePath, f.path), path, f.size, modified, revision))
  {
  }

  /**
   * Without a positive limit the two sides part ways: the remote filter
   * applies no size test, while the local scan drops every file larger than
   * the (zero or negative) limit, which is every non-empty file.
   */
  lemma {:induction false} NoLimitDropsLocalOnly(np: string -> string, s: Settings, f: VaultEntry, item: RemoteFile)
    requires s.maxSizeMB <= 0.0 && f.size > 0
    requires !MatchesIgnore(s.ignorePatterns, item.rel) && GetExt(item.rel) !in s.excludeExtensions
    ensures !LocalKept(np, s, f)
    ensures AllowRemoteItem(s, item)
  {
    assert s.maxSizeMB * MiB <= 0.0;
  }
}
