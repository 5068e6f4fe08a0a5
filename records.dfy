/**
 * The records the sync engine works on: local files, remote listing items,
 * index entries, plan operations and the settings that steer planning.
 */
module Records {
  import opened Common

  /** A vault file in scope: its path relative to the local base folder, size and modification time (ms). */
  datatype LocalFile = LocalFile(rel: string, size: int, mtime: int)

  /**
   * A file of the remote listing: relative path, absolute remote path, size,
   * modification time (already parsed to ms) and revision (absent when the
   * listing has none).
   */
  datatype RemoteFile = RemoteFile(rel: string, path: string, size: int, modified: int, revision: Option<string>)

  /**
   * The state recorded for a path after the last sync. A missing or empty
   * revision is falsy in the source, so both read as "no revision" here.
   */
  datatype IndexEntry = IndexEntry(localMtime: int, localSize: int, remoteModified: int, remoteRevision: Option<string>)

  /**
   * The `files` object of the index: its properties in insertion order.
   * JavaScript lists array-index keys (such as `2024`) first, in ascending
   * order; this sequence does not.
   */
  type IndexFiles = seq<(string, IndexEntry)>

  datatype OpKind = Upload | Download | Conflict | RemoteDelete | LocalDelete

  /** A planned operation on one relative path. */
  datatype Op = Op(kind: OpKind, rel: string)

  datatype SyncMode = TwoWay | UploadOnly | DownloadOnly
  datatype DeletePolicy = Mirror | Skip
  datatype ConflictStrategy = NewestWins | DuplicateBoth

  datatype Settings = Settings(
    localBasePath: string,
    syncMode: SyncMode,
    deletePolicy: DeletePolicy,
    conflictStrategy: ConflictStrategy,
    toleranceSec: int,
    ignorePatterns: seq<string>,
    excludeExtensions: seq<string>,
    maxSizeMB: real)

  predicate CanUpload(s: Settings) {
    s.syncMode != DownloadOnly
  }

  predicate CanDownload(s: Settings) {
    s.syncMode != UploadOnly
  }

  /** The value of a property of the index, if it has one. */
  function Lookup(files: IndexFiles, rel: string): (r: Option<IndexEntry>)
    ensures r.Some? ==> (rel, r.value) in files
    ensures r.None? ==> forall i :: 0 <= i < |files| ==> files[i].0 != rel
  {
    if files == [] then None
    else if files[0].0 == rel then Some(files[0].1)
    else Lookup(files[1..], rel)
  }

  /** `files[rel] = e`: an existing property keeps its place and takes the new value; a new one goes last. */
  function Put(files: IndexFiles, rel: string, e: IndexEntry): (r: IndexFiles)
    ensures Lookup(r, rel) == Some(e)
    ensures forall other :: other != rel ==> Lookup(r, other) == Lookup(files, other)
  {
    if files == [] then [(rel, e)]
    else if files[0].0 == rel then [(rel, e)] + files[1..]
    else [files[0]] + Put(files[1..], rel, e)
  }

  /** The entry of a `Map` built from a listing: the last item with that path wins. */
  function LastLocal(local: seq<LocalFile>, rel: string): (r: Option<LocalFile>)
    ensures r.Some? ==> r.value in local && r.value.rel == rel
    ensures r.None? <==> forall i :: 0 <= i < |local| ==> local[i].rel != rel
  {
    if local == [] then None
    else if local[|local| - 1].rel == rel then Some(local[|local| - 1])
    else LastLocal(local[..|local| - 1], rel)
  }

  function LastRemote(remote: seq<RemoteFile>, rel: string): (r: Option<RemoteFile>)
    ensures r.Some? ==> r.value in remote && r.value.rel == rel
    ensures r.None? <==> forall i :: 0 <= i < |remote| ==> remote[i].rel != rel
  {
    if remote == [] then None
    else if remote[|remote| - 1].rel == rel then Some(remote[|remote| - 1])
    else LastRemote(remote[..|remote| - 1], rel)
  }

  function LocalRels(local: seq<LocalFile>): (r: seq<string>)
    ensures |r| == |local| && forall i :: 0 <= i < |r| ==> r[i] == local[i].rel
  {
    if local == [] then [] else [local[0].rel] + LocalRels(local[1..])
  }

  function RemoteRels(remote: seq<RemoteFile>): (r: seq<string>)
    ensures |r| == |remote| && forall i :: 0 <= i < |r| ==> r[i] == remote[i].rel
  {
    if remote == [] then [] else [remote[0].rel] + RemoteRels(remote[1..])
  }

  function IndexKeys(files: IndexFiles): (r: seq<string>)
    ensures |r| == |files| && forall i :: 0 <= i < |r| ==> r[i] == files[i].0
  {
    if files == [] then [] else [files[0].0] + IndexKeys(files[1..])
  }

  /**
   * `new Set(xs)` iterated in order: each value once, at its first occurrence.
   */
  function Unique(xs: seq<string>): (r: seq<string>)
    ensures forall x :: x in r <==> x in xs
    ensures forall i, j :: 0 <= i < j < |r| ==> r[i] != r[j]
  {
    if xs == [] then []
    else
      var rest := Unique(xs[..|xs| - 1]);
      if xs[|xs| - 1] in rest then rest else rest + [xs[|xs| - 1]]
  }
}
