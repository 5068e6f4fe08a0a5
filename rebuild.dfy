/**
 * The index rebuild at the end of `executePlan`: every local file that
 * exists after the operations gets an entry with its local stats and the
 * remote modification time and revision of the listing item with the same
 * path, if there is one.
 */
module IndexRebuild {
  import opened Common
  import opened Records
  import opened Dedup
  import opened Filters
  import opened Paths
  import opened RunState
  import opened Runner

  /** `{ localMtime, localSize, remoteModified, remoteRevision }` for one local file. */
  function EntryFor(loc: LocalFile, rem: Option<RemoteFile>): IndexEntry {
    IndexEntry(loc.mtime, loc.size, if rem.Some? then rem.value.modified else 0, if rem.Some? then rem.value.revision else None)
  }

  /** `newIndex[loc.rel] = …` for each file of `localAfter` in turn, the remote item looked up in the map of `remote`. */
  function Rebuild(localAfter: seq<LocalFile>, remote: seq<RemoteFile>): IndexFiles {
    if localAfter == [] then []
    else
      var x := localAfter[|localAfter| - 1];
      Put(Rebuild(localAfter[..|localAfter| - 1], remote), x.rel, EntryFor(x, LastRemote(remote, x.rel)))
  }

  /**
   * The rebuilt index has an entry for a path exactly when a local file
   * has that path, made from the last such file and the last remote item
   * with that path; with no remote item, the remote time is 0 and there is
   * no revision.
   */
  lemma {:induction false} RebuildLookup(localAfter: seq<LocalFile>, remote: seq<RemoteFile>, rel: string)
    ensures var loc := LastLocal(localAfter, rel);
      Lookup(Rebuild(localAfter, remote), rel) == if loc.None? then None else Some(EntryFor(loc.value, LastRemote(remote, rel)))
    ensures LastLocal(localAfter, rel).Some? && LastRemote(remote, rel).None? ==>
      Lookup(Rebuild(localAfter, remote), rel) == Some(IndexEntry(LastLocal(localAfter, rel).value.mtime, LastLocal(localAfter, rel).value.size, 0, None))
    decreases |localAfter|
  {
    if localAfter != [] {
      RebuildLookup(localAfter[..|localAfter| - 1], remote, rel);
    }
  }

  /** The rebuild of a single local file. */
  lemma {:induction false} RebuildOne(loc: LocalFile, remote: seq<RemoteFile>)
    ensures Rebuild([loc], remote) == [(loc.rel, EntryFor(loc, LastRemote(remote, loc.rel)))]
  {
    assert [loc][..0] == [];
  }

  lemma {:induction false} PutKeys(files: IndexFiles, rel: string, e: IndexEntry)
    ensures IndexKeys(Put(files, rel, e)) == if rel in IndexKeys(files) then IndexKeys(files) else IndexKeys(files) + [rel]
    decreases |files|
  {
    if files != [] && files[0].0 != rel {
      PutKeys(files[1..], rel, e);
      assert IndexKeys(files) == [files[0].0] + IndexKeys(files[1..]);
    }
  }

  /**
   * The rebuilt index lists each local path once, in the order the paths
   * first occur in `localAfter` (insertion order; see `IndexFiles` on
   * array-index keys).
   */
  lemma {:induction false} RebuildKeys(localAfter: seq<LocalFile>, remote: seq<RemoteFile>)
    ensures IndexKeys(Rebuild(localAfter, remote)) == Unique(LocalRels(localAfter))
    decreases |localAfter|
  {
    if localAfter != [] {
      var p, x := localAfter[..|localAfter| - 1], localAfter[|localAfter| - 1];
      RebuildKeys(p, remote);
      PutKeys(Rebuild(p, remote), x.rel, EntryFor(x, LastRemote(remote, x.rel)));
      var rels := LocalRels(localAfter);
      assert rels[..|rels| - 1] == LocalRels(p);
    }
  }

  /** The loop of `executePlan` that fills `newIndex`. */
  method RebuildIndex(localAfter: seq<LocalFile>, remote: seq<RemoteFile>) returns (files: IndexFiles)
    ensures files == Rebuild(localAfter, remote)
  {
    files := [];
    for i := 0 to |localAfter|
      invariant files == Rebuild(localAfter[..i], remote)
    {
      var loc := localAfter[i];
      assert localAfter[..i + 1][..i] == localAfter[..i];
      files := Put(files, loc.rel, EntryFor(loc, LastRemote(remote, loc.rel)));
    }
    assert localAfter[..|localAfter|] == localAfter;
  }

  // ---------------------------------------------------------------- the remote side after execution

  /** `ydListFolderRecursive(base)`: each file the server lists below `base`, its relative path computed against `base`. */
  function ListedUnder(items: seq<RemoteFile>, base: string): (r: seq<RemoteFile>)
    ensures |r| == |items|
    ensures forall i :: 0 <= i < |r| ==> r[i] == items[i].(rel := RemoteAbsToRel(items[i].path, base))
  {
    seq(|items|, i requires 0 <= i < |items| => items[i].(rel := RemoteAbsToRel(items[i].path, base)))
  }

  /**
   * The folder relisted after execution: `getRemoteBase()` in the current
   * copy, and the configured root `remoteBasePath || '/'` in the older one.
   */
  function RelistBase(version: Version, remoteBasePath: string, vaultFolderName: string, vaultName: string): (r: string)
    ensures version == Current ==> r == GetRemoteBase(remoteBasePath, vaultFolderName, vaultName)
    ensures version == Previous ==> r == if remoteBasePath == [] then "/" else remoteBasePath
  {
    if version == Current then
      var b := GetRemoteBase(remoteBasePath, vaultFolderName, vaultName);
      if b == [] then "/" else b
    else if remoteBasePath == [] then "/" else remoteBasePath
  }

  /**
   * The remote listing the index is rebuilt from. The current copy relists
   * when the plan uploaded or deleted remotely (or no map came with the
   * plan) and reuses the plan's listing otherwise, then applies the remote
   * filter; the older copy always relists and does not filter.
   */
  function RemoteAfter(version: Version, s: Settings, plan: seq<Op>, relisted: seq<RemoteFile>, fromPlan: Option<seq<RemoteFile>>): (r: seq<RemoteFile>)
    ensures version == Previous ==> r == relisted
    ensures version == Current ==> forall x :: x in r <==>
      (AllowRemoteItem(s, x) && x in (if RemoteChangedBy(plan) || fromPlan.None? then relisted else fromPlan.value))
  {
    if version == Current then
      FilterRemote(s, if RemoteChangedBy(plan) || fromPlan.None? then relisted else fromPlan.value)
    else relisted
  }

  /** `uploads.length > 0 || rDeletes.length > 0`. */
  predicate RemoteChangedBy(plan: seq<Op>) {
    |OfKind(plan, Upload)| > 0 || |OfKind(plan, RemoteDelete)| > 0
  }

  // ---------------------------------------------------------------- a rebuild that keeps unsettled paths

  /** An operation on the path ran and succeeded. */
  predicate Succeeded(ran: seq<Outcome>, rel: string) {
    exists j :: 0 <= j < |ran| && ran[j].op.rel == rel && ran[j].err.None?
  }

  /** The path had no operation in the plan, or one that ran and succeeded. */
  predicate Settled(plan: seq<Op>, ran: seq<Outcome>, rel: string) {
    (forall i :: 0 <= i < |plan| ==> plan[i].rel != rel) || Succeeded(ran, rel)
  }

  /**
   * The rebuild with the correction the index needs: a path whose planned
   * operation failed or never started keeps the entry it had before the
   * run (or stays without one), so that the next plan sees the same change.
   */
  function SettledRebuild(localAfter: seq<LocalFile>, remote: seq<RemoteFile>, before: IndexFiles, plan: seq<Op>, ran: seq<Outcome>): IndexFiles {
    if localAfter == [] then []
    else
      var rest := SettledRebuild(localAfter[..|localAfter| - 1], remote, before, plan, ran);
      var x := localAfter[|localAfter| - 1];
      if Settled(plan, ran, x.rel) then Put(rest, x.rel, EntryFor(x, LastRemote(remote, x.rel)))
      else
        var prior := Lookup(before, x.rel);
        if prior.Some? then Put(rest, x.rel, prior.value) else rest
  }

  /**
   * A settled path gets the rebuilt entry; an unsettled one keeps its entry
   * from before the run, or has none; a path without a local file has none.
   */
  lemma {:induction false} SettledRebuildLookup(localAfter: seq<LocalFile>, remote: seq<RemoteFile>, before: IndexFiles, plan: seq<Op>, ran: seq<Outcome>, rel: string)
    ensures var loc := LastLocal(localAfter, rel);
      Lookup(SettledRebuild(localAfter, remote, before, plan, ran), rel) ==
        if loc.None? then None
        else if Settled(plan, ran, rel) then Some(EntryFor(loc.value, LastRemote(remote, rel)))
        else Lookup(before, rel)
    decreases |localAfter|
  {
    if localAfter != [] {
      var p := localAfter[..|localAfter| - 1];
      SettledRebuildLookup(p, remote, before, plan, ran, rel);
      if LastLocal(localAfter, rel).Some? && !Settled(plan, ran, rel) && LastLocal(p, rel).None? {
        assert localAfter[|localAfter| - 1].rel == rel;
      }
    }
  }

  /** On a run where every planned operation succeeded, the corrected rebuild is the rebuild. */
  lemma {:induction false} SettledRebuildAllDone(localAfter: seq<LocalFile>, remote: seq<RemoteFile>, before: IndexFiles, plan: seq<Op>, ran: seq<Outcome>)
    requires forall i :: 0 <= i < |plan| ==> Succeeded(ran, plan[i].rel)
    ensures SettledRebuild(localAfter, remote, before, plan, ran) == Rebuild(localAfter, remote)
    decreases |localAfter|
  {
    if localAfter != [] {
      var x := localAfter[|localAfter| - 1];
      SettledRebuildAllDone(localAfter[..|localAfter| - 1], remote, before, plan, ran);
      if !(forall i :: 0 <= i < |plan| ==> plan[i].rel != x.rel) {
        var i :| 0 <= i < |plan| && plan[i].rel == x.rel;
        assert Settled(plan, ran, x.rel);
      }
    }
  }
}
