/**
 * What a plan built by `buildPlan` guarantees: gating by sync mode,
 * newest-wins with tolerance, the safety conditions of mirror deletions,
 * and how the two copies of the plugin differ on the same inputs.
 */
module PlanProperties {
  import opened Common
  import opened Records
  import opened Dedup
  import opened Plan

  /** An operation of kind `k` on the path of `rel` is in the plan. */
  predicate InPlan(plan: seq<Op>, k: OpKind, rel: string) {
    Op(k, rel) in plan
  }

  /** The plan's operation on a path is the one `PathDecision` names for it, if any. */
  lemma {:induction false} PlanOpsDecided(version: Version, s: Settings, local: seq<LocalFile>, remote: seq<RemoteFile>, idx: IndexFiles, rel: string)
    ensures forall k :: InPlan(PlanOf(version, s, local, remote, idx), k, rel) ==>
      DecisionAt(version, s, local, remote, idx, rel) == Some(k)
    ensures DecisionAt(version, s, local, remote, idx, rel).Some? ==>
      InPlan(PlanOf(version, s, local, remote, idx), DecisionAt(version, s, local, remote, idx, rel).value, rel)
  {
    PlanDecides(version, s, local, remote, idx);
    var plan := PlanOf(version, s, local, remote, idx);
    var d := DecisionAt(version, s, local, remote, idx, rel);
    forall k | Op(k, rel) in plan
      ensures d == Some(k)
    {
      var j :| 0 <= j < |plan| && plan[j] == Op(k, rel);
    }
    if d.Some? {
      var j :| 0 <= j < |plan| && plan[j].rel == rel;
      assert plan[j] == Op(d.value, rel);
    }
  }

  /**
   * Every operation of the plan respects the sync mode: uploads only when
   * uploading is allowed, downloads only when downloading is, remote
   * deletions never in upload-only mode, local deletions never in
   * download-only mode, and no deletion at all unless the policy is mirror.
   */
  lemma {:induction false} PlanModeGating(version: Version, s: Settings, local: seq<LocalFile>, remote: seq<RemoteFile>, idx: IndexFiles, rel: string)
    ensures InPlan(PlanOf(version, s, local, remote, idx), Upload, rel) ==> CanUpload(s)
    ensures InPlan(PlanOf(version, s, local, remote, idx), Download, rel) ==> CanDownload(s)
    ensures InPlan(PlanOf(version, s, local, remote, idx), RemoteDelete, rel) ==> s.syncMode != UploadOnly && s.deletePolicy == Mirror
    ensures InPlan(PlanOf(version, s, local, remote, idx), LocalDelete, rel) ==> s.syncMode != DownloadOnly && s.deletePolicy == Mirror
  {
    PlanOpsDecided(version, s, local, remote, idx, rel);
    DecisionGating(version, s, LastLocal(local, rel), LastRemote(remote, rel), Lookup(idx, rel));
  }

  lemma {:induction false} DecisionGating(version: Version, s: Settings, loc: Option<LocalFile>, rem: Option<RemoteFile>, idx: Option<IndexEntry>)
    ensures PathDecision(version, s, loc, rem, idx) == Some(Upload) ==> CanUpload(s)
    ensures PathDecision(version, s, loc, rem, idx) == Some(Download) ==> CanDownload(s)
    ensures PathDecision(version, s, loc, rem, idx) == Some(RemoteDelete) ==> s.syncMode != UploadOnly && s.deletePolicy == Mirror
    ensures PathDecision(version, s, loc, rem, idx) == Some(LocalDelete) ==> s.syncMode != DownloadOnly && s.deletePolicy == Mirror
  {
  }

  /**
   * Mirror safety: a remote deletion is planned only for an indexed path that
   * is gone locally and whose remote copy is unchanged since the last sync;
   * a local deletion only for an indexed path gone remotely whose local copy
   * is unchanged.
   */
  lemma {:induction false} PlanMirrorSafety(version: Version, s: Settings, local: seq<LocalFile>, remote: seq<RemoteFile>, idx: IndexFiles, rel: string)
    ensures InPlan(PlanOf(version, s, local, remote, idx), RemoteDelete, rel) ==>
      var rem := LastRemote(remote, rel);
      Lookup(idx, rel).Some? && LastLocal(local, rel).None? && rem.Some? && !RemoteChanged(rem.value, Lookup(idx, rel))
    ensures InPlan(PlanOf(version, s, local, remote, idx), LocalDelete, rel) ==>
      var loc := LastLocal(local, rel);
      Lookup(idx, rel).Some? && LastRemote(remote, rel).None? && loc.Some? && !LocalChanged(loc.value, Lookup(idx, rel))
  {
    PlanOpsDecided(version, s, local, remote, idx, rel);
    DecisionMirrorSafety(version, s, LastLocal(local, rel), LastRemote(remote, rel), Lookup(idx, rel));
  }

  lemma {:induction false} DecisionMirrorSafety(version: Version, s: Settings, loc: Option<LocalFile>, rem: Option<RemoteFile>, idx: Option<IndexEntry>)
    ensures PathDecision(version, s, loc, rem, idx) == Some(RemoteDelete) ==>
      idx.Some? && loc.None? && rem.Some? && !RemoteChanged(rem.value, idx)
    ensures PathDecision(version, s, loc, rem, idx) == Some(LocalDelete) ==>
      idx.Some? && rem.None? && loc.Some? && !LocalChanged(loc.value, idx)
  {
  }

  /** A path that changed on neither side since the last sync gets no operation. */
  lemma {:induction false} PlanNoChangeNoOp(version: Version, s: Settings, local: seq<LocalFile>, remote: seq<RemoteFile>, idx: IndexFiles, rel: string)
    requires LastLocal(local, rel).Some? && LastRemote(remote, rel).Some?
    requires !LocalChanged(LastLocal(local, rel).value, Lookup(idx, rel))
    requires !RemoteChanged(LastRemote(remote, rel).value, Lookup(idx, rel))
    ensures forall k :: !InPlan(PlanOf(version, s, local, remote, idx), k, rel)
  {
    PlanOpsDecided(version, s, local, remote, idx, rel);
  }

  /**
   * A path present only locally and never synced is uploaded unless the mode
   * is download-only, and then nothing happens to it; a path present only
   * remotely and never synced is downloaded unless the mode is upload-only.
   */
  lemma {:induction false} PlanOneSided(version: Version, s: Settings, local: seq<LocalFile>, remote: seq<RemoteFile>, idx: IndexFiles, rel: string)
    requires Lookup(idx, rel).None?
    ensures LastLocal(local, rel).Some? && LastRemote(remote, rel).None? ==>
      (InPlan(PlanOf(version, s, local, remote, idx), Upload, rel) <==> CanUpload(s))
      && (forall k :: k != Upload ==> !InPlan(PlanOf(version, s, local, remote, idx), k, rel))
    ensures LastLocal(local, rel).None? && LastRemote(remote, rel).Some? ==>
      (InPlan(PlanOf(version, s, local, remote, idx), Download, rel) <==> CanDownload(s))
      && (forall k :: k != Download ==> !InPlan(PlanOf(version, s, local, remote, idx), k, rel))
  {
    PlanOpsDecided(version, s, local, remote, idx, rel);
  }

  /**
   * Newest-wins on a path changed on both sides, with `tol` the tolerance in
   * milliseconds: in two-way mode the remote copy wins exactly when it is
   * newer by more than `tol`, and otherwise the local copy is uploaded;
   * download-only mode downloads in the same case and does nothing
   * otherwise; upload-only mode always uploads.
   */
  lemma {:induction false} NewestWinsWithTolerance(version: Version, s: Settings, loc: LocalFile, rem: RemoteFile, idx: Option<IndexEntry>)
    requires s.conflictStrategy == NewestWins
    requires LocalChanged(loc, idx) && RemoteChanged(rem, idx)
    ensures var r := PathDecision(version, s, Some(loc), Some(rem), idx);
      var tol := ToleranceMs(s);
      && (s.syncMode == TwoWay ==>
           (r == Some(Download) <==> rem.modified > loc.mtime + tol)
           && (r == Some(Upload) <==> rem.modified <= loc.mtime + tol))
      && (s.syncMode == DownloadOnly ==>
           (r == Some(Download) <==> rem.modified > loc.mtime + tol)
           && (r == None <==> rem.modified <= loc.mtime + tol))
      && (s.syncMode == UploadOnly ==> r == Some(Upload))
  {
  }

  /** With duplicate-both, a path changed on both sides becomes one conflict, whatever the sync mode. */
  lemma {:induction false} DuplicateBothConflict(version: Version, s: Settings, loc: LocalFile, rem: RemoteFile, idx: Option<IndexEntry>)
    requires s.conflictStrategy == DuplicateBoth
    requires LocalChanged(loc, idx) && RemoteChanged(rem, idx)
    ensures PathDecision(version, s, Some(loc), Some(rem), idx) == Some(Conflict)
  {
  }

  /** Two candidates on one path: the second replaces the first only when it ranks strictly higher. */
  lemma {:induction false} DedupPair(version: Version, a: Op, b: Op)
    requires a.rel == b.rel
    ensures Deduplicate(version, [a, b]) == [if Pri(version, b.kind) > Pri(version, a.kind) then b else a]
  {
    assert [a, b][..1] == [a];
    assert [a][..0] == [];
    assert DedupTable(version, []) == Table([], map[]);
    assert [] + [a.rel] == [a.rel];
    assert DedupTable(version, [a]) == Table([a.rel], map[a.rel := a]);
  }

  lemma {:induction false} ClassifyOne(s: Settings, local: seq<LocalFile>, remote: seq<RemoteFile>, idx: IndexFiles, rel: string)
    ensures ClassifyOps(s, local, remote, idx, [rel]) == Emit(ClassifyAt(s, local, remote, idx, rel), rel)
  {
    assert [rel][..0] == [];
  }

  lemma {:induction false} MirrorOne(s: Settings, local: seq<LocalFile>, remote: seq<RemoteFile>, idx: IndexFiles, rel: string)
    ensures MirrorOps(s, local, remote, idx, [rel]) == Emit(MirrorAt(s, local, remote, idx, rel), rel)
  {
    assert [rel][..0] == [];
  }

  /** With one path visited and one indexed, the same, the candidates are that path's two passes. */
  lemma {:induction false} CandidatesOfOne(s: Settings, local: seq<LocalFile>, remote: seq<RemoteFile>, idx: IndexFiles, rel: string)
    requires s.deletePolicy == Mirror && PlanRels(local, remote) == [rel] && IndexKeys(idx) == [rel]
    ensures Candidates(s, local, remote, idx) == Emit(ClassifyAt(s, local, remote, idx, rel), rel) + Emit(MirrorAt(s, local, remote, idx, rel), rel)
  {
    ClassifyOne(s, local, remote, idx, rel);
    MirrorOne(s, local, remote, idx, rel);
  }

  lemma {:induction false} OneRel(xs: seq<string>, ys: seq<string>, rel: string)
    requires (xs == [rel] && ys == []) || (xs == [] && ys == [rel])
    ensures Unique(Unique(xs) + Unique(ys)) == [rel]
  {
    assert [rel][..0] == [];
    assert Unique([rel]) == [rel];
    assert [] + [rel] == [rel] && [rel] + [] == [rel];
  }

  /** Two candidates on one path make a plan of one operation, the higher ranked one (the first on a tie). */
  lemma {:induction false} PlanOfPair(version: Version, s: Settings, local: seq<LocalFile>, remote: seq<RemoteFile>, idx: IndexFiles, a: Op, b: Op)
    requires a.rel == b.rel && Candidates(s, local, remote, idx) == [a, b]
    ensures PlanOf(version, s, local, remote, idx) == [if Pri(version, b.kind) > Pri(version, a.kind) then b else a]
  {
    DedupPair(version, a, b);
  }

  /** A deletion outranks the transfer it competes with in the current copy only. */
  lemma {:induction false} DeleteOutranks(version: Version)
    ensures Pri(version, LocalDelete) > Pri(version, Upload) <==> version == Current
    ensures Pri(version, RemoteDelete) > Pri(version, Download) <==> version == Current
  {
  }

  /** Two-way sync with the mirror policy. */
  predicate TwoWayMirror(s: Settings) {
    s.syncMode == TwoWay && s.deletePolicy == Mirror
  }

  /**
   * A file deleted locally whose remote copy is exactly as last synced: the
   * current copy deletes the remote copy, the earlier one downloads it again.
   */
  lemma {:induction false} DeletedLocallyScenario(version: Version, s: Settings, local: seq<LocalFile>, remote: seq<RemoteFile>, idx: IndexFiles,
                                                  rem: RemoteFile, e: IndexEntry)
    requires TwoWayMirror(s) && |local| == 0 && |remote| == 1 && remote[0] == rem && |idx| == 1 && idx[0] == (rem.rel, e)
    requires e.remoteModified == rem.modified && e.remoteRevision == rem.revision
    ensures PlanOf(version, s, local, remote, idx) == [Op(if version == Current then RemoteDelete else Download, rem.rel)]
  {
    DeletedLocallyCandidates(s, local, remote, idx, rem, e);
    var a, b := Op(Download, rem.rel), Op(RemoteDelete, rem.rel);
    PlanOfPair(version, s, local, remote, idx, a, b);
    DeleteOutranks(version);
    if version == Current {
      assert PlanOf(version, s, local, remote, idx) == [b];
    } else {
      assert PlanOf(version, s, local, remote, idx) == [a];
    }
  }

  lemma {:induction false} DeletedLocallyCandidates(s: Settings, local: seq<LocalFile>, remote: seq<RemoteFile>, idx: IndexFiles, rem: RemoteFile, e: IndexEntry)
    requires TwoWayMirror(s) && |local| == 0 && |remote| == 1 && remote[0] == rem && |idx| == 1 && idx[0] == (rem.rel, e)
    requires e.remoteModified == rem.modified && e.remoteRevision == rem.revision
    ensures Candidates(s, local, remote, idx) == [Op(Download, rem.rel), Op(RemoteDelete, rem.rel)]
  {
    OnlyRemote(local, remote, idx, rem, e);
    CandidatesOfOne(s, local, remote, idx, rem.rel);
  }

  /** No local file, one remote item and its index entry: what each pass looks up. */
  lemma {:induction false} OnlyRemote(local: seq<LocalFile>, remote: seq<RemoteFile>, idx: IndexFiles, rem: RemoteFile, e: IndexEntry)
    requires |local| == 0 && |remote| == 1 && remote[0] == rem && |idx| == 1 && idx[0] == (rem.rel, e)
    ensures PlanRels(local, remote) == [rem.rel] && IndexKeys(idx) == [rem.rel]
    ensures LastLocal(local, rem.rel).None? && LastRemote(remote, rem.rel) == Some(rem) && Lookup(idx, rem.rel) == Some(e)
  {
    var rel := rem.rel;
    assert LocalRels(local) == [] && RemoteRels(remote) == [rel] && IndexKeys(idx) == [rel];
    OneRel(LocalRels(local), RemoteRels(remote), rel);
    assert LastLocal(local, rel).None?;
    assert LastRemote(remote, rel) == Some(rem);
    assert Lookup(idx, rel) == Some(e);
  }

  /**
   * A file deleted remotely whose local copy is exactly as last synced: the
   * current copy deletes the local copy, the earlier one uploads it again.
   */
  lemma {:induction false} DeletedRemotelyScenario(version: Version, s: Settings, local: seq<LocalFile>, remote: seq<RemoteFile>, idx: IndexFiles,
                                                   loc: LocalFile, e: IndexEntry)
    requires TwoWayMirror(s) && |local| == 1 && local[0] == loc && |remote| == 0 && |idx| == 1 && idx[0] == (loc.rel, e)
    requires e.localMtime == loc.mtime && e.localSize == loc.size
    ensures PlanOf(version, s, local, remote, idx) == [Op(if version == Current then LocalDelete else Upload, loc.rel)]
  {
    DeletedRemotelyCandidates(s, local, remote, idx, loc, e);
    var a, b := Op(Upload, loc.rel), Op(LocalDelete, loc.rel);
    PlanOfPair(version, s, local, remote, idx, a, b);
    DeleteOutranks(version);
    if version == Current {
      assert PlanOf(version, s, local, remote, idx) == [b];
    } else {
      assert PlanOf(version, s, local, remote, idx) == [a];
    }
  }

  lemma {:induction false} DeletedRemotelyCandidates(s: Settings, local: seq<LocalFile>, remote: seq<RemoteFile>, idx: IndexFiles, loc: LocalFile, e: IndexEntry)
    requires TwoWayMirror(s) && |local| == 1 && local[0] == loc && |remote| == 0 && |idx| == 1 && idx[0] == (loc.rel, e)
    requires e.localMtime == loc.mtime && e.localSize == loc.size
    ensures Candidates(s, local, remote, idx) == [Op(Upload, loc.rel), Op(LocalDelete, loc.rel)]
  {
    OnlyLocal(local, remote, idx, loc, e);
    CandidatesOfOne(s, local, remote, idx, loc.rel);
  }

  /** One local file and its index entry, no remote item: what each pass looks up. */
  lemma {:induction false} OnlyLocal(local: seq<LocalFile>, remote: seq<RemoteFile>, idx: IndexFiles, loc: LocalFile, e: IndexEntry)
    requires |local| == 1 && local[0] == loc && |remote| == 0 && |idx| == 1 && idx[0] == (loc.rel, e)
    ensures PlanRels(local, remote) == [loc.rel] && IndexKeys(idx) == [loc.rel]
    ensures LastLocal(local, loc.rel) == Some(loc) && LastRemote(remote, loc.rel).None? && Lookup(idx, loc.rel) == Some(e)
  {
    var rel := loc.rel;
    assert LocalRels(local) == [rel] && RemoteRels(remote) == [] && IndexKeys(idx) == [rel];
    OneRel(LocalRels(local), RemoteRels(remote), rel);
    assert LastLocal(local, rel) == Some(loc);
    assert LastRemote(remote, rel).None?;
    assert Lookup(idx, rel) == Some(e);
  }

  /**
   * Deletions follow the policy, not the direction: download-only mode can
   * delete a remote file and upload-only mode can delete a local one.
   */
  lemma {:induction false} DeletesCrossModes(version: Version, s: Settings, loc: LocalFile, rem: RemoteFile, e: IndexEntry)
    requires s.deletePolicy == Mirror
    requires e.remoteModified == rem.modified && e.remoteRevision == rem.revision
    requires e.localMtime == loc.mtime && e.localSize == loc.size
    ensures s.syncMode == DownloadOnly ==> MirrorDelete(s, None, Some(rem), Some(e)) == Some(RemoteDelete)
    ensures s.syncMode == UploadOnly ==> MirrorDelete(s, Some(loc), None, Some(e)) == Some(LocalDelete)
  {
  }
}
