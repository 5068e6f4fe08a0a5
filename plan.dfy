/**
 * `buildPlan`: compares the local scan, the remote listing and the index of
 * the last sync, emits candidate operations path by path, adds mirror
 * deletions, and keeps one operation per path.
 */
module Plan {
  import opened Common
  import opened Records
  import opened Dedup
  import opened Filters

  /** The local side differs from what the index recorded (or nothing was recorded). */
  predicate LocalChanged(loc: LocalFile, idx: Option<IndexEntry>) {
    idx.None? || loc.mtime > idx.value.localMtime || loc.size != idx.value.localSize
  }

  /**
   * The remote side differs from what the index recorded. A missing or empty
   * recorded revision never counts as a difference.
   */
  predicate RemoteChanged(rem: RemoteFile, idx: Option<IndexEntry>) {
    idx.None? || rem.modified > idx.value.remoteModified
    || (idx.value.remoteRevision.Some? && idx.value.remoteRevision.value != [] && rem.revision != idx.value.remoteRevision)
  }

  /** The clock-skew tolerance in milliseconds, never negative. */
  function ToleranceMs(s: Settings): (r: int)
    ensures r >= 0 && r >= s.toleranceSec * 1000
  {
    Max(0, s.toleranceSec * 1000)
  }

  /** Newest-wins for a path changed on both sides; within tolerance the local copy is preferred. */
  function NewestWins(s: Settings, localTs: int, remoteTs: int): Option<OpKind> {
    var tol := ToleranceMs(s);
    if CanUpload(s) && localTs > remoteTs + tol then Some(Upload)
    else if CanDownload(s) && remoteTs > localTs + tol then Some(Download)
    else if CanUpload(s) then Some(Upload)
    else None
  }

  /** The operation the first pass emits for one path, if any. */
  function Classify(s: Settings, loc: Option<LocalFile>, rem: Option<RemoteFile>, idx: Option<IndexEntry>): Option<OpKind> {
    if loc.Some? && rem.None? then
      if CanUpload(s) then Some(Upload) else None
    else if loc.None? && rem.Some? then
      if CanDownload(s) then Some(Download) else None
    else if loc.Some? && rem.Some? then
      var lc := LocalChanged(loc.value, idx);
      var rc := RemoteChanged(rem.value, idx);
      if lc && !rc then
        if CanUpload(s) then Some(Upload) else None
      else if !lc && rc then
        if CanDownload(s) then Some(Download) else None
      else if lc && rc then
        if s.conflictStrategy == DuplicateBoth then Some(Conflict)
        else NewestWins(s, loc.value.mtime, rem.value.modified)
      else None
    else None
  }

  /** The deletion the mirror pass emits for one indexed path, if any. */
  function MirrorDelete(s: Settings, loc: Option<LocalFile>, rem: Option<RemoteFile>, idx: Option<IndexEntry>): Option<OpKind> {
    if loc.None? && rem.Some? && s.syncMode != UploadOnly then
      if !RemoteChanged(rem.value, idx) then Some(RemoteDelete) else None
    else if loc.Some? && rem.None? && s.syncMode != DownloadOnly then
      if !LocalChanged(loc.value, idx) then Some(LocalDelete) else None
    else None
  }

  function Emit(k: Option<OpKind>, rel: string): seq<Op> {
    if k.Some? then [Op(k.value, rel)] else []
  }

  /** The paths the first pass visits: local paths, then remote ones, each once. */
  function PlanRels(local: seq<LocalFile>, remote: seq<RemoteFile>): seq<string> {
    Unique(Unique(LocalRels(local)) + Unique(RemoteRels(remote)))
  }

  function ClassifyOps(s: Settings, local: seq<LocalFile>, remote: seq<RemoteFile>, idx: IndexFiles, rels: seq<string>): seq<Op> {
    if rels == [] then []
    else
      var rel := rels[|rels| - 1];
      ClassifyOps(s, local, remote, idx, rels[..|rels| - 1])
      + Emit(Classify(s, LastLocal(local, rel), LastRemote(remote, rel), Lookup(idx, rel)), rel)
  }

  function MirrorOps(s: Settings, local: seq<LocalFile>, remote: seq<RemoteFile>, idx: IndexFiles, keys: seq<string>): seq<Op> {
    if keys == [] then []
    else
      var rel := keys[|keys| - 1];
      MirrorOps(s, local, remote, idx, keys[..|keys| - 1])
      + Emit(MirrorDelete(s, LastLocal(local, rel), LastRemote(remote, rel), Lookup(idx, rel)), rel)
  }

  /** Everything pushed onto `plan` before deduplication. */
  function Candidates(s: Settings, local: seq<LocalFile>, remote: seq<RemoteFile>, idx: IndexFiles): seq<Op> {
    ClassifyOps(s, local, remote, idx, PlanRels(local, remote))
    + (if s.deletePolicy == Mirror then MirrorOps(s, local, remote, idx, IndexKeys(idx)) else [])
  }

  /** The remote side the plan is built from: the current copy filters the listing, the earlier one does not. */
  function RemoteSide(version: Version, s: Settings, listing: seq<RemoteFile>): seq<RemoteFile> {
    if version == Current then FilterRemote(s, listing) else listing
  }

  /** The final plan, from the local scan and the remote side after filtering. */
  function PlanOf(version: Version, s: Settings, local: seq<LocalFile>, remote: seq<RemoteFile>, idx: IndexFiles): seq<Op> {
    Deduplicate(version, Candidates(s, local, remote, idx))
  }

  /**
   * The operation the plan ends up with for one path, stated per path: the
   * first pass's candidate and the mirror pass's deletion, the deletion
   * winning only when it ranks strictly higher.
   */
  function PathDecision(version: Version, s: Settings, loc: Option<LocalFile>, rem: Option<RemoteFile>, idx: Option<IndexEntry>): Option<OpKind> {
    Combine(version, Classify(s, loc, rem, idx), if s.deletePolicy == Mirror then MirrorDelete(s, loc, rem, idx) else None)
  }

  /** The first pass's candidate `c` against the mirror pass's `d`: `d` wins only when it ranks strictly higher. */
  function Combine(version: Version, c: Option<OpKind>, d: Option<OpKind>): Option<OpKind> {
    if c.None? then d
    else if d.None? then c
    else if Pri(version, d.value) > Pri(version, c.value) then d
    else c
  }

  /** A mirror deletion always competes with a transfer the first pass emitted for the same path. */
  lemma {:induction false} MirrorNeedsCandidate(s: Settings, loc: Option<LocalFile>, rem: Option<RemoteFile>, idx: Option<IndexEntry>)
    ensures MirrorDelete(s, loc, rem, idx) == Some(RemoteDelete) ==> Classify(s, loc, rem, idx) == Some(Download)
    ensures MirrorDelete(s, loc, rem, idx) == Some(LocalDelete) ==> Classify(s, loc, rem, idx) == Some(Upload)
  {
  }

  function ClassifyAt(s: Settings, local: seq<LocalFile>, remote: seq<RemoteFile>, idx: IndexFiles, r: string): Option<OpKind> {
    Classify(s, LastLocal(local, r), LastRemote(remote, r), Lookup(idx, r))
  }

  function MirrorAt(s: Settings, local: seq<LocalFile>, remote: seq<RemoteFile>, idx: IndexFiles, r: string): Option<OpKind> {
    MirrorDelete(s, LastLocal(local, r), LastRemote(remote, r), Lookup(idx, r))
  }

  function DecisionAt(version: Version, s: Settings, local: seq<LocalFile>, remote: seq<RemoteFile>, idx: IndexFiles, r: string): Option<OpKind> {
    PathDecision(version, s, LastLocal(local, r), LastRemote(remote, r), Lookup(idx, r))
  }

  /** Every operation on path `r` in `ops` has kind `k`. */
  ghost predicate AllKinds(ops: seq<Op>, r: string, k: Option<OpKind>) {
    forall j :: 0 <= j < |ops| && ops[j].rel == r ==> k == Some(ops[j].kind)
  }

  ghost predicate HasRel(ops: seq<Op>, r: string) {
    exists j :: 0 <= j < |ops| && ops[j].rel == r
  }

  lemma {:induction false} ClassifyOpsFor(s: Settings, local: seq<LocalFile>, remote: seq<RemoteFile>, idx: IndexFiles, rels: seq<string>, r: string)
    ensures AllKinds(ClassifyOps(s, local, remote, idx, rels), r, ClassifyAt(s, local, remote, idx, r))
    ensures r in rels && ClassifyAt(s, local, remote, idx, r).Some? ==> HasRel(ClassifyOps(s, local, remote, idx, rels), r)
  {
    if rels != [] {
      var p := rels[..|rels| - 1];
      var last := rels[|rels| - 1];
      ClassifyOpsFor(s, local, remote, idx, p, r);
      var a := ClassifyOps(s, local, remote, idx, p);
      var ops := ClassifyOps(s, local, remote, idx, rels);
      var e := Emit(ClassifyAt(s, local, remote, idx, last), last);
      assert ops == a + e;
      if r in rels && ClassifyAt(s, local, remote, idx, r).Some? {
        if r == last {
          assert ops[|a|].rel == r;
        } else {
          assert r in p;
          var j :| 0 <= j < |a| && a[j].rel == r;
          assert ops[j].rel == r;
        }
      }
    }
  }

  lemma {:induction false} MirrorOpsFor(s: Settings, local: seq<LocalFile>, remote: seq<RemoteFile>, idx: IndexFiles, keys: seq<string>, r: string)
    ensures AllKinds(MirrorOps(s, local, remote, idx, keys), r, MirrorAt(s, local, remote, idx, r))
    ensures r in keys && MirrorAt(s, local, remote, idx, r).Some? ==> HasRel(MirrorOps(s, local, remote, idx, keys), r)
  {
    if keys != [] {
      var p := keys[..|keys| - 1];
      var last := keys[|keys| - 1];
      MirrorOpsFor(s, local, remote, idx, p, r);
      var a := MirrorOps(s, local, remote, idx, p);
      var ops := MirrorOps(s, local, remote, idx, keys);
      var e := Emit(MirrorAt(s, local, remote, idx, last), last);
      assert ops == a + e;
      if r in keys && MirrorAt(s, local, remote, idx, r).Some? {
        if r == last {
          assert ops[|a|].rel == r;
        } else {
          assert r in p;
          var j :| 0 <= j < |a| && a[j].rel == r;
          assert ops[j].rel == r;
        }
      }
    }
  }

  /** A path with no local, remote or index record gets no candidate at all. */
  lemma {:induction false} RelsCover(s: Settings, local: seq<LocalFile>, remote: seq<RemoteFile>, idx: IndexFiles, r: string)
    ensures ClassifyAt(s, local, remote, idx, r).Some? ==> r in PlanRels(local, remote)
    ensures MirrorAt(s, local, remote, idx, r).Some? ==> r in IndexKeys(idx)
  {
    if ClassifyAt(s, local, remote, idx, r).Some? {
      if LastLocal(local, r).Some? {
        var x := LastLocal(local, r).value;
        var i :| 0 <= i < |local| && local[i] == x;
        assert LocalRels(local)[i] == r;
      } else {
        var x := LastRemote(remote, r).value;
        var i :| 0 <= i < |remote| && remote[i] == x;
        assert RemoteRels(remote)[i] == r;
      }
    }
    if MirrorAt(s, local, remote, idx, r).Some? {
      var e := Lookup(idx, r).value;
      var i :| 0 <= i < |idx| && idx[i] == (r, e);
      assert IndexKeys(idx)[i] == r;
    }
  }

  /** The first-maximal candidate for a path is the one `PathDecision` names. */
  lemma {:induction false} KeptIsDecision(version: Version, s: Settings, local: seq<LocalFile>, remote: seq<RemoteFile>, idx: IndexFiles, i: int)
    requires FirstMaximal(version, Candidates(s, local, remote, idx), i)
    ensures DecisionAt(version, s, local, remote, idx, Candidates(s, local, remote, idx)[i].rel) == Some(Candidates(s, local, remote, idx)[i].kind)
  {
    var cands := Candidates(s, local, remote, idx);
    var r := cands[i].rel;
    var a := ClassifyOps(s, local, remote, idx, PlanRels(local, remote));
    var b := if s.deletePolicy == Mirror then MirrorOps(s, local, remote, idx, IndexKeys(idx)) else [];
    assert cands == a + b;
    ClassifyOpsFor(s, local, remote, idx, PlanRels(local, remote), r);
    MirrorOpsFor(s, local, remote, idx, IndexKeys(idx), r);
    RelsCover(s, local, remote, idx, r);
    var c := ClassifyAt(s, local, remote, idx, r);
    var d := if s.deletePolicy == Mirror then MirrorAt(s, local, remote, idx, r) else None;
    assert AllKinds(b, r, d) by {
      if s.deletePolicy != Mirror {
        assert b == [];
      }
    }
    assert d.Some? ==> HasRel(b, r);
    CombineKept(version, a, b, i, c, d);
  }

  /**
   * Two passes' candidates `a` and `b`, all of kind `c` and `d` on the
   * path of `(a + b)[i]` and present when those are: the first-maximal
   * candidate is the one `Combine` names.
   */
  lemma {:induction false} CombineKept(version: Version, a: seq<Op>, b: seq<Op>, i: int, c: Option<OpKind>, d: Option<OpKind>)
    requires FirstMaximal(version, a + b, i)
    requires AllKinds(a, (a + b)[i].rel, c) && AllKinds(b, (a + b)[i].rel, d)
    requires c.Some? ==> HasRel(a, (a + b)[i].rel)
    requires d.Some? ==> HasRel(b, (a + b)[i].rel)
    ensures Combine(version, c, d) == Some((a + b)[i].kind)
  {
    var cands := a + b;
    var r := cands[i].rel;
    if i < |a| {
      assert a[i] == cands[i];
      if d.Some? {
        var j :| 0 <= j < |b| && b[j].rel == r;
        assert cands[|a| + j] == b[j];
      }
    } else {
      assert b[i - |a|] == cands[i];
      if c.Some? {
        var j :| 0 <= j < |a| && a[j].rel == r;
        assert cands[j] == a[j];
      }
    }
  }

  /**
   * The plan holds, for each path, the operation `PathDecision` names for
   * it, and it holds every path for which `PathDecision` names one, once.
   */
  lemma {:induction false} PlanDecides(version: Version, s: Settings, local: seq<LocalFile>, remote: seq<RemoteFile>, idx: IndexFiles)
    ensures forall k :: 0 <= k < |PlanOf(version, s, local, remote, idx)| ==>
      DecisionAt(version, s, local, remote, idx, PlanOf(version, s, local, remote, idx)[k].rel)
        == Some(PlanOf(version, s, local, remote, idx)[k].kind)
    ensures forall r :: DecisionAt(version, s, local, remote, idx, r).Some? ==>
      exists k :: 0 <= k < |PlanOf(version, s, local, remote, idx)| && PlanOf(version, s, local, remote, idx)[k].rel == r
    ensures forall i, j :: 0 <= i < j < |PlanOf(version, s, local, remote, idx)| ==>
      PlanOf(version, s, local, remote, idx)[i].rel != PlanOf(version, s, local, remote, idx)[j].rel
  {
    var cands := Candidates(s, local, remote, idx);
    var plan := PlanOf(version, s, local, remote, idx);
    assert plan == Deduplicate(version, cands);
    DedupCharacterised(version, cands);
    DedupOnePerPath(version, cands);
    forall k | 0 <= k < |plan|
      ensures DecisionAt(version, s, local, remote, idx, plan[k].rel) == Some(plan[k].kind)
    {
      assert Kept(version, cands, plan[k]);
      var i :| FirstMaximal(version, cands, i) && plan[k] == cands[i];
      KeptIsDecision(version, s, local, remote, idx, i);
    }
    forall r | DecisionAt(version, s, local, remote, idx, r).Some?
      ensures exists k :: 0 <= k < |plan| && plan[k].rel == r
    {
      var a := ClassifyOps(s, local, remote, idx, PlanRels(local, remote));
      var b := if s.deletePolicy == Mirror then MirrorOps(s, local, remote, idx, IndexKeys(idx)) else [];
      assert cands == a + b;
      ClassifyOpsFor(s, local, remote, idx, PlanRels(local, remote), r);
      MirrorOpsFor(s, local, remote, idx, IndexKeys(idx), r);
      RelsCover(s, local, remote, idx, r);
      MirrorNeedsCandidate(s, LastLocal(local, r), LastRemote(remote, r), Lookup(idx, r));
      var j :| 0 <= j < |a| && a[j].rel == r;
      assert cands[j] in cands;
    }
  }

  /** The first loop of `buildPlan`: one candidate at most per visited path. */
  method ClassifyLoop(s: Settings, local: seq<LocalFile>, remote: seq<RemoteFile>, idx: IndexFiles, rels: seq<string>)
    returns (cands: seq<Op>)
    ensures cands == ClassifyOps(s, local, remote, idx, rels)
  {
    cands := [];
    for i := 0 to |rels|
      invariant cands == ClassifyOps(s, local, remote, idx, rels[..i])
    {
      assert rels[..i + 1][..i] == rels[..i];
      var rel := rels[i];
      var k := Classify(s, LastLocal(local, rel), LastRemote(remote, rel), Lookup(idx, rel));
      cands := cands + Emit(k, rel);
    }
    assert rels[..|rels|] == rels;
  }

  /** The mirror loop of `buildPlan`, over the index keys. */
  method MirrorLoop(s: Settings, local: seq<LocalFile>, remote: seq<RemoteFile>, idx: IndexFiles, keys: seq<string>)
    returns (dels: seq<Op>)
    ensures dels == MirrorOps(s, local, remote, idx, keys)
  {
    dels := [];
    for i := 0 to |keys|
      invariant dels == MirrorOps(s, local, remote, idx, keys[..i])
    {
      assert keys[..i + 1][..i] == keys[..i];
      var rel := keys[i];
      var k := MirrorDelete(s, LastLocal(local, rel), LastRemote(remote, rel), Lookup(idx, rel));
      dels := dels + Emit(k, rel);
    }
    assert keys[..|keys|] == keys;
  }

  /** `buildPlan` on listings already fetched: the two pushing loops and then the deduplication loop. */
  method BuildPlan(version: Version, s: Settings, local: seq<LocalFile>, listing: seq<RemoteFile>, idx: IndexFiles)
    returns (plan: seq<Op>)
    ensures plan == PlanOf(version, s, local, RemoteSide(version, s, listing), idx)
  {
    var remote := RemoteSide(version, s, listing);
    var cands := ClassifyLoop(s, local, remote, idx, PlanRels(local, remote));
    if s.deletePolicy == Mirror {
      var dels := MirrorLoop(s, local, remote, idx, IndexKeys(idx));
      cands := cands + dels;
    }
    assert cands == Candidates(s, local, remote, idx);
    plan := DedupPlan(version, cands);
  }
}
