/**
 * `executePlan`: the plan's operations are run phase by phase through the
 * run tracker, the local side is rescanned, the remote side relisted (or
 * taken from the plan), the index rebuilt from both, and the settings
 * saved, which in the current copy persists the index file when needed.
 */
module Execute {
  import opened Common
  import opened Records
  import opened Dedup
  import opened RunState
  import opened Runner
  import opened IndexRebuild
  import opened Filters
  import opened Paths
  import opened IndexHash
  import opened IndexStore
  import opened Plan
  import opened PlanProperties

  /** The listing the rebuild relists: the files the server reports below the relist folder, their paths made relative to it. */
  function Relisted(version: Version, server: string -> seq<RemoteFile>, remoteBasePath: string, vaultFolderName: string, vaultName: string): seq<RemoteFile> {
    var base := RelistBase(version, remoteBasePath, vaultFolderName, vaultName);
    ListedUnder(server(base), base)
  }

  /** The files of the rebuilt index. */
  function NewFiles(version: Version, s: Settings, plan: seq<Op>, localAfter: seq<LocalFile>, relisted: seq<RemoteFile>, fromPlan: Option<seq<RemoteFile>>): IndexFiles {
    Rebuild(localAfter, RemoteAfter(version, s, plan, relisted, fromPlan))
  }

  /**
   * The operations part of `executePlan`: the uploads and the downloads
   * through `runWithConcurrency`, then the conflicts, the remote deletes and
   * the local deletes through loops that check the cancel flag the same way.
   */
  method RunPlan(t: Tracker, plan: seq<Op>, task: Op -> Option<string>, cancelAt: nat) returns (ran: seq<Outcome>)
    modifies t
    ensures var r := RunItems(Report(t.version, Cap(t.progressLines)), old(t.currentRun), Phased(plan), task, cancelAt, 0);
      t.currentRun == r.cur && ran == r.ran
    ensures t.progressLines == old(t.progressLines)
  {
    ghost var report := Report(t.version, Cap(t.progressLines));
    ghost var c0 := t.currentRun;
    var uploads, downloads, conflicts := OfKind(plan, Upload), OfKind(plan, Download), OfKind(plan, Conflict);
    var rDeletes, lDeletes := OfKind(plan, RemoteDelete), OfKind(plan, LocalDelete);
    ran := RunWithConcurrency(t, uploads, task, cancelAt, 0);
    ghost var done := uploads;
    ran := RunNext(t, report, c0, done, downloads, task, cancelAt, ran);
    done := done + downloads;
    ran := RunNext(t, report, c0, done, conflicts, task, cancelAt, ran);
    done := done + conflicts;
    ran := RunNext(t, report, c0, done, rDeletes, task, cancelAt, ran);
    done := done + rDeletes;
    ran := RunNext(t, report, c0, done, lDeletes, task, cancelAt, ran);
  }

  /** One more phase: running `next` after `done` is running `done + next`. */
  method RunNext(t: Tracker, ghost report: (Option<Run>, Outcome) -> Option<Run>, ghost c0: Option<Run>, ghost done: seq<Op>, next: seq<Op>,
                 task: Op -> Option<string>, cancelAt: nat, ranBefore: seq<Outcome>) returns (ran: seq<Outcome>)
    requires report == Report(t.version, Cap(t.progressLines))
    requires var r := RunItems(report, c0, done, task, cancelAt, 0); t.currentRun == r.cur && ranBefore == r.ran
    modifies t
    ensures var r := RunItems(report, c0, done + next, task, cancelAt, 0); t.currentRun == r.cur && ran == r.ran
    ensures t.progressLines == old(t.progressLines)
  {
    ghost var mid := t.currentRun;
    var more := RunWithConcurrency(t, next, task, cancelAt, |ranBefore|);
    assert Report(t.version, Cap(t.progressLines)) == report;
    PhaseAppend(report, c0, done, next, task, cancelAt, mid, ranBefore, t.currentRun, more);
    ran := ranBefore + more;
  }

  /** The remote side of the rebuild: relisted, or in the current copy taken from the plan when nothing changed remotely, then filtered. */
  method ListingAfter(version: Version, s: Settings, plan: seq<Op>, server: string -> seq<RemoteFile>, remoteBasePath: string, vaultFolderName: string,
                      vaultName: string, fromPlan: Option<seq<RemoteFile>>) returns (remoteAfter: seq<RemoteFile>)
    ensures remoteAfter == RemoteAfter(version, s, plan, Relisted(version, server, remoteBasePath, vaultFolderName, vaultName), fromPlan)
  {
    if version == Current {
      var remoteChanged := |OfKind(plan, Upload)| > 0 || |OfKind(plan, RemoteDelete)| > 0;
      if remoteChanged || fromPlan.None? {
        var base := RelistBase(version, remoteBasePath, vaultFolderName, vaultName);
        remoteAfter := ListedUnder(server(base), base);
      } else {
        remoteAfter := fromPlan.value;
      }
      remoteAfter := FilterRemote(s, remoteAfter);
    } else {
      var base := RelistBase(version, remoteBasePath, vaultFolderName, vaultName);
      remoteAfter := ListedUnder(server(base), base);
    }
  }

  /** `RunItemsAppend` with the run and the outcomes after `done` and after `next` named. */
  lemma {:induction false} PhaseAppend(report: (Option<Run>, Outcome) -> Option<Run>, c0: Option<Run>, done: seq<Op>, next: seq<Op>, task: Op -> Option<string>,
                                       cancelAt: nat, mid: Option<Run>, ranBefore: seq<Outcome>, cur: Option<Run>, more: seq<Outcome>)
    requires RunItems(report, c0, done, task, cancelAt, 0) == Ran(mid, ranBefore)
    requires RunItems(report, mid, next, task, cancelAt, |ranBefore|) == Ran(cur, more)
    ensures RunItems(report, c0, done + next, task, cancelAt, 0) == Ran(cur, ranBefore + more)
  {
    RunItemsAppend(report, c0, done, next, task, cancelAt, 0);
  }

  /**
   * `executePlan(plan, remoteMapFromPlan)` followed, in the current copy, by
   * the `persistIndexIfNeeded(false)` of `saveSettings`. The host's answers
   * are parameters: `task` gives each operation's error, if any; the cancel
   * request arrives once `cancelAt` operations have started; `localAfter`
   * is the rescan; `server` lists a remote folder; `now` is the clock;
   * `found` and `writeOk` answer the index file's existence check and write.
   */
  method ExecutePlan(t: Tracker, store: Plugin, s: Settings, plan: seq<Op>, task: Op -> Option<string>, cancelAt: nat,
                     localAfter: seq<LocalFile>, server: string -> seq<RemoteFile>, remoteBasePath: string, vaultFolderName: string, vaultName: string,
                     fromPlan: Option<seq<RemoteFile>>, now: string, found: bool, writeOk: bool) returns (ran: seq<Outcome>)
    modifies t, store
    ensures var r := RunItems(Report(t.version, Cap(t.progressLines)), old(t.currentRun), Phased(plan), task, cancelAt, 0);
      t.currentRun == r.cur && ran == r.ran
    ensures t.progressLines == old(t.progressLines)
    ensures var relisted := Relisted(t.version, server, remoteBasePath, vaultFolderName, vaultName);
      store.index == IndexJson(NewFiles(t.version, s, plan, localAfter, relisted, fromPlan),
                               if t.version == Current then Some(now) else LastSyncOf(old(store.index)))
    ensures t.version == Current ==>
      store.StoreOf() == PersistWith(NewHash(store.h, store.index), ComputeIndexHash(store.h, Payload(store.index)), old(store.StoreOf()), false, found, writeOk).store
    ensures t.version == Previous ==> store.StoreOf() == old(store.StoreOf())
  {
    ran := RunPlan(t, plan, task, cancelAt);
    var remoteAfter := ListingAfter(t.version, s, plan, server, remoteBasePath, vaultFolderName, vaultName, fromPlan);
    var files := RebuildIndex(localAfter, remoteAfter);
    SaveIndex(t.version, store, files, now, found, writeOk);
  }

  /**
   * The end of `executePlan`: the rebuilt index replaces the old one; the
   * current copy stamps it with `now` and persists it when needed, the
   * older one keeps `lastSyncAt` and leaves the index file alone (it saves
   * the index with its settings through `saveData`, which is not modelled).
   */
  method SaveIndex(version: Version, store: Plugin, files: IndexFiles, now: string, found: bool, writeOk: bool)
    modifies store
    ensures store.index == IndexJson(files, if version == Current then Some(now) else LastSyncOf(old(store.index)))
    ensures version == Current ==>
      store.StoreOf() == PersistWith(NewHash(store.h, store.index), ComputeIndexHash(store.h, Payload(store.index)), old(store.StoreOf()), false, found, writeOk).store
    ensures version == Previous ==> store.StoreOf() == old(store.StoreOf())
  {
    if version == Current {
      store.index := IndexJson(files, Some(now));
      var _ := store.PersistIndexIfNeeded(false, found, writeOk);
    } else {
      store.index := IndexJson(files, LastSyncOf(store.index));
    }
  }

  // ---------------------------------------------------------------- what a run of the plan guarantees

  /**
   * Without a cancel request, every operation of the plan runs once, and
   * after `startRun` and `setRunPlan(plan)` the current copy ends with
   * nothing queued in total or in any bucket, one done-or-failed count per
   * operation, and each bucket's done count equal to its successes.
   */
  lemma {:induction false} ExecuteAccounting(r: Run, plan: seq<Op>, task: Op -> Option<string>, cancelAt: nat, cap: int)
    requires cap >= 1 && |plan| <= cancelAt && !r.canceled
    requires r.done == 0 && r.failed == 0 && |r.lastOps| <= cap && forall b :: Get(r.counts, b).done == 0
    ensures var x := RunItems(Report(Current, cap), Some(WithPlan(r, plan)), Phased(plan), task, cancelAt, 0);
      x.ran == Outcomes(Phased(plan), task) && multiset(Phased(plan)) == multiset(plan)
      && x.cur.Some? && x.cur.value.queued == 0 && x.cur.value.done + x.cur.value.failed == |plan|
      && forall b :: Get(x.cur.value.counts, b).queued == 0 && Get(x.cur.value.counts, b).done == OkIn(Current, x.ran, b)
  {
    var cur := Some(WithPlan(r, plan));
    var items := Phased(plan);
    PhasedPermutation(plan);
    assert |items| == |multiset(items)| == |multiset(plan)| == |plan|;
    RunItemsComplete(Current, cap, cur, items, task, cancelAt, 0);
    var outs := Outcomes(items, task);
    forall b
      ensures TallyOut(outs, b) == Tally(plan, b)
    {
      TallyOutOutcomes(items, task, b);
      PhasedTally(plan, b);
    }
    PlanAccounting(r, plan, outs, cap);
  }

  /**
   * With a cancel request, an active run starts no operation after the
   * request: at most `cancelAt` operations run, they are the first ones of
   * the phased plan, the run stops short only once canceled, and apart from
   * the cancel flag the run shows exactly those operations reported.
   */
  lemma {:induction false} ExecuteCanceled(version: Version, cur: Run, plan: seq<Op>, task: Op -> Option<string>, cancelAt: nat, cap: int)
    requires cap >= 1 && cur.active
    ensures var x := RunItems(Report(version, cap), Some(cur), Phased(plan), task, cancelAt, 0);
      |x.ran| <= cancelAt && x.cur.Some? && x.cur.value.active
      && x.ran == Outcomes(Phased(plan)[..|x.ran|], task)
      && (|x.ran| < |plan| ==> x.cur.value.canceled)
      && Uncanceled(x.cur) == Uncanceled(Replay(version, Some(cur), x.ran, cap))
  {
    var items := Phased(plan);
    PhasedPermutation(plan);
    assert |items| == |multiset(items)| == |multiset(plan)| == |plan|;
    RunItemsStopsAtCancel(version, cap, Some(cur), items, task, cancelAt, 0);
    RunItemsShape(Report(version, cap), Some(cur), items, task, cancelAt, 0);
    RunItemsReplay(version, cap, Some(cur), items, task, cancelAt, 0);
  }

  // ---------------------------------------------------------------- the relist folder of the older copy

  /**
   * The older copy relists the configured root `app:/` instead of the vault
   * folder `app:/<folder>` the plan was built from. A file the plan saw as
   * `rel` is then listed as `<folder>/rel`, the rebuilt entry of `rel`
   * finds no remote item and records remote time 0, and the next plan
   * downloads the unchanged file again, whenever downloading is allowed.
   */
  lemma {:induction false} OldRelistLosesRemoteState(s: Settings, folder: string, vaultName: string, s1: string, s2: string, loc: LocalFile, item: RemoteFile, plan: seq<Op>, fromPlan: Option<seq<RemoteFile>>)
    requires PlainFolder(folder) && s1 != [] && '/' !in s1 && '/' !in s2
    requires item.path == "disk:/" + s1 + "/" + s2 + "/" + folder + "/" + loc.rel && item.modified > 0
    ensures OldGetRemoteBase("app:/", folder, vaultName) == "app:/" + folder
    ensures ListedUnder([item], "app:/" + folder) == [item.(rel := loc.rel)]
    ensures var files := NewFiles(Previous, s, plan, [loc], Relisted(Previous, _ => [item], "app:/", folder, vaultName), fromPlan);
      files == [(loc.rel, IndexEntry(loc.mtime, loc.size, 0, None))]
      && (CanDownload(s) ==> InPlan(PlanOf(Previous, s, [loc], [item.(rel := loc.rel)], files), Download, loc.rel))
  {
    RemoteBaseApp(folder, vaultName);
    var rem := item.(rel := loc.rel);
    assert ListedUnder([item], "app:/" + folder) == [rem] by {
      RemoteAbsToRelApp(s1, s2, folder, loc.rel);
    }
    var relisted := Relisted(Previous, _ => [item], "app:/", folder, vaultName);
    assert relisted == [item.(rel := folder + "/" + loc.rel)] by {
      RemoteAbsToRelAppRoot(s1, s2, folder, loc.rel);
    }
    assert LastRemote(relisted, loc.rel).None? by {
      assert |folder + "/" + loc.rel| > |loc.rel|;
    }
    var files := NewFiles(Previous, s, plan, [loc], relisted, fromPlan);
    assert files == [(loc.rel, EntryFor(loc, None))] by {
      RebuildOne(loc, relisted);
    }
    NextPlanDownloads(s, loc, rem);
  }

  /** A local file as indexed, against a remote item newer than the recorded remote time 0: the plan downloads it. */
  lemma {:induction false} NextPlanDownloads(s: Settings, loc: LocalFile, rem: RemoteFile)
    requires rem.rel == loc.rel && rem.modified > 0
    ensures CanDownload(s) ==> InPlan(PlanOf(Previous, s, [loc], [rem], [(loc.rel, EntryFor(loc, None))]), Download, loc.rel)
  {
    var files := [(loc.rel, EntryFor(loc, None))];
    assert LastLocal([loc], loc.rel) == Some(loc);
    assert LastRemote([rem], loc.rel) == Some(rem);
    assert Lookup(files, loc.rel) == Some(EntryFor(loc, None));
    PlanOpsDecided(Previous, s, [loc], [rem], files, loc.rel);
  }

  /**
   * The current copy relists `getRemoteBase()`, the folder the plan was
   * built from: the rebuilt entry records the item's time and revision, and
   * the next plan leaves the unchanged file alone.
   */
  lemma {:induction false} RelistKeepsRemoteState(s: Settings, folder: string, vaultName: string, s1: string, s2: string, loc: LocalFile, item: RemoteFile, plan: seq<Op>)
    requires PlainFolder(folder) && s1 != [] && '/' !in s1 && '/' !in s2
    requires item.path == "disk:/" + s1 + "/" + s2 + "/" + folder + "/" + loc.rel
    requires AllowRemoteItem(s, item.(rel := loc.rel))
    ensures var files := NewFiles(Current, s, plan, [loc], Relisted(Current, _ => [item], "app:/", folder, vaultName), None);
      files == [(loc.rel, IndexEntry(loc.mtime, loc.size, item.modified, item.revision))]
      && forall k :: !InPlan(PlanOf(Current, s, [loc], RemoteSide(Current, s, [item.(rel := loc.rel)]), files), k, loc.rel)
  {
    RemoteBaseApp(folder, vaultName);
    var rem := item.(rel := loc.rel);
    var relisted := Relisted(Current, _ => [item], "app:/", folder, vaultName);
    assert relisted == [rem] by {
      RemoteAbsToRelApp(s1, s2, folder, loc.rel);
    }
    assert FilterRemote(s, [rem]) == [rem] by {
      assert [rem][..0] == [];
    }
    var files := NewFiles(Current, s, plan, [loc], relisted, None);
    assert files == [(loc.rel, EntryFor(loc, Some(rem)))] by {
      RebuildOne(loc, [rem]);
      assert LastRemote([rem], loc.rel) == Some(rem);
    }
    NextPlanNothing(s, loc, rem);
  }

  /** A local file and a remote item both exactly as indexed: the plan has nothing for the path. */
  lemma {:induction false} NextPlanNothing(s: Settings, loc: LocalFile, rem: RemoteFile)
    requires rem.rel == loc.rel
    ensures forall k :: !InPlan(PlanOf(Current, s, [loc], [rem], [(loc.rel, EntryFor(loc, Some(rem)))]), k, loc.rel)
  {
    var files := [(loc.rel, EntryFor(loc, Some(rem)))];
    assert LastLocal([loc], loc.rel) == Some(loc);
    assert LastRemote([rem], loc.rel) == Some(rem);
    assert Lookup(files, loc.rel) == Some(EntryFor(loc, Some(rem)));
    PlanNoChangeNoOp(Current, s, [loc], [rem], files, loc.rel);
  }

  // ---------------------------------------------------------------- an upload that did not happen

  /**
   * The rebuild ignores how the operations ended. A new local file whose
   * upload fails in two-way mirror mode is indexed anyway, with remote time
   * 0; the relisting does not have it, and the next plan deletes the local
   * file, which the server never received.
   */
  lemma {:induction false} FailedUploadDeletedNextRun(s: Settings, x: LocalFile, before: IndexFiles, err: string)
    requires TwoWayMirror(s) && Lookup(before, x.rel).None?
    ensures InPlan(PlanOf(Current, s, [x], [], before), Upload, x.rel)
    ensures var plan := PlanOf(Current, s, [x], [], before);
      var files := NewFiles(Current, s, plan, [x], [], Some([]));
      files == [(x.rel, IndexEntry(x.mtime, x.size, 0, None))]
      && PlanOf(Current, s, [x], [], files) == [Op(LocalDelete, x.rel)]
  {
    assert InPlan(PlanOf(Current, s, [x], [], before), Upload, x.rel) by {
      PlanOneSided(Current, s, [x], [], before, x.rel);
      assert LastLocal([x], x.rel) == Some(x);
    }
    var plan := PlanOf(Current, s, [x], [], before);
    assert NewFiles(Current, s, plan, [x], [], Some([])) == [(x.rel, EntryFor(x, None))] by {
      assert RemoteAfter(Current, s, plan, [], Some([])) == [];
      RebuildOne(x, []);
    }
    DeletedRemotelyScenario(Current, s, [x], [], [(x.rel, EntryFor(x, None))], x, EntryFor(x, None));
  }

  /**
   * With the corrected rebuild, the failed upload leaves the path without
   * an entry, and the next plan uploads the file again and deletes nothing.
   */
  lemma {:induction false} FailedUploadRetried(s: Settings, x: LocalFile, before: IndexFiles, err: string)
    requires TwoWayMirror(s) && Lookup(before, x.rel).None?
    ensures var plan := PlanOf(Current, s, [x], [], before);
      var ran := [Outcome(Op(Upload, x.rel), Some(err))];
      var files := SettledRebuild([x], RemoteAfter(Current, s, plan, [], Some([])), before, plan, ran);
      Lookup(files, x.rel).None?
      && InPlan(PlanOf(Current, s, [x], [], files), Upload, x.rel)
      && forall k :: k != Upload ==> !InPlan(PlanOf(Current, s, [x], [], files), k, x.rel)
  {
    var plan := PlanOf(Current, s, [x], [], before);
    NewFileUploads(s, x, before);
    var ran := [Outcome(Op(Upload, x.rel), Some(err))];
    var remote := RemoteAfter(Current, s, plan, [], Some([]));
    FailedUnsettled(plan, x.rel, err);
    var files := SettledRebuild([x], remote, before, plan, ran);
    assert Lookup(files, x.rel).None? by {
      SettledRebuildLookup([x], remote, before, plan, ran, x.rel);
      assert LastLocal([x], x.rel) == Some(x);
    }
    NewFileUploads(s, x, files);
  }

  /** A new local file that the index does not know and the server does not have is uploaded, and nothing else happens to it. */
  lemma {:induction false} NewFileUploads(s: Settings, x: LocalFile, idx: IndexFiles)
    requires TwoWayMirror(s) && Lookup(idx, x.rel).None?
    ensures InPlan(PlanOf(Current, s, [x], [], idx), Upload, x.rel)
    ensures forall k :: k != Upload ==> !InPlan(PlanOf(Current, s, [x], [], idx), k, x.rel)
  {
    PlanOneSided(Current, s, [x], [], idx, x.rel);
    assert LastLocal([x], x.rel) == Some(x);
  }

  /** A planned upload whose only outcome is a failure leaves its path unsettled. */
  lemma {:induction false} FailedUnsettled(plan: seq<Op>, rel: string, err: string)
    requires InPlan(plan, Upload, rel)
    ensures !Settled(plan, [Outcome(Op(Upload, rel), Some(err))], rel)
  {
    var i :| 0 <= i < |plan| && plan[i] == Op(Upload, rel);
  }
}
