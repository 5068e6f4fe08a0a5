/**
 * The progress record of one sync run (`currentRun`): overall counters,
 * per-kind buckets, the cancellation flag and a bounded log of recent
 * operations, together with the calls that update it.
 */
module RunState {
  import opened Common
  import opened Records
  import opened Dedup

  /** `phase`: 'Planning' until the first operation starts, then the kind of the latest one. */
  datatype Phase = Planning | Working(kind: OpKind)

  datatype Counter = Counter(queued: int, done: int)

  datatype Bucket = UploadBucket | DownloadBucket | DelBucket | ConflictBucket

  /** The four entries of `counts`. */
  datatype Counts = Counts(upload: Counter, download: Counter, del: Counter, conflict: Counter)

  /**
   * One line of `lastOps`: outcome, kind, path and, for a failure, the error
   * text. The `-> toAbs` / `<- fromAbs` decorations of the text are not kept.
   */
  datatype OpLine = OpLine(ok: bool, kind: OpKind, rel: string, err: string)

  /** `currentRun` (its start and end times are not kept). */
  datatype Run = Run(
    active: bool,
    dryRun: bool,
    phase: Phase,
    total: int,
    done: int,
    failed: int,
    queued: int,
    canceled: bool,
    lastOps: seq<OpLine>,
    counts: Counts)

  /** What a task reported: its operation and, when it threw, the message. */
  datatype Outcome = Outcome(op: Op, err: Option<string>)

  function Get(c: Counts, b: Bucket): Counter {
    match b
    case UploadBucket => c.upload
    case DownloadBucket => c.download
    case DelBucket => c.del
    case ConflictBucket => c.conflict
  }

  function Set(c: Counts, b: Bucket, v: Counter): (r: Counts)
    ensures Get(r, b) == v
    ensures forall o :: o != b ==> Get(r, o) == Get(c, o)
  {
    match b
    case UploadBucket => c.(upload := v)
    case DownloadBucket => c.(download := v)
    case DelBucket => c.(del := v)
    case ConflictBucket => c.(conflict := v)
  }

  const Zero := Counter(0, 0)

  /** `startRun`: an active run with `planCount` operations queued and nothing done. */
  function Fresh(dryRun: bool, planCount: int): Run {
    Run(true, dryRun, Planning, planCount, 0, 0, planCount, false, [], Counts(Zero, Zero, Zero, Zero))
  }

  /** The bucket `setRunPlan` counts an operation in (the same in both copies). */
  function PlanBucket(k: OpKind): Bucket {
    match k
    case Upload => UploadBucket
    case Download => DownloadBucket
    case RemoteDelete => DelBucket
    case LocalDelete => DelBucket
    case Conflict => ConflictBucket
  }

  /**
   * The bucket `reportOpEnd` credits. The current copy credits the bucket
   * the plan was counted in; the older one has no conflict branch and
   * credits conflicts to `del`.
   */
  function EndBucket(version: Version, k: OpKind): (b: Bucket)
    ensures version == Current ==> b == PlanBucket(k)
    ensures version == Previous ==> (b == PlanBucket(k) <==> k != Conflict)
  {
    if k == Upload then UploadBucket
    else if k == Download then DownloadBucket
    else if k == Conflict && version == Current then ConflictBucket
    else DelBucket
  }

  /** The number of operations of `plan` counted in bucket `b`. */
  function Tally(plan: seq<Op>, b: Bucket): (n: nat)
    ensures n <= |plan|
  {
    if plan == [] then 0
    else Tally(plan[..|plan| - 1], b) + (if PlanBucket(plan[|plan| - 1].kind) == b then 1 else 0)
  }

  /** Every operation is counted in exactly one bucket. */
  lemma {:induction false} TallyTotal(plan: seq<Op>)
    ensures Tally(plan, UploadBucket) + Tally(plan, DownloadBucket) + Tally(plan, DelBucket) + Tally(plan, ConflictBucket) == |plan|
  {
    if plan != [] {
      TallyTotal(plan[..|plan| - 1]);
    }
  }

  /** `setRunPlan`: the plan's size becomes the total and the queue, and each bucket's queue its tally. */
  function WithPlan(r: Run, plan: seq<Op>): (r': Run)
    ensures r'.total == |plan| && r'.queued == |plan|
    ensures forall b :: Get(r'.counts, b) == Counter(Tally(plan, b), Get(r.counts, b).done)
    ensures r' == r.(total := r'.total, queued := r'.queued, counts := r'.counts)
  {
    r.(total := |plan|, queued := |plan|, counts := Counts(
      Counter(Tally(plan, UploadBucket), r.counts.upload.done),
      Counter(Tally(plan, DownloadBucket), r.counts.download.done),
      Counter(Tally(plan, DelBucket), r.counts.del.done),
      Counter(Tally(plan, ConflictBucket), r.counts.conflict.done)))
  }

  /** `Math.max(1, progressLines || 25)`: zero (or unset) means 25, and the bound is never below 1. */
  function Cap(progressLines: int): (c: int)
    ensures c >= 1
    ensures progressLines >= 1 ==> c == progressLines
    ensures progressLines == 0 ==> c == 25
    ensures progressLines < 0 ==> c == 1
  {
    Max(1, if progressLines == 0 then 25 else progressLines)
  }

  /** What `while (lastOps.length > cap) lastOps.shift()` leaves: the newest `cap` lines. */
  function Trim(lines: seq<OpLine>, cap: int): (r: seq<OpLine>)
    requires cap >= 1
    ensures |r| == Min(|lines|, cap)
    ensures r == lines[|lines| - |r|..]
  {
    if |lines| > cap then lines[|lines| - cap..] else lines
  }

  function LineOf(o: Outcome): OpLine {
    OpLine(o.err.None?, o.op.kind, o.op.rel, if o.err.Some? then o.err.value else "")
  }

  /**
   * `reportOpEnd` on a run: one more done or failed operation, one fewer
   * queued (never below zero), the same in the operation's bucket, and its
   * line appended to the log, which keeps at most `cap` lines.
   */
  function EndOp(version: Version, r: Run, o: Outcome, cap: int): (r': Run)
    requires cap >= 1
    ensures r'.done + r'.failed == r.done + r.failed + 1 && r'.queued >= 0
    ensures 1 <= |r'.lastOps| <= cap && r'.lastOps[|r'.lastOps| - 1] == LineOf(o)
  {
    var ok := o.err.None?;
    var b := EndBucket(version, o.op.kind);
    var c := Get(r.counts, b);
    r.(done := r.done + (if ok then 1 else 0),
       failed := r.failed + (if ok then 0 else 1),
       queued := Max(0, r.queued - 1),
       counts := Set(r.counts, b, Counter(Max(0, c.queued - 1), c.done + (if ok then 1 else 0))),
       lastOps := Trim(r.lastOps + [LineOf(o)], cap))
  }

  /**
   * What else `reportOpEnd` changes: the success count, the queue (one
   * fewer, never below zero), the operation's own bucket in the same way,
   * and the log, which keeps its newest lines. Nothing else moves.
   */
  lemma {:induction false} EndOpEffect(version: Version, r: Run, o: Outcome, cap: int)
    requires cap >= 1
    ensures var r' := EndOp(version, r, o, cap);
      var b := EndBucket(version, o.op.kind);
      r'.done == r.done + (if o.err.None? then 1 else 0)
      && (r.queued > 0 ==> r'.queued == r.queued - 1) && (r.queued <= 0 ==> r'.queued == 0)
      && Get(r'.counts, b).done == Get(r.counts, b).done + (if o.err.None? then 1 else 0)
      && Get(r'.counts, b).queued == Max(0, Get(r.counts, b).queued - 1)
      && (forall b' :: b' != b ==> Get(r'.counts, b') == Get(r.counts, b'))
      && r'.lastOps == Trim(r.lastOps + [LineOf(o)], cap)
      && r'.total == r.total && r'.active == r.active && r'.canceled == r.canceled && r'.phase == r.phase
  {
  }

  // The calls as the plugin makes them: each does nothing when there is no current run.

  function OnStart(cur: Option<Run>, op: Op): (r: Option<Run>)
    ensures r.Some? <==> cur.Some?
  {
    if cur.None? then None else Some(cur.value.(phase := Working(op.kind)))
  }

  function OnEnd(version: Version, cur: Option<Run>, o: Outcome, cap: int): (r: Option<Run>)
    requires cap >= 1
    ensures r.Some? <==> cur.Some?
  {
    if cur.None? then None else Some(EndOp(version, cur.value, o, cap))
  }

  /**
   * `cancelCurrentRun`: only an active run can be canceled; afterwards the
   * run is canceled exactly when it was active or canceled already, and
   * nothing but the flag changes.
   */
  function OnCancel(cur: Option<Run>): (r: Option<Run>)
    ensures r.Some? <==> cur.Some?
    ensures IsCanceled(r) <==> cur.Some? && (cur.value.active || cur.value.canceled)
    ensures r.Some? ==> r.value.(canceled := false) == cur.value.(canceled := false)
  {
    if cur.Some? && cur.value.active then Some(cur.value.(canceled := true)) else cur
  }

  /** `this.currentRun?.canceled`. */
  predicate IsCanceled(cur: Option<Run>) {
    cur.Some? && cur.value.canceled
  }

  /** `reportOpStart` and `reportOpEnd` for each outcome in turn. */
  function Replay(version: Version, cur: Option<Run>, outs: seq<Outcome>, cap: int): (r: Option<Run>)
    requires cap >= 1
    ensures r.Some? <==> cur.Some?
  {
    if outs == [] then cur
    else OnEnd(version, OnStart(Replay(version, cur, outs[..|outs| - 1], cap), outs[|outs| - 1].op), outs[|outs| - 1], cap)
  }

  lemma {:induction false} ReplaySnoc(version: Version, cur: Option<Run>, q: seq<Outcome>, x: Outcome, cap: int)
    requires cap >= 1
    ensures Replay(version, cur, q + [x], cap) == OnEnd(version, OnStart(Replay(version, cur, q, cap), x.op), x, cap)
  {
    assert (q + [x])[..|q|] == q;
  }

  /** Replaying two runs of reports one after the other is replaying them together. */
  lemma {:induction false} ReplayAppend(version: Version, cur: Option<Run>, a: seq<Outcome>, b: seq<Outcome>, cap: int)
    requires cap >= 1
    ensures Replay(version, Replay(version, cur, a, cap), b, cap) == Replay(version, cur, a + b, cap)
    decreases |b|
  {
    if b != [] {
      var p, x := b[..|b| - 1], b[|b| - 1];
      assert b == p + [x];
      assert a + b == (a + p) + [x];
      ReplayAppend(version, cur, a, p, cap);
      ReplayAppendStep(version, cur, a, p, x, cap);
    } else {
      assert a + b == a;
    }
  }

  lemma {:induction false} ReplayAppendStep(version: Version, cur: Option<Run>, a: seq<Outcome>, p: seq<Outcome>, x: Outcome, cap: int)
    requires cap >= 1
    requires Replay(version, Replay(version, cur, a, cap), p, cap) == Replay(version, cur, a + p, cap)
    ensures Replay(version, Replay(version, cur, a, cap), p + [x], cap) == Replay(version, cur, (a + p) + [x], cap)
  {
    ReplaySnoc(version, cur, a + p, x, cap);
    ReplaySnoc(version, Replay(version, cur, a, cap), p, x, cap);
  }

  /** The outcomes counted in bucket `b` by `setRunPlan`'s rule. */
  function TallyOut(outs: seq<Outcome>, b: Bucket): (n: nat)
    ensures n <= |outs|
  {
    if outs == [] then 0
    else TallyOut(outs[..|outs| - 1], b) + (if PlanBucket(outs[|outs| - 1].op.kind) == b then 1 else 0)
  }

  /** The successful outcomes `reportOpEnd` credits to bucket `b`. */
  function OkIn(version: Version, outs: seq<Outcome>, b: Bucket): (n: nat)
    ensures n <= |outs|
  {
    if outs == [] then 0
    else OkIn(version, outs[..|outs| - 1], b) + (if EndBucket(version, outs[|outs| - 1].op.kind) == b && outs[|outs| - 1].err.None? then 1 else 0)
  }

  function OkCount(outs: seq<Outcome>): (n: nat)
    ensures n <= |outs|
  {
    if outs == [] then 0
    else OkCount(outs[..|outs| - 1]) + (if outs[|outs| - 1].err.None? then 1 else 0)
  }

  /**
   * The counters after a plan of `plan` was set and `outs` reported: every
   * report is counted once as done or failed, the queue shrinks by one per
   * report, each bucket's done count is its successes, and in the current
   * copy each bucket's queue shrinks by the reports of its own kind.
   */
  ghost predicate Accounted(version: Version, plan: seq<Op>, outs: seq<Outcome>, cap: int, f: Run) {
    f.done + f.failed == |outs| && f.done == OkCount(outs) && f.queued == Max(0, |plan| - |outs|)
    && (forall b :: Get(f.counts, b).done == OkIn(version, outs, b))
    && f.total == |plan| && |f.lastOps| <= cap
    && (version == Current ==> forall b :: Get(f.counts, b).queued == Max(0, Tally(plan, b) - TallyOut(outs, b)))
  }

  /** The counts over `p + [x]` are those over `p` and the one for `x`. */
  lemma {:induction false} CountsSnoc(version: Version, p: seq<Outcome>, x: Outcome)
    ensures var q := p + [x];
      OkCount(q) == OkCount(p) + (if x.err.None? then 1 else 0)
      && (forall b :: OkIn(version, q, b) == OkIn(version, p, b) + (if EndBucket(version, x.op.kind) == b && x.err.None? then 1 else 0))
      && (forall b :: TallyOut(q, b) == TallyOut(p, b) + (if PlanBucket(x.op.kind) == b then 1 else 0))
  {
    var q := p + [x];
    assert q[..|q| - 1] == p && q[|q| - 1] == x;
  }

  lemma {:induction false} AccountedStep(version: Version, plan: seq<Op>, p: seq<Outcome>, x: Outcome, cap: int, f: Run)
    requires cap >= 1 && Accounted(version, plan, p, cap, f)
    ensures Accounted(version, plan, p + [x], cap, EndOp(version, f.(phase := Working(x.op.kind)), x, cap))
  {
    var q := p + [x];
    var g := f.(phase := Working(x.op.kind));
    var r' := EndOp(version, g, x, cap);
    CountsSnoc(version, p, x);
    EndOpEffect(version, g, x, cap);
    var e := EndBucket(version, x.op.kind);
    forall b
      ensures Get(r'.counts, b).done == OkIn(version, q, b)
    {
      if b != e {
        assert Get(r'.counts, b) == Get(f.counts, b);
      }
    }
    if version == Current {
      forall b
        ensures Get(r'.counts, b).queued == Max(0, Tally(plan, b) - TallyOut(q, b))
      {
        if b != e {
          assert Get(r'.counts, b) == Get(f.counts, b);
        }
      }
    }
  }

  /** Reporting `outs` after `setRunPlan(plan)` on a run with nothing done yet leaves it `Accounted`. */
  lemma {:induction false} ReplayCounters(version: Version, r: Run, plan: seq<Op>, outs: seq<Outcome>, cap: int)
    requires cap >= 1
    requires r.done == 0 && r.failed == 0 && |r.lastOps| <= cap && forall b :: Get(r.counts, b).done == 0
    ensures Replay(version, Some(WithPlan(r, plan)), outs, cap).Some?
    ensures Accounted(version, plan, outs, cap, Replay(version, Some(WithPlan(r, plan)), outs, cap).value)
    decreases |outs|
  {
    if outs != [] {
      var p, x := outs[..|outs| - 1], outs[|outs| - 1];
      assert outs == p + [x];
      ReplayCounters(version, r, plan, p, cap);
      ReplaySnoc(version, Some(WithPlan(r, plan)), p, x, cap);
      AccountedStep(version, plan, p, x, cap, Replay(version, Some(WithPlan(r, plan)), p, cap).value);
    }
  }

  /**
   * Once every operation of the plan has been reported, the current copy
   * shows nothing queued anywhere, and each bucket's done count is the
   * number of its operations that succeeded.
   */
  lemma {:induction false} PlanAccounting(r: Run, plan: seq<Op>, outs: seq<Outcome>, cap: int)
    requires cap >= 1
    requires r.done == 0 && r.failed == 0 && |r.lastOps| <= cap && forall b :: Get(r.counts, b).done == 0
    requires forall b :: TallyOut(outs, b) == Tally(plan, b)
    ensures var f := Replay(Current, Some(WithPlan(r, plan)), outs, cap);
      f.Some? && f.value.queued == 0 && f.value.done + f.value.failed == |plan|
      && forall b :: Get(f.value.counts, b).queued == 0 && Get(f.value.counts, b).done == OkIn(Current, outs, b)
  {
    ReplayCounters(Current, r, plan, outs, cap);
    TallyTotal(plan);
    TallyOutTotal(outs);
  }

  lemma {:induction false} TallyOutTotal(outs: seq<Outcome>)
    ensures TallyOut(outs, UploadBucket) + TallyOut(outs, DownloadBucket) + TallyOut(outs, DelBucket) + TallyOut(outs, ConflictBucket) == |outs|
  {
    if outs != [] {
      TallyOutTotal(outs[..|outs| - 1]);
    }
  }

  /**
   * In the older copy a finished conflict is credited to `del`: after a
   * one-conflict plan completes, the conflict bucket still shows it queued
   * and not done.
   */
  lemma {:induction false} PreviousConflictStaysQueued(rel: string, cap: int)
    requires cap >= 1
    ensures var o := Outcome(Op(Conflict, rel), None);
      var f := Replay(Previous, Some(WithPlan(Fresh(false, 0), [o.op])), [o], cap).value;
      f.counts.conflict == Counter(1, 0) && f.counts.del == Counter(0, 1)
  {
    var o := Outcome(Op(Conflict, rel), None);
    assert [o][..0] == [];
    assert [o.op][..0] == [];
  }

  /**
   * The run-tracking part of the plugin object: which copy it is, the
   * `progressLines` setting and `currentRun`.
   */
  class Tracker {
    const version: Version
    var progressLines: int
    var currentRun: Option<Run>

    constructor(version: Version, progressLines: int)
      ensures this.version == version && this.progressLines == progressLines && currentRun == None
    {
      this.version := version;
      this.progressLines := progressLines;
      currentRun := None;
    }

    method StartRun(dryRun: bool, planCount: int)
      modifies this
      ensures currentRun == Some(Fresh(dryRun, planCount))
      ensures progressLines == old(progressLines)
    {
      currentRun := Some(Fresh(dryRun, planCount));
    }

    /** Counts the plan by kind in one pass, then sets the totals and the bucket queues. */
    method SetRunPlan(plan: seq<Op>)
      modifies this
      ensures currentRun == if old(currentRun).None? then None else Some(WithPlan(old(currentRun).value, plan))
      ensures progressLines == old(progressLines)
    {
      var up, down, del, conflict := 0, 0, 0, 0;
      for i := 0 to |plan|
        invariant up == Tally(plan[..i], UploadBucket) && down == Tally(plan[..i], DownloadBucket)
        invariant del == Tally(plan[..i], DelBucket) && conflict == Tally(plan[..i], ConflictBucket)
      {
        assert plan[..i + 1][..i] == plan[..i];
        var k := plan[i].kind;
        if k == Upload {
          up := up + 1;
        } else if k == Download {
          down := down + 1;
        } else if k == RemoteDelete || k == LocalDelete {
          del := del + 1;
        } else if k == Conflict {
          conflict := conflict + 1;
        }
      }
      assert plan[..|plan|] == plan;
      if currentRun.None? {
        return;
      }
      var r := currentRun.value;
      currentRun := Some(r.(total := |plan|, queued := |plan|, counts := Counts(
        Counter(up, r.counts.upload.done),
        Counter(down, r.counts.download.done),
        Counter(del, r.counts.del.done),
        Counter(conflict, r.counts.conflict.done))));
    }

    method FinishRun(ok: bool)
      modifies this
      ensures currentRun == if old(currentRun).None? then None else Some(old(currentRun).value.(active := false))
      ensures progressLines == old(progressLines)
    {
      if currentRun.Some? {
        currentRun := Some(currentRun.value.(active := false));
      }
    }

    method CancelCurrentRun()
      modifies this
      ensures currentRun == OnCancel(old(currentRun))
      ensures progressLines == old(progressLines)
    {
      if currentRun.Some? && currentRun.value.active {
        currentRun := Some(currentRun.value.(canceled := true));
      }
    }

    method ReportOpStart(op: Op)
      modifies this
      ensures currentRun == OnStart(old(currentRun), op)
      ensures progressLines == old(progressLines)
    {
      if currentRun.Some? {
        currentRun := Some(currentRun.value.(phase := Working(op.kind)));
      }
    }

    /** Updates the counters, appends the line, then shifts old lines out until at most `cap` remain. */
    method ReportOpEnd(o: Outcome)
      modifies this
      ensures currentRun == OnEnd(version, old(currentRun), o, Cap(progressLines))
      ensures progressLines == old(progressLines)
    {
      if currentRun.None? {
        return;
      }
      var r := currentRun.value;
      var ok := o.err.None?;
      var b := EndBucket(version, o.op.kind);
      var c := Get(r.counts, b);
      var cap := Max(1, if progressLines == 0 then 25 else progressLines);
      var lines := ShiftToCap(r.lastOps + [LineOf(o)], cap);
      currentRun := Some(r.(done := r.done + (if ok then 1 else 0),
        failed := r.failed + (if ok then 0 else 1),
        queued := Max(0, r.queued - 1),
        counts := Set(r.counts, b, Counter(Max(0, c.queued - 1), c.done + (if ok then 1 else 0))),
        lastOps := lines));
    }
  }

  /** `while (lastOps.length > cap) lastOps.shift()`. */
  method ShiftToCap(full: seq<OpLine>, cap: int) returns (lines: seq<OpLine>)
    requires cap >= 1
    ensures lines == Trim(full, cap)
  {
    lines := full;
    while |lines| > cap
      invariant |lines| <= |full| && lines == full[|full| - |lines|..]
      invariant |lines| >= cap || lines == full
      decreases |lines|
    {
      lines := lines[1..];
    }
  }
}
