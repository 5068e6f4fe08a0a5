/**
 * Executing a plan: the operations run kind by kind (uploads, downloads,
 * conflicts, remote deletes, local deletes), each through the shared
 * start/end reporting, and a cancel request stops any further operation
 * from starting. The worker pool of `runWithConcurrency` is modelled as one
 * worker taking items in order; the user's cancel request is modelled as
 * arriving once `cancelAt` operations have started.
 */
module Runner {
  import opened Common
  import opened Records
  import opened Dedup
  import opened RunState

  /** The run after a list of tasks, and the outcome of each task that started, in order. */
  datatype Ran = Ran(cur: Option<Run>, ran: seq<Outcome>)

  /** `reportOpStart` and then `reportOpEnd` for one outcome. */
  function Report(version: Version, cap: int): (Option<Run>, Outcome) -> Option<Run>
    requires cap >= 1
  {
    (c: Option<Run>, o: Outcome) => OnEnd(version, OnStart(c, o.op), o, cap)
  }

  /** The cancel flag as the next check sees it: the request has arrived once `cancelAt` tasks have started. */
  function Poll(cur: Option<Run>, started: nat, cancelAt: nat): (r: Option<Run>)
    ensures IsCanceled(cur) ==> IsCanceled(r)
    ensures cur.Some? && cur.value.active && started >= cancelAt ==> IsCanceled(r)
    ensures started < cancelAt ==> r == cur
  {
    if started >= cancelAt then OnCancel(cur) else cur
  }

  /** Each task of `items` run once, with its result. */
  function Outcomes(items: seq<Op>, task: Op -> Option<string>): (r: seq<Outcome>)
    ensures |r| == |items| && forall i :: 0 <= i < |r| ==> r[i] == Outcome(items[i], task(items[i]))
  {
    seq(|items|, i requires 0 <= i < |items| => Outcome(items[i], task(items[i])))
  }

  lemma {:induction false} OutcomesCons(items: seq<Op>, task: Op -> Option<string>)
    requires items != []
    ensures Outcomes(items, task) == [Outcome(items[0], task(items[0]))] + Outcomes(items[1..], task)
  {
  }

  /**
   * Each item of `items` in order: before each one the cancel flag is
   * checked, and a task that starts is reported through `report`, with its
   * error when `task` gives one. A failing task stops nothing.
   */
  function RunItems(report: (Option<Run>, Outcome) -> Option<Run>, cur: Option<Run>, items: seq<Op>, task: Op -> Option<string>, cancelAt: nat, started: nat): (r: Ran)
    ensures |r.ran| <= |items|
    decreases |items|
  {
    if items == [] then Ran(cur, [])
    else
      var c := Poll(cur, started, cancelAt);
      if IsCanceled(c) then Ran(c, [])
      else
        var o := Outcome(items[0], task(items[0]));
        var rest := RunItems(report, report(c, o), items[1..], task, cancelAt, started + 1);
        Ran(rest.cur, [o] + rest.ran)
  }

  /** One step of `RunItems`: the check, then the first task and the rest. */
  lemma {:induction false} RunItemsStep(report: (Option<Run>, Outcome) -> Option<Run>, cur: Option<Run>, items: seq<Op>, task: Op -> Option<string>, cancelAt: nat, started: nat)
    requires items != []
    ensures var c := Poll(cur, started, cancelAt);
      var o := Outcome(items[0], task(items[0]));
      var rest := RunItems(report, report(c, o), items[1..], task, cancelAt, started + 1);
      RunItems(report, cur, items, task, cancelAt, started) == if IsCanceled(c) then Ran(c, []) else Ran(rest.cur, [o] + rest.ran)
  {
  }

  /** The step of `RunItems` when the first task starts. */
  lemma {:induction false} LiveStep(report: (Option<Run>, Outcome) -> Option<Run>, cur: Option<Run>, items: seq<Op>, task: Op -> Option<string>, cancelAt: nat, started: nat)
    requires items != [] && !IsCanceled(Poll(cur, started, cancelAt))
    ensures var o := Outcome(items[0], task(items[0]));
      var rest := RunItems(report, report(Poll(cur, started, cancelAt), o), items[1..], task, cancelAt, started + 1);
      RunItems(report, cur, items, task, cancelAt, started) == Ran(rest.cur, [o] + rest.ran)
  {
  }

  /**
   * The items that start form a prefix of `items`, each run once with its
   * result, and the list stops short only on a canceled run.
   */
  lemma {:induction false} RunItemsShape(report: (Option<Run>, Outcome) -> Option<Run>, cur: Option<Run>, items: seq<Op>, task: Op -> Option<string>, cancelAt: nat, started: nat)
    ensures var r := RunItems(report, cur, items, task, cancelAt, started);
      (forall i :: 0 <= i < |r.ran| ==> r.ran[i] == Outcome(items[i], task(items[i])))
      && (|r.ran| < |items| ==> IsCanceled(r.cur))
    decreases |items|
  {
    if items != [] {
      RunItemsStep(report, cur, items, task, cancelAt, started);
      var c := Poll(cur, started, cancelAt);
      if !IsCanceled(c) {
        var o := Outcome(items[0], task(items[0]));
        RunItemsShape(report, report(c, o), items[1..], task, cancelAt, started + 1);
      }
    }
  }

  /** A canceled run starts nothing and stays as it is. */
  lemma {:induction false} RunItemsCanceled(report: (Option<Run>, Outcome) -> Option<Run>, cur: Option<Run>, items: seq<Op>, task: Op -> Option<string>, cancelAt: nat, started: nat)
    requires IsCanceled(cur)
    ensures RunItems(report, cur, items, task, cancelAt, started) == Ran(cur, [])
  {
    if items != [] {
      RunItemsStep(report, cur, items, task, cancelAt, started);
      assert Poll(cur, started, cancelAt) == cur;
    }
  }

  /**
   * Running one list after another, the count of started tasks carried
   * across, is running the two lists as one: a list stops short only on a
   * canceled run, and then the next starts nothing.
   */
  lemma {:induction false} RunItemsAppend(report: (Option<Run>, Outcome) -> Option<Run>, cur: Option<Run>, a: seq<Op>, b: seq<Op>, task: Op -> Option<string>, cancelAt: nat, started: nat)
    ensures var ra := RunItems(report, cur, a, task, cancelAt, started);
      var rb := RunItems(report, ra.cur, b, task, cancelAt, started + |ra.ran|);
      RunItems(report, cur, a + b, task, cancelAt, started) == Ran(rb.cur, ra.ran + rb.ran)
    decreases |a|
  {
    if a == [] {
      assert a + b == b;
    } else {
      var c := Poll(cur, started, cancelAt);
      if IsCanceled(c) {
        RunItemsCanceled(report, c, b, task, cancelAt, started);
      } else {
        var c1 := report(c, Outcome(a[0], task(a[0])));
        RunItemsAppend(report, c1, a[1..], b, task, cancelAt, started + 1);
        AppendLive(report, cur, a, b, task, cancelAt, started);
      }
    }
  }

  /** `LiveStep` for `a + b`, its tail written as `a[1..] + b`. */
  lemma {:induction false} LiveStepAppend(report: (Option<Run>, Outcome) -> Option<Run>, cur: Option<Run>, a: seq<Op>, b: seq<Op>, task: Op -> Option<string>, cancelAt: nat, started: nat)
    requires a != [] && !IsCanceled(Poll(cur, started, cancelAt))
    ensures var o := Outcome(a[0], task(a[0]));
      var rest := RunItems(report, report(Poll(cur, started, cancelAt), o), a[1..] + b, task, cancelAt, started + 1);
      RunItems(report, cur, a + b, task, cancelAt, started) == Ran(rest.cur, [o] + rest.ran)
  {
    assert (a + b)[0] == a[0] && (a + b)[1..] == a[1..] + b;
    LiveStep(report, cur, a + b, task, cancelAt, started);
  }

  /** The step of `RunItemsAppend` where the first task of `a` starts. */
  lemma {:induction false} AppendLive(report: (Option<Run>, Outcome) -> Option<Run>, cur: Option<Run>, a: seq<Op>, b: seq<Op>, task: Op -> Option<string>, cancelAt: nat, started: nat)
    requires a != [] && !IsCanceled(Poll(cur, started, cancelAt))
    requires var c1 := report(Poll(cur, started, cancelAt), Outcome(a[0], task(a[0])));
      var ra := RunItems(report, c1, a[1..], task, cancelAt, started + 1);
      var rb := RunItems(report, ra.cur, b, task, cancelAt, started + 1 + |ra.ran|);
      RunItems(report, c1, a[1..] + b, task, cancelAt, started + 1) == Ran(rb.cur, ra.ran + rb.ran)
    ensures var ra := RunItems(report, cur, a, task, cancelAt, started);
      var rb := RunItems(report, ra.cur, b, task, cancelAt, started + |ra.ran|);
      RunItems(report, cur, a + b, task, cancelAt, started) == Ran(rb.cur, ra.ran + rb.ran)
  {
    LiveStepAppend(report, cur, a, b, task, cancelAt, started);
    LiveStep(report, cur, a, task, cancelAt, started);
    var o := Outcome(a[0], task(a[0]));
    var c1 := report(Poll(cur, started, cancelAt), o);
    var ra' := RunItems(report, c1, a[1..], task, cancelAt, started + 1);
    var rb := RunItems(report, ra'.cur, b, task, cancelAt, started + 1 + |ra'.ran|);
    assert [o] + (ra'.ran + rb.ran) == ([o] + ra'.ran) + rb.ran;
  }

  // ---------------------------------------------------------------- with the plugin's own reporting

  /** Reporting an operation leaves the `active` and `canceled` flags alone, and no run stays no run. */
  lemma {:induction false} ReportFlags(version: Version, cap: int, cur: Option<Run>, o: Outcome)
    requires cap >= 1
    ensures var n := Report(version, cap)(cur, o);
      n.Some? == cur.Some? && (cur.Some? ==> n.value.active == cur.value.active && n.value.canceled == cur.value.canceled)
  {
    if cur.Some? {
      EndOpEffect(version, cur.value.(phase := Working(o.op.kind)), o, cap);
    }
  }

  /** On an active run, no task starts once the cancel request has arrived, and the run stays active. */
  lemma {:induction false} RunItemsStopsAtCancel(version: Version, cap: int, cur: Option<Run>, items: seq<Op>, task: Op -> Option<string>, cancelAt: nat, started: nat)
    requires cap >= 1 && cur.Some? && cur.value.active
    ensures var r := RunItems(Report(version, cap), cur, items, task, cancelAt, started);
      started + |r.ran| <= Max(started, cancelAt) && r.cur.Some? && r.cur.value.active
    decreases |items|
  {
    var report := Report(version, cap);
    if items != [] {
      RunItemsStep(report, cur, items, task, cancelAt, started);
      if started < cancelAt {
        var o := Outcome(items[0], task(items[0]));
        ReportFlags(version, cap, cur, o);
        RunItemsStopsAtCancel(version, cap, report(cur, o), items[1..], task, cancelAt, started + 1);
      } else {
        assert IsCanceled(Poll(cur, started, cancelAt));
      }
    }
  }

  /** The run with its cancel flag cleared. */
  function Uncanceled(cur: Option<Run>): (r: Option<Run>)
    ensures r.Some? <==> cur.Some?
    ensures !IsCanceled(r)
  {
    if cur.None? then None else Some(cur.value.(canceled := false))
  }

  /** Reporting does not look at the cancel flag. */
  lemma {:induction false} ReportUncanceled(version: Version, cap: int, cur: Option<Run>, o: Outcome)
    requires cap >= 1
    ensures Uncanceled(Report(version, cap)(cur, o)) == Uncanceled(Report(version, cap)(Uncanceled(cur), o))
  {
    if cur.Some? {
      var r := cur.value.(phase := Working(o.op.kind));
      assert cur.value.(canceled := false).(phase := Working(o.op.kind)) == r.(canceled := false);
      EndOpUncanceled(version, r, o, cap);
    }
  }

  /** Ending an operation leaves the cancel flag alone and does not look at it. */
  lemma {:induction false} EndOpUncanceled(version: Version, r: Run, o: Outcome, cap: int)
    requires cap >= 1
    ensures EndOp(version, r.(canceled := false), o, cap) == EndOp(version, r, o, cap).(canceled := false)
  {
  }

  /** Replaying reports does not look at the cancel flag. */
  lemma {:induction false} ReplayUncanceled(version: Version, cur: Option<Run>, outs: seq<Outcome>, cap: int)
    requires cap >= 1
    ensures Uncanceled(Replay(version, cur, outs, cap)) == Uncanceled(Replay(version, Uncanceled(cur), outs, cap))
    decreases |outs|
  {
    if outs != [] {
      var p, x := outs[..|outs| - 1], outs[|outs| - 1];
      ReplayUncanceled(version, cur, p, cap);
      ReportUncanceled(version, cap, Replay(version, cur, p, cap), x);
      ReportUncanceled(version, cap, Replay(version, Uncanceled(cur), p, cap), x);
    }
  }

  lemma {:induction false} ReplayOne(version: Version, cur: Option<Run>, o: Outcome, cap: int)
    requires cap >= 1
    ensures Replay(version, cur, [o], cap) == Report(version, cap)(cur, o)
  {
    assert [o][..0] == [];
    assert Replay(version, cur, [], cap) == cur;
  }

  /**
   * Apart from the cancel flag, the run afterwards is what reporting the
   * tasks that started gives: cancelling changes no counter and no log line.
   */
  lemma {:induction false} RunItemsReplay(version: Version, cap: int, cur: Option<Run>, items: seq<Op>, task: Op -> Option<string>, cancelAt: nat, started: nat)
    requires cap >= 1
    ensures var r := RunItems(Report(version, cap), cur, items, task, cancelAt, started);
      Uncanceled(r.cur) == Uncanceled(Replay(version, cur, r.ran, cap))
    decreases |items|
  {
    var report := Report(version, cap);
    if items == [] {
      assert Replay(version, cur, [], cap) == cur;
    } else {
      RunItemsStep(report, cur, items, task, cancelAt, started);
      var c := Poll(cur, started, cancelAt);
      if IsCanceled(c) {
        assert Replay(version, cur, [], cap) == cur;
        assert Uncanceled(c) == Uncanceled(cur);
      } else {
        assert c == cur;
        var o := Outcome(items[0], task(items[0]));
        var c1 := report(c, o);
        var rest := RunItems(report, c1, items[1..], task, cancelAt, started + 1);
        RunItemsReplay(version, cap, c1, items[1..], task, cancelAt, started + 1);
        ReplayOne(version, cur, o, cap);
        ReplayAppend(version, cur, [o], rest.ran, cap);
      }
    }
  }

  /** Without a cancel request, every task runs and the run is exactly what reporting them gives. */
  lemma {:induction false} RunItemsComplete(version: Version, cap: int, cur: Option<Run>, items: seq<Op>, task: Op -> Option<string>, cancelAt: nat, started: nat)
    requires cap >= 1 && !IsCanceled(cur) && started + |items| <= cancelAt
    ensures var r := RunItems(Report(version, cap), cur, items, task, cancelAt, started);
      r.ran == Outcomes(items, task) && r.cur == Replay(version, cur, r.ran, cap)
    decreases |items|
  {
    var report := Report(version, cap);
    if items == [] {
      assert Replay(version, cur, [], cap) == cur;
    } else {
      var o := Outcome(items[0], task(items[0]));
      var c1 := report(cur, o);
      var rest := RunItems(report, c1, items[1..], task, cancelAt, started + 1);
      assert RunItems(report, cur, items, task, cancelAt, started) == Ran(rest.cur, [o] + rest.ran) by {
        RunItemsStep(report, cur, items, task, cancelAt, started);
      }
      assert !IsCanceled(c1) by {
        ReportFlags(version, cap, cur, o);
      }
      assert rest.ran == Outcomes(items[1..], task) && rest.cur == Replay(version, c1, rest.ran, cap) by {
        RunItemsComplete(version, cap, c1, items[1..], task, cancelAt, started + 1);
      }
      OutcomesCons(items, task);
      assert Replay(version, cur, [o], cap) == c1 by {
        ReplayOne(version, cur, o, cap);
      }
      ReplayAppend(version, cur, [o], rest.ran, cap);
    }
  }

  /** The cancel request, once `cancelAt` tasks have started, sets the flag the next check reads. */
  method CheckCancel(t: Tracker, started: nat, cancelAt: nat)
    modifies t
    ensures t.currentRun == Poll(old(t.currentRun), started, cancelAt)
    ensures t.progressLines == old(t.progressLines)
  {
    if started >= cancelAt {
      t.CancelCurrentRun();
    }
  }

  /** One task: `reportOpStart`, then `task` on the item, then `reportOpEnd` with its result. */
  method RunTask(t: Tracker, it: Op, task: Op -> Option<string>) returns (o: Outcome)
    modifies t
    ensures o == Outcome(it, task(it))
    ensures t.currentRun == Report(t.version, Cap(t.progressLines))(old(t.currentRun), o)
    ensures t.progressLines == old(t.progressLines)
  {
    o := Outcome(it, task(it));
    t.ReportOpStart(it);
    t.ReportOpEnd(o);
  }

  /**
   * `runWithConcurrency` with its single modelled worker, and equally each
   * `for … of` loop of `executePlan`: take the next item, stop when none is
   * left or the run is canceled, otherwise run `task` on the item and report it.
   */
  method RunWithConcurrency(t: Tracker, items: seq<Op>, task: Op -> Option<string>, cancelAt: nat, started: nat) returns (ran: seq<Outcome>)
    modifies t
    ensures var r := RunItems(Report(t.version, Cap(t.progressLines)), old(t.currentRun), items, task, cancelAt, started);
      t.currentRun == r.cur && ran == r.ran
    ensures t.progressLines == old(t.progressLines)
  {
    var cap := Cap(t.progressLines);
    var report := Report(t.version, cap);
    ghost var goal := RunItems(report, t.currentRun, items, task, cancelAt, started);
    var i := 0;
    ran := [];
    assert items[0..] == items && [] + goal.ran == goal.ran;
    while true
      invariant 0 <= i <= |items|
      invariant t.progressLines == old(t.progressLines) && cap == Cap(t.progressLines)
      invariant var r := RunItems(report, t.currentRun, items[i..], task, cancelAt, started + i);
        goal == Ran(r.cur, ran + r.ran)
      decreases |items| - i
    {
      if i >= |items| {
        LoopDone(report, t.currentRun, items, i, task, cancelAt, started, ran, goal);
        break;
      }
      var it := items[i];
      ghost var before := t.currentRun;
      CheckCancel(t, started + i, cancelAt);
      if IsCanceled(t.currentRun) {
        LoopCanceled(report, before, items, i, task, cancelAt, started, ran, goal);
        break;
      }
      var o := RunTask(t, it, task);
      LoopTask(report, before, items, i, task, cancelAt, started, ran, goal);
      ran := ran + [o];
      i := i + 1;
    }
  }

  /** The loop of `RunWithConcurrency` with no item left: what ran is all of `goal`. */
  lemma {:induction false} LoopDone(report: (Option<Run>, Outcome) -> Option<Run>, cur: Option<Run>, items: seq<Op>, i: nat, task: Op -> Option<string>,
                                    cancelAt: nat, started: nat, ran: seq<Outcome>, goal: Ran)
    requires i == |items|
    requires var r := RunItems(report, cur, items[i..], task, cancelAt, started + i); goal == Ran(r.cur, ran + r.ran)
    ensures goal == Ran(cur, ran)
  {
    assert items[i..] == [];
    assert ran + [] == ran;
  }

  /** The loop of `RunWithConcurrency` finding the run canceled: nothing more runs. */
  lemma {:induction false} LoopCanceled(report: (Option<Run>, Outcome) -> Option<Run>, cur: Option<Run>, items: seq<Op>, i: nat, task: Op -> Option<string>,
                                        cancelAt: nat, started: nat, ran: seq<Outcome>, goal: Ran)
    requires i < |items| && IsCanceled(Poll(cur, started + i, cancelAt))
    requires var r := RunItems(report, cur, items[i..], task, cancelAt, started + i); goal == Ran(r.cur, ran + r.ran)
    ensures goal == Ran(Poll(cur, started + i, cancelAt), ran)
  {
    RunItemsStep(report, cur, items[i..], task, cancelAt, started + i);
    assert ran + [] == ran;
  }

  /** The loop of `RunWithConcurrency` running item `i`: the outcome joins what ran, the rest is still ahead. */
  lemma {:induction false} LoopTask(report: (Option<Run>, Outcome) -> Option<Run>, cur: Option<Run>, items: seq<Op>, i: nat, task: Op -> Option<string>,
                                    cancelAt: nat, started: nat, ran: seq<Outcome>, goal: Ran)
    requires i < |items| && !IsCanceled(Poll(cur, started + i, cancelAt))
    requires var r := RunItems(report, cur, items[i..], task, cancelAt, started + i); goal == Ran(r.cur, ran + r.ran)
    ensures var o := Outcome(items[i], task(items[i]));
      var r := RunItems(report, report(Poll(cur, started + i, cancelAt), o), items[i + 1..], task, cancelAt, started + i + 1);
      goal == Ran(r.cur, (ran + [o]) + r.ran)
  {
    assert items[i..][0] == items[i] && items[i..][1..] == items[i + 1..];
    LiveStep(report, cur, items[i..], task, cancelAt, started + i);
    var o := Outcome(items[i], task(items[i]));
    var r := RunItems(report, report(Poll(cur, started + i, cancelAt), o), items[i + 1..], task, cancelAt, started + i + 1);
    assert ran + ([o] + r.ran) == (ran + [o]) + r.ran;
  }

  // ---------------------------------------------------------------- the five phases of a plan

  /** `plan.filter((x) => x.type === k)`. */
  function OfKind(plan: seq<Op>, k: OpKind): seq<Op> {
    Filter(plan, (o: Op) => o.kind == k)
  }

  /** The order `executePlan` runs a plan in: uploads, downloads, conflicts, remote deletes, local deletes. */
  function Phased(plan: seq<Op>): (r: seq<Op>) {
    OfKind(plan, Upload) + OfKind(plan, Download) + OfKind(plan, Conflict) + OfKind(plan, RemoteDelete) + OfKind(plan, LocalDelete)
  }

  lemma {:induction false} OfKindSnoc(p: seq<Op>, x: Op, k: OpKind)
    ensures OfKind(p + [x], k) == OfKind(p, k) + (if x.kind == k then [x] else [])
  {
    assert (p + [x])[..|p|] == p;
  }

  /** The multiset of the phases is the sum of the multisets of the five kinds. */
  lemma {:induction false} PhasedMultiset(q: seq<Op>)
    ensures multiset(Phased(q)) == multiset(OfKind(q, Upload)) + multiset(OfKind(q, Download)) + multiset(OfKind(q, Conflict))
      + multiset(OfKind(q, RemoteDelete)) + multiset(OfKind(q, LocalDelete))
  {
  }

  /** An operation occurs in the phase of its kind as often as in the plan, and in no other phase. */
  lemma {:induction false} CountOfKind(q: seq<Op>, k: OpKind, y: Op)
    ensures multiset(OfKind(q, k))[y] == if y.kind == k then multiset(q)[y] else 0
    decreases |q|
  {
    if q != [] {
      var p, x := q[..|q| - 1], q[|q| - 1];
      assert q == p + [x];
      OfKindSnoc(p, x, k);
      CountOfKind(p, k, y);
    }
  }

  /** Each operation occurs in the phases as often as in the plan. */
  lemma {:induction false} PhasedCount(plan: seq<Op>, y: Op)
    ensures multiset(Phased(plan))[y] == multiset(plan)[y]
  {
    PhasedMultiset(plan);
    CountOfKind(plan, Upload, y);
    CountOfKind(plan, Download, y);
    CountOfKind(plan, Conflict, y);
    CountOfKind(plan, RemoteDelete, y);
    CountOfKind(plan, LocalDelete, y);
  }

  /** Running the plan phase by phase runs each of its operations exactly once: the phases are a permutation of the plan. */
  lemma {:induction false} PhasedPermutation(plan: seq<Op>)
    ensures multiset(Phased(plan)) == multiset(plan)
  {
    forall y
      ensures multiset(Phased(plan))[y] == multiset(plan)[y]
    {
      PhasedCount(plan, y);
    }
  }

  lemma {:induction false} TallyAppend(a: seq<Op>, c: seq<Op>, b: Bucket)
    ensures Tally(a + c, b) == Tally(a, b) + Tally(c, b)
    decreases |c|
  {
    if c == [] {
      assert a + c == a;
    } else {
      var p := c[..|c| - 1];
      assert (a + c)[..|a + c| - 1] == a + p;
      TallyAppend(a, p, b);
    }
  }

  lemma {:induction false} MultisetRemove(c: seq<Op>, j: int)
    requires 0 <= j < |c|
    ensures multiset(c[..j] + c[j + 1..]) == multiset(c) - multiset{c[j]}
  {
    assert c == c[..j] + [c[j]] + c[j + 1..];
  }

  lemma {:induction false} TallyRemove(c: seq<Op>, j: int, b: Bucket)
    requires 0 <= j < |c|
    ensures Tally(c, b) == Tally(c[..j] + c[j + 1..], b) + (if PlanBucket(c[j].kind) == b then 1 else 0)
  {
    var c1, x, c2 := c[..j], c[j], c[j + 1..];
    assert c == c1 + [x] + c2;
    TallyAppend(c1, c2, b);
    TallyAppend(c1 + [x], c2, b);
    TallyAppend(c1, [x], b);
    assert [x][..0] == [];
  }

  /** The count of a bucket does not depend on the order of the operations. */
  lemma {:induction false} TallyPermutation(a: seq<Op>, c: seq<Op>, b: Bucket)
    requires multiset(a) == multiset(c)
    ensures Tally(a, b) == Tally(c, b)
    decreases |a|
  {
    if a == [] {
      assert |c| == |multiset(c)| == 0;
    } else {
      var j := MatchLast(a, c);
      TallyPermutation(a[..|a| - 1], c[..j] + c[j + 1..], b);
      TallyRemove(c, j, b);
    }
  }

  /** The last operation of `a` at some place `j` of its permutation `c`; the rests are again permutations. */
  lemma {:induction false} MatchLast(a: seq<Op>, c: seq<Op>) returns (j: int)
    requires a != [] && multiset(a) == multiset(c)
    ensures 0 <= j < |c| && c[j] == a[|a| - 1]
    ensures multiset(a[..|a| - 1]) == multiset(c[..j] + c[j + 1..])
  {
    var p, x := a[..|a| - 1], a[|a| - 1];
    assert a == p + [x];
    assert multiset(p) == multiset(a) - multiset{x};
    assert x in multiset(c);
    j :| 0 <= j < |c| && c[j] == x;
    MultisetRemove(c, j);
  }

  /** Running the phases reports, bucket by bucket, exactly what `setRunPlan` counted for the plan. */
  lemma {:induction false} PhasedTally(plan: seq<Op>, b: Bucket)
    ensures Tally(Phased(plan), b) == Tally(plan, b)
  {
    PhasedPermutation(plan);
    TallyPermutation(Phased(plan), plan, b);
  }

  /** Reporting each operation of `items` counts, bucket by bucket, what `items` holds. */
  lemma {:induction false} TallyOutOutcomes(items: seq<Op>, task: Op -> Option<string>, b: Bucket)
    ensures TallyOut(Outcomes(items, task), b) == Tally(items, b)
    decreases |items|
  {
    if items != [] {
      var p := items[..|items| - 1];
      var outs := Outcomes(items, task);
      assert outs[..|outs| - 1] == Outcomes(p, task);
      TallyOutOutcomes(p, task, b);
    }
  }
}
