/**
 * The last pass of plan building: at most one operation per relative path.
 * Operations are folded into a map keyed by path; a later operation
 * replaces the kept one only when its priority is strictly higher, and the
 * map's values come out in the order their keys were first inserted.
 */
module Dedup {
  import opened Records

  /** The two copies of the plugin, which differ in how they rank operations. */
  datatype Version = Current | Previous

  /**
   * Current: conflict 3, either delete 2, upload/download 1.
   * Previous: conflict 3, upload/download 2, anything else 1.
   */
  function Pri(version: Version, k: OpKind): (p: nat)
    ensures 1 <= p <= 3
    ensures k == Conflict <==> p == 3
  {
    match version
    case Current =>
      if k == Conflict then 3
      else if k == RemoteDelete || k == LocalDelete then 2
      else 1
    case Previous =>
      if k == Conflict then 3
      else if k == Upload || k == Download then 2
      else 1
  }

  function OpRels(ops: seq<Op>): (r: seq<string>)
    ensures |r| == |ops|
  {
    seq(|ops|, k requires 0 <= k < |ops| => ops[k].rel)
  }

  /** The `byRel` map together with its insertion order. */
  datatype Table = Table(order: seq<string>, byRel: map<string, Op>)

  ghost predicate WF(t: Table) {
    (forall r :: r in t.byRel <==> r in t.order)
    && (forall r :: r in t.byRel ==> t.byRel[r].rel == r)
    && (forall i, j :: 0 <= i < j < |t.order| ==> t.order[i] != t.order[j])
  }

  function Step(version: Version, t: Table, o: Op): (r: Table)
    requires WF(t)
    ensures WF(r)
  {
    if o.rel !in t.byRel then Table(t.order + [o.rel], t.byRel[o.rel := o])
    else if Pri(version, o.kind) > Pri(version, t.byRel[o.rel].kind) then Table(t.order, t.byRel[o.rel := o])
    else t
  }

  function DedupTable(version: Version, ops: seq<Op>): (t: Table)
    ensures WF(t)
  {
    if ops == [] then Table([], map[])
    else Step(version, DedupTable(version, ops[..|ops| - 1]), ops[|ops| - 1])
  }

  /** `Array.from(byRel.values())`. */
  function Values(t: Table): (r: seq<Op>)
    requires WF(t)
    ensures |r| == |t.order|
  {
    seq(|t.order|, k requires 0 <= k < |t.order| => t.byRel[t.order[k]])
  }

  function Deduplicate(version: Version, ops: seq<Op>): seq<Op> {
    Values(DedupTable(version, ops))
  }

  /**
   * `ops[i]` is what the pass keeps for its path: no operation on that path
   * has a higher priority, and every earlier one on it has a lower one.
   */
  ghost predicate FirstMaximal(version: Version, ops: seq<Op>, i: int) {
    0 <= i < |ops|
    && (forall j :: 0 <= j < |ops| && ops[j].rel == ops[i].rel ==> Pri(version, ops[j].kind) <= Pri(version, ops[i].kind))
    && (forall j :: 0 <= j < i && ops[j].rel == ops[i].rel ==> Pri(version, ops[j].kind) < Pri(version, ops[i].kind))
  }

  /** `op` is the first-maximal operation for its path in `ops`. */
  ghost predicate Kept(version: Version, ops: seq<Op>, op: Op) {
    exists i :: FirstMaximal(version, ops, i) && op == ops[i]
  }

  ghost predicate TableChoosesFirstMaximal(version: Version, ops: seq<Op>, t: Table) {
    forall r :: r in t.byRel ==> Kept(version, ops, t.byRel[r])
  }

  lemma {:induction false} UniqueSnoc(xs: seq<string>, x: string)
    ensures Unique(xs + [x]) == if x in Unique(xs) then Unique(xs) else Unique(xs) + [x]
  {
    assert (xs + [x])[..|xs + [x]| - 1] == xs;
  }

  lemma {:induction false} DedupTableSnoc(version: Version, ops: seq<Op>, i: nat)
    requires i < |ops|
    ensures DedupTable(version, ops[..i + 1]) == Step(version, DedupTable(version, ops[..i]), ops[i])
  {
    assert ops[..i + 1][..i] == ops[..i];
  }

  lemma {:induction false} DedupTableOrder(version: Version, ops: seq<Op>)
    ensures DedupTable(version, ops).order == Unique(OpRels(ops))
  {
    if ops != [] {
      var p := ops[..|ops| - 1];
      var o := ops[|ops| - 1];
      DedupTableOrder(version, p);
      assert OpRels(ops) == OpRels(p) + [o.rel];
      UniqueSnoc(OpRels(p), o.rel);
      StepOrder(version, DedupTable(version, p), o);
    }
  }

  /** A step appends the path to the insertion order exactly when the path is new. */
  lemma {:induction false} StepOrder(version: Version, t: Table, o: Op)
    requires WF(t)
    ensures Step(version, t, o).order == if o.rel in t.order then t.order else t.order + [o.rel]
  {
  }

  lemma {:induction false} ChooseOther(version: Version, p: seq<Op>, o: Op, i: int)
    requires FirstMaximal(version, p, i) && p[i].rel != o.rel
    ensures FirstMaximal(version, p + [o], i)
  {
    var ops := p + [o];
    assert forall j :: 0 <= j < |p| ==> ops[j] == p[j];
  }

  lemma {:induction false} ChooseNew(version: Version, p: seq<Op>, o: Op)
    requires forall j :: 0 <= j < |p| ==> p[j].rel != o.rel
    ensures FirstMaximal(version, p + [o], |p|)
  {
    var ops := p + [o];
    assert forall j :: 0 <= j < |p| ==> ops[j] == p[j];
  }

  lemma {:induction false} ChooseHigher(version: Version, p: seq<Op>, o: Op, i: int)
    requires FirstMaximal(version, p, i) && p[i].rel == o.rel
    requires Pri(version, o.kind) > Pri(version, p[i].kind)
    ensures FirstMaximal(version, p + [o], |p|)
  {
    var ops := p + [o];
    assert forall j :: 0 <= j < |p| ==> ops[j] == p[j];
  }

  lemma {:induction false} ChooseKeep(version: Version, p: seq<Op>, o: Op, i: int)
    requires FirstMaximal(version, p, i) && p[i].rel == o.rel
    requires Pri(version, o.kind) <= Pri(version, p[i].kind)
    ensures FirstMaximal(version, p + [o], i)
  {
    var ops := p + [o];
    assert forall j :: 0 <= j < |p| ==> ops[j] == p[j];
  }

  /** Appending `o` keeps every kept operation first-maximal for its path. */
  lemma {:induction false} StepChooses(version: Version, p: seq<Op>, o: Op, t: Table)
    requires WF(t) && t.order == Unique(OpRels(p))
    requires TableChoosesFirstMaximal(version, p, t)
    ensures TableChoosesFirstMaximal(version, p + [o], Step(version, t, o))
  {
    var t' := Step(version, t, o);
    forall r | r in t'.byRel
      ensures Kept(version, p + [o], t'.byRel[r])
    {
      if r != o.rel {
        StepKeepsOther(version, p, o, t, r);
      } else if o.rel !in t.byRel {
        StepAddsNew(version, p, o, t);
      } else {
        StepOnSame(version, p, o, t);
      }
    }
  }

  lemma {:induction false} StepKeepsOther(version: Version, p: seq<Op>, o: Op, t: Table, r: string)
    requires WF(t) && TableChoosesFirstMaximal(version, p, t)
    requires r in t.byRel && r != o.rel
    ensures r in Step(version, t, o).byRel && Kept(version, p + [o], Step(version, t, o).byRel[r])
  {
    assert r in Step(version, t, o).byRel && Step(version, t, o).byRel[r] == t.byRel[r];
    var i :| FirstMaximal(version, p, i) && t.byRel[r] == p[i];
    ChooseOther(version, p, o, i);
    assert (p + [o])[i] == p[i];
  }

  lemma {:induction false} StepAddsNew(version: Version, p: seq<Op>, o: Op, t: Table)
    requires WF(t) && t.order == Unique(OpRels(p))
    requires o.rel !in t.byRel
    ensures Kept(version, p + [o], Step(version, t, o).byRel[o.rel])
  {
    forall j | 0 <= j < |p|
      ensures p[j].rel != o.rel
    {
      assert OpRels(p)[j] == p[j].rel;
    }
    ChooseNew(version, p, o);
    assert Step(version, t, o).byRel[o.rel] == (p + [o])[|p|];
  }

  lemma {:induction false} StepOnSame(version: Version, p: seq<Op>, o: Op, t: Table)
    requires WF(t) && TableChoosesFirstMaximal(version, p, t)
    requires o.rel in t.byRel
    ensures Kept(version, p + [o], Step(version, t, o).byRel[o.rel])
  {
    var ops := p + [o];
    var i :| FirstMaximal(version, p, i) && t.byRel[o.rel] == p[i];
    if Pri(version, o.kind) > Pri(version, t.byRel[o.rel].kind) {
      ChooseHigher(version, p, o, i);
      assert Step(version, t, o).byRel[o.rel] == ops[|p|];
    } else {
      ChooseKeep(version, p, o, i);
      assert ops[i] == p[i];
    }
  }

  lemma {:induction false} DedupTableChooses(version: Version, ops: seq<Op>)
    ensures TableChoosesFirstMaximal(version, ops, DedupTable(version, ops))
  {
    if ops != [] {
      var p := ops[..|ops| - 1];
      assert ops == p + [ops[|ops| - 1]];
      DedupTableChooses(version, p);
      DedupTableOrder(version, p);
      StepChooses(version, p, ops[|ops| - 1], DedupTable(version, p));
    }
  }

  /**
   * The plan after this pass lists each path of the input once, in the
   * order of first appearance, with the operation the pass keeps for it.
   */
  lemma {:induction false} DedupCharacterised(version: Version, ops: seq<Op>)
    ensures OpRels(Deduplicate(version, ops)) == Unique(OpRels(ops))
    ensures forall k :: 0 <= k < |Deduplicate(version, ops)| ==> Kept(version, ops, Deduplicate(version, ops)[k])
  {
    DedupTableOrder(version, ops);
    DedupTableChooses(version, ops);
    var t := DedupTable(version, ops);
    var d := Deduplicate(version, ops);
    forall k | 0 <= k < |d|
      ensures OpRels(d)[k] == t.order[k]
    {
      assert d[k] == t.byRel[t.order[k]];
    }
    forall k | 0 <= k < |d|
      ensures Kept(version, ops, d[k])
    {
      assert t.order[k] in t.byRel;
      assert d[k] == t.byRel[t.order[k]];
    }
  }

  /** No two operations of a deduplicated plan share a path. */
  lemma {:induction false} DedupOnePerPath(version: Version, ops: seq<Op>)
    ensures forall i, j :: 0 <= i < j < |Deduplicate(version, ops)| ==> Deduplicate(version, ops)[i].rel != Deduplicate(version, ops)[j].rel
    ensures forall o :: o in ops ==> exists k :: 0 <= k < |Deduplicate(version, ops)| && Deduplicate(version, ops)[k].rel == o.rel
  {
    DedupCharacterised(version, ops);
    var d := Deduplicate(version, ops);
    forall i, j | 0 <= i < j < |d|
      ensures d[i].rel != d[j].rel
    {
      assert OpRels(d)[i] == d[i].rel && OpRels(d)[j] == d[j].rel;
    }
    forall o | o in ops
      ensures exists k :: 0 <= k < |d| && d[k].rel == o.rel
    {
      var i :| 0 <= i < |ops| && ops[i] == o;
      assert OpRels(ops)[i] == o.rel;
      assert o.rel in Unique(OpRels(ops));
      var k :| 0 <= k < |OpRels(d)| && OpRels(d)[k] == o.rel;
      assert d[k].rel == o.rel;
    }
  }

  /** The pass as the source writes it: a loop over the plan filling the map, then its values. */
  method DedupPlan(version: Version, ops: seq<Op>) returns (r: seq<Op>)
    ensures r == Deduplicate(version, ops)
  {
    var order: seq<string> := [];
    var byRel: map<string, Op> := map[];
    var i := 0;
    while i < |ops|
      invariant 0 <= i <= |ops|
      invariant Table(order, byRel) == DedupTable(version, ops[..i])
    {
      var op := ops[i];
      DedupTableSnoc(version, ops, i);
      if op.rel !in byRel {
        order := order + [op.rel];
        byRel := byRel[op.rel := op];
      } else if Pri(version, op.kind) > Pri(version, byRel[op.rel].kind) {
        byRel := byRel[op.rel := op];
      }
      i := i + 1;
    }
    assert ops[..|ops|] == ops;
    r := TableValues(Table(order, byRel));
  }

  /** `Array.from(byRel.values())`, in the order the paths were first inserted. */
  method TableValues(t: Table) returns (r: seq<Op>)
    requires WF(t)
    ensures r == Values(t)
  {
    r := [];
    var k := 0;
    while k < |t.order|
      invariant 0 <= k <= |t.order|
      invariant |r| == k && forall j :: 0 <= j < k ==> r[j] == t.byRel[t.order[j]]
    {
      r := r + [t.byRel[t.order[k]]];
      k := k + 1;
    }
  }
}
