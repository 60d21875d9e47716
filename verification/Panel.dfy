/** The panel's rollout tables and the statements that change them. */
module Panel {
  import opened Collections

  type NodeId = string
  type RevId = string
  type Content = string

  datatype RevState =
    | Draft | Compiled | Deploying | Active | PartiallyActive | ValidationFailed | Superseded | RolledBack

  datatype Revision = Revision(state: RevState, activatedAt: Option<nat>)

  datatype DeployState = Pending | Applied | Failed

  /** `polled` says whether the health poll visits the node: it has an address and is not disabled. */
  datatype NodeRow = NodeRow(desired: Option<RevId>, applied: Option<RevId>, polled: bool)

  /** Deployment rows and stored artifacts are keyed by node within revision. */
  datatype Tables = Tables(
    revisions: map<RevId, Revision>,
    artifacts: map<RevId, map<NodeId, Content>>,
    nodes: map<NodeId, NodeRow>,
    rows: map<RevId, map<NodeId, DeployState>>)

  function RowsOf(p: Tables, rev: RevId): map<NodeId, DeployState> {
    if rev in p.rows then p.rows[rev] else map[]
  }

  function ArtifactsOf(p: Tables, rev: RevId): map<NodeId, Content> {
    if rev in p.artifacts then p.artifacts[rev] else map[]
  }

  // ----- the statements as functions -----

  function Recorded(p: Tables, node: NodeId, rev: RevId, state: DeployState): Tables {
    p.(rows := p.rows[rev := RowsOf(p, rev)[node := state]])
  }

  function NodeReported(p: Tables, node: NodeId, applied: Option<RevId>): Tables {
    if node in p.nodes && applied.Some? then p.(nodes := p.nodes[node := p.nodes[node].(applied := applied)]) else p
  }

  /** Nodes of the revision's rows in the given state. */
  function InState(p: Tables, rev: RevId, state: DeployState): set<NodeId> {
    set n | n in RowsOf(p, rev) && RowsOf(p, rev)[n] == state
  }

  /** The new state of a revision once its rows allow one. */
  function Verdict(p: Tables, rev: RevId): Option<RevState> {
    var total := |RowsOf(p, rev)|;
    var applied := |InState(p, rev, Applied)|;
    var failed := |InState(p, rev, Failed)|;
    if applied == total && total > 0 then Some(Active)
    else if applied > 0 && applied + failed == total then Some(PartiallyActive)
    else if failed == total && total > 0 then Some(ValidationFailed)
    else None
  }

  /** The first statement of reconciling: the revision takes its verdict. */
  function Promoted(p: Tables, rev: RevId, state: RevState, now: nat): Tables {
    if rev !in p.revisions then p
    else
      var r := p.revisions[rev];
      var at := if state == Active || state == PartiallyActive
                then (if r.activatedAt.Some? then r.activatedAt else Some(now)) else r.activatedAt;
      p.(revisions := p.revisions[rev := Revision(state, at)])
  }

  /** The second statement: every other active revision is superseded. */
  function OthersSuperseded(p: Tables, rev: RevId): Tables {
    p.(revisions := map r | r in p.revisions ::
         if r != rev && p.revisions[r].state == Active then p.revisions[r].(state := Superseded) else p.revisions[r])
  }

  function Reconciled(p: Tables, rev: RevId, now: nat): Tables {
    match Verdict(p, rev)
    case None => p
    case Some(state) =>
      var promoted := Promoted(p, rev, state, now);
      if state == Active then OthersSuperseded(promoted, rev) else promoted
  }

  /** A rollout may start on a stored revision that did not fail and has artifacts. */
  predicate CanRollOut(p: Tables, rev: RevId) {
    && rev in p.revisions && p.revisions[rev].state != ValidationFailed
    && ArtifactsOf(p, rev) != map[]
  }

  /** Rows with those of the target nodes set to pending. */
  function Marked(rows: map<NodeId, DeployState>, targets: set<NodeId>): map<NodeId, DeployState> {
    map n | n in rows.Keys + targets :: if n in targets then Pending else rows[n]
  }

  lemma MarkedNone(rows: map<NodeId, DeployState>, targets: set<NodeId>)
    ensures Marked(rows, targets - targets) == rows
  {
  }

  lemma MarkedStep(rows: map<NodeId, DeployState>, targets: set<NodeId>, rest: set<NodeId>, n: NodeId)
    requires n in rest && rest <= targets
    ensures Marked(rows, targets - rest)[n := Pending] == Marked(rows, targets - (rest - {n}))
  {
  }

  function RolledOut(p: Tables, rev: RevId): Tables
    requires CanRollOut(p, rev)
  {
    var arts := ArtifactsOf(p, rev);
    p.(rows := p.rows[rev := Marked(RowsOf(p, rev), arts.Keys)],
       nodes := map n | n in p.nodes ::
                  if n in arts then p.nodes[n].(desired := Some(rev)) else p.nodes[n],
       revisions := p.revisions[rev := p.revisions[rev].(state := Deploying)])
  }

  /** Revisions a rollback may return to. */
  predicate Restorable(p: Tables, r: RevId, id: RevId) {
    && r in p.revisions && r != id && p.revisions[r].activatedAt.Some?
    && (p.revisions[r].state == Active || p.revisions[r].state == Superseded || p.revisions[r].state == PartiallyActive)
  }

  /** `prev` is a restorable revision activated last. */
  ghost predicate RollbackTarget(p: Tables, id: RevId, prev: RevId) {
    && Restorable(p, prev, id)
    && forall r :: Restorable(p, r, id) ==>
         p.revisions[r].activatedAt.value <= p.revisions[prev].activatedAt.value
  }

  function MarkedRolledBack(p: Tables, id: RevId): Tables {
    if id in p.revisions then p.(revisions := p.revisions[id := p.revisions[id].(state := RolledBack)]) else p
  }

  // ----- the statements as they run -----

  class Store {
    var revisions: map<RevId, Revision>
    var artifacts: map<RevId, map<NodeId, Content>>
    var nodes: map<NodeId, NodeRow>
    var rows: map<RevId, map<NodeId, DeployState>>

    function View(): Tables
      reads this
    {
      Tables(revisions, artifacts, nodes, rows)
    }

    constructor (p: Tables)
      ensures View() == p
    {
      revisions, artifacts, nodes, rows := p.revisions, p.artifacts, p.nodes, p.rows;
    }

    method RecordPush(node: NodeId, rev: RevId, state: DeployState)
      modifies this`rows
      ensures View() == Recorded(old(View()), node, rev, state)
    {
      rows := rows[rev := (if rev in rows then rows[rev] else map[])[node := state]];
    }

    /** Counts the rows of a revision by state. */
    method CountRows(rev: RevId) returns (total: nat, applied: nat, failed: nat)
      ensures total == |RowsOf(View(), rev)|
      ensures applied == |InState(View(), rev, Applied)| && failed == |InState(View(), rev, Failed)|
    {
      var mine := if rev in rows then rows[rev] else map[];
      var rest := mine.Keys;
      var seenApplied, seenFailed: set<NodeId> := {}, {};
      total, applied, failed := |mine|, 0, 0;
      while rest != {}
        invariant rest <= mine.Keys
        invariant seenApplied == set n | n in mine && n !in rest && mine[n] == Applied
        invariant seenFailed == set n | n in mine && n !in rest && mine[n] == Failed
        invariant applied == |seenApplied| && failed == |seenFailed|
        decreases |rest|
      {
        var n := AnyOf(rest);
        rest := rest - {n};
        if mine[n] == Applied {
          applied := applied + 1;
          seenApplied := seenApplied + {n};
        } else if mine[n] == Failed {
          failed := failed + 1;
          seenFailed := seenFailed + {n};
        }
      }
      assert seenApplied == InState(View(), rev, Applied);
      assert seenFailed == InState(View(), rev, Failed);
    }

    method Reconcile(rev: RevId, now: nat)
      modifies this`revisions
      ensures View() == Reconciled(old(View()), rev, now)
    {
      var total, applied, failed := CountRows(rev);
      var state: RevState;
      if applied == total && total > 0 {
        state := Active;
      } else if applied > 0 && applied + failed == total {
        state := PartiallyActive;
      } else if failed == total && total > 0 {
        state := ValidationFailed;
      } else {
        return;
      }
      if rev in revisions {
        var r := revisions[rev];
        var at := r.activatedAt;
        if (state == Active || state == PartiallyActive) && at.None? { at := Some(now); }
        revisions := revisions[rev := Revision(state, at)];
      }
      if state == Active {
        revisions := map r | r in revisions ::
          if r != rev && revisions[r].state == Active then revisions[r].(state := Superseded) else revisions[r];
      }
    }

    /** Marks every target node and its row, then the revision; refused on failed or empty revisions. */
    method StartRollout(rev: RevId) returns (ok: bool)
      modifies this`rows, this`nodes, this`revisions
      ensures ok <==> CanRollOut(old(View()), rev)
      ensures View() == if CanRollOut(old(View()), rev) then RolledOut(old(View()), rev) else old(View())
      ensures ok <==> rev in old(revisions) && old(revisions)[rev].state != ValidationFailed
                      && rev in artifacts && artifacts[rev] != map[]
      ensures ok ==> revisions == old(revisions)[rev := old(revisions)[rev].(state := Deploying)]
      ensures ok ==> rev in rows && rows.Keys == old(rows).Keys + {rev} && nodes.Keys == old(nodes).Keys
      ensures ok ==> forall n :: n in artifacts[rev] ==> n in rows[rev] && rows[rev][n] == Pending
      ensures ok ==> forall n :: n in nodes ==>
                nodes[n] == if n in artifacts[rev] then old(nodes)[n].(desired := Some(rev)) else old(nodes)[n]
      ensures forall r :: r != rev && r in old(rows) ==> r in rows && rows[r] == old(rows)[r]
    {
      if rev !in revisions { return false; }
      if revisions[rev].state == ValidationFailed { return false; }
      var arts := if rev in artifacts then artifacts[rev] else map[];
      if arts == map[] { return false; }
      var mine := MarkRows(arts, if rev in rows then rows[rev] else map[]);
      var targets := MarkNodes(arts, nodes, rev);
      rows := rows[rev := mine];
      nodes := targets;
      revisions := revisions[rev := revisions[rev].(state := Deploying)];
      return true;
    }

    static method MarkRows(arts: map<NodeId, Content>, rows: map<NodeId, DeployState>)
      returns (marked: map<NodeId, DeployState>)
      ensures marked == Marked(rows, arts.Keys)
    {
      marked := rows;
      var rest := arts.Keys;
      MarkedNone(rows, arts.Keys);
      hide Marked;
      while rest != {}
        invariant rest <= arts.Keys
        invariant marked == Marked(rows, arts.Keys - rest)
        decreases |rest|
      {
        var n := AnyOf(rest);
        MarkedStep(rows, arts.Keys, rest, n);
        rest := rest - {n};
        marked := marked[n := Pending];
      }
      assert arts.Keys - {} == arts.Keys;
    }

    static method MarkNodes(arts: map<NodeId, Content>, nodes: map<NodeId, NodeRow>, rev: RevId)
      returns (marked: map<NodeId, NodeRow>)
      ensures marked == map n | n in nodes :: if n in arts then nodes[n].(desired := Some(rev)) else nodes[n]
    {
      marked := nodes;
      var rest := arts.Keys;
      while rest != {}
        invariant rest <= arts.Keys
        invariant marked.Keys == nodes.Keys
        invariant forall n :: n in marked ==>
                    marked[n] == if n in arts && n !in rest then nodes[n].(desired := Some(rev)) else nodes[n]
        decreases |rest|
      {
        var n := AnyOf(rest);
        rest := rest - {n};
        if n in marked {
          marked := marked[n := marked[n].(desired := Some(rev))];
        }
      }
    }

    /** The restorable revision activated last, if any. */
    method LatestRestorable(id: RevId) returns (best: Option<RevId>)
      ensures match best
              case None => forall r :: !Restorable(View(), r, id)
              case Some(r) => RollbackTarget(View(), id, r)
    {
      best := None;
      var rest := revisions.Keys;
      while rest != {}
        invariant rest <= revisions.Keys
        invariant best.None? ==> forall r :: r in revisions && r !in rest ==> !Restorable(View(), r, id)
        invariant best.Some? ==> Restorable(View(), best.value, id)
        invariant best.Some? ==> forall r :: r !in rest && Restorable(View(), r, id) ==>
                    revisions[r].activatedAt.value <= revisions[best.value].activatedAt.value
        decreases |rest|
      {
        var r := AnyOf(rest);
        rest := rest - {r};
        var row := revisions[r];
        if r != id && row.activatedAt.Some? &&
           (row.state == Active || row.state == Superseded || row.state == PartiallyActive) {
          if best.None? || revisions[best.value].activatedAt.value < row.activatedAt.value {
            best := Some(r);
          }
        }
      }
    }

    /** Rolls out the restorable revision activated last, and marks `id` as rolled back. */
    method Rollback(id: RevId) returns (ok: bool, prev: RevId)
      modifies this`rows, this`nodes, this`revisions
      ensures ok ==>
                && RollbackTarget(old(View()), id, prev) && CanRollOut(old(View()), prev)
                && View() == MarkedRolledBack(RolledOut(old(View()), prev), id)
      ensures ok ==> forall x :: !Restorable(View(), id, x)
      ensures ok && id in old(revisions) ==>
                id in revisions && revisions[id] == old(revisions)[id].(state := RolledBack)
      ensures !ok ==> View() == old(View())
      ensures !ok ==> (forall r :: !Restorable(old(View()), r, id)) ||
                      (RollbackTarget(old(View()), id, prev) && !CanRollOut(old(View()), prev))
    {
      var best := LatestRestorable(id);
      if best.None? { return false, id; }
      prev := best.value;
      ok := StartRollout(prev);
      if !ok { return; }
      if id in revisions {
        revisions := revisions[id := revisions[id].(state := RolledBack)];
      }
    }
  }

  // ----- what the verdict means -----

  lemma InStateParts(p: Tables, rev: RevId)
    ensures |InState(p, rev, Applied)| + |InState(p, rev, Failed)| + |InState(p, rev, Pending)| == |RowsOf(p, rev)|
  {
    var a, f, w := InState(p, rev, Applied), InState(p, rev, Failed), InState(p, rev, Pending);
    assert a + f + w == RowsOf(p, rev).Keys;
    assert |a + f| == |a| + |f|;
    assert |a + f + w| == |a + f| + |w|;
  }

  /** Counting and quantifying agree: a revision turns active exactly when it has rows and all have applied. */
  lemma ActiveMeansAllApplied(p: Tables, rev: RevId)
    ensures Verdict(p, rev) == Some(Active) <==>
            RowsOf(p, rev) != map[] && forall n :: n in RowsOf(p, rev) ==> RowsOf(p, rev)[n] == Applied
  {
    var rows := RowsOf(p, rev);
    var a := InState(p, rev, Applied);
    InStateParts(p, rev);
    assert a <= rows.Keys;
    if |a| == |rows| {
      SubsetOfSameSize(a, rows.Keys);
    }
    if forall n :: n in rows ==> rows[n] == Applied {
      assert a == rows.Keys;
    }
    if rows != map[] { assert rows.Keys != {}; }
  }

  lemma SubsetOfSameSize<T>(a: set<T>, b: set<T>)
    requires a <= b && |a| == |b|
    ensures a == b
  {
    assert |b - a| == |b| - |a|;
  }

  /** While a row is pending there is no verdict. */
  lemma PendingMeansNoVerdict(p: Tables, rev: RevId, n: NodeId)
    requires n in RowsOf(p, rev) && RowsOf(p, rev)[n] == Pending
    ensures Verdict(p, rev).None?
  {
    InStateParts(p, rev);
    assert n in InState(p, rev, Pending);
  }

  lemma AllOf(rows: map<NodeId, DeployState>, state: DeployState)
    ensures |set n | n in rows && rows[n] == state| == |rows| <==> forall n :: n in rows ==> rows[n] == state
  {
    var a := set n | n in rows && rows[n] == state;
    if |a| == |rows| { SubsetOfSameSize(a, rows.Keys); }
    if forall n :: n in rows ==> rows[n] == state { assert a == rows.Keys; }
  }

  /**
   * All verdicts, in terms of the rows: none while there are no rows or one is pending;
   * otherwise active when all applied, failed when all failed, and partially active between.
   */
  lemma VerdictMeaning(p: Tables, rev: RevId)
    ensures var rows := RowsOf(p, rev);
            && (Verdict(p, rev).None? <==> rows == map[] || exists n :: n in rows && rows[n] == Pending)
            && (Verdict(p, rev) == Some(Active) <==> rows != map[] && forall n :: n in rows ==> rows[n] == Applied)
            && (Verdict(p, rev) == Some(ValidationFailed) <==> rows != map[] && forall n :: n in rows ==> rows[n] == Failed)
            && (Verdict(p, rev) == Some(PartiallyActive) <==>
                  && (forall n :: n in rows ==> rows[n] != Pending)
                  && (exists n :: n in rows && rows[n] == Applied) && (exists n :: n in rows && rows[n] == Failed))
  {
    var rows := RowsOf(p, rev);
    InStateParts(p, rev);
    AllOf(rows, Applied);
    AllOf(rows, Failed);
    var a, f, w := InState(p, rev, Applied), InState(p, rev, Failed), InState(p, rev, Pending);
    assert forall n :: (n in a <==> n in rows && rows[n] == Applied) && (n in f <==> n in rows && rows[n] == Failed)
                       && (n in w <==> n in rows && rows[n] == Pending);
    assert |rows| == 0 <==> rows == map[];
    hide InState, RowsOf;
    assert |a| > 0 <==> exists n :: n in a by { if |a| > 0 { var n :| n in a; } }
    assert |f| > 0 <==> exists n :: n in f by { if |f| > 0 { var n :| n in f; } }
    assert |w| > 0 <==> exists n :: n in w by { if |w| > 0 { var n :| n in w; } }
  }
}
