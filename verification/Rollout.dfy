/**
 * The push protocol between the panel and its nodes. Any number of calls are under way at
 * once; they may be lost, answered late, given up on and still delivered, and overtake each
 * other. Reconciling runs as the three statements it is: count the rows, write the verdict,
 * supersede the others. A rollback marks the revision it left in a step of its own, which the
 * model lets happen at any time.
 */
module Rollout {
  import opened Collections
  import opened Panel

  /** What a node can tell about an artifact: the revision it names, and whether it passes the agent's check. */
  datatype Wire = Wire(revOf: Content -> RevId, accepts: (NodeId, Content) -> bool)

  datatype Phase =
    | Sent | Answered(rev: RevId) | Refused | Noted | Reported | Counted(verdict: RevState) | Superseding | Abandoned

  /** One push call of the panel. */
  datatype Call = Call(node: NodeId, rev: RevId, content: Content, phase: Phase)

  /**
   * `running` is the artifact each node has applied. `ran` and `acked` remember which
   * node has ever applied, and acknowledged, which revision.
   */
  datatype State = State(
    panel: Tables, running: map<NodeId, Content>, calls: map<nat, Call>, now: nat,
    ran: set<(NodeId, RevId)>, acked: set<(NodeId, RevId)>)

  datatype Step =
    | NewRevision(rev: RevId, arts: map<NodeId, Content>)
    | AddNode(node: NodeId, polled: bool)
    | Start(rev: RevId)
    | RollBack(id: RevId, prev: RevId)
    | MarkRolledBack(id: RevId)
    | Begin(call: nat, rev: RevId, node: NodeId)
    | NoTarget(rev: RevId, node: NodeId)
    | Deliver(call: nat)
    | Note(call: nat)
    | Report(call: nat)
    | Count(call: nat)
    | Promote(call: nat)
    | Supersede(call: nat)
    | GiveUp(call: nat)
    | Forget(call: nat)
    | Poll(node: NodeId)

  function AppliedRev(w: Wire, s: State, n: NodeId): Option<RevId> {
    if n in s.running then Some(w.revOf(s.running[n])) else None
  }

  ghost predicate Can(w: Wire, s: State, st: Step) {
    var p := s.panel;
    match st
    case NewRevision(rev, arts) =>
      && rev !in p.revisions && arts.Keys <= p.nodes.Keys
      && forall n :: n in arts ==> w.revOf(arts[n]) == rev
    case AddNode(node, _) => node !in p.nodes
    case Start(rev) => CanRollOut(p, rev)
    case RollBack(id, prev) => RollbackTarget(p, id, prev) && CanRollOut(p, prev)
    case MarkRolledBack(_) => true
    case Begin(c, rev, node) => c !in s.calls && node in RowsOf(p, rev) && node in ArtifactsOf(p, rev)
    case NoTarget(rev, node) => node in RowsOf(p, rev)
    case Deliver(c) => c in s.calls && (s.calls[c].phase.Sent? || s.calls[c].phase.Abandoned?)
    case Note(c) => c in s.calls && s.calls[c].phase.Answered?
    case Report(c) => c in s.calls && s.calls[c].phase.Noted?
    case Count(c) => c in s.calls && s.calls[c].phase.Reported?
    case Promote(c) => c in s.calls && s.calls[c].phase.Counted?
    case Supersede(c) => c in s.calls && s.calls[c].phase.Superseding?
    case GiveUp(c) => c in s.calls && (s.calls[c].phase.Sent? || s.calls[c].phase.Answered? || s.calls[c].phase.Refused?)
    case Forget(c) => c in s.calls && s.calls[c].phase.Abandoned?
    case Poll(node) => node in p.nodes && p.nodes[node].polled
  }

  ghost function Do(w: Wire, s: State, st: Step): State
    requires Can(w, s, st)
  {
    var p := s.panel;
    match st
    case NewRevision(rev, arts) =>
      s.(panel := p.(revisions := p.revisions[rev := Revision(Compiled, None)], artifacts := p.artifacts[rev := arts]))
    case AddNode(node, polled) => s.(panel := p.(nodes := p.nodes[node := NodeRow(None, None, polled)]))
    case Start(rev) => s.(panel := RolledOut(p, rev))
    case RollBack(_, prev) => s.(panel := RolledOut(p, prev))
    case MarkRolledBack(id) => s.(panel := MarkedRolledBack(p, id))
    case Begin(c, rev, node) =>
      s.(calls := s.calls[c := Call(node, rev, ArtifactsOf(p, rev)[node], Sent)])
    case NoTarget(rev, node) => s.(panel := Recorded(p, node, rev, Failed))
    case Deliver(c) =>
      var call := s.calls[c];
      var ok := w.accepts(call.node, call.content);
      var applied := if ok then s.(running := s.running[call.node := call.content],
                                   ran := s.ran + {(call.node, w.revOf(call.content))}) else s;
      applied.(calls :=
        if call.phase.Abandoned? then s.calls - {c}
        else s.calls[c := call.(phase := if ok then Answered(w.revOf(call.content)) else Refused)])
    case Note(c) =>
      var call := s.calls[c];
      s.(panel := Recorded(p, call.node, call.rev, Applied),
         calls := s.calls[c := call.(phase := Noted)],
         acked := s.acked + {(call.node, call.rev)})
    case Report(c) =>
      var call := s.calls[c];
      s.(panel := NodeReported(p, call.node, Some(call.rev)), calls := s.calls[c := call.(phase := Reported)])
    case Count(c) =>
      var verdict := Verdict(p, s.calls[c].rev);
      s.(calls := if verdict.None? then s.calls - {c} else s.calls[c := s.calls[c].(phase := Counted(verdict.value))])
    case Promote(c) =>
      var call := s.calls[c];
      s.(panel := Promoted(p, call.rev, call.phase.verdict, s.now), now := s.now + 1,
         calls := if call.phase.verdict == Active then s.calls[c := call.(phase := Superseding)] else s.calls - {c})
    case Supersede(c) => s.(panel := OthersSuperseded(p, s.calls[c].rev), calls := s.calls - {c})
    case GiveUp(c) =>
      var call := s.calls[c];
      s.(panel := Recorded(p, call.node, call.rev, Failed),
         calls := if call.phase.Sent? then s.calls[c := call.(phase := Abandoned)] else s.calls - {c})
    case Forget(c) => s.(calls := s.calls - {c})
    case Poll(node) => s.(panel := NodeReported(p, node, AppliedRev(w, s, node)))
  }

  // ----- invariant -----

  /** Stored artifacts name their revision and belong to known nodes; a revision's rows are those of its artifacts. */
  ghost predicate RevisionOk(w: Wire, p: Tables, r: RevId) {
    && (forall n :: n in ArtifactsOf(p, r) ==> w.revOf(ArtifactsOf(p, r)[n]) == r)
    && ArtifactsOf(p, r).Keys <= p.nodes.Keys
    && (RowsOf(p, r) == map[] || RowsOf(p, r).Keys == ArtifactsOf(p, r).Keys)
  }

  ghost predicate TablesOk(w: Wire, p: Tables) {
    && p.artifacts.Keys <= p.revisions.Keys && p.rows.Keys <= p.revisions.Keys
    && (forall r :: RevisionOk(w, p, r))
    && (forall n :: n in p.nodes && p.nodes[n].desired.Some? ==> n in RowsOf(p, p.nodes[n].desired.value))
  }

  ghost predicate IsStored(w: Wire, p: Tables, n: NodeId, c: Content) {
    n in ArtifactsOf(p, w.revOf(c)) && ArtifactsOf(p, w.revOf(c))[n] == c
  }

  ghost predicate CallOk(w: Wire, s: State, call: Call) {
    && IsStored(w, s.panel, call.node, call.content) && w.revOf(call.content) == call.rev
    && call.node in RowsOf(s.panel, call.rev)
    && (call.phase.Answered? ==> call.phase.rev == call.rev && (call.node, call.rev) in s.ran)
    && (call.phase.Noted? || call.phase.Reported? ==> (call.node, call.rev) in s.acked)
    && (call.phase.Counted? ==> call.phase.verdict != Deploying)
  }

  ghost predicate NetworkOk(w: Wire, s: State) {
    && (forall n :: n in s.running ==> IsStored(w, s.panel, n, s.running[n]))
    && (forall c :: c in s.calls ==> CallOk(w, s, s.calls[c]))
    && s.acked <= s.ran
  }

  predicate IsActive(p: Tables, r: RevId) {
    r in p.revisions && p.revisions[r].state == Active
  }

  /** The revision has rows, and every node in them has acknowledged it. */
  ghost predicate AllAcked(s: State, r: RevId) {
    RowsOf(s.panel, r) != map[] && forall n :: n in RowsOf(s.panel, r) ==> (n, r) in s.acked
  }

  /** Applied rows are acknowledged. */
  ghost predicate RowsAcked(s: State) {
    forall r, n :: n in RowsOf(s.panel, r) && RowsOf(s.panel, r)[n] == Applied ==> (n, r) in s.acked
  }

  /** Applied rows are acknowledged; so is every row of a revision that is active or counted as such. */
  ghost predicate AckOk(s: State) {
    && RowsAcked(s)
    && (forall r :: IsActive(s.panel, r) ==> AllAcked(s, r))
    && (forall c :: c in s.calls && s.calls[c].phase == Counted(Active) ==> AllAcked(s, s.calls[c].rev))
  }

  /** A call is between promoting the revision and superseding the others. */
  ghost predicate Superseder(s: State, r: RevId) {
    exists c :: c in s.calls && s.calls[c].phase.Superseding? && s.calls[c].rev == r
  }

  /** Of two active revisions one is still to supersede the other. */
  ghost predicate OneActive(s: State) {
    forall q, r :: IsActive(s.panel, q) && IsActive(s.panel, r) ==> q == r || Superseder(s, q) || Superseder(s, r)
  }

  /** Every row of the revision is applied. */
  predicate AllApplied(p: Tables, r: RevId) {
    forall n :: n in RowsOf(p, r) ==> RowsOf(p, r)[n] == Applied
  }

  /** A call has noted an answer for the revision and is still to take the verdict. */
  ghost predicate Reconciler(s: State, r: RevId) {
    exists c :: c in s.calls && s.calls[c].rev == r
      && (s.calls[c].phase.Noted? || s.calls[c].phase.Reported? || s.calls[c].phase.Counted?)
  }

  /** A deploying revision has a row that is not applied, or a call still to take its verdict. */
  ghost predicate DeployOk(s: State) {
    forall r :: r in s.panel.revisions && s.panel.revisions[r].state == Deploying ==>
      !AllApplied(s.panel, r) || Reconciler(s, r)
  }

  ghost predicate Inv(w: Wire, s: State) {
    TablesOk(w, s.panel) && NetworkOk(w, s) && AckOk(s) && OneActive(s) && DeployOk(s)
  }

  function Init(): State {
    State(Tables(map[], map[], map[], map[]), map[], map[], 0, {}, {})
  }

  // ----- changes of the tables -----

  /** Artifacts and rows may be added; what is stored stays. */
  ghost predicate Keeps(p: Tables, q: Tables) {
    && (forall r, n :: n in ArtifactsOf(p, r) ==> n in ArtifactsOf(q, r) && ArtifactsOf(q, r)[n] == ArtifactsOf(p, r)[n])
    && (forall r, n :: n in RowsOf(p, r) ==> n in RowsOf(q, r))
  }

  lemma NetworkKept(w: Wire, s: State, q: Tables)
    requires NetworkOk(w, s) && Keeps(s.panel, q)
    ensures NetworkOk(w, s.(panel := q))
  {
    var t := s.(panel := q);
    forall c | c in t.calls ensures CallOk(w, t, t.calls[c]) {
      assert CallOk(w, s, s.calls[c]);
    }
    forall n | n in t.running ensures IsStored(w, q, n, t.running[n]) {
      assert IsStored(w, s.panel, n, s.running[n]);
    }
  }

  /** Rows, artifacts and revision states are as they were. */
  predicate SameDeployments(p: Tables, q: Tables) {
    p.rows == q.rows && p.artifacts == q.artifacts && p.revisions == q.revisions
  }

  /** The parts of the invariant that look at rows and revision states only. */
  lemma StatesKept(s: State, q: Tables)
    requires AckOk(s) && OneActive(s) && DeployOk(s) && SameDeployments(s.panel, q)
    ensures AckOk(s.(panel := q)) && OneActive(s.(panel := q)) && DeployOk(s.(panel := q))
  {
    var t := s.(panel := q);
    assert forall r :: RowsOf(q, r) == RowsOf(s.panel, r) && (IsActive(q, r) <==> IsActive(s.panel, r));
    assert forall r :: (Superseder(s, r) <==> Superseder(t, r)) && (Reconciler(s, r) <==> Reconciler(t, r));
    hide Superseder, Reconciler, RowsOf;
  }

  lemma NodesKeep(w: Wire, s: State, q: Tables)
    requires Inv(w, s) && SameDeployments(s.panel, q) && s.panel.nodes.Keys <= q.nodes.Keys
    requires forall n :: n in q.nodes && q.nodes[n].desired.Some? ==>
               n in s.panel.nodes && q.nodes[n].desired == s.panel.nodes[n].desired
    ensures Inv(w, s.(panel := q))
  {
    StatesKept(s, q);
    var p := s.panel;
    assert forall r :: RowsOf(q, r) == RowsOf(p, r) && ArtifactsOf(q, r) == ArtifactsOf(p, r);
    forall r ensures RevisionOk(w, q, r) { assert RevisionOk(w, p, r); }
    NetworkKept(w, s, q);
  }

  /** What the state of `t` needs to be in order once that of `s` is; a newly active revision has a call to supersede the others. */
  lemma Carried(s: State, t: State)
    requires AckOk(s) && OneActive(s) && RowsAcked(t) && DeployOk(t)
    requires forall r :: AllAcked(s, r) ==> AllAcked(t, r)
    requires forall c :: c in t.calls && t.calls[c].phase == Counted(Active) ==> AllAcked(t, t.calls[c].rev)
    requires forall r :: IsActive(t.panel, r) ==> IsActive(s.panel, r) || (Superseder(t, r) && AllAcked(t, r))
    requires forall r :: Superseder(s, r) ==> Superseder(t, r)
    ensures AckOk(t) && OneActive(t)
  {
    hide AllAcked, Superseder, IsActive;
  }

  lemma SameCalls(s: State, t: State)
    requires s.calls == t.calls
    ensures forall r :: (Superseder(s, r) <==> Superseder(t, r)) && (Reconciler(s, r) <==> Reconciler(t, r))
  {
  }

  lemma NewRevisionTables(w: Wire, p: Tables, q: Tables, rev: RevId, arts: map<NodeId, Content>)
    requires TablesOk(w, p) && rev !in p.revisions && arts.Keys <= p.nodes.Keys
    requires forall n :: n in arts ==> w.revOf(arts[n]) == rev
    requires q == p.(revisions := p.revisions[rev := Revision(Compiled, None)], artifacts := p.artifacts[rev := arts])
    ensures TablesOk(w, q) && Keeps(p, q)
  {
    assert forall r :: RowsOf(q, r) == RowsOf(p, r);
    assert forall r :: r != rev ==> ArtifactsOf(q, r) == ArtifactsOf(p, r);
    assert ArtifactsOf(p, rev) == map[] && RowsOf(p, rev) == map[];
    forall r ensures RevisionOk(w, q, r) { assert RevisionOk(w, p, r); }
  }

  /** Rows stay, and no revision becomes active or deploying. */
  lemma StatesCarried(s: State, t: State)
    requires AckOk(s) && OneActive(s) && DeployOk(s) && s.calls == t.calls && s.acked == t.acked
    requires s.panel.rows == t.panel.rows
    requires forall r :: r in t.panel.revisions && t.panel.revisions[r].state in {Active, Deploying} ==>
               r in s.panel.revisions && s.panel.revisions[r].state == t.panel.revisions[r].state
    ensures AckOk(t) && OneActive(t) && DeployOk(t)
  {
    Demoted(s, t.panel);
    var u := s.(panel := t.panel);
    SameCalls(u, t);
    hide Superseder, Reconciler, RowsOf;
    assert forall r :: AllAcked(u, r) <==> AllAcked(t, r);
    assert forall r :: AllApplied(u.panel, r) <==> AllApplied(t.panel, r);
    assert RowsAcked(u) && RowsAcked(t);
  }

  lemma NewRevisionStep(w: Wire, s: State, st: Step)
    requires Inv(w, s) && Can(w, s, st) && st.NewRevision?
    ensures Inv(w, Do(w, s, st))
  {
    var t := Do(w, s, st);
    NewRevisionTables(w, s.panel, t.panel, st.rev, st.arts);
    assert t == s.(panel := t.panel) && s.panel.rows == t.panel.rows;
    hide RowsOf, TablesOk, NetworkOk, AckOk, OneActive, DeployOk;
    NetworkKept(w, s, t.panel);
    StatesCarried(s, t);
  }

  /** What a rollout does to the tables, row by row. */
  lemma RolledOutTables(w: Wire, p: Tables, rev: RevId)
    requires TablesOk(w, p) && CanRollOut(p, rev)
    ensures var q := RolledOut(p, rev);
            && TablesOk(w, q) && Keeps(p, q)
            && (forall r :: r != rev ==> RowsOf(q, r) == RowsOf(p, r))
            && RowsOf(q, rev).Keys == ArtifactsOf(p, rev).Keys && RowsOf(q, rev) != map[]
            && (forall n :: n in RowsOf(q, rev) ==> RowsOf(q, rev)[n] == Pending)
            && q.revisions == p.revisions[rev := p.revisions[rev].(state := Deploying)]
            && q.artifacts == p.artifacts && q.nodes.Keys == p.nodes.Keys
            && (forall n :: n in p.nodes ==>
                  q.nodes[n] == if n in ArtifactsOf(p, rev) then p.nodes[n].(desired := Some(rev)) else p.nodes[n])
  {
    var q := RolledOut(p, rev);
    assert RevisionOk(w, p, rev);
    assert forall r :: ArtifactsOf(q, r) == ArtifactsOf(p, r);
    forall r ensures RevisionOk(w, q, r) { assert RevisionOk(w, p, r); }
    assert ArtifactsOf(p, rev).Keys != {};
  }

  lemma RollOutKeeps(w: Wire, s: State, rev: RevId)
    requires Inv(w, s) && CanRollOut(s.panel, rev)
    ensures Inv(w, s.(panel := RolledOut(s.panel, rev)))
  {
    var t := s.(panel := RolledOut(s.panel, rev));
    RolledOutTables(w, s.panel, rev);
    assert RevisionOk(w, s.panel, rev);
    RolledOutStates(w, s, t, rev);
    hide RolledOut, TablesOk, NetworkOk, AckOk, OneActive, DeployOk, RowsOf;
    NetworkKept(w, s, t.panel);
  }

  lemma RolledOutStates(w: Wire, s: State, t: State, rev: RevId)
    requires AckOk(s) && OneActive(s) && DeployOk(s) && t == s.(panel := t.panel)
    requires forall r :: r != rev ==> RowsOf(t.panel, r) == RowsOf(s.panel, r)
    requires RowsOf(t.panel, rev) != map[] && forall n :: n in RowsOf(t.panel, rev) ==> RowsOf(t.panel, rev)[n] == Pending
    requires RowsOf(s.panel, rev) == map[] || RowsOf(s.panel, rev).Keys == RowsOf(t.panel, rev).Keys
    requires forall r :: r in t.panel.revisions && r != rev ==> r in s.panel.revisions && t.panel.revisions[r] == s.panel.revisions[r]
    requires rev in t.panel.revisions && t.panel.revisions[rev].state == Deploying
    ensures AckOk(t) && OneActive(t) && DeployOk(t)
  {
    SameCalls(s, t);
    hide Superseder, Reconciler, RowsOf;
    assert forall r :: IsActive(t.panel, r) ==> IsActive(s.panel, r);
    assert forall r :: AllAcked(s, r) ==> AllAcked(t, r) by {
      assert AllAcked(s, rev) ==> AllAcked(t, rev);
    }
    PendingRows(s, t, rev);
    hide AllAcked, RowsAcked, AllApplied, IsActive;
    Carried(s, t);
  }

  lemma PendingRows(s: State, t: State, rev: RevId)
    requires RowsAcked(s) && DeployOk(s) && t == s.(panel := t.panel)
    requires forall r :: r != rev ==> RowsOf(t.panel, r) == RowsOf(s.panel, r)
    requires RowsOf(t.panel, rev) != map[] && forall n :: n in RowsOf(t.panel, rev) ==> RowsOf(t.panel, rev)[n] == Pending
    requires forall r :: r in t.panel.revisions && r != rev ==> r in s.panel.revisions && t.panel.revisions[r] == s.panel.revisions[r]
    ensures RowsAcked(t) && DeployOk(t)
  {
    SameCalls(s, t);
    hide Superseder, Reconciler, RowsOf;
    var n :| n in RowsOf(t.panel, rev);
    assert !AllApplied(t.panel, rev);
    assert forall r :: r != rev ==> (AllApplied(s.panel, r) <==> AllApplied(t.panel, r));
  }

  lemma MarkKeeps(w: Wire, s: State, id: RevId)
    requires Inv(w, s)
    ensures Inv(w, s.(panel := MarkedRolledBack(s.panel, id)))
  {
    var t := s.(panel := MarkedRolledBack(s.panel, id));
    MarkedTables(w, s.panel, id);
    hide RowsOf, TablesOk, NetworkOk, AckOk, OneActive, DeployOk;
    NetworkKept(w, s, t.panel);
    StatesCarried(s, t);
  }

  lemma MarkedTables(w: Wire, p: Tables, id: RevId)
    requires TablesOk(w, p)
    ensures TablesOk(w, MarkedRolledBack(p, id)) && Keeps(p, MarkedRolledBack(p, id))
  {
    var q := MarkedRolledBack(p, id);
    assert forall r :: RowsOf(q, r) == RowsOf(p, r) && ArtifactsOf(q, r) == ArtifactsOf(p, r);
    forall r ensures RevisionOk(w, q, r) { assert RevisionOk(w, p, r); }
  }

  /** Revisions that lose their state to one that is neither active nor deploying. */
  lemma Demoted(s: State, q: Tables)
    requires AckOk(s) && OneActive(s) && DeployOk(s) && q.rows == s.panel.rows
    requires forall r :: r in q.revisions && q.revisions[r].state in {Active, Deploying} ==>
               r in s.panel.revisions && q.revisions[r].state == s.panel.revisions[r].state
    ensures AckOk(s.(panel := q)) && OneActive(s.(panel := q)) && DeployOk(s.(panel := q))
  {
    var t := s.(panel := q);
    assert forall r :: RowsOf(q, r) == RowsOf(s.panel, r);
    assert forall r :: (Superseder(s, r) <==> Superseder(t, r)) && (Reconciler(s, r) <==> Reconciler(t, r));
    hide Superseder, Reconciler, RowsOf;
    assert forall r :: IsActive(q, r) ==> IsActive(s.panel, r);
  }

  /** What writing one row does to the tables. */
  lemma RecordedTables(w: Wire, p: Tables, n: NodeId, rev: RevId, d: DeployState)
    requires TablesOk(w, p) && n in RowsOf(p, rev)
    ensures var q := Recorded(p, n, rev, d);
            && TablesOk(w, q) && Keeps(p, q)
            && RowsOf(q, rev) == RowsOf(p, rev)[n := d]
            && (forall r :: r != rev ==> RowsOf(q, r) == RowsOf(p, r))
            && q.nodes == p.nodes && q.artifacts == p.artifacts && q.revisions == p.revisions
  {
    var q := Recorded(p, n, rev, d);
    assert RevisionOk(w, p, rev);
    assert forall r :: ArtifactsOf(q, r) == ArtifactsOf(p, r);
    forall r ensures RevisionOk(w, q, r) { assert RevisionOk(w, p, r); }
  }

  /** Writing a row for a node that has one: failure always, success once acknowledged and with the verdict still to take. */
  lemma RecordKeeps(w: Wire, s: State, n: NodeId, rev: RevId, d: DeployState)
    requires Inv(w, s) && n in RowsOf(s.panel, rev)
    requires d == Failed || (d == Applied && (n, rev) in s.acked && Reconciler(s, rev))
    ensures Inv(w, s.(panel := Recorded(s.panel, n, rev, d)))
  {
    var p, q := s.panel, Recorded(s.panel, n, rev, d);
    var t := s.(panel := q);
    RecordedTables(w, p, n, rev, d);
    RecordedStates(s, t, n, rev, d);
    hide Recorded, TablesOk, NetworkOk, AckOk, OneActive, DeployOk, RowsOf;
    NetworkKept(w, s, q);
  }

  lemma RecordedStates(s: State, t: State, n: NodeId, rev: RevId, d: DeployState)
    requires AckOk(s) && OneActive(s) && DeployOk(s) && t == s.(panel := t.panel) && t.panel.revisions == s.panel.revisions
    requires n in RowsOf(s.panel, rev) && RowsOf(t.panel, rev) == RowsOf(s.panel, rev)[n := d]
    requires forall r :: r != rev ==> RowsOf(t.panel, r) == RowsOf(s.panel, r)
    requires d == Failed || (d == Applied && (n, rev) in s.acked && Reconciler(s, rev))
    ensures AckOk(t) && OneActive(t) && DeployOk(t)
  {
    SameCalls(s, t);
    hide Superseder, Reconciler, RowsOf;
    assert forall r :: IsActive(t.panel, r) <==> IsActive(s.panel, r);
    assert RowsAcked(t);
    assert DeployOk(t) by {
      assert d == Failed ==> RowsOf(t.panel, rev)[n] != Applied;
      assert forall r :: r != rev ==> (AllApplied(s.panel, r) <==> AllApplied(t.panel, r));
      assert d == Failed ==> !AllApplied(t.panel, rev);
    }
    assert forall r :: AllAcked(s, r) ==> AllAcked(t, r);
    hide AllAcked, RowsAcked, DeployOk, IsActive, AllApplied;
    Carried(s, t);
  }

  // ----- changes of the calls -----

  /** Calls keep superseding and reconciling for the revisions they did. */
  ghost predicate KeepsDuties(s: State, t: State) {
    forall r :: (Superseder(s, r) ==> Superseder(t, r)) && (Reconciler(s, r) ==> Reconciler(t, r))
  }

  lemma CallsKeep(w: Wire, s: State, t: State)
    requires Inv(w, s) && NetworkOk(w, t) && KeepsDuties(s, t)
    requires t == s.(running := t.running, calls := t.calls, ran := t.ran, acked := t.acked)
    requires s.acked <= t.acked
    requires forall c :: c in t.calls && t.calls[c].phase == Counted(Active) ==> AllAcked(s, t.calls[c].rev)
    ensures Inv(w, t)
  {
    hide NetworkOk, TablesOk, Superseder, Reconciler, RowsOf;
    assert forall r :: AllAcked(s, r) ==> AllAcked(t, r);
  }

  lemma BeginStep(w: Wire, s: State, st: Step)
    requires Inv(w, s) && Can(w, s, st) && (st.Begin? || st.Forget?)
    ensures Inv(w, Do(w, s, st))
  {
    var t := Do(w, s, st);
    BeginNetwork(w, s, st);
    BeginCalls(w, s, st);
    DutiesKept(s, t, st.call);
    hide Do, Can, NetworkOk, TablesOk, OneActive, DeployOk, KeepsDuties, AllAcked;
    CallsKeep(w, s, t);
  }

  lemma BeginCalls(w: Wire, s: State, st: Step)
    requires Can(w, s, st) && (st.Begin? || st.Forget?)
    ensures var t := Do(w, s, st);
            && t == s.(calls := t.calls)
            && (forall c :: c in t.calls && t.calls[c].phase.Counted? ==> c in s.calls && s.calls[c] == t.calls[c])
            && (forall k :: k != st.call && k in s.calls ==> k in t.calls && t.calls[k] == s.calls[k])
            && (st.call in s.calls ==> s.calls[st.call].phase.Abandoned?)
  {
    hide RowsOf;
  }

  lemma BeginNetwork(w: Wire, s: State, st: Step)
    requires TablesOk(w, s.panel) && NetworkOk(w, s) && Can(w, s, st) && (st.Begin? || st.Forget?)
    ensures NetworkOk(w, Do(w, s, st))
  {
    var t := Do(w, s, st);
    if st.Begin? { assert RevisionOk(w, s.panel, st.rev); }
    forall c | c in t.calls ensures CallOk(w, t, t.calls[c]) {
      if c in s.calls { assert CallOk(w, s, s.calls[c]); }
    }
    hide TablesOk;
  }

  /** Only call `c` changes, and it had no duty, or keeps it. */
  lemma DutiesKept(s: State, t: State, c: nat)
    requires forall k :: k != c && k in s.calls ==> k in t.calls && t.calls[k] == s.calls[k]
    requires c in s.calls ==> !s.calls[c].phase.Superseding?
    requires c in s.calls && (s.calls[c].phase.Noted? || s.calls[c].phase.Reported? || s.calls[c].phase.Counted?) ==>
               c in t.calls && t.calls[c].rev == s.calls[c].rev
               && (t.calls[c].phase.Noted? || t.calls[c].phase.Reported? || t.calls[c].phase.Counted?)
    ensures KeepsDuties(s, t)
  {
    forall r | Superseder(s, r) ensures Superseder(t, r) {
      var k :| k in s.calls && s.calls[k].phase.Superseding? && s.calls[k].rev == r;
      assert k in t.calls && t.calls[k] == s.calls[k];
    }
    forall r | Reconciler(s, r) ensures Reconciler(t, r) {
      var k :| k in s.calls && s.calls[k].rev == r
        && (s.calls[k].phase.Noted? || s.calls[k].phase.Reported? || s.calls[k].phase.Counted?);
      assert k in t.calls && t.calls[k].rev == r;
    }
  }

  lemma DeliverStep(w: Wire, s: State, st: Step)
    requires Inv(w, s) && Can(w, s, st) && st.Deliver?
    ensures Inv(w, Do(w, s, st))
  {
    var t := Do(w, s, st);
    DeliverNetwork(w, s, st);
    DutiesKept(s, t, st.call);
    assert t == s.(running := t.running, calls := t.calls, ran := t.ran);
    assert forall c :: c in t.calls && t.calls[c].phase.Counted? ==> c in s.calls && s.calls[c] == t.calls[c];
    hide Do, Can, NetworkOk, TablesOk, OneActive, DeployOk, KeepsDuties, AllAcked;
    CallsKeep(w, s, t);
  }

  lemma DeliverNetwork(w: Wire, s: State, st: Step)
    requires NetworkOk(w, s) && Can(w, s, st) && st.Deliver?
    ensures NetworkOk(w, Do(w, s, st))
  {
    var t := Do(w, s, st);
    assert CallOk(w, s, s.calls[st.call]);
    forall c | c in t.calls ensures CallOk(w, t, t.calls[c]) {
      assert CallOk(w, s, s.calls[c]);
    }
  }

  /** A call moved to a later phase, once what that phase promises holds. */
  lemma PhaseKeeps(w: Wire, s: State, c: nat, call: Call, acked: set<(NodeId, RevId)>)
    requires Inv(w, s) && c in s.calls && s.acked <= acked <= s.ran
    requires CallOk(w, s.(acked := acked), call) && call.rev == s.calls[c].rev
    requires !s.calls[c].phase.Superseding? && (call.phase == Counted(Active) ==> AllAcked(s, call.rev))
    requires s.calls[c].phase.Noted? || s.calls[c].phase.Reported? || s.calls[c].phase.Counted? ==>
               call.phase.Noted? || call.phase.Reported? || call.phase.Counted?
    ensures Inv(w, s.(calls := s.calls[c := call], acked := acked))
  {
    var t := s.(calls := s.calls[c := call], acked := acked);
    forall k | k in t.calls ensures CallOk(w, t, t.calls[k]) {
      assert CallOk(w, s, s.calls[k]);
    }
    DutiesKept(s, t, c);
    CallsKeep(w, s, t);
  }

  lemma RemoveKeeps(w: Wire, s: State, c: nat)
    requires Inv(w, s) && KeepsDuties(s, s.(calls := s.calls - {c}))
    ensures Inv(w, s.(calls := s.calls - {c}))
  {
    var t := s.(calls := s.calls - {c});
    forall k | k in t.calls ensures CallOk(w, t, t.calls[k]) {
      assert CallOk(w, s, s.calls[k]);
    }
    CallsKeep(w, s, t);
  }

  lemma NoteStep(w: Wire, s: State, st: Step)
    requires Inv(w, s) && Can(w, s, st) && st.Note?
    ensures Inv(w, Do(w, s, st))
  {
    var call := s.calls[st.call];
    assert CallOk(w, s, call);
    var acked := s.acked + {(call.node, call.rev)};
    PhaseKeeps(w, s, st.call, call.(phase := Noted), acked);
    var mid := s.(calls := s.calls[st.call := call.(phase := Noted)], acked := acked);
    assert Reconciler(mid, call.rev) by { assert mid.calls[st.call].phase.Noted?; }
    RecordKeeps(w, mid, call.node, call.rev, Applied);
  }

  lemma ReportStep(w: Wire, s: State, st: Step)
    requires Inv(w, s) && Can(w, s, st) && st.Report?
    ensures Inv(w, Do(w, s, st))
  {
    var call := s.calls[st.call];
    assert CallOk(w, s, call);
    PhaseKeeps(w, s, st.call, call.(phase := Reported), s.acked);
    var mid := s.(calls := s.calls[st.call := call.(phase := Reported)]);
    NodesKeep(w, mid, NodeReported(s.panel, call.node, Some(call.rev)));
  }

  /** With no verdict to take, some row is not applied. */
  lemma NoVerdict(p: Tables, r: RevId)
    requires RowsOf(p, r) != map[] && Verdict(p, r).None?
    ensures !AllApplied(p, r)
  {
    ActiveMeansAllApplied(p, r);
  }

  lemma CountStep(w: Wire, s: State, st: Step)
    requires Inv(w, s) && Can(w, s, st) && st.Count?
    ensures Inv(w, Do(w, s, st))
  {
    var call := s.calls[st.call];
    var verdict := Verdict(s.panel, call.rev);
    assert CallOk(w, s, call);
    if verdict.Some? {
      ActiveMeansAllApplied(s.panel, call.rev);
      assert verdict.value == Active ==> AllAcked(s, call.rev);
      hide Verdict;
      PhaseKeeps(w, s, st.call, call.(phase := Counted(verdict.value)), s.acked);
    } else {
      NoVerdict(s.panel, call.rev);
      hide Verdict;
      UncountedKeeps(w, s, st.call);
    }
  }

  /** A call that finds no verdict leaves, its revision having a row that is not applied. */
  lemma UncountedKeeps(w: Wire, s: State, c: nat)
    requires Inv(w, s) && c in s.calls && s.calls[c].phase.Reported? && !AllApplied(s.panel, s.calls[c].rev)
    ensures Inv(w, s.(calls := s.calls - {c}))
  {
    var t := s.(calls := s.calls - {c});
    forall k | k in t.calls ensures CallOk(w, t, t.calls[k]) {
      assert CallOk(w, s, s.calls[k]);
    }
    OthersKeepDuties(s, t, c);
    UncountedStates(s, t, c);
    hide NetworkOk, TablesOk, AllApplied, RowsOf, CallOk, AckOk, OneActive, DeployOk;
  }

  lemma UncountedStates(s: State, t: State, c: nat)
    requires AckOk(s) && OneActive(s) && DeployOk(s) && c in s.calls && t == s.(calls := s.calls - {c})
    requires !AllApplied(s.panel, s.calls[c].rev)
    requires forall r :: Superseder(s, r) ==> Superseder(t, r)
    requires forall r :: Reconciler(s, r) && r != s.calls[c].rev ==> Reconciler(t, r)
    ensures AckOk(t) && OneActive(t) && DeployOk(t)
  {
    hide Superseder, Reconciler, RowsOf, AllApplied, IsActive;
    assert forall r :: AllAcked(s, r) <==> AllAcked(t, r);
    assert RowsAcked(s) && RowsAcked(t);
  }

  /** Without call `c`, the duties for other revisions are kept. */
  lemma OthersKeepDuties(s: State, t: State, c: nat)
    requires c in s.calls && t.calls == s.calls - {c}
    ensures forall r :: Superseder(s, r) && (r != s.calls[c].rev || !s.calls[c].phase.Superseding?) ==> Superseder(t, r)
    ensures forall r :: Reconciler(s, r) && r != s.calls[c].rev ==> Reconciler(t, r)
  {
    forall r | Superseder(s, r) && (r != s.calls[c].rev || !s.calls[c].phase.Superseding?) ensures Superseder(t, r) {
      var k :| k in s.calls && s.calls[k].phase.Superseding? && s.calls[k].rev == r;
      assert k in t.calls;
    }
    forall r | Reconciler(s, r) && r != s.calls[c].rev ensures Reconciler(t, r) {
      var k :| k in s.calls && s.calls[k].rev == r
        && (s.calls[k].phase.Noted? || s.calls[k].phase.Reported? || s.calls[k].phase.Counted?);
      assert k in t.calls;
    }
  }

  /** What writing a verdict does to the tables. */
  lemma PromotedTables(w: Wire, p: Tables, rev: RevId, v: RevState, now: nat)
    requires TablesOk(w, p) && rev in p.revisions
    ensures var q := Promoted(p, rev, v, now);
            && TablesOk(w, q) && Keeps(p, q) && q.rows == p.rows && q.artifacts == p.artifacts && q.nodes == p.nodes
            && q.revisions.Keys == p.revisions.Keys && q.revisions[rev].state == v
            && (forall r :: r in p.revisions && r != rev ==> q.revisions[r] == p.revisions[r])
  {
    var q := Promoted(p, rev, v, now);
    assert forall r :: RowsOf(q, r) == RowsOf(p, r) && ArtifactsOf(q, r) == ArtifactsOf(p, r);
    forall r ensures RevisionOk(w, q, r) { assert RevisionOk(w, p, r); }
  }

  lemma PromoteStep(w: Wire, s: State, st: Step)
    requires Inv(w, s) && Can(w, s, st) && st.Promote?
    ensures Inv(w, Do(w, s, st))
  {
    var t := Do(w, s, st);
    var c, call := st.call, s.calls[st.call];
    assert CallOk(w, s, call);
    var q := Promoted(s.panel, call.rev, call.phase.verdict, s.now);
    assert t == s.(panel := q, calls := t.calls, now := s.now + 1);
    hide Do, Can, Promoted, NetworkOk, TablesOk, AckOk, OneActive, DeployOk, RowsOf;
    PromotedTables(w, s.panel, call.rev, call.phase.verdict, s.now);
    NetworkKept(w, s, q);
    FinishedNetwork(w, s.(panel := q), t, c);
    PromotedStates(s, t, c);
  }

  /** Calls that stay, and one that may have moved on to superseding. */
  lemma FinishedNetwork(w: Wire, s: State, t: State, c: nat)
    requires NetworkOk(w, s) && c in s.calls && t == s.(calls := t.calls, now := t.now)
    requires t.calls == s.calls - {c} || t.calls == s.calls[c := s.calls[c].(phase := Superseding)]
    ensures NetworkOk(w, t)
  {
    forall k | k in t.calls ensures CallOk(w, t, t.calls[k]) {
      assert CallOk(w, s, s.calls[k]);
    }
  }

  lemma PromotedStates(s: State, t: State, c: nat)
    requires AckOk(s) && OneActive(s) && DeployOk(s)
    requires c in s.calls && s.calls[c].phase.Counted? && s.calls[c].phase.verdict != Deploying
    requires t.calls == if s.calls[c].phase.verdict == Active
                        then s.calls[c := s.calls[c].(phase := Superseding)] else s.calls - {c}
    requires t.panel.rows == s.panel.rows && s.acked == t.acked
    requires t.panel.revisions.Keys == s.panel.revisions.Keys && s.calls[c].rev in s.panel.revisions
    requires t.panel.revisions[s.calls[c].rev].state == s.calls[c].phase.verdict
    requires forall r :: r in s.panel.revisions && r != s.calls[c].rev ==> t.panel.revisions[r] == s.panel.revisions[r]
    ensures AckOk(t) && OneActive(t) && DeployOk(t)
  {
    PromotedDuties(s, t, c);
    assert forall r :: RowsOf(t.panel, r) == RowsOf(s.panel, r);
    hide Superseder, Reconciler, RowsOf;
    assert forall r :: AllAcked(s, r) <==> AllAcked(t, r);
    assert forall r :: AllApplied(s.panel, r) <==> AllApplied(t.panel, r);
    assert RowsAcked(s) && RowsAcked(t);
    hide AllAcked, AllApplied, RowsAcked;
    assert DeployOk(t);
    assert forall k :: k in t.calls && t.calls[k].phase == Counted(Active) ==> k in s.calls && s.calls[k] == t.calls[k];
    Carried(s, t);
  }

  lemma PromotedDuties(s: State, t: State, c: nat)
    requires c in s.calls && s.calls[c].phase.Counted?
    requires t.calls == if s.calls[c].phase.verdict == Active
                        then s.calls[c := s.calls[c].(phase := Superseding)] else s.calls - {c}
    ensures forall r :: Superseder(s, r) ==> Superseder(t, r)
    ensures forall r :: Reconciler(s, r) && r != s.calls[c].rev ==> Reconciler(t, r)
    ensures s.calls[c].phase.verdict == Active ==> Superseder(t, s.calls[c].rev)
  {
    var rest := s.(calls := s.calls - {c});
    OthersKeepDuties(s, rest, c);
    forall r | Superseder(rest, r) ensures Superseder(t, r) {
      var k :| k in rest.calls && rest.calls[k].phase.Superseding? && rest.calls[k].rev == r;
      assert k in t.calls && t.calls[k] == rest.calls[k];
    }
    forall r | Reconciler(rest, r) ensures Reconciler(t, r) {
      var k :| k in rest.calls && rest.calls[k].rev == r
        && (rest.calls[k].phase.Noted? || rest.calls[k].phase.Reported? || rest.calls[k].phase.Counted?);
      assert k in t.calls && t.calls[k] == rest.calls[k];
    }
    if s.calls[c].phase.verdict == Active {
      assert c in t.calls && t.calls[c].phase.Superseding? && t.calls[c].rev == s.calls[c].rev;
    }
  }

  lemma SupersededTables(w: Wire, p: Tables, rev: RevId)
    requires TablesOk(w, p)
    ensures var q := OthersSuperseded(p, rev);
            && TablesOk(w, q) && Keeps(p, q) && q.rows == p.rows && q.artifacts == p.artifacts && q.nodes == p.nodes
            && q.revisions.Keys == p.revisions.Keys
            && (forall r :: IsActive(q, r) <==> IsActive(p, r) && r == rev)
            && (forall r :: r in p.revisions && p.revisions[r].state != Active ==> q.revisions[r] == p.revisions[r])
            && (forall r :: r in p.revisions ==> q.revisions[r].state in {p.revisions[r].state, Superseded})
  {
    var q := OthersSuperseded(p, rev);
    assert forall r :: RowsOf(q, r) == RowsOf(p, r) && ArtifactsOf(q, r) == ArtifactsOf(p, r);
    forall r ensures RevisionOk(w, q, r) { assert RevisionOk(w, p, r); }
  }

  lemma SupersedeStep(w: Wire, s: State, st: Step)
    requires Inv(w, s) && Can(w, s, st) && st.Supersede?
    ensures Inv(w, Do(w, s, st))
  {
    var t := Do(w, s, st);
    var c, rev := st.call, s.calls[st.call].rev;
    var q := OthersSuperseded(s.panel, rev);
    SupersededTables(w, s.panel, rev);
    assert t == s.(panel := q, calls := s.calls - {c});
    hide Do, Can, OthersSuperseded, NetworkOk, TablesOk, DeployOk, AckOk, OneActive, RowsOf;
    NetworkKept(w, s, q);
    FinishedNetwork(w, s.(panel := q), t, c);
    var mid := s.(panel := q);
    StatesCarried(s, mid);
    SupersededStates(mid, t, c);
  }

  /** With only its own revision active, the call may go. */
  lemma SupersededStates(s: State, t: State, c: nat)
    requires AckOk(s) && DeployOk(s) && c in s.calls && s.calls[c].phase.Superseding?
    requires t == s.(calls := s.calls - {c})
    requires forall r :: IsActive(s.panel, r) ==> r == s.calls[c].rev
    ensures AckOk(t) && OneActive(t) && DeployOk(t)
  {
    ReconcilersStay(s, t, c);
    hide Superseder, Reconciler, RowsOf, IsActive;
    assert forall r :: AllAcked(s, r) <==> AllAcked(t, r);
    hide AllAcked, AllApplied;
  }

  lemma ReconcilersStay(s: State, t: State, c: nat)
    requires c in s.calls && s.calls[c].phase.Superseding? && t.calls == s.calls - {c}
    ensures forall r :: Reconciler(s, r) ==> Reconciler(t, r)
  {
    forall r | Reconciler(s, r) ensures Reconciler(t, r) {
      var k :| k in s.calls && s.calls[k].rev == r
        && (s.calls[k].phase.Noted? || s.calls[k].phase.Reported? || s.calls[k].phase.Counted?);
      assert k in t.calls;
    }
  }

  lemma GiveUpStep(w: Wire, s: State, st: Step)
    requires Inv(w, s) && Can(w, s, st) && st.GiveUp?
    ensures Inv(w, Do(w, s, st))
  {
    var call := s.calls[st.call];
    assert CallOk(w, s, call);
    var mid := s.(panel := Recorded(s.panel, call.node, call.rev, Failed));
    RecordKeeps(w, s, call.node, call.rev, Failed);
    assert CallOk(w, mid, mid.calls[st.call]);
    assert Do(w, s, st) == mid.(calls := if call.phase.Sent? then s.calls[st.call := call.(phase := Abandoned)]
                                         else s.calls - {st.call});
    assert s.acked <= s.ran;
    hide Inv, Do, Can, Recorded, IsStored, RowsOf;
    if call.phase.Sent? {
      PhaseKeeps(w, mid, st.call, call.(phase := Abandoned), s.acked);
    } else {
      DutiesKept(mid, mid.(calls := mid.calls - {st.call}), st.call);
      RemoveKeeps(w, mid, st.call);
    }
  }

  lemma StepKeepsInv(w: Wire, s: State, st: Step)
    requires Inv(w, s) && Can(w, s, st)
    ensures Inv(w, Do(w, s, st))
  {
    match st {
      case NewRevision(_, _) => NewRevisionStep(w, s, st);
      case AddNode(_, _) => NodesKeep(w, s, Do(w, s, st).panel);
      case Start(rev) => RollOutKeeps(w, s, rev);
      case RollBack(_, prev) => RollOutKeeps(w, s, prev);
      case MarkRolledBack(id) => MarkKeeps(w, s, id);
      case Begin(_, _, _) => BeginStep(w, s, st);
      case NoTarget(rev, node) => RecordKeeps(w, s, node, rev, Failed);
      case Deliver(_) => DeliverStep(w, s, st);
      case Note(_) => NoteStep(w, s, st);
      case Report(_) => ReportStep(w, s, st);
      case Count(_) => CountStep(w, s, st);
      case Promote(_) => PromoteStep(w, s, st);
      case Supersede(_) => SupersedeStep(w, s, st);
      case GiveUp(_) => GiveUpStep(w, s, st);
      case Forget(_) => BeginStep(w, s, st);
      case Poll(node) => NodesKeep(w, s, Do(w, s, st).panel);
    }
  }

  // ----- whole runs -----

  ghost predicate Runs(w: Wire, s: State, steps: seq<Step>)
    decreases |steps|
  {
    steps == [] || (Can(w, s, steps[0]) && Runs(w, Do(w, s, steps[0]), steps[1..]))
  }

  ghost function End(w: Wire, s: State, steps: seq<Step>): State
    requires Runs(w, s, steps)
    decreases |steps|
  {
    if steps == [] then s else End(w, Do(w, s, steps[0]), steps[1..])
  }

  lemma {:induction false} RunKeepsInv(w: Wire, s: State, steps: seq<Step>)
    requires Inv(w, s) && Runs(w, s, steps)
    ensures Inv(w, End(w, s, steps))
    decreases |steps|
  {
    if steps != [] {
      StepKeepsInv(w, s, steps[0]);
      RunKeepsInv(w, Do(w, s, steps[0]), steps[1..]);
    }
  }

  lemma InitInv(w: Wire)
    ensures Inv(w, Init())
  {
    forall r ensures RevisionOk(w, Init().panel, r) { }
  }

  /**
   * In every run, whatever is under way at the same time: a node only runs an artifact
   * stored for that node; every node of an active revision has applied and acknowledged it;
   * and while no call is between promoting and superseding, at most one revision is active.
   */
  lemma RolloutSafety(w: Wire, steps: seq<Step>)
    requires Runs(w, Init(), steps)
    ensures var s := End(w, Init(), steps);
            && (forall n :: n in s.running ==> IsStored(w, s.panel, n, s.running[n]))
            && (forall r :: IsActive(s.panel, r) ==>
                  RowsOf(s.panel, r) != map[]
                  && forall n :: n in RowsOf(s.panel, r) ==> (n, r) in s.acked && (n, r) in s.ran)
            && ((forall c :: c in s.calls ==> !s.calls[c].phase.Superseding?) ==>
                  forall q, r :: IsActive(s.panel, q) && IsActive(s.panel, r) ==> q == r)
  {
    InitInv(w);
    RunKeepsInv(w, Init(), steps);
    InvMeans(w, End(w, Init(), steps));
    hide Inv, Runs, End, RowsOf;
  }

  lemma InvMeans(w: Wire, s: State)
    requires Inv(w, s)
    ensures forall n :: n in s.running ==> IsStored(w, s.panel, n, s.running[n])
    ensures forall r :: IsActive(s.panel, r) ==>
              RowsOf(s.panel, r) != map[]
              && forall n :: n in RowsOf(s.panel, r) ==> (n, r) in s.acked && (n, r) in s.ran
    ensures (forall c :: c in s.calls ==> !s.calls[c].phase.Superseding?) ==>
              forall q, r :: IsActive(s.panel, q) && IsActive(s.panel, r) ==> q == r
  {
    hide TablesOk, DeployOk, RowsOf;
    assert AckOk(s) && OneActive(s) && s.acked <= s.ran;
  }
}
