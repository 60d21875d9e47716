/** Which revision is active after any interleaving of promotions and supersedings. */
module Reconciling {
  import opened Collections
  import opened Panel
  import opened Rollout

  // ----- positions of a run -----

  /** The state before step `i` of a run. */
  ghost function At(w: Wire, s: State, steps: seq<Step>, i: nat): State
    requires Runs(w, s, steps) && i <= |steps|
    decreases i
  {
    if i == 0 then s else At(w, Do(w, s, steps[0]), steps[1..], i - 1)
  }

  lemma {:induction false} AtStep(w: Wire, s: State, steps: seq<Step>, i: nat)
    requires Runs(w, s, steps) && i < |steps|
    ensures Can(w, At(w, s, steps, i), steps[i])
    ensures At(w, s, steps, i + 1) == Do(w, At(w, s, steps, i), steps[i])
    decreases i
  {
    hide Can, Do;
    if i > 0 {
      AtStep(w, Do(w, s, steps[0]), steps[1..], i - 1);
    }
  }

  lemma {:induction false} AtEnd(w: Wire, s: State, steps: seq<Step>)
    requires Runs(w, s, steps)
    ensures At(w, s, steps, |steps|) == End(w, s, steps)
    decreases |steps|
  {
    hide Can, Do;
    if steps != [] {
      AtEnd(w, Do(w, s, steps[0]), steps[1..]);
    }
  }

  lemma {:induction false} AtInv(w: Wire, s: State, steps: seq<Step>, i: nat)
    requires Inv(w, s) && Runs(w, s, steps) && i <= |steps|
    ensures Inv(w, At(w, s, steps, i))
    decreases i
  {
    hide Can, Do, Inv;
    if i > 0 {
      StepKeepsInv(w, s, steps[0]);
      AtInv(w, Do(w, s, steps[0]), steps[1..], i - 1);
    }
  }

  // ----- what activates and what retires -----

  /** The step writes the verdict active for the revision. */
  predicate Promotes(s: State, st: Step, r: RevId) {
    st.Promote? && st.call in s.calls && s.calls[st.call].rev == r && s.calls[st.call].phase == Counted(Active)
  }

  /** The step writes another state over an active revision: another's superseding, a new rollout, a rollback, another verdict. */
  predicate Retires(s: State, st: Step, r: RevId) {
    match st
    case Supersede(c) => c in s.calls && s.calls[c].rev != r
    case Promote(c) => c in s.calls && s.calls[c].rev == r && s.calls[c].phase != Counted(Active)
    case Start(rev) => rev == r
    case RollBack(_, prev) => prev == r
    case MarkRolledBack(id) => id == r
    case _ => false
  }

  lemma PromoteActive(w: Wire, s: State, c: nat, r: RevId)
    requires Inv(w, s) && Can(w, s, Promote(c))
    ensures IsActive(Do(w, s, Promote(c)).panel, r) <==>
            Promotes(s, Promote(c), r) || (IsActive(s.panel, r) && !Retires(s, Promote(c), r))
  {
    assert CallOk(w, s, s.calls[c]);
    assert s.calls[c].rev in s.panel.rows && s.panel.rows.Keys <= s.panel.revisions.Keys;
    hide Inv, Verdict, CallOk;
  }

  lemma StepActive(w: Wire, s: State, st: Step, r: RevId)
    requires Inv(w, s) && Can(w, s, st)
    ensures IsActive(Do(w, s, st).panel, r) <==> Promotes(s, st, r) || (IsActive(s.panel, r) && !Retires(s, st, r))
  {
    if st.Promote? {
      PromoteActive(w, s, st.call, r);
    } else if st.Start? || st.RollBack? || st.MarkRolledBack? {
      RollOutActive(w, s, st, r);
    } else if st.Supersede? {
      hide Inv, Can;
    } else {
      OthersKeepStates(w, s, st, r);
      hide Inv, Can, Do;
    }
  }

  lemma RollOutActive(w: Wire, s: State, st: Step, r: RevId)
    requires Can(w, s, st) && (st.Start? || st.RollBack? || st.MarkRolledBack?)
    ensures IsActive(Do(w, s, st).panel, r) <==> IsActive(s.panel, r) && !Retires(s, st, r)
  {
    hide Verdict, RowsOf, ArtifactsOf, Marked, RollbackTarget;
  }

  lemma OthersKeepStates(w: Wire, s: State, st: Step, r: RevId)
    requires Can(w, s, st) && !st.Promote? && !st.Supersede? && !st.Start? && !st.RollBack? && !st.MarkRolledBack?
    ensures IsActive(Do(w, s, st).panel, r) <==> IsActive(s.panel, r)
  {
    hide Verdict, RowsOf, ArtifactsOf, AppliedRev;
  }

  /** Step `i` activates the revision and no later one before `n` retires it. */
  ghost predicate ActiveSince(w: Wire, s: State, steps: seq<Step>, i: nat, n: nat, r: RevId)
    requires Runs(w, s, steps) && i < n <= |steps|
  {
    && Promotes(At(w, s, steps, i), steps[i], r)
    && forall j :: i < j < n ==> !Retires(At(w, s, steps, j), steps[j], r)
  }

  ghost predicate ActiveFromStart(w: Wire, s: State, steps: seq<Step>, n: nat, r: RevId)
    requires Runs(w, s, steps) && n <= |steps|
  {
    IsActive(s.panel, r) && forall j :: 0 <= j < n ==> !Retires(At(w, s, steps, j), steps[j], r)
  }

  /**
   * For every run, the revisions active at its end are exactly those promoted, or active at
   * the start, that nothing has retired since.
   */
  lemma {:induction false} ActiveIff(w: Wire, s: State, steps: seq<Step>, n: nat, r: RevId)
    requires Inv(w, s) && Runs(w, s, steps) && n <= |steps|
    ensures IsActive(At(w, s, steps, n).panel, r) <==>
            ActiveFromStart(w, s, steps, n, r) || exists i: nat :: i < n && ActiveSince(w, s, steps, i, n, r)
    decreases n
  {
    hide Inv, Runs, Can, Do, IsActive, Promotes, Retires;
    if n > 0 {
      var m := n - 1;
      ActiveIff(w, s, steps, m, r);
      AtStep(w, s, steps, m);
      AtInv(w, s, steps, m);
      var before, st := At(w, s, steps, m), steps[m];
      StepActive(w, before, st, r);
      hide At;
      if Promotes(before, st, r) {
        assert ActiveSince(w, s, steps, m, n, r);
      }
      if i: nat :| i < m && ActiveSince(w, s, steps, i, m, r) {
        assert !Retires(before, st, r) ==> ActiveSince(w, s, steps, i, n, r);
      }
      if i: nat :| i < n && ActiveSince(w, s, steps, i, n, r) {
        assert i < m ==> ActiveSince(w, s, steps, i, m, r);
      }
    }
  }

  // ----- losing the active revision -----

  /** A call that has promoted stays until it supersedes. */
  lemma {:induction false} SupersederStays(w: Wire, s: State, steps: seq<Step>, i: nat, n: nat, c: nat)
    requires Runs(w, s, steps) && i <= n <= |steps|
    requires var t := At(w, s, steps, i); c in t.calls && t.calls[c].phase.Superseding?
    requires forall j :: i <= j < n ==> steps[j] != Supersede(c)
    ensures var t, u := At(w, s, steps, i), At(w, s, steps, n); c in u.calls && u.calls[c] == t.calls[c]
    decreases n - i
  {
    if i < n {
      AtStep(w, s, steps, i);
      OnlySupersedeEnds(w, At(w, s, steps, i), steps[i], c);
      hide Runs, Can, Do, At;
      SupersederStays(w, s, steps, i + 1, n, c);
    }
  }

  lemma OnlySupersedeEnds(w: Wire, s: State, st: Step, c: nat)
    requires Can(w, s, st) && c in s.calls && s.calls[c].phase.Superseding? && st != Supersede(c)
    ensures c in Do(w, s, st).calls && Do(w, s, st).calls[c] == s.calls[c]
  {
    hide Verdict;
  }

  /** `last` is the last promotion of the run, of revision `r`. */
  ghost predicate LastPromotion(w: Wire, s: State, steps: seq<Step>, last: nat, r: RevId)
    requires Runs(w, s, steps)
  {
    && last < |steps| && Promotes(At(w, s, steps, last), steps[last], r)
    && forall j, q :: last < j < |steps| ==> !Promotes(At(w, s, steps, j), steps[j], q)
  }

  ghost predicate RetiredAfter(w: Wire, s: State, steps: seq<Step>, last: nat, r: RevId)
    requires Runs(w, s, steps)
  {
    exists j :: last < j < |steps| && Retires(At(w, s, steps, j), steps[j], r)
  }

  /** A revision retired after the last promotion is not active at the end. */
  lemma RetiredIsInactive(w: Wire, s: State, steps: seq<Step>, last: nat, r: RevId, q: RevId)
    requires Inv(w, s) && Runs(w, s, steps) && LastPromotion(w, s, steps, last, r)
    requires RetiredAfter(w, s, steps, last, q)
    ensures !IsActive(End(w, s, steps).panel, q)
  {
    var n := |steps|;
    ActiveIff(w, s, steps, n, q);
    AtEnd(w, s, steps);
    hide Inv, Runs, Can, Do, At, IsActive, Promotes, Retires;
    var j :| last < j < n && Retires(At(w, s, steps, j), steps[j], q);
    assert !ActiveFromStart(w, s, steps, n, q);
    forall i: nat | i < n ensures !ActiveSince(w, s, steps, i, n, q) {
      assert i > last ==> !Promotes(At(w, s, steps, i), steps[i], q);
    }
  }

  /** Every revision but the last promoted is retired after it, by the superseding that follows the promotion. */
  lemma OthersAreRetired(w: Wire, s: State, steps: seq<Step>, last: nat, r: RevId, q: RevId)
    requires Runs(w, s, steps) && LastPromotion(w, s, steps, last, r) && q != r
    requires forall c :: c in End(w, s, steps).calls ==> !End(w, s, steps).calls[c].phase.Superseding?
    ensures RetiredAfter(w, s, steps, last, q)
  {
    var n := |steps|;
    var c := steps[last].call;
    AtStep(w, s, steps, last);
    AtEnd(w, s, steps);
    PromotionSupersedes(w, At(w, s, steps, last), c);
    hide Runs, Can, Do, At, IsActive, LastPromotion;
    if forall j :: last + 1 <= j < n ==> steps[j] != Supersede(c) {
      SupersederStays(w, s, steps, last + 1, n, c);
    }
    var j := FirstSupersede(steps, last + 1, c);
    SupersederStays(w, s, steps, last + 1, j, c);
    assert Retires(At(w, s, steps, j), steps[j], q);
  }

  lemma PromotionSupersedes(w: Wire, s: State, c: nat)
    requires Can(w, s, Promote(c)) && s.calls[c].phase == Counted(Active)
    ensures c in Do(w, s, Promote(c)).calls && Do(w, s, Promote(c)).calls[c] == s.calls[c].(phase := Superseding)
  {
    hide Promoted;
  }

  lemma {:induction false} FirstSupersede(steps: seq<Step>, from: nat, c: nat) returns (j: nat)
    requires exists k :: from <= k < |steps| && steps[k] == Supersede(c)
    ensures from <= j < |steps| && steps[j] == Supersede(c)
    ensures forall k :: from <= k < j ==> steps[k] != Supersede(c)
    decreases |steps| - from
  {
    if steps[from] == Supersede(c) {
      j := from;
    } else {
      j := FirstSupersede(steps, from + 1, c);
    }
  }

  /**
   * Exactly when reconciling loses the active revision: in every run that ends with no call
   * left to supersede, none is active if and only if the revision promoted last is retired
   * after that, which between reconciling calls means superseded by one that promoted earlier.
   */
  lemma NoneActiveIff(w: Wire, s: State, steps: seq<Step>, last: nat, r: RevId)
    requires Inv(w, s) && Runs(w, s, steps) && LastPromotion(w, s, steps, last, r)
    requires forall c :: c in End(w, s, steps).calls ==> !End(w, s, steps).calls[c].phase.Superseding?
    ensures (forall q :: !IsActive(End(w, s, steps).panel, q)) <==> RetiredAfter(w, s, steps, last, r)
  {
    var n := |steps|;
    ActiveIff(w, s, steps, n, r);
    AtEnd(w, s, steps);
    hide Inv, Runs, Can, Do, At, IsActive, Promotes, Retires;
    if RetiredAfter(w, s, steps, last, r) {
      forall q ensures !IsActive(End(w, s, steps).panel, q) {
        if q != r { OthersAreRetired(w, s, steps, last, r, q); }
        RetiredIsInactive(w, s, steps, last, r, q);
      }
    } else {
      assert ActiveSince(w, s, steps, last, n, r);
    }
  }

  // ----- a run that loses it -----

  lemma {:induction false} RunsJoin(w: Wire, s: State, a: seq<Step>, b: seq<Step>)
    requires Runs(w, s, a) && Runs(w, End(w, s, a), b)
    ensures Runs(w, s, a + b) && End(w, s, a + b) == End(w, End(w, s, a), b)
    decreases |a|
  {
    hide Can, Do;
    if a == [] {
      assert a + b == b;
    } else {
      RunsJoin(w, Do(w, s, a[0]), a[1..], b);
      assert (a + b)[1..] == a[1..] + b;
    }
  }

  lemma OneStep(w: Wire, s: State, st: Step)
    requires Can(w, s, st)
    ensures Runs(w, s, [st]) && End(w, s, [st]) == Do(w, s, st)
  {
    hide Can, Do;
    assert [st][1..] == [];
  }

  /** `t` comes after `s` by some run. */
  ghost predicate Leads(w: Wire, s: State, t: State) {
    exists steps :: Runs(w, s, steps) && End(w, s, steps) == t
  }

  lemma LeadsSelf(w: Wire, s: State)
    ensures Leads(w, s, s)
  {
    assert Runs(w, s, []) && End(w, s, []) == s;
  }

  lemma LeadsStep(w: Wire, s: State, t: State, st: Step)
    requires Leads(w, s, t) && Can(w, t, st)
    ensures Leads(w, s, Do(w, t, st))
  {
    hide Can, Do;
    var steps :| Runs(w, s, steps) && End(w, s, steps) == t;
    OneStep(w, t, st);
    RunsJoin(w, s, steps, [st]);
  }

  /** One revision and the one node it is for. */
  datatype Solo = Solo(node: NodeId, rev: RevId, content: Content)

  /** Two revisions for one node each, with the given states, rows and applied revisions. */
  function TwoRevisions(a: Solo, b: Solo, sa: Revision, sb: Revision, row: DeployState, applied: bool): Tables {
    Tables(map[a.rev := sa, b.rev := sb],
           map[a.rev := map[a.node := a.content], b.rev := map[b.node := b.content]],
           map[a.node := NodeRow(Some(a.rev), if applied then Some(a.rev) else None, true),
               b.node := NodeRow(Some(b.rev), if applied then Some(b.rev) else None, true)],
           map[a.rev := map[a.node := row], b.rev := map[b.node := row]])
  }

  function BothCalls(a: Solo, b: Solo, phase: Solo -> Phase): map<nat, Call> {
    map[0 := Call(a.node, a.rev, a.content, phase(a)), 1 := Call(b.node, b.rev, b.content, phase(b))]
  }

  ghost predicate Apart(w: Wire, a: Solo, b: Solo) {
    && a.node != b.node && a.rev != b.rev
    && w.revOf(a.content) == a.rev && w.revOf(b.content) == b.rev
    && w.accepts(a.node, a.content) && w.accepts(b.node, b.content)
  }

  const COMPILED := Revision(Compiled, None)
  const DEPLOYING := Revision(Deploying, None)

  lemma TwoStored(w: Wire, a: Solo, b: Solo)
    requires Apart(w, a, b)
    ensures Leads(w, Init(), State(Tables(
              map[a.rev := COMPILED, b.rev := COMPILED],
              map[a.rev := map[a.node := a.content], b.rev := map[b.node := b.content]],
              map[a.node := NodeRow(None, None, true), b.node := NodeRow(None, None, true)], map[]), map[], map[], 0, {}, {}))
  {
    hide Leads, Runs, End;
    var blank := NodeRow(None, None, true);
    var s1 := State(Tables(map[], map[], map[a.node := blank], map[]), map[], map[], 0, {}, {});
    var s2 := s1.(panel := s1.panel.(nodes := map[a.node := blank, b.node := blank]));
    var artsA, artsB := map[a.node := a.content], map[b.node := b.content];
    var s3 := s2.(panel := s2.panel.(revisions := map[a.rev := COMPILED], artifacts := map[a.rev := artsA]));
    LeadsSelf(w, Init());
    assert Do(w, Init(), AddNode(a.node, true)) == s1;
    LeadsStep(w, Init(), Init(), AddNode(a.node, true));
    assert Do(w, s1, AddNode(b.node, true)) == s2;
    LeadsStep(w, Init(), s1, AddNode(b.node, true));
    assert Do(w, s2, NewRevision(a.rev, artsA)) == s3;
    LeadsStep(w, Init(), s2, NewRevision(a.rev, artsA));
    LeadsStep(w, Init(), s3, NewRevision(b.rev, artsB));
  }

  lemma FirstRollOut(p: Tables, n: NodeId, rev: RevId, c: Content)
    requires rev in p.revisions && p.revisions[rev].state == Compiled && n in p.nodes
    requires ArtifactsOf(p, rev) == map[n := c] && rev !in p.rows
    ensures CanRollOut(p, rev)
    ensures RolledOut(p, rev) ==
            p.(rows := p.rows[rev := map[n := Pending]],
               nodes := p.nodes[n := p.nodes[n].(desired := Some(rev))],
               revisions := p.revisions[rev := p.revisions[rev].(state := Deploying)])
  {
    assert n in ArtifactsOf(p, rev);
    assert Marked(RowsOf(p, rev), {n}) == map[n := Pending];
    assert ArtifactsOf(p, rev).Keys == {n};
  }

  lemma BothDeploying(w: Wire, a: Solo, b: Solo)
    requires Apart(w, a, b)
    ensures Leads(w, Init(), State(TwoRevisions(a, b, DEPLOYING, DEPLOYING, Pending, false), map[], map[], 0, {}, {}))
  {
    hide Leads;
    TwoStored(w, a, b);
    var blank := NodeRow(None, None, true);
    var p := Tables(map[a.rev := COMPILED, b.rev := COMPILED],
                    map[a.rev := map[a.node := a.content], b.rev := map[b.node := b.content]],
                    map[a.node := blank, b.node := blank], map[]);
    var s := State(p, map[], map[], 0, {}, {});
    FirstRollOut(p, a.node, a.rev, a.content);
    LeadsStep(w, Init(), s, Start(a.rev));
    var q := RolledOut(p, a.rev);
    assert ArtifactsOf(q, b.rev) == map[b.node := b.content];
    FirstRollOut(q, b.node, b.rev, b.content);
    LeadsStep(w, Init(), s.(panel := q), Start(b.rev));
    var t := TwoRevisions(a, b, DEPLOYING, DEPLOYING, Pending, false);
    assert RolledOut(q, b.rev).nodes == t.nodes && RolledOut(q, b.rev).rows == t.rows;
    assert RolledOut(q, b.rev).revisions == t.revisions;
  }

  lemma BothAnswered(w: Wire, a: Solo, b: Solo, s: State)
    requires Apart(w, a, b)
    requires s == State(TwoRevisions(a, b, DEPLOYING, DEPLOYING, Pending, false), map[], map[], 0, {}, {})
    ensures Leads(w, s, State(s.panel, map[a.node := a.content, b.node := b.content],
                              BothCalls(a, b, (x: Solo) => Answered(x.rev)), 0, {(a.node, a.rev), (b.node, b.rev)}, {}))
  {
    hide Leads, Runs, End;
    var p := s.panel;
    var ca, cb := Call(a.node, a.rev, a.content, Sent), Call(b.node, b.rev, b.content, Sent);
    RowOf(a, b, DEPLOYING, DEPLOYING, Pending, false);
    assert ArtifactsOf(p, a.rev) == map[a.node := a.content] && ArtifactsOf(p, b.rev) == map[b.node := b.content];
    hide TwoRevisions, RowsOf, ArtifactsOf;
    var s1 := s.(calls := map[0 := ca]);
    var s2 := s.(calls := map[0 := ca, 1 := cb]);
    LeadsSelf(w, s);
    assert Do(w, s, Begin(0, a.rev, a.node)) == s1;
    LeadsStep(w, s, s, Begin(0, a.rev, a.node));
    assert Do(w, s1, Begin(1, b.rev, b.node)) == s2;
    LeadsStep(w, s, s1, Begin(1, b.rev, b.node));
    BothDelivered(w, a, b, s2);
    LeadsOn(w, s, s2, State(p, map[a.node := a.content, b.node := b.content],
                            BothCalls(a, b, (x: Solo) => Answered(x.rev)), 0, {(a.node, a.rev), (b.node, b.rev)}, {}));
  }

  lemma BothDelivered(w: Wire, a: Solo, b: Solo, s: State)
    requires Apart(w, a, b) && s.running == map[] && s.now == 0 && s.ran == {} && s.acked == {}
    requires s.calls == map[0 := Call(a.node, a.rev, a.content, Sent), 1 := Call(b.node, b.rev, b.content, Sent)]
    ensures Leads(w, s, State(s.panel, map[a.node := a.content, b.node := b.content],
                              BothCalls(a, b, (x: Solo) => Answered(x.rev)), 0, {(a.node, a.rev), (b.node, b.rev)}, {}))
  {
    hide Leads, Runs, End;
    var s1 := State(s.panel, map[a.node := a.content],
                    map[0 := Call(a.node, a.rev, a.content, Answered(a.rev)), 1 := s.calls[1]], 0, {(a.node, a.rev)}, {});
    LeadsSelf(w, s);
    assert Do(w, s, Deliver(0)) == s1;
    LeadsStep(w, s, s, Deliver(0));
    LeadsStep(w, s, s1, Deliver(1));
    var t := Do(w, s1, Deliver(1));
    assert t.calls == BothCalls(a, b, (x: Solo) => Answered(x.rev));
    assert t.running == map[a.node := a.content, b.node := b.content];
    assert t.ran == {(a.node, a.rev), (b.node, b.rev)} && t.acked == {};
  }

  lemma RowOf(a: Solo, b: Solo, sa: Revision, sb: Revision, row: DeployState, applied: bool)
    requires a.node != b.node && a.rev != b.rev
    ensures var p := TwoRevisions(a, b, sa, sb, row, applied);
            RowsOf(p, a.rev) == map[a.node := row] && RowsOf(p, b.rev) == map[b.node := row]
  {
  }

  // ----- a call's last steps -----

  lemma NoteLeads(w: Wire, o: State, s: State, c: nat)
    requires Leads(w, o, s) && c in s.calls && s.calls[c].phase.Answered?
    ensures var call := s.calls[c];
            Leads(w, o, s.(panel := Recorded(s.panel, call.node, call.rev, Applied),
                           calls := s.calls[c := call.(phase := Noted)], acked := s.acked + {(call.node, call.rev)}))
  {
    hide Leads, Recorded;
    LeadsStep(w, o, s, Note(c));
  }

  lemma ReportLeads(w: Wire, o: State, s: State, c: nat)
    requires Leads(w, o, s) && c in s.calls && s.calls[c].phase.Noted?
    ensures var call := s.calls[c];
            Leads(w, o, s.(panel := NodeReported(s.panel, call.node, Some(call.rev)), calls := s.calls[c := call.(phase := Reported)]))
  {
    hide Leads, NodeReported;
    LeadsStep(w, o, s, Report(c));
  }

  lemma CountLeads(w: Wire, o: State, s: State, c: nat, v: RevState)
    requires Leads(w, o, s) && c in s.calls && s.calls[c].phase.Reported? && Verdict(s.panel, s.calls[c].rev) == Some(v)
    ensures Leads(w, o, s.(calls := s.calls[c := s.calls[c].(phase := Counted(v))]))
  {
    hide Leads, Verdict;
    LeadsStep(w, o, s, Count(c));
  }

  lemma PromoteLeads(w: Wire, o: State, s: State, c: nat)
    requires Leads(w, o, s) && c in s.calls && s.calls[c].phase == Counted(Active)
    ensures var call := s.calls[c];
            Leads(w, o, s.(panel := Promoted(s.panel, call.rev, Active, s.now), now := s.now + 1,
                           calls := s.calls[c := call.(phase := Superseding)]))
  {
    hide Leads, Promoted;
    LeadsStep(w, o, s, Promote(c));
  }

  lemma SupersedeLeads(w: Wire, o: State, s: State, c: nat)
    requires Leads(w, o, s) && c in s.calls && s.calls[c].phase.Superseding?
    ensures Leads(w, o, s.(panel := OthersSuperseded(s.panel, s.calls[c].rev), calls := s.calls - {c}))
  {
    hide Leads, OthersSuperseded;
    LeadsStep(w, o, s, Supersede(c));
  }

  /** Both calls moved on to another phase, the first one first. */
  lemma BothMoved(a: Solo, b: Solo, p: Solo -> Phase, q: Solo -> Phase)
    ensures var calls := BothCalls(a, b, p);
            var first := calls[0 := calls[0].(phase := q(a))];
            first[1] == calls[1] && first[1 := first[1].(phase := q(b))] == BothCalls(a, b, q)
  {
  }

  /** Both answers are noted: every row of both revisions is applied. */
  lemma BothNoted(w: Wire, a: Solo, b: Solo, s: State)
    requires Apart(w, a, b) && s.panel == TwoRevisions(a, b, DEPLOYING, DEPLOYING, Pending, false)
    requires s.calls == BothCalls(a, b, (x: Solo) => Answered(x.rev)) && s.acked == {}
    ensures Leads(w, s, s.(panel := TwoRevisions(a, b, DEPLOYING, DEPLOYING, Applied, false),
                           calls := BothCalls(a, b, _ => Noted), acked := {(a.node, a.rev), (b.node, b.rev)}))
  {
    hide Leads, Runs, End, Do, Can;
    RowOf(a, b, DEPLOYING, DEPLOYING, Pending, false);
    BothRecorded(a, b);
    BothMoved(a, b, (x: Solo) => Answered(x.rev), _ => Noted);
    assert s.acked + {(a.node, a.rev)} + {(b.node, b.rev)} == {(a.node, a.rev), (b.node, b.rev)};
    hide Recorded, TwoRevisions, RowsOf;
    LeadsSelf(w, s);
    NoteLeads(w, s, s, 0);
    var s1 := s.(panel := Recorded(s.panel, a.node, a.rev, Applied), calls := s.calls[0 := s.calls[0].(phase := Noted)],
                 acked := s.acked + {(a.node, a.rev)});
    NoteLeads(w, s, s1, 1);
  }

  lemma UpdateTwo<K, V>(k: K, l: K, v: V, u: V, x: V)
    requires k != l
    ensures map[k := v, l := u][k := x] == map[k := x, l := u]
    ensures map[k := v, l := u][l := x] == map[k := v, l := x]
    ensures map[k := v][k := x] == map[k := x]
  {
  }

  lemma BothRecorded(a: Solo, b: Solo)
    requires a.node != b.node && a.rev != b.rev
    ensures var p := TwoRevisions(a, b, DEPLOYING, DEPLOYING, Pending, false);
            Recorded(Recorded(p, a.node, a.rev, Applied), b.node, b.rev, Applied) ==
            TwoRevisions(a, b, DEPLOYING, DEPLOYING, Applied, false)
  {
    var p := TwoRevisions(a, b, DEPLOYING, DEPLOYING, Pending, false);
    var oldA, newA := map[a.node := Pending], map[a.node := Applied];
    var oldB, newB := map[b.node := Pending], map[b.node := Applied];
    UpdateTwo(a.node, b.node, Pending, Pending, Applied);
    UpdateTwo(b.node, a.node, Pending, Pending, Applied);
    UpdateTwo(a.rev, b.rev, oldA, oldB, newA);
    UpdateTwo(a.rev, b.rev, newA, oldB, newB);
    assert RowsOf(p, a.rev) == oldA;
    var q := Recorded(p, a.node, a.rev, Applied);
    assert q == p.(rows := map[a.rev := newA, b.rev := oldB]);
    assert RowsOf(q, b.rev) == oldB;
    hide Recorded, RowsOf;
    assert Recorded(q, b.node, b.rev, Applied) == q.(rows := map[a.rev := newA, b.rev := newB]) by { RecordedRow(q, b.node, b.rev, Applied); }
  }

  lemma RecordedRow(p: Tables, n: NodeId, r: RevId, d: DeployState)
    ensures Recorded(p, n, r, d) == p.(rows := p.rows[r := RowsOf(p, r)[n := d]])
  {
  }

  lemma BothReported(w: Wire, a: Solo, b: Solo, s: State)
    requires Apart(w, a, b) && s.panel == TwoRevisions(a, b, DEPLOYING, DEPLOYING, Applied, false)
    requires s.calls == BothCalls(a, b, _ => Noted)
    ensures Leads(w, s, s.(panel := TwoRevisions(a, b, DEPLOYING, DEPLOYING, Applied, true),
                           calls := BothCalls(a, b, _ => Reported)))
  {
    hide Leads, Runs, End, Do, Can;
    BothKnown(a, b);
    BothMoved(a, b, _ => Noted, _ => Reported);
    hide NodeReported, TwoRevisions;
    LeadsSelf(w, s);
    ReportLeads(w, s, s, 0);
    ReportLeads(w, s, s.(panel := NodeReported(s.panel, a.node, Some(a.rev)), calls := s.calls[0 := s.calls[0].(phase := Reported)]), 1);
  }

  lemma BothKnown(a: Solo, b: Solo)
    requires a.node != b.node
    ensures NodeReported(NodeReported(TwoRevisions(a, b, DEPLOYING, DEPLOYING, Applied, false), a.node, Some(a.rev)), b.node, Some(b.rev)) ==
            TwoRevisions(a, b, DEPLOYING, DEPLOYING, Applied, true)
  {
    var p := TwoRevisions(a, b, DEPLOYING, DEPLOYING, Applied, false);
    var oldA, newA := NodeRow(Some(a.rev), None, true), NodeRow(Some(a.rev), Some(a.rev), true);
    var oldB, newB := NodeRow(Some(b.rev), None, true), NodeRow(Some(b.rev), Some(b.rev), true);
    UpdateTwo(a.node, b.node, oldA, oldB, newA);
    UpdateTwo(a.node, b.node, newA, oldB, newB);
    assert NodeReported(p, a.node, Some(a.rev)) == p.(nodes := map[a.node := newA, b.node := oldB]);
  }

  lemma OneRowVerdict(p: Tables, n: NodeId, r: RevId)
    requires RowsOf(p, r) == map[n := Applied]
    ensures Verdict(p, r) == Some(Active)
  {
    ActiveMeansAllApplied(p, r);
    assert n in RowsOf(p, r);
  }

  /** Both calls count their rows, and both write the verdict active. */
  lemma BothPromoted(w: Wire, a: Solo, b: Solo, s: State)
    requires Apart(w, a, b) && s.panel == TwoRevisions(a, b, DEPLOYING, DEPLOYING, Applied, true)
    requires s.calls == BothCalls(a, b, _ => Reported) && s.now == 0
    ensures Leads(w, s, s.(
              panel := TwoRevisions(a, b, Revision(Active, Some(0)), Revision(Active, Some(1)), Applied, true),
              calls := BothCalls(a, b, _ => Superseding), now := 2))
  {
    hide Leads, Runs, End, Verdict, Do, Can;
    RowOf(a, b, DEPLOYING, DEPLOYING, Applied, true);
    OneRowVerdict(s.panel, a.node, a.rev);
    OneRowVerdict(s.panel, b.node, b.rev);
    BothMoved(a, b, _ => Reported, _ => Counted(Active));
    hide TwoRevisions, RowsOf;
    LeadsSelf(w, s);
    CountLeads(w, s, s, 0, Active);
    CountLeads(w, s, s.(calls := s.calls[0 := s.calls[0].(phase := Counted(Active))]), 1, Active);
    var s2 := s.(calls := BothCalls(a, b, _ => Counted(Active)));
    BothWritten(w, a, b, s2);
    LeadsOn(w, s, s2, s.(
              panel := TwoRevisions(a, b, Revision(Active, Some(0)), Revision(Active, Some(1)), Applied, true),
              calls := BothCalls(a, b, _ => Superseding), now := 2));
  }

  lemma BothWritten(w: Wire, a: Solo, b: Solo, s: State)
    requires Apart(w, a, b) && s.panel == TwoRevisions(a, b, DEPLOYING, DEPLOYING, Applied, true)
    requires s.calls == BothCalls(a, b, _ => Counted(Active)) && s.now == 0
    ensures Leads(w, s, s.(
              panel := TwoRevisions(a, b, Revision(Active, Some(0)), Revision(Active, Some(1)), Applied, true),
              calls := BothCalls(a, b, _ => Superseding), now := 2))
  {
    hide Leads, Runs, End, Do, Can;
    BothPromotedTables(a, b);
    BothMoved(a, b, _ => Counted(Active), _ => Superseding);
    hide Promoted, TwoRevisions;
    LeadsSelf(w, s);
    PromoteLeads(w, s, s, 0);
    PromoteLeads(w, s, s.(panel := Promoted(s.panel, a.rev, Active, 0), now := 1,
                          calls := s.calls[0 := s.calls[0].(phase := Superseding)]), 1);
  }

  lemma BothPromotedTables(a: Solo, b: Solo)
    requires a.rev != b.rev
    ensures var p := TwoRevisions(a, b, DEPLOYING, DEPLOYING, Applied, true);
            Promoted(Promoted(p, a.rev, Active, 0), b.rev, Active, 1) ==
            TwoRevisions(a, b, Revision(Active, Some(0)), Revision(Active, Some(1)), Applied, true)
  {
    var p := TwoRevisions(a, b, DEPLOYING, DEPLOYING, Applied, true);
    assert Promoted(Promoted(p, a.rev, Active, 0), b.rev, Active, 1).revisions ==
           map[a.rev := Revision(Active, Some(0)), b.rev := Revision(Active, Some(1))];
  }

  lemma BothSuperseded(w: Wire, a: Solo, b: Solo, s: State)
    requires Apart(w, a, b)
    requires s.panel == TwoRevisions(a, b, Revision(Active, Some(0)), Revision(Active, Some(1)), Applied, true)
    requires s.calls == BothCalls(a, b, _ => Superseding)
    ensures Leads(w, s, s.(
              panel := TwoRevisions(a, b, Revision(Superseded, Some(0)), Revision(Superseded, Some(1)), Applied, true),
              calls := map[]))
  {
    hide Leads, Runs, End, Do, Can;
    BothSupersededTables(a, b);
    assert s.calls - {0} - {1} == map[] && 1 in s.calls - {0} && (s.calls - {0})[1] == s.calls[1];
    hide OthersSuperseded, TwoRevisions;
    LeadsSelf(w, s);
    SupersedeLeads(w, s, s, 0);
    SupersedeLeads(w, s, s.(panel := OthersSuperseded(s.panel, a.rev), calls := s.calls - {0}), 1);
  }

  lemma BothSupersededTables(a: Solo, b: Solo)
    requires a.rev != b.rev
    ensures var p := TwoRevisions(a, b, Revision(Active, Some(0)), Revision(Active, Some(1)), Applied, true);
            OthersSuperseded(OthersSuperseded(p, a.rev), b.rev) ==
            TwoRevisions(a, b, Revision(Superseded, Some(0)), Revision(Superseded, Some(1)), Applied, true)
  {
    var p := TwoRevisions(a, b, Revision(Active, Some(0)), Revision(Active, Some(1)), Applied, true);
    assert OthersSuperseded(OthersSuperseded(p, a.rev), b.rev).revisions ==
           map[a.rev := Revision(Superseded, Some(0)), b.rev := Revision(Superseded, Some(1))];
  }

  lemma LeadsOn(w: Wire, s: State, t: State, u: State)
    requires Leads(w, s, t) && Leads(w, t, u)
    ensures Leads(w, s, u)
  {
    hide Can, Do;
    var a :| Runs(w, s, a) && End(w, s, a) == t;
    var b :| Runs(w, t, b) && End(w, t, b) == u;
    RunsJoin(w, s, a, b);
  }

  /**
   * Such runs exist: from the empty panel, two revisions are rolled out, applied and
   * acknowledged by every target, and reconciled side by side; at the end no call is left,
   * every row of both is applied, and neither is active.
   */
  lemma BothLost(w: Wire, a: Solo, b: Solo)
    requires Apart(w, a, b)
    ensures exists t :: Leads(w, Init(), t) && t.calls == map[]
              && t.panel.revisions.Keys == {a.rev, b.rev}
              && RowsOf(t.panel, a.rev) == map[a.node := Applied] && RowsOf(t.panel, b.rev) == map[b.node := Applied]
              && forall r :: !IsActive(t.panel, r)
  {
    hide Leads;
    var s0 := State(TwoRevisions(a, b, DEPLOYING, DEPLOYING, Pending, false), map[], map[], 0, {}, {});
    var both := {(a.node, a.rev), (b.node, b.rev)};
    var running := map[a.node := a.content, b.node := b.content];
    var s1 := State(s0.panel, running, BothCalls(a, b, (x: Solo) => Answered(x.rev)), 0, both, {});
    var s2 := State(TwoRevisions(a, b, DEPLOYING, DEPLOYING, Applied, true), running, BothCalls(a, b, _ => Reported), 0, both, both);
    var p3 := TwoRevisions(a, b, Revision(Active, Some(0)), Revision(Active, Some(1)), Applied, true);
    var s3 := State(p3, running, BothCalls(a, b, _ => Superseding), 2, both, both);
    var p4 := TwoRevisions(a, b, Revision(Superseded, Some(0)), Revision(Superseded, Some(1)), Applied, true);
    var s4 := State(p4, running, map[], 2, both, both);
    RowOf(a, b, Revision(Superseded, Some(0)), Revision(Superseded, Some(1)), Applied, true);
    assert p4.revisions.Keys == {a.rev, b.rev} && forall r :: !IsActive(p4, r);
    hide TwoRevisions, RowsOf, IsActive, Init, Apart;
    BothDeploying(w, a, b);
    BothAnswered(w, a, b, s0);
    LeadsOn(w, Init(), s0, s1);
    var noted := State(TwoRevisions(a, b, DEPLOYING, DEPLOYING, Applied, false), running, BothCalls(a, b, _ => Noted), 0, both, both);
    BothNoted(w, a, b, s1);
    LeadsOn(w, Init(), s1, noted);
    BothReported(w, a, b, noted);
    LeadsOn(w, Init(), noted, s2);
    BothPromoted(w, a, b, s2);
    LeadsOn(w, Init(), s2, s3);
    BothSuperseded(w, a, b, s3);
    LeadsOn(w, Init(), s3, s4);
  }
}
