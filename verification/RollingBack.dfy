/** To which revisions a rollback returns, over whole runs of the rollout protocol. */
module RollingBack {
  import opened Collections
  import opened Panel
  import opened Rollout
  import opened Reconciling

  /** A revision a rollback may choose: once activated, and active, partially active or superseded now. */
  predicate Candidate(p: Tables, r: RevId) {
    && r in p.revisions && p.revisions[r].activatedAt.Some?
    && p.revisions[r].state in {Active, PartiallyActive, Superseded}
  }

  /** The step writes that the revision is active, or partially. */
  predicate Activates(s: State, st: Step, r: RevId) {
    && st.Promote? && st.call in s.calls && s.calls[st.call].rev == r
    && (s.calls[st.call].phase == Counted(Active) || s.calls[st.call].phase == Counted(PartiallyActive))
  }

  /** The step takes the revision out of the choice: marked as rolled back, rolled out again, or failed everywhere. */
  predicate Withdraws(s: State, st: Step, r: RevId) {
    match st
    case MarkRolledBack(id) => id == r
    case Start(rev) => rev == r
    case RollBack(_, prev) => prev == r
    case Promote(c) => c in s.calls && s.calls[c].rev == r && s.calls[c].phase == Counted(ValidationFailed)
    case _ => false
  }

  /** Calls carry one of the three verdicts there are. */
  ghost predicate VerdictsOk(s: State) {
    forall c :: c in s.calls && s.calls[c].phase.Counted? ==>
      s.calls[c].phase.verdict in {Active, PartiallyActive, ValidationFailed}
  }

  lemma VerdictsStep(w: Wire, s: State, st: Step)
    requires VerdictsOk(s) && Can(w, s, st)
    ensures VerdictsOk(Do(w, s, st))
  {
    hide RowsOf, ArtifactsOf, InState, RolledOut, MarkedRolledBack, Recorded, NodeReported, Promoted, OthersSuperseded;
    if st.Count? { VerdictIsOneOf(s.panel, s.calls[st.call].rev); }
    hide Verdict;
  }

  lemma VerdictIsOneOf(p: Tables, r: RevId)
    ensures Verdict(p, r).Some? ==> Verdict(p, r).value in {Active, PartiallyActive, ValidationFailed}
  {
    hide InState, RowsOf;
  }

  lemma {:induction false} VerdictsAt(w: Wire, s: State, steps: seq<Step>, i: nat)
    requires VerdictsOk(s) && Runs(w, s, steps) && i <= |steps|
    ensures VerdictsOk(At(w, s, steps, i))
    decreases i
  {
    hide Can, Do, VerdictsOk;
    if i > 0 {
      VerdictsStep(w, s, steps[0]);
      VerdictsAt(w, Do(w, s, steps[0]), steps[1..], i - 1);
    }
  }

  lemma InitOk(w: Wire)
    ensures Inv(w, Init()) && VerdictsOk(Init()) && Init().panel.revisions == map[]
  {
  }

  // ----- the candidates after any run -----

  lemma CandidateStep(w: Wire, s: State, st: Step, r: RevId)
    requires Inv(w, s) && VerdictsOk(s) && Can(w, s, st)
    ensures Candidate(Do(w, s, st).panel, r) <==> Activates(s, st, r) || (Candidate(s.panel, r) && !Withdraws(s, st, r))
  {
    if st.Promote? {
      PromoteCandidate(w, s, st.call, r);
    } else if st.Start? || st.RollBack? || st.MarkRolledBack? {
      RollOutCandidate(w, s, st, r);
    } else {
      OthersKeepCandidates(w, s, st, r);
    }
    hide Can, Do, Candidate, Inv, VerdictsOk;
  }

  lemma RollOutCandidate(w: Wire, s: State, st: Step, r: RevId)
    requires Can(w, s, st) && (st.Start? || st.RollBack? || st.MarkRolledBack?)
    ensures Candidate(Do(w, s, st).panel, r) <==> Candidate(s.panel, r) && !Withdraws(s, st, r)
  {
    hide Verdict, RowsOf, ArtifactsOf, Marked, RollbackTarget;
  }

  lemma OthersKeepCandidates(w: Wire, s: State, st: Step, r: RevId)
    requires Can(w, s, st) && !st.Promote? && !st.Start? && !st.RollBack? && !st.MarkRolledBack?
    ensures Candidate(Do(w, s, st).panel, r) <==> Candidate(s.panel, r)
  {
    hide Verdict, RowsOf, ArtifactsOf, AppliedRev;
  }

  lemma PromoteCandidate(w: Wire, s: State, c: nat, r: RevId)
    requires Inv(w, s) && VerdictsOk(s) && Can(w, s, Promote(c))
    ensures Candidate(Do(w, s, Promote(c)).panel, r) <==>
            Activates(s, Promote(c), r) || (Candidate(s.panel, r) && !Withdraws(s, Promote(c), r))
  {
    assert CallOk(w, s, s.calls[c]);
    assert s.calls[c].rev in s.panel.rows && s.panel.rows.Keys <= s.panel.revisions.Keys;
    hide Inv, Verdict, CallOk;
  }

  /** Step `i` activates the revision, and none before `n` withdraws it. */
  ghost predicate ChoosableSince(w: Wire, s: State, steps: seq<Step>, i: nat, n: nat, r: RevId)
    requires Runs(w, s, steps) && i < n <= |steps|
  {
    && Activates(At(w, s, steps, i), steps[i], r)
    && forall j :: i < j < n ==> !Withdraws(At(w, s, steps, j), steps[j], r)
  }

  lemma {:induction false} CandidateSince(w: Wire, s: State, steps: seq<Step>, n: nat, r: RevId)
    requires Inv(w, s) && VerdictsOk(s) && !Candidate(s.panel, r) && Runs(w, s, steps) && n <= |steps|
    ensures Candidate(At(w, s, steps, n).panel, r) <==> exists i: nat :: i < n && ChoosableSince(w, s, steps, i, n, r)
    decreases n
  {
    hide Inv, VerdictsOk, Runs, Can, Do, Candidate, Activates, Withdraws;
    if n > 0 {
      var m := n - 1;
      CandidateSince(w, s, steps, m, r);
      AtStep(w, s, steps, m);
      AtInv(w, s, steps, m);
      VerdictsAt(w, s, steps, m);
      var before, st := At(w, s, steps, m), steps[m];
      CandidateStep(w, before, st, r);
      hide At;
      if Activates(before, st, r) { assert ChoosableSince(w, s, steps, m, n, r); }
      if i: nat :| i < m && ChoosableSince(w, s, steps, i, m, r) {
        assert !Withdraws(before, st, r) ==> ChoosableSince(w, s, steps, i, n, r);
      }
      if i: nat :| i < n && ChoosableSince(w, s, steps, i, n, r) {
        assert i < m ==> ChoosableSince(w, s, steps, i, m, r);
      }
    }
  }

  /** For every run from the empty panel: the candidates are the revisions activated, wholly or partially, and not withdrawn since. */
  lemma CandidateIff(w: Wire, steps: seq<Step>, n: nat, r: RevId)
    requires Runs(w, Init(), steps) && n <= |steps|
    ensures Candidate(At(w, Init(), steps, n).panel, r) <==>
            exists i: nat :: i < n && ChoosableSince(w, Init(), steps, i, n, r)
  {
    InitOk(w);
    CandidateSince(w, Init(), steps, n, r);
  }

  lemma ChosenIsCandidate(p: Tables, id: RevId, prev: RevId)
    requires RollbackTarget(p, id, prev)
    ensures prev != id && Candidate(p, prev)
    ensures forall r :: r != id && Candidate(p, r) ==>
              p.revisions[r].activatedAt.value <= p.revisions[prev].activatedAt.value
  {
    forall r | r != id && Candidate(p, r)
      ensures p.revisions[r].activatedAt.value <= p.revisions[prev].activatedAt.value {
      assert Restorable(p, r, id);
    }
  }

  /**
   * A revision marked as rolled back is returned to by no later rollback, in any run, unless
   * it has been activated again in between.
   */
  lemma RolledBackIsNotReturnedTo(w: Wire, steps: seq<Step>, m: nat, n: nat, id: RevId, r: RevId) returns (i: nat)
    requires Runs(w, Init(), steps) && m < n < |steps|
    requires steps[m] == MarkRolledBack(r) && steps[n] == RollBack(id, r)
    ensures m < i < n && Activates(At(w, Init(), steps, i), steps[i], r)
  {
    BeforeRollBack(w, steps, n, id, r);
    CandidateIff(w, steps, n, r);
    hide Candidate, Activates, Can, Do, At, Runs, Init;
    i :| i < n && ChoosableSince(w, Init(), steps, i, n, r);
    assert Withdraws(At(w, Init(), steps, m), steps[m], r);
    NotBoth(At(w, Init(), steps, m), r);
  }

  lemma NotBoth(s: State, r: RevId)
    ensures !Activates(s, MarkRolledBack(r), r)
  {
  }

  // ----- the one chosen -----

  /** Step `i` is the first that activates the revision. */
  ghost predicate FirstActivation(w: Wire, s: State, steps: seq<Step>, i: nat, n: nat, r: RevId)
    requires Runs(w, s, steps) && i < n <= |steps|
  {
    && Activates(At(w, s, steps, i), steps[i], r)
    && forall j: nat :: j < i ==> !Activates(At(w, s, steps, j), steps[j], r)
  }

  /** The time a revision was activated: written once, and never changed. */
  lemma ActivatedStep(w: Wire, s: State, st: Step, r: RevId)
    requires Inv(w, s) && Can(w, s, st)
    ensures var t := Do(w, s, st);
            && s.now <= t.now && (Activates(s, st, r) ==> s.now < t.now)
            && TimeOf(t.panel, r) ==
               if TimeOf(s.panel, r).None? && Activates(s, st, r) then Some(s.now) else TimeOf(s.panel, r)
  {
    if st.Promote? {
      PromotedTime(w, s, st.call, r);
    } else {
      OthersKeepTimes(w, s, st, r);
    }
    hide Inv, Can, Do, TimeOf;
  }

  /** When the revision was activated, if it is stored and was. */
  function TimeOf(p: Tables, r: RevId): Option<nat> {
    if r in p.revisions then p.revisions[r].activatedAt else None
  }

  lemma PromotedTime(w: Wire, s: State, c: nat, r: RevId)
    requires Inv(w, s) && Can(w, s, Promote(c))
    ensures var t := Do(w, s, Promote(c));
            && s.now < t.now
            && TimeOf(t.panel, r) ==
               if TimeOf(s.panel, r).None? && Activates(s, Promote(c), r) then Some(s.now) else TimeOf(s.panel, r)
  {
    assert CallOk(w, s, s.calls[c]);
    assert s.calls[c].rev in s.panel.rows && s.panel.rows.Keys <= s.panel.revisions.Keys;
    hide Inv, Verdict, CallOk;
  }

  lemma OthersKeepTimes(w: Wire, s: State, st: Step, r: RevId)
    requires Can(w, s, st) && !st.Promote?
    ensures var t := Do(w, s, st);
            s.now == t.now && !Activates(s, st, r) && TimeOf(t.panel, r) == TimeOf(s.panel, r)
  {
    hide Verdict, RowsOf, ArtifactsOf, Marked, RollbackTarget, AppliedRev;
  }

  ghost predicate NeverActivated(w: Wire, s: State, steps: seq<Step>, n: nat, r: RevId)
    requires Runs(w, s, steps) && n <= |steps|
  {
    forall j: nat :: j < n ==> !Activates(At(w, s, steps, j), steps[j], r)
  }

  lemma {:induction false} FirstTime(w: Wire, s: State, steps: seq<Step>, n: nat, r: RevId) returns (i: nat)
    requires Inv(w, s) && TimeOf(s.panel, r).None? && Runs(w, s, steps) && n <= |steps|
    ensures var at := TimeOf(At(w, s, steps, n).panel, r);
            if at.Some? then i < n && FirstActivation(w, s, steps, i, n, r) && at == Some(At(w, s, steps, i).now)
            else NeverActivated(w, s, steps, n, r)
    decreases n
  {
    hide Inv, Runs, Can, Do, Activates, TimeOf;
    i := 0;
    if n > 0 {
      var m := n - 1;
      i := FirstTime(w, s, steps, m, r);
      AtStep(w, s, steps, m);
      AtInv(w, s, steps, m);
      var before := At(w, s, steps, m);
      ActivatedStep(w, before, steps[m], r);
      hide At;
      if TimeOf(before.panel, r).None? { i := m; }
    }
  }

  /** A revision has an activation time exactly when some step activated it, and it is the time of the first. */
  lemma ActivatedAtFirst(w: Wire, steps: seq<Step>, n: nat, r: RevId) returns (i: nat)
    requires Runs(w, Init(), steps) && n <= |steps|
    ensures var at := TimeOf(At(w, Init(), steps, n).panel, r);
            if at.Some? then i < n && FirstActivation(w, Init(), steps, i, n, r) && at == Some(At(w, Init(), steps, i).now)
            else NeverActivated(w, Init(), steps, n, r)
  {
    InitOk(w);
    i := FirstTime(w, Init(), steps, n, r);
  }

  lemma {:induction false} ClockRuns(w: Wire, s: State, steps: seq<Step>, i: nat, n: nat)
    requires Inv(w, s) && Runs(w, s, steps) && i <= n <= |steps|
    ensures At(w, s, steps, i).now <= At(w, s, steps, n).now
    decreases n
  {
    hide Inv, Runs, Can, Do, At;
    if i < n {
      ClockRuns(w, s, steps, i, n - 1);
      AtStep(w, s, steps, n - 1);
      AtInv(w, s, steps, n - 1);
      ActivatedStep(w, At(w, s, steps, n - 1), steps[n - 1], "");
    }
  }

  /**
   * In every run a rollback returns to another revision than the one it leaves, one of the
   * candidates, and of these the one whose first activation was the latest.
   */
  lemma ReturnsToLatest(w: Wire, steps: seq<Step>, n: nat, id: RevId, prev: RevId, r: RevId) returns (i: nat, k: nat)
    requires Runs(w, Init(), steps) && n < |steps| && steps[n] == RollBack(id, prev)
    requires r != id && r != prev && Candidate(At(w, Init(), steps, n).panel, r)
    ensures prev != id && Candidate(At(w, Init(), steps, n).panel, prev)
    ensures i < k < n && FirstActivation(w, Init(), steps, i, n, r) && FirstActivation(w, Init(), steps, k, n, prev)
  {
    var s := Init();
    InitOk(w);
    hide Inv, Runs, Can, Do, At, Activates, Init, Candidate;
    BeforeRollBack(w, steps, n, id, prev);
    assert r in At(w, s, steps, n).panel.revisions && At(w, s, steps, n).panel.revisions[r].activatedAt.Some? by {
      CandidateHasTime(At(w, s, steps, n).panel, r);
    }
    CandidateHasTime(At(w, s, steps, n).panel, prev);
    i := ActivatedAtFirst(w, steps, n, r);
    k := ActivatedAtFirst(w, steps, n, prev);
    if k < i {
      AtStep(w, s, steps, k);
      AtInv(w, s, steps, k);
      ActivatedStep(w, At(w, s, steps, k), steps[k], prev);
      ClockRuns(w, s, steps, k + 1, i);
    }
    if i == k { OneAtATime(At(w, s, steps, k), steps[k], r, prev); }
  }

  lemma CandidateHasTime(p: Tables, r: RevId)
    requires Candidate(p, r)
    ensures r in p.revisions && p.revisions[r].activatedAt.Some?
  {
  }

  lemma BeforeRollBack(w: Wire, steps: seq<Step>, n: nat, id: RevId, prev: RevId)
    requires Runs(w, Init(), steps) && n < |steps| && steps[n] == RollBack(id, prev)
    ensures var p := At(w, Init(), steps, n).panel;
            && prev != id && Candidate(p, prev)
            && forall r :: r != id && Candidate(p, r) ==>
                 p.revisions[r].activatedAt.value <= p.revisions[prev].activatedAt.value
  {
    AtStep(w, Init(), steps, n);
    var s := At(w, Init(), steps, n);
    assert RollbackTarget(s.panel, id, prev) by { hide Do, At, Runs, Init; }
    hide At, Runs, Init, Can, Do;
    ChosenIsCandidate(s.panel, id, prev);
  }

  lemma OneAtATime(s: State, st: Step, q: RevId, r: RevId)
    requires Activates(s, st, q) && Activates(s, st, r)
    ensures q == r
  {
  }
}
