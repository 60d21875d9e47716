/** What polling makes of a revision whose pushes failed or were lost, however the polls overlap. */
module Polling {
  import opened Collections
  import opened Panel
  import opened Rollout
  import opened Convergence
  import opened Activation

  /** Polls push nodes that are behind, each to its goal. */
  ghost predicate PollRun(w: Wire, s: State, steps: seq<Step>)
    requires Runs(w, s, steps)
    decreases |steps|
  {
    steps == [] || (Polls(w, s, steps[0]) && PollRun(w, Do(w, s, steps[0]), steps[1..]))
  }

  predicate Polls(w: Wire, s: State, st: Step) {
    Quiet(s, st) && (st.Begin? ==> Behind(w, s, st.node))
  }

  lemma {:induction false} PollRunIsQuiet(w: Wire, s: State, steps: seq<Step>)
    requires Runs(w, s, steps) && PollRun(w, s, steps)
    ensures QuietRun(w, s, steps) && PushesOnly(steps)
    decreases |steps|
  {
    hide Can, Do, Behind;
    if steps != [] {
      PollRunIsQuiet(w, Do(w, s, steps[0]), steps[1..]);
      forall st | st in steps ensures Pushing(st) {
        assert st == steps[0] || st in steps[1..];
      }
    }
  }

  // ----- which nodes are called -----

  /** The node should run the revision and runs another, or none. */
  predicate Lags(w: Wire, s: State, rev: RevId, n: NodeId) {
    Behind(w, s, n) && s.panel.nodes[n].desired == Some(rev)
  }

  lemma NotLaggingStep(w: Wire, s: State, st: Step, rev: RevId, n: NodeId)
    requires Inv(w, s) && Can(w, s, st) && Quiet(s, st) && CallsWanted(s) && !Lags(w, s, rev, n)
    ensures !Lags(w, Do(w, s, st), rev, n)
  {
    QuietGoals(w, s, st);
    if n in s.panel.nodes { QuietRunning(w, s, st, n); }
    hide Inv, Can, Do, Quiet, CallsWanted, AppliedRev;
  }

  /** A node that does not lag stays so, and is not called. */
  lemma {:induction false} NotLaggingIsLeft(w: Wire, s: State, steps: seq<Step>, rev: RevId, n: NodeId)
    requires Inv(w, s) && Runs(w, s, steps) && PollRun(w, s, steps) && CallsWanted(s) && !Lags(w, s, rev, n)
    ensures !Called(steps, rev, n)
    decreases |steps|
  {
    hide Inv, Can, Do, CallsWanted, Called, AppliedRev;
    if steps == [] {
      NoneCalled();
    } else {
      var st := steps[0];
      StepKeepsInv(w, s, st);
      QuietKeeps(w, s, st);
      NotLaggingStep(w, s, st, rev, n);
      CalledFirst(steps, rev, n);
      NotLaggingIsLeft(w, Do(w, s, st), steps[1..], rev, n);
    }
  }

  ghost predicate NoCallsTo(s: State, n: NodeId) {
    forall c :: c in s.calls ==> s.calls[c].node != n
  }

  lemma UncalledNode(w: Wire, s: State, st: Step, n: NodeId)
    requires Can(w, s, st) && Quiet(s, st) && NoCallsTo(s, n) && !(st.Begin? && st.node == n)
    ensures NoCallsTo(Do(w, s, st), n) && AppliedRev(w, Do(w, s, st), n) == AppliedRev(w, s, n)
  {
    hide Verdict;
  }

  /** What a node runs stays until it is called. */
  lemma {:induction false} LaggingIsCalled(w: Wire, s: State, steps: seq<Step>, rev: RevId, n: NodeId)
    requires Runs(w, s, steps) && QuietRun(w, s, steps) && NoCallsTo(s, n) && !Called(steps, rev, n) && Lags(w, s, rev, n)
    ensures Lags(w, End(w, s, steps), rev, n)
    decreases |steps|
  {
    hide Can, Do, NoCallsTo, Called, AppliedRev;
    if steps != [] {
      var st := steps[0];
      CalledFirst(steps, rev, n);
      QuietGoals(w, s, st);
      UncalledNode(w, s, st, n);
      LaggingIsCalled(w, Do(w, s, st), steps[1..], rev, n);
    }
  }

  /** A polling run after which a node does not lag has called it exactly if it did. */
  lemma CalledIffLags(w: Wire, s: State, steps: seq<Step>, rev: RevId, n: NodeId)
    requires Inv(w, s) && Runs(w, s, steps) && PollRun(w, s, steps) && s.calls == map[]
    requires !Lags(w, End(w, s, steps), rev, n)
    ensures Called(steps, rev, n) <==> Lags(w, s, rev, n)
  {
    PollRunIsQuiet(w, s, steps);
    hide Inv, Runs, PollRun, QuietRun, Called, Lags, End;
    if Lags(w, s, rev, n) {
      if !Called(steps, rev, n) { LaggingIsCalled(w, s, steps, rev, n); }
    } else {
      NotLaggingIsLeft(w, s, steps, rev, n);
    }
  }

  // ----- one run -----

  /** Every row is applied, or its node lags. */
  ghost predicate Mendable(w: Wire, s: State, rev: RevId) {
    forall n :: n in RowsOf(s.panel, rev) ==> RowsOf(s.panel, rev)[n] == Applied || Lags(w, s, rev, n)
  }

  ghost predicate SomeLags(w: Wire, s: State, rev: RevId) {
    exists n :: n in RowsOf(s.panel, rev) && Lags(w, s, rev, n)
  }

  /** A row is pending although its node does not lag. */
  ghost predicate Unasked(w: Wire, s: State, rev: RevId) {
    exists n :: n in RowsOf(s.panel, rev) && RowsOf(s.panel, rev)[n] == Pending && !Lags(w, s, rev, n)
  }

  /** The rows with those of the targets that lag applied. */
  function LaggingRows(w: Wire, s: State, rev: RevId): map<NodeId, DeployState> {
    map n | n in RowsOf(s.panel, rev) :: if Lags(w, s, rev, n) then Applied else RowsOf(s.panel, rev)[n]
  }

  ghost predicate NoneLags(w: Wire, s: State, rev: RevId) {
    forall n :: n in RowsOf(s.panel, rev) ==> !Lags(w, s, rev, n)
  }

  /** A polling run to a state with no call under way in which no target lags. */
  ghost predicate PollsToRest(w: Wire, s: State, steps: seq<Step>, rev: RevId) {
    Runs(w, s, steps) && PollRun(w, s, steps) && End(w, s, steps).calls == map[] && NoneLags(w, End(w, s, steps), rev)
  }

  lemma TargetsCalled(w: Wire, s: State, steps: seq<Step>, rev: RevId)
    requires Inv(w, s) && s.calls == map[] && PollsToRest(w, s, steps, rev)
    ensures forall n :: Called(steps, rev, n) <==> n in RowsOf(s.panel, rev) && Lags(w, s, rev, n)
    ensures forall n :: n in RowsOf(s.panel, rev) <==> n in RowsOf(End(w, s, steps).panel, rev)
  {
    PollRunIsQuiet(w, s, steps);
    DueRun(w, s, steps, rev);
    forall n ensures Called(steps, rev, n) <==> n in RowsOf(s.panel, rev) && Lags(w, s, rev, n) {
      hide Inv, Runs, End, PollRun, Called, Lags, RowsOf, Due, QuietRun, PushesOnly;
      if Called(steps, rev, n) { CalledHasRow(w, s, steps, rev, n); }
      if n in RowsOf(s.panel, rev) { CalledIffLags(w, s, steps, rev, n); }
    }
  }

  /**
   * What a polling run leaves of a revision. Its rows: those of the targets that lagged are
   * applied, the others as before. Its state, unless another revision supersedes it or an
   * outdated verdict is written: as before if no target lagged, or one that did not has a
   * pending row; else active if every row not applied belonged to a target that lagged, and
   * partially active if not.
   */
  lemma PollingLeavesActiveIff(w: Wire, s: State, steps: seq<Step>, rev: RevId)
    requires Inv(w, s) && s.calls == map[] && rev in s.panel.revisions && PollsToRest(w, s, steps, rev)
    ensures var t := End(w, s, steps);
            && RowsOf(t.panel, rev) == LaggingRows(w, s, rev)
            && (Undisturbed(w, s, steps, rev) && CurrentRun(w, s, steps, rev) ==>
                  StateOf(t, rev) == if !SomeLags(w, s, rev) || Unasked(w, s, rev) then StateOf(s, rev)
                                     else Some(if Mendable(w, s, rev) then Active else PartiallyActive))
  {
    PollRunIsQuiet(w, s, steps);
    TargetsCalled(w, s, steps, rev);
    PushesActivateIff(w, s, steps, rev);
    hide Inv, Runs, End, PollRun, PushesOnly, CurrentRun, Undisturbed, Called, Lags, RowsOf, QuietRun, NoneLags;
    assert Unmoved(s, rev, steps) <==> !SomeLags(w, s, rev) || Unasked(w, s, rev);
    assert Covered(s, rev, steps) <==> Mendable(w, s, rev);
  }

  // ----- settled nodes -----

  lemma SettledStep(w: Wire, s: State, st: Step)
    requires Can(w, s, st) && Polls(w, s, st) && s.calls == map[]
    requires forall n :: n in s.panel.nodes ==> Settled(w, s, n)
    ensures Do(w, s, st) == s
  {
    if st.Poll? {
      assert Settled(w, s, st.node);
      assert NodeReported(s.panel, st.node, AppliedRev(w, s, st.node)).nodes == s.panel.nodes;
    }
    hide Verdict;
  }

  /** Once every node is settled, polling pushes nothing and changes nothing. */
  lemma {:induction false} SettledRunRests(w: Wire, s: State, steps: seq<Step>)
    requires Runs(w, s, steps) && PollRun(w, s, steps) && s.calls == map[]
    requires forall n :: n in s.panel.nodes ==> Settled(w, s, n)
    ensures End(w, s, steps) == s
    decreases |steps|
  {
    hide Can, Do, Polls, Settled;
    if steps != [] {
      SettledStep(w, s, steps[0]);
      SettledRunRests(w, s, steps[1..]);
    }
  }

  // ----- nodes that were behind -----

  lemma UnreachedStep(w: Wire, s: State, st: Step, n: NodeId)
    requires Can(w, s, st) && Quiet(s, st) && !Reaches(w, s, st, n)
    ensures AppliedRev(w, Do(w, s, st), n) == AppliedRev(w, s, n)
  {
    hide Verdict, Behind;
  }

  lemma {:induction false} UnreachedRuns(w: Wire, s: State, steps: seq<Step>, n: NodeId)
    requires Runs(w, s, steps) && QuietRun(w, s, steps) && !Reached(w, s, steps, n)
    ensures AppliedRev(w, End(w, s, steps), n) == AppliedRev(w, s, n)
    decreases |steps|
  {
    hide Can, Do, Quiet, Reaches, AppliedRev;
    if steps != [] {
      UnreachedStep(w, s, steps[0], n);
      UnreachedRuns(w, Do(w, s, steps[0]), steps[1..], n);
    }
  }

  lemma {:induction false} QuietRunGoals(w: Wire, s: State, steps: seq<Step>)
    requires Runs(w, s, steps) && QuietRun(w, s, steps)
    ensures SameGoals(s, End(w, s, steps))
    decreases |steps|
  {
    hide Can, Do, Quiet;
    if steps == [] {
      GoalsSelf(s);
    } else {
      QuietGoals(w, s, steps[0]);
      QuietRunGoals(w, Do(w, s, steps[0]), steps[1..]);
      GoalsJoin(s, Do(w, s, steps[0]), End(w, s, steps));
    }
  }

  /** A node that was behind and is not any more is settled once no call is under way. */
  lemma PollingSettles(w: Wire, s: State, steps: seq<Step>, n: NodeId)
    requires Inv(w, s) && Runs(w, s, steps) && PollRun(w, s, steps)
    requires s.calls == map[] && End(w, s, steps).calls == map[]
    requires n in s.panel.nodes && Behind(w, s, n) && !Behind(w, End(w, s, steps), n)
    ensures n in End(w, s, steps).panel.nodes && Settled(w, End(w, s, steps), n)
  {
    PollRunIsQuiet(w, s, steps);
    QuietRunGoals(w, s, steps);
    hide Inv, Runs, End, PollRun, QuietRun, AppliedRev, Reached;
    if !Reached(w, s, steps, n) { UnreachedRuns(w, s, steps, n); }
    QuietRunsSettle(w, s, steps, n);
  }
}
