/**
 * What polling and pushing come to once no rollout starts: runs in which any number of
 * calls are under way at once, all of them answered, or some given up.
 */
module Convergence {
  import opened Collections
  import opened Panel
  import opened Rollout

  /** Calls are for the goal of their node; nothing else but polls and the calls' own steps happens. */
  predicate Quiet(s: State, st: Step) {
    match st
    case Begin(_, rev, n) => n in s.panel.nodes && s.panel.nodes[n].desired == Some(rev)
    case Deliver(_) => true
    case Note(_) => true
    case Report(_) => true
    case Count(_) => true
    case Promote(_) => true
    case Supersede(_) => true
    case Poll(_) => true
    case _ => false
  }

  ghost predicate QuietRun(w: Wire, s: State, steps: seq<Step>)
    requires Runs(w, s, steps)
    decreases |steps|
  {
    steps == [] || (Quiet(s, steps[0]) && QuietRun(w, Do(w, s, steps[0]), steps[1..]))
  }

  // ----- nodes -----

  /** The poll finds another revision than the goal. */
  predicate Behind(w: Wire, s: State, n: NodeId) {
    n in s.panel.nodes && s.panel.nodes[n].desired.Some? && AppliedRev(w, s, n) != s.panel.nodes[n].desired
  }

  /** The node runs what it should and the panel knows. */
  predicate Settled(w: Wire, s: State, n: NodeId)
    requires n in s.panel.nodes
  {
    && (s.panel.nodes[n].desired.Some? ==> AppliedRev(w, s, n) == s.panel.nodes[n].desired)
    && (AppliedRev(w, s, n).Some? ==> s.panel.nodes[n].applied == AppliedRev(w, s, n))
  }

  /** The panel knows what the node runs, or has an answer saying so under way. */
  ghost predicate Known(w: Wire, s: State, n: NodeId)
    requires n in s.panel.nodes
  {
    || AppliedRev(w, s, n).None? || s.panel.nodes[n].applied == AppliedRev(w, s, n)
    || exists c :: c in s.calls && s.calls[c].node == n && (s.calls[c].phase.Answered? || s.calls[c].phase.Noted?)
  }

  predicate Wanted(s: State, call: Call) {
    && call.node in s.panel.nodes && s.panel.nodes[call.node].desired == Some(call.rev)
    && !call.phase.Abandoned?
  }

  /** Every call is for the goal of its node, and none is given up. */
  ghost predicate CallsWanted(s: State) {
    forall c :: c in s.calls ==> Wanted(s, s.calls[c])
  }

  /** Nodes, goals and artifacts are as they were. */
  ghost predicate SameGoals(s: State, t: State) {
    && t.panel.nodes.Keys == s.panel.nodes.Keys && t.panel.artifacts == s.panel.artifacts
    && forall n :: n in s.panel.nodes ==>
         t.panel.nodes[n].desired == s.panel.nodes[n].desired && t.panel.nodes[n].polled == s.panel.nodes[n].polled
  }

  /** A call has been refused, and in a quiet run stays so. */
  ghost predicate SomeRefused(s: State) {
    exists c :: c in s.calls && s.calls[c].phase.Refused?
  }

  /** The step delivers a call to the node, or polls it while it is not behind. */
  predicate Reaches(w: Wire, s: State, st: Step, n: NodeId) {
    || (st.Deliver? && st.call in s.calls && s.calls[st.call].node == n)
    || (st == Poll(n) && !Behind(w, s, n))
  }

  ghost predicate Reached(w: Wire, s: State, steps: seq<Step>, n: NodeId)
    requires Runs(w, s, steps)
    decreases |steps|
  {
    steps != [] && (Reaches(w, s, steps[0], n) || Reached(w, Do(w, s, steps[0]), steps[1..], n))
  }

  lemma QuietGoals(w: Wire, s: State, st: Step)
    requires Can(w, s, st) && Quiet(s, st)
    ensures SameGoals(s, Do(w, s, st))
  {
    CalmGoals(w, s, st);
    hide Do;
  }

  /** The calls after a quiet step: those there were, moved on, and at most one new one. */
  lemma QuietCalls(w: Wire, s: State, st: Step, c: nat)
    requires Can(w, s, st) && Quiet(s, st) && c in Do(w, s, st).calls
    ensures var call := Do(w, s, st).calls[c];
            if c in s.calls
            then call.node == s.calls[c].node && call.rev == s.calls[c].rev && (call.phase.Abandoned? ==> s.calls[c].phase.Abandoned?)
            else st.Begin? && call.node == st.node && call.rev == st.rev && call.phase.Sent?
  {
    hide Verdict;
  }

  lemma RefusedStays(w: Wire, s: State, st: Step)
    requires Can(w, s, st) && Quiet(s, st) && SomeRefused(s)
    ensures SomeRefused(Do(w, s, st))
  {
    hide Verdict;
    var c :| c in s.calls && s.calls[c].phase.Refused?;
    assert c in Do(w, s, st).calls && Do(w, s, st).calls[c] == s.calls[c];
  }

  lemma QuietKeeps(w: Wire, s: State, st: Step)
    requires Can(w, s, st) && Quiet(s, st) && CallsWanted(s)
    ensures SameGoals(s, Do(w, s, st)) && CallsWanted(Do(w, s, st))
  {
    var t := Do(w, s, st);
    QuietGoals(w, s, st);
    forall c | c in t.calls ensures Wanted(t, t.calls[c]) {
      QuietCalls(w, s, st, c);
      if c in s.calls { assert Wanted(s, s.calls[c]); }
    }
  }

  /** What a node runs changes only when a call is delivered to it, and then to its goal. */
  lemma QuietRunning(w: Wire, s: State, st: Step, n: NodeId)
    requires Inv(w, s) && Can(w, s, st) && Quiet(s, st) && CallsWanted(s) && n in s.panel.nodes
    ensures var t := Do(w, s, st);
            || AppliedRev(w, t, n) == AppliedRev(w, s, n)
            || (AppliedRev(w, t, n).Some? && AppliedRev(w, t, n) == s.panel.nodes[n].desired)
  {
    WantedIsAimed(s);
    CalmRunning(w, s, st, n);
    if Accepts(w, s, st, n) { assert Wanted(s, s.calls[st.call]); }
    hide Inv, Do, Can;
  }

  lemma WantedIsAimed(s: State)
    requires CallsWanted(s)
    ensures CallsAimed(s)
  {
    forall c | c in s.calls ensures Aimed(s, s.calls[c]) { assert Wanted(s, s.calls[c]); }
  }

  /** A call delivered to the node is refused, or the node runs its goal with the answer under way. */
  lemma QuietDelivery(w: Wire, s: State, st: Step, n: NodeId)
    requires Inv(w, s) && Can(w, s, st) && CallsWanted(s) && n in s.panel.nodes
    requires st.Deliver? && s.calls[st.call].node == n
    ensures var t := Do(w, s, st);
            SomeRefused(t) || (n in t.panel.nodes && AppliedRev(w, t, n) == s.panel.nodes[n].desired && Known(w, t, n))
  {
    var t, call := Do(w, s, st), s.calls[st.call];
    assert CallOk(w, s, call) && Wanted(s, call);
    hide Inv;
    assert st.call in t.calls && t.calls[st.call].node == n;
    assert t.calls[st.call].phase == if w.accepts(call.node, call.content) then Answered(call.rev) else Refused;
  }

  /** Once the node runs its goal, what the panel knows of it stays right. */
  lemma QuietKnown(w: Wire, s: State, st: Step, n: NodeId)
    requires Inv(w, s) && Can(w, s, st) && Quiet(s, st) && CallsWanted(s) && n in s.panel.nodes
    requires Known(w, s, n) && (s.panel.nodes[n].desired.Some? ==> AppliedRev(w, s, n) == s.panel.nodes[n].desired)
    ensures var t := Do(w, s, st); n in t.panel.nodes && Known(w, t, n)
  {
    var t := Do(w, s, st);
    QuietRunning(w, s, st, n);
    QuietGoals(w, s, st);
    if c :| c in s.calls && s.calls[c].node == n && (s.calls[c].phase.Answered? || s.calls[c].phase.Noted?) {
      assert Wanted(s, s.calls[c]);
      KnownByAnswer(w, s, st, n, c);
    } else {
      KnownByTable(w, s, st, n);
    }
  }

  lemma KnownByAnswer(w: Wire, s: State, st: Step, n: NodeId, c: nat)
    requires Can(w, s, st) && Quiet(s, st) && n in s.panel.nodes && c in s.calls && Wanted(s, s.calls[c])
    requires s.calls[c].node == n && (s.calls[c].phase.Answered? || s.calls[c].phase.Noted?)
    requires AppliedRev(w, s, n) == s.panel.nodes[n].desired
    requires AppliedRev(w, Do(w, s, st), n) == s.panel.nodes[n].desired
    ensures var t := Do(w, s, st); n in t.panel.nodes && Known(w, t, n)
  {
    hide Verdict;
    var t := Do(w, s, st);
    if st != Report(c) {
      assert c in t.calls && t.calls[c].node == n && (t.calls[c].phase.Answered? || t.calls[c].phase.Noted?);
    }
  }

  lemma KnownByTable(w: Wire, s: State, st: Step, n: NodeId)
    requires Inv(w, s) && Can(w, s, st) && Quiet(s, st) && CallsWanted(s) && n in s.panel.nodes
    requires AppliedRev(w, s, n).None? || s.panel.nodes[n].applied == AppliedRev(w, s, n)
    requires s.panel.nodes[n].desired.Some? ==> AppliedRev(w, s, n) == s.panel.nodes[n].desired
    ensures var t := Do(w, s, st); n in t.panel.nodes && Known(w, t, n)
  {
    var t := Do(w, s, st);
    QuietGoals(w, s, st);
    QuietRunning(w, s, st, n);
    QuietEntry(w, s, st, n);
    hide Inv, Do, Can, Quiet, CallsWanted, AppliedRev;
    assert AppliedRev(w, t, n) == AppliedRev(w, s, n);
  }

  /** The panel's entry for a node stays, or becomes what the node says, or its goal. */
  lemma QuietEntry(w: Wire, s: State, st: Step, n: NodeId)
    requires Can(w, s, st) && Quiet(s, st) && CallsWanted(s) && n in s.panel.nodes
    ensures var t, row := Do(w, s, st), s.panel.nodes[n];
            n in t.panel.nodes && (t.panel.nodes[n].applied == row.applied
              || (AppliedRev(w, s, n).Some? && t.panel.nodes[n].applied == AppliedRev(w, s, n))
              || (row.desired.Some? && t.panel.nodes[n].applied == row.desired))
  {
    if st.Report? {
      assert Wanted(s, s.calls[st.call]);
    }
    hide Verdict, CallsWanted;
  }

  /** What a node that has been reached is, from then on, unless a call is refused. */
  ghost predicate OnTrack(w: Wire, s: State, n: NodeId) {
    n in s.panel.nodes && (s.panel.nodes[n].desired.Some? ==> AppliedRev(w, s, n) == s.panel.nodes[n].desired)
  }

  /** The node is known, or somewhere ahead it is reached. */
  lemma {:induction false} SettlesWhenReached(w: Wire, s: State, steps: seq<Step>, n: NodeId)
    requires Inv(w, s) && Runs(w, s, steps) && QuietRun(w, s, steps) && CallsWanted(s) && n in s.panel.nodes
    requires (OnTrack(w, s, n) && Known(w, s, n)) || Reached(w, s, steps, n)
    ensures var t := End(w, s, steps);
            SomeRefused(t) || (SameGoals(s, t) && OnTrack(w, t, n) && Known(w, t, n))
    decreases |steps|
  {
    hide Inv, Known, OnTrack, Can, Do, Quiet, Reaches, SameGoals, SomeRefused, CallsWanted;
    if steps == [] {
      GoalsSelf(s);
    } else {
      var st := steps[0];
      var t := Do(w, s, st);
      StepKeepsInv(w, s, st);
      QuietKeeps(w, s, st);
      GoalsKeepNodes(s, t, n);
      ReachedStep(w, s, st, n);
      if SomeRefused(t) {
        RefusedLasts(w, t, steps[1..]);
      } else {
        SettlesWhenReached(w, t, steps[1..], n);
        GoalsJoin(s, t, End(w, s, steps));
      }
    }
  }

  lemma GoalsSelf(s: State)
    ensures SameGoals(s, s)
  {
  }

  lemma GoalsKeepNodes(s: State, t: State, n: NodeId)
    requires SameGoals(s, t) && n in s.panel.nodes
    ensures n in t.panel.nodes && t.panel.nodes[n].desired == s.panel.nodes[n].desired
  {
  }

  lemma GoalsJoin(s: State, t: State, u: State)
    requires SameGoals(s, t)
    ensures SameGoals(t, u) ==> SameGoals(s, u)
  {
  }

  /** One quiet step: what is on track and known stays so, and what the step reaches comes to be so. */
  lemma ReachedStep(w: Wire, s: State, st: Step, n: NodeId)
    requires Inv(w, s) && Can(w, s, st) && Quiet(s, st) && CallsWanted(s) && n in s.panel.nodes
    ensures var t := Do(w, s, st);
            (OnTrack(w, s, n) && Known(w, s, n)) || Reaches(w, s, st, n) ==>
              SomeRefused(t) || (OnTrack(w, t, n) && Known(w, t, n))
  {
    var t := Do(w, s, st);
    QuietGoals(w, s, st);
    QuietRunning(w, s, st, n);
    hide Inv, Can, CallsWanted, SomeRefused, Known;
    if OnTrack(w, s, n) && Known(w, s, n) {
      QuietKnown(w, s, st, n);
    }
    if st.Deliver? && st.call in s.calls && s.calls[st.call].node == n {
      QuietDelivery(w, s, st, n);
    }
    if st == Poll(n) && !Behind(w, s, n) {
      PollKnows(w, s, n);
    }
    hide Do;
  }

  lemma PollKnows(w: Wire, s: State, n: NodeId)
    requires Can(w, s, Poll(n))
    ensures var t := Do(w, s, Poll(n)); n in t.panel.nodes && Known(w, t, n)
  {
  }

  lemma {:induction false} RefusedLasts(w: Wire, s: State, steps: seq<Step>)
    requires Runs(w, s, steps) && QuietRun(w, s, steps) && SomeRefused(s)
    ensures SomeRefused(End(w, s, steps))
    decreases |steps|
  {
    hide Can, Do, Quiet, SomeRefused;
    if steps != [] {
      RefusedStays(w, s, steps[0]);
      RefusedLasts(w, Do(w, s, steps[0]), steps[1..]);
    }
  }

  /**
   * In every quiet run that starts and ends with no call under way, however calls and polls
   * overlap: a node that was settled, to which some call is delivered, or which is polled
   * while not behind, ends settled, with goals as they were.
   */
  lemma QuietRunsSettle(w: Wire, s: State, steps: seq<Step>, n: NodeId)
    requires Inv(w, s) && Runs(w, s, steps) && QuietRun(w, s, steps)
    requires s.calls == map[] && End(w, s, steps).calls == map[]
    requires n in s.panel.nodes && (Settled(w, s, n) || Reached(w, s, steps, n))
    ensures var t := End(w, s, steps); Inv(w, t) && SameGoals(s, t) && n in t.panel.nodes && Settled(w, t, n)
  {
    RunKeepsInv(w, s, steps);
    SettlesWhenReached(w, s, steps, n);
    hide Inv, Runs, End, QuietRun, Reached;
  }

  // ----- runs in which calls are given up -----

  /** Quiet steps, and calls that are given up, forgotten or find no target. */
  predicate Calm(s: State, st: Step) {
    Quiet(s, st) || st.GiveUp? || st.Forget? || st.NoTarget?
  }

  ghost predicate CalmRun(w: Wire, s: State, steps: seq<Step>)
    requires Runs(w, s, steps)
    decreases |steps|
  {
    steps == [] || (Calm(s, steps[0]) && CalmRun(w, Do(w, s, steps[0]), steps[1..]))
  }

  predicate Aimed(s: State, call: Call) {
    call.node in s.panel.nodes && s.panel.nodes[call.node].desired == Some(call.rev)
  }

  /** Every call, given up or not, is for the goal of its node. */
  ghost predicate CallsAimed(s: State) {
    forall c :: c in s.calls ==> Aimed(s, s.calls[c])
  }

  lemma CalmGoals(w: Wire, s: State, st: Step)
    requires Can(w, s, st) && Calm(s, st)
    ensures SameGoals(s, Do(w, s, st))
  {
    hide Verdict;
  }

  lemma CalmCalls(w: Wire, s: State, st: Step, c: nat)
    requires Can(w, s, st) && Calm(s, st) && c in Do(w, s, st).calls
    ensures var call := Do(w, s, st).calls[c];
            if c in s.calls then call.node == s.calls[c].node && call.rev == s.calls[c].rev
            else st.Begin? && call.node == st.node && call.rev == st.rev
  {
    hide Verdict;
  }

  lemma CalmKeeps(w: Wire, s: State, st: Step)
    requires Can(w, s, st) && Calm(s, st) && CallsAimed(s)
    ensures SameGoals(s, Do(w, s, st)) && CallsAimed(Do(w, s, st))
  {
    var t := Do(w, s, st);
    CalmGoals(w, s, st);
    forall c | c in t.calls ensures Aimed(t, t.calls[c]) {
      CalmCalls(w, s, st, c);
      if c in s.calls { assert Aimed(s, s.calls[c]); }
    }
  }

  /** The step delivers a call to the node, which accepts it. */
  predicate Accepts(w: Wire, s: State, st: Step, n: NodeId) {
    && st.Deliver? && st.call in s.calls && s.calls[st.call].node == n
    && w.accepts(n, s.calls[st.call].content)
  }

  /** What a node runs changes only when it accepts a call, and then to its goal. */
  lemma CalmRunning(w: Wire, s: State, st: Step, n: NodeId)
    requires Inv(w, s) && Can(w, s, st) && Calm(s, st) && CallsAimed(s) && n in s.panel.nodes
    ensures var t := Do(w, s, st);
            AppliedRev(w, t, n) == if Accepts(w, s, st, n) then s.panel.nodes[n].desired else AppliedRev(w, s, n)
  {
    if st.Deliver? {
      assert CallOk(w, s, s.calls[st.call]) && Aimed(s, s.calls[st.call]);
      hide Inv;
    } else {
      OthersKeepRunning(w, s, st);
      hide Inv, Can, Do, Calm;
    }
  }

  /** Only deliveries change what nodes run. */
  lemma OthersKeepRunning(w: Wire, s: State, st: Step)
    requires Can(w, s, st) && !st.Deliver?
    ensures Do(w, s, st).running == s.running
  {
    hide Verdict;
  }

  /** The panel's entry for a node stays, or a poll or a report writes it. */
  lemma CalmEntry(w: Wire, s: State, st: Step, n: NodeId)
    requires Can(w, s, st) && Calm(s, st) && CallsAimed(s) && n in s.panel.nodes
    ensures var t, row := Do(w, s, st), s.panel.nodes[n];
            n in t.panel.nodes && t.panel.nodes[n].applied ==
              if st == Poll(n) && AppliedRev(w, s, n).Some? then AppliedRev(w, s, n)
              else if st.Report? && s.calls[st.call].node == n then row.desired else row.applied
  {
    if st.Report? {
      assert Aimed(s, s.calls[st.call]);
    }
    hide Verdict, CallsAimed;
  }

  /** The node is on track and the step writes what it runs: a poll of it, or a report of its answer. */
  predicate Confirms(w: Wire, s: State, st: Step, n: NodeId) {
    && n in s.panel.nodes && !Behind(w, s, n)
    && (st == Poll(n) || (st.Report? && st.call in s.calls && s.calls[st.call].node == n))
  }

  ghost predicate SomeAccepted(w: Wire, s: State, steps: seq<Step>, n: NodeId)
    requires Runs(w, s, steps)
    decreases |steps|
  {
    steps != [] && (Accepts(w, s, steps[0], n) || SomeAccepted(w, Do(w, s, steps[0]), steps[1..], n))
  }

  ghost predicate SomeConfirmed(w: Wire, s: State, steps: seq<Step>, n: NodeId)
    requires Runs(w, s, steps)
    decreases |steps|
  {
    steps != [] && (Confirms(w, s, steps[0], n) || SomeConfirmed(w, Do(w, s, steps[0]), steps[1..], n))
  }

  /** One calm step: a node that is not behind, or accepts a call, is not behind after it; one settled or confirmed is settled. */
  lemma CalmStep(w: Wire, s: State, st: Step, n: NodeId)
    requires Inv(w, s) && Can(w, s, st) && Calm(s, st) && CallsAimed(s) && n in s.panel.nodes
    ensures var t := Do(w, s, st);
            && n in t.panel.nodes
            && (Behind(w, t, n) <==> Behind(w, s, n) && !Accepts(w, s, st, n))
            && (Settled(w, s, n) || Confirms(w, s, st, n) ==> Settled(w, t, n))
  {
    CalmGoals(w, s, st);
    CalmRunning(w, s, st, n);
    CalmEntry(w, s, st, n);
    if Accepts(w, s, st, n) { assert Aimed(s, s.calls[st.call]); }
    hide Inv, Can, Do, Calm, CallsAimed, AppliedRev;
  }

  /**
   * Every calm run, with any number of calls to other nodes or this one given up, lost or
   * refused: a node is behind at the end exactly when it was and accepted no call; and one
   * that was settled, or whose revision was written once it was not behind, is settled.
   */
  lemma {:induction false} CalmRunsSettle(w: Wire, s: State, steps: seq<Step>, n: NodeId)
    requires Inv(w, s) && Runs(w, s, steps) && CalmRun(w, s, steps) && CallsAimed(s) && n in s.panel.nodes
    ensures var t := End(w, s, steps);
            && SameGoals(s, t) && n in t.panel.nodes
            && (Behind(w, t, n) <==> Behind(w, s, n) && !SomeAccepted(w, s, steps, n))
            && (Settled(w, s, n) || SomeConfirmed(w, s, steps, n) ==> Settled(w, t, n))
    decreases |steps|
  {
    hide Inv, Can, Do, Calm, CallsAimed, Behind, Settled, Accepts, Confirms, SameGoals;
    if steps == [] {
      GoalsSelf(s);
    } else {
      var st := steps[0];
      StepKeepsInv(w, s, st);
      CalmKeeps(w, s, st);
      CalmStep(w, s, st, n);
      CalmRunsSettle(w, Do(w, s, st), steps[1..], n);
      GoalsJoin(s, Do(w, s, st), End(w, s, steps));
    }
  }
}
