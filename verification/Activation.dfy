/** When a revision that is pushed, or polled for, ends up active, however its calls overlap. */
module Activation {
  import opened Collections
  import opened Panel
  import opened Rollout
  import opened Convergence

  /** The steps of runs in which nothing but pushes and polls happens and no call is given up. */
  predicate Pushing(st: Step) {
    match st
    case Begin(_, _, _) => true
    case Deliver(_) => true
    case Note(_) => true
    case Report(_) => true
    case Count(_) => true
    case Promote(_) => true
    case Supersede(_) => true
    case Poll(_) => true
    case _ => false
  }

  predicate NoneAbandoned(s: State) {
    forall c :: c in s.calls ==> !s.calls[c].phase.Abandoned?
  }

  function StateOf(s: State, rev: RevId): Option<RevState> {
    if rev in s.panel.revisions then Some(s.panel.revisions[rev].state) else None
  }

  /** What a pushing step does to a revision's rows: an answer noted for it marks the node applied. */
  lemma PushingRows(w: Wire, s: State, st: Step, rev: RevId)
    requires Can(w, s, st) && Pushing(st) && NoneAbandoned(s)
    ensures RowsOf(Do(w, s, st).panel, rev) ==
            if st.Note? && s.calls[st.call].rev == rev
            then RowsOf(s.panel, rev)[s.calls[st.call].node := Applied] else RowsOf(s.panel, rev)
    ensures NoneAbandoned(Do(w, s, st))
  {
    hide Verdict;
  }

  /** The step supersedes the revision, on behalf of another. */
  predicate Disturbs(s: State, st: Step, rev: RevId) {
    st.Supersede? && st.call in s.calls && s.calls[st.call].rev != rev && IsActive(s.panel, rev)
  }

  /** What it does to the revision's state: a verdict counted before is written, or another revision supersedes it. */
  lemma PushingState(w: Wire, s: State, st: Step, rev: RevId)
    requires Can(w, s, st) && Pushing(st) && rev in s.panel.revisions
    ensures StateOf(Do(w, s, st), rev) ==
            if st.Promote? && s.calls[st.call].rev == rev then Some(s.calls[st.call].phase.verdict)
            else if Disturbs(s, st, rev) then Some(Superseded) else StateOf(s, rev)
  {
    hide Verdict;
  }

  ghost predicate PushesOnly(steps: seq<Step>) {
    forall st :: st in steps ==> Pushing(st)
  }

  predicate Begins(st: Step, rev: RevId, n: NodeId) {
    st.Begin? && st.rev == rev && st.node == n
  }

  /** The run starts a push of the revision to the node. */
  ghost predicate Called(steps: seq<Step>, rev: RevId, n: NodeId) {
    exists st :: st in steps && Begins(st, rev, n)
  }

  lemma CalledFirst(steps: seq<Step>, rev: RevId, n: NodeId)
    requires steps != []
    ensures Called(steps, rev, n) <==> Begins(steps[0], rev, n) || Called(steps[1..], rev, n)
  {
    if st :| st in steps && Begins(st, rev, n) {
      assert st == steps[0] || st in steps[1..];
    }
    if st :| st in steps[1..] && Begins(st, rev, n) {
      assert st in steps;
    }
    if Begins(steps[0], rev, n) { assert steps[0] in steps; }
  }

  lemma PushesFirst(steps: seq<Step>)
    requires steps != [] && PushesOnly(steps)
    ensures Pushing(steps[0]) && PushesOnly(steps[1..])
  {
    assert steps[0] in steps;
    forall st | st in steps[1..] ensures Pushing(st) { assert st in steps; }
  }

  // ----- rows -----

  /** The row is applied, or a call for it has not been noted yet. */
  ghost predicate Due(s: State, rev: RevId, n: NodeId) {
    || (n in RowsOf(s.panel, rev) && RowsOf(s.panel, rev)[n] == Applied)
    || exists c :: Unnoted(s, rev, n, c)
  }

  predicate Unnoted(s: State, rev: RevId, n: NodeId, c: nat) {
    && c in s.calls && s.calls[c].rev == rev && s.calls[c].node == n
    && (s.calls[c].phase.Sent? || s.calls[c].phase.Answered? || s.calls[c].phase.Refused?)
  }

  lemma DueStep(w: Wire, s: State, st: Step, rev: RevId, n: NodeId)
    requires Can(w, s, st) && Pushing(st) && NoneAbandoned(s) && n in RowsOf(s.panel, rev)
    ensures Due(Do(w, s, st), rev, n) <==> Due(s, rev, n) || Begins(st, rev, n)
  {
    var t := Do(w, s, st);
    PushingRows(w, s, st, rev);
    if c :| Unnoted(s, rev, n, c) {
      UnnotedStep(w, s, st, rev, n, c);
    }
    if Begins(st, rev, n) { assert Unnoted(t, rev, n, st.call); }
    if c :| Unnoted(t, rev, n, c) {
      UnnotedCameFrom(w, s, st, rev, n, c);
    }
    hide Can, Do, Pushing, NoneAbandoned;
    assert st.Note? && s.calls[st.call].rev == rev ==> Unnoted(s, rev, s.calls[st.call].node, st.call) by { NotedWasUnnoted(w, s, st); }
  }

  lemma NotedWasUnnoted(w: Wire, s: State, st: Step)
    requires Can(w, s, st)
    ensures st.Note? ==> st.call in s.calls && Unnoted(s, s.calls[st.call].rev, s.calls[st.call].node, st.call)
  {
  }

  lemma UnnotedStep(w: Wire, s: State, st: Step, rev: RevId, n: NodeId, c: nat)
    requires Can(w, s, st) && Pushing(st) && NoneAbandoned(s) && Unnoted(s, rev, n, c)
    ensures Unnoted(Do(w, s, st), rev, n, c) || st == Note(c)
  {
    hide Verdict;
  }

  lemma UnnotedCameFrom(w: Wire, s: State, st: Step, rev: RevId, n: NodeId, c: nat)
    requires Can(w, s, st) && Unnoted(Do(w, s, st), rev, n, c)
    ensures Unnoted(s, rev, n, c) || Begins(st, rev, n) || st.GiveUp? || (c in s.calls && s.calls[c].phase.Abandoned?)
  {
    hide Verdict;
  }

  /** The revision has rows for the same nodes, and those not due are as they were. */
  ghost predicate RowsKept(s: State, t: State, rev: RevId) {
    && RowsOf(t.panel, rev).Keys == RowsOf(s.panel, rev).Keys
    && forall n :: n in RowsOf(s.panel, rev) && !Due(t, rev, n) ==> RowsOf(t.panel, rev)[n] == RowsOf(s.panel, rev)[n]
  }

  lemma RowsKeptStep(w: Wire, s: State, st: Step, rev: RevId)
    requires Inv(w, s) && Can(w, s, st) && Pushing(st) && NoneAbandoned(s)
    ensures RowsKept(s, Do(w, s, st), rev)
  {
    PushingRows(w, s, st, rev);
    if st.Note? { assert CallOk(w, s, s.calls[st.call]); }
    hide Inv, Pushing;
  }

  /** Over a run: the rows due are those that were, and those of the nodes called. */
  lemma {:induction false} DueRun(w: Wire, s: State, steps: seq<Step>, rev: RevId)
    requires Inv(w, s) && Runs(w, s, steps) && PushesOnly(steps) && NoneAbandoned(s)
    ensures var t := End(w, s, steps);
            RowsKept(s, t, rev) && forall n :: n in RowsOf(s.panel, rev) ==> (Due(t, rev, n) <==> Due(s, rev, n) || Called(steps, rev, n))
    decreases |steps|
  {
    hide Inv, Can, Do, Pushing, NoneAbandoned, Due, RowsOf, PushesOnly, Called;
    if steps != [] {
      var st, rest := steps[0], steps[1..];
      var t, u := Do(w, s, st), End(w, s, steps);
      PushesFirst(steps);
      PushingRows(w, s, st, rev);
      StepKeepsInv(w, s, st);
      RowsKeptStep(w, s, st, rev);
      DueRun(w, t, rest, rev);
      forall n | n in RowsOf(s.panel, rev)
        ensures Due(u, rev, n) <==> Due(s, rev, n) || Called(steps, rev, n)
        ensures !Due(u, rev, n) ==> RowsOf(u.panel, rev)[n] == RowsOf(s.panel, rev)[n] {
        CalledFirst(steps, rev, n);
        DueStep(w, s, st, rev, n);
      }
    } else {
      NoneCalled();
    }
  }

  lemma NoneCalled()
    ensures forall rev, n :: !Called([], rev, n)
  {
  }

  // ----- the revision's state -----

  /** The verdict being written is the one the rows still give: no other call changed them since it was counted. */
  predicate Current(s: State, st: Step, rev: RevId) {
    st.Promote? && st.call in s.calls && s.calls[st.call].rev == rev && s.calls[st.call].phase.Counted? ==>
      Verdict(s.panel, rev) == Some(s.calls[st.call].phase.verdict)
  }

  /** No verdict written for the revision is outdated. */
  ghost predicate CurrentRun(w: Wire, s: State, steps: seq<Step>, rev: RevId)
    requires Runs(w, s, steps)
    decreases |steps|
  {
    steps == [] || (Current(s, steps[0], rev) && CurrentRun(w, Do(w, s, steps[0]), steps[1..], rev))
  }

  /** No other revision supersedes this one. */
  ghost predicate Undisturbed(w: Wire, s: State, steps: seq<Step>, rev: RevId)
    requires Runs(w, s, steps)
    decreases |steps|
  {
    steps == [] || (!Disturbs(s, steps[0], rev) && Undisturbed(w, Do(w, s, steps[0]), steps[1..], rev))
  }

  /** The revision's state is the verdict of its rows, if they give one, or a call will take it. */
  ghost predicate Taken(s: State, rev: RevId) {
    Verdict(s.panel, rev).None? || StateOf(s, rev) == Verdict(s.panel, rev) || Reconciler(s, rev)
  }

  /** Or a call is still to be noted. */
  ghost predicate Opened(s: State, rev: RevId) {
    Taken(s, rev) || exists n, c :: Unnoted(s, rev, n, c)
  }

  /** The step is one of a call for the revision. */
  predicate Owns(s: State, st: Step, rev: RevId) {
    (st.Note? || st.Count? || st.Promote?) && st.call in s.calls && s.calls[st.call].rev == rev
  }

  lemma OpenedStep(w: Wire, s: State, st: Step, rev: RevId)
    requires Can(w, s, st) && Pushing(st) && NoneAbandoned(s) && Current(s, st, rev) && !Disturbs(s, st, rev)
    requires rev in s.panel.revisions && (Opened(s, rev) || (st.Begin? && st.rev == rev))
    ensures Opened(Do(w, s, st), rev)
  {
    var t := Do(w, s, st);
    if st.Begin? && st.rev == rev {
      assert Unnoted(t, rev, st.node, st.call);
    } else if n, c :| Unnoted(s, rev, n, c) {
      UnnotedStep(w, s, st, rev, n, c);
      if st == Note(c) { NotedReconciles(w, s, st, rev); }
    } else {
      TakenStep(w, s, st, rev);
    }
  }

  lemma NotedReconciles(w: Wire, s: State, st: Step, rev: RevId)
    requires Can(w, s, st) && st.Note? && s.calls[st.call].rev == rev
    ensures Taken(Do(w, s, st), rev)
  {
    var t := Do(w, s, st);
    assert st.call in t.calls && t.calls[st.call].rev == rev && t.calls[st.call].phase.Noted?;
    hide Verdict;
  }

  lemma TakenStep(w: Wire, s: State, st: Step, rev: RevId)
    requires Can(w, s, st) && Pushing(st) && NoneAbandoned(s) && Current(s, st, rev) && !Disturbs(s, st, rev)
    requires rev in s.panel.revisions && Taken(s, rev)
    ensures Taken(Do(w, s, st), rev)
  {
    var t := Do(w, s, st);
    PushingRows(w, s, st, rev);
    PushingState(w, s, st, rev);
    if Owns(s, st, rev) && st.Note? {
      NotedReconciles(w, s, st, rev);
      return;
    }
    VerdictOfRows(s.panel, t.panel, rev);
    if Owns(s, st, rev) && st.Promote? {
      hide Verdict, Reconciler;
    } else if Owns(s, st, rev) && st.Count? {
      CountedTakes(w, s, st, rev);
    } else {
      if Reconciler(s, rev) { ReconcilerStays(w, s, st, rev); }
      hide Verdict, Reconciler, Do;
    }
  }

  lemma VerdictOfRows(p: Tables, q: Tables, rev: RevId)
    requires RowsOf(p, rev) == RowsOf(q, rev)
    ensures Verdict(p, rev) == Verdict(q, rev)
  {
    assert forall d :: InState(p, rev, d) == InState(q, rev, d);
  }

  lemma CountedTakes(w: Wire, s: State, st: Step, rev: RevId)
    requires Can(w, s, st) && st.Count? && s.calls[st.call].rev == rev
    ensures Taken(Do(w, s, st), rev)
  {
    hide Verdict;
    var t := Do(w, s, st);
    assert t.panel == s.panel;
    if Verdict(s.panel, rev).Some? {
      assert st.call in t.calls && t.calls[st.call].rev == rev && t.calls[st.call].phase.Counted?;
    }
  }

  lemma ReconcilerStays(w: Wire, s: State, st: Step, rev: RevId)
    requires Can(w, s, st) && Pushing(st) && Reconciler(s, rev) && !(Owns(s, st, rev) && !st.Note?)
    ensures Reconciler(Do(w, s, st), rev)
  {
    hide Verdict;
    var t := Do(w, s, st);
    var k :| k in s.calls && s.calls[k].rev == rev
      && (s.calls[k].phase.Noted? || s.calls[k].phase.Reported? || s.calls[k].phase.Counted?);
    assert k in t.calls && t.calls[k].rev == rev
      && (t.calls[k].phase.Noted? || t.calls[k].phase.Reported? || t.calls[k].phase.Counted?);
  }

  /** Once a push has begun, the state comes to be the verdict of the rows. */
  lemma {:induction false} OpenedRun(w: Wire, s: State, steps: seq<Step>, rev: RevId)
    requires Runs(w, s, steps) && PushesOnly(steps) && CurrentRun(w, s, steps, rev) && Undisturbed(w, s, steps, rev)
    requires NoneAbandoned(s) && rev in s.panel.revisions
    requires Opened(s, rev) || exists n :: Called(steps, rev, n)
    ensures Opened(End(w, s, steps), rev)
    decreases |steps|
  {
    hide Can, Do, Pushing, NoneAbandoned, Opened, PushesOnly, Called, Current, Disturbs;
    if steps == [] {
      NoneCalled();
    } else {
      var st, rest := steps[0], steps[1..];
      PushesFirst(steps);
      PushingRows(w, s, st, rev);
      PushingState(w, s, st, rev);
      if Opened(s, rev) || (st.Begin? && st.rev == rev) {
        OpenedStep(w, s, st, rev);
      } else {
        var n :| Called(steps, rev, n);
        CalledFirst(steps, rev, n);
      }
      OpenedRun(w, Do(w, s, st), rest, rev);
    }
  }

  /** No call for the revision has a verdict to write. */
  ghost predicate NoneCounted(s: State, rev: RevId) {
    forall c :: c in s.calls && s.calls[c].rev == rev ==> !s.calls[c].phase.Counted?
  }

  ghost predicate NoCallsFor(s: State, rev: RevId) {
    forall c :: c in s.calls ==> s.calls[c].rev != rev
  }

  /** Nothing moves the state of a revision that nobody calls, but another's superseding. */
  lemma {:induction false} UncalledRun(w: Wire, s: State, steps: seq<Step>, rev: RevId)
    requires Runs(w, s, steps) && PushesOnly(steps) && NoCallsFor(s, rev) && Undisturbed(w, s, steps, rev)
    requires rev in s.panel.revisions && forall n :: !Called(steps, rev, n)
    ensures StateOf(End(w, s, steps), rev) == StateOf(s, rev)
    decreases |steps|
  {
    hide PushesOnly, Called, Disturbs, StateOf, NoCallsFor, Can, Do, Pushing;
    if steps != [] {
      var st := steps[0];
      PushesFirst(steps);
      CalledFirst(steps, rev, if st.Begin? then st.node else "");
      forall n ensures !Called(steps[1..], rev, n) { CalledFirst(steps, rev, n); }
      UncalledStep(w, s, st, rev);
      UncalledRun(w, Do(w, s, st), steps[1..], rev);
    }
  }

  lemma UncalledStep(w: Wire, s: State, st: Step, rev: RevId)
    requires Can(w, s, st) && Pushing(st) && NoCallsFor(s, rev) && !Disturbs(s, st, rev)
    requires rev in s.panel.revisions && (st.Begin? ==> st.rev != rev)
    ensures var t := Do(w, s, st); rev in t.panel.revisions && NoCallsFor(t, rev) && StateOf(t, rev) == StateOf(s, rev)
  {
    PushingState(w, s, st, rev);
    hide Verdict;
  }

  lemma PendingStep(w: Wire, s: State, st: Step, rev: RevId, n: NodeId)
    requires Can(w, s, st) && Pushing(st) && rev in s.panel.revisions && NoneCounted(s, rev) && !Disturbs(s, st, rev)
    requires n in RowsOf(s.panel, rev) && RowsOf(s.panel, rev)[n] == Pending
    ensures NoneCounted(Do(w, s, st), rev) && StateOf(Do(w, s, st), rev) == StateOf(s, rev)
  {
    PendingMeansNoVerdict(s.panel, rev, n);
    PushingState(w, s, st, rev);
    hide Verdict;
  }

  /** While a row is pending and nobody calls its node, no verdict is taken. */
  lemma {:induction false} PendingRun(w: Wire, s: State, steps: seq<Step>, rev: RevId, n: NodeId)
    requires Inv(w, s) && Runs(w, s, steps) && PushesOnly(steps) && Undisturbed(w, s, steps, rev)
    requires NoneAbandoned(s) && rev in s.panel.revisions && NoneCounted(s, rev)
    requires n in RowsOf(s.panel, rev) && RowsOf(s.panel, rev)[n] == Pending && !Due(s, rev, n) && !Called(steps, rev, n)
    ensures StateOf(End(w, s, steps), rev) == StateOf(s, rev)
    decreases |steps|
  {
    hide Inv, Can, Do, Pushing, NoneAbandoned, PushesOnly, Called, Due, NoneCounted, RowsOf, Disturbs;
    if steps != [] {
      var st := steps[0];
      PushesFirst(steps);
      CalledFirst(steps, rev, n);
      StepKeepsInv(w, s, st);
      PushingRows(w, s, st, rev);
      PushingState(w, s, st, rev);
      RowsKeptStep(w, s, st, rev);
      DueStep(w, s, st, rev, n);
      PendingStep(w, s, st, rev, n);
      PendingRun(w, Do(w, s, st), steps[1..], rev, n);
    }
  }

  // ----- what pushes come to -----

  /** The row of every node is applied, or its node is called. */
  ghost predicate Covered(s: State, rev: RevId, steps: seq<Step>) {
    forall n :: n in RowsOf(s.panel, rev) ==> RowsOf(s.panel, rev)[n] == Applied || Called(steps, rev, n)
  }

  /** The rows with those of the nodes called applied. */
  ghost function CalledRows(rows: map<NodeId, DeployState>, steps: seq<Step>, rev: RevId): map<NodeId, DeployState> {
    map n | n in rows :: if Called(steps, rev, n) then Applied else rows[n]
  }

  /** A row is pending and nobody calls its node. */
  ghost predicate LeftPending(s: State, rev: RevId, steps: seq<Step>) {
    exists n :: n in RowsOf(s.panel, rev) && RowsOf(s.panel, rev)[n] == Pending && !Called(steps, rev, n)
  }

  lemma DueWhenIdle(s: State, rev: RevId, n: NodeId)
    requires s.calls == map[]
    ensures Due(s, rev, n) <==> n in RowsOf(s.panel, rev) && RowsOf(s.panel, rev)[n] == Applied
  {
  }

  /** The verdict on rows none of which is pending. */
  lemma FullVerdict(p: Tables, rev: RevId, n: NodeId)
    requires n in RowsOf(p, rev) && RowsOf(p, rev)[n] == Applied
    requires forall m :: m in RowsOf(p, rev) ==> RowsOf(p, rev)[m] != Pending
    ensures Verdict(p, rev) == Some(if AllApplied(p, rev) then Active else PartiallyActive)
  {
    InStateParts(p, rev);
    ActiveMeansAllApplied(p, rev);
    assert n in InState(p, rev, Applied);
    assert InState(p, rev, Pending) == {};
  }

  /** Nobody was called for the revision, or a pending row was left out. */
  ghost predicate Unmoved(s: State, rev: RevId, steps: seq<Step>) {
    (forall n :: !Called(steps, rev, n)) || LeftPending(s, rev, steps)
  }

  lemma UnmovedKeeps(w: Wire, s: State, steps: seq<Step>, rev: RevId)
    requires Inv(w, s) && Runs(w, s, steps) && PushesOnly(steps) && Undisturbed(w, s, steps, rev)
    requires s.calls == map[] && rev in s.panel.revisions && Unmoved(s, rev, steps)
    ensures StateOf(End(w, s, steps), rev) == StateOf(s, rev)
  {
    hide Inv, RowsOf, Called, Due, Runs, End, PushesOnly, Undisturbed;
    if forall n :: !Called(steps, rev, n) {
      UncalledRun(w, s, steps, rev);
    } else {
      var n :| n in RowsOf(s.panel, rev) && RowsOf(s.panel, rev)[n] == Pending && !Called(steps, rev, n);
      DueWhenIdle(s, rev, n);
      PendingRun(w, s, steps, rev, n);
    }
  }

  /**
   * Every run of pushes, of one or more revisions and however they overlap, that starts and
   * ends with no call under way. The rows of each revision: those of the nodes called for it
   * end applied, and the others stay. Its state, unless another revision supersedes it or an
   * outdated verdict is written: active exactly when every row was applied or called, and
   * else partially active, but as before if nobody was called or a pending row was left out.
   */
  lemma PushesActivateIff(w: Wire, s: State, steps: seq<Step>, rev: RevId)
    requires Inv(w, s) && Runs(w, s, steps) && PushesOnly(steps)
    requires s.calls == map[] && End(w, s, steps).calls == map[] && rev in s.panel.revisions
    ensures var t := End(w, s, steps);
            && RowsOf(t.panel, rev) == CalledRows(RowsOf(s.panel, rev), steps, rev)
            && (Undisturbed(w, s, steps, rev) && CurrentRun(w, s, steps, rev) ==>
                  StateOf(t, rev) == if Unmoved(s, rev, steps) then StateOf(s, rev)
                                     else Some(if Covered(s, rev, steps) then Active else PartiallyActive))
  {
    RowsAfter(w, s, steps, rev);
    hide Inv, RowsOf, Called, Due, CalledRows, Runs, End, PushesOnly, CurrentRun, Verdict, Covered, Undisturbed;
    if Undisturbed(w, s, steps, rev) && CurrentRun(w, s, steps, rev) {
      if Unmoved(s, rev, steps) {
        UnmovedKeeps(w, s, steps, rev);
      } else {
        var n :| Called(steps, rev, n);
        CalledHasRow(w, s, steps, rev, n);
        CoveredVerdict(s, End(w, s, steps), steps, rev, n);
        OpenedRun(w, s, steps, rev);
        OpenedAtRest(End(w, s, steps), rev);
      }
    }
  }

  lemma OpenedAtRest(s: State, rev: RevId)
    requires s.calls == map[] && Opened(s, rev)
    ensures Verdict(s.panel, rev).None? || StateOf(s, rev) == Verdict(s.panel, rev)
  {
    assert !Reconciler(s, rev) && forall n, c :: !Unnoted(s, rev, n, c);
    hide Verdict;
  }

  lemma CoveredVerdict(s: State, t: State, steps: seq<Step>, rev: RevId, n: NodeId)
    requires RowsOf(t.panel, rev) == CalledRows(RowsOf(s.panel, rev), steps, rev)
    requires n in RowsOf(s.panel, rev) && Called(steps, rev, n) && !LeftPending(s, rev, steps)
    ensures Verdict(t.panel, rev) == Some(if Covered(s, rev, steps) then Active else PartiallyActive)
  {
    hide Called, Verdict, RowsOf;
    assert forall m :: m in RowsOf(s.panel, rev) && RowsOf(s.panel, rev)[m] == Pending ==> Called(steps, rev, m);
    FullVerdict(t.panel, rev, n);
    if AllApplied(t.panel, rev) {
      forall m | m in RowsOf(s.panel, rev) ensures RowsOf(s.panel, rev)[m] == Applied || Called(steps, rev, m) {
        assert RowsOf(t.panel, rev)[m] == Applied;
      }
    }
  }

  lemma RowsAfter(w: Wire, s: State, steps: seq<Step>, rev: RevId)
    requires Inv(w, s) && Runs(w, s, steps) && PushesOnly(steps)
    requires s.calls == map[] && End(w, s, steps).calls == map[]
    ensures RowsOf(End(w, s, steps).panel, rev) == CalledRows(RowsOf(s.panel, rev), steps, rev)
  {
    var t := End(w, s, steps);
    DueRun(w, s, steps, rev);
    forall n ensures (Due(s, rev, n) <==> n in RowsOf(s.panel, rev) && RowsOf(s.panel, rev)[n] == Applied)
               && (Due(t, rev, n) <==> n in RowsOf(t.panel, rev) && RowsOf(t.panel, rev)[n] == Applied) {
      DueWhenIdle(s, rev, n);
      DueWhenIdle(t, rev, n);
    }
    hide Inv, Called, Runs, End, Due, RowsOf, PushesOnly;
  }

  /** Only nodes with a row are called. */
  lemma {:induction false} CalledHasRow(w: Wire, s: State, steps: seq<Step>, rev: RevId, n: NodeId)
    requires Inv(w, s) && Runs(w, s, steps) && PushesOnly(steps) && NoneAbandoned(s) && Called(steps, rev, n)
    ensures n in RowsOf(s.panel, rev)
    decreases |steps|
  {
    hide Inv, PushesOnly, Called, NoneAbandoned, Do, RowsOf;
    if steps == [] {
      NoneCalled();
    } else {
      var st := steps[0];
      PushesFirst(steps);
      CalledFirst(steps, rev, n);
      if !Begins(st, rev, n) {
        StepKeepsInv(w, s, st);
        PushingRows(w, s, st, rev);
        RowsKeptStep(w, s, st, rev);
        hide Can, Pushing;
        CalledHasRow(w, Do(w, s, st), steps[1..], rev, n);
      }
    }
  }

  // ----- a rollout -----

  /** No row of the revision failed. */
  predicate NoneFailed(s: State, rev: RevId) {
    forall n :: n in RowsOf(s.panel, rev) ==> RowsOf(s.panel, rev)[n] != Failed
  }

  /** Verdicts about to be written for the revision are active, and right. */
  ghost predicate CountedRight(s: State, rev: RevId) {
    forall c :: c in s.calls && s.calls[c].rev == rev && s.calls[c].phase.Counted? ==>
      s.calls[c].phase.verdict == Active && Verdict(s.panel, rev) == Some(Active)
  }

  lemma CleanVerdict(p: Tables, rev: RevId)
    requires forall n :: n in RowsOf(p, rev) ==> RowsOf(p, rev)[n] != Failed
    ensures Verdict(p, rev) in {None, Some(Active)}
  {
    InStateParts(p, rev);
    assert InState(p, rev, Failed) == {};
  }

  lemma CountedCameFrom(w: Wire, s: State, st: Step, c: nat)
    requires Can(w, s, st) && c in Do(w, s, st).calls && Do(w, s, st).calls[c].phase.Counted?
    ensures var call := Do(w, s, st).calls[c];
            (c in s.calls && s.calls[c] == call)
            || (st.Count? && Verdict(s.panel, call.rev) == Some(call.phase.verdict))
  {
    hide Verdict;
  }

  /** Applied rows stay so, and with them the verdict that all are. */
  lemma ActiveVerdictStays(w: Wire, s: State, st: Step, rev: RevId)
    requires Can(w, s, st) && Pushing(st) && NoneAbandoned(s)
    ensures NoneAbandoned(Do(w, s, st)) && (NoneFailed(s, rev) ==> NoneFailed(Do(w, s, st), rev))
    ensures Verdict(s.panel, rev) == Some(Active) ==> Verdict(Do(w, s, st).panel, rev) == Some(Active)
  {
    PushingRows(w, s, st, rev);
    ActiveMeansAllApplied(s.panel, rev);
    ActiveMeansAllApplied(Do(w, s, st).panel, rev);
    hide Do, Verdict, RowsOf, Pushing, NoneAbandoned;
  }

  lemma CleanStep(w: Wire, s: State, st: Step, rev: RevId)
    requires Can(w, s, st) && Pushing(st) && NoneAbandoned(s) && NoneFailed(s, rev) && CountedRight(s, rev)
    ensures Current(s, st, rev) && NoneFailed(Do(w, s, st), rev) && CountedRight(Do(w, s, st), rev)
  {
    var t := Do(w, s, st);
    ActiveVerdictStays(w, s, st, rev);
    CleanVerdict(s.panel, rev);
    hide Verdict, Do, Can, Pushing, NoneFailed, RowsOf;
    forall c | c in t.calls && t.calls[c].rev == rev && t.calls[c].phase.Counted?
      ensures t.calls[c].phase.verdict == Active && Verdict(t.panel, rev) == Some(Active) {
      CountedCameFrom(w, s, st, c);
    }
  }

  /** Where no row failed, no verdict written is outdated. */
  lemma {:induction false} CleanIsCurrent(w: Wire, s: State, steps: seq<Step>, rev: RevId)
    requires Runs(w, s, steps) && PushesOnly(steps) && NoneAbandoned(s) && NoneFailed(s, rev) && CountedRight(s, rev)
    ensures CurrentRun(w, s, steps, rev)
    decreases |steps|
  {
    hide Can, Do, Pushing, NoneAbandoned, PushesOnly, NoneFailed, CountedRight, Current;
    if steps != [] {
      PushesFirst(steps);
      PushingRows(w, s, steps[0], rev);
      CleanStep(w, s, steps[0], rev);
      CleanIsCurrent(w, Do(w, s, steps[0]), steps[1..], rev);
    }
  }

  /** An idle deploying revision has a row that is not applied. */
  lemma DeployingIsIncomplete(w: Wire, s: State, rev: RevId)
    requires Inv(w, s) && s.calls == map[] && StateOf(s, rev) == Some(Deploying)
    ensures !AllApplied(s.panel, rev)
  {
    assert DeployOk(s) && !Reconciler(s, rev);
  }

  /**
   * Pushing a deploying revision none of whose rows failed, in any interleaving that answers
   * every call and in which no other revision supersedes it, activates it exactly when every
   * row not yet applied has its node called.
   */
  lemma RolloutActivates(w: Wire, s: State, steps: seq<Step>, rev: RevId)
    requires Inv(w, s) && Runs(w, s, steps) && PushesOnly(steps) && Undisturbed(w, s, steps, rev)
    requires s.calls == map[] && End(w, s, steps).calls == map[]
    requires StateOf(s, rev) == Some(Deploying) && NoneFailed(s, rev)
    ensures IsActive(End(w, s, steps).panel, rev) <==> Covered(s, rev, steps)
  {
    CleanIsCurrent(w, s, steps, rev);
    PushesActivateIff(w, s, steps, rev);
    DeployingIsIncomplete(w, s, rev);
    hide Inv, Runs, End, PushesOnly, CurrentRun, Called, Undisturbed;
  }

  // ----- when another revision supersedes -----

  /** A row is not applied, and nobody calls its node for the revision. */
  ghost predicate LeftOut(s: State, rev: RevId, steps: seq<Step>, n: NodeId) {
    n in RowsOf(s.panel, rev) && RowsOf(s.panel, rev)[n] != Applied && !Called(steps, rev, n)
  }

  /** No call is about to write the revision active, or has. */
  ghost predicate NoneActivating(s: State, rev: RevId) {
    forall c :: c in s.calls && s.calls[c].rev == rev ==> s.calls[c].phase != Counted(Active) && !s.calls[c].phase.Superseding?
  }

  predicate SupersedesFor(s: State, st: Step, q: RevId) {
    st.Supersede? && st.call in s.calls && s.calls[st.call].rev == q
  }

  lemma LeftOutStep(w: Wire, s: State, st: Step, rev: RevId, n: NodeId)
    requires Can(w, s, st) && Pushing(st) && NoneActivating(s, rev)
    requires n in RowsOf(s.panel, rev) && RowsOf(s.panel, rev)[n] != Applied
    ensures NoneActivating(Do(w, s, st), rev) && (IsActive(Do(w, s, st).panel, rev) ==> IsActive(s.panel, rev))
    ensures !SupersedesFor(s, st, rev)
  {
    ActiveMeansAllApplied(s.panel, rev);
    hide Verdict;
  }

  /** A revision with a row left out never activates, nor supersedes another. */
  lemma {:induction false} LeftOutRun(w: Wire, s: State, steps: seq<Step>, rev: RevId, n: NodeId)
    requires Inv(w, s) && Runs(w, s, steps) && PushesOnly(steps) && NoneAbandoned(s) && NoneActivating(s, rev)
    requires LeftOut(s, rev, steps, n) && !Due(s, rev, n)
    ensures IsActive(End(w, s, steps).panel, rev) ==> IsActive(s.panel, rev)
    decreases |steps|
  {
    hide Inv, Can, Do, Pushing, NoneAbandoned, PushesOnly, Called, Due, NoneActivating, RowsOf, IsActive;
    if steps != [] {
      LeftOutNext(w, s, steps, rev, n);
      LeftOutStep(w, s, steps[0], rev, n);
      LeftOutRun(w, Do(w, s, steps[0]), steps[1..], rev, n);
    }
  }

  lemma LeftOutNext(w: Wire, s: State, steps: seq<Step>, rev: RevId, n: NodeId)
    requires Inv(w, s) && Runs(w, s, steps) && PushesOnly(steps) && NoneAbandoned(s) && steps != []
    requires LeftOut(s, rev, steps, n) && !Due(s, rev, n)
    ensures var t := Do(w, s, steps[0]);
            && Inv(w, t) && PushesOnly(steps[1..]) && Pushing(steps[0]) && NoneAbandoned(t)
            && LeftOut(t, rev, steps[1..], n) && !Due(t, rev, n)
  {
    var st := steps[0];
    hide Inv, Can, Do, Pushing, NoneAbandoned, PushesOnly, Called, Due, RowsOf;
    PushesFirst(steps);
    CalledFirst(steps, rev, n);
    StepKeepsInv(w, s, st);
    PushingRows(w, s, st, rev);
    RowsKeptStep(w, s, st, rev);
    DueStep(w, s, st, rev, n);
  }

  /** A revision that can supersede others in the run: somebody calls it, and every row is applied or called. */
  ghost predicate Rival(s: State, q: RevId, steps: seq<Step>) {
    (exists n :: Called(steps, q, n)) && Covered(s, q, steps)
  }

  /** The revision has no call to supersede others, and will have none. */
  ghost predicate Harmless(s: State, q: RevId, steps: seq<Step>) {
    && NoneActivating(s, q)
    && ((NoCallsFor(s, q) && forall n :: !Called(steps, q, n)) || exists n :: LeftOut(s, q, steps, n) && !Due(s, q, n))
  }

  lemma HarmlessNext(w: Wire, s: State, steps: seq<Step>, q: RevId)
    requires Inv(w, s) && Runs(w, s, steps) && PushesOnly(steps) && NoneAbandoned(s) && steps != [] && Harmless(s, q, steps)
    ensures Harmless(Do(w, s, steps[0]), q, steps[1..])
    ensures !SupersedesFor(s, steps[0], q)
  {
    var st := steps[0];
    hide Inv, Can, Do, Pushing, NoneAbandoned, PushesOnly, Called, Due, NoneActivating, NoCallsFor;
    if n :| LeftOut(s, q, steps, n) && !Due(s, q, n) {
      LeftOutNext(w, s, steps, q, n);
      LeftOutStep(w, s, st, q, n);
    } else {
      CalledFirst(steps, q, if st.Begin? then st.node else "");
      forall n ensures !Called(steps[1..], q, n) { CalledFirst(steps, q, n); }
      UncalledCalls(w, s, st, q);
    }
  }

  lemma UncalledCalls(w: Wire, s: State, st: Step, q: RevId)
    requires Can(w, s, st) && NoCallsFor(s, q) && (st.Begin? ==> st.rev != q)
    ensures NoCallsFor(Do(w, s, st), q) && NoneActivating(Do(w, s, st), q)
    ensures !SupersedesFor(s, st, q)
  {
    hide Verdict;
  }

  lemma {:induction false} HarmlessRun(w: Wire, s: State, steps: seq<Step>, rev: RevId)
    requires Inv(w, s) && Runs(w, s, steps) && PushesOnly(steps) && NoneAbandoned(s)
    requires forall q :: q != rev ==> Harmless(s, q, steps)
    ensures Undisturbed(w, s, steps, rev)
    decreases |steps|
  {
    hide Inv, Can, Do, PushesOnly, Harmless, NoneAbandoned;
    if steps != [] {
      var st := steps[0];
      forall q | q != rev
        ensures Harmless(Do(w, s, st), q, steps[1..]) && !SupersedesFor(s, st, q) {
        HarmlessNext(w, s, steps, q);
      }
      assert Disturbs(s, st, rev) ==> SupersedesFor(s, st, s.calls[st.call].rev);
      PushesFirst(steps);
      PushingRows(w, s, st, rev);
      StepKeepsInv(w, s, st);
      hide Runs, Pushing;
      HarmlessRun(w, Do(w, s, st), steps[1..], rev);
    }
  }

  /** In a run of pushes that starts with no call under way a revision is superseded only if it has a rival. */
  lemma OnlyRivalsDisturb(w: Wire, s: State, steps: seq<Step>, rev: RevId)
    requires Inv(w, s) && Runs(w, s, steps) && PushesOnly(steps) && s.calls == map[]
    requires forall q :: q != rev ==> !Rival(s, q, steps)
    ensures Undisturbed(w, s, steps, rev)
  {
    hide Inv, Runs, PushesOnly, Called, Undisturbed;
    forall q | q != rev ensures Harmless(s, q, steps) {
      if n :| LeftOut(s, q, steps, n) {
        DueWhenIdle(s, q, n);
        assert LeftOut(s, q, steps, n) && !Due(s, q, n);
      } else {
        forall n | n in RowsOf(s.panel, q) ensures RowsOf(s.panel, q)[n] == Applied || Called(steps, q, n) {
          assert !LeftOut(s, q, steps, n);
        }
        assert Covered(s, q, steps) && !Rival(s, q, steps);
      }
    }
    HarmlessRun(w, s, steps, rev);
  }
}
