/** When polling is sure to activate a revision, and the runs it goes wrong in when it is not. */
module Mending {
  import opened Collections
  import opened Panel
  import opened Rollout
  import opened Convergence
  import opened Activation
  import opened Polling

  // ----- runs built step by step -----

  /** The run pushes no other revision. */
  ghost predicate CallsOnly(steps: seq<Step>, rev: RevId) {
    forall st :: st in steps && st.Begin? ==> st.rev == rev
  }

  /** A polling run for one revision, in which no verdict written is outdated if `current`. */
  ghost predicate PollsFor(w: Wire, s: State, steps: seq<Step>, rev: RevId, current: bool) {
    Runs(w, s, steps) && PollRun(w, s, steps) && CallsOnly(steps, rev) && (current ==> CurrentRun(w, s, steps, rev))
  }

  /** `t` comes after `s` by such a run. */
  ghost predicate PollLeads(w: Wire, s: State, t: State, rev: RevId, current: bool) {
    exists steps :: PollsFor(w, s, steps, rev, current) && End(w, s, steps) == t
  }

  lemma PollLeadsSelf(w: Wire, s: State, rev: RevId, current: bool)
    ensures PollLeads(w, s, s, rev, current)
  {
    assert PollsFor(w, s, [], rev, current) && End(w, s, []) == s;
  }

  lemma {:induction false} OneMore(w: Wire, s: State, steps: seq<Step>, st: Step, rev: RevId)
    requires Runs(w, s, steps) && PollRun(w, s, steps)
    requires Can(w, End(w, s, steps), st) && Polls(w, End(w, s, steps), st)
    ensures Runs(w, s, steps + [st]) && PollRun(w, s, steps + [st])
    ensures End(w, s, steps + [st]) == Do(w, End(w, s, steps), st)
    ensures CurrentRun(w, s, steps, rev) && Current(End(w, s, steps), st, rev) ==> CurrentRun(w, s, steps + [st], rev)
    decreases |steps|
  {
    hide Can, Do, Polls, Current;
    if steps == [] {
      assert steps + [st] == [st] && [st][1..] == [];
    } else {
      OneMore(w, Do(w, s, steps[0]), steps[1..], st, rev);
      assert (steps + [st])[1..] == steps[1..] + [st];
    }
  }

  lemma PollLeadsStep(w: Wire, o: State, s: State, st: Step, rev: RevId, current: bool)
    requires PollLeads(w, o, s, rev, current) && Can(w, s, st) && Polls(w, s, st)
    requires (st.Begin? ==> st.rev == rev) && (current ==> Current(s, st, rev))
    ensures PollLeads(w, o, Do(w, s, st), rev, current)
  {
    hide Can, Do, Polls, Current, Runs, PollRun, End, CurrentRun;
    var steps :| PollsFor(w, o, steps, rev, current) && End(w, o, steps) == s;
    OneMore(w, o, steps, st, rev);
    assert PollsFor(w, o, steps + [st], rev, current);
  }

  // ----- one push -----

  /** Every target that lags is polled, and accepts its artifact. */
  ghost predicate Willing(w: Wire, s: State, rev: RevId) {
    forall n :: n in RowsOf(s.panel, rev) && Lags(w, s, rev, n) ==>
      s.panel.nodes[n].polled && n in ArtifactsOf(s.panel, rev) && w.accepts(n, ArtifactsOf(s.panel, rev)[n])
  }

  /** The targets in `done` run the revision and their rows are applied; nothing else that decides about it has changed. */
  ghost predicate Pushed(w: Wire, s: State, t: State, rev: RevId, done: set<NodeId>) {
    && SameGoals(s, t) && rev in t.panel.revisions
    && RowsOf(t.panel, rev) == Marks(RowsOf(s.panel, rev), done)
    && forall n :: AppliedRev(w, t, n) == if n in done then Some(rev) else AppliedRev(w, s, n)
  }

  function Marks(rows: map<NodeId, DeployState>, done: set<NodeId>): map<NodeId, DeployState> {
    map n | n in rows :: if n in done then Applied else rows[n]
  }

  lemma PushedSelf(w: Wire, s: State, rev: RevId)
    requires rev in s.panel.revisions
    ensures Pushed(w, s, s, rev, {})
  {
  }

  lemma PushedOn(w: Wire, s: State, t: State, u: State, rev: RevId, done: set<NodeId>, more: set<NodeId>)
    requires Pushed(w, s, t, rev, done) && Pushed(w, t, u, rev, more)
    ensures Pushed(w, s, u, rev, done + more)
  {
    hide AppliedRev, RowsOf;
  }

  lemma PushedLags(w: Wire, s: State, t: State, rev: RevId, done: set<NodeId>, n: NodeId)
    requires Pushed(w, s, t, rev, done)
    ensures Lags(w, t, rev, n) <==> Lags(w, s, rev, n) && n !in done
  {
    hide AppliedRev, RowsOf;
  }

  lemma PushedWilling(w: Wire, s: State, t: State, rev: RevId, done: set<NodeId>)
    requires Pushed(w, s, t, rev, done) && Willing(w, s, rev)
    ensures Willing(w, t, rev)
  {
    forall n ensures Lags(w, t, rev, n) <==> Lags(w, s, rev, n) && n !in done { PushedLags(w, s, t, rev, done, n); }
    hide AppliedRev, Lags;
  }

  /** The call of a push, in a given phase. */
  function PushOf(s: State, rev: RevId, n: NodeId, phase: Phase): Call
    requires n in ArtifactsOf(s.panel, rev)
  {
    Call(n, rev, ArtifactsOf(s.panel, rev)[n], phase)
  }

  lemma AnswerLeads(w: Wire, o: State, s: State, rev: RevId, n: NodeId, c: nat, current: bool) returns (t: State)
    requires PollLeads(w, o, s, rev, current) && c !in s.calls
    requires n in RowsOf(s.panel, rev) && Lags(w, s, rev, n)
    requires n in ArtifactsOf(s.panel, rev) && w.accepts(n, ArtifactsOf(s.panel, rev)[n])
    requires w.revOf(ArtifactsOf(s.panel, rev)[n]) == rev
    ensures PollLeads(w, o, t, rev, current)
    ensures var content := ArtifactsOf(s.panel, rev)[n];
            t == s.(running := s.running[n := content], ran := s.ran + {(n, rev)},
                    calls := s.calls[c := Call(n, rev, content, Answered(rev))])
  {
    hide PollLeads, RowsOf, ArtifactsOf, AppliedRev, Verdict;
    var content := ArtifactsOf(s.panel, rev)[n];
    var mid := s.(calls := s.calls[c := Call(n, rev, content, Sent)]);
    assert Do(w, s, Begin(c, rev, n)) == mid;
    PollLeadsStep(w, o, s, Begin(c, rev, n), rev, current);
    assert mid.calls[c := Call(n, rev, content, Answered(rev))] == s.calls[c := Call(n, rev, content, Answered(rev))];
    t := Do(w, mid, Deliver(c));
    PollLeadsStep(w, o, mid, Deliver(c), rev, current);
  }

  lemma ReportLeads(w: Wire, o: State, s: State, c: nat, rev: RevId, current: bool) returns (t: State)
    requires PollLeads(w, o, s, rev, current) && c in s.calls && s.calls[c].phase.Answered?
    ensures PollLeads(w, o, t, rev, current)
    ensures var call := s.calls[c];
            t == s.(panel := NodeReported(Recorded(s.panel, call.node, call.rev, Applied), call.node, Some(call.rev)),
                    acked := s.acked + {(call.node, call.rev)}, calls := s.calls[c := call.(phase := Reported)])
  {
    hide PollLeads, Recorded, NodeReported, Verdict;
    var call := s.calls[c];
    var mid := s.(panel := Recorded(s.panel, call.node, call.rev, Applied),
                  acked := s.acked + {(call.node, call.rev)}, calls := s.calls[c := call.(phase := Noted)]);
    assert Do(w, s, Note(c)) == mid;
    PollLeadsStep(w, o, s, Note(c), rev, current);
    assert mid.calls[c := call.(phase := Reported)] == s.calls[c := call.(phase := Reported)];
    t := Do(w, mid, Report(c));
    PollLeadsStep(w, o, mid, Report(c), rev, current);
  }

  lemma RecordedRows(p: Tables, n: NodeId, rev: RevId)
    requires n in RowsOf(p, rev)
    ensures var q := NodeReported(Recorded(p, n, rev, Applied), n, Some(rev));
            && RowsOf(q, rev) == Marks(RowsOf(p, rev), {n})
            && q.revisions == p.revisions && q.artifacts == p.artifacts && q.nodes.Keys == p.nodes.Keys
            && forall m :: m in p.nodes ==> q.nodes[m].desired == p.nodes[m].desired && q.nodes[m].polled == p.nodes[m].polled
  {
  }

  /** A target that lags is called, up to the point where its rows are to be counted. */
  lemma PushLeads(w: Wire, o: State, s: State, rev: RevId, n: NodeId, c: nat, current: bool) returns (t: State)
    requires Inv(w, s) && PollLeads(w, o, s, rev, current) && c !in s.calls && rev in s.panel.revisions
    requires n in RowsOf(s.panel, rev) && Lags(w, s, rev, n) && Willing(w, s, rev)
    ensures PollLeads(w, o, t, rev, current) && Pushed(w, s, t, rev, {n}) && t.panel.revisions == s.panel.revisions
    ensures t.calls == s.calls[c := PushOf(s, rev, n, Reported)]
  {
    assert RevisionOk(w, s.panel, rev);
    var content := ArtifactsOf(s.panel, rev)[n];
    hide Inv, PollLeads, RowsOf, ArtifactsOf, AppliedRev, Recorded, NodeReported, Pushed, Lags;
    var mid := AnswerLeads(w, o, s, rev, n, c, current);
    t := ReportLeads(w, o, mid, c, rev, current);
    assert t.calls == s.calls[c := Call(n, rev, content, Reported)];
    ReportedIsPushed(w, s, t, rev, n, content);
  }

  lemma ReportedIsPushed(w: Wire, s: State, t: State, rev: RevId, n: NodeId, content: Content)
    requires n in RowsOf(s.panel, rev) && rev in s.panel.revisions && w.revOf(content) == rev
    requires t.panel == NodeReported(Recorded(s.panel, n, rev, Applied), n, Some(rev)) && t.running == s.running[n := content]
    ensures Pushed(w, s, t, rev, {n}) && t.panel.revisions == s.panel.revisions
  {
    RecordedRows(s.panel, n, rev);
    assert forall m :: AppliedRev(w, t, m) == if m == n then Some(rev) else AppliedRev(w, s, m);
    hide RowsOf, AppliedRev, Recorded, NodeReported, Marks;
  }

  lemma PollLeadsInv(w: Wire, s: State, t: State, rev: RevId, current: bool)
    requires Inv(w, s) && PollLeads(w, s, t, rev, current)
    ensures Inv(w, t)
  {
    hide Inv, Runs, PollRun, End, CurrentRun;
    var steps :| PollsFor(w, s, steps, rev, current) && End(w, s, steps) == t;
    RunKeepsInv(w, s, steps);
  }

  // ----- a call's last steps -----

  lemma CountLeads(w: Wire, o: State, s: State, c: nat, rev: RevId, current: bool) returns (t: State)
    requires PollLeads(w, o, s, rev, current) && c in s.calls && s.calls[c].rev == rev && s.calls[c].phase.Reported?
    ensures PollLeads(w, o, t, rev, current)
    ensures t == s.(calls := match Verdict(s.panel, rev)
                             case None => s.calls - {c}
                             case Some(v) => s.calls[c := s.calls[c].(phase := Counted(v))])
  {
    hide PollLeads, Verdict;
    t := Do(w, s, Count(c));
    PollLeadsStep(w, o, s, Count(c), rev, current);
  }

  lemma PromoteLeads(w: Wire, o: State, s: State, c: nat, rev: RevId, current: bool) returns (t: State)
    requires PollLeads(w, o, s, rev, current) && c in s.calls && s.calls[c].rev == rev && s.calls[c].phase.Counted?
    requires rev in s.panel.revisions && (current ==> Verdict(s.panel, rev) == Some(s.calls[c].phase.verdict))
    ensures PollLeads(w, o, t, rev, current)
    ensures var v := s.calls[c].phase.verdict;
            && t.calls == (if v == Active then s.calls[c := s.calls[c].(phase := Superseding)] else s.calls - {c})
            && t.running == s.running && t.panel == s.panel.(revisions := t.panel.revisions) && StateOf(t, rev) == Some(v)
  {
    hide PollLeads, Verdict;
    t := Do(w, s, Promote(c));
    PollLeadsStep(w, o, s, Promote(c), rev, current);
  }

  lemma SupersedeLeads(w: Wire, o: State, s: State, c: nat, rev: RevId, current: bool) returns (t: State)
    requires PollLeads(w, o, s, rev, current) && c in s.calls && s.calls[c].rev == rev && s.calls[c].phase.Superseding?
    requires rev in s.panel.revisions
    ensures PollLeads(w, o, t, rev, current)
    ensures t.calls == s.calls - {c} && t.running == s.running && t.panel == s.panel.(revisions := t.panel.revisions)
    ensures StateOf(t, rev) == StateOf(s, rev)
  {
    hide PollLeads, Verdict;
    t := Do(w, s, Supersede(c));
    PollLeadsStep(w, o, s, Supersede(c), rev, current);
  }

  /** What deciding about a revision looks at besides its own state. */
  lemma PushedOtherwise(w: Wire, s: State, t: State, u: State, rev: RevId, done: set<NodeId>)
    requires Pushed(w, s, t, rev, done) && u.running == t.running && u.panel == t.panel.(revisions := u.panel.revisions)
    requires rev in u.panel.revisions
    ensures Pushed(w, s, u, rev, done)
  {
    assert RowsOf(u.panel, rev) == RowsOf(t.panel, rev);
    assert forall n :: AppliedRev(w, u, n) == AppliedRev(w, t, n);
    hide AppliedRev, RowsOf;
  }

  /** From a state with no call under way, one whole push. */
  lemma PushWhole(w: Wire, o: State, s: State, rev: RevId, n: NodeId, current: bool) returns (t: State)
    requires Inv(w, s) && PollLeads(w, o, s, rev, current) && s.calls == map[] && rev in s.panel.revisions
    requires n in RowsOf(s.panel, rev) && Lags(w, s, rev, n) && Willing(w, s, rev)
    ensures PollLeads(w, o, t, rev, current) && Pushed(w, s, t, rev, {n}) && t.calls == map[]
  {
    t := PushLeads(w, o, s, rev, n, 0, current);
    assert t.calls.Keys == {0} && t.calls[0].rev == rev && t.calls[0].phase == Reported;
    hide Inv, PollLeads, Pushed, Lags, Willing, Verdict, RowsOf, ArtifactsOf, PushOf;
    var u := CountLeads(w, o, t, 0, rev, current);
    PushedOtherwise(w, s, t, u, rev, {n});
    if Verdict(u.panel, rev).None? {
      t := u;
    } else {
      var v := PromoteLeads(w, o, u, 0, rev, current);
      PushedOtherwise(w, s, u, v, rev, {n});
      t := v;
      if 0 in v.calls {
        t := SupersedeLeads(w, o, v, 0, rev, current);
        PushedOtherwise(w, s, v, t, rev, {n});
      }
    }
    assert t.calls == map[];
  }

  /** Targets that lag, pushed one after the other. */
  lemma {:induction false} PushEach(w: Wire, o: State, s: State, rev: RevId, todo: set<NodeId>, current: bool) returns (t: State)
    requires Inv(w, o) && PollLeads(w, o, s, rev, current) && s.calls == map[] && rev in s.panel.revisions
    requires Willing(w, s, rev) && forall n :: n in todo ==> n in RowsOf(s.panel, rev) && Lags(w, s, rev, n)
    ensures PollLeads(w, o, t, rev, current) && Pushed(w, s, t, rev, todo) && t.calls == map[]
    decreases |todo|
  {
    if todo == {} {
      t := s;
      PushedSelf(w, s, rev);
    } else {
      var n :| n in todo;
      PollLeadsInv(w, o, s, rev, current);
      hide Inv, PollLeads, Lags, Willing;
      var u := PushWhole(w, o, s, rev, n, current);
      PushedWilling(w, s, u, rev, {n});
      forall m | m in todo - {n} ensures m in RowsOf(u.panel, rev) && Lags(w, u, rev, m) {
        PushedLags(w, s, u, rev, {n}, m);
      }
      t := PushEach(w, o, u, rev, todo - {n}, current);
      PushedOn(w, s, u, t, rev, {n}, todo - {n});
      assert {n} + (todo - {n}) == todo;
    }
  }

  function Laggards(w: Wire, s: State, rev: RevId): set<NodeId> {
    set n | n in RowsOf(s.panel, rev) && Lags(w, s, rev, n)
  }

  /** Polling for one revision can always come to rest, without writing an outdated verdict. */
  lemma CanRest(w: Wire, s: State, rev: RevId) returns (steps: seq<Step>)
    requires Inv(w, s) && s.calls == map[] && rev in s.panel.revisions && Willing(w, s, rev)
    ensures PollsToRest(w, s, steps, rev) && PollsFor(w, s, steps, rev, true)
    ensures Pushed(w, s, End(w, s, steps), rev, Laggards(w, s, rev))
  {
    var todo := Laggards(w, s, rev);
    PollLeadsSelf(w, s, rev, true);
    var t := PushEach(w, s, s, rev, todo, true);
    forall n | n in RowsOf(t.panel, rev) ensures !Lags(w, t, rev, n) { PushedLags(w, s, t, rev, todo, n); }
    hide Inv, Runs, PollRun, End, CurrentRun, Lags, Pushed, Laggards;
    steps :| PollsFor(w, s, steps, rev, true) && End(w, s, steps) == t;
  }

  /** A run that pushes one revision is not disturbed by others. */
  lemma SoloUndisturbed(w: Wire, s: State, steps: seq<Step>, rev: RevId)
    requires Inv(w, s) && s.calls == map[] && Runs(w, s, steps) && PollRun(w, s, steps) && CallsOnly(steps, rev)
    ensures Undisturbed(w, s, steps, rev)
  {
    PollRunIsQuiet(w, s, steps);
    hide Inv, Runs, PollRun, QuietRun, PushesOnly, Undisturbed;
    OnlyRivalsDisturb(w, s, steps, rev);
  }

  /** What such a run leaves of the revision's state. */
  lemma RestingState(w: Wire, s: State, rev: RevId, steps: seq<Step>)
    requires Inv(w, s) && s.calls == map[] && rev in s.panel.revisions
    requires PollsToRest(w, s, steps, rev) && PollsFor(w, s, steps, rev, true)
    ensures StateOf(End(w, s, steps), rev) == if !SomeLags(w, s, rev) || Unasked(w, s, rev) then StateOf(s, rev)
                                              else Some(if Mendable(w, s, rev) then Active else PartiallyActive)
  {
    hide Inv, Runs, PollRun, Undisturbed, CurrentRun, End, CallsOnly;
    SoloUndisturbed(w, s, steps, rev);
    PollingLeavesActiveIff(w, s, steps, rev);
  }

  // ----- two targets that lag, a failed row -----

  /** Two targets lag and one of their rows has failed. */
  ghost predicate Contested(w: Wire, s: State, rev: RevId, a: NodeId, b: NodeId) {
    && a != b && a in RowsOf(s.panel, rev) && b in RowsOf(s.panel, rev) && Lags(w, s, rev, a) && Lags(w, s, rev, b)
    && RowsOf(s.panel, rev)[b] == Failed
  }

  /** The two push overlapping: the first counts its rows before the second is noted, and writes after it. */
  lemma CrossedLeads(w: Wire, o: State, s: State, rev: RevId, a: NodeId, b: NodeId) returns (t: State)
    requires Inv(w, o) && PollLeads(w, o, s, rev, false) && s.calls == map[] && rev in s.panel.revisions && Willing(w, s, rev)
    requires Contested(w, s, rev, a, b)
    requires forall n :: n in RowsOf(s.panel, rev) && n != a && n != b ==> RowsOf(s.panel, rev)[n] == Applied
    ensures PollLeads(w, o, t, rev, false) && Pushed(w, s, t, rev, {a, b})
    ensures t.calls == map[] && StateOf(t, rev) == Some(PartiallyActive)
  {
    hide Inv, PollLeads, Lags, Willing, Verdict, AppliedRev, Pushed;
    PollLeadsInv(w, o, s, rev, false);
    var s1 := PushLeads(w, o, s, rev, a, 0, false);
    CrossedVerdicts(w, s, s1, rev, a, b);
    var s2 := CountLeads(w, o, s1, 0, rev, false);
    PushedOtherwise(w, s, s1, s2, rev, {a});
    PushedWilling(w, s, s2, rev, {a});
    PushedLags(w, s, s2, rev, {a}, b);
    PushedHas(w, s, s2, rev, {a}, b);
    PollLeadsInv(w, o, s2, rev, false);
    var s3 := PushLeads(w, o, s2, rev, b, 1, false);
    PushedOn(w, s, s2, s3, rev, {a}, {b});
    assert {a} + {b} == {a, b};
    CrossedActive(w, s, s3, rev, a, b);
    t := CrossedWrites(w, o, s, s3, rev, {a, b});
  }

  lemma CrossedVerdicts(w: Wire, s: State, t: State, rev: RevId, a: NodeId, b: NodeId)
    requires a != b && a in RowsOf(s.panel, rev) && b in RowsOf(s.panel, rev) && RowsOf(s.panel, rev)[b] == Failed
    requires forall n :: n in RowsOf(s.panel, rev) && n != a && n != b ==> RowsOf(s.panel, rev)[n] == Applied
    requires Pushed(w, s, t, rev, {a})
    ensures Verdict(t.panel, rev) == Some(PartiallyActive)
  {
    hide Verdict, RowsOf;
    assert RowsOf(t.panel, rev)[b] == Failed && RowsOf(t.panel, rev)[a] == Applied;
    FullVerdict(t.panel, rev, a);
  }

  lemma CrossedActive(w: Wire, s: State, t: State, rev: RevId, a: NodeId, b: NodeId)
    requires a in RowsOf(s.panel, rev) && Pushed(w, s, t, rev, {a, b})
    requires forall n :: n in RowsOf(s.panel, rev) && n != a && n != b ==> RowsOf(s.panel, rev)[n] == Applied
    ensures Verdict(t.panel, rev) == Some(Active)
  {
    ActiveMeansAllApplied(t.panel, rev);
    hide Verdict, RowsOf;
    assert a in RowsOf(t.panel, rev);
  }

  lemma CrossedWrites(w: Wire, o: State, s: State, s3: State, rev: RevId, done: set<NodeId>) returns (t: State)
    requires PollLeads(w, o, s3, rev, false) && Pushed(w, s, s3, rev, done) && Verdict(s3.panel, rev) == Some(Active)
    requires s3.calls.Keys == {0, 1} && s3.calls[0].rev == rev && s3.calls[1].rev == rev
    requires s3.calls[0].phase == Counted(PartiallyActive) && s3.calls[1].phase == Reported
    ensures PollLeads(w, o, t, rev, false) && Pushed(w, s, t, rev, done)
    ensures t.calls == map[] && StateOf(t, rev) == Some(PartiallyActive)
  {
    hide PollLeads, Pushed, Verdict, RowsOf;
    assert rev in s3.panel.revisions by { PushedHas(w, s, s3, rev, done, ""); }
    var s4 := CountLeads(w, o, s3, 1, rev, false);
    var s5 := PromoteLeads(w, o, s4, 1, rev, false);
    var s6 := SupersedeLeads(w, o, s5, 1, rev, false);
    t := PromoteLeads(w, o, s6, 0, rev, false);
    PushedOtherwise(w, s, s3, t, rev, done);
    assert t.calls == map[];
  }

  lemma PushedHas(w: Wire, s: State, t: State, rev: RevId, done: set<NodeId>, n: NodeId)
    requires Pushed(w, s, t, rev, done)
    ensures rev in t.panel.revisions && (n in RowsOf(t.panel, rev) <==> n in RowsOf(s.panel, rev))
  {
  }

  /** A polling run that ends with every row applied and the revision partially active. */
  lemma CanGoWrong(w: Wire, s: State, rev: RevId, a: NodeId, b: NodeId) returns (steps: seq<Step>)
    requires Inv(w, s) && s.calls == map[] && rev in s.panel.revisions && Willing(w, s, rev)
    requires Mendable(w, s, rev) && Contested(w, s, rev, a, b)
    ensures PollsToRest(w, s, steps, rev) && AllApplied(End(w, s, steps).panel, rev)
    ensures StateOf(End(w, s, steps), rev) == Some(PartiallyActive)
  {
    var todo := Laggards(w, s, rev) - {a, b};
    PollLeadsSelf(w, s, rev, false);
    hide Inv, PollLeads, Lags, Willing, AppliedRev;
    var mid := PushEach(w, s, s, rev, todo, false);
    PushedWilling(w, s, mid, rev, todo);
    PushedLags(w, s, mid, rev, todo, a);
    PushedLags(w, s, mid, rev, todo, b);
    var t := CrossedLeads(w, s, mid, rev, a, b);
    PushedOn(w, s, mid, t, rev, todo, {a, b});
    forall n | n in RowsOf(t.panel, rev) ensures !Lags(w, t, rev, n) { PushedLags(w, s, t, rev, todo + {a, b}, n); }
    assert NoneLags(w, t, rev) && AllApplied(t.panel, rev);
    hide Runs, PollRun, End, RowsOf, Pushed;
    steps := RunTo(w, s, t, rev);
  }

  lemma RunTo(w: Wire, s: State, t: State, rev: RevId) returns (steps: seq<Step>)
    requires PollLeads(w, s, t, rev, false)
    ensures Runs(w, s, steps) && PollRun(w, s, steps) && End(w, s, steps) == t
  {
    steps :| PollsFor(w, s, steps, rev, false) && End(w, s, steps) == t;
  }

  // ----- one target that lags -----

  /** Only `n` lags, the other rows are applied, and calls past the note of `n` have its row applied. */
  ghost predicate Sole(w: Wire, s: State, rev: RevId, n: NodeId) {
    && (forall m :: m in RowsOf(s.panel, rev) && m != n ==> RowsOf(s.panel, rev)[m] == Applied && !Lags(w, s, rev, m))
    && forall c :: c in s.calls && s.calls[c].rev == rev ==> SoleCall(s, rev, n, s.calls[c])
  }

  predicate SoleCall(s: State, rev: RevId, n: NodeId, call: Call) {
    && call.node == n
    && (call.phase.Noted? || call.phase.Reported? || call.phase.Counted? ==>
          n in RowsOf(s.panel, rev) && RowsOf(s.panel, rev)[n] == Applied)
    && (call.phase.Counted? ==> call.phase.verdict == Active)
  }

  lemma SoleVerdict(w: Wire, s: State, rev: RevId, n: NodeId)
    requires Sole(w, s, rev, n) && n in RowsOf(s.panel, rev) && RowsOf(s.panel, rev)[n] == Applied
    ensures Verdict(s.panel, rev) == Some(Active)
  {
    ActiveMeansAllApplied(s.panel, rev);
    hide Verdict, Lags;
  }

  lemma SoleCurrent(w: Wire, s: State, st: Step, rev: RevId, n: NodeId)
    requires Can(w, s, st) && Sole(w, s, rev, n)
    ensures Current(s, st, rev)
  {
    if st.Promote? && st.call in s.calls && s.calls[st.call].rev == rev {
      assert SoleCall(s, rev, n, s.calls[st.call]);
      SoleVerdict(w, s, rev, n);
    }
    hide Verdict;
  }

  lemma SoleStep(w: Wire, s: State, st: Step, rev: RevId, n: NodeId)
    requires Inv(w, s) && Can(w, s, st) && Polls(w, s, st) && CallsWanted(s) && NoneAbandoned(s) && Sole(w, s, rev, n)
    ensures Sole(w, Do(w, s, st), rev, n)
  {
    var t := Do(w, s, st);
    PushingRows(w, s, st, rev);
    if st.Note? { assert CallOk(w, s, s.calls[st.call]); }
    forall m | m in RowsOf(t.panel, rev) && m != n ensures RowsOf(t.panel, rev)[m] == Applied && !Lags(w, t, rev, m) {
      NotLaggingStep(w, s, st, rev, m);
    }
    forall c | c in t.calls && t.calls[c].rev == rev ensures SoleCall(t, rev, n, t.calls[c]) {
      SoleCalls(w, s, st, rev, n, c);
    }
    hide Inv, Do, Can;
  }

  lemma SoleCalls(w: Wire, s: State, st: Step, rev: RevId, n: NodeId, c: nat)
    requires Can(w, s, st) && Polls(w, s, st) && NoneAbandoned(s) && Sole(w, s, rev, n)
    requires c in Do(w, s, st).calls && Do(w, s, st).calls[c].rev == rev
    ensures SoleCall(Do(w, s, st), rev, n, Do(w, s, st).calls[c])
  {
    var t := Do(w, s, st);
    PushingRows(w, s, st, rev);
    if c in s.calls && s.calls[c].rev == rev {
      assert SoleCall(s, rev, n, s.calls[c]);
      if st == Count(c) { SoleVerdict(w, s, rev, n); }
      hide Verdict, RowsOf, Sole, Polls;
    } else {
      FreshCall(w, s, st, c);
      hide Verdict, RowsOf, Do;
    }
  }

  lemma FreshCall(w: Wire, s: State, st: Step, c: nat)
    requires Can(w, s, st) && c in Do(w, s, st).calls
    requires c !in s.calls || Do(w, s, st).calls[c].rev != s.calls[c].rev
    ensures st.Begin? && st.node in RowsOf(s.panel, st.rev) && Do(w, s, st).calls[c].node == st.node
    ensures Do(w, s, st).calls[c].rev == st.rev && Do(w, s, st).calls[c].phase.Sent?
  {
    hide Verdict, RowsOf;
  }

  lemma {:induction false} SoleIsCurrent(w: Wire, s: State, steps: seq<Step>, rev: RevId, n: NodeId)
    requires Inv(w, s) && Runs(w, s, steps) && PollRun(w, s, steps) && CallsWanted(s) && NoneAbandoned(s) && Sole(w, s, rev, n)
    ensures CurrentRun(w, s, steps, rev)
    decreases |steps|
  {
    hide Inv, Can, Do, CallsWanted, NoneAbandoned, Sole, Current;
    if steps != [] {
      var st := steps[0];
      StepKeepsInv(w, s, st);
      QuietKeeps(w, s, st);
      PushingRows(w, s, st, rev);
      SoleCurrent(w, s, st, rev, n);
      SoleStep(w, s, st, rev, n);
      SoleIsCurrent(w, Do(w, s, st), steps[1..], rev, n);
    }
  }

  // ----- when every polling run activates -----

  ghost predicate AtMostOneLags(w: Wire, s: State, rev: RevId) {
    forall a, b :: a in RowsOf(s.panel, rev) && b in RowsOf(s.panel, rev) && Lags(w, s, rev, a) && Lags(w, s, rev, b) ==> a == b
  }

  /** No other revision that polling could activate has a target that lags. */
  ghost predicate NoRival(w: Wire, s: State, rev: RevId) {
    forall q :: q != rev ==> !(SomeLags(w, s, q) && Mendable(w, s, q))
  }

  /** In a polling run a rival has a target that lags, and polling could activate it. */
  lemma RivalMeans(w: Wire, s: State, steps: seq<Step>, q: RevId)
    requires Inv(w, s) && Runs(w, s, steps) && PollRun(w, s, steps) && s.calls == map[] && Rival(s, q, steps)
    ensures SomeLags(w, s, q) && Mendable(w, s, q)
  {
    PollRunIsQuiet(w, s, steps);
    hide Inv, Runs, PollRun, Called, Lags, QuietRun, PushesOnly;
    var n :| Called(steps, q, n);
    CalledHasRow(w, s, steps, q, n);
    forall m | Called(steps, q, m) ensures Lags(w, s, q, m) {
      if !Lags(w, s, q, m) { NotLaggingIsLeft(w, s, steps, q, m); }
    }
  }

  lemma NoRivalUndisturbed(w: Wire, s: State, steps: seq<Step>, rev: RevId)
    requires Inv(w, s) && Runs(w, s, steps) && PollRun(w, s, steps) && s.calls == map[] && NoRival(w, s, rev)
    ensures Undisturbed(w, s, steps, rev)
  {
    PollRunIsQuiet(w, s, steps);
    hide Inv, Runs, PollRun, QuietRun, PushesOnly, Undisturbed, Rival, SomeLags, Mendable;
    forall q | q != rev ensures !Rival(s, q, steps) {
      if Rival(s, q, steps) { RivalMeans(w, s, steps, q); }
    }
    OnlyRivalsDisturb(w, s, steps, rev);
  }

  /** No polling run writes an outdated verdict where no row failed, or at most one target of a mendable revision lags. */
  lemma SurelyCurrent(w: Wire, s: State, steps: seq<Step>, rev: RevId)
    requires Inv(w, s) && Runs(w, s, steps) && PollRun(w, s, steps) && s.calls == map[]
    requires NoneFailed(s, rev) || (Mendable(w, s, rev) && SomeLags(w, s, rev) && AtMostOneLags(w, s, rev))
    ensures CurrentRun(w, s, steps, rev)
  {
    PollRunIsQuiet(w, s, steps);
    hide Inv, Runs, PollRun, Lags, QuietRun, PushesOnly, CurrentRun, RowsOf;
    if NoneFailed(s, rev) {
      CleanIsCurrent(w, s, steps, rev);
    } else {
      var n :| n in RowsOf(s.panel, rev) && Lags(w, s, rev, n);
      assert Sole(w, s, rev, n);
      SoleIsCurrent(w, s, steps, rev, n);
    }
  }

  /** The state of a revision that nothing is to be done about, or that is stuck on a pending row, stays in every polling run. */
  lemma PollingLeavesAlone(w: Wire, s: State, steps: seq<Step>, rev: RevId)
    requires Inv(w, s) && s.calls == map[] && rev in s.panel.revisions && NoRival(w, s, rev) && PollsToRest(w, s, steps, rev)
    requires !SomeLags(w, s, rev) || Unasked(w, s, rev)
    ensures StateOf(End(w, s, steps), rev) == StateOf(s, rev)
  {
    PollRunIsQuiet(w, s, steps);
    TargetsCalled(w, s, steps, rev);
    NoRivalUndisturbed(w, s, steps, rev);
    hide Inv, Runs, End, PollRun, PushesOnly, Undisturbed, Called, Lags, RowsOf, QuietRun;
    UnmovedKeeps(w, s, steps, rev);
  }

  /** Whether polling is sure to leave the revision active, from the tables and what the nodes run. */
  ghost predicate Sure(w: Wire, s: State, rev: RevId) {
    if !SomeLags(w, s, rev) || Unasked(w, s, rev) then IsActive(s.panel, rev)
    else Mendable(w, s, rev) && (NoneFailed(s, rev) || AtMostOneLags(w, s, rev))
  }

  lemma SureActivates(w: Wire, s: State, steps: seq<Step>, rev: RevId)
    requires Inv(w, s) && s.calls == map[] && rev in s.panel.revisions && NoRival(w, s, rev)
    requires PollsToRest(w, s, steps, rev) && Sure(w, s, rev)
    ensures IsActive(End(w, s, steps).panel, rev)
  {
    hide Inv, Runs, End, PollRun, CurrentRun, Lags, RowsOf, SomeLags, Unasked, Mendable, NoRival, AtMostOneLags;
    if !SomeLags(w, s, rev) || Unasked(w, s, rev) {
      PollingLeavesAlone(w, s, steps, rev);
    } else {
      SurelyCurrent(w, s, steps, rev);
      NoRivalUndisturbed(w, s, steps, rev);
      PollingLeavesActiveIff(w, s, steps, rev);
    }
  }

  // ----- rivals -----

  lemma {:induction false} PollRunsJoin(w: Wire, s: State, a: seq<Step>, b: seq<Step>)
    requires Runs(w, s, a) && PollRun(w, s, a) && Runs(w, End(w, s, a), b) && PollRun(w, End(w, s, a), b)
    ensures Runs(w, s, a + b) && PollRun(w, s, a + b) && End(w, s, a + b) == End(w, End(w, s, a), b)
    decreases |a|
  {
    hide Can, Do, Polls;
    if a == [] {
      assert a + b == b;
    } else {
      PollRunsJoin(w, Do(w, s, a[0]), a[1..], b);
      assert (a + b)[1..] == a[1..] + b;
    }
  }

  /** Pushing one revision leaves what decides about another. */
  lemma OtherStays(w: Wire, s: State, steps: seq<Step>, rev: RevId, q: RevId)
    requires Inv(w, s) && s.calls == map[] && rev in s.panel.revisions && q in s.panel.revisions && q != rev
    requires PollsToRest(w, s, steps, rev) && CallsOnly(steps, rev)
    requires Pushed(w, s, End(w, s, steps), rev, Laggards(w, s, rev))
    ensures var t := End(w, s, steps);
            && RowsOf(t.panel, q) == RowsOf(s.panel, q) && t.panel.artifacts == s.panel.artifacts
            && forall n :: Lags(w, t, q, n) <==> Lags(w, s, q, n)
  {
    var t := End(w, s, steps);
    PollRunIsQuiet(w, s, steps);
    PushesActivateIff(w, s, steps, q);
    assert forall n :: !Called(steps, q, n);
    forall n ensures Lags(w, t, q, n) <==> Lags(w, s, q, n) {
      assert n in Laggards(w, s, rev) ==> Lags(w, s, rev, n);
      hide Inv, Runs, PollRun, End, AppliedRev, RowsOf;
    }
    hide Inv, Runs, PollRun, End, Lags, Pushed, CurrentRun;
  }

  /** With a rival, a polling run can come to rest with the rival active. */
  lemma RivalWins(w: Wire, s: State, rev: RevId, q: RevId) returns (steps: seq<Step>)
    requires Inv(w, s) && s.calls == map[] && rev in s.panel.revisions && q != rev
    requires Willing(w, s, rev) && Willing(w, s, q) && SomeLags(w, s, q) && Mendable(w, s, q)
    ensures PollsToRest(w, s, steps, rev) && !IsActive(End(w, s, steps).panel, rev)
  {
    assert q in s.panel.revisions by { assert q in s.panel.rows; }
    var first := CanRest(w, s, rev);
    var t := End(w, s, first);
    RivalRemains(w, s, first, rev, q);
    RunKeepsInv(w, s, first);
    hide Inv, Runs, PollRun, End, CurrentRun, Lags, Willing, RowsOf, Pushed, SomeLags, Mendable, Unasked;
    var second := CanRest(w, t, q);
    RestingState(w, t, q, second);
    OtherStays(w, t, second, q, rev);
    PollRunsJoin(w, s, first, second);
    RunKeepsInv(w, t, second);
    OnlyOneActive(w, End(w, t, second), rev, q);
    steps := first + second;
  }

  lemma RivalRemains(w: Wire, s: State, steps: seq<Step>, rev: RevId, q: RevId)
    requires Inv(w, s) && s.calls == map[] && rev in s.panel.revisions && q in s.panel.revisions && q != rev
    requires PollsToRest(w, s, steps, rev) && CallsOnly(steps, rev)
    requires Pushed(w, s, End(w, s, steps), rev, Laggards(w, s, rev))
    requires Willing(w, s, q) && SomeLags(w, s, q) && Mendable(w, s, q)
    ensures var t := End(w, s, steps);
            && rev in t.panel.revisions && q in t.panel.revisions
            && Willing(w, t, q) && SomeLags(w, t, q) && Mendable(w, t, q) && !Unasked(w, t, q)
  {
    OtherStays(w, s, steps, rev, q);
    RevisionsStay(w, s, steps, q);
    hide Inv, Runs, PollRun, End, Lags, RowsOf;
  }

  lemma {:induction false} RevisionsStay(w: Wire, s: State, steps: seq<Step>, q: RevId)
    requires Runs(w, s, steps) && q in s.panel.revisions
    ensures q in End(w, s, steps).panel.revisions
    decreases |steps|
  {
    if steps != [] {
      RevisionStays(w, s, steps[0], q);
      hide Can, Do;
      RevisionsStay(w, Do(w, s, steps[0]), steps[1..], q);
    }
  }

  lemma RevisionStays(w: Wire, s: State, st: Step, q: RevId)
    requires Can(w, s, st) && q in s.panel.revisions
    ensures q in Do(w, s, st).panel.revisions
  {
    hide Verdict;
  }

  lemma OnlyOneActive(w: Wire, s: State, rev: RevId, q: RevId)
    requires Inv(w, s) && s.calls == map[] && IsActive(s.panel, q) && q != rev
    ensures !IsActive(s.panel, rev)
  {
    assert OneActive(s) && !Superseder(s, rev) && !Superseder(s, q);
  }

  // ----- the condition -----

  ghost predicate AllWilling(w: Wire, s: State) {
    forall q :: Willing(w, s, q)
  }

  lemma UnsureMayFail(w: Wire, s: State, rev: RevId) returns (steps: seq<Step>)
    requires Inv(w, s) && s.calls == map[] && rev in s.panel.revisions && AllWilling(w, s)
    requires !(NoRival(w, s, rev) && Sure(w, s, rev))
    ensures PollsToRest(w, s, steps, rev) && !IsActive(End(w, s, steps).panel, rev)
  {
    hide Inv, Runs, End, PollRun, CurrentRun, Lags, RowsOf, Willing;
    if !NoRival(w, s, rev) {
      var q :| q != rev && SomeLags(w, s, q) && Mendable(w, s, q);
      steps := RivalWins(w, s, rev, q);
    } else if SomeLags(w, s, rev) && !Unasked(w, s, rev) && Mendable(w, s, rev) {
      var b :| b in RowsOf(s.panel, rev) && RowsOf(s.panel, rev)[b] == Failed;
      var x, y :| x in RowsOf(s.panel, rev) && y in RowsOf(s.panel, rev) && Lags(w, s, rev, x) && Lags(w, s, rev, y) && x != y;
      steps := CanGoWrong(w, s, rev, if x == b then y else x, b);
    } else {
      steps := CanRest(w, s, rev);
      RestingState(w, s, rev, steps);
    }
  }

  /**
   * Exactly when polling is sure to activate a revision. Take any state with no call under
   * way in which every node that lags is polled and accepts its artifact. Every polling run
   * that comes to rest with no target of the revision lagging leaves it active if and only if
   * no other revision that polling could activate has a target that lags, and: it was active
   * and has nothing to push, or a pending row out of reach; or every row not applied belongs
   * to a target that lags, and no row failed or only one target lags.
   */
  lemma PollingActivatesIff(w: Wire, s: State, rev: RevId)
    requires Inv(w, s) && s.calls == map[] && rev in s.panel.revisions && AllWilling(w, s)
    ensures (forall steps :: PollsToRest(w, s, steps, rev) ==> IsActive(End(w, s, steps).panel, rev)) <==>
            NoRival(w, s, rev) && Sure(w, s, rev)
    ensures StateOf(s, rev) == Some(Deploying) ==>
              (Sure(w, s, rev) <==> Mendable(w, s, rev) && (NoneFailed(s, rev) || AtMostOneLags(w, s, rev)))
  {
    if StateOf(s, rev) == Some(Deploying) {
      DeployingIsIncomplete(w, s, rev);
    }
    hide Inv, Runs, End, PollRun, Lags, NoRival, Willing, RowsOf;
    if NoRival(w, s, rev) && Sure(w, s, rev) {
      forall steps | PollsToRest(w, s, steps, rev) ensures IsActive(End(w, s, steps).panel, rev) {
        SureActivates(w, s, steps, rev);
      }
    } else {
      var steps := UnsureMayFail(w, s, rev);
    }
  }

  // ----- whether polling can activate at all -----

  lemma OutOfReach(w: Wire, s: State, steps: seq<Step>, rev: RevId, n: NodeId)
    requires Inv(w, s) && s.calls == map[] && PollsToRest(w, s, steps, rev)
    requires n in RowsOf(s.panel, rev) && RowsOf(s.panel, rev)[n] != Applied && !Lags(w, s, rev, n)
    ensures IsActive(End(w, s, steps).panel, rev) ==> IsActive(s.panel, rev)
  {
    PollRunIsQuiet(w, s, steps);
    DueWhenIdle(s, rev, n);
    hide Inv, Runs, End, PollRun, Called, Lags, QuietRun, PushesOnly, RowsOf, Due, IsActive;
    NotLaggingIsLeft(w, s, steps, rev, n);
    LeftOutRun(w, s, steps, rev, n);
  }

  lemma NothingToPush(w: Wire, s: State, steps: seq<Step>, rev: RevId)
    requires Inv(w, s) && s.calls == map[] && PollsToRest(w, s, steps, rev) && !SomeLags(w, s, rev)
    ensures IsActive(End(w, s, steps).panel, rev) ==> IsActive(s.panel, rev)
  {
    PollRunIsQuiet(w, s, steps);
    TargetsCalled(w, s, steps, rev);
    hide Inv, Runs, End, PollRun, Called, Lags, QuietRun, PushesOnly, RowsOf, IsActive;
    UncalledNeverActive(w, s, steps, rev);
  }

  lemma {:induction false} UncalledNeverActive(w: Wire, s: State, steps: seq<Step>, rev: RevId)
    requires Runs(w, s, steps) && PushesOnly(steps) && NoCallsFor(s, rev) && forall n :: !Called(steps, rev, n)
    ensures IsActive(End(w, s, steps).panel, rev) ==> IsActive(s.panel, rev)
    decreases |steps|
  {
    hide PushesOnly, Called, NoCallsFor, Can, Do, Pushing, IsActive;
    if steps != [] {
      var st := steps[0];
      PushesFirst(steps);
      CalledFirst(steps, rev, if st.Begin? then st.node else "");
      forall n ensures !Called(steps[1..], rev, n) { CalledFirst(steps, rev, n); }
      UncalledStaysInactive(w, s, st, rev);
      UncalledNeverActive(w, Do(w, s, st), steps[1..], rev);
    }
  }

  lemma UncalledStaysInactive(w: Wire, s: State, st: Step, rev: RevId)
    requires Can(w, s, st) && Pushing(st) && NoCallsFor(s, rev) && (st.Begin? ==> st.rev != rev)
    ensures NoCallsFor(Do(w, s, st), rev) && (IsActive(Do(w, s, st).panel, rev) ==> IsActive(s.panel, rev))
  {
    hide Verdict;
  }

  /**
   * A revision that is not active can be activated by polling exactly when it has something to
   * push and every row not applied belongs to a target that lags.
   */
  lemma PollingMayActivateIff(w: Wire, s: State, rev: RevId)
    requires Inv(w, s) && s.calls == map[] && rev in s.panel.revisions && Willing(w, s, rev) && !IsActive(s.panel, rev)
    ensures (exists steps :: PollsToRest(w, s, steps, rev) && IsActive(End(w, s, steps).panel, rev)) <==>
            SomeLags(w, s, rev) && Mendable(w, s, rev)
  {
    hide Inv, Runs, End, PollRun, Lags, Willing, RowsOf, CurrentRun;
    if SomeLags(w, s, rev) && Mendable(w, s, rev) {
      var steps := CanRest(w, s, rev);
      RestingState(w, s, rev, steps);
      assert PollsToRest(w, s, steps, rev) && IsActive(End(w, s, steps).panel, rev);
    } else {
      forall steps | PollsToRest(w, s, steps, rev) ensures !IsActive(End(w, s, steps).panel, rev) {
        if n :| n in RowsOf(s.panel, rev) && RowsOf(s.panel, rev)[n] != Applied && !Lags(w, s, rev, n) {
          OutOfReach(w, s, steps, rev, n);
        } else {
          NothingToPush(w, s, steps, rev);
        }
      }
    }
  }
}
