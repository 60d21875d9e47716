/** Two runs from the empty panel after which polling changes nothing, though no revision is active. */
module Sticking {
  import opened Collections
  import opened Panel
  import opened Rollout
  import opened Reconciling
  import opened Convergence
  import opened Activation
  import opened Polling
  import opened Mending

  // ----- an answer lost -----

  /** One revision for one node. */
  function Lone(a: Solo, rv: Revision, row: DeployState, applied: Option<RevId>): Tables {
    Tables(map[a.rev := rv], map[a.rev := map[a.node := a.content]],
           map[a.node := NodeRow(Some(a.rev), applied, true)], map[a.rev := map[a.node := row]])
  }

  lemma LoneDeploying(w: Wire, a: Solo)
    requires w.revOf(a.content) == a.rev
    ensures Leads(w, Init(), State(Lone(a, DEPLOYING, Pending, None), map[], map[], 0, {}, {}))
  {
    hide Leads, Runs, End;
    var blank := NodeRow(None, None, true);
    var arts := map[a.node := a.content];
    var s1 := State(Tables(map[], map[], map[a.node := blank], map[]), map[], map[], 0, {}, {});
    var s2 := s1.(panel := s1.panel.(revisions := map[a.rev := COMPILED], artifacts := map[a.rev := arts]));
    LeadsSelf(w, Init());
    assert Do(w, Init(), AddNode(a.node, true)) == s1;
    LeadsStep(w, Init(), Init(), AddNode(a.node, true));
    assert Do(w, s1, NewRevision(a.rev, arts)) == s2;
    LeadsStep(w, Init(), s1, NewRevision(a.rev, arts));
    FirstRollOut(s2.panel, a.node, a.rev, a.content);
    LeadsStep(w, Init(), s2, Start(a.rev));
    assert RolledOut(s2.panel, a.rev) == Lone(a, DEPLOYING, Pending, None);
  }

  lemma LoneFailed(a: Solo)
    ensures Recorded(Lone(a, DEPLOYING, Pending, None), a.node, a.rev, Failed) == Lone(a, DEPLOYING, Failed, None)
  {
    var before, after := map[a.node := Pending], map[a.node := Failed];
    assert RowsOf(Lone(a, DEPLOYING, Pending, None), a.rev) == before;
    assert before[a.node := Failed] == after && map[a.rev := before][a.rev := after] == map[a.rev := after];
  }

  /** The call is given up, delivered all the same, and the node polled. */
  lemma AnswerLost(w: Wire, a: Solo, s: State)
    requires w.revOf(a.content) == a.rev && w.accepts(a.node, a.content)
    requires s == State(Lone(a, DEPLOYING, Pending, None), map[], map[], 0, {}, {})
    ensures Leads(w, s, State(Lone(a, DEPLOYING, Failed, Some(a.rev)), map[a.node := a.content], map[], 0, {(a.node, a.rev)}, {}))
  {
    hide Leads, Runs, End;
    var call := Call(a.node, a.rev, a.content, Sent);
    LoneFailed(a);
    assert a.node in RowsOf(s.panel, a.rev) && ArtifactsOf(s.panel, a.rev) == map[a.node := a.content];
    var s1 := s.(calls := map[0 := call]);
    var failed := Lone(a, DEPLOYING, Failed, None);
    hide RowsOf, ArtifactsOf, Recorded, NodeReported, Lone;
    LeadsSelf(w, s);
    assert Do(w, s, Begin(0, a.rev, a.node)) == s1;
    LeadsStep(w, s, s, Begin(0, a.rev, a.node));
    LeadsStep(w, s, s1, GiveUp(0));
    assert Do(w, s1, GiveUp(0)) == s.(panel := failed, calls := map[0 := call.(phase := Abandoned)]);
    DeliveredLate(w, a, s.(panel := failed, calls := map[0 := call.(phase := Abandoned)]));
    LeadsOn(w, s, s.(panel := failed, calls := map[0 := call.(phase := Abandoned)]),
            State(Lone(a, DEPLOYING, Failed, Some(a.rev)), map[a.node := a.content], map[], 0, {(a.node, a.rev)}, {}));
  }

  lemma DeliveredLate(w: Wire, a: Solo, s: State)
    requires w.revOf(a.content) == a.rev && w.accepts(a.node, a.content)
    requires s == State(Lone(a, DEPLOYING, Failed, None), map[], map[0 := Call(a.node, a.rev, a.content, Abandoned)], 0, {}, {})
    ensures Leads(w, s, State(Lone(a, DEPLOYING, Failed, Some(a.rev)), map[a.node := a.content], map[], 0, {(a.node, a.rev)}, {}))
  {
    hide Leads, Runs, End;
    var t := State(s.panel, map[a.node := a.content], map[], 0, {(a.node, a.rev)}, {});
    LoneKnown(a);
    assert a.node in s.panel.nodes && s.panel.nodes[a.node].polled;
    hide Lone, NodeReported;
    LeadsSelf(w, s);
    assert Do(w, s, Deliver(0)) == t;
    LeadsStep(w, s, s, Deliver(0));
    LeadsStep(w, s, t, Poll(a.node));
  }

  lemma LoneKnown(a: Solo)
    ensures NodeReported(Lone(a, DEPLOYING, Failed, None), a.node, Some(a.rev)) == Lone(a, DEPLOYING, Failed, Some(a.rev))
  {
  }

  /**
   * A state can be reached in which the only target runs the revision and the panel knows,
   * its row is failed because the answer came after the call was given up, and no polling
   * run changes anything: the revision stays deploying.
   */
  lemma LostAnswerSticks(w: Wire, a: Solo)
    requires w.revOf(a.content) == a.rev && w.accepts(a.node, a.content)
    ensures exists t :: Leads(w, Init(), t) && t.calls == map[] && StateOf(t, a.rev) == Some(Deploying)
              && t.panel.nodes.Keys == {a.node} && AppliedRev(w, t, a.node) == Some(a.rev)
              && RowsOf(t.panel, a.rev) == map[a.node := Failed]
              && forall steps :: Runs(w, t, steps) && PollRun(w, t, steps) ==> End(w, t, steps) == t
  {
    var s := State(Lone(a, DEPLOYING, Pending, None), map[], map[], 0, {}, {});
    var t := State(Lone(a, DEPLOYING, Failed, Some(a.rev)), map[a.node := a.content], map[], 0, {(a.node, a.rev)}, {});
    LoneDeploying(w, a);
    AnswerLost(w, a, s);
    LeadsOn(w, Init(), s, t);
    assert forall n :: n in t.panel.nodes ==> Settled(w, t, n);
    assert RowsOf(t.panel, a.rev) == map[a.node := Failed] && StateOf(t, a.rev) == Some(Deploying);
    hide Leads, Runs, PollRun, End, Settled, RowsOf;
    forall steps | Runs(w, t, steps) && PollRun(w, t, steps) ensures End(w, t, steps) == t {
      SettledRunRests(w, t, steps);
    }
  }

  // ----- a verdict outdated -----

  /** One revision for two nodes. */
  datatype Duo = Duo(rev: RevId, a: NodeId, b: NodeId, ca: Content, cb: Content)

  ghost predicate Deployable(w: Wire, d: Duo) {
    && d.a != d.b && w.revOf(d.ca) == d.rev && w.revOf(d.cb) == d.rev
    && w.accepts(d.a, d.ca) && w.accepts(d.b, d.cb)
  }

  function Arts(d: Duo): map<NodeId, Content> {
    map[d.a := d.ca, d.b := d.cb]
  }

  function Pair(d: Duo, rv: Revision, ra: DeployState, rb: DeployState, ka: Option<RevId>, kb: Option<RevId>): Tables {
    Tables(map[d.rev := rv], map[d.rev := Arts(d)],
           map[d.a := NodeRow(Some(d.rev), ka, true), d.b := NodeRow(Some(d.rev), kb, true)],
           map[d.rev := map[d.a := ra, d.b := rb]])
  }

  function CallB(d: Duo, phase: Phase): Call { Call(d.b, d.rev, d.cb, phase) }

  lemma PairFails(d: Duo)
    requires d.a != d.b
    ensures var p := Pair(d, DEPLOYING, Pending, Pending, None, None);
            && RowsOf(p, d.rev) == map[d.a := Pending, d.b := Pending]
            && Recorded(p, d.b, d.rev, Failed) == Pair(d, DEPLOYING, Pending, Failed, None, None)
  {
    var before, after := map[d.a := Pending, d.b := Pending], map[d.a := Pending, d.b := Failed];
    UpdateTwo(d.a, d.b, Pending, Pending, Failed);
    assert RowsOf(Pair(d, DEPLOYING, Pending, Pending, None, None), d.rev) == before;
    assert map[d.rev := before][d.rev := after] == map[d.rev := after];
  }

  lemma PairDeploying(w: Wire, d: Duo)
    requires Deployable(w, d)
    ensures Leads(w, Init(), State(Pair(d, DEPLOYING, Pending, Pending, None, None), map[], map[], 0, {}, {}))
  {
    hide Leads, Runs, End;
    var blank := NodeRow(None, None, true);
    var s1 := State(Tables(map[], map[], map[d.a := blank], map[]), map[], map[], 0, {}, {});
    var s2 := s1.(panel := s1.panel.(nodes := map[d.a := blank, d.b := blank]));
    var s3 := s2.(panel := s2.panel.(revisions := map[d.rev := COMPILED], artifacts := map[d.rev := Arts(d)]));
    LeadsSelf(w, Init());
    assert Do(w, Init(), AddNode(d.a, true)) == s1;
    LeadsStep(w, Init(), Init(), AddNode(d.a, true));
    assert Do(w, s1, AddNode(d.b, true)) == s2;
    LeadsStep(w, Init(), s1, AddNode(d.b, true));
    assert Do(w, s2, NewRevision(d.rev, Arts(d))) == s3;
    LeadsStep(w, Init(), s2, NewRevision(d.rev, Arts(d)));
    assert ArtifactsOf(s3.panel, d.rev) == Arts(d) && d.a in Arts(d) && Arts(d).Keys == {d.a, d.b};
    assert Marked(map[], {d.a, d.b}) == map[d.a := Pending, d.b := Pending];
    LeadsStep(w, Init(), s3, Start(d.rev));
    assert RolledOut(s3.panel, d.rev) == Pair(d, DEPLOYING, Pending, Pending, None, None);
  }

  /** The second node is not reached at first. */
  lemma PairUnreached(w: Wire, d: Duo, s: State)
    requires Deployable(w, d) && s == State(Pair(d, DEPLOYING, Pending, Pending, None, None), map[], map[], 0, {}, {})
    ensures Leads(w, s, s.(panel := Pair(d, DEPLOYING, Pending, Failed, None, None)))
  {
    hide Leads, Runs, End;
    PairFails(d);
    assert ArtifactsOf(s.panel, d.rev) == Arts(d);
    var q := Pair(d, DEPLOYING, Pending, Failed, None, None);
    var s1 := s.(calls := map[1 := CallB(d, Sent)]);
    var s2 := s.(panel := q, calls := map[1 := CallB(d, Abandoned)]);
    hide Pair, RowsOf, ArtifactsOf, Recorded;
    LeadsSelf(w, s);
    assert Do(w, s, Begin(1, d.rev, d.b)) == s1;
    LeadsStep(w, s, s, Begin(1, d.rev, d.b));
    assert Do(w, s1, GiveUp(1)) == s2;
    LeadsStep(w, s, s1, GiveUp(1));
    assert Do(w, s2, Forget(1)) == s.(panel := q);
    LeadsStep(w, s, s2, Forget(1));
  }

  lemma PairContested(w: Wire, d: Duo, s: State)
    requires Deployable(w, d) && s == State(Pair(d, DEPLOYING, Pending, Failed, None, None), map[], map[], 0, {}, {})
    ensures RowsOf(s.panel, d.rev).Keys == {d.a, d.b} && s.panel.nodes.Keys == {d.a, d.b} && d.rev in s.panel.revisions
    ensures Mendable(w, s, d.rev) && Contested(w, s, d.rev, d.a, d.b) && Willing(w, s, d.rev)
  {
    assert RowsOf(s.panel, d.rev) == map[d.a := Pending, d.b := Failed];
    assert ArtifactsOf(s.panel, d.rev) == Arts(d);
  }

  lemma LeadsInv(w: Wire, s: State, t: State)
    requires Inv(w, s) && Leads(w, s, t)
    ensures Inv(w, t)
  {
    hide Inv, Runs, End;
    var steps :| Runs(w, s, steps) && End(w, s, steps) == t;
    RunKeepsInv(w, s, steps);
  }

  /** Where nodes lagged and at rest none does, all that did are settled. */
  lemma RestIsSettled(w: Wire, s: State, steps: seq<Step>, rev: RevId)
    requires Inv(w, s) && s.calls == map[] && PollsToRest(w, s, steps, rev)
    requires forall n :: n in s.panel.nodes ==> n in RowsOf(s.panel, rev) && Lags(w, s, rev, n)
    ensures var t := End(w, s, steps); t.panel.nodes.Keys == s.panel.nodes.Keys && forall n :: n in t.panel.nodes ==> Settled(w, t, n)
  {
    var t := End(w, s, steps);
    PollRunIsQuiet(w, s, steps);
    TargetsCalled(w, s, steps, rev);
    QuietRunGoals(w, s, steps);
    forall n | n in s.panel.nodes ensures n in t.panel.nodes && Settled(w, t, n) {
      assert n in RowsOf(s.panel, rev) && !Lags(w, t, rev, n);
      PollingSettles(w, s, steps, n);
    }
    hide Inv, Runs, PollRun, End, Settled, Lags, QuietRun;
  }

  /**
   * Verdicts may be written in another order than they were counted in: a state can be
   * reached in which every target has applied and acknowledged the revision and its rows say
   * so, yet it is partially active, and no polling run changes anything.
   */
  lemma StaleVerdictSticks(w: Wire, d: Duo)
    requires Deployable(w, d)
    ensures exists t :: Leads(w, Init(), t) && t.calls == map[] && StateOf(t, d.rev) == Some(PartiallyActive)
              && RowsOf(t.panel, d.rev).Keys == {d.a, d.b} && AllApplied(t.panel, d.rev)
              && forall steps :: Runs(w, t, steps) && PollRun(w, t, steps) ==> End(w, t, steps) == t
  {
    var s0 := State(Pair(d, DEPLOYING, Pending, Pending, None, None), map[], map[], 0, {}, {});
    var s := s0.(panel := Pair(d, DEPLOYING, Pending, Failed, None, None));
    PairDeploying(w, d);
    PairUnreached(w, d, s0);
    PairContested(w, d, s);
    hide Inv, Runs, PollRun, End, Pair, RowsOf, StateOf, Init, Leads, Lags, Mendable, Willing, Settled;
    LeadsOn(w, Init(), s0, s);
    InitInv(w);
    LeadsInv(w, Init(), s);
    var t := WrongForGood(w, d, s);
    LeadsOn(w, Init(), s, t);
  }

  lemma WrongForGood(w: Wire, d: Duo, s: State) returns (t: State)
    requires Inv(w, s) && s.calls == map[] && d.rev in s.panel.revisions
    requires RowsOf(s.panel, d.rev).Keys == {d.a, d.b} && s.panel.nodes.Keys == {d.a, d.b}
    requires Mendable(w, s, d.rev) && Contested(w, s, d.rev, d.a, d.b) && Willing(w, s, d.rev)
    ensures Leads(w, s, t) && t.calls == map[] && StateOf(t, d.rev) == Some(PartiallyActive)
    ensures RowsOf(t.panel, d.rev).Keys == {d.a, d.b} && AllApplied(t.panel, d.rev)
    ensures forall steps :: Runs(w, t, steps) && PollRun(w, t, steps) ==> End(w, t, steps) == t
  {
    hide Inv, Runs, PollRun, End, RowsOf, StateOf, Leads, Lags, Mendable, Willing, Settled, AllApplied;
    var wrong := CanGoWrong(w, s, d.rev, d.a, d.b);
    t := End(w, s, wrong);
    RunLeads(w, s, wrong);
    TargetsCalled(w, s, wrong, d.rev);
    RestIsSettled(w, s, wrong, d.rev);
    forall steps | Runs(w, t, steps) && PollRun(w, t, steps) ensures End(w, t, steps) == t {
      SettledRunRests(w, t, steps);
    }
  }

  lemma RunLeads(w: Wire, s: State, steps: seq<Step>)
    requires Runs(w, s, steps)
    ensures Leads(w, s, End(w, s, steps))
  {
  }
}
