/** When a build replaces the served list, in terms of what was read and what came out. */
module RuleUpdates {
  import opened Collections
  import opened DomainSet
  import opened RuleList
  import opened RuleVersions

  // ----- what a build gathers -----

  /** Some usable source on this side, or the operator's own list, names the rule. */
  ghost predicate Named(inp: Input, exclude: bool, e: Entry) {
    || e in (if exclude then inp.manualExclude else inp.manualInclude)
    || exists k :: 0 <= k < |inp.sources| && inp.sources[k].exclude == exclude
                   && inp.sources[k].parsed.Some? && e in inp.sources[k].parsed.value
  }

  lemma {:induction false} GatheredMembers(sources: seq<Source>, exclude: bool, e: Entry)
    ensures e in Gathered(sources, exclude) <==>
            exists k :: 0 <= k < |sources| && sources[k].exclude == exclude && sources[k].parsed.Some? && e in sources[k].parsed.value
  {
    if sources != [] {
      var n := |sources| - 1;
      GatheredMembers(sources[..n], exclude, e);
      if k :| 0 <= k < n && sources[..n][k].exclude == exclude && sources[..n][k].parsed.Some? && e in sources[..n][k].parsed.value {
        assert sources[k] == sources[..n][k];
      }
      if k :| 0 <= k < |sources| && sources[k].exclude == exclude && sources[k].parsed.Some? && e in sources[k].parsed.value {
        if k < n { assert sources[k] == sources[..n][k]; }
      }
    }
  }

  /**
   * The list a build comes to: sorted, and holding exactly the rules some source or the
   * operator includes, less those excluded by name and the exact names at or below an excluded suffix.
   */
  lemma EffectiveMeaning(inp: Input, effective: seq<Entry>)
    requires IsEffective(inp, effective)
    ensures StrictlySorted(effective)
    ensures forall e :: e in effective <==>
              && Named(inp, false, e) && !Named(inp, true, e)
              && !(e.kind == "exact" && exists s :: Named(inp, true, Entry("suffix", s)) && Under(e.value, s))
  {
    var includes, excludes := Gathered(inp.sources, false) + inp.manualInclude, Gathered(inp.sources, true) + inp.manualExclude;
    forall e ensures (e in includes <==> Named(inp, false, e)) && (e in excludes <==> Named(inp, true, e)) {
      GatheredMembers(inp.sources, false, e);
      GatheredMembers(inp.sources, true, e);
    }
    hide Named, Gathered, StrictlySorted, Under;
    forall e ensures e in effective <==>
              && Named(inp, false, e) && !Named(inp, true, e)
              && !(e.kind == "exact" && exists s :: Named(inp, true, Entry("suffix", s)) && Under(e.value, s)) {
      assert e in effective <==> Effective(includes, excludes, e);
      if s :| Entry(KIND_SUFFIX, s) in excludes && Under(e.value, s) { assert Named(inp, true, Entry("suffix", s)); }
      if s :| Named(inp, true, Entry("suffix", s)) && Under(e.value, s) { assert Entry(KIND_SUFFIX, s) in excludes; }
    }
  }

  // ----- when the served list is replaced -----

  /** Neither emptied, nor shrunk by more than the allowed share, nor grown by more than the allowed number. */
  ghost predicate WithinGuards(c: Config, was: set<Entry>, now: set<Entry>) {
    var unset := c.thresholds.maxAdded == 0;
    && (was == {} || now != {})
    && |was - now| * 100 <= |was| * (if unset then 30 else c.thresholds.maxRemovedPercent)
    && |now - was| <= (if unset then 1000 else c.thresholds.maxAdded)
  }

  /** The stored hash of the active version could be read and is the new list's. */
  ghost predicate SameHash(c: Config, rs: RuleSet, inp: Input, effective: seq<Entry>) {
    && inp.hashRead && rs.active.Some? && rs.active.value in rs.versions
    && rs.versions[rs.active.value].hash != ""
    && rs.versions[rs.active.value].hash == c.sha(Encode(effective))
  }

  ghost predicate EveryAnswered(inp: Input) {
    forall s :: s in inp.sources ==> s.parsed.Some?
  }

  lemma SuspiciousMeaning(c: Config, was: seq<Entry>, now: seq<Entry>, incomplete: bool)
    requires StrictlySorted(was) && StrictlySorted(now)
    ensures Suspicious(c, was, now, incomplete) <==> incomplete || !WithinGuards(c, ToSet(was), ToSet(now))
  {
    StrictlySortedDistinct(was);
    StrictlySortedDistinct(now);
    CountsAreSets(was, now);
    DistinctCardinality(was);
    assert was != [] ==> was[0] in ToSet(was);
    assert now != [] ==> now[0] in ToSet(now);
    assert was == [] ==> ToSet(was) - ToSet(now) == {};
    hide StrictlySorted, Added, Distinct;
  }

  /**
   * Exactly when a build that could read the served list replaces it: the hash differs, every
   * source answered, the change is within the guards, and either nothing was served and
   * something is now, or the mode applies changes by itself. Otherwise what is served stays.
   */
  lemma ReplacesIff(c: Config, rs: RuleSet, inp: Input, id: VersionId, n: nat, effective: seq<Entry>)
    requires Inv(c, rs) && Can(rs, Build(inp, id, n, effective)) && inp.entriesRead
    ensures var t := Do(c, rs, Build(inp, id, n, effective));
            var was, now := ToSet(ActiveEntries(rs)), ToSet(effective);
            && (t.active == Some(id) <==>
                  && !SameHash(c, rs, inp, effective) && EveryAnswered(inp) && WithinGuards(c, was, now)
                  && ((was == {} && now != {}) || rs.autoApply))
            && (t.active == Some(id) ==> ActiveEntries(t) == effective && t.versions[id].status == Active)
            && (t.active != Some(id) ==> t.active == rs.active && ActiveEntries(t) == ActiveEntries(rs))
  {
    var st := Build(inp, id, n, effective);
    assert SomeFailed(inp.sources) <==> !EveryAnswered(inp);
    assert SameHash(c, rs, inp, effective) <==> Unchanged(c, rs, inp, effective);
    if AllFailed(inp) {
      assert !EveryAnswered(inp);
    } else {
      var was := ActiveEntries(rs);
      assert StrictlySorted(was) && StrictlySorted(effective) by { hide Effective, Encode; }
      SuspiciousMeaning(c, was, effective, SomeFailed(inp.sources));
      assert was != [] ==> was[0] in ToSet(was);
      assert effective != [] ==> effective[0] in ToSet(effective);
      InsertedVersions(c, rs, id, n, effective, NewStatus(c, rs, inp, effective));
      hide AllFailed, Suspicious, WithinGuards, EveryAnswered, SomeFailed, Unchanged, SameHash;
      hide Inserted, Hash, StrictlySorted, IsEffective, IsNext, ToSet;
    }
  }

  // ----- runs nobody approves -----

  /** Builds that read the served list, rejections, and no one to approve or to switch the mode on. */
  predicate Unattended(steps: seq<Step>) {
    forall st :: st in steps ==> !st.Approve? && (st.Build? ==> st.inp.entriesRead) && (st.SetMode? ==> !st.autoApply)
  }

  lemma UnattendedStep(c: Config, rs: RuleSet, st: Step)
    requires Inv(c, rs) && Can(rs, st) && Unattended([st]) && !rs.autoApply && ActiveEntries(rs) != []
    ensures var t := Do(c, rs, st);
            t.active == rs.active && ActiveEntries(t) == ActiveEntries(rs) && !t.autoApply
  {
    assert st in [st];
    if st.Build? {
      ReplacesIff(c, rs, st.inp, st.id, st.sequence, st.effective);
      assert ActiveEntries(rs)[0] in ToSet(ActiveEntries(rs));
      assert !Do(c, rs, st).autoApply by { hide AllFailed, Unchanged, NewStatus, Hash; }
    }
    hide AllFailed, Unchanged, NewStatus, Hash, WithinGuards, SameHash, ToSet, AfterBuild;
  }

  /** In manual mode a non-empty served list stays the served one through every run that no one approves in. */
  lemma {:induction false} ManualNeedsApproval(c: Config, rs: RuleSet, steps: seq<Step>)
    requires Inv(c, rs) && Runs(c, rs, steps) && Unattended(steps)
    requires !rs.autoApply && ActiveEntries(rs) != []
    ensures End(c, rs, steps).active == rs.active && ActiveEntries(End(c, rs, steps)) == ActiveEntries(rs)
    decreases |steps|
  {
    if steps != [] {
      assert steps[0] in steps;
      UnattendedStep(c, rs, steps[0]);
      StepKeepsInv(c, rs, steps[0]);
      hide Do, Can, Inv, ActiveEntries;
      ManualNeedsApproval(c, Do(c, rs, steps[0]), steps[1..]);
    }
  }
}
