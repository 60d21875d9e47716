/** Versions of a rule set: building candidates, the guards on activating them, approval and rejection. */
module RuleVersions {
  import opened Collections
  import opened DomainSet
  import opened RuleList

  type VersionId = string

  datatype Status = Awaiting | Active | Superseded | Rejected

  datatype Version = Version(sequence: nat, hash: string, status: Status, entries: seq<Entry>)

  /** The stored versions, the active one, and whether the update mode applies changes by itself. */
  datatype RuleSet = RuleSet(versions: map<VersionId, Version>, active: Option<VersionId>, autoApply: bool)

  /** One enabled source with what it parsed to, or nothing when it failed. */
  datatype Source = Source(exclude: bool, parsed: Option<seq<Entry>>)

  /**
   * What one build finds. A failed read of the active version's hash or entries is ignored
   * by the builder, which then goes on with an empty hash or an empty list.
   */
  datatype Input = Input(
    sources: seq<Source>, manualInclude: seq<Entry>, manualExclude: seq<Entry>,
    hashRead: bool, entriesRead: bool)

  datatype Thresholds = Thresholds(maxRemovedPercent: int, maxAdded: int)

  const DEFAULT_THRESHOLDS := Thresholds(30, 1000)

  datatype Config = Config(thresholds: Thresholds, sha: string -> string)

  function Limits(c: Config): Thresholds {
    if c.thresholds.maxAdded == 0 then DEFAULT_THRESHOLDS else c.thresholds
  }

  function Hash(c: Config, es: seq<Entry>): string {
    c.sha(Encode(es))
  }

  // ----- gathering -----

  /** The parsed entries of the usable sources on one side, in order. */
  function Gathered(sources: seq<Source>, exclude: bool): seq<Entry> {
    if sources == [] then []
    else
      var last := sources[|sources| - 1];
      Gathered(sources[..|sources| - 1], exclude) +
      if last.parsed.Some? && last.exclude == exclude then last.parsed.value else []
  }

  predicate SomeFailed(sources: seq<Source>) {
    exists s :: s in sources && s.parsed.None?
  }

  predicate SomeOk(sources: seq<Source>) {
    exists s :: s in sources && s.parsed.Some?
  }

  /** Nothing usable was found anywhere. */
  predicate AllFailed(inp: Input) {
    !SomeOk(inp.sources) && SomeFailed(inp.sources) && inp.manualInclude == []
  }

  ghost predicate IsEffective(inp: Input, effective: seq<Entry>) {
    IsMerge(Gathered(inp.sources, false) + inp.manualInclude,
            Gathered(inp.sources, true) + inp.manualExclude, effective)
  }

  // ----- deciding -----

  function PrevHash(rs: RuleSet, inp: Input): string {
    if rs.active.Some? && rs.active.value in rs.versions && inp.hashRead then rs.versions[rs.active.value].hash else ""
  }

  function PrevEntries(rs: RuleSet, inp: Input): seq<Entry> {
    if inp.entriesRead then ActiveEntries(rs) else []
  }

  function ActiveEntries(rs: RuleSet): seq<Entry> {
    if rs.active.Some? && rs.active.value in rs.versions then rs.versions[rs.active.value].entries else []
  }

  predicate Unchanged(c: Config, rs: RuleSet, inp: Input, effective: seq<Entry>) {
    PrevHash(rs, inp) != "" && PrevHash(rs, inp) == Hash(c, effective)
  }

  /** A change that wants a human: emptied, shrunk or grown too much, or built with a source missing. */
  predicate Suspicious(c: Config, prev: seq<Entry>, effective: seq<Entry>, incomplete: bool) {
    || (prev != [] && effective == [])
    || (prev != [] && |Added(effective, prev)| * 100 > |prev| * Limits(c).maxRemovedPercent)
    || |Added(prev, effective)| > Limits(c).maxAdded
    || incomplete
  }

  function StatusFor(c: Config, prev: seq<Entry>, effective: seq<Entry>, incomplete: bool, autoApply: bool): Status {
    if Suspicious(c, prev, effective, incomplete) then Awaiting
    else if prev == [] && effective != [] then Active
    else if autoApply then Active
    else Awaiting
  }

  function NewStatus(c: Config, rs: RuleSet, inp: Input, effective: seq<Entry>): Status {
    StatusFor(c, PrevEntries(rs, inp), effective, SomeFailed(inp.sources), rs.autoApply)
  }

  /** One more than the highest sequence so far. */
  ghost predicate IsNext(versions: map<VersionId, Version>, n: nat) {
    && (forall v :: v in versions ==> versions[v].sequence < n)
    && (if versions == map[] then n == 1 else exists v :: v in versions && versions[v].sequence == n - 1)
  }

  function Inserted(c: Config, rs: RuleSet, id: VersionId, n: nat, effective: seq<Entry>, status: Status): RuleSet {
    var added := rs.versions[id := Version(n, Hash(c, effective), status, effective)];
    if status == Active
    then rs.(versions := map v | v in added :: if v != id then Retired(added[v]) else added[v], active := Some(id))
    else rs.(versions := added)
  }

  function Retired(v: Version): Version {
    if v.status == Active then v.(status := Superseded) else v
  }

  /** The rule set after a build with this effective list. */
  function AfterBuild(c: Config, rs: RuleSet, inp: Input, id: VersionId, n: nat, effective: seq<Entry>): RuleSet {
    if AllFailed(inp) || Unchanged(c, rs, inp, effective) then rs
    else Inserted(c, rs, id, n, effective, NewStatus(c, rs, inp, effective))
  }

  // ----- approval and rejection -----

  predicate CanApprove(rs: RuleSet, id: VersionId) {
    id in rs.versions && rs.versions[id].status != Rejected
  }

  function Approved(rs: RuleSet, id: VersionId): RuleSet
    requires CanApprove(rs, id)
  {
    rs.(versions := map v | v in rs.versions ::
          if v == id then rs.versions[v].(status := Active) else Retired(rs.versions[v]),
        active := Some(id))
  }

  /** No status is spared: the active version can be rejected too. */
  function RejectedOne(rs: RuleSet, id: VersionId): RuleSet {
    if id in rs.versions then rs.(versions := rs.versions[id := rs.versions[id].(status := Rejected)]) else rs
  }

  // ----- the operations as they run -----

  datatype Outcome = EverySourceFailed | SameAsActive | Built(id: VersionId, sequence: nat, status: Status)

  datatype ApproveResult = Done | NotFound | WasRejected

  class Builder {
    var versions: map<VersionId, Version>
    var active: Option<VersionId>
    var autoApply: bool

    function View(): RuleSet
      reads this
    {
      RuleSet(versions, active, autoApply)
    }

    constructor (rs: RuleSet)
      ensures View() == rs
    {
      versions, active, autoApply := rs.versions, rs.active, rs.autoApply;
    }

    /** Sorts the parsed entries of the sources by side and counts successes and failures. */
    static method Load(sources: seq<Source>)
      returns (includes: seq<Entry>, excludes: seq<Entry>, succeeded: nat, failed: nat)
      ensures includes == Gathered(sources, false) && excludes == Gathered(sources, true)
      ensures succeeded > 0 <==> SomeOk(sources)
      ensures failed > 0 <==> SomeFailed(sources)
    {
      includes, excludes, succeeded, failed := [], [], 0, 0;
      for i := 0 to |sources|
        invariant includes == Gathered(sources[..i], false) && excludes == Gathered(sources[..i], true)
        invariant succeeded > 0 <==> exists k :: 0 <= k < i && sources[k].parsed.Some?
        invariant failed > 0 <==> exists k :: 0 <= k < i && sources[k].parsed.None?
      {
        var src := sources[i];
        assert sources[..i + 1][..i] == sources[..i];
        match src.parsed {
          case None => failed := failed + 1;
          case Some(entries) =>
            succeeded := succeeded + 1;
            if src.exclude { excludes := excludes + entries; } else { includes := includes + entries; }
        }
      }
      assert sources[..|sources|] == sources;
    }

    method NextSequence() returns (n: nat)
      ensures IsNext(versions, n)
    {
      var top: nat := 0;
      var rest := versions.Keys;
      ghost var at: Option<VersionId> := None;
      while rest != {}
        invariant rest <= versions.Keys
        invariant forall v :: v in versions && v !in rest ==> versions[v].sequence <= top
        invariant at.None? ==> rest == versions.Keys && top == 0
        invariant at.Some? ==> at.value in versions && (versions[at.value].sequence == top)
        decreases |rest|
      {
        var v := AnyOf(rest);
        rest := rest - {v};
        if versions[v].sequence > top || at.None? {
          at := Some(v);
        }
        if versions[v].sequence > top {
          top := versions[v].sequence;
        }
      }
      n := top + 1;
    }

    /** Compares the lists and decides whether the new one may be activated without a human. */
    static method Review(c: Config, prev: seq<Entry>, effective: seq<Entry>, failed: nat, autoApply: bool)
      returns (status: Status)
      ensures status == StatusFor(c, prev, effective, failed > 0, autoApply)
    {
      var added, removed := Diff(prev, effective);
      var suspicious := false;
      if |prev| > 0 && |effective| == 0 { suspicious := true; }
      var th := if c.thresholds.maxAdded == 0 then DEFAULT_THRESHOLDS else c.thresholds;
      hide Added;
      if |prev| > 0 && |removed| * 100 > |prev| * th.maxRemovedPercent { suspicious := true; }
      if |added| > th.maxAdded { suspicious := true; }
      if failed > 0 { suspicious := true; }
      status := Awaiting;
      if |prev| == 0 && |effective| > 0 && !suspicious {
        status := Active;
      } else if autoApply && !suspicious {
        status := Active;
      }
    }

    /** Stores the version under the next sequence number and, if it is active, retires the others. */
    method Store(c: Config, id: VersionId, effective: seq<Entry>, status: Status) returns (n: nat)
      requires id !in versions
      modifies this`versions, this`active
      ensures IsNext(old(versions), n)
      ensures View() == Inserted(c, old(View()), id, n, effective, status)
    {
      n := NextSequence();
      versions := versions[id := Version(n, c.sha(Encode(effective)), status, effective)];
      if status == Active {
        versions := map v | v in versions :: if v != id then Retired(versions[v]) else versions[v];
        active := Some(id);
      }
    }

    /** Builds a candidate from what the sources gave, and activates it when nothing speaks against it. */
    method Build(c: Config, inp: Input, id: VersionId) returns (out: Outcome, effective: seq<Entry>, n: nat)
      requires id !in versions
      modifies this`versions, this`active
      ensures out.EverySourceFailed? <==>
                inp.sources != [] && (forall s :: s in inp.sources ==> s.parsed.None?) && inp.manualInclude == []
      ensures out.EverySourceFailed? <==> AllFailed(inp)
      ensures !AllFailed(inp) ==> IsEffective(inp, effective)
      ensures !AllFailed(inp) ==> (out.SameAsActive? <==> Unchanged(c, old(View()), inp, effective))
      ensures out.Built? ==> IsNext(old(versions), n)
      ensures out.Built? ==> out == Built(id, n, NewStatus(c, old(View()), inp, effective))
      ensures View() == AfterBuild(c, old(View()), inp, id, n, effective)
    {
      hide Effective, StrictlySorted, StatusFor, Inserted, IsNext, Encode;
      assert inp.sources != [] ==> inp.sources[0] in inp.sources;
      var includes, excludes, succeeded, failed := Load(inp.sources);
      effective, n := [], 0;
      if succeeded == 0 && failed > 0 && |inp.manualInclude| == 0 { return EverySourceFailed, effective, n; }
      effective := Merge(includes + inp.manualInclude, excludes + inp.manualExclude);
      var contentHash := c.sha(Encode(effective));
      var prev: seq<Entry>, prevHash := [], "";
      if active.Some? && active.value in versions {
        if inp.hashRead { prevHash := versions[active.value].hash; }
        if inp.entriesRead { prev := versions[active.value].entries; }
      }
      if prevHash != "" && prevHash == contentHash { return SameAsActive, effective, n; }
      var status := Review(c, prev, effective, failed, autoApply);
      n := Store(c, id, effective, status);
      return Built(id, n, status), effective, n;
    }

    method Approve(id: VersionId) returns (r: ApproveResult)
      modifies this`versions, this`active
      ensures r == if id !in old(versions) then NotFound else if CanApprove(old(View()), id) then Done else WasRejected
      ensures View() == if CanApprove(old(View()), id) then Approved(old(View()), id) else old(View())
      ensures r.WasRejected? <==> id in old(versions) && old(versions)[id].status == Rejected
      ensures !r.Done? ==> versions == old(versions) && active == old(active)
      ensures r.Done? ==> active == Some(id) && versions.Keys == old(versions).Keys
      ensures r.Done? ==> forall v :: v in versions ==>
                versions[v] == old(versions)[v].(status :=
                  if v == id then Active else if old(versions)[v].status == Active then Superseded else old(versions)[v].status)
    {
      if id !in versions { return NotFound; }
      if versions[id].status == Rejected { return WasRejected; }
      var candidate := versions[id];
      versions := map v | v in versions :: Retired(versions[v]);
      versions := versions[id := versions[id].(status := Active)];
      active := Some(id);
      return Done;
    }

    method Reject(id: VersionId)
      modifies this`versions
      ensures View() == RejectedOne(old(View()), id)
      ensures versions == if id in old(versions) then old(versions)[id := old(versions)[id].(status := Rejected)] else old(versions)
    {
      if id in versions {
        versions := versions[id := versions[id].(status := Rejected)];
      }
    }
  }

  // ----- serial runs -----

  datatype Step =
    | Build(inp: Input, id: VersionId, sequence: nat, effective: seq<Entry>)
    | Approve(id: VersionId)
    | Reject(id: VersionId)
    | SetMode(autoApply: bool)

  ghost predicate Can(rs: RuleSet, st: Step) {
    match st
    case Build(inp, id, n, effective) =>
      id !in rs.versions && (!AllFailed(inp) ==> IsEffective(inp, effective) && IsNext(rs.versions, n))
    case _ => true
  }

  function Do(c: Config, rs: RuleSet, st: Step): RuleSet {
    match st
    case Build(inp, id, n, effective) => AfterBuild(c, rs, inp, id, n, effective)
    case Approve(id) => if CanApprove(rs, id) then Approved(rs, id) else rs
    case Reject(id) => RejectedOne(rs, id)
    case SetMode(auto) => rs.(autoApply := auto)
  }

  ghost predicate Runs(c: Config, rs: RuleSet, steps: seq<Step>)
    decreases |steps|
  {
    steps == [] || (Can(rs, steps[0]) && Runs(c, Do(c, rs, steps[0]), steps[1..]))
  }

  function End(c: Config, rs: RuleSet, steps: seq<Step>): RuleSet
    decreases |steps|
  {
    if steps == [] then rs else End(c, Do(c, rs, steps[0]), steps[1..])
  }

  function Fresh(autoApply: bool): RuleSet {
    RuleSet(map[], None, autoApply)
  }

  /** Only the active version has status active; the active version is stored, and active or rejected. */
  ghost predicate StatusOk(rs: RuleSet) {
    && (forall v :: v in rs.versions && rs.versions[v].status == Active ==> rs.active == Some(v))
    && (rs.active.Some? ==>
          && rs.active.value in rs.versions
          && (rs.versions[rs.active.value].status == Active || rs.versions[rs.active.value].status == Rejected))
  }

  /** Versions hold canonical lists under their hash. */
  ghost predicate ListsOk(c: Config, rs: RuleSet) {
    forall v :: v in rs.versions ==>
      StrictlySorted(rs.versions[v].entries) && rs.versions[v].hash == Hash(c, rs.versions[v].entries)
  }

  ghost predicate SequencesDiffer(rs: RuleSet) {
    forall v, w :: v in rs.versions && w in rs.versions && rs.versions[v].sequence == rs.versions[w].sequence ==> v == w
  }

  ghost predicate Inv(c: Config, rs: RuleSet) {
    StatusOk(rs) && ListsOk(c, rs) && SequencesDiffer(rs)
  }

  /** The old versions keep sequence, hash and list; at most their status changes. */
  ghost predicate KeepsVersions(rs: RuleSet, t: RuleSet) {
    forall v :: v in rs.versions ==>
      v in t.versions && t.versions[v] == rs.versions[v].(status := t.versions[v].status)
  }

  lemma InsertedVersions(c: Config, rs: RuleSet, id: VersionId, n: nat, effective: seq<Entry>, status: Status)
    requires id !in rs.versions
    ensures var t := Inserted(c, rs, id, n, effective, status);
            && KeepsVersions(rs, t) && t.versions.Keys == rs.versions.Keys + {id}
            && t.versions[id] == Version(n, Hash(c, effective), status, effective)
            && t.active == (if status == Active then Some(id) else rs.active)
            && (status == Active ==> forall v :: v in rs.versions ==> t.versions[v].status != Active)
            && (forall v :: v in rs.versions && (status != Active || rs.versions[v].status != Active) ==>
                  t.versions[v].status == rs.versions[v].status)
  {
    hide Hash;
  }

  lemma InsertKeepsInv(c: Config, rs: RuleSet, id: VersionId, n: nat, effective: seq<Entry>, status: Status)
    requires Inv(c, rs) && id !in rs.versions && StrictlySorted(effective) && IsNext(rs.versions, n)
    requires status == Active || status == Awaiting
    ensures Inv(c, Inserted(c, rs, id, n, effective, status))
  {
    InsertedVersions(c, rs, id, n, effective, status);
    hide Inserted, StrictlySorted, Hash;
  }

  lemma StepKeepsInv(c: Config, rs: RuleSet, st: Step)
    requires Inv(c, rs) && Can(rs, st)
    ensures Inv(c, Do(c, rs, st))
  {
    hide Suspicious, Effective, StrictlySorted, Hash, Inserted, IsNext;
    if st.Build? && !AllFailed(st.inp) {
      hide AllFailed;
      InsertKeepsInv(c, rs, st.id, st.sequence, st.effective, NewStatus(c, rs, st.inp, st.effective));
    }
  }

  lemma {:induction false} RunKeepsInv(c: Config, rs: RuleSet, steps: seq<Step>)
    requires Inv(c, rs) && Runs(c, rs, steps)
    ensures Inv(c, End(c, rs, steps))
    decreases |steps|
  {
    if steps != [] {
      StepKeepsInv(c, rs, steps[0]);
      RunKeepsInv(c, Do(c, rs, steps[0]), steps[1..]);
    }
  }

  /**
   * In every serial run of builds, approvals and rejections: only the active version has
   * status active, so at most one has; the active version is active or was rejected; and
   * versions hold canonical lists and differ in sequence.
   */
  lemma StatusMachine(c: Config, autoApply: bool, steps: seq<Step>)
    requires Runs(c, Fresh(autoApply), steps)
    ensures var rs := End(c, Fresh(autoApply), steps);
            && (forall v :: v in rs.versions && rs.versions[v].status == Active ==> rs.active == Some(v))
            && (rs.active.Some? ==>
                  && rs.active.value in rs.versions
                  && (rs.versions[rs.active.value].status == Active || rs.versions[rs.active.value].status == Rejected))
            && (forall v :: v in rs.versions ==> StrictlySorted(rs.versions[v].entries))
            && (forall v, w :: v in rs.versions && w in rs.versions && v != w ==>
                  rs.versions[v].sequence != rs.versions[w].sequence)
  {
    RunKeepsInv(c, Fresh(autoApply), steps);
    hide Runs, End, StrictlySorted;
  }

  lemma StepSequences(c: Config, rs: RuleSet, st: Step)
    requires Can(rs, st)
    ensures KeepsVersions(rs, Do(c, rs, st))
    ensures var t := Do(c, rs, st);
            forall v, w :: v in rs.versions && w in t.versions && w !in rs.versions ==>
              t.versions[v].sequence < t.versions[w].sequence
  {
    hide Suspicious, Effective, StrictlySorted, Hash, Inserted;
    if st.Build? && !AllFailed(st.inp) {
      hide AllFailed;
      InsertedVersions(c, rs, st.id, st.sequence, st.effective, NewStatus(c, rs, st.inp, st.effective));
    }
  }

  /** Versions are never dropped or rewritten, and every version added has a higher sequence than all before. */
  lemma {:induction false} SequencesIncrease(c: Config, rs: RuleSet, steps: seq<Step>)
    requires Runs(c, rs, steps)
    ensures KeepsVersions(rs, End(c, rs, steps))
    ensures var t := End(c, rs, steps);
            forall v, w :: v in rs.versions && w in t.versions && w !in rs.versions ==>
              t.versions[v].sequence < t.versions[w].sequence
    decreases |steps|
  {
    if steps != [] {
      StepSequences(c, rs, steps[0]);
      SequencesIncrease(c, Do(c, rs, steps[0]), steps[1..]);
      hide Do, Can;
    }
  }

  /** An active status is lost by the active version in one way only: being rejected. */
  lemma ActiveUnlessRejected(c: Config, rs: RuleSet, st: Step)
    requires Inv(c, rs) && Can(rs, st) && rs.active.Some? && rs.versions[rs.active.value].status == Active
    ensures var t := Do(c, rs, st);
            t.active.Some? && t.active.value in t.versions
            && (t.versions[t.active.value].status == Active <==> st != Reject(rs.active.value))
  {
    hide Suspicious, Effective, StrictlySorted;
  }

  /** A rejected active version stays the one whose entries are served. */
  lemma RejectedIsStillServed(c: Config, rs: RuleSet)
    requires Inv(c, rs) && rs.active.Some?
    ensures var t := Do(c, rs, Reject(rs.active.value));
            && t.active == rs.active && t.versions[t.active.value].status == Rejected
            && ActiveEntries(t) == ActiveEntries(rs)
            && forall v :: v in t.versions ==> t.versions[v].status != Active
  {
  }

  // ----- the guards on automatic activation -----

  /** The step activates what it built. */
  predicate Activates(c: Config, rs: RuleSet, st: Step) {
    && st.Build? && !AllFailed(st.inp) && !Unchanged(c, rs, st.inp, st.effective)
    && NewStatus(c, rs, st.inp, st.effective) == Active
  }

  /** In terms of sets, what the counts of a comparison mean. */
  lemma CountsAreSets(before: seq<Entry>, after: seq<Entry>)
    requires Distinct(before) && Distinct(after)
    ensures |Added(before, after)| == |ToSet(after) - ToSet(before)|
    ensures |Added(after, before)| == |ToSet(before) - ToSet(after)|
  {
    AddedMembers(before, after);
    AddedMembers(after, before);
    DistinctCardinality(Added(before, after));
    DistinctCardinality(Added(after, before));
    assert ToSet(Added(before, after)) == ToSet(after) - ToSet(before);
    assert ToSet(Added(after, before)) == ToSet(before) - ToSet(after);
  }

  lemma ActivatedEntries(c: Config, rs: RuleSet, st: Step)
    requires Can(rs, st) && Activates(c, rs, st)
    ensures ActiveEntries(Do(c, rs, st)) == st.effective && StrictlySorted(st.effective)
  {
    hide Suspicious, Effective, StrictlySorted, Hash, Inserted;
    InsertedVersions(c, rs, st.id, st.sequence, st.effective, Active);
  }

  lemma NotSuspicious(c: Config, rs: RuleSet, st: Step)
    requires Activates(c, rs, st)
    ensures !Suspicious(c, PrevEntries(rs, st.inp), st.effective, SomeFailed(st.inp.sources))
  {
  }

  /**
   * An automatic activation that read the old list: every source answered, and of a
   * non-empty old list no more than the allowed share is gone, no more than the allowed
   * number came in, and the new list is not empty.
   */
  lemma ActivationIsGuarded(c: Config, rs: RuleSet, st: Step)
    requires Inv(c, rs) && Can(rs, st) && Activates(c, rs, st) && st.inp.entriesRead
    ensures !SomeFailed(st.inp.sources)
    ensures ActiveEntries(Do(c, rs, st)) == st.effective
    ensures var was, now := ToSet(ActiveEntries(rs)), ToSet(st.effective);
            && |now - was| <= Limits(c).maxAdded
            && (was != {} ==> now != {} && |was - now| * 100 <= |was| * Limits(c).maxRemovedPercent)
  {
    var was, now := ActiveEntries(rs), st.effective;
    ActivatedEntries(c, rs, st);
    NotSuspicious(c, rs, st);
    assert StrictlySorted(was);
    StrictlySortedDistinct(was);
    StrictlySortedDistinct(now);
    CountsAreSets(was, now);
    DistinctCardinality(was);
    assert was != [] ==> was[0] in ToSet(was);
    assert now != [] ==> now[0] in ToSet(now);
    hide Can, Do, NewStatus, Inv, Effective, StrictlySorted, Added, Unchanged, Inserted;
  }

  /**
   * What guards the list when it cannot be read: a build activates exactly when it is not
   * taken for unchanged, every source answered, the new list is not empty or the mode is
   * automatic, and its length, counted as additions, fits the threshold. Then it replaces the
   * active list, whatever that was.
   */
  lemma UnreadActivatesIff(c: Config, rs: RuleSet, st: Step)
    requires Can(rs, st) && st.Build? && !AllFailed(st.inp) && !st.inp.entriesRead
    ensures Activates(c, rs, st) <==>
            && !Unchanged(c, rs, st.inp, st.effective) && !SomeFailed(st.inp.sources)
            && (st.effective != [] || rs.autoApply) && |st.effective| <= Limits(c).maxAdded
    ensures Activates(c, rs, st) ==> ActiveEntries(Do(c, rs, st)) == st.effective
  {
    StrictlySortedDistinct(st.effective);
    CountsAreSets([], st.effective);
    DistinctCardinality(st.effective);
    assert ToSet(st.effective) - ToSet<Entry>([]) == ToSet(st.effective);
    if Activates(c, rs, st) { ActivatedEntries(c, rs, st); }
    hide Do, Unchanged;
  }

  // ----- runs of automatic updates -----

  /** Only builds that read the old list, and no approvals. */
  predicate Automatic(steps: seq<Step>) {
    forall st :: st in steps ==> !st.Approve? && (st.Build? ==> st.inp.entriesRead)
  }

  function Activations(c: Config, rs: RuleSet, steps: seq<Step>): nat
    decreases |steps|
  {
    if steps == [] then 0
    else (if Activates(c, rs, steps[0]) then 1 else 0) + Activations(c, Do(c, rs, steps[0]), steps[1..])
  }

  lemma ActiveListKept(c: Config, rs: RuleSet, st: Step)
    requires Inv(c, rs) && Can(rs, st) && !st.Approve? && !Activates(c, rs, st)
    ensures ActiveEntries(Do(c, rs, st)) == ActiveEntries(rs)
  {
    hide Suspicious, Effective, StrictlySorted, Hash, Inserted;
    if st.Build? && !AllFailed(st.inp) {
      hide AllFailed;
      InsertedVersions(c, rs, st.id, st.sequence, st.effective, NewStatus(c, rs, st.inp, st.effective));
    }
  }

  /** One automatic update under the default thresholds, in list lengths: 70% kept, at most 1000 more. */
  lemma AutomaticUpdate(c: Config, rs: RuleSet, st: Step)
    requires Inv(c, rs) && Can(rs, st) && Activates(c, rs, st) && st.inp.entriesRead
    requires Limits(c) == DEFAULT_THRESHOLDS && ActiveEntries(rs) != []
    ensures var was, now := ActiveEntries(rs), ActiveEntries(Do(c, rs, st));
            && now != [] && |now| <= |was| + 1000
            && 10 * |ToSet(was) * ToSet(now)| >= 7 * |was|
  {
    var was, now := ActiveEntries(rs), st.effective;
    ActivationIsGuarded(c, rs, st);
    ActivatedEntries(c, rs, st);
    assert StrictlySorted(was);
    StrictlySortedDistinct(was);
    StrictlySortedDistinct(now);
    DistinctCardinality(was);
    DistinctCardinality(now);
    assert was[0] in ToSet(was);
    SharedAndOwn(ToSet(was), ToSet(now));
    hide Inv, Can, Do, Activates, StrictlySorted, ToSet, Distinct, ActiveEntries;
  }

  lemma SharedAndOwn<T>(a: set<T>, b: set<T>)
    ensures |a| == |a - b| + |a * b| && |b| == |b - a| + |a * b|
  {
    assert a == (a - b) + a * b;
    assert b == (b - a) + a * b;
  }

  /** Any number of automatic updates under the default thresholds never empties a list, and k of them add at most 1000 k. */
  lemma {:induction false} AutomaticRuns(c: Config, rs: RuleSet, steps: seq<Step>)
    requires Inv(c, rs) && Runs(c, rs, steps) && Automatic(steps)
    requires Limits(c) == DEFAULT_THRESHOLDS && ActiveEntries(rs) != []
    ensures ActiveEntries(End(c, rs, steps)) != []
    ensures |ActiveEntries(End(c, rs, steps))| <= |ActiveEntries(rs)| + 1000 * Activations(c, rs, steps)
    decreases |steps|
  {
    if steps != [] {
      var st := steps[0];
      assert st in steps;
      StepKeepsInv(c, rs, st);
      if Activates(c, rs, st) { AutomaticUpdate(c, rs, st); } else { ActiveListKept(c, rs, st); }
      AutomaticRuns(c, Do(c, rs, st), steps[1..]);
      hide Do, Can, Inv, Activates;
    }
  }

  // ----- the unchanged check -----

  /** With a collision-free, non-empty hash, a build counts as unchanged exactly when it gives the active list again. */
  lemma UnchangedMeansSame(c: Config, rs: RuleSet, inp: Input, effective: seq<Entry>)
    requires Inv(c, rs) && rs.active.Some? && inp.hashRead
    requires forall x, y :: c.sha(x) == c.sha(y) ==> x == y
    requires forall x :: c.sha(x) != ""
    requires Encodable(effective) && Encodable(ActiveEntries(rs))
    ensures Unchanged(c, rs, inp, effective) <==> effective == ActiveEntries(rs)
  {
    if Unchanged(c, rs, inp, effective) {
      EncodeInjective(effective, ActiveEntries(rs));
    }
  }
}
