/**
 * The node agent's handling of a pushed configuration: what is on its disk, what it holds in
 * memory, and every point between two effects at which it may fail or crash.
 */
module AgentCore {
  import opened Collections
  import opened Model
  import opened Validation

  type RevId = string
  type Raw = string

  /** The node's identity and settings, with JSON decoding and hashing as parameters. */
  datatype Env = Env(
    parse: Raw -> Option<NodeConfig>, sha: Raw -> string, nodeId: string, role: string, keepRevisions: int)

  /** The applied state, in memory and in the state file. */
  datatype Applied = Applied(revision: RevId, sequence: int, sha: string, previous: RevId)

  const NOTHING_APPLIED := Applied("", 0, "", "")

  datatype Dir = Dir(config: Option<Raw>, modified: nat)

  /** Revision directories by name, the two links and the state file. */
  datatype Disk = Disk(dirs: map<RevId, Dir>, active: Option<RevId>, previous: Option<RevId>, saved: Applied)

  /** The effect a push has to do next. */
  datatype Pc =
    | Idle
    | Making(raw: Raw)
    | Writing(raw: Raw)
    | Linking(raw: Raw)
    | Chaining(raw: Raw, was: Option<RevId>)
    | Updating(raw: Raw)
    | Saving(raw: Raw)
    | Scanning
    | Removing(victims: seq<RevId>)

  datatype Machine = Machine(disk: Disk, mem: Applied, degraded: bool, pc: Pc)

  /** How an effect ends; only removing a directory can stop half way, without its file. */
  datatype Outcome = Done | Failed | Partly

  datatype Step =
    | Receive(raw: Raw)
    | Go(outcome: Outcome, now: nat)
    | Scan(order: Option<seq<RevId>>)
    | Crash

  ghost predicate Valid(e: Env, raw: Raw) {
    e.parse(raw).Some? && Acceptable(e.parse(raw).value, e.nodeId, e.role)
  }

  function RevOf(e: Env, raw: Raw): RevId {
    if e.parse(raw).Some? then e.parse(raw).value.revisionId else ""
  }

  /** A push of exactly what is applied is acknowledged at once. */
  predicate Known(e: Env, mem: Applied, raw: Raw) {
    RevOf(e, raw) == mem.revision && e.sha(raw) == mem.sha
  }

  function Keep(e: Env): nat {
    if e.keepRevisions <= 0 then 3 else e.keepRevisions
  }

  // ----- the effects -----

  function WithDir(d: Disk, rev: RevId, now: nat): Disk {
    if rev in d.dirs then d else d.(dirs := d.dirs[rev := Dir(None, now)])
  }

  /** Creating the file touches the directory, overwriting it does not. */
  function WithConfig(d: Disk, rev: RevId, raw: Raw, now: nat): Disk {
    var modified := if rev in d.dirs && d.dirs[rev].config.Some? then d.dirs[rev].modified else now;
    d.(dirs := d.dirs[rev := Dir(Some(raw), modified)])
  }

  function WithPrevious(d: Disk, was: Option<RevId>, ok: bool): Disk {
    if was.Some? && ok then d.(previous := was) else d
  }

  function Updated(e: Env, mem: Applied, raw: Raw): Applied {
    var sequence := if e.parse(raw).Some? then e.parse(raw).value.sequence else 0;
    Applied(RevOf(e, raw), sequence, e.sha(raw), mem.revision)
  }

  /** What pruning may remove. The empty name is the revisions directory itself, which is not listed. */
  function Candidates(dirs: map<RevId, Dir>, mem: Applied): set<RevId> {
    set d | d in dirs && d != mem.revision && d != mem.previous && d != ""
  }

  predicate Newer(dirs: map<RevId, Dir>, a: RevId, b: RevId) {
    a in dirs && b in dirs && dirs[a].modified > dirs[b].modified
  }

  /** Unprotected directories as pruning looks at them, newest first. */
  ghost predicate IsScan(dirs: map<RevId, Dir>, mem: Applied, order: seq<RevId>) {
    && Distinct(order) && ToSet(order) <= Candidates(dirs, mem)
    && SortedBy(order, (a, b) => Newer(dirs, a, b))
  }

  /** How many unprotected directories may stay. */
  function Spare(e: Env, mem: Applied): nat {
    var guarded := if mem.revision == mem.previous then 1 else 2;
    if Keep(e) < guarded then 0 else Keep(e) - guarded
  }

  function Victims(e: Env, mem: Applied, order: seq<RevId>): seq<RevId> {
    if |order| <= Spare(e, mem) then [] else order[Spare(e, mem)..]
  }

  function RemoveOne(dirs: map<RevId, Dir>, v: RevId, out: Outcome): map<RevId, Dir> {
    match out
    case Done => dirs - {v}
    case Failed => dirs
    case Partly => if v in dirs then dirs[v := dirs[v].(config := None)] else dirs
  }

  // ----- the machine -----

  ghost predicate Can(m: Machine, st: Step) {
    match st
    case Receive(_) => m.pc.Idle?
    case Go(_, _) => !m.pc.Idle? && !m.pc.Scanning?
    case Scan(order) => m.pc.Scanning? && (order.Some? ==> IsScan(m.disk.dirs, m.mem, order.value))
    case Crash => true
  }

  function Removal(victims: seq<RevId>): Pc {
    if victims == [] then Idle else Removing(victims)
  }

  ghost function Do(e: Env, m: Machine, st: Step): Machine
    requires Can(m, st)
  {
    match st
    case Receive(raw) =>
      if !Valid(e, raw) then m.(degraded := true)
      else if Known(e, m.mem, raw) then m
      else m.(pc := Making(raw))
    case Go(out, now) => Effect(e, m, out, now)
    case Scan(order) => m.(pc := if order.Some? then Removal(Victims(e, m.mem, order.value)) else Idle)
    case Crash => Restarted(m.disk)
  }

  function Restarted(d: Disk): Machine {
    Machine(d, d.saved, false, Idle)
  }

  function Effect(e: Env, m: Machine, out: Outcome, now: nat): Machine {
    var ok := out.Done?;
    match m.pc
    case Idle => m
    case Making(raw) =>
      if ok then m.(disk := WithDir(m.disk, RevOf(e, raw), now), pc := Writing(raw)) else m.(pc := Idle)
    case Writing(raw) =>
      if ok then m.(disk := WithConfig(m.disk, RevOf(e, raw), raw, now), pc := Linking(raw)) else m.(pc := Idle)
    case Linking(raw) =>
      if ok then m.(disk := m.disk.(active := Some(RevOf(e, raw))), pc := Chaining(raw, m.disk.active))
      else m.(pc := Idle)
    case Chaining(raw, was) => m.(disk := WithPrevious(m.disk, was, ok), pc := Updating(raw))
    case Updating(raw) => m.(mem := Updated(e, m.mem, raw), degraded := false, pc := Saving(raw))
    case Saving(raw) => m.(disk := if ok then m.disk.(saved := m.mem) else m.disk, pc := Scanning)
    case Scanning => m
    case Removing(victims) =>
      if victims == [] then m.(pc := Idle)
      else m.(disk := m.disk.(dirs := RemoveOne(m.disk.dirs, victims[0], out)), pc := Removal(victims[1..]))
  }

  const INIT := Machine(Disk(map[], None, None, NOTHING_APPLIED), NOTHING_APPLIED, false, Idle)

  /** What each point of a push relies on. */
  ghost predicate PcOk(e: Env, m: Machine) {
    match m.pc
    case Idle => true
    case Making(raw) => Valid(e, raw)
    case Writing(raw) => Valid(e, raw) && RevOf(e, raw) in m.disk.dirs
    case Linking(raw) =>
      Valid(e, raw) && RevOf(e, raw) in m.disk.dirs && m.disk.dirs[RevOf(e, raw)].config == Some(raw)
    case Chaining(raw, _) => Valid(e, raw) && m.disk.active == Some(RevOf(e, raw))
    case Updating(raw) => Valid(e, raw) && m.disk.active == Some(RevOf(e, raw))
    case Saving(raw) => Valid(e, raw) && m.disk.active == Some(RevOf(e, raw)) && m.mem.revision == RevOf(e, raw)
    case Scanning => m.disk.active == Some(m.mem.revision)
    case Removing(victims) =>
      && m.disk.active == Some(m.mem.revision)
      && forall v :: v in victims ==> v != m.mem.revision && v != m.mem.previous && v != ""
  }

  /** Every stored configuration has passed the check and lies under its own name; the active one is stored. */
  ghost predicate DiskOk(e: Env, d: Disk) {
    && (forall n :: n in d.dirs && d.dirs[n].config.Some? ==>
          Valid(e, d.dirs[n].config.value) && RevOf(e, d.dirs[n].config.value) == n)
    && (d.active.Some? ==> d.active.value in d.dirs && d.dirs[d.active.value].config.Some?)
  }

  ghost predicate Inv(e: Env, m: Machine) {
    DiskOk(e, m.disk) && PcOk(e, m)
  }

  lemma VictimsUnguarded(e: Env, dirs: map<RevId, Dir>, mem: Applied, order: seq<RevId>)
    requires IsScan(dirs, mem, order)
    ensures forall v :: v in Victims(e, mem, order) ==> v in order && v in Candidates(dirs, mem)
  {
    forall v | v in Victims(e, mem, order) ensures v in order && v in Candidates(dirs, mem) {
      assert v in ToSet(order);
    }
  }

  lemma RemovalKeepsInv(e: Env, m: Machine, out: Outcome, now: nat)
    requires Inv(e, m) && m.pc.Removing? && m.pc.victims != []
    ensures Inv(e, Effect(e, m, out, now))
  {
    hide Valid;
    var v := m.pc.victims[0];
    assert v in m.pc.victims;
    assert forall x :: x in m.pc.victims[1..] ==> x in m.pc.victims;
    var dirs := RemoveOne(m.disk.dirs, v, out);
    assert forall n :: n in dirs ==> n in m.disk.dirs && (dirs[n].config.Some? ==> dirs[n] == m.disk.dirs[n]);
  }

  lemma EffectKeepsInv(e: Env, m: Machine, out: Outcome, now: nat)
    requires Inv(e, m) && !m.pc.Removing?
    ensures Inv(e, Effect(e, m, out, now))
  {
    hide RemoveOne, Valid, Updated;
    if m.pc.Updating? { UpdatedRevision(e, m.mem, m.pc.raw); }
  }

  lemma UpdatedRevision(e: Env, mem: Applied, raw: Raw)
    requires Valid(e, raw)
    ensures Updated(e, mem, raw).revision == RevOf(e, raw)
  {
  }

  lemma StepKeepsInv(e: Env, m: Machine, st: Step)
    requires Inv(e, m) && Can(m, st)
    ensures Inv(e, Do(e, m, st))
  {
    match st {
      case Receive(_) =>
      case Go(out, now) =>
        if m.pc.Removing? && m.pc.victims != [] {
          RemovalKeepsInv(e, m, out, now);
        } else if !m.pc.Removing? {
          EffectKeepsInv(e, m, out, now);
        }
      case Scan(order) =>
        if order.Some? { VictimsUnguarded(e, m.disk.dirs, m.mem, order.value); }
      case Crash =>
    }
  }

  // ----- whole runs -----

  ghost predicate Runs(e: Env, m: Machine, steps: seq<Step>)
    decreases |steps|
  {
    steps == [] || (Can(m, steps[0]) && Runs(e, Do(e, m, steps[0]), steps[1..]))
  }

  ghost function End(e: Env, m: Machine, steps: seq<Step>): Machine
    requires Runs(e, m, steps)
    decreases |steps|
  {
    if steps == [] then m else End(e, Do(e, m, steps[0]), steps[1..])
  }

  lemma {:induction false} RunKeepsInv(e: Env, m: Machine, steps: seq<Step>)
    requires Inv(e, m) && Runs(e, m, steps)
    ensures Inv(e, End(e, m, steps))
    ensures m.disk.active.Some? ==> End(e, m, steps).disk.active.Some?
    decreases |steps|
  {
    if steps != [] {
      StepKeepsInv(e, m, steps[0]);
      RunKeepsInv(e, Do(e, m, steps[0]), steps[1..]);
    }
  }

  /**
   * In every run, whatever fails and wherever the agent crashes and restarts: the active
   * link, once set, stays set, and names an existing directory whose configuration passed
   * the check for this node and is stored under its own revision.
   */
  lemma ActiveIsValid(e: Env, steps: seq<Step>, more: seq<Step>)
    requires Runs(e, INIT, steps) && Runs(e, End(e, INIT, steps), more)
    ensures var m := End(e, INIT, steps);
            m.disk.active.Some? ==>
              var d := End(e, m, more).disk;
              && d.active.Some? && d.active.value in d.dirs && d.dirs[d.active.value].config.Some?
              && Valid(e, d.dirs[d.active.value].config.value)
              && RevOf(e, d.dirs[d.active.value].config.value) == d.active.value
  {
    RunKeepsInv(e, INIT, steps);
    RunKeepsInv(e, End(e, INIT, steps), more);
  }

  // ----- agreement of the links with the applied state -----

  ghost predicate Linked(link: Option<RevId>, rev: RevId) {
    match link
    case None => rev == ""
    case Some(r) => r == rev
  }

  /** Between switching the active link and saving the state. */
  predicate InWindow(m: Machine) {
    m.pc.Chaining? || m.pc.Updating? || m.pc.Saving?
  }

  /** The window up to the update of the memory. */
  predicate Ahead(m: Machine) {
    m.pc.Chaining? || m.pc.Updating?
  }

  ghost predicate Agree(m: Machine) {
    && (m.pc.Chaining? ==> Linked(m.pc.was, m.mem.revision))
    && (!Ahead(m) ==> Linked(m.disk.active, m.mem.revision))
  }

  /** Without crashes, and whatever fails, the active link and the applied revision agree between pushes. */
  lemma {:induction false} AgreeWithoutCrash(e: Env, m: Machine, steps: seq<Step>)
    requires Inv(e, m) && Agree(m) && Runs(e, m, steps) && Crash !in steps
    ensures Agree(End(e, m, steps))
    decreases |steps|
  {
    hide Inv, Agree, Can, Do;
    if steps != [] {
      StepKeepsInv(e, m, steps[0]);
      assert steps[0] in steps && forall st :: st in steps[1..] ==> st in steps;
      AgreeStep(e, m, steps[0]);
      AgreeWithoutCrash(e, Do(e, m, steps[0]), steps[1..]);
    }
  }

  lemma AgreeStep(e: Env, m: Machine, st: Step)
    requires Inv(e, m) && Agree(m) && Can(m, st) && !st.Crash?
    ensures Agree(Do(e, m, st))
  {
    hide RemoveOne, Valid, IsScan, Victims;
  }

  /** The link to the previous revision agrees with the applied state, and is not pruned away. */
  ghost predicate Chained(m: Machine) {
    var d := m.disk;
    && (d.previous.Some? ==> d.previous.value in d.dirs)
    && (d.active.None? ==> d.previous.None?)
    && match m.pc
       case Chaining(_, was) =>
         && (was.Some? ==> was.value in d.dirs) && (was.None? ==> d.previous.None?)
       case Updating(_) => Linked(d.previous, m.mem.revision)
       case _ => Linked(d.previous, m.mem.previous)
  }

  /** The step is neither a crash nor a failure to move the previous link. */
  predicate Smooth(m: Machine, st: Step) {
    !st.Crash? && (m.pc.Chaining? && st.Go? ==> st.outcome.Done?)
  }

  ghost predicate AllSmooth(e: Env, m: Machine, steps: seq<Step>)
    requires Runs(e, m, steps)
    decreases |steps|
  {
    steps == [] ||
    (Smooth(m, steps[0]) && AllSmooth(e, Do(e, m, steps[0]), steps[1..]))
  }

  lemma ChainedStep(e: Env, m: Machine, st: Step)
    requires Inv(e, m) && Agree(m) && Chained(m) && Can(m, st) && Smooth(m, st)
    ensures Agree(Do(e, m, st)) && Chained(Do(e, m, st))
  {
    hide Valid, IsScan, Victims;
    if m.pc.Removing? && m.pc.victims != [] {
      assert m.pc.victims[0] in m.pc.victims;
    }
  }

  /**
   * In runs without crashes in which the previous link moves whenever it should, it names the
   * revision applied before the current one, and pruning leaves that revision on disk.
   */
  lemma {:induction false} PreviousIsKept(e: Env, m: Machine, steps: seq<Step>)
    requires Inv(e, m) && Agree(m) && Chained(m) && Runs(e, m, steps) && AllSmooth(e, m, steps)
    ensures Agree(End(e, m, steps)) && Chained(End(e, m, steps))
    decreases |steps|
  {
    if steps != [] {
      StepKeepsInv(e, m, steps[0]);
      ChainedStep(e, m, steps[0]);
      PreviousIsKept(e, Do(e, m, steps[0]), steps[1..]);
    }
  }

  // ----- what a crash can break -----

  /** No save is lost, and no crash falls between the switch and the save of another revision. */
  predicate Careful(e: Env, m: Machine, st: Step) {
    && (m.pc.Saving? && st.Go? ==> st.outcome.Done?)
    && (st.Crash? && InWindow(m) ==> RevOf(e, m.pc.raw) == m.disk.saved.revision)
  }

  ghost predicate AllCareful(e: Env, m: Machine, steps: seq<Step>)
    requires Runs(e, m, steps)
    decreases |steps|
  {
    steps == [] ||
    (Careful(e, m, steps[0]) && AllCareful(e, Do(e, m, steps[0]), steps[1..]))
  }

  /** The state file agrees with the active link, except in the window. */
  ghost predicate Durable(m: Machine) {
    && (!m.pc.Saving? ==> m.disk.saved == m.mem)
    && (!InWindow(m) ==> Linked(m.disk.active, m.disk.saved.revision))
  }

  lemma {:induction false} DurableRuns(e: Env, m: Machine, steps: seq<Step>)
    requires Inv(e, m) && Durable(m) && Runs(e, m, steps) && AllCareful(e, m, steps)
    ensures Durable(End(e, m, steps))
    decreases |steps|
  {
    if steps != [] {
      StepKeepsInv(e, m, steps[0]);
      DurableRuns(e, Do(e, m, steps[0]), steps[1..]);
    }
  }

  /**
   * Exactly when a crash breaks the agreement: with every save completed so far, the agent
   * restarts agreeing with its active link iff the crash does not fall between switching the
   * link and saving the state, for a revision other than the saved one.
   */
  lemma CrashBreaksAgreementIff(e: Env, steps: seq<Step>)
    requires Runs(e, INIT, steps) && AllCareful(e, INIT, steps)
    ensures var m := End(e, INIT, steps);
            Agree(Restarted(m.disk)) <==> !(InWindow(m) && RevOf(e, m.pc.raw) != m.disk.saved.revision)
  {
    RunKeepsInv(e, INIT, steps);
    DurableRuns(e, INIT, steps);
  }

  // ----- pruning -----

  function Kept(e: Env, mem: Applied, order: seq<RevId>): seq<RevId> {
    if |order| <= Spare(e, mem) then order else order[..Spare(e, mem)]
  }

  /** Cutting a sequence without repetition splits its elements. */
  lemma CutSplits<T>(front: seq<T>, back: seq<T>)
    requires Distinct(front + back)
    ensures Distinct(front)
    ensures ToSet(front + back) == ToSet(front) + ToSet(back) && ToSet(front) !! ToSet(back)
  {
    var all := front + back;
    forall i, j | 0 <= i < j < |front| ensures front[i] != front[j] {
      assert all[i] != all[j];
    }
    forall i, j | 0 <= i < |front| && 0 <= j < |back| ensures front[i] != back[j] {
      assert all[i] != all[|front| + j];
    }
  }

  /** The scan splits into what stays and what goes, and no more than the room allows stays. */
  lemma ScanSplits(e: Env, dirs: map<RevId, Dir>, mem: Applied, order: seq<RevId>)
    requires IsScan(dirs, mem, order) && ToSet(order) == Candidates(dirs, mem)
    ensures Candidates(dirs, mem) * (dirs - ToSet(Victims(e, mem, order))).Keys == ToSet(Kept(e, mem, order))
    ensures |ToSet(Kept(e, mem, order))| == |Kept(e, mem, order)| && |Candidates(dirs, mem)| == |order|
  {
    var kept, victims := Kept(e, mem, order), Victims(e, mem, order);
    assert order == kept + victims;
    assert Candidates(dirs, mem) <= dirs.Keys;
    DistinctCardinality(order);
    CutSplits(kept, victims);
    DistinctCardinality(kept);
    hide Distinct, ToSet, Candidates, Kept, Victims, SortedBy;
    assert (dirs - ToSet(victims)).Keys == dirs.Keys - ToSet(victims);
  }

  /** Nothing that stays is older than something that goes. */
  lemma NewestStay(e: Env, dirs: map<RevId, Dir>, mem: Applied, order: seq<RevId>, k: RevId, r: RevId)
    requires IsScan(dirs, mem, order) && k in Kept(e, mem, order) && r in Victims(e, mem, order)
    ensures k in dirs && r in dirs && dirs[k].modified >= dirs[r].modified
  {
    var kept, victims := Kept(e, mem, order), Victims(e, mem, order);
    var i :| 0 <= i < |kept| && kept[i] == k;
    var j :| 0 <= j < |victims| && victims[j] == r;
    assert order[i] == k && order[|kept| + j] == r;
    assert k in ToSet(order) && r in ToSet(order);
    assert !Newer(dirs, order[|kept| + j], order[i]);
  }

  /**
   * A complete prune keeps the applied and the previous revision, keeps of the others as many
   * as there is room for and those the newest, and leaves at most max(keep, 2) directories.
   */
  lemma PruneKeepsNewest(e: Env, dirs: map<RevId, Dir>, mem: Applied, order: seq<RevId>)
    requires IsScan(dirs, mem, order) && ToSet(order) == Candidates(dirs, mem)
    ensures var rest := dirs - ToSet(Victims(e, mem, order));
            var others := Candidates(dirs, mem);
            && (forall d :: d in dirs && (d == mem.revision || d == mem.previous) ==> d in rest)
            && (forall k, r :: k in others && k in rest && r in dirs && r !in rest ==>
                  dirs[k].modified >= dirs[r].modified)
            && |others * rest.Keys| == (if |others| <= Spare(e, mem) then |others| else Spare(e, mem))
            && |rest.Keys - {""}| <= Max(Keep(e), 2)
  {
    var others, kept := Candidates(dirs, mem), Kept(e, mem, order);
    var rest := dirs - ToSet(Victims(e, mem, order));
    ScanSplits(e, dirs, mem, order);
    VictimsUnguarded(e, dirs, mem, order);
    forall k, r | k in others && k in rest && r in dirs && r !in rest ensures dirs[k].modified >= dirs[r].modified {
      assert k in others * rest.Keys;
      NewestStay(e, dirs, mem, order, k, r);
    }
    hide IsScan, Victims, SortedBy, Distinct;
    RoomFor(e, dirs, mem, rest, others * rest.Keys);
  }

  /** Guarded directories and those there is room for are at most max(keep, 2). */
  lemma RoomFor(e: Env, dirs: map<RevId, Dir>, mem: Applied, rest: map<RevId, Dir>, kept: set<RevId>)
    requires rest.Keys <= dirs.Keys && kept == Candidates(dirs, mem) * rest.Keys && |kept| <= Spare(e, mem)
    ensures |rest.Keys - {""}| <= Max(Keep(e), 2)
  {
    var guarded := {mem.revision, mem.previous};
    assert |guarded| == if mem.revision == mem.previous then 1 else 2;
    assert rest.Keys - {""} <= guarded + kept;
    SubsetSize(rest.Keys - {""}, guarded + kept);
    assert |guarded + kept| <= |guarded| + |kept|;
  }

  function Removed(dirs: map<RevId, Dir>, victims: seq<RevId>, out: RevId -> Outcome): map<RevId, Dir> {
    if victims == [] then dirs else Removed(RemoveOne(dirs, victims[0], out(victims[0])), victims[1..], out)
  }

  lemma {:induction false} RemovedAll(dirs: map<RevId, Dir>, victims: seq<RevId>, out: RevId -> Outcome)
    requires forall v :: v in victims ==> out(v) == Done
    ensures Removed(dirs, victims, out) == dirs - ToSet(victims)
  {
    if victims != [] {
      RemovedAll(RemoveOne(dirs, victims[0], out(victims[0])), victims[1..], out);
      assert victims == [victims[0]] + victims[1..];
      assert ToSet(victims) == {victims[0]} + ToSet(victims[1..]);
    } else {
      assert ToSet(victims) == {};
    }
  }

  // ----- one push from start to end -----

  /** How the effects of one push end; the listing comes in any order, and ties in age are kept as listed. */
  datatype Io = Io(
    mkdir: bool, write: bool, link: bool, chain: bool, save: bool,
    list: set<RevId> -> Option<seq<RevId>>, remove: RevId -> Outcome, now: nat)

  ghost predicate IoOk(io: Io) {
    forall s :: io.list(s).Some? ==> Distinct(io.list(s).value) && ToSet(io.list(s).value) == s
  }

  function ScanOrder(dirs: map<RevId, Dir>, mem: Applied, listing: seq<RevId>): seq<RevId> {
    Sort(Filter(listing, d => d in Candidates(dirs, mem)), (a, b) => Newer(dirs, a, b))
  }

  lemma ScanOrderIsScan(dirs: map<RevId, Dir>, mem: Applied, listing: seq<RevId>)
    requires Distinct(listing) && ToSet(listing) == dirs.Keys - {""}
    ensures IsScan(dirs, mem, ScanOrder(dirs, mem, listing))
    ensures ToSet(ScanOrder(dirs, mem, listing)) == Candidates(dirs, mem)
  {
    var keep := d => d in Candidates(dirs, mem);
    var less := (a, b) => Newer(dirs, a, b);
    var items := Filter(listing, keep);
    FilterMembers(listing, keep);
    FilterDistinct(listing, keep);
    assert forall d :: d in items <==> d in Candidates(dirs, mem) by {
      forall d | d in Candidates(dirs, mem) ensures d in listing {
        assert d in ToSet(listing);
      }
    }
    assert forall d :: d in items ==> d in dirs;
    SortIsSortOf(items, less);
    SortMultiset(items, less);
    PermutationDistinct(items, Sort(items, less));
    assert ToSet(Sort(items, less)) == Candidates(dirs, mem);
    assert ScanOrder(dirs, mem, listing) == Sort(items, less);
  }

  function Swept(e: Env, dirs: map<RevId, Dir>, mem: Applied, io: Io): map<RevId, Dir> {
    match io.list(dirs.Keys - {""})
    case None => dirs
    case Some(listing) => Removed(dirs, Victims(e, mem, ScanOrder(dirs, mem, listing)), io.remove)
  }

  /** The machine after a push that was not interrupted. */
  ghost function Handled(e: Env, m: Machine, raw: Raw, io: Io): Machine
    requires m.pc.Idle?
  {
    var rev := RevOf(e, raw);
    if !Valid(e, raw) then m.(degraded := true)
    else if Known(e, m.mem, raw) || !io.mkdir then m
    else
      var made := WithDir(m.disk, rev, io.now);
      if !io.write then m.(disk := made)
      else
        var written := WithConfig(made, rev, raw, io.now);
        if !io.link then m.(disk := written)
        else
          var linked := WithPrevious(written.(active := Some(rev)), written.active, io.chain);
          var mem := Updated(e, m.mem, raw);
          var saved := if io.save then linked.(saved := mem) else linked;
          Machine(saved.(dirs := Swept(e, saved.dirs, mem, io)), mem, false, Idle)
  }

  /** The push is acknowledged. */
  ghost predicate Acked(e: Env, m: Machine, raw: Raw, io: Io) {
    Valid(e, raw) && (Known(e, m.mem, raw) || (io.mkdir && io.write && io.link))
  }

  function Went(ok: bool, io: Io): Step {
    Go(if ok then Done else Failed, io.now)
  }

  function RemovalSteps(victims: seq<RevId>, io: Io): seq<Step> {
    if victims == [] then [] else [Go(io.remove(victims[0]), io.now)] + RemovalSteps(victims[1..], io)
  }

  lemma SingleStep(e: Env, m: Machine, st: Step)
    requires Can(m, st)
    ensures Runs(e, m, [st]) && End(e, m, [st]) == Do(e, m, st)
  {
    assert [st][1..] == [];
    assert Runs(e, Do(e, m, st), []);
  }

  lemma {:induction false} RunsJoin(e: Env, m: Machine, a: seq<Step>, b: seq<Step>)
    requires Runs(e, m, a) && Runs(e, End(e, m, a), b)
    ensures Runs(e, m, a + b) && End(e, m, a + b) == End(e, End(e, m, a), b)
    decreases |a|
  {
    if a == [] {
      assert a + b == b;
    } else {
      RunsJoin(e, Do(e, m, a[0]), a[1..], b);
      assert (a + b)[1..] == a[1..] + b;
    }
  }

  lemma Extend(e: Env, m: Machine, steps: seq<Step>, st: Step)
    requires Runs(e, m, steps) && Can(End(e, m, steps), st)
    ensures Runs(e, m, steps + [st]) && End(e, m, steps + [st]) == Do(e, End(e, m, steps), st)
  {
    SingleStep(e, End(e, m, steps), st);
    RunsJoin(e, m, steps, [st]);
  }

  lemma {:induction false} RemovalRun(e: Env, m: Machine, victims: seq<RevId>, io: Io)
    requires m.pc == Removal(victims)
    ensures Runs(e, m, RemovalSteps(victims, io)) && Crash !in RemovalSteps(victims, io)
    ensures End(e, m, RemovalSteps(victims, io)) ==
            m.(disk := m.disk.(dirs := Removed(m.disk.dirs, victims, io.remove)), pc := Idle)
    decreases |victims|
  {
    if victims != [] {
      var st := Go(io.remove(victims[0]), io.now);
      SingleStep(e, m, st);
      RemovalRun(e, Do(e, m, st), victims[1..], io);
      RunsJoin(e, m, [st], RemovalSteps(victims[1..], io));
    }
  }

  /** The effects up to the save, as a run that ends where pruning starts. */
  lemma AppliedRun(e: Env, m: Machine, raw: Raw, io: Io) returns (steps: seq<Step>)
    requires m.pc.Idle? && Valid(e, raw) && !Known(e, m.mem, raw)
    requires io.mkdir && io.write && io.link
    ensures Runs(e, m, steps) && Crash !in steps
    ensures var rev, mem := RevOf(e, raw), Updated(e, m.mem, raw);
            var written := WithConfig(WithDir(m.disk, rev, io.now), rev, raw, io.now);
            var linked := WithPrevious(written.(active := Some(rev)), written.active, io.chain);
            End(e, m, steps) ==
            Machine(if io.save then linked.(saved := mem) else linked, mem, false, Scanning)
  {
    var rev := RevOf(e, raw);
    var went := Go(Done, io.now);
    SingleStep(e, m, Receive(raw));
    var m1 := m.(pc := Making(raw));
    assert Do(e, m, Receive(raw)) == m1;
    hide Runs, End;
    steps := [Receive(raw), went];
    Extend(e, m, [Receive(raw)], went);
    var m2 := m1.(disk := WithDir(m.disk, rev, io.now), pc := Writing(raw));
    assert steps == [Receive(raw)] + [went] && End(e, m, steps) == m2;
    Extend(e, m, steps, went);
    steps := steps + [went];
    var m3 := m2.(disk := WithConfig(m2.disk, rev, raw, io.now), pc := Linking(raw));
    assert End(e, m, steps) == m3;
    Extend(e, m, steps, went);
    steps := steps + [went];
    var m4 := m3.(disk := m3.disk.(active := Some(rev)), pc := Chaining(raw, m3.disk.active));
    assert End(e, m, steps) == m4;
    Extend(e, m, steps, Went(io.chain, io));
    steps := steps + [Went(io.chain, io)];
    var m5 := m4.(disk := WithPrevious(m4.disk, m3.disk.active, io.chain), pc := Updating(raw));
    assert End(e, m, steps) == m5;
    Extend(e, m, steps, went);
    steps := steps + [went];
    var mem := Updated(e, m.mem, raw);
    var m6 := m5.(mem := mem, degraded := false, pc := Saving(raw));
    assert End(e, m, steps) == m6;
    Extend(e, m, steps, Went(io.save, io));
    steps := steps + [Went(io.save, io)];
    assert End(e, m, steps) == m6.(disk := if io.save then m6.disk.(saved := mem) else m6.disk, pc := Scanning);
  }

  /** A push stopped by a failing effect, as a run. */
  lemma FailedRun(e: Env, m: Machine, raw: Raw, io: Io) returns (steps: seq<Step>)
    requires m.pc.Idle? && Valid(e, raw) && !Known(e, m.mem, raw)
    requires !(io.mkdir && io.write && io.link)
    ensures Runs(e, m, steps) && Crash !in steps && End(e, m, steps) == Handled(e, m, raw, io)
  {
    var rev := RevOf(e, raw);
    SingleStep(e, m, Receive(raw));
    var m1 := m.(pc := Making(raw));
    assert Do(e, m, Receive(raw)) == m1;
    hide Runs, End, Swept;
    steps := [Receive(raw)];
    Extend(e, m, steps, Went(io.mkdir, io));
    steps := steps + [Went(io.mkdir, io)];
    if io.mkdir {
      var m2 := m1.(disk := WithDir(m.disk, rev, io.now), pc := Writing(raw));
      assert End(e, m, steps) == m2;
      Extend(e, m, steps, Went(io.write, io));
      steps := steps + [Went(io.write, io)];
      if io.write {
        var m3 := m2.(disk := WithConfig(m2.disk, rev, raw, io.now), pc := Linking(raw));
        assert End(e, m, steps) == m3;
        Extend(e, m, steps, Went(io.link, io));
        steps := steps + [Went(io.link, io)];
      }
    }
  }

  /** Every uninterrupted push is a run of the machine without crashes. */
  lemma HandledIsRun(e: Env, m: Machine, raw: Raw, io: Io) returns (steps: seq<Step>)
    requires m.pc.Idle? && IoOk(io)
    ensures Runs(e, m, steps) && Crash !in steps && End(e, m, steps) == Handled(e, m, raw, io)
  {
    if !Valid(e, raw) || Known(e, m.mem, raw) {
      steps := [Receive(raw)];
      SingleStep(e, m, Receive(raw));
    } else if !(io.mkdir && io.write && io.link) {
      steps := FailedRun(e, m, raw, io);
    } else {
      var first := AppliedRun(e, m, raw, io);
      var mid := End(e, m, first);
      var names := mid.disk.dirs.Keys - {""};
      hide Runs, End, WithConfig, WithDir, WithPrevious, Updated;
      if io.list(names).None? {
        Extend(e, m, first, Scan(None));
        steps := first + [Scan(None)];
      } else {
        var order := ScanOrder(mid.disk.dirs, mid.mem, io.list(names).value);
        ScanOrderIsScan(mid.disk.dirs, mid.mem, io.list(names).value);
        var victims := Victims(e, mid.mem, order);
        var scan := Scan(Some(order));
        Extend(e, m, first, scan);
        var pruning := Do(e, mid, scan);
        RemovalRun(e, pruning, victims, io);
        RunsJoin(e, m, first + [scan], RemovalSteps(victims, io));
        steps := first + [scan] + RemovalSteps(victims, io);
      }
    }
  }

  /** An agent that agrees with its link acknowledges a push only once that revision is the active one. */
  lemma AckMeansActive(e: Env, m: Machine, raw: Raw, io: Io)
    requires Inv(e, m) && m.pc.Idle? && Agree(m) && IoOk(io) && Acked(e, m, raw, io)
    ensures var t := Handled(e, m, raw, io);
            Inv(e, t) && t.mem.revision == RevOf(e, raw) && Linked(t.disk.active, RevOf(e, raw))
  {
    var steps := HandledIsRun(e, m, raw, io);
    RunKeepsInv(e, m, steps);
  }

  /** The push gets as far as switching the active link. */
  ghost predicate Switches(e: Env, m: Machine, raw: Raw, io: Io) {
    Valid(e, raw) && !(RevOf(e, raw) == m.mem.revision && e.sha(raw) == m.mem.sha) && io.mkdir && io.write && io.link
  }

  /**
   * What a push that switches leaves, apart from pruning: the configuration stored as it was
   * sent and active, the revision active before behind the previous link, and memory and
   * state file naming both; what could not be written is as it was.
   */
  lemma SwitchMeaning(e: Env, m: Machine, raw: Raw, io: Io)
    requires m.pc.Idle? && IoOk(io) && Switches(e, m, raw, io)
    ensures var t, rev := Handled(e, m, raw, io), RevOf(e, raw);
            && e.parse(raw).Some? && rev == e.parse(raw).value.revisionId
            && t.mem == Applied(rev, e.parse(raw).value.sequence, e.sha(raw), m.mem.revision) && !t.degraded && t.pc.Idle?
            && t.disk.active == Some(rev)
            && t.disk.previous == (if m.disk.active.Some? && io.chain then m.disk.active else m.disk.previous)
            && t.disk.saved == (if io.save then t.mem else m.disk.saved)
            && rev in t.disk.dirs && t.disk.dirs[rev].config == Some(raw)
            && t.disk.dirs[rev].modified ==
               (if rev in m.disk.dirs && m.disk.dirs[rev].config.Some? then m.disk.dirs[rev].modified else io.now)
  {
    var rev := RevOf(e, raw);
    var written := WithConfig(WithDir(m.disk, rev, io.now), rev, raw, io.now);
    var mem := Updated(e, m.mem, raw);
    SweptKeeps(e, written.dirs, mem, io, rev);
    hide Swept, Acceptable, IoOk;
  }

  /**
   * A valid push that fails before the switch is not acknowledged and leaves memory, links and
   * state file; only its own directory may be new.
   */
  lemma FailureMeaning(e: Env, m: Machine, raw: Raw, io: Io)
    requires m.pc.Idle? && Valid(e, raw) && !(RevOf(e, raw) == m.mem.revision && e.sha(raw) == m.mem.sha)
    requires !(io.mkdir && io.write && io.link)
    ensures var t, rev := Handled(e, m, raw, io), RevOf(e, raw);
            && !Acked(e, m, raw, io)
            && t == m.(disk := m.disk.(dirs := t.disk.dirs))
            && (forall d :: d != rev ==>
                  (d in t.disk.dirs <==> d in m.disk.dirs) && (d in t.disk.dirs ==> t.disk.dirs[d] == m.disk.dirs[d]))
            && (!io.mkdir ==> t == m)
            && (io.mkdir ==> rev in t.disk.dirs)
            && (io.mkdir && io.write ==> t.disk.dirs[rev].config == Some(raw))
  {
    hide Acceptable, Swept, Updated;
  }

  lemma {:induction false} RemovedOthers(dirs: map<RevId, Dir>, victims: seq<RevId>, out: RevId -> Outcome, d: RevId)
    requires d !in victims
    ensures d in Removed(dirs, victims, out) <==> d in dirs
    ensures d in dirs ==> Removed(dirs, victims, out)[d] == dirs[d]
  {
    if victims != [] {
      RemovedOthers(RemoveOne(dirs, victims[0], out(victims[0])), victims[1..], out, d);
    }
  }

  /** Pruning spares the applied revision. */
  lemma SweptKeeps(e: Env, dirs: map<RevId, Dir>, mem: Applied, io: Io, d: RevId)
    requires IoOk(io) && d in dirs && d == mem.revision
    ensures d in Swept(e, dirs, mem, io) && Swept(e, dirs, mem, io)[d] == dirs[d]
  {
    var names := dirs.Keys - {""};
    if io.list(names).Some? {
      var order := ScanOrder(dirs, mem, io.list(names).value);
      ScanOrderIsScan(dirs, mem, io.list(names).value);
      VictimsUnguarded(e, dirs, mem, order);
      hide Victims, ScanOrder, IsScan;
      RemovedOthers(dirs, Victims(e, mem, order), io.remove, d);
    }
  }

  /** A listing was had, and every removal worked. */
  ghost predicate CleanSweep(io: Io) {
    (forall s :: io.list(s).Some?) && (forall d :: io.remove(d) == Done)
  }

  /** How many directories are kept. */
  function KeepCount(e: Env): int {
    if e.keepRevisions <= 0 then 3 else e.keepRevisions
  }

  /** Of the directories that are not guarded the newest stay, as many as are kept beside the guarded ones. */
  ghost predicate NewestKept(dirs: map<RevId, Dir>, after: set<RevId>, guarded: set<RevId>, keep: int) {
    var others := dirs.Keys - guarded - {""};
    && (forall k, r :: k in others && k in after && r in dirs && r !in after ==> dirs[k].modified >= dirs[r].modified)
    && |others * after| == (if |others| <= keep - |guarded| then |others| else Max(0, keep - |guarded|))
  }

  lemma CleanlySwept(e: Env, dirs: map<RevId, Dir>, mem: Applied, io: Io) returns (order: seq<RevId>)
    requires IoOk(io) && CleanSweep(io)
    ensures IsScan(dirs, mem, order) && ToSet(order) == Candidates(dirs, mem)
    ensures Swept(e, dirs, mem, io) == dirs - ToSet(Victims(e, mem, order))
  {
    order := ScanOrder(dirs, mem, io.list(dirs.Keys - {""}).value);
    ScanOrderIsScan(dirs, mem, io.list(dirs.Keys - {""}).value);
    hide ScanOrder, IsScan, Victims, Candidates;
    RemovedAll(dirs, Victims(e, mem, order), io.remove);
  }

  lemma RoomIs(e: Env, mem: Applied)
    ensures Spare(e, mem) == Max(0, KeepCount(e) - |{mem.revision, mem.previous}|) && Keep(e) == KeepCount(e)
  {
    assert |{mem.revision, mem.previous}| == if mem.revision == mem.previous then 1 else 2;
  }

  lemma SweepKeepsNewest(e: Env, dirs: map<RevId, Dir>, mem: Applied, io: Io)
    requires IoOk(io) && CleanSweep(io)
    ensures var rest := Swept(e, dirs, mem, io);
            && rest.Keys <= dirs.Keys && (forall d :: d in rest ==> rest[d] == dirs[d])
            && (forall d :: d in dirs && (d == mem.revision || d == mem.previous) ==> d in rest)
            && NewestKept(dirs, rest.Keys, {mem.revision, mem.previous}, KeepCount(e))
            && |rest.Keys - {""}| <= Max(KeepCount(e), 2)
  {
    var order := CleanlySwept(e, dirs, mem, io);
    PruneKeepsNewest(e, dirs, mem, order);
    RoomIs(e, mem);
    CandidatesAre(dirs, mem);
    hide *;
    NewestIs(dirs, (dirs - ToSet(Victims(e, mem, order))).Keys, {mem.revision, mem.previous}, KeepCount(e));
  }

  lemma CandidatesAre(dirs: map<RevId, Dir>, mem: Applied)
    ensures Candidates(dirs, mem) == dirs.Keys - {mem.revision, mem.previous} - {""}
  {
  }

  lemma NewestIs(dirs: map<RevId, Dir>, after: set<RevId>, guarded: set<RevId>, keep: int)
    requires var others := dirs.Keys - guarded - {""};
             && (forall k, r :: k in others && k in after && r in dirs && r !in after ==> dirs[k].modified >= dirs[r].modified)
             && |others * after| == (if |others| <= Max(0, keep - |guarded|) then |others| else Max(0, keep - |guarded|))
    ensures NewestKept(dirs, after, guarded, keep)
  {
  }

  /** Storing one more guarded directory does not change which others are the newest. */
  lemma NewestWith(before: map<RevId, Dir>, dirs: map<RevId, Dir>, after: set<RevId>, guarded: set<RevId>, keep: int, rev: RevId)
    requires NewestKept(dirs, after, guarded, keep) && rev in guarded && rev in after
    requires dirs.Keys == before.Keys + {rev} && forall d :: d in before && d != rev ==> dirs[d] == before[d]
    ensures NewestKept(before, after, guarded, keep)
  {
    assert dirs.Keys - guarded - {""} == before.Keys - guarded - {""};
  }

  /**
   * The directories after such a push, when they could be listed and removed: the new and the
   * previously applied revision stay, and of the others the newest, up to the number kept;
   * what stays is unchanged.
   */
  lemma PushKeepsNewest(e: Env, m: Machine, raw: Raw, io: Io)
    requires m.pc.Idle? && IoOk(io) && Switches(e, m, raw, io) && CleanSweep(io)
    ensures var before, after, rev := m.disk.dirs, Handled(e, m, raw, io).disk.dirs, RevOf(e, raw);
            && rev in after && after.Keys <= before.Keys + {rev}
            && (m.mem.revision in before ==> m.mem.revision in after)
            && (forall d :: d in after && d != rev ==> after[d] == before[d])
            && NewestKept(before, after.Keys, {rev, m.mem.revision}, KeepCount(e))
            && |after.Keys - {""}| <= Max(KeepCount(e), 2)
  {
    var rev := RevOf(e, raw);
    var dirs, mem := BeforeSweep(e, m, raw, io);
    hide Handled, Swept, IoOk, Switches, CleanSweep, NewestKept, KeepCount, RevOf;
    SweepKeepsNewest(e, dirs, mem, io);
    NewestWith(m.disk.dirs, dirs, Swept(e, dirs, mem, io).Keys, {rev, m.mem.revision}, KeepCount(e), rev);
  }

  /** The directories and the memory as a push hands them to pruning. */
  lemma BeforeSweep(e: Env, m: Machine, raw: Raw, io: Io) returns (dirs: map<RevId, Dir>, mem: Applied)
    requires m.pc.Idle? && Switches(e, m, raw, io)
    ensures Handled(e, m, raw, io).disk.dirs == Swept(e, dirs, mem, io)
    ensures mem.revision == RevOf(e, raw) && mem.previous == m.mem.revision
    ensures dirs.Keys == m.disk.dirs.Keys + {RevOf(e, raw)}
    ensures forall d :: d in m.disk.dirs && d != RevOf(e, raw) ==> dirs[d] == m.disk.dirs[d]
  {
    var rev := RevOf(e, raw);
    dirs := WithConfig(WithDir(m.disk, rev, io.now), rev, raw, io.now).dirs;
    mem := Updated(e, m.mem, raw);
    hide Swept, Acceptable;
  }

  /**
   * The agreement is needed: after a crash between the switch and the save, the agent
   * acknowledges the old revision without touching its disk, while the new one is active.
   */
  lemma StaleAck(e: Env, a: Raw, b: Raw) returns (steps: seq<Step>)
    requires Valid(e, a) && Valid(e, b) && RevOf(e, a) != RevOf(e, b) && RevOf(e, a) != "" && RevOf(e, b) != ""
    ensures Runs(e, INIT, steps)
    ensures var m := End(e, INIT, steps);
            && m.pc.Idle? && !m.degraded && m.disk.active == Some(RevOf(e, b))
            && Can(m, Receive(a)) && Do(e, m, Receive(a)) == m && m.mem.revision == RevOf(e, a)
  {
    var io := Io(true, true, true, true, true, _ => None, _ => Done, 0);
    assert IoOk(io);
    var went := Go(Done, 0);
    steps := HandledIsRun(e, INIT, a, io);
    var m := Handled(e, INIT, a, io);
    assert m.pc.Idle? && m.mem == m.disk.saved && m.mem.revision == RevOf(e, a) && m.mem.sha == e.sha(a);
    hide Runs, End, Handled, Acceptable;
    Extend(e, INIT, steps, Receive(b));
    steps := steps + [Receive(b)];
    var m1 := m.(pc := Making(b));
    assert End(e, INIT, steps) == m1;
    Extend(e, INIT, steps, went);
    steps := steps + [went];
    var m2 := m1.(disk := WithDir(m.disk, RevOf(e, b), 0), pc := Writing(b));
    assert End(e, INIT, steps) == m2;
    Extend(e, INIT, steps, went);
    steps := steps + [went];
    var m3 := m2.(disk := WithConfig(m2.disk, RevOf(e, b), b, 0), pc := Linking(b));
    assert End(e, INIT, steps) == m3;
    Extend(e, INIT, steps, went);
    steps := steps + [went];
    assert End(e, INIT, steps).disk.active == Some(RevOf(e, b)) && End(e, INIT, steps).disk.saved == m.mem;
    Extend(e, INIT, steps, Crash);
    steps := steps + [Crash];
  }

  // ----- the handler as it runs -----

  class Agent {
    var applied: Applied
    var degraded: bool
    var dirs: map<RevId, Dir>
    var active: Option<RevId>
    var previous: Option<RevId>
    var saved: Applied

    function View(): Machine
      reads this
    {
      Machine(Disk(dirs, active, previous, saved), applied, degraded, Idle)
    }

    /** Starts on what is on the disk, with the saved state in memory. */
    constructor (d: Disk)
      ensures View() == Restarted(d)
      ensures View().disk == d && applied == d.saved && !degraded
    {
      dirs, active, previous, saved := d.dirs, d.active, d.previous, d.saved;
      applied, degraded := d.saved, false;
    }

    method HandleConfig(e: Env, raw: Raw, io: Io) returns (ok: bool)
      requires IoOk(io)
      modifies this
      ensures View() == Handled(e, old(View()), raw, io)
      ensures ok <==> Acked(e, old(View()), raw, io)
      ensures !Valid(e, raw) ==> View().disk == old(View().disk) && applied == old(applied) && degraded && !ok
      ensures Valid(e, raw) && RevOf(e, raw) == old(applied).revision && e.sha(raw) == old(applied).sha ==>
                ok && View() == old(View())
    {
      var parsed := e.parse(raw);
      if parsed.None? {
        degraded := true;
        return false;
      }
      var cfg := parsed.value;
      var bad := Validate(cfg, e.nodeId, e.role);
      if bad.Some? {
        degraded := true;
        return false;
      }
      var got := e.sha(raw);
      if cfg.revisionId == applied.revision && got == applied.sha { return true; }
      var rev := cfg.revisionId;
      if !io.mkdir { return false; }
      if rev !in dirs { dirs := dirs[rev := Dir(None, io.now)]; }
      if !io.write { return false; }
      var modified := if dirs[rev].config.None? then io.now else dirs[rev].modified;
      dirs := dirs[rev := Dir(Some(raw), modified)];
      var was := active;
      if !io.link { return false; }
      active := Some(rev);
      if was.Some? && io.chain { previous := was; }
      applied := Applied(rev, cfg.sequence, got, applied.revision);
      degraded := false;
      if io.save { saved := applied; }
      PruneRevisions(e, io);
      return true;
    }

    /** Sorts the unprotected directories by age and removes those there is no room for. */
    method PruneRevisions(e: Env, io: Io)
      requires IoOk(io)
      modifies this`dirs
      ensures dirs == Swept(e, old(dirs), applied, io)
    {
      var before, mem := dirs, applied;
      var entries := io.list(dirs.Keys - {""});
      if entries.None? { return; }
      var listing := entries.value;
      var items: seq<RevId> := [];
      for i := 0 to |listing|
        invariant dirs == before
        invariant items == Filter(listing[..i], d => d in Candidates(before, mem))
      {
        var name := listing[i];
        assert name in ToSet(listing);
        assert listing[..i + 1][..i] == listing[..i];
        if name != mem.revision && name != mem.previous {
          items := items + [name];
        }
      }
      assert listing[..|listing|] == listing;
      var order := Sort(items, (a, b) => Newer(before, a, b));
      assert order == ScanOrder(before, mem, listing);
      var keep := (if e.keepRevisions <= 0 then 3 else e.keepRevisions) - |{mem.revision, mem.previous}|;
      if keep < 0 { keep := 0; }
      assert keep == Spare(e, mem);
      for i := 0 to |order|
        invariant i <= keep ==> dirs == before
        invariant i > keep ==> Removed(dirs, order[i..], io.remove) == Removed(before, order[keep..], io.remove)
      {
        if i >= keep {
          assert order[i..][1..] == order[i + 1..];
          dirs := RemoveOne(dirs, order[i], io.remove(order[i]));
        }
      }
      if |order| > keep {
        assert order[|order|..] == [];
      }
    }
  }
}
