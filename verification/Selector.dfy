/** The egress pool of one service: building it, ordering it and dialling through it. */
module Selector {
  import opened Collections
  import opened Model
  import opened Health
  import opened Ordering
  import PoolOrder

  /** What one dial attempt at a relay comes to; failures carry the error text. */
  datatype Outcome = Connected(ms: real) | Failed(text: string, ms: real)

  datatype DialResult =
    | Established(target: nat)
    | Refused(refusedBy: nat, text: string)
    | Exhausted(lastError: Option<string>)

  // ----- policy refusals -----

  const DENIED_TEXT := "destination not allowed"
  const DNS_TEXT := "resolution failed"

  predicate OccursAt(s: string, sub: string, i: int) {
    0 <= i <= |s| - |sub| && s[i..i + |sub|] == sub
  }

  predicate Contains(s: string, sub: string) {
    exists i :: 0 <= i <= |s| && OccursAt(s, sub, i)
  }

  method ContainsText(s: string, sub: string) returns (found: bool)
    ensures found <==> Contains(s, sub)
  {
    if |s| < |sub| { return false; }
    var i := 0;
    while i + |sub| <= |s|
      invariant 0 <= i <= |s| - |sub| + 1
      invariant forall k :: 0 <= k < i ==> !OccursAt(s, sub, k)
    {
      if s[i..i + |sub|] == sub {
        assert OccursAt(s, sub, i);
        return true;
      }
      i := i + 1;
    }
    return false;
  }

  predicate IsPolicyRefusal(text: string) {
    Contains(text, DENIED_TEXT) || Contains(text, DNS_TEXT)
  }

  // ----- pools over values -----

  function Thresholds(p: EgressPolicy): (int, int) {
    (if p.failThreshold <= 0 then 3 else p.failThreshold,
     if p.riseThreshold <= 0 then 2 else p.riseThreshold)
  }

  /** The record a target starts with: the last record an earlier pool holds for its node, or a fresh one. */
  function Inherited(prev: seq<Member>, id: string): Health {
    if prev == [] then FRESH
    else if prev[|prev| - 1].info.nodeId == id
    then Health(prev[|prev| - 1].health.healthy, 0, 0, prev[|prev| - 1].health.latency)
    else Inherited(prev[..|prev| - 1], id)
  }

  predicate ByPriority(a: Member, b: Member) {
    a.info.priority < b.info.priority
  }

  function NewMembers(targets: seq<EgressTarget>, prev: seq<Member>): seq<Member> {
    seq(|targets|, i requires 0 <= i < |targets| => Member(targets[i], Inherited(prev, targets[i].nodeId)))
  }

  /** Position `k` is the last of its node. */
  ghost predicate IsLast(ms: seq<Member>, id: string, k: nat) {
    k < |ms| && ms[k].info.nodeId == id && forall j :: k < j < |ms| ==> ms[j].info.nodeId != id
  }

  /**
   * A new target's record: the verdict and latency of the last earlier target of its node, or
   * healthy and unmeasured if there was none; the counters start again.
   */
  ghost predicate TakesOver(prev: seq<Member>, id: string, h: Health) {
    && h.fails == 0 && h.successes == 0
    && (forall k: nat :: IsLast(prev, id, k) ==> h.healthy == prev[k].health.healthy && h.latency == prev[k].health.latency)
    && ((forall k :: 0 <= k < |prev| ==> prev[k].info.nodeId != id) ==> h.healthy && h.latency == 0.0)
  }

  /**
   * `src` says which target of the policy each member of the pool is: every one once, the
   * smallest priority number first, equals as the policy lists them.
   */
  ghost predicate BuiltFrom(targets: seq<EgressTarget>, prev: seq<Member>, ms: seq<Member>, src: seq<nat>) {
    && |src| == |ms| == |targets| && Distinct(src)
    && (forall i :: 0 <= i < |ms| ==> src[i] < |targets| && ms[i].info == targets[src[i]]
                                      && TakesOver(prev, ms[i].info.nodeId, ms[i].health))
    && (forall i, j :: 0 <= i < j < |ms| ==>
          || ms[i].info.priority < ms[j].info.priority
          || (ms[i].info.priority == ms[j].info.priority && src[i] < src[j]))
  }

  ghost predicate Built(targets: seq<EgressTarget>, prev: seq<Member>, ms: seq<Member>) {
    exists src: seq<nat> :: BuiltFrom(targets, prev, ms, src)
  }

  lemma {:induction false} InheritedTakesOver(prev: seq<Member>, id: string)
    ensures TakesOver(prev, id, Inherited(prev, id))
  {
    if prev != [] {
      var n := |prev| - 1;
      var front := prev[..n];
      InheritedTakesOver(front, id);
      assert forall k :: 0 <= k < n ==> front[k] == prev[k];
      forall k: nat | IsLast(prev, id, k) ensures k < n ==> IsLast(front, id, k) && prev[n].info.nodeId != id { }
    }
  }

  lemma SortedIsBuilt(targets: seq<EgressTarget>, prev: seq<Member>)
    ensures Built(targets, prev, Sort(NewMembers(targets, prev), ByPriority))
  {
    var ms := NewMembers(targets, prev);
    var src := SortPositions(ms, ByPriority);
    var sorted := Sort(ms, ByPriority);
    forall i | 0 <= i < |ms| ensures TakesOver(prev, ms[i].info.nodeId, ms[i].health) {
      InheritedTakesOver(prev, targets[i].nodeId);
    }
    hide Sort, Inherited, TakesOver;
    assert BuiltFrom(targets, prev, sorted, src);
  }

  /** Trying the targets in the given order. */
  function Dialled(ms: seq<Member>, order: seq<nat>, attempt: nat -> Outcome,
                   fail: int, rise: int, lastError: Option<string>): (seq<Member>, DialResult)
    requires Positions(ms, order)
    decreases |order|
  {
    if order == [] then (ms, Exhausted(lastError))
    else
      var t := order[0];
      match attempt(t)
      case Connected(d) =>
        (ms[t := ms[t].(health := Observe(ms[t].health, Observation(true, d), fail, rise))], Established(t))
      case Failed(text, d) =>
        if IsPolicyRefusal(text) then (ms, Refused(t, text))
        else
          var noted := ms[t := ms[t].(health := Observe(ms[t].health, Observation(false, d), fail, rise))];
          Dialled(noted, order[1..], attempt, fail, rise, Some(text))
  }

  /** A health probe of every target. */
  function Probed(ms: seq<Member>, attempt: nat -> Outcome, fail: int, rise: int, n: nat): seq<Member>
    requires n <= |ms|
    ensures |Probed(ms, attempt, fail, rise, n)| == |ms|
  {
    if n == 0 then ms
    else
      var front := Probed(ms, attempt, fail, rise, n - 1);
      var t := n - 1;
      var o := Observation(attempt(t).Connected?, attempt(t).ms);
      front[t := front[t].(health := Observe(front[t].health, o, fail, rise))]
  }

  // ----- the ordering loops -----

  /** Walks the weights down until the draw is used up; the default 0 is never what it falls back to. */
  method PickByWeight(ms: seq<Member>, ts: seq<nat>, drawn: nat) returns (idx: nat)
    requires Positions(ms, ts)
    requires drawn < Total(WeightsOf(ms, ts))
    ensures idx == PickOf(WeightsOf(ms, ts), drawn)
  {
    ghost var ws := WeightsOf(ms, ts);
    assert ws[..|ws|] == ws;
    var n: int := drawn;
    idx := 0;
    for i := 0 to |ts|
      invariant n == drawn - Total(ws[..i]) && n >= 0
    {
      var w := ms[ts[i]].info.weight;
      if w <= 0 { w := 1; }
      if n < w {
        idx := i;
        assert Picks(ws, drawn, i);
        PickOfPicks(ws, drawn);
        return;
      }
      TotalStep(ws, i);
      n := n - w;
    }
    assert false;
  }

  method WeightedShuffle(ms: seq<Member>, ts: seq<nat>, draw: Draws) returns (out: seq<nat>)
    requires Positions(ms, ts) && FairRange(draw)
    ensures out == Shuffled(ms, ts, draw, 0)
  {
    var rest := ts;
    out := [];
    while rest != []
      invariant Positions(ms, rest)
      invariant out + Shuffled(ms, rest, draw, |out|) == Shuffled(ms, ts, draw, 0)
      decreases |rest|
    {
      var total := TotalWeight(ms, rest);
      TotalPositive(WeightsOf(ms, rest));
      var idx := PickByWeight(ms, rest, draw(|out|, total));
      ghost var picked := [rest[idx]];
      ghost var left := Shuffled(ms, Without(rest, idx), draw, |out| + 1);
      assert out + (picked + left) == (out + picked) + left;
      out := out + [rest[idx]];
      rest := Without(rest, idx);
    }
  }

  method TotalWeight(ms: seq<Member>, ts: seq<nat>) returns (total: nat)
    requires Positions(ms, ts)
    ensures total == Total(WeightsOf(ms, ts))
  {
    ghost var ws := WeightsOf(ms, ts);
    total := 0;
    for i := 0 to |ts|
      invariant total == Total(ws[..i])
    {
      var w := ms[ts[i]].info.weight;
      if w <= 0 { w := 1; }
      total := total + w;
      TotalStep(ws, i);
    }
    assert ws[..|ws|] == ws;
  }

  /** Scans for the sticky target; the last candidate with its id is kept. */
  method FindSticky(ms: seq<Member>, ts: seq<nat>, sticky: string) returns (cur: Option<nat>)
    requires Positions(ms, ts)
    ensures cur == LastWith(ms, ts, sticky)
  {
    cur := None;
    for i := 0 to |ts|
      invariant cur == LastWith(ms, ts[..i], sticky)
    {
      assert ts[..i + 1][..i] == ts[..i];
      if ms[ts[i]].info.nodeId == sticky {
        cur := Some(ts[i]);
      }
    }
    assert ts[..|ts|] == ts;
  }

  method PutFirst(ms: seq<Member>, sorted: seq<nat>, cur: nat) returns (out: seq<nat>)
    requires Positions(ms, sorted) && cur < |ms|
    ensures out == [cur] + Filter(sorted, OtherThan(ms, ms[cur].info.nodeId))
  {
    out := [cur];
    for i := 0 to |sorted|
      invariant out == [cur] + Filter(sorted[..i], OtherThan(ms, ms[cur].info.nodeId))
    {
      assert sorted[..i + 1][..i] == sorted[..i];
      if ms[sorted[i]].info.nodeId != ms[cur].info.nodeId {
        out := out + [sorted[i]];
      }
    }
    assert sorted[..|sorted|] == sorted;
  }

  method OrderByLatency(p: EgressPolicy, ms: seq<Member>, ts: seq<nat>, sticky: string)
    returns (out: seq<nat>, next: string)
    requires Positions(ms, ts)
    ensures (out, next) == ByLatency(p, ms, ts, sticky)
  {
    if |ts| < 2 { return ts, sticky; }
    var sorted := Sort(ts, ByFaster(ms));
    SortKeepsPositions(ms, ts);
    if sticky == "" {
      return sorted, ms[sorted[0]].info.nodeId;
    }
    var cur := FindSticky(ms, ts, sticky);
    LastWithMeaning(ms, ts, sticky);
    if cur.None? || BeatsBothMargins(p, ms[cur.value].health.latency, ms[sorted[0]].health.latency) {
      return sorted, ms[sorted[0]].info.nodeId;
    }
    out := PutFirst(ms, sorted, cur.value);
    next := sticky;
  }

  method SplitByVerdict(ms: seq<Member>) returns (healthy: seq<nat>, unhealthy: seq<nat>)
    ensures healthy == WithVerdict(ms, true, |ms|)
    ensures unhealthy == WithVerdict(ms, false, |ms|)
  {
    healthy, unhealthy := [], [];
    for i := 0 to |ms|
      invariant healthy == WithVerdict(ms, true, i)
      invariant unhealthy == WithVerdict(ms, false, i)
    {
      if ms[i].health.healthy {
        healthy := healthy + [i];
      } else {
        unhealthy := unhealthy + [i];
      }
    }
  }

  // ----- the pool -----

  class Pool {
    var policy: EgressPolicy
    var targets: seq<Target>
    var sticky: string

    ghost predicate Valid()
      reads this
    {
      Distinct(targets)
    }

    function Members(): (ms: seq<Member>)
      reads this, targets
      ensures |ms| == |targets|
    {
      seq(|targets|, i requires 0 <= i < |targets| reads this, targets =>
        Member(targets[i].info, targets[i].Record()))
    }

    /** Keeps the health verdict and latency an earlier pool had for the same nodes. */
    constructor (p: EgressPolicy, prev: seq<Member>)
      ensures Valid() && policy == p && sticky == "" && fresh(targets)
      ensures multiset(Members()) == multiset(NewMembers(p.targets, prev))
      ensures Built(p.targets, prev, Members())
    {
      policy := p;
      sticky := "";
      targets := [];
      new;
      var wanted := Sort(NewMembers(p.targets, prev), ByPriority);
      SortMultiset(NewMembers(p.targets, prev), ByPriority);
      SortedIsBuilt(p.targets, prev);
      RecordsStartFresh(p.targets, prev, wanted);
      targets := NewTargets(wanted);
      assert Members() == wanted;
    }

    static method NewTargets(wanted: seq<Member>) returns (ts: seq<Target>)
      requires forall k :: 0 <= k < |wanted| ==> wanted[k].health.fails == 0 && wanted[k].health.successes == 0
      ensures |ts| == |wanted| && Distinct(ts) && fresh(ts)
      ensures forall k :: 0 <= k < |ts| ==> ts[k].info == wanted[k].info && ts[k].Record() == wanted[k].health
    {
      ts := [];
      for i := 0 to |wanted|
        invariant |ts| == i && Distinct(ts) && fresh(ts)
        invariant forall k :: 0 <= k < i ==> ts[k].info == wanted[k].info && ts[k].Record() == wanted[k].health
      {
        var t := new Target(wanted[i].info, wanted[i].health.healthy, wanted[i].health.latency);
        ts := ts + [t];
      }
    }

    /** The candidates in the order they are to be tried. */
    method Order(draw: Draws) returns (order: seq<nat>)
      requires Valid() && FairRange(draw)
      modifies this`sticky
      ensures (order, sticky) == OrderOf(policy, old(Members()), old(sticky), draw)
      ensures PoolOrder.OrderTells(policy, old(Members()), old(sticky), draw, order, sticky)
      ensures Members() == old(Members())
    {
      var ms := Members();
      PoolOrder.OrderMeaning(policy, ms, sticky, draw);
      hide PoolOrder.OrderTells;
      var healthy, unhealthy := SplitByVerdict(ms);
      if policy.mode == WEIGHTED {
        healthy := WeightedShuffle(ms, healthy, draw);
      } else if policy.mode == LOWEST_LATENCY {
        healthy, sticky := OrderByLatency(policy, ms, healthy, sticky);
      } else if policy.mode == MANUAL_FIXED {
        if |healthy| > 1 {
          healthy := healthy[..1];
        }
      }
      order := healthy + unhealthy;
    }

    /** One attempt's outcome goes into the record of that target and no other. */
    method NoteAt(t: nat, ok: bool, ms: real, fail: int, rise: int)
      requires Valid() && t < |targets|
      modifies targets[t]
      ensures Members() == old(Members())[t := old(Members())[t].(health :=
                Observe(old(Members())[t].health, Observation(ok, ms), fail, rise))]
    {
      targets[t].Note(ok, ms, fail, rise);
      assert forall i :: 0 <= i < |targets| && i != t ==> targets[i].Record() == old(targets[i].Record());
    }

    method Dial(draw: Draws, attempt: nat -> Outcome) returns (result: DialResult)
      requires Valid() && FairRange(draw)
      modifies this`sticky, targets
      ensures var (order, next) := OrderOf(policy, old(Members()), old(sticky), draw);
              && Positions(old(Members()), order)
              && sticky == next
              && (Members(), result) ==
                 Dialled(old(Members()), order, attempt, if policy.failThreshold <= 0 then 3 else policy.failThreshold,
                         if policy.riseThreshold <= 0 then 2 else policy.riseThreshold, None)
    {
      var (fail, rise) := Thresholds(policy);
      ghost var start := Members();
      var order := Order(draw);
      OrderPositions(policy, start, old(sticky), draw);
      var lastError: Option<string> := None;
      for i := 0 to |order|
        invariant Valid() && targets == old(targets) && sticky == OrderOf(policy, start, old(sticky), draw).1
        invariant |Members()| == |start|
        invariant Dialled(Members(), order[i..], attempt, fail, rise, lastError) ==
                  Dialled(start, order, attempt, fail, rise, None)
      {
        var t := order[i];
        assert order[i..][0] == t && order[i..][1..] == order[i + 1..];
        match attempt(t) {
          case Connected(d) =>
            NoteAt(t, true, d, fail, rise);
            return Established(t);
          case Failed(text, d) =>
            lastError := Some(text);
            var denied := ContainsText(text, DENIED_TEXT);
            var unresolved := ContainsText(text, DNS_TEXT);
            if denied || unresolved {
              return Refused(t, text);
            }
            NoteAt(t, false, d, fail, rise);
        }
      }
      assert order[|order|..] == [];
      return Exhausted(lastError);
    }

    method Probe(attempt: nat -> Outcome)
      requires Valid()
      modifies targets
      ensures Members() ==
              Probed(old(Members()), attempt, if policy.failThreshold <= 0 then 3 else policy.failThreshold,
                     if policy.riseThreshold <= 0 then 2 else policy.riseThreshold, |targets|)
    {
      var (fail, rise) := Thresholds(policy);
      ghost var start := Members();
      for i := 0 to |targets|
        invariant Members() == Probed(start, attempt, fail, rise, i)
      {
        NoteAt(i, attempt(i).Connected?, attempt(i).ms, fail, rise);
      }
    }
  }

  lemma {:induction false} InheritedCountersZero(prev: seq<Member>, id: string)
    ensures Inherited(prev, id).fails == 0 && Inherited(prev, id).successes == 0
  {
    if prev != [] { InheritedCountersZero(prev[..|prev| - 1], id); }
  }

  lemma RecordsStartFresh(targets: seq<EgressTarget>, prev: seq<Member>, wanted: seq<Member>)
    requires multiset(wanted) == multiset(NewMembers(targets, prev))
    ensures forall k :: 0 <= k < |wanted| ==> wanted[k].health.fails == 0 && wanted[k].health.successes == 0
  {
    var ms := NewMembers(targets, prev);
    SameMultisetMembers(ms, wanted);
    forall k | 0 <= k < |wanted| ensures wanted[k].health.fails == 0 && wanted[k].health.successes == 0 {
      assert wanted[k] in wanted;
      var i :| 0 <= i < |ms| && ms[i] == wanted[k];
      InheritedCountersZero(prev, targets[i].nodeId);
    }
  }
}
