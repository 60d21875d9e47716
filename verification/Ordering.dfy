/**
 * How a pool orders its egress targets. A candidate is named by its position in the
 * pool, so an ordering is a sequence of positions.
 */
module Ordering {
  import opened Collections
  import opened Model
  import opened Health

  datatype Member = Member(info: EgressTarget, health: Health)

  const WEIGHTED := "weighted"
  const LOWEST_LATENCY := "lowest_latency"
  const MANUAL_FIXED := "manual_fixed"

  ghost predicate Positions(ms: seq<Member>, ts: seq<nat>) {
    forall k :: 0 <= k < |ts| ==> ts[k] < |ms|
  }

  ghost predicate DistinctIds(ms: seq<Member>) {
    forall i, j :: 0 <= i < j < |ms| ==> ms[i].info.nodeId != ms[j].info.nodeId
  }

  // ----- splitting by health -----

  /** The positions below `n` whose target has the given verdict, in pool order. */
  function WithVerdict(ms: seq<Member>, healthy: bool, n: nat): (ts: seq<nat>)
    requires n <= |ms|
    ensures forall k :: 0 <= k < |ts| ==> ts[k] < n
  {
    if n == 0 then []
    else WithVerdict(ms, healthy, n - 1) + (if ms[n - 1].health.healthy == healthy then [n - 1] else [])
  }

  lemma {:induction false} WithVerdictMembers(ms: seq<Member>, healthy: bool, n: nat)
    requires n <= |ms|
    ensures forall t: nat :: t in WithVerdict(ms, healthy, n) <==> t < n && ms[t].health.healthy == healthy
    ensures forall i, j :: 0 <= i < j < |WithVerdict(ms, healthy, n)| ==>
              WithVerdict(ms, healthy, n)[i] < WithVerdict(ms, healthy, n)[j]
  {
    if n > 0 { WithVerdictMembers(ms, healthy, n - 1); }
  }

  // ----- the weighted draw -----

  function EffectiveWeight(w: int): nat {
    if w <= 0 then 1 else w
  }

  function Total(ws: seq<int>): nat {
    if ws == [] then 0 else EffectiveWeight(ws[0]) + Total(ws[1..])
  }

  /** The draw `n` falls into the stretch of the number line that belongs to position `i`. */
  ghost predicate Picks(ws: seq<int>, n: int, i: nat)
    requires i < |ws|
  {
    Total(ws[..i]) <= n < Total(ws[..i]) + EffectiveWeight(ws[i])
  }

  function PickOf(ws: seq<int>, n: nat): (i: nat)
    requires n < Total(ws)
    ensures i < |ws|
  {
    if n < EffectiveWeight(ws[0]) then 0 else 1 + PickOf(ws[1..], n - EffectiveWeight(ws[0]))
  }

  lemma {:induction false} TotalStep(ws: seq<int>, i: nat)
    requires i < |ws|
    ensures Total(ws[..i + 1]) == Total(ws[..i]) + EffectiveWeight(ws[i])
  {
    if i == 0 {
      assert ws[..1][1..] == [] && ws[..0] == [];
    } else {
      TotalStep(ws[1..], i - 1);
      assert ws[..i + 1][1..] == ws[1..][..i];
      assert ws[..i][1..] == ws[1..][..i - 1];
    }
  }

  lemma {:induction false} TotalMonotone(ws: seq<int>, i: nat, j: nat)
    requires i <= j <= |ws|
    ensures Total(ws[..i]) <= Total(ws[..j])
    decreases j
  {
    if i < j {
      TotalMonotone(ws, i, j - 1);
      TotalStep(ws, j - 1);
    }
  }

  /** Every draw below the total picks exactly one position, the one the loop stops at. */
  lemma {:induction false} PickOfPicks(ws: seq<int>, n: nat)
    requires n < Total(ws)
    ensures Picks(ws, n, PickOf(ws, n))
    ensures forall i: nat :: i < |ws| && Picks(ws, n, i) ==> i == PickOf(ws, n)
  {
    var w := EffectiveWeight(ws[0]);
    if n < w {
      assert ws[..0] == [];
    } else {
      var k := PickOf(ws[1..], n - w);
      PickOfPicks(ws[1..], n - w);
      assert ws[..k + 1][1..] == ws[1..][..k];
    }
    var p := PickOf(ws, n);
    assert Picks(ws, n, p);
    forall i: nat | i < |ws| && Picks(ws, n, i) ensures i == p {
      TotalStep(ws, i);
      TotalStep(ws, p);
      if i < p {
        TotalMonotone(ws, i + 1, p);
      } else if p < i {
        TotalMonotone(ws, p + 1, i);
      }
    }
  }

  lemma {:induction false} IntervalSize(lo: int, len: nat, s: set<int>)
    requires forall n :: n in s <==> lo <= n < lo + len
    ensures |s| == len
  {
    if len == 0 {
      assert forall n :: n in s ==> n in {};
      assert s <= {};
    } else {
      var t := s - {lo + len - 1};
      IntervalSize(lo, len - 1, t);
      assert lo + len - 1 in s;
    }
  }

  /** The draws that pick position `i`. */
  ghost function DrawsFor(ws: seq<int>, i: nat): set<int> {
    set n | 0 <= n < Total(ws) && PickOf(ws, n) == i
  }

  /** Of the possible draws, exactly as many pick position `i` as its effective weight. */
  lemma DrawsPerPosition(ws: seq<int>, i: nat)
    requires i < |ws|
    ensures |DrawsFor(ws, i)| == EffectiveWeight(ws[i])
  {
    TotalStep(ws, i);
    TotalMonotone(ws, i + 1, |ws|);
    assert ws[..|ws|] == ws;
    var s := DrawsFor(ws, i);
    forall n ensures n in s <==> Total(ws[..i]) <= n < Total(ws[..i]) + EffectiveWeight(ws[i]) {
      if 0 <= n < Total(ws) {
        PickOfPicks(ws, n);
        assert Picks(ws, n, i) <==> i == PickOf(ws, n);
      }
    }
    IntervalSize(Total(ws[..i]), EffectiveWeight(ws[i]), s);
  }

  function WeightsOf(ms: seq<Member>, ts: seq<nat>): (ws: seq<int>)
    requires Positions(ms, ts)
    ensures |ws| == |ts|
  {
    seq(|ts|, i requires 0 <= i < |ts| => ms[ts[i]].info.weight)
  }

  /** Random draws: the argument is the round and the exclusive bound. */
  type Draws = (nat, nat) -> nat

  ghost predicate FairRange(draw: Draws) {
    forall round, total :: total > 0 ==> draw(round, total) < total
  }

  lemma TotalPositive(ws: seq<int>)
    requires ws != []
    ensures Total(ws) > 0
  {
  }

  ghost function Shuffled(ms: seq<Member>, ts: seq<nat>, draw: Draws, round: nat): seq<nat>
    requires Positions(ms, ts) && FairRange(draw)
    decreases |ts|
  {
    if ts == [] then []
    else
      var ws := WeightsOf(ms, ts);
      TotalPositive(ws);
      var i := PickOf(ws, draw(round, Total(ws)));
      [ts[i]] + Shuffled(ms, Without(ts, i), draw, round + 1)
  }

  /** Whatever is drawn, the shuffle loses and repeats nothing. */
  lemma {:induction false} ShuffledIsPermutation(ms: seq<Member>, ts: seq<nat>, draw: Draws, round: nat)
    requires Positions(ms, ts) && FairRange(draw)
    ensures multiset(Shuffled(ms, ts, draw, round)) == multiset(ts)
    decreases |ts|
  {
    if ts != [] {
      var ws := WeightsOf(ms, ts);
      TotalPositive(ws);
      var i := PickOf(ws, draw(round, Total(ws)));
      ShuffledIsPermutation(ms, Without(ts, i), draw, round + 1);
    }
  }

  // ----- latency with hysteresis -----

  /** An unmeasured target (latency 0) sorts last. */
  predicate Faster(ms: seq<Member>, i: nat, j: nat) {
    i < |ms| && j < |ms| &&
    var li, lj := ms[i].health.latency, ms[j].health.latency;
    li != 0.0 && (lj == 0.0 || li < lj)
  }

  function ByFaster(ms: seq<Member>): (nat, nat) -> bool {
    (i: nat, j: nat) => Faster(ms, i, j)
  }

  lemma FasterWeakOrder(ms: seq<Member>, ts: seq<nat>)
    requires Positions(ms, ts)
    ensures WeakOrderOn(ts, ByFaster(ms))
  {
  }

  /** The last candidate with the given node id, as the scan leaves it. */
  function LastWith(ms: seq<Member>, ts: seq<nat>, id: string): Option<nat>
    requires Positions(ms, ts)
  {
    if ts == [] then None
    else if ms[ts[|ts| - 1]].info.nodeId == id then Some(ts[|ts| - 1])
    else LastWith(ms, ts[..|ts| - 1], id)
  }

  lemma {:induction false} LastWithMeaning(ms: seq<Member>, ts: seq<nat>, id: string)
    requires Positions(ms, ts)
    ensures match LastWith(ms, ts, id)
            case None => forall t :: t in ts ==> ms[t].info.nodeId != id
            case Some(t) => t in ts && ms[t].info.nodeId == id
  {
    if ts != [] {
      LastWithMeaning(ms, ts[..|ts| - 1], id);
      assert ts == ts[..|ts| - 1] + [ts[|ts| - 1]];
    }
  }

  function MarginPct(p: EgressPolicy): int { if p.hysteresisPct <= 0 then 20 else p.hysteresisPct }
  function MarginMs(p: EgressPolicy): int { if p.hysteresisMs <= 0 then 20 else p.hysteresisMs }

  /** `best` beats `cur` by both the relative and the absolute margin. */
  predicate BeatsBothMargins(p: EgressPolicy, cur: real, best: real) {
    && cur > 0.0 && best > 0.0
    && best < cur * (1.0 - MarginPct(p) as real / 100.0)
    && cur - best > MarginMs(p) as real
  }

  /** The latency ordering and the sticky target it leaves behind. */
  function ByLatency(p: EgressPolicy, ms: seq<Member>, ts: seq<nat>, sticky: string): (r: (seq<nat>, string))
    requires Positions(ms, ts)
  {
    if |ts| < 2 then (ts, sticky)
    else
      var sorted := Sort(ts, ByFaster(ms));
      SortMultiset(ts, ByFaster(ms));
      SortKeepsPositions(ms, ts);
      var head := sorted[0];
      var cur := LastWith(ms, ts, sticky);
      LastWithMeaning(ms, ts, sticky);
      if sticky == "" || cur.None?
         || BeatsBothMargins(p, ms[cur.value].health.latency, ms[head].health.latency)
      then (sorted, ms[head].info.nodeId)
      else ([cur.value] + Filter(sorted, OtherThan(ms, sticky)), sticky)
  }

  function OtherThan(ms: seq<Member>, id: string): nat -> bool {
    (t: nat) => t < |ms| && ms[t].info.nodeId != id
  }

  lemma SortKeepsPositions(ms: seq<Member>, ts: seq<nat>)
    requires Positions(ms, ts)
    ensures Positions(ms, Sort(ts, ByFaster(ms)))
    ensures |Sort(ts, ByFaster(ms))| == |ts|
  {
    var sorted := Sort(ts, ByFaster(ms));
    SortMultiset(ts, ByFaster(ms));
    SameMultisetMembers(ts, sorted);
    forall k | 0 <= k < |sorted| ensures sorted[k] < |ms| {
      assert sorted[k] in sorted;
    }
  }

  /** The fastest candidate: no other is strictly faster. */
  ghost predicate Fastest(ms: seq<Member>, ts: seq<nat>, t: nat) {
    t in ts && forall u :: u in ts ==> !Faster(ms, u, t)
  }

  lemma SortedHeadIsFastest(ms: seq<Member>, ts: seq<nat>)
    requires Positions(ms, ts) && ts != []
    ensures |Sort(ts, ByFaster(ms))| == |ts|
    ensures Fastest(ms, ts, Sort(ts, ByFaster(ms))[0])
  {
    var sorted := Sort(ts, ByFaster(ms));
    FasterWeakOrder(ms, ts);
    SortIsSortOf(ts, ByFaster(ms));
    SameMultisetMembers(ts, sorted);
    assert sorted[0] in sorted;
    forall u | u in ts ensures !Faster(ms, u, sorted[0]) {
      assert u in sorted;
      var k :| 0 <= k < |sorted| && sorted[k] == u;
      if k > 0 { assert !ByFaster(ms)(sorted[k], sorted[0]); }
    }
  }

  /** The latency ordering returns every candidate once. */
  lemma ByLatencyIsPermutation(p: EgressPolicy, ms: seq<Member>, ts: seq<nat>, sticky: string)
    requires Positions(ms, ts) && DistinctIds(ms) && Distinct(ts)
    ensures multiset(ByLatency(p, ms, ts, sticky).0) == multiset(ts)
  {
    if |ts| >= 2 {
      var sorted := Sort(ts, ByFaster(ms));
      SortMultiset(ts, ByFaster(ms));
      SortKeepsPositions(ms, ts);
      PermutationDistinct(ts, sorted);
      LastWithMeaning(ms, ts, sticky);
      var cur := LastWith(ms, ts, sticky);
      if cur.Some? {
        SameMultisetMembers(ts, sorted);
        FilterAllBut(sorted, OtherThan(ms, sticky), cur.value);
      }
    }
  }

  /** The sticky target may be replaced: unset, no longer a candidate, or beaten by both margins. */
  ghost predicate MayReplace(p: EgressPolicy, ms: seq<Member>, ts: seq<nat>, sticky: string)
    requires Positions(ms, ts)
  {
    || sticky == ""
    || (forall t :: t in ts ==> ms[t].info.nodeId != sticky)
    || (exists c: nat, b: nat :: c in ts && ms[c].info.nodeId == sticky && Fastest(ms, ts, b)
          && BeatsBothMargins(p, ms[c].health.latency, ms[b].health.latency))
  }

  /**
   * With two or more candidates the head is always the sticky target, and that target
   * changes only when it may be replaced, and then to a fastest candidate.
   */
  lemma StickyHead(p: EgressPolicy, ms: seq<Member>, ts: seq<nat>, sticky: string)
    requires Positions(ms, ts) && |ts| >= 2
    ensures var (order, next) := ByLatency(p, ms, ts, sticky);
            && order != [] && order[0] in ts && ms[order[0]].info.nodeId == next
            && (next != sticky ==> MayReplace(p, ms, ts, sticky) && Fastest(ms, ts, order[0]))
  {
    var sorted := Sort(ts, ByFaster(ms));
    SortKeepsPositions(ms, ts);
    SortedHeadIsFastest(ms, ts);
    LastWithMeaning(ms, ts, sticky);
    var cur := LastWith(ms, ts, sticky);
    if sticky != "" && cur.Some?
       && BeatsBothMargins(p, ms[cur.value].health.latency, ms[sorted[0]].health.latency)
    {
      assert MayReplace(p, ms, ts, sticky);
    }
  }

  lemma NoSelfBeat(p: EgressPolicy, l: real)
    ensures !BeatsBothMargins(p, l, l)
  {
  }

  lemma LastWithUnique(ms: seq<Member>, ts: seq<nat>, t: nat)
    requires Positions(ms, ts) && DistinctIds(ms) && t in ts
    ensures LastWith(ms, ts, ms[t].info.nodeId) == Some(t)
  {
    LastWithMeaning(ms, ts, ms[t].info.nodeId);
  }

  /** With latencies and candidates unchanged, a second call keeps the sticky target of the first. */
  lemma StickySettles(p: EgressPolicy, ms: seq<Member>, ts: seq<nat>, sticky: string)
    requires Positions(ms, ts) && DistinctIds(ms)
    ensures var next := ByLatency(p, ms, ts, sticky).1;
            ByLatency(p, ms, ts, next).1 == next
  {
    if |ts| >= 2 {
      var sorted := Sort(ts, ByFaster(ms));
      SortKeepsPositions(ms, ts);
      SortedHeadIsFastest(ms, ts);
      LastWithUnique(ms, ts, sorted[0]);
      NoSelfBeat(p, ms[sorted[0]].health.latency);
    }
  }

  /** The sticky target after `n` calls under fixed latencies and candidates. */
  function StickyAfter(p: EgressPolicy, ms: seq<Member>, ts: seq<nat>, sticky: string, n: nat): string
    requires Positions(ms, ts)
  {
    if n == 0 then sticky else ByLatency(p, ms, ts, StickyAfter(p, ms, ts, sticky, n - 1)).1
  }

  /** At most one switch ever happens: from the first call on the sticky target is fixed. */
  lemma {:induction false} AtMostOneSwitch(p: EgressPolicy, ms: seq<Member>, ts: seq<nat>, sticky: string, n: nat)
    requires Positions(ms, ts) && DistinctIds(ms) && n >= 1
    ensures StickyAfter(p, ms, ts, sticky, n) == ByLatency(p, ms, ts, sticky).1
  {
    if n > 1 {
      AtMostOneSwitch(p, ms, ts, sticky, n - 1);
      StickySettles(p, ms, ts, sticky);
    }
  }

  // ----- the whole ordering -----

  ghost function OrderOf(p: EgressPolicy, ms: seq<Member>, sticky: string, draw: Draws): (seq<nat>, string)
    requires FairRange(draw)
  {
    var healthy := WithVerdict(ms, true, |ms|);
    var unhealthy := WithVerdict(ms, false, |ms|);
    if p.mode == WEIGHTED then
      (Shuffled(ms, healthy, draw, 0) + unhealthy, sticky)
    else if p.mode == LOWEST_LATENCY then
      var (order, next) := ByLatency(p, ms, healthy, sticky);
      (order + unhealthy, next)
    else if p.mode == MANUAL_FIXED then
      ((if |healthy| > 1 then healthy[..1] else healthy) + unhealthy, sticky)
    else
      (healthy + unhealthy, sticky)
  }

  /** Healthy positions come before unhealthy ones. */
  ghost predicate HealthyFirst(ms: seq<Member>, order: seq<nat>)
    requires Positions(ms, order)
  {
    forall i, j :: 0 <= i < j < |order| && ms[order[j]].health.healthy ==> ms[order[i]].health.healthy
  }

  lemma VerdictPartition(ms: seq<Member>)
    ensures Distinct(WithVerdict(ms, true, |ms|))
    ensures Distinct(WithVerdict(ms, true, |ms|) + WithVerdict(ms, false, |ms|))
    ensures forall t: nat :: t in WithVerdict(ms, true, |ms|) + WithVerdict(ms, false, |ms|) <==> t < |ms|
  {
    var healthy, unhealthy := WithVerdict(ms, true, |ms|), WithVerdict(ms, false, |ms|);
    WithVerdictMembers(ms, true, |ms|);
    WithVerdictMembers(ms, false, |ms|);
    forall i, j | 0 <= i < |healthy| && 0 <= j < |unhealthy| ensures healthy[i] != unhealthy[j] {
      assert healthy[i] in healthy && unhealthy[j] in unhealthy;
    }
  }

  lemma HealthyThenUnhealthy(ms: seq<Member>, front: seq<nat>, back: seq<nat>)
    requires Positions(ms, front) && Positions(ms, back)
    requires forall k :: 0 <= k < |front| ==> ms[front[k]].health.healthy
    requires forall k :: 0 <= k < |back| ==> !ms[back[k]].health.healthy
    ensures Positions(ms, front + back) && HealthyFirst(ms, front + back)
  {
    var order := front + back;
    forall i, j | 0 <= i < j < |order| && ms[order[j]].health.healthy ensures ms[order[i]].health.healthy {
      assert j < |front|;
      assert order[i] == front[i];
    }
  }

  lemma RearrangedHealthyFirst(ms: seq<Member>, front: seq<nat>)
    requires multiset(front) == multiset(WithVerdict(ms, true, |ms|))
    ensures Positions(ms, front + WithVerdict(ms, false, |ms|))
    ensures HealthyFirst(ms, front + WithVerdict(ms, false, |ms|))
  {
    var healthy, unhealthy := WithVerdict(ms, true, |ms|), WithVerdict(ms, false, |ms|);
    WithVerdictMembers(ms, true, |ms|);
    WithVerdictMembers(ms, false, |ms|);
    SameMultisetMembers(healthy, front);
    forall k | 0 <= k < |front| ensures front[k] < |ms| && ms[front[k]].health.healthy {
      assert front[k] in front;
    }
    forall k | 0 <= k < |unhealthy| ensures !ms[unhealthy[k]].health.healthy {
      assert unhealthy[k] in unhealthy;
    }
    HealthyThenUnhealthy(ms, front, unhealthy);
  }

  /** Any rearrangement of the healthy targets, followed by the unhealthy ones, is a complete ordering. */
  lemma RearrangedIsComplete(ms: seq<Member>, front: seq<nat>)
    requires multiset(front) == multiset(WithVerdict(ms, true, |ms|))
    ensures var order := front + WithVerdict(ms, false, |ms|);
            && Positions(ms, order) && HealthyFirst(ms, order) && Distinct(order)
            && forall t: nat :: t < |ms| ==> t in order
  {
    var plain := WithVerdict(ms, true, |ms|) + WithVerdict(ms, false, |ms|);
    var order := front + WithVerdict(ms, false, |ms|);
    RearrangedHealthyFirst(ms, front);
    VerdictPartition(ms);
    assert multiset(order) == multiset(plain);
    PermutationDistinct(plain, order);
    SameMultisetMembers(plain, order);
  }

  /**
   * In every mode but manual_fixed the ordering holds each target exactly once, healthy
   * targets first; by latency, where no node is listed twice.
   */
  lemma OrderIsComplete(p: EgressPolicy, ms: seq<Member>, sticky: string, draw: Draws)
    requires FairRange(draw) && p.mode != MANUAL_FIXED && (p.mode == LOWEST_LATENCY ==> DistinctIds(ms))
    ensures var order := OrderOf(p, ms, sticky, draw).0;
            && Positions(ms, order) && HealthyFirst(ms, order) && Distinct(order)
            && forall t: nat :: t < |ms| ==> t in order
  {
    var healthy := WithVerdict(ms, true, |ms|);
    VerdictPartition(ms);
    if p.mode == WEIGHTED {
      ShuffledIsPermutation(ms, healthy, draw, 0);
      RearrangedIsComplete(ms, Shuffled(ms, healthy, draw, 0));
    } else if p.mode == LOWEST_LATENCY {
      ByLatencyIsPermutation(p, ms, healthy, sticky);
      RearrangedIsComplete(ms, ByLatency(p, ms, healthy, sticky).0);
    } else {
      RearrangedIsComplete(ms, healthy);
    }
  }

  /** By latency too the ordering names targets of the pool, even if a node is listed twice. */
  lemma ByLatencyPositions(p: EgressPolicy, ms: seq<Member>, ts: seq<nat>, sticky: string)
    requires Positions(ms, ts)
    ensures Positions(ms, ByLatency(p, ms, ts, sticky).0)
  {
    if |ts| >= 2 {
      var sorted := Sort(ts, ByFaster(ms));
      SortKeepsPositions(ms, ts);
      LastWithMeaning(ms, ts, sticky);
      var rest := Filter(sorted, OtherThan(ms, sticky));
      FilterMembers(sorted, OtherThan(ms, sticky));
      forall k | 0 <= k < |rest| ensures rest[k] < |ms| { assert rest[k] in rest; }
    }
  }

  /** Every ordering names targets of the pool. */
  lemma OrderPositions(p: EgressPolicy, ms: seq<Member>, sticky: string, draw: Draws)
    requires FairRange(draw)
    ensures Positions(ms, OrderOf(p, ms, sticky, draw).0)
  {
    if p.mode == MANUAL_FIXED {
      ManualFixedOrder(p, ms, sticky, draw);
    } else if p.mode == LOWEST_LATENCY {
      WithVerdictMembers(ms, true, |ms|);
      WithVerdictMembers(ms, false, |ms|);
      ByLatencyPositions(p, ms, WithVerdict(ms, true, |ms|), sticky);
    } else {
      OrderIsComplete(p, ms, sticky, draw);
    }
  }

  /** manual_fixed keeps the first healthy target, in front of every unhealthy one. */
  lemma ManualFixedOrder(p: EgressPolicy, ms: seq<Member>, sticky: string, draw: Draws)
    requires FairRange(draw) && p.mode == MANUAL_FIXED
    ensures var order := OrderOf(p, ms, sticky, draw).0;
            && Positions(ms, order) && HealthyFirst(ms, order) && Distinct(order)
            && forall t: nat :: t < |ms| ==>
                 (t in order <==> !ms[t].health.healthy
                                  || forall u: nat :: u < t ==> !ms[u].health.healthy)
  {
    var healthy, unhealthy := WithVerdict(ms, true, |ms|), WithVerdict(ms, false, |ms|);
    WithVerdictMembers(ms, true, |ms|);
    WithVerdictMembers(ms, false, |ms|);
    var first := if |healthy| > 1 then healthy[..1] else healthy;
    VerdictPartition(ms);
    forall k | 0 <= k < |healthy| ensures ms[healthy[k]].health.healthy {
      assert healthy[k] in healthy;
    }
    forall k | 0 <= k < |unhealthy| ensures !ms[unhealthy[k]].health.healthy {
      assert unhealthy[k] in unhealthy;
    }
    HealthyThenUnhealthy(ms, first, unhealthy);
    forall t: nat | t < |ms| && ms[t].health.healthy
      ensures t in first <==> forall u: nat :: u < t ==> !ms[u].health.healthy
    {
      assert t in healthy;
      if t in first {
        forall u: nat | u < t ensures !ms[u].health.healthy {
          assert u in healthy <==> ms[u].health.healthy;
        }
      } else {
        assert healthy[0] in healthy;
      }
    }
  }
}
