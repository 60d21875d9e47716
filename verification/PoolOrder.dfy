/** What a pool's order is in each mode, from the targets, the draws and the latencies themselves. */
module PoolOrder {
  import opened Collections
  import opened Model
  import opened Health
  import opened Ordering

  /** The targets with the given verdict. */
  function Side(ms: seq<Member>, healthy: bool): set<nat> {
    set t: nat | t < |ms| && ms[t].health.healthy == healthy
  }

  ghost predicate Ascends(ts: seq<nat>) {
    forall i, j :: 0 <= i < j < |ts| ==> ts[i] < ts[j]
  }

  /** All unhealthy targets at the end, in pool order, behind `n` healthy ones. */
  ghost predicate LastResort(ms: seq<Member>, order: seq<nat>, n: nat) {
    && n <= |order| && Ascends(order[n..]) && ToSet(order[n..]) == Side(ms, false)
    && ToSet(order[..n]) <= Side(ms, true)
  }

  // ----- weighted -----

  /** The weights of the targets in `left` at positions below `n`, each at least 1. */
  function StakeBelow(ms: seq<Member>, left: set<nat>, n: nat): nat
    requires n <= |ms|
  {
    if n == 0 then 0
    else StakeBelow(ms, left, n - 1) + (if n - 1 in left then Max(1, ms[n - 1].info.weight) else 0)
  }

  /** The drawn number falls into the stretch of target `t` among those left. */
  ghost predicate Lands(ms: seq<Member>, left: set<nat>, drawn: nat, t: nat) {
    && t in left && t < |ms|
    && StakeBelow(ms, left, t) <= drawn < StakeBelow(ms, left, t) + Max(1, ms[t].info.weight)
  }

  /** The number drawn in a round, out of all the stakes left, falls on target `t`. */
  ghost predicate DrawnIn(ms: seq<Member>, draw: Draws, round: nat, left: set<nat>, t: nat) {
    Lands(ms, left, draw(round, StakeBelow(ms, left, |ms|)), t)
  }

  /** Each healthy place goes to the target the round's number falls on, among those not yet placed. */
  ghost predicate WeightedTells(ms: seq<Member>, draw: Draws, order: seq<nat>) {
    var h := |Side(ms, true)|;
    && LastResort(ms, order, h)
    && forall k :: 0 <= k < h ==>
         DrawnIn(ms, draw, k, Side(ms, true) - ToSet(order[..k]), order[k])
  }

  /** The stakes below position `n` are the weights of the candidates before it. */
  lemma {:induction false} StakeIsTotal(ms: seq<Member>, ts: seq<nat>, n: nat, i: nat)
    requires Positions(ms, ts) && Ascends(ts) && n <= |ms| && i <= |ts|
    requires i > 0 ==> ts[i - 1] < n
    requires i < |ts| ==> n <= ts[i]
    ensures StakeBelow(ms, ToSet(ts), n) == Total(WeightsOf(ms, ts)[..i])
  {
    if n > 0 {
      if n - 1 in ToSet(ts) {
        var k :| 0 <= k < |ts| && ts[k] == n - 1;
        assert k == i - 1;
        StakeIsTotal(ms, ts, n - 1, i - 1);
        TotalStep(WeightsOf(ms, ts), i - 1);
      } else {
        assert i > 0 ==> ts[i - 1] in ToSet(ts);
        StakeIsTotal(ms, ts, n - 1, i);
      }
    }
  }

  lemma PickLands(ms: seq<Member>, ts: seq<nat>, drawn: nat)
    requires Positions(ms, ts) && Ascends(ts) && drawn < Total(WeightsOf(ms, ts))
    ensures StakeBelow(ms, ToSet(ts), |ms|) == Total(WeightsOf(ms, ts))
    ensures Lands(ms, ToSet(ts), drawn, ts[PickOf(WeightsOf(ms, ts), drawn)])
  {
    var ws := WeightsOf(ms, ts);
    var i := PickOf(ws, drawn);
    StakeIsTotal(ms, ts, |ms|, |ts|);
    assert ws[..|ws|] == ws;
    StakeIsTotal(ms, ts, ts[i], i);
    PickOfPicks(ws, drawn);
  }

  lemma WithoutAscends(ts: seq<nat>, i: nat)
    requires Ascends(ts) && i < |ts|
    ensures Ascends(Without(ts, i)) && ToSet(Without(ts, i)) == ToSet(ts) - {ts[i]}
  {
    var r := Without(ts, i);
    forall t ensures t in r <==> t in ts && t != ts[i] {
      if t in ts && t != ts[i] {
        var k :| 0 <= k < |ts| && ts[k] == t;
        assert r[if k < i then k else k - 1] == t;
      }
    }
  }

  /** Every place of a shuffle is the one drawn in its round. */
  ghost predicate AllDrawn(ms: seq<Member>, draw: Draws, round: nat, all: set<nat>, s: seq<nat>) {
    forall k :: 0 <= k < |s| ==> DrawnIn(ms, draw, round + k, all - ToSet(s[..k]), s[k])
  }

  lemma AllDrawnStep(ms: seq<Member>, draw: Draws, round: nat, all: set<nat>, t: nat, tail: seq<nat>)
    requires DrawnIn(ms, draw, round, all, t) && AllDrawn(ms, draw, round + 1, all - {t}, tail)
    ensures AllDrawn(ms, draw, round, all, [t] + tail)
  {
    var s := [t] + tail;
    hide DrawnIn;
    forall k | 0 <= k < |s| ensures DrawnIn(ms, draw, round + k, all - ToSet(s[..k]), s[k]) {
      if k == 0 {
        assert all - ToSet(s[..0]) == all;
      } else {
        assert s[..k] == [t] + tail[..k - 1];
        assert all - {t} - ToSet(tail[..k - 1]) == all - ToSet(s[..k]);
        assert DrawnIn(ms, draw, round + 1 + (k - 1), all - {t} - ToSet(tail[..k - 1]), tail[k - 1]);
      }
    }
  }

  lemma {:induction false} ShuffledLands(ms: seq<Member>, ts: seq<nat>, draw: Draws, round: nat)
    requires Positions(ms, ts) && Ascends(ts) && FairRange(draw)
    ensures |Shuffled(ms, ts, draw, round)| == |ts|
    ensures AllDrawn(ms, draw, round, ToSet(ts), Shuffled(ms, ts, draw, round))
    decreases |ts|
  {
    if ts != [] {
      var ws := WeightsOf(ms, ts);
      TotalPositive(ws);
      var i := PickOf(ws, draw(round, Total(ws)));
      PickLands(ms, ts, draw(round, Total(ws)));
      WithoutAscends(ts, i);
      ShuffledLands(ms, Without(ts, i), draw, round + 1);
      hide Lands, StakeBelow, PickOf, Total, AllDrawn, Ascends;
      AllDrawnStep(ms, draw, round, ToSet(ts), ts[i], Shuffled(ms, Without(ts, i), draw, round + 1));
    }
  }

  /** Healthy candidates, and how many. */
  lemma Split(ms: seq<Member>, healthy: bool)
    ensures var ts := WithVerdict(ms, healthy, |ms|);
            Ascends(ts) && Distinct(ts) && ToSet(ts) == Side(ms, healthy) && |ts| == |Side(ms, healthy)|
  {
    WithVerdictMembers(ms, healthy, |ms|);
    DistinctCardinality(WithVerdict(ms, healthy, |ms|));
  }

  lemma Appended(ms: seq<Member>, front: seq<nat>)
    requires ToSet(front) <= Side(ms, true)
    ensures LastResort(ms, front + WithVerdict(ms, false, |ms|), |front|)
  {
    Split(ms, false);
    var order := front + WithVerdict(ms, false, |ms|);
    assert order[|front|..] == WithVerdict(ms, false, |ms|) && order[..|front|] == front;
  }

  /**
   * In weighted mode the order is the one drawn, round by round, each target having a stretch
   * as long as its weight.
   */
  lemma WeightedOrder(p: EgressPolicy, ms: seq<Member>, sticky: string, draw: Draws)
    requires FairRange(draw) && p.mode == "weighted"
    ensures WeightedTells(ms, draw, OrderOf(p, ms, sticky, draw).0) && OrderOf(p, ms, sticky, draw).1 == sticky
  {
    var ts := WithVerdict(ms, true, |ms|);
    Split(ms, true);
    var s := Shuffled(ms, ts, draw, 0);
    ShuffledIsPermutation(ms, ts, draw, 0);
    SameMultisetMembers(ts, s);
    ShuffledLands(ms, ts, draw, 0);
    Appended(ms, s);
    var order := s + WithVerdict(ms, false, |ms|);
    hide Shuffled, DrawnIn, FairRange, LastResort, WithVerdict, Side;
    forall k | 0 <= k < |s| ensures DrawnIn(ms, draw, k, Side(ms, true) - ToSet(order[..k]), order[k]) {
      assert order[..k] == s[..k];
      assert DrawnIn(ms, draw, 0 + k, ToSet(ts) - ToSet(s[..k]), s[k]);
    }
  }

  /** The same number in every round, as far as it fits. */
  function Always(n: nat): Draws {
    (round: nat, total: nat) => if n < total then n else 0
  }

  predicate StartsWith(order: seq<nat>, t: nat) {
    order != [] && order[0] == t
  }

  lemma StakePositive(ms: seq<Member>, left: set<nat>, t: nat, n: nat)
    requires t in left && t < n <= |ms|
    ensures StakeBelow(ms, left, t) + Max(1, ms[t].info.weight) <= StakeBelow(ms, left, n)
  {
    if t < n - 1 { StakePositive(ms, left, t, n - 1); }
  }

  lemma LandsOnce(ms: seq<Member>, left: set<nat>, drawn: nat, t: nat, u: nat)
    requires Lands(ms, left, drawn, t) && Lands(ms, left, drawn, u)
    ensures t == u
  {
    if t < u { StakePositive(ms, left, t, u); }
    if u < t { StakePositive(ms, left, u, t); }
  }

  /** Of the possible first numbers exactly as many put a healthy target first as its weight, or 1. */
  lemma WeightedShare(p: EgressPolicy, ms: seq<Member>, sticky: string, t: nat, firsts: set<nat>)
    requires p.mode == "weighted" && t in Side(ms, true)
    requires forall n: nat :: n in firsts <==>
               n < StakeBelow(ms, Side(ms, true), |ms|) && StartsWith(OrderOf(p, ms, sticky, Always(n)).0, t)
    ensures |firsts| == Max(1, ms[t].info.weight)
  {
    var all, lo := Side(ms, true), StakeBelow(ms, Side(ms, true), t);
    StakePositive(ms, all, t, |ms|);
    forall n: nat ensures n in firsts <==> lo <= n < lo + Max(1, ms[t].info.weight) {
      if n < StakeBelow(ms, all, |ms|) { FirstPlace(p, ms, sticky, t, n); }
    }
    hide *;
    Stretch(lo, Max(1, ms[t].info.weight), firsts);
  }

  lemma {:induction false} Stretch(lo: nat, len: nat, s: set<nat>)
    requires forall n: nat :: n in s <==> lo <= n < lo + len
    ensures |s| == len
  {
    if len == 0 {
      assert s == {};
    } else {
      Stretch(lo, len - 1, s - {lo + len - 1});
    }
  }

  lemma FirstPlace(p: EgressPolicy, ms: seq<Member>, sticky: string, t: nat, n: nat)
    requires p.mode == "weighted" && t in Side(ms, true) && n < StakeBelow(ms, Side(ms, true), |ms|)
    ensures StartsWith(OrderOf(p, ms, sticky, Always(n)).0, t) <==> Lands(ms, Side(ms, true), n, t)
  {
    var all, order := Side(ms, true), OrderOf(p, ms, sticky, Always(n)).0;
    assert FairRange(Always(n));
    WeightedOrder(p, ms, sticky, Always(n));
    FirstDrawn(ms, n, order, t);
    hide OrderOf, WeightedTells, Side, StakeBelow;
    if Lands(ms, all, n, t) { LandsOnce(ms, all, n, t, order[0]); }
  }

  lemma FirstDrawn(ms: seq<Member>, n: nat, order: seq<nat>, t: nat)
    requires WeightedTells(ms, Always(n), order) && t in Side(ms, true) && n < StakeBelow(ms, Side(ms, true), |ms|)
    ensures order != [] && Lands(ms, Side(ms, true), n, order[0])
  {
    var all := Side(ms, true);
    assert all != {} && |all| > 0;
    hide Side, StakeBelow, Lands;
    assert all - ToSet(order[..0]) == all;
    assert DrawnIn(ms, Always(n), 0, all - ToSet(order[..0]), order[0]);
  }

  // ----- lowest_latency -----

  /** Target `t` is measured and no slower than `u`, or `u` is not measured. */
  predicate NoSlower(ms: seq<Member>, t: nat, u: nat)
    requires t < |ms| && u < |ms|
  {
    var lt, lu := ms[t].health.latency, ms[u].health.latency;
    lu == 0.0 || (lt != 0.0 && lt <= lu)
  }

  /** By latency, unmeasured targets last, equals in pool order. */
  ghost predicate BySpeed(ms: seq<Member>, ts: seq<nat>) {
    && Positions(ms, ts)
    && forall i, j :: 0 <= i < j < |ts| ==> NoSlower(ms, ts[i], ts[j]) && (NoSlower(ms, ts[j], ts[i]) ==> ts[i] < ts[j])
  }

  /** The target the sticky id stands for: the last healthy one with it. */
  ghost predicate Holds(ms: seq<Member>, sticky: string, c: nat) {
    && c in Side(ms, true) && ms[c].info.nodeId == sticky
    && forall u :: u in Side(ms, true) && ms[u].info.nodeId == sticky ==> u <= c
  }

  /** Target `b` is faster than `c` by both margins; each is 20 unless set. */
  ghost predicate FarFaster(p: EgressPolicy, ms: seq<Member>, b: nat, c: nat)
    requires b < |ms| && c < |ms|
  {
    var lb, lc := ms[b].health.latency, ms[c].health.latency;
    var pct := if p.hysteresisPct <= 0 then 20 else p.hysteresisPct;
    var margin := if p.hysteresisMs <= 0 then 20 else p.hysteresisMs;
    lb > 0.0 && lc > 0.0 && lb < lc * (1.0 - pct as real / 100.0) && lc - lb > margin as real
  }

  /** The sticky target is replaced: none is set, or it is not healthy, or a fastest target is far faster. */
  ghost predicate Replaced(p: EgressPolicy, ms: seq<Member>, sticky: string) {
    || sticky == ""
    || (forall t :: t in Side(ms, true) ==> ms[t].info.nodeId != sticky)
    || exists b, c :: Holds(ms, sticky, c) && IsFastest(ms, b) && FarFaster(p, ms, b, c)
  }

  ghost predicate IsFastest(ms: seq<Member>, b: nat) {
    b in Side(ms, true) && forall u :: u in Side(ms, true) ==> NoSlower(ms, b, u)
  }

  /**
   * The healthy targets by latency, except that a sticky target that is not replaced comes
   * first, once; the node in front is the sticky one from then on. One healthy target changes nothing.
   */
  ghost predicate LatencyTells(p: EgressPolicy, ms: seq<Member>, sticky: string, order: seq<nat>, next: string) {
    exists n: nat :: LastResort(ms, order, n) && HealthyPart(p, ms, sticky, order[..n], next)
  }

  ghost predicate HealthyPart(p: EgressPolicy, ms: seq<Member>, sticky: string, front: seq<nat>, next: string) {
    var all := Side(ms, true);
    && Distinct(front)
    && if |all| < 2 then ToSet(front) == all && next == sticky
       else if Replaced(p, ms, sticky) then
         && ToSet(front) == all && BySpeed(ms, front)
         && front != [] && front[0] < |ms| && next == ms[front[0]].info.nodeId
       else
         && next == sticky && front != [] && Holds(ms, sticky, front[0]) && BySpeed(ms, front[1..])
         && ToSet(front[1..]) == set t | t in all && ms[t].info.nodeId != sticky
  }

  lemma SlowerIsNotFaster(ms: seq<Member>, i: nat, j: nat)
    requires i < |ms| && j < |ms|
    ensures NoSlower(ms, i, j) <==> !Faster(ms, j, i)
  {
  }

  lemma SortedBySpeed(ms: seq<Member>, ts: seq<nat>)
    requires Positions(ms, ts) && Ascends(ts)
    ensures BySpeed(ms, Sort(ts, ByFaster(ms)))
    ensures Distinct(Sort(ts, ByFaster(ms))) && ToSet(Sort(ts, ByFaster(ms))) == ToSet(ts)
  {
    var sorted := Sort(ts, ByFaster(ms));
    FasterWeakOrder(ms, ts);
    SortKeepsPositions(ms, ts);
    SortMultiset(ts, ByFaster(ms));
    PermutationDistinct(ts, sorted);
    var src := SortPositions(ts, ByFaster(ms));
    StableIsBySpeed(ms, ts, sorted, src);
    assert ToSet(sorted) == ToSet(ts);
    hide Sort, WeakOrderOn, DrawnFrom, StableBy, BySpeed;
  }

  /** Sorting positions that ascend keeps equals in pool order. */
  lemma StableIsBySpeed(ms: seq<Member>, ts: seq<nat>, sorted: seq<nat>, src: seq<nat>)
    requires Ascends(ts) && Positions(ms, sorted)
    requires DrawnFrom(ts, sorted, src) && StableBy(sorted, src, ByFaster(ms))
    ensures BySpeed(ms, sorted)
  {
    forall i, j | 0 <= i < j < |sorted|
      ensures NoSlower(ms, sorted[i], sorted[j]) && (NoSlower(ms, sorted[j], sorted[i]) ==> sorted[i] < sorted[j]) {
      SlowerIsNotFaster(ms, sorted[i], sorted[j]);
      SlowerIsNotFaster(ms, sorted[j], sorted[i]);
      assert !ByFaster(ms)(sorted[j], sorted[i]) && (ByFaster(ms)(sorted[i], sorted[j]) || src[i] < src[j]);
      assert src[i] < src[j] ==> sorted[i] == ts[src[i]] && sorted[j] == ts[src[j]];
      hide Faster, NoSlower, StableBy, DrawnFrom;
    }
  }

  lemma {:induction false} LastWithIsLast(ms: seq<Member>, ts: seq<nat>, id: string)
    requires Positions(ms, ts) && Ascends(ts)
    ensures match LastWith(ms, ts, id)
            case None => forall t :: t in ts ==> ms[t].info.nodeId != id
            case Some(c) => c in ts && ms[c].info.nodeId == id && forall t :: t in ts && ms[t].info.nodeId == id ==> t <= c
  {
    if ts != [] {
      var front, last := ts[..|ts| - 1], ts[|ts| - 1];
      LastWithIsLast(ms, front, id);
      assert ts == front + [last];
    }
  }

  lemma {:induction false} FilterBySpeed(ms: seq<Member>, ts: seq<nat>, keep: nat -> bool)
    requires BySpeed(ms, ts)
    ensures BySpeed(ms, Filter(ts, keep))
  {
    if ts != [] {
      var front, last := ts[..|ts| - 1], ts[|ts| - 1];
      FilterBySpeed(ms, front, keep);
      FilterMembers(front, keep);
      var kept := Filter(front, keep);
      hide NoSlower;
      forall i | 0 <= i < |kept| ensures NoSlower(ms, kept[i], last) && (NoSlower(ms, last, kept[i]) ==> kept[i] < last) {
        assert kept[i] in front;
        var k :| 0 <= k < |front| && front[k] == kept[i];
        assert ts[k] == kept[i] && ts[|ts| - 1] == last;
      }
    }
  }

  /** In lowest_latency mode the order follows the latencies, with a sticky target that changes only by the margins. */
  lemma LatencyOrder(p: EgressPolicy, ms: seq<Member>, sticky: string, draw: Draws)
    requires FairRange(draw) && p.mode == "lowest_latency"
    ensures var (order, next) := OrderOf(p, ms, sticky, draw); LatencyTells(p, ms, sticky, order, next)
  {
    var ts := WithVerdict(ms, true, |ms|);
    Split(ms, true);
    var (front, next) := ByLatency(p, ms, ts, sticky);
    LatencyPart(p, ms, ts, sticky);
    PartIsHealthy(p, ms, sticky, front, next);
    Appended(ms, front);
    var order := front + WithVerdict(ms, false, |ms|);
    assert order[..|front|] == front;
    assert OrderOf(p, ms, sticky, draw) == (order, next) by {
      assert WEIGHTED[0] != LOWEST_LATENCY[0];
    }
    hide *;
    assert LatencyTells(p, ms, sticky, order, next) by {
      Told(p, ms, sticky, order, next, |front|);
    }
  }

  lemma Told(p: EgressPolicy, ms: seq<Member>, sticky: string, order: seq<nat>, next: string, n: nat)
    requires LastResort(ms, order, n) && n <= |order| && HealthyPart(p, ms, sticky, order[..n], next)
    ensures LatencyTells(p, ms, sticky, order, next)
  {
    hide LastResort, HealthyPart;
  }

  lemma PartIsHealthy(p: EgressPolicy, ms: seq<Member>, sticky: string, front: seq<nat>, next: string)
    requires HealthyPart(p, ms, sticky, front, next)
    ensures ToSet(front) <= Side(ms, true)
  {
    hide Replaced, BySpeed;
    forall t | t in front ensures t in Side(ms, true) {
      assert t in ToSet(front);
      if t !in ToSet(front[1..]) { assert t == front[0]; }
    }
  }

  lemma LatencyPart(p: EgressPolicy, ms: seq<Member>, ts: seq<nat>, sticky: string)
    requires Positions(ms, ts) && Ascends(ts) && Distinct(ts) && ToSet(ts) == Side(ms, true) && |ts| == |Side(ms, true)|
    ensures var (front, next) := ByLatency(p, ms, ts, sticky); HealthyPart(p, ms, sticky, front, next)
  {
    if |ts| >= 2 {
      var sorted := Sort(ts, ByFaster(ms));
      SortKeepsPositions(ms, ts);
      SortedBySpeed(ms, ts);
      LastWithMeaning(ms, ts, sticky);
      LastWithIsLast(ms, ts, sticky);
      var cur := LastWith(ms, ts, sticky);
      assert forall t :: t in ts <==> t in Side(ms, true);
      SortedHead(ms, sorted);
      ReplacedIff(p, ms, sticky, sorted[0], cur);
      if sticky != "" && cur.Some? && !BeatsBothMargins(p, ms[cur.value].health.latency, ms[sorted[0]].health.latency) {
        KeptPart(ms, sorted, sticky, cur.value);
      }
      hide Sort, LastWith, Replaced, BySpeed, Holds, Filter, BeatsBothMargins, Side;
    }
  }

  lemma SortedHead(ms: seq<Member>, sorted: seq<nat>)
    requires BySpeed(ms, sorted) && sorted != [] && ToSet(sorted) == Side(ms, true)
    ensures IsFastest(ms, sorted[0])
  {
    assert sorted[0] in ToSet(sorted);
    forall u | u in Side(ms, true) ensures NoSlower(ms, sorted[0], u) {
      assert u in ToSet(sorted);
      var k :| 0 <= k < |sorted| && sorted[k] == u;
    }
  }

  lemma FarFasterIff(p: EgressPolicy, ms: seq<Member>, b: nat, c: nat)
    requires b < |ms| && c < |ms|
    ensures FarFaster(p, ms, b, c) <==> BeatsBothMargins(p, ms[c].health.latency, ms[b].health.latency)
  {
  }

  lemma ReplacedIff(p: EgressPolicy, ms: seq<Member>, sticky: string, head: nat, cur: Option<nat>)
    requires IsFastest(ms, head)
    requires cur.Some? ==> Holds(ms, sticky, cur.value)
    requires cur.None? ==> forall t :: t in Side(ms, true) ==> ms[t].info.nodeId != sticky
    ensures head < |ms| && (cur.Some? ==> cur.value < |ms|)
    ensures Replaced(p, ms, sticky) <==>
            sticky == "" || cur.None? || BeatsBothMargins(p, ms[cur.value].health.latency, ms[head].health.latency)
  {
    if cur.Some? {
      FarFasterIff(p, ms, head, cur.value);
      if b, c :| Holds(ms, sticky, c) && IsFastest(ms, b) && FarFaster(p, ms, b, c) {
        assert c == cur.value;
        assert NoSlower(ms, head, b) && NoSlower(ms, b, head);
      }
    }
    hide BeatsBothMargins;
  }

  /** The sticky target in front of the others. */
  lemma KeptPart(ms: seq<Member>, sorted: seq<nat>, sticky: string, c: nat)
    requires BySpeed(ms, sorted) && Distinct(sorted) && ToSet(sorted) == Side(ms, true)
    requires Holds(ms, sticky, c)
    ensures var front := [c] + Filter(sorted, OtherThan(ms, sticky));
            && Distinct(front) && BySpeed(ms, front[1..])
            && ToSet(front[1..]) == set t | t in Side(ms, true) && ms[t].info.nodeId != sticky
  {
    var rest := Filter(sorted, OtherThan(ms, sticky));
    FilterBySpeed(ms, sorted, OtherThan(ms, sticky));
    FilterDistinct(sorted, OtherThan(ms, sticky));
    FilterMembers(sorted, OtherThan(ms, sticky));
    assert ([c] + rest)[1..] == rest;
    assert c !in rest;
    assert forall t :: t in sorted <==> t in Side(ms, true);
    hide BySpeed, Filter;
  }

  // ----- the other modes -----

  /** Healthy targets in pool order. */
  ghost predicate PlainTells(ms: seq<Member>, order: seq<nat>) {
    var h := |Side(ms, true)|;
    LastResort(ms, order, h) && Ascends(order[..h]) && ToSet(order[..h]) == Side(ms, true)
  }

  /** Of the healthy targets only the first. */
  ghost predicate FixedTells(ms: seq<Member>, order: seq<nat>) {
    if Side(ms, true) == {} then LastResort(ms, order, 0)
    else LastResort(ms, order, 1) && forall u :: u in Side(ms, true) ==> order[0] <= u
  }

  lemma PlainOrder(p: EgressPolicy, ms: seq<Member>, sticky: string, draw: Draws)
    requires FairRange(draw) && p.mode != "weighted" && p.mode != "lowest_latency" && p.mode != "manual_fixed"
    ensures PlainTells(ms, OrderOf(p, ms, sticky, draw).0) && OrderOf(p, ms, sticky, draw).1 == sticky
  {
    Split(ms, true);
    var healthy := WithVerdict(ms, true, |ms|);
    Appended(ms, healthy);
    assert (healthy + WithVerdict(ms, false, |ms|))[..|healthy|] == healthy;
  }

  lemma FixedOrder(p: EgressPolicy, ms: seq<Member>, sticky: string, draw: Draws)
    requires FairRange(draw) && p.mode == "manual_fixed"
    ensures FixedTells(ms, OrderOf(p, ms, sticky, draw).0) && OrderOf(p, ms, sticky, draw).1 == sticky
  {
    Split(ms, true);
    FixedPart(ms, WithVerdict(ms, true, |ms|));
    assert "manual_fixed"[0] != "weighted"[0] && "manual_fixed"[0] != "lowest_latency"[0];
    hide FixedTells, WithVerdict;
  }

  lemma FixedPart(ms: seq<Member>, healthy: seq<nat>)
    requires Ascends(healthy) && ToSet(healthy) == Side(ms, true)
    ensures FixedTells(ms, (if |healthy| > 1 then healthy[..1] else healthy) + WithVerdict(ms, false, |ms|))
  {
    var front := if |healthy| > 1 then healthy[..1] else healthy;
    assert forall t :: t in healthy <==> t in ToSet(healthy);
    Appended(ms, front);
    hide LastResort, Side, WithVerdict;
    assert healthy != [] ==> healthy[0] in healthy;
    forall u | u in Side(ms, true) ensures healthy != [] && healthy[0] <= u {
      var k :| 0 <= k < |healthy| && healthy[k] == u;
    }
  }

  // ----- every mode -----

  /** What the order of a pool must be, and which node is the sticky one afterwards. */
  ghost predicate OrderTells(p: EgressPolicy, ms: seq<Member>, sticky: string, draw: Draws, order: seq<nat>, next: string) {
    if p.mode == "weighted" then WeightedTells(ms, draw, order) && next == sticky
    else if p.mode == "lowest_latency" then LatencyTells(p, ms, sticky, order, next)
    else if p.mode == "manual_fixed" then FixedTells(ms, order) && next == sticky
    else PlainTells(ms, order) && next == sticky
  }

  lemma OrderMeaning(p: EgressPolicy, ms: seq<Member>, sticky: string, draw: Draws)
    requires FairRange(draw)
    ensures var (order, next) := OrderOf(p, ms, sticky, draw); OrderTells(p, ms, sticky, draw, order, next)
  {
    hide OrderOf, WeightedTells, LatencyTells, FixedTells, PlainTells;
    if p.mode == "weighted" { WeightedOrder(p, ms, sticky, draw); }
    else if p.mode == "lowest_latency" { LatencyOrder(p, ms, sticky, draw); }
    else if p.mode == "manual_fixed" { FixedOrder(p, ms, sticky, draw); }
    else { PlainOrder(p, ms, sticky, draw); }
  }
}
