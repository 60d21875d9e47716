/**
 * Dials through one pool that overlap: each tries the targets of the order it was given,
 * one by one, while others, and the probes, change the health records.
 */
module Dialing {
  import opened Collections
  import opened Model
  import opened Health
  import opened Ordering
  import opened Selector
  import opened Failover

  type DialId = nat

  /** A dial under way: the targets still to try, and whether the first of its order is one of them. */
  datatype Dial = Dial(rest: seq<nat>, atFirst: bool)

  /** `firstTries` counts the dials whose order began with the failing target. */
  datatype State = State(ms: seq<Member>, dials: map<DialId, Dial>, firstTries: nat)

  /** The failing and the working target, the most dials at a time, and the pool's thresholds. */
  datatype Setting = Setting(p: nat, q: nat, k: nat, fail: int, rise: int)

  datatype Step =
    | Start(d: DialId, order: seq<nat>)
    | Try(d: DialId, o: Outcome)
    | ProbeOne(t: nat, o: Outcome)

  function Noted(c: Setting, ms: seq<Member>, t: nat, o: Outcome): seq<Member>
    requires t < |ms|
  {
    ms[t := ms[t].(health := Observe(ms[t].health, Observation(o.Connected?, o.ms), c.fail, c.rise))]
  }

  /** The failing target fails, the working one connects, and nobody refuses by policy. */
  predicate Fits(c: Setting, t: nat, o: Outcome) {
    (t == c.p ==> o.Failed?) && (t == c.q ==> o.Connected?) && !IsRefusal(o)
  }

  /** An order as the pool gives it: it holds the working target, and begins with the failing one only while that is healthy. */
  ghost predicate Offered(c: Setting, ms: seq<Member>, order: seq<nat>) {
    && Positions(ms, order) && c.q in order
    && (c.p < |ms| && order[0] == c.p ==> ms[c.p].health.healthy)
  }

  ghost predicate Can(c: Setting, s: State, st: Step) {
    match st
    case Start(d, order) => d !in s.dials && |s.dials| < c.k && Offered(c, s.ms, order)
    case Try(d, o) => d in s.dials && s.dials[d].rest != [] && s.dials[d].rest[0] < |s.ms| && Fits(c, s.dials[d].rest[0], o)
    case ProbeOne(t, o) => t < |s.ms| && Fits(c, t, o)
  }

  /** A dial ends when it connects; a failed attempt moves it on. */
  ghost function Do(c: Setting, s: State, st: Step): State
    requires Can(c, s, st)
  {
    match st
    case Start(d, order) =>
      s.(dials := s.dials[d := Dial(order, true)], firstTries := s.firstTries + if order[0] == c.p then 1 else 0)
    case Try(d, o) =>
      var rest := s.dials[d].rest;
      s.(ms := Noted(c, s.ms, rest[0], o),
         dials := if o.Connected? then s.dials - {d} else s.dials[d := Dial(rest[1..], false)])
    case ProbeOne(t, o) => s.(ms := Noted(c, s.ms, t, o))
  }

  /** Dials that have the failing target still to try, as the first of their order. */
  function Pending(c: Setting, s: State): set<DialId> {
    set d | d in s.dials && s.dials[d].atFirst && s.dials[d].rest != [] && s.dials[d].rest[0] == c.p
  }

  /**
   * The working target stays healthy and ahead of every dial; while the failing one is
   * healthy, first tries are paid from its budget or still pending; afterwards at most the
   * other dials of that moment were.
   */
  ghost predicate Inv(c: Setting, s: State, budget: nat) {
    && c.p < |s.ms| && c.q < |s.ms| && c.p != c.q && s.ms[c.q].health.healthy
    && |s.dials| <= c.k
    && (forall d :: d in s.dials ==> Positions(s.ms, s.dials[d].rest) && c.q in s.dials[d].rest)
    && (if s.ms[c.p].health.healthy
        then s.firstTries + Budget(s.ms[c.p].health, c.fail) <= budget + |Pending(c, s)|
        else s.firstTries <= budget + Max(0, c.k - 1))
  }

  lemma NotedKeeps(c: Setting, ms: seq<Member>, t: nat, o: Outcome)
    requires t < |ms| && c.p < |ms| && c.q < |ms| && ms[c.q].health.healthy && Fits(c, t, o)
    ensures var after := Noted(c, ms, t, o);
            && |after| == |ms| && after[c.q].health.healthy
            && (t != c.p ==> after[c.p] == ms[c.p])
            && (t == c.p && after[c.p].health.healthy ==> ms[c.p].health.healthy)
            && (t == c.p && ms[c.p].health.healthy ==> Budget(after[c.p].health, c.fail) < Budget(ms[c.p].health, c.fail))
            && Budget(after[c.p].health, c.fail) <= Budget(ms[c.p].health, c.fail)
  {
  }

  lemma PendingFits(c: Setting, s: State)
    ensures |Pending(c, s)| <= |s.dials|
  {
    assert Pending(c, s) <= s.dials.Keys && |s.dials.Keys| == |s.dials|;
    SubsetSize(Pending(c, s), s.dials.Keys);
  }

  lemma StartKeeps(c: Setting, s: State, st: Step, budget: nat)
    requires Inv(c, s, budget) && Can(c, s, st) && st.Start?
    ensures Inv(c, Do(c, s, st), budget)
  {
    var t := Do(c, s, st);
    assert t.dials.Keys == s.dials.Keys + {st.d} && |t.dials.Keys| == |t.dials|;
    if st.order[0] == c.p {
      assert Pending(c, t) == Pending(c, s) + {st.d};
    } else {
      assert Pending(c, t) == Pending(c, s);
    }
  }

  /** One attempt takes at most its own dial out of those pending, and only if it tries the failing target. */
  lemma TryPending(c: Setting, s: State, st: Step)
    requires Can(c, s, st) && st.Try? && c.p != c.q
    ensures var t, tried := Do(c, s, st), s.dials[st.d].rest[0];
            && |t.dials| <= |s.dials|
            && |Pending(c, t)| >= |Pending(c, s)| - (if tried == c.p then 1 else 0)
  {
    var t, tried := Do(c, s, st), s.dials[st.d].rest[0];
    assert |t.dials.Keys| == |t.dials| && |s.dials.Keys| == |s.dials|;
    assert t.dials.Keys <= s.dials.Keys;
    SubsetSize(t.dials.Keys, s.dials.Keys);
    if tried == c.p {
      assert Pending(c, t) == Pending(c, s) - {st.d};
    } else {
      assert Pending(c, t) == Pending(c, s);
    }
  }

  lemma TryKeeps(c: Setting, s: State, st: Step, budget: nat)
    requires Inv(c, s, budget) && Can(c, s, st) && st.Try?
    ensures Inv(c, Do(c, s, st), budget)
  {
    var t, tried := Do(c, s, st), s.dials[st.d].rest[0];
    NotedKeeps(c, s.ms, tried, st.o);
    TryPending(c, s, st);
    PendingFits(c, s);
    forall d | d in t.dials ensures Positions(t.ms, t.dials[d].rest) && c.q in t.dials[d].rest {
      var rest := s.dials[d].rest;
      assert Positions(s.ms, rest) && c.q in rest && rest == [rest[0]] + rest[1..];
    }
    hide Observe, Noted, Pending, IsRefusal;
  }

  lemma StepKeepsInv(c: Setting, s: State, st: Step, budget: nat)
    requires Inv(c, s, budget) && Can(c, s, st)
    ensures Inv(c, Do(c, s, st), budget)
  {
    match st {
      case Start(_, _) => StartKeeps(c, s, st, budget);
      case Try(_, _) => TryKeeps(c, s, st, budget);
      case ProbeOne(n, o) =>
        NotedKeeps(c, s.ms, n, o);
        PendingFits(c, s);
        assert Pending(c, Do(c, s, st)) == Pending(c, s);
    }
  }

  ghost predicate Runs(c: Setting, s: State, steps: seq<Step>)
    decreases |steps|
  {
    steps == [] || (Can(c, s, steps[0]) && Runs(c, Do(c, s, steps[0]), steps[1..]))
  }

  ghost function End(c: Setting, s: State, steps: seq<Step>): State
    requires Runs(c, s, steps)
    decreases |steps|
  {
    if steps == [] then s else End(c, Do(c, s, steps[0]), steps[1..])
  }

  lemma {:induction false} RunKeepsInv(c: Setting, s: State, steps: seq<Step>, budget: nat)
    requires Inv(c, s, budget) && Runs(c, s, steps)
    ensures Inv(c, End(c, s, steps), budget)
    decreases |steps|
  {
    hide Inv, Can, Do;
    if steps != [] {
      StepKeepsInv(c, s, steps[0], budget);
      RunKeepsInv(c, Do(c, s, steps[0]), steps[1..], budget);
    }
  }

  /**
   * Failover with up to `k` dials at once, from an idle pool: no dial runs out of targets, and
   * a target that only ever fails is tried first at most `k - 1` times more than its budget.
   */
  lemma OverlappingFailover(c: Setting, ms: seq<Member>, steps: seq<Step>)
    requires c.p < |ms| && c.q < |ms| && c.p != c.q && ms[c.q].health.healthy && c.k > 0
    requires Runs(c, State(ms, map[], 0), steps)
    ensures var t := End(c, State(ms, map[], 0), steps);
            && (forall d :: d in t.dials ==> c.q in t.dials[d].rest)
            && t.firstTries <= Budget(ms[c.p].health, c.fail) + c.k - 1
  {
    var s := State(ms, map[], 0);
    var budget := Budget(ms[c.p].health, c.fail);
    assert Pending(c, s) == {};
    RunKeepsInv(c, s, steps, budget);
    var t := End(c, s, steps);
    PendingFits(c, t);
    assert t.ms[c.p].health.healthy ==> Budget(t.ms[c.p].health, c.fail) >= 1;
  }

  /** Every order the pool gives while the working target is healthy may be started with, save by manual_fixed. */
  lemma OrdersAreOffered(c: Setting, p: EgressPolicy, ms: seq<Member>, sticky: string, draw: Draws)
    requires FairRange(draw) && p.mode != MANUAL_FIXED && (p.mode == LOWEST_LATENCY ==> DistinctIds(ms))
    requires c.q < |ms| && ms[c.q].health.healthy
    ensures Offered(c, ms, OrderOf(p, ms, sticky, draw).0)
  {
    OrderIsComplete(p, ms, sticky, draw);
    var order := OrderOf(p, ms, sticky, draw).0;
    assert c.q in order;
    var k :| 0 <= k < |order| && order[k] == c.q;
    assert ms[order[k]].health.healthy;
  }
}
