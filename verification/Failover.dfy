/** What local failover guarantees over whole runs of dials and probes. */
module Failover {
  import opened Collections
  import opened Model
  import opened Health
  import opened Ordering
  import opened Selector

  // ----- one dial -----

  predicate IsRefusal(o: Outcome) {
    o.Failed? && IsPolicyRefusal(o.text)
  }

  lemma {:induction false} DialledKeepsPool(ms: seq<Member>, order: seq<nat>, attempt: nat -> Outcome,
                                            fail: int, rise: int, e: Option<string>)
    requires Positions(ms, order)
    ensures var after := Dialled(ms, order, attempt, fail, rise, e).0;
            |after| == |ms| && forall t :: 0 <= t < |ms| ==> after[t].info == ms[t].info
    decreases |order|
  {
    if order != [] && attempt(order[0]).Failed? && !IsRefusal(attempt(order[0])) {
      var t, o := order[0], attempt(order[0]);
      var noted := ms[t := ms[t].(health := Observe(ms[t].health, Observation(false, o.ms), fail, rise))];
      DialledKeepsPool(noted, order[1..], attempt, fail, rise, Some(o.text));
    }
  }

  /** The first `n` targets of the order were tried in vain, and not because of a policy refusal. */
  ghost predicate FailedFirst(order: seq<nat>, attempt: nat -> Outcome, n: nat) {
    n <= |order| && forall i :: 0 <= i < n ==> attempt(order[i]).Failed? && !IsRefusal(attempt(order[i]))
  }

  /** How a dial ends after its first `n` targets failed. */
  ghost predicate EndsAt(order: seq<nat>, attempt: nat -> Outcome, n: nat, before: Option<string>, result: DialResult) {
    && FailedFirst(order, attempt, n)
    && if n == |order| then result == Exhausted(if n == 0 then before else Some(attempt(order[n - 1]).text))
       else if attempt(order[n]).Connected? then result == Established(order[n])
       else IsRefusal(attempt(order[n])) && result == Refused(order[n], attempt(order[n]).text)
  }

  /** The records after such a dial: one failure for each of the first `n`, a success for one that connected. */
  ghost predicate RecordsTell(ms: seq<Member>, order: seq<nat>, attempt: nat -> Outcome, fail: int, rise: int, n: nat,
                              after: seq<Member>)
    requires Positions(ms, order) && n <= |order|
  {
    && |after| == |ms|
    && (forall i :: 0 <= i < n ==>
          after[order[i]].health == Observe(ms[order[i]].health, Observation(false, attempt(order[i]).ms), fail, rise))
    && (n < |order| && attempt(order[n]).Connected? ==>
          after[order[n]].health == Observe(ms[order[n]].health, Observation(true, attempt(order[n]).ms), fail, rise))
    && (forall t :: 0 <= t < |ms| ==> after[t].info == ms[t].info)
    && (forall t: nat :: t < |ms| && t !in order[..n] && !(n < |order| && order[n] == t && attempt(t).Connected?) ==>
          after[t] == ms[t])
  }

  /**
   * A dial tries the targets in turn: it ends with the first that connects or refuses by
   * policy, or has tried them all and reports the last error; each failure before that, and
   * the success, goes into the record of its own target, and a refusal into none.
   */
  lemma {:induction false} DialMeaning(ms: seq<Member>, order: seq<nat>, attempt: nat -> Outcome,
                                       fail: int, rise: int, e: Option<string>) returns (n: nat)
    requires Positions(ms, order) && Distinct(order)
    ensures var (after, result) := Dialled(ms, order, attempt, fail, rise, e);
            EndsAt(order, attempt, n, e, result) && RecordsTell(ms, order, attempt, fail, rise, n, after)
    decreases |order|
  {
    n := 0;
    if order != [] && attempt(order[0]).Failed? && !IsRefusal(attempt(order[0])) {
      var t, o, rest := order[0], attempt(order[0]), order[1..];
      var noted := ms[t := ms[t].(health := Observe(ms[t].health, Observation(false, o.ms), fail, rise))];
      var m := DialMeaning(noted, rest, attempt, fail, rise, Some(o.text));
      n := m + 1;
      DialStep(ms, order, attempt, fail, rise, m, Dialled(noted, rest, attempt, fail, rise, Some(o.text)).0);
      EndStep(order, attempt, m, e, Dialled(noted, rest, attempt, fail, rise, Some(o.text)).1);
      hide IsPolicyRefusal, RecordsTell, Observe, EndsAt;
    }
  }

  lemma EndStep(order: seq<nat>, attempt: nat -> Outcome, m: nat, e: Option<string>, result: DialResult)
    requires order != [] && attempt(order[0]).Failed? && !IsRefusal(attempt(order[0]))
    requires EndsAt(order[1..], attempt, m, Some(attempt(order[0]).text), result)
    ensures EndsAt(order, attempt, m + 1, e, result)
  {
    var rest := order[1..];
    assert forall i :: 0 <= i < |rest| ==> rest[i] == order[i + 1];
    hide IsRefusal;
    forall i | 0 <= i < m + 1 ensures attempt(order[i]).Failed? && !IsRefusal(attempt(order[i])) {
      if i > 0 { assert rest[i - 1] == order[i]; }
    }
  }

  lemma DialStep(ms: seq<Member>, order: seq<nat>, attempt: nat -> Outcome, fail: int, rise: int, m: nat, after: seq<Member>)
    requires order != [] && Positions(ms, order) && Distinct(order) && m < |order| && attempt(order[0]).Failed?
    requires var t := order[0];
             var noted := ms[t := ms[t].(health := Observe(ms[t].health, Observation(false, attempt(t).ms), fail, rise))];
             RecordsTell(noted, order[1..], attempt, fail, rise, m, after)
    ensures RecordsTell(ms, order, attempt, fail, rise, m + 1, after)
  {
    var rest, t := order[1..], order[0];
    hide Observe;
    assert forall i :: 0 <= i < |rest| ==> rest[i] == order[i + 1] && rest[i] != t;
    assert order[..m + 1] == [t] + rest[..m];
    assert t !in rest[..m];
    forall i | 0 <= i < m + 1
      ensures after[order[i]].health == Observe(ms[order[i]].health, Observation(false, attempt(order[i]).ms), fail, rise) {
      if i > 0 { assert rest[i - 1] == order[i]; }
    }
  }

  /** A relay that refuses a destination by policy keeps its health record untouched. */
  lemma {:induction false} RefusalKeepsHealth(ms: seq<Member>, order: seq<nat>, attempt: nat -> Outcome,
                                              fail: int, rise: int, e: Option<string>, t: nat)
    requires Positions(ms, order) && t < |ms|
    requires IsRefusal(attempt(t))
    ensures |Dialled(ms, order, attempt, fail, rise, e).0| == |ms|
    ensures Dialled(ms, order, attempt, fail, rise, e).0[t] == ms[t]
    decreases |order|
  {
    if order != [] && attempt(order[0]).Failed? && !IsRefusal(attempt(order[0])) {
      var u, o := order[0], attempt(order[0]);
      var noted := ms[u := ms[u].(health := Observe(ms[u].health, Observation(false, o.ms), fail, rise))];
      RefusalKeepsHealth(noted, order[1..], attempt, fail, rise, Some(o.text), t);
    }
  }

  /** Without policy refusals a dial that has a working candidate succeeds. */
  lemma {:induction false} WorkingCandidateConnects(ms: seq<Member>, order: seq<nat>, attempt: nat -> Outcome,
                                                    fail: int, rise: int, e: Option<string>, q: nat)
    requires Positions(ms, order) && q in order
    requires attempt(q).Connected?
    requires forall t :: t in order ==> !IsRefusal(attempt(t))
    ensures Dialled(ms, order, attempt, fail, rise, e).1.Established?
    decreases |order|
  {
    if attempt(order[0]).Failed? {
      var t, o := order[0], attempt(order[0]);
      assert order == [t] + order[1..];
      var noted := ms[t := ms[t].(health := Observe(ms[t].health, Observation(false, o.ms), fail, rise))];
      WorkingCandidateConnects(noted, order[1..], attempt, fail, rise, Some(o.text), q);
    }
  }

  /** How often a healthy target may still be tried first if it only ever fails. */
  function Budget(h: Health, fail: int): nat {
    if !h.healthy then 0 else if fail - h.fails >= 1 then fail - h.fails else 1
  }

  /** A target that connects when tried stays healthy through a dial. */
  lemma {:induction false} ConnectingStaysHealthy(ms: seq<Member>, order: seq<nat>, attempt: nat -> Outcome,
                                                  fail: int, rise: int, e: Option<string>, q: nat)
    requires Positions(ms, order) && q < |ms|
    requires attempt(q).Connected? && ms[q].health.healthy
    ensures |Dialled(ms, order, attempt, fail, rise, e).0| == |ms|
    ensures Dialled(ms, order, attempt, fail, rise, e).0[q].health.healthy
    decreases |order|
  {
    if order != [] && attempt(order[0]).Failed? && !IsRefusal(attempt(order[0])) {
      var t, o := order[0], attempt(order[0]);
      var noted := ms[t := ms[t].(health := Observe(ms[t].health, Observation(false, o.ms), fail, rise))];
      ConnectingStaysHealthy(noted, order[1..], attempt, fail, rise, Some(o.text), q);
    }
  }

  /** A dial never gives a failing target more budget, and being tried first costs it one. */
  lemma {:induction false} FailingLosesBudget(ms: seq<Member>, order: seq<nat>, attempt: nat -> Outcome,
                                              fail: int, rise: int, e: Option<string>, p: nat)
    requires Positions(ms, order) && p < |ms|
    requires attempt(p).Failed?
    ensures |Dialled(ms, order, attempt, fail, rise, e).0| == |ms|
    ensures Budget(Dialled(ms, order, attempt, fail, rise, e).0[p].health, fail) <= Budget(ms[p].health, fail)
    ensures order != [] && order[0] == p && ms[p].health.healthy && !IsRefusal(attempt(p)) ==>
              Budget(Dialled(ms, order, attempt, fail, rise, e).0[p].health, fail) < Budget(ms[p].health, fail)
    decreases |order|
  {
    if order != [] && attempt(order[0]).Failed? && !IsRefusal(attempt(order[0])) {
      var t, o := order[0], attempt(order[0]);
      var noted := ms[t := ms[t].(health := Observe(ms[t].health, Observation(false, o.ms), fail, rise))];
      FailingLosesBudget(noted, order[1..], attempt, fail, rise, Some(o.text), p);
    }
  }

  // ----- probes -----

  lemma {:induction false} ProbedTarget(ms: seq<Member>, attempt: nat -> Outcome, fail: int, rise: int, n: nat, t: nat)
    requires n <= |ms| && t < |ms|
    ensures Probed(ms, attempt, fail, rise, n)[t] ==
            if t < n
            then ms[t].(health := Observe(ms[t].health, Observation(attempt(t).Connected?, attempt(t).ms), fail, rise))
            else ms[t]
  {
    if n > 0 { ProbedTarget(ms, attempt, fail, rise, n - 1, t); }
  }

  // ----- runs in primary_fallback -----

  datatype Event = DialEvent(attempt: nat -> Outcome) | ProbeEvent(attempt: nat -> Outcome)

  /** The order of every mode that is not one of the three special ones. */
  function FallbackOrder(ms: seq<Member>): (order: seq<nat>)
    ensures Positions(ms, order)
  {
    WithVerdict(ms, true, |ms|) + WithVerdict(ms, false, |ms|)
  }

  /** The members after an event, and the dial's result. */
  function Step(ms: seq<Member>, e: Event, fail: int, rise: int): (seq<Member>, Option<DialResult>) {
    match e
    case DialEvent(attempt) =>
      var (after, result) := Dialled(ms, FallbackOrder(ms), attempt, fail, rise, None);
      (after, Some(result))
    case ProbeEvent(attempt) => (Probed(ms, attempt, fail, rise, |ms|), None)
  }

  lemma FallbackIsDefaultOrder(p: EgressPolicy, ms: seq<Member>, sticky: string, draw: Draws)
    requires FairRange(draw)
    requires p.mode != WEIGHTED && p.mode != LOWEST_LATENCY && p.mode != MANUAL_FIXED
    ensures OrderOf(p, ms, sticky, draw) == (FallbackOrder(ms), sticky)
  {
  }

  /** Number of dials in the run whose first attempt goes to target `p`. */
  function FirstTries(ms: seq<Member>, events: seq<Event>, p: nat, fail: int, rise: int): nat
    decreases |events|
  {
    if events == [] then 0
    else
      var order := FallbackOrder(ms);
      FirstTries(Step(ms, events[0], fail, rise).0, events[1..], p, fail, rise) +
      (if events[0].DialEvent? && order != [] && order[0] == p then 1 else 0)
  }

  /** Every dial of the run establishes a tunnel. */
  predicate AllDialsSucceed(ms: seq<Member>, events: seq<Event>, fail: int, rise: int)
    decreases |events|
  {
    events == [] ||
    (var (after, result) := Step(ms, events[0], fail, rise);
     (result.Some? ==> result.value.Established?) && AllDialsSucceed(after, events[1..], fail, rise))
  }

  /** In this run `p` always fails, `q` always connects, and no relay refuses by policy. */
  ghost predicate FailoverRun(events: seq<Event>, p: nat, q: nat) {
    forall k :: 0 <= k < |events| ==>
      && events[k].attempt(p).Failed?
      && events[k].attempt(q).Connected?
      && forall t: nat :: !IsRefusal(events[k].attempt(t))
  }

  lemma FallbackHeadIsHealthy(ms: seq<Member>, q: nat)
    requires q < |ms| && ms[q].health.healthy
    ensures q in FallbackOrder(ms)
    ensures FallbackOrder(ms) != [] && ms[FallbackOrder(ms)[0]].health.healthy
  {
    var healthy := WithVerdict(ms, true, |ms|);
    WithVerdictMembers(ms, true, |ms|);
    assert q in healthy;
    assert healthy[0] in healthy;
    assert FallbackOrder(ms)[0] == healthy[0];
    var k :| 0 <= k < |healthy| && healthy[k] == q;
    assert FallbackOrder(ms)[k] == q;
  }

  /** What one event of such a run does to the two targets. */
  lemma FailoverStep(ms: seq<Member>, e: Event, p: nat, q: nat, fail: int, rise: int)
    requires p < |ms| && q < |ms|
    requires ms[q].health.healthy
    requires FailoverRun([e], p, q)
    ensures var (after, result) := Step(ms, e, fail, rise);
            && |after| == |ms| && after[q].health.healthy
            && (result.Some? ==> result.value.Established?)
            && Budget(after[p].health, fail) <= Budget(ms[p].health, fail)
            && (e.DialEvent? && FallbackOrder(ms) != [] && FallbackOrder(ms)[0] == p ==>
                  Budget(after[p].health, fail) < Budget(ms[p].health, fail))
  {
    assert [e][0] == e;
    assert e.attempt(p).Failed? && e.attempt(q).Connected? && !IsRefusal(e.attempt(p));
    match e {
      case DialEvent(attempt) =>
        var order := FallbackOrder(ms);
        FallbackHeadIsHealthy(ms, q);
        WorkingCandidateConnects(ms, order, attempt, fail, rise, None, q);
        ConnectingStaysHealthy(ms, order, attempt, fail, rise, None, q);
        FailingLosesBudget(ms, order, attempt, fail, rise, None, p);
      case ProbeEvent(attempt) =>
        ProbedTarget(ms, attempt, fail, rise, |ms|, p);
        ProbedTarget(ms, attempt, fail, rise, |ms|, q);
    }
  }

  /**
   * With a standby that keeps working and no policy refusal, every dial of every run
   * succeeds, and a target that only ever fails is tried first at most as often as its
   * remaining budget, whatever probes happen in between.
   */
  lemma {:induction false} FailoverTheorem(ms: seq<Member>, events: seq<Event>, p: nat, q: nat, fail: int, rise: int)
    requires p < |ms| && q < |ms|
    requires ms[q].health.healthy
    requires FailoverRun(events, p, q)
    ensures AllDialsSucceed(ms, events, fail, rise)
    ensures FirstTries(ms, events, p, fail, rise) <= Budget(ms[p].health, fail)
    decreases |events|
  {
    if events != [] {
      assert FailoverRun([events[0]], p, q);
      FailoverStep(ms, events[0], p, q, fail, rise);
      forall k | 0 <= k < |events[1..]| ensures events[1..][k] == events[k + 1] {
      }
      FailoverTheorem(Step(ms, events[0], fail, rise).0, events[1..], p, q, fail, rise);
    }
  }

  /** From a freshly built pool: at most `fail` wasted first tries. */
  lemma FreshPrimaryBound(ms: seq<Member>, events: seq<Event>, p: nat, q: nat, policy: EgressPolicy)
    requires p < |ms| && q < |ms|
    requires ms[q].health.healthy && ms[p].health.fails == 0
    requires FailoverRun(events, p, q)
    ensures var fail := if policy.failThreshold <= 0 then 3 else policy.failThreshold;
            var rise := if policy.riseThreshold <= 0 then 2 else policy.riseThreshold;
            FirstTries(ms, events, p, fail, rise) <= fail
  {
    var (fail, rise) := Thresholds(policy);
    FailoverTheorem(ms, events, p, q, fail, rise);
  }
}
