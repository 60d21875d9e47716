/** The DNS frontend's per-prefix token bucket. Times are in seconds. */
module Limiter {
  import opened Collections

  type Key = string

  datatype Bucket = Bucket(tokens: real, ts: real)

  datatype State = State(qps: int, burst: int, buckets: map<Key, Bucket>, last: real)

  const GC_INTERVAL := 60.0
  const IDLE_LIMIT := 300.0

  // ----- one operation, on values -----

  function Qps(qps: int): int { if qps <= 0 then 100 else qps }
  function BurstFor(qps: int, burst: int): int { if burst <= 0 then Qps(qps) * 5 else burst }

  function Configured(s: State, qps: int, burst: int): State {
    s.(qps := Qps(qps), burst := BurstFor(qps, burst))
  }

  /** Tokens earned in `gap` seconds. */
  function Gain(gap: real, qps: int): real {
    gap * qps as real
  }

  /** Tokens a bucket holds at time `now`. */
  function Refilled(b: Bucket, now: real, qps: int, burst: int): real {
    var t := b.tokens + Gain(now - b.ts, qps);
    if t > burst as real then burst as real else t
  }

  function Collect(buckets: map<Key, Bucket>, now: real): map<Key, Bucket> {
    map k | k in buckets && !(now - buckets[k].ts > IDLE_LIMIT) :: buckets[k]
  }

  /** Charges one query to a bucket, without collecting anything. */
  function Charged(s: State, k: Key, now: real): (State, bool) {
    var b := if k in s.buckets then s.buckets[k] else Bucket(s.burst as real, now);
    var t := Refilled(b, now, s.qps, s.burst);
    if t < 1.0 then (s.(buckets := s.buckets[k := Bucket(t, now)]), false)
    else (s.(buckets := s.buckets[k := Bucket(t - 1.0, now)]), true)
  }

  /** The limiter as it is: idle buckets are dropped at most once a minute. */
  function Allowed(s: State, key: Option<Key>, now: real): (State, bool) {
    match key
    case None => (s, false)
    case Some(k) =>
      var swept := if now - s.last > GC_INTERVAL then s.(buckets := Collect(s.buckets, now), last := now) else s;
      Charged(swept, k, now)
  }

  /** The limiter that never forgets a bucket. */
  function Remembered(s: State, key: Option<Key>, now: real): (State, bool) {
    match key
    case None => (s, false)
    case Some(k) => Charged(s, k, now)
  }

  class Limiter {
    var qps: int
    var burst: int
    var buckets: map<Key, Bucket>
    var last: real

    function View(): State
      reads this
    {
      State(qps, burst, buckets, last)
    }

    constructor (qps: int, burst: int, now: real)
      ensures View() == Configured(State(0, 0, map[], now), qps, burst)
    {
      buckets := map[];
      last := now;
      new;
      Configure(qps, burst);
    }

    method Configure(q: int, b: int)
      modifies this`qps, this`burst
      ensures View() == Configured(old(View()), q, b)
      ensures qps == (if q <= 0 then 100 else q) && burst == (if b <= 0 then 5 * qps else b)
    {
      var rate, depth := q, b;
      if rate <= 0 { rate := 100; }
      if depth <= 0 { depth := rate * 5; }
      qps, burst := rate, depth;
    }

    method Gc(now: real)
      modifies this`buckets
      ensures buckets == Collect(old(buckets), now)
    {
      var rest := buckets.Keys;
      while rest != {}
        invariant rest <= old(buckets).Keys
        invariant buckets.Keys == set k | k in old(buckets) && (k in rest || !(now - old(buckets)[k].ts > IDLE_LIMIT))
        invariant forall k :: k in buckets ==> buckets[k] == old(buckets)[k]
        decreases |rest|
      {
        var k := AnyOf(rest);
        rest := rest - {k};
        if now - buckets[k].ts > IDLE_LIMIT {
          buckets := buckets - {k};
        }
      }
    }

    method Allow(key: Option<Key>, now: real) returns (ok: bool)
      modifies this
      ensures (View(), ok) == Allowed(old(View()), key, now)
      ensures qps == old(qps) && burst == old(burst)
      ensures last == if key.Some? && now - old(last) > 60.0 then now else old(last)
      ensures key.Some? ==> forall j :: j != key.value ==>
                && (j in buckets <==> j in old(buckets) && (now - old(last) > 60.0 ==> now - old(buckets)[j].ts <= 300.0))
                && (j in buckets ==> buckets[j] == old(buckets)[j])
    {
      if key.None? { return false; }
      var k := key.value;
      if now - last > GC_INTERVAL {
        Gc(now);
        last := now;
      }
      var b := Bucket(burst as real, now);
      if k in buckets { b := buckets[k]; }
      var tokens := Refilled(b, now, qps, burst);
      if tokens < 1.0 {
        buckets := buckets[k := Bucket(tokens, now)];
        return false;
      }
      buckets := buckets[k := Bucket(tokens - 1.0, now)];
      return true;
    }
  }

  // ----- runs -----

  datatype Event = Reconfigure(qps: int, burst: int) | Query(key: Option<Key>, now: real)

  function Step(s: State, e: Event, forgetful: bool): (State, bool) {
    match e
    case Reconfigure(q, b) => (Configured(s, q, b), true)
    case Query(key, now) => if forgetful then Allowed(s, key, now) else Remembered(s, key, now)
  }

  /** The answers of a run, one per event. */
  function Decisions(s: State, events: seq<Event>, forgetful: bool): (ds: seq<bool>)
    ensures |ds| == |events|
    decreases |events|
  {
    if events == [] then []
    else
      var (next, ok) := Step(s, events[0], forgetful);
      [ok] + Decisions(next, events[1..], forgetful)
  }

  function Final(s: State, events: seq<Event>, forgetful: bool): State
    decreases |events|
  {
    if events == [] then s else Final(Step(s, events[0], forgetful).0, events[1..], forgetful)
  }

  /** Clock readings never go back. */
  predicate Monotone(events: seq<Event>, from: real)
    decreases |events|
  {
    events == [] ||
    match events[0]
    case Reconfigure(_, _) => Monotone(events[1..], from)
    case Query(_, now) => from <= now && Monotone(events[1..], now)
  }

  /** Every setting refills a whole burst within the idle limit. */
  predicate RefillsWhenIdle(qps: int, burst: int) {
    burst <= 300 * qps
  }

  predicate SettingsRefill(events: seq<Event>) {
    forall e :: e in events && e.Reconfigure? ==> RefillsWhenIdle(Qps(e.qps), BurstFor(e.qps, e.burst))
  }

  /** Rates are positive, and no bucket is overdrawn or from the future. */
  ghost predicate Sound(s: State, t: real) {
    && s.qps >= 1 && s.burst >= 1
    && forall k :: k in s.buckets ==> s.buckets[k].tokens >= 0.0 && s.buckets[k].ts <= t
  }

  // What the proofs need to know about `Gain`; elsewhere its definition stays hidden.

  lemma GainMonotone(a: real, b: real, q: int)
    requires a <= b && q >= 0
    ensures Gain(a, q) <= Gain(b, q)
  {
    assert (b - a) * q as real >= 0.0;
    assert b * q as real == a * q as real + (b - a) * q as real;
  }

  lemma GainAdds(a: real, b: real, q: int)
    ensures Gain(a + b, q) == Gain(a, q) + Gain(b, q)
  {
  }

  lemma GainNothing(q: int)
    ensures Gain(0.0, q) == 0.0
  {
  }

  /** More than five minutes' worth of tokens is at least a burst. */
  lemma GainWhenIdle(gap: real, qps: int, burst: int)
    requires qps >= 1 && RefillsWhenIdle(qps, burst) && gap > IDLE_LIMIT
    ensures Gain(gap, qps) >= burst as real
  {
    GainMonotone(300.0, gap, qps);
    var most := 300 * qps;
    assert burst as real <= most as real;
    assert most as real == 300.0 * qps as real;
  }

  lemma InverseTimes(q: real)
    requires q > 0.0
    ensures 1.0 / q * q == 1.0
  {
  }

  lemma GainInPeriod(gap: real, qps: int)
    requires qps >= 1 && gap >= 1.0 / qps as real
    ensures Gain(gap, qps) >= 1.0
  {
    GainMonotone(1.0 / qps as real, gap, qps);
    InverseTimes(qps as real);
  }

  /** A bucket idle past the limit refills completely, so forgetting it changes nothing. */
  lemma IdleBucketIsFull(b: Bucket, now: real, qps: int, burst: int)
    requires qps >= 1 && RefillsWhenIdle(qps, burst)
    requires b.tokens >= 0.0 && now - b.ts > IDLE_LIMIT
    ensures Refilled(b, now, qps, burst) == burst as real
  {
    hide Gain;
    GainWhenIdle(now - b.ts, qps, burst);
  }

  lemma RefilledBounds(b: Bucket, now: real, qps: int, burst: int)
    requires qps >= 1 && burst >= 1 && b.tokens >= 0.0 && b.ts <= now
    ensures 0.0 <= Refilled(b, now, qps, burst) <= burst as real
  {
    hide Gain;
    GainNothing(qps);
    GainMonotone(0.0, now - b.ts, qps);
  }

  lemma NoTimeNoRefill(b: Bucket, qps: int, burst: int)
    ensures Refilled(b, b.ts, qps, burst) == if b.tokens > burst as real then burst as real else b.tokens
  {
    hide Gain;
    GainNothing(qps);
  }

  lemma PeriodRefillsOne(b: Bucket, now: real, qps: int, burst: int)
    requires qps >= 1 && burst >= 1 && b.tokens >= 0.0
    requires now - b.ts >= 1.0 / qps as real
    ensures Refilled(b, now, qps, burst) >= 1.0
  {
    hide Gain;
    GainInPeriod(now - b.ts, qps);
  }

  lemma ChargedSound(s: State, k: Key, now: real)
    requires Sound(s, now)
    ensures Sound(Charged(s, k, now).0, now)
  {
    hide Refilled;
    var b := if k in s.buckets then s.buckets[k] else Bucket(s.burst as real, now);
    RefilledBounds(b, now, s.qps, s.burst);
  }

  // ----- forgetting is invisible -----

  /** The forgetful limiter lacks only buckets that have been idle past the limit. */
  ghost predicate Simulates(f: State, r: State, t: real) {
    && f.qps == r.qps && f.burst == r.burst
    && Sound(r, t)
    && (forall k :: k in f.buckets ==> k in r.buckets && f.buckets[k] == r.buckets[k])
    && (forall k :: k in r.buckets && k !in f.buckets ==> t - r.buckets[k].ts > IDLE_LIMIT)
  }

  lemma SimulatesQuery(f: State, r: State, t: real, key: Option<Key>, now: real)
    requires Simulates(f, r, t) && t <= now
    requires RefillsWhenIdle(f.qps, f.burst)
    ensures Simulates(Allowed(f, key, now).0, Remembered(r, key, now).0, now)
    ensures Allowed(f, key, now).1 == Remembered(r, key, now).1
  {
    hide Refilled;
    if key.Some? {
      var k := key.value;
      ChargedSound(r, k, now);
      NoTimeNoRefill(Bucket(f.burst as real, now), f.qps, f.burst);
      if k in r.buckets && now - r.buckets[k].ts > IDLE_LIMIT {
        IdleBucketIsFull(r.buckets[k], now, r.qps, r.burst);
      }
    }
  }

  /**
   * With settings that refill a burst within five minutes, dropping idle buckets never
   * changes an answer, however often the limiter is reconfigured.
   */
  lemma {:induction false} ForgettingIsInvisible(f: State, r: State, t: real, events: seq<Event>)
    requires Simulates(f, r, t) && RefillsWhenIdle(f.qps, f.burst)
    requires Monotone(events, t) && SettingsRefill(events)
    ensures Decisions(f, events, true) == Decisions(r, events, false)
    decreases |events|
  {
    if events != [] {
      var e := events[0];
      assert e in events;
      var now := t;
      match e {
        case Reconfigure(q, b) =>
        case Query(key, at) =>
          SimulatesQuery(f, r, t, key, at);
          now := at;
      }
      ForgettingIsInvisible(Step(f, e, true).0, Step(r, e, false).0, now, events[1..]);
    }
  }

  // ----- the window bound -----

  function QueriesOnly(events: seq<Event>): bool {
    forall e :: e in events ==> e.Query?
  }

  /** Queries of one key admitted in a run. */
  function Admitted(s: State, events: seq<Event>, k: Key): nat
    decreases |events|
  {
    if events == [] then 0
    else
      var (next, ok) := Step(s, events[0], true);
      Admitted(next, events[1..], k) + (if events[0].Query? && events[0].key == Some(k) && ok then 1 else 0)
  }

  /** What the bucket of `k` would hold at time `t`. */
  function Available(s: State, k: Key, t: real): real {
    if k in s.buckets then Refilled(s.buckets[k], t, s.qps, s.burst) else s.burst as real
  }

  lemma AvailableGrows(s: State, k: Key, t: real, now: real)
    requires Sound(s, t) && t <= now
    ensures Available(s, k, now) <= Available(s, k, t) + Gain(now - t, s.qps)
    ensures Available(s, k, t) <= s.burst as real
  {
    hide Gain;
    GainNothing(s.qps);
    GainMonotone(0.0, now - t, s.qps);
    if k in s.buckets {
      var ts := s.buckets[k].ts;
      GainAdds(t - ts, now - t, s.qps);
      assert (t - ts) + (now - t) == now - ts;
    }
  }

  lemma ChargeCost(s: State, k: Key, key: Key, now: real)
    requires Sound(s, now)
    ensures var (next, ok) := Charged(s, key, now);
            Available(next, k, now) + (if key == k && ok then 1.0 else 0.0) <= Available(s, k, now)
  {
    hide Refilled;
    if key == k {
      var b := if k in s.buckets then s.buckets[k] else Bucket(s.burst as real, now);
      NoTimeNoRefill(Bucket(s.burst as real, now), s.qps, s.burst);
      var t := Refilled(b, now, s.qps, s.burst);
      NoTimeNoRefill(Bucket(t, now), s.qps, s.burst);
      NoTimeNoRefill(Bucket(t - 1.0, now), s.qps, s.burst);
    }
  }

  /** One query: availability never rises, and an admission of `k` costs one token. */
  lemma QueryCost(s: State, k: Key, key: Option<Key>, now: real)
    requires Sound(s, now) && RefillsWhenIdle(s.qps, s.burst)
    ensures var (next, ok) := Allowed(s, key, now);
            && Sound(next, now) && next.qps == s.qps && next.burst == s.burst
            && Available(next, k, now) + (if key == Some(k) && ok then 1.0 else 0.0) <= Available(s, k, now)
  {
    hide Refilled;
    if key.Some? {
      var swept := if now - s.last > GC_INTERVAL then s.(buckets := Collect(s.buckets, now), last := now) else s;
      if k in s.buckets && now - s.buckets[k].ts > IDLE_LIMIT {
        IdleBucketIsFull(s.buckets[k], now, s.qps, s.burst);
      }
      assert Available(swept, k, now) == Available(s, k, now);
      ChargedSound(swept, key.value, now);
      ChargeCost(swept, k, key.value, now);
    }
  }

  /** The time of the last query, or `from`. */
  function EndTime(events: seq<Event>, from: real): real
    decreases |events|
  {
    if events == [] then from
    else EndTime(events[1..], if events[0].Query? then events[0].now else from)
  }

  lemma {:induction false} EndTimeLater(events: seq<Event>, from: real)
    requires Monotone(events, from)
    ensures EndTime(events, from) >= from
    decreases |events|
  {
    if events != [] {
      EndTimeLater(events[1..], if events[0].Query? then events[0].now else from);
    }
  }

  /** What `k` can still be granted between `t` and `end` shrinks by one with each admission. */
  lemma BudgetStep(s: State, t: real, k: Key, key: Option<Key>, now: real, end: real, budget: real)
    requires Sound(s, t) && t <= now && RefillsWhenIdle(s.qps, s.burst)
    requires Available(s, k, t) + Gain(end - t, s.qps) <= budget
    ensures var (next, ok) := Allowed(s, key, now);
            && Sound(next, now) && next.qps == s.qps && next.burst == s.burst
            && Available(next, k, now) + Gain(end - now, next.qps) <=
               budget - (if key == Some(k) && ok then 1.0 else 0.0)
  {
    hide Gain, Available, Allowed;
    AvailableGrows(s, k, t, now);
    QueryCost(s, k, key, now);
    GainAdds(now - t, end - now, s.qps);
    assert (now - t) + (end - now) == end - t;
  }

  lemma {:induction false} WindowBudget(s: State, t: real, events: seq<Event>, k: Key, end: real, budget: real)
    requires Sound(s, t) && RefillsWhenIdle(s.qps, s.burst)
    requires Monotone(events, t) && QueriesOnly(events)
    requires end == EndTime(events, t)
    requires Available(s, k, t) + Gain(end - t, s.qps) <= budget
    ensures Admitted(s, events, k) as real <= budget
    decreases |events|
  {
    hide Gain, Available, Allowed;
    if events == [] {
      RefilledAvailable(s, k, t);
      GainNothing(s.qps);
    } else {
      var e := events[0];
      assert e in events;
      var (next, ok) := Allowed(s, e.key, e.now);
      BudgetStep(s, t, k, e.key, e.now, end, budget);
      assert QueriesOnly(events[1..]);
      WindowBudget(next, e.now, events[1..], k, end, budget - (if e.key == Some(k) && ok then 1.0 else 0.0));
      AdmittedStep(s, events, k);
    }
  }

  lemma AdmittedStep(s: State, events: seq<Event>, k: Key)
    requires events != [] && events[0].Query?
    ensures var (next, ok) := Allowed(s, events[0].key, events[0].now);
            Admitted(s, events, k) ==
            Admitted(next, events[1..], k) + (if events[0].key == Some(k) && ok then 1 else 0)
  {
  }

  lemma RefilledAvailable(s: State, k: Key, t: real)
    requires Sound(s, t)
    ensures 0.0 <= Available(s, k, t) <= s.burst as real
  {
    if k in s.buckets { RefilledBounds(s.buckets[k], t, s.qps, s.burst); }
  }

  /**
   * In any window a key is admitted at most its burst plus its rate times the window's
   * length, from any reachable state and whatever other keys do.
   */
  lemma WindowBound(s: State, t: real, events: seq<Event>, k: Key)
    requires Sound(s, t) && RefillsWhenIdle(s.qps, s.burst)
    requires Monotone(events, t) && QueriesOnly(events)
    ensures Admitted(s, events, k) as real <= s.burst as real + Gain(EndTime(events, t) - t, s.qps)
  {
    hide Gain, Available, Allowed;
    RefilledAvailable(s, k, t);
    var end := EndTime(events, t);
    WindowBudget(s, t, events, k, end, s.burst as real + Gain(end - t, s.qps));
  }

  // ----- well-behaved clients -----

  /** Queries of `k` come at least one refill period apart; `prev` is the time of the one before. */
  predicate Spaced(events: seq<Event>, k: Key, qps: int, prev: Option<real>)
    requires qps >= 1
    decreases |events|
  {
    events == [] ||
    (if events[0].Query? && events[0].key == Some(k) then
       && (prev.Some? ==> events[0].now - prev.value >= 1.0 / qps as real)
       && Spaced(events[1..], k, qps, Some(events[0].now))
     else Spaced(events[1..], k, qps, prev))
  }

  predicate AllAdmitted(s: State, events: seq<Event>, k: Key)
    decreases |events|
  {
    events == [] ||
    (var (next, ok) := Step(s, events[0], true);
     (events[0].Query? && events[0].key == Some(k) ==> ok) && AllAdmitted(next, events[1..], k))
  }

  /** One query of a spaced key passes, and any query keeps the key's bucket as `prev` says. */
  lemma SpacedStep(s: State, k: Key, key: Option<Key>, now: real, prev: Option<real>)
    requires s.qps >= 1 && s.burst >= 1
    requires key == Some(k) && prev.Some? ==> now - prev.value >= 1.0 / s.qps as real
    requires k in s.buckets ==> prev == Some(s.buckets[k].ts) && s.buckets[k].tokens >= 0.0
    ensures var (next, ok) := Allowed(s, key, now);
            var last := if key == Some(k) then Some(now) else prev;
            && next.qps == s.qps && next.burst == s.burst
            && (key == Some(k) ==> ok)
            && (k in next.buckets ==> last == Some(next.buckets[k].ts) && next.buckets[k].tokens >= 0.0)
  {
    hide Refilled;
    if key == Some(k) {
      NoTimeNoRefill(Bucket(s.burst as real, now), s.qps, s.burst);
      if k in s.buckets {
        PeriodRefillsOne(s.buckets[k], now, s.qps, s.burst);
      }
    }
  }

  /** A key whose queries are at least one refill period apart is never refused, with any burst. */
  lemma {:induction false} SpacedNeverRefused(s: State, events: seq<Event>, k: Key, prev: Option<real>)
    requires s.qps >= 1 && s.burst >= 1
    requires QueriesOnly(events) && Spaced(events, k, s.qps, prev)
    requires k in s.buckets ==> prev == Some(s.buckets[k].ts) && s.buckets[k].tokens >= 0.0
    ensures AllAdmitted(s, events, k)
    decreases |events|
  {
    hide Allowed;
    if events != [] {
      var e := events[0];
      assert e in events;
      SpacedStep(s, k, e.key, e.now, prev);
      var next := Step(s, e, true).0;
      SpacedNeverRefused(next, events[1..], k, if e.key == Some(k) then Some(e.now) else prev);
    }
  }

  // ----- the condition on the settings is exact -----

  function Repeat(e: Event, n: nat): (es: seq<Event>)
    ensures |es| == n
    ensures forall i :: 0 <= i < n ==> es[i] == e
  {
    seq(n, _ => e)
  }

  /** `n` queries at once against a bucket with `x` tokens: the first `x` pass. */
  lemma {:induction false} VolleyDecisions(s: State, k: Key, now: real, n: nat, forgetful: bool)
    requires s.qps >= 1 && k in s.buckets && s.buckets[k].ts == now
    requires now - s.last <= GC_INTERVAL || !forgetful
    requires s.buckets[k].tokens <= s.burst as real
    ensures var ds := Decisions(s, Repeat(Query(Some(k), now), n), forgetful);
            forall i :: 0 <= i < n ==> (ds[i] <==> s.buckets[k].tokens >= (i + 1) as real)
    decreases n
  {
    hide Refilled;
    if n > 0 {
      var e := Query(Some(k), now);
      var es := Repeat(e, n);
      assert es[1..] == Repeat(e, n - 1);
      var next := Step(s, e, forgetful).0;
      NoTimeNoRefill(s.buckets[k], s.qps, s.burst);
      VolleyDecisions(next, k, now, n - 1, forgetful);
      var ds, rest := Decisions(s, es, forgetful), Decisions(next, es[1..], forgetful);
      forall i | 0 <= i < n ensures ds[i] <==> s.buckets[k].tokens >= (i + 1) as real {
        if i > 0 {
          assert ds[i] == rest[i - 1];
          assert rest == Decisions(next, Repeat(e, n - 1), forgetful);
          assert rest[i - 1] <==> next.buckets[k].tokens >= (i - 1 + 1) as real;
        }
      }
    }
  }

  /** A fresh limiter. */
  function Fresh(qps: int, burst: int): State {
    State(qps, burst, map[], 0.0)
  }

  /** A limiter whose one bucket was emptied at time 0. */
  function Drained(qps: int, burst: int, k: Key): State {
    State(qps, burst, map[k := Bucket(0.0, 0.0)], 0.0)
  }

  /** A whole burst at time 0 empties the bucket, with or without collection. */
  lemma {:induction false} DrainAtZero(s: State, k: Key, n: nat, forgetful: bool)
    requires s.qps >= 1 && s.last == 0.0 && n <= s.burst
    requires s.buckets == map[k := Bucket(n as real, 0.0)]
    ensures Final(s, Repeat(Query(Some(k), 0.0), n), forgetful) == s.(buckets := map[k := Bucket(0.0, 0.0)])
    decreases n
  {
    hide Refilled;
    if n > 0 {
      var e := Query(Some(k), 0.0);
      assert Repeat(e, n)[1..] == Repeat(e, n - 1);
      NoTimeNoRefill(Bucket(n as real, 0.0), s.qps, s.burst);
      var next := Step(s, e, forgetful).0;
      assert next.buckets == map[k := Bucket((n - 1) as real, 0.0)];
      DrainAtZero(next, k, n - 1, forgetful);
    }
  }

  lemma FreshLikeFull(qps: int, burst: int, k: Key, forgetful: bool)
    requires qps >= 1 && burst >= 1
    ensures Final(Fresh(qps, burst), Repeat(Query(Some(k), 0.0), burst), forgetful) == Drained(qps, burst, k)
  {
    hide Refilled;
    NoTimeNoRefill(Bucket(burst as real, 0.0), qps, burst);
    var e := Query(Some(k), 0.0);
    var full := State(qps, burst, map[k := Bucket(burst as real, 0.0)], 0.0);
    var es := Repeat(e, burst);
    assert Step(Fresh(qps, burst), e, forgetful).0 == Step(full, e, forgetful).0;
    assert Final(Fresh(qps, burst), es, forgetful) == Final(full, es, forgetful);
    DrainAtZero(full, k, burst, forgetful);
  }

  lemma {:induction false} RunsCompose(s: State, a: seq<Event>, b: seq<Event>, forgetful: bool)
    ensures Decisions(s, a + b, forgetful) == Decisions(s, a, forgetful) + Decisions(Final(s, a, forgetful), b, forgetful)
    decreases |a|
  {
    if a == [] {
      assert a + b == b;
    } else {
      assert (a + b)[0] == a[0] && (a + b)[1..] == a[1..] + b;
      RunsCompose(Step(s, a[0], forgetful).0, a[1..], b, forgetful);
    }
  }

  /** The first query after the pause: the forgetful limiter starts a full bucket, the other one does not. */
  lemma AfterThePause(qps: int, burst: int, k: Key, t: real)
    requires qps >= 1 && burst >= 1 && t > IDLE_LIMIT && Gain(t, qps) < burst as real
    ensures var es := Repeat(Query(Some(k), t), burst);
            Decisions(Drained(qps, burst, k), es, true) != Decisions(Drained(qps, burst, k), es, false)
  {
    var e := Query(Some(k), t);
    var es := Repeat(e, burst);
    var d := Drained(qps, burst, k);
    var full := State(qps, burst, map[k := Bucket(burst as real, t)], t);
    var part := State(qps, burst, map[k := Bucket(Gain(t, qps), t)], 0.0);
    assert Collect(d.buckets, t) == map[];
    NoTimeNoRefill(Bucket(burst as real, t), qps, burst);
    NoTimeNoRefill(Bucket(Gain(t, qps), t), qps, burst);
    assert Step(d, e, true).0.buckets == Step(full, e, true).0.buckets;
    assert Step(d, e, false).0.buckets == Step(part, e, false).0.buckets;
    assert Step(d, e, true) == Step(full, e, true);
    assert Step(d, e, false) == Step(part, e, false);
    assert Decisions(d, es, true) == Decisions(full, es, true);
    assert Decisions(d, es, false) == Decisions(part, es, false);
    VolleyDecisions(full, k, t, burst, true);
    VolleyDecisions(part, k, t, burst, false);
    assert Decisions(full, es, true)[burst - 1];
    assert !Decisions(part, es, false)[burst - 1];
  }

  /** Some run of queries on which the two limiters answer differently. */
  ghost predicate Distinguishable(qps: int, burst: int) {
    exists events :: Monotone(events, 0.0) && QueriesOnly(events)
      && Decisions(Fresh(qps, burst), events, true) != Decisions(Fresh(qps, burst), events, false)
  }

  lemma {:induction false} RepeatMonotone(e: Event, n: nat, from: real)
    requires e.Query? && from <= e.now
    ensures Monotone(Repeat(e, n), from)
    decreases n
  {
    if n > 0 {
      assert Repeat(e, n)[1..] == Repeat(e, n - 1);
      RepeatMonotone(e, n - 1, e.now);
    }
  }

  lemma {:induction false} MonotoneConcat(a: seq<Event>, b: seq<Event>, from: real, mid: real)
    requires Monotone(a, from) && Monotone(b, mid)
    requires from <= mid && forall e :: e in a && e.Query? ==> e.now <= mid
    ensures Monotone(a + b, from)
    decreases |a|
  {
    if a == [] {
      assert a + b == b;
      MonotoneEarlier(b, mid, from);
    } else {
      assert (a + b)[0] == a[0] && (a + b)[1..] == a[1..] + b;
      assert a[0] in a;
      MonotoneConcat(a[1..], b, if a[0].Query? then a[0].now else from, mid);
    }
  }

  lemma {:induction false} MonotoneEarlier(events: seq<Event>, from: real, earlier: real)
    requires Monotone(events, from) && earlier <= from
    ensures Monotone(events, earlier)
    decreases |events|
  {
    if events != [] && events[0].Reconfigure? {
      MonotoneEarlier(events[1..], from, earlier);
    }
  }

  /** A pause just over the idle limit that does not earn a whole burst. */
  lemma PauseTooShort(qps: int, burst: int) returns (t: real)
    requires qps >= 1 && !RefillsWhenIdle(qps, burst)
    ensures t > IDLE_LIMIT && Gain(t, qps) < burst as real
  {
    var q := qps as real;
    var least := 300 * qps + 1;
    assert least as real == 300.0 * q + 1.0;
    assert burst as real >= least as real;
    InverseTimes(q);
    t := 300.0 + 0.5 * (1.0 / q);
    assert t * q == 300.0 * q + 0.5 * (1.0 / q * q);
    assert 1.0 / q > 0.0;
  }

  /**
   * The condition on the settings is exactly right: for a fresh limiter with fixed
   * settings, forgetting idle buckets can be noticed if and only if a burst does not
   * refill within five minutes.
   */
  lemma ForgettingVisibleIff(qps: int, burst: int)
    requires qps >= 1 && burst >= 1
    ensures Distinguishable(qps, burst) <==> !RefillsWhenIdle(qps, burst)
  {
    var s := Fresh(qps, burst);
    if RefillsWhenIdle(qps, burst) {
      forall events | Monotone(events, 0.0) && QueriesOnly(events)
        ensures Decisions(s, events, true) == Decisions(s, events, false)
      {
        ForgettingIsInvisible(s, s, 0.0, events);
      }
    } else {
      var t := PauseTooShort(qps, burst);
      var first, second := Repeat(Query(Some("k"), 0.0), burst), Repeat(Query(Some("k"), t), burst);
      FreshLikeFull(qps, burst, "k", true);
      FreshLikeFull(qps, burst, "k", false);
      AfterThePause(qps, burst, "k", t);
      RunsCompose(s, first, second, true);
      RunsCompose(s, first, second, false);
      var d1, d2 := Decisions(s, first + second, true), Decisions(s, first + second, false);
      assert d1[burst..] != d2[burst..];
      RepeatMonotone(Query(Some("k"), 0.0), burst, 0.0);
      RepeatMonotone(Query(Some("k"), t), burst, t);
      MonotoneConcat(first, second, 0.0, t);
    }
  }

  // ----- the same condition decides the window bound -----

  /** A volley at one moment is admitted as long as tokens last. */
  lemma {:induction false} VolleyAdmitted(s: State, k: Key, now: real, n: nat)
    requires k in s.buckets && s.buckets[k].ts == now && n <= s.burst
    requires n as real <= s.buckets[k].tokens <= s.burst as real
    ensures Admitted(s, Repeat(Query(Some(k), now), n), k) == n
    decreases n
  {
    hide Refilled;
    if n > 0 {
      var e := Query(Some(k), now);
      assert Repeat(e, n)[1..] == Repeat(e, n - 1);
      NoTimeNoRefill(s.buckets[k], s.qps, s.burst);
      var (next, ok) := Allowed(s, Some(k), now);
      assert ok && next.buckets[k] == Bucket(s.buckets[k].tokens - 1.0, now);
      VolleyAdmitted(next, k, now, n - 1);
    }
  }

  lemma {:induction false} AdmittedConcat(s: State, a: seq<Event>, b: seq<Event>, k: Key)
    ensures Admitted(s, a + b, k) == Admitted(s, a, k) + Admitted(Final(s, a, true), b, k)
    decreases |a|
  {
    if a == [] {
      assert a + b == b;
    } else {
      assert (a + b)[0] == a[0] && (a + b)[1..] == a[1..] + b;
      AdmittedConcat(Step(s, a[0], true).0, a[1..], b, k);
    }
  }

  lemma {:induction false} EndTimeOfRepeat(a: seq<Event>, k: Key, t: real, n: nat, from: real)
    requires n >= 1
    ensures EndTime(a + Repeat(Query(Some(k), t), n), from) == t
    decreases |a|, n
  {
    var e := Query(Some(k), t);
    if a != [] {
      assert (a + Repeat(e, n))[1..] == a[1..] + Repeat(e, n);
      EndTimeOfRepeat(a[1..], k, t, n, if a[0].Query? then a[0].now else from);
    } else {
      assert a + Repeat(e, n) == Repeat(e, n) && Repeat(e, n)[1..] == [] + Repeat(e, n - 1);
      if n > 1 { EndTimeOfRepeat([], k, t, n - 1, t); }
    }
  }

  /** A whole burst at once, both from a fresh start and from a bucket forgotten over the pause. */
  lemma TwoBursts(qps: int, burst: int, k: Key, t: real)
    requires qps >= 1 && burst >= 1 && t > IDLE_LIMIT
    ensures Admitted(Fresh(qps, burst), Repeat(Query(Some(k), 0.0), burst), k) == burst
    ensures Admitted(Drained(qps, burst, k), Repeat(Query(Some(k), t), burst), k) == burst
  {
    hide Refilled;
    var d := Drained(qps, burst, k);
    var full := State(qps, burst, map[k := Bucket(burst as real, t)], t);
    var atZero := State(qps, burst, map[k := Bucket(burst as real, 0.0)], 0.0);
    var e, e0 := Query(Some(k), t), Query(Some(k), 0.0);
    assert Collect(d.buckets, t) == map[];
    NoTimeNoRefill(Bucket(burst as real, t), qps, burst);
    NoTimeNoRefill(Bucket(burst as real, 0.0), qps, burst);
    assert Step(d, e, true).0.buckets == Step(full, e, true).0.buckets;
    assert Step(d, e, true) == Step(full, e, true);
    assert Step(Fresh(qps, burst), e0, true).0.buckets == Step(atZero, e0, true).0.buckets;
    assert Step(Fresh(qps, burst), e0, true) == Step(atZero, e0, true);
    VolleyAdmitted(full, k, t, burst);
    VolleyAdmitted(atZero, k, 0.0, burst);
  }

  /** In every run of queries from a fresh limiter, every key keeps to its burst plus its rate. */
  ghost predicate KeepsToBudget(qps: int, burst: int) {
    forall events, k :: Monotone(events, 0.0) && QueriesOnly(events) ==>
      Admitted(Fresh(qps, burst), events, k) as real <= burst as real + Gain(EndTime(events, 0.0), qps)
  }

  /** The window bound holds for exactly the settings whose burst refills within the idle limit. */
  lemma WindowBoundIff(qps: int, burst: int)
    requires qps >= 1 && burst >= 1
    ensures KeepsToBudget(qps, burst) <==> RefillsWhenIdle(qps, burst)
  {
    var s := Fresh(qps, burst);
    if RefillsWhenIdle(qps, burst) {
      forall events, k | Monotone(events, 0.0) && QueriesOnly(events)
        ensures Admitted(s, events, k) as real <= burst as real + Gain(EndTime(events, 0.0), qps)
      {
        WindowBound(s, 0.0, events, k);
      }
    } else {
      var t := PauseTooShort(qps, burst);
      var k := "k";
      var first, second := Repeat(Query(Some(k), 0.0), burst), Repeat(Query(Some(k), t), burst);
      var events := first + second;
      FreshLikeFull(qps, burst, k, true);
      TwoBursts(qps, burst, k, t);
      AdmittedConcat(s, first, second, k);
      EndTimeOfRepeat(first, k, t, burst, 0.0);
      RepeatMonotone(Query(Some(k), 0.0), burst, 0.0);
      RepeatMonotone(Query(Some(k), t), burst, t);
      MonotoneConcat(first, second, 0.0, t);
      hide Admitted, Gain, Monotone, EndTime, Repeat;
      assert QueriesOnly(events);
      assert Admitted(s, events, k) as real == burst as real + burst as real;
    }
  }
}
