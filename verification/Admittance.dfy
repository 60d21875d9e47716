/** Exactly which queries the token bucket admits, without mentioning a bucket. */
module Admittance {
  import opened Collections
  import opened Limiter

  /** A limiter that has just been set up. */
  function Started(qps: int, burst: int, from: real): State {
    State(qps, burst, map[], from)
  }

  predicate Asks(e: Event, k: Key) {
    e.Query? && e.key == Some(k)
  }

  /** Queries of `k` admitted at positions from `j` to before `i`. */
  function Served(events: seq<Event>, ds: seq<bool>, k: Key, j: nat, i: nat): nat
    requires |ds| == |events| && i <= |events|
  {
    if i <= j then 0 else Served(events, ds, k, j, i - 1) + (if Asks(events[i - 1], k) && ds[i - 1] then 1 else 0)
  }

  /** From query `j` to query `i` there is still room: burst and rate allow one more than was admitted since. */
  ghost predicate Room(qps: int, burst: int, events: seq<Event>, ds: seq<bool>, k: Key, j: nat, i: nat)
    requires |ds| == |events| && j <= i < |events| && events[i].Query? && events[j].Query?
  {
    Served(events, ds, k, j, i) as real + 1.0 <= burst as real + (events[i].now - events[j].now) * qps as real
  }

  // ----- runs by their prefixes -----

  lemma {:induction false} DecisionAt(s: State, events: seq<Event>, i: nat, forgetful: bool)
    requires i < |events|
    ensures var before := Final(s, events[..i], forgetful);
            && Decisions(s, events, forgetful)[i] == Step(before, events[i], forgetful).1
            && Final(s, events[..i + 1], forgetful) == Step(before, events[i], forgetful).0
    decreases |events|
  {
    if i > 0 {
      DecisionAt(Step(s, events[0], forgetful).0, events[1..], i - 1, forgetful);
      assert events[..i][1..] == events[1..][..i - 1];
      assert events[..i + 1][1..] == events[1..][..i];
    } else {
      assert events[..1][1..] == [];
    }
  }

  lemma {:induction false} MonotoneAt(events: seq<Event>, from: real, j: nat, i: nat)
    requires Monotone(events, from) && QueriesOnly(events) && j <= i < |events|
    ensures from <= events[j].now <= events[i].now
    decreases |events|
  {
    assert events[0] in events;
    assert forall e :: e in events[1..] ==> e in events;
    if i > 0 {
      if j > 0 { MonotoneAt(events[1..], events[0].now, j - 1, i - 1); }
      else { MonotoneAt(events[1..], events[0].now, i - 1, i - 1); }
    }
  }

  // ----- the level of a bucket -----

  /** What query `j` leaves of the budget of `k` at time `t`, before event `i`. */
  ghost function LeftSince(qps: int, burst: int, events: seq<Event>, ds: seq<bool>, k: Key, j: nat, i: nat, t: real): real
    requires |ds| == |events| && j < |events| && i <= |events| && events[j].Query?
  {
    burst as real + Gain(t - events[j].now, qps) - Served(events, ds, k, j, i) as real
  }

  /** Before event `i` the bucket of `k` holds the least any query of `k` leaves; there is none before the first. */
  ghost predicate LevelAt(qps: int, burst: int, events: seq<Event>, ds: seq<bool>, k: Key, i: nat, s: State)
    requires |ds| == |events| && i <= |events| && QueriesOnly(events)
  {
    && s.qps == qps && s.burst == burst
    && (forall j :: 0 <= j < i && Asks(events[j], k) ==>
          k in s.buckets && s.buckets[k].tokens <= LeftSince(qps, burst, events, ds, k, j, i, s.buckets[k].ts))
    && (k in s.buckets ==>
          exists j :: 0 <= j < i && Asks(events[j], k)
                      && s.buckets[k].tokens == LeftSince(qps, burst, events, ds, k, j, i, s.buckets[k].ts))
  }

  lemma ServedStep(events: seq<Event>, ds: seq<bool>, k: Key, j: nat, i: nat)
    requires |ds| == |events| && j <= i < |events|
    ensures Served(events, ds, k, j, i + 1) == Served(events, ds, k, j, i) + (if Asks(events[i], k) && ds[i] then 1 else 0)
  {
  }

  /** A query of another key leaves the level alone. */
  lemma OtherKeeps(qps: int, burst: int, events: seq<Event>, ds: seq<bool>, k: Key, i: nat, s: State)
    requires |ds| == |events| && i < |events| && QueriesOnly(events) && !Asks(events[i], k) && events[i].Query?
    requires LevelAt(qps, burst, events, ds, k, i, s)
    ensures LevelAt(qps, burst, events, ds, k, i + 1, Remembered(s, events[i].key, events[i].now).0)
  {
    var next := Remembered(s, events[i].key, events[i].now).0;
    assert k in next.buckets <==> k in s.buckets;
    assert k in s.buckets ==> next.buckets[k] == s.buckets[k];
    forall j: nat | j < i && Asks(events[j], k) && k in s.buckets
      ensures LeftSince(qps, burst, events, ds, k, j, i + 1, s.buckets[k].ts) ==
              LeftSince(qps, burst, events, ds, k, j, i, s.buckets[k].ts) {
      ServedStep(events, ds, k, j, i);
    }
    hide LeftSince, Remembered;
  }

  /** What the bucket holds when the next query of `k` comes, from what each earlier one leaves. */
  lemma LevelThen(qps: int, burst: int, events: seq<Event>, ds: seq<bool>, k: Key, i: nat, s: State) returns (t: real, least: nat)
    requires |ds| == |events| && i < |events| && QueriesOnly(events) && Asks(events[i], k) && burst >= 1
    requires LevelAt(qps, burst, events, ds, k, i, s)
    ensures var now := events[i].now;
            && Refilled(if k in s.buckets then s.buckets[k] else Bucket(burst as real, now), now, qps, burst) == t
            && (forall j :: 0 <= j <= i && Asks(events[j], k) ==> t <= LeftSince(qps, burst, events, ds, k, j, i, now))
            && least <= i && Asks(events[least], k) && t == LeftSince(qps, burst, events, ds, k, least, i, now)
  {
    var now := events[i].now;
    GainNothing(qps);
    least := i;
    if k in s.buckets {
      var b := s.buckets[k];
      t := Refilled(b, now, qps, burst);
      hide Gain;
      forall j: nat | j < i && Asks(events[j], k)
        ensures LeftSince(qps, burst, events, ds, k, j, i, now) ==
                LeftSince(qps, burst, events, ds, k, j, i, b.ts) + Gain(now - b.ts, qps) {
        GainAdds(b.ts - events[j].now, now - b.ts, qps);
        assert (b.ts - events[j].now) + (now - b.ts) == now - events[j].now;
      }
      var low :| 0 <= low < i && Asks(events[low], k) && b.tokens == LeftSince(qps, burst, events, ds, k, low, i, b.ts);
      if t < burst as real { least := low; }
    } else {
      NoTimeNoRefill(Bucket(burst as real, now), qps, burst);
      t := burst as real;
    }
  }

  /** A query of the key is decided by, and updates, the level. */
  lemma OwnStep(qps: int, burst: int, events: seq<Event>, ds: seq<bool>, k: Key, i: nat, s: State)
    requires |ds| == |events| && i < |events| && QueriesOnly(events) && Asks(events[i], k) && burst >= 1
    requires LevelAt(qps, burst, events, ds, k, i, s)
    requires ds[i] == Remembered(s, Some(k), events[i].now).1
    ensures LevelAt(qps, burst, events, ds, k, i + 1, Remembered(s, Some(k), events[i].now).0)
    ensures ds[i] <==> forall j :: 0 <= j <= i && Asks(events[j], k) ==> Room(qps, burst, events, ds, k, j, i)
  {
    var now := events[i].now;
    var t, least := LevelThen(qps, burst, events, ds, k, i, s);
    var next := Remembered(s, Some(k), now).0;
    assert next == s.(buckets := s.buckets[k := Bucket(if ds[i] then t - 1.0 else t, now)]) by { hide Refilled; }
    forall j: nat | j <= i && Asks(events[j], k)
      ensures Room(qps, burst, events, ds, k, j, i) <==> 1.0 <= LeftSince(qps, burst, events, ds, k, j, i, now)
      ensures LeftSince(qps, burst, events, ds, k, j, i + 1, now) ==
              LeftSince(qps, burst, events, ds, k, j, i, now) - (if ds[i] then 1.0 else 0.0) {
      ServedStep(events, ds, k, j, i);
    }
    assert ds[i] <==> t >= 1.0 by { hide Refilled; }
    hide LeftSince, Room, Remembered, Refilled;
    assert next.buckets[k].tokens == LeftSince(qps, burst, events, ds, k, least, i + 1, now);
  }

  lemma {:induction false} LevelBefore(qps: int, burst: int, from: real, events: seq<Event>, k: Key, i: nat)
    requires burst >= 1 && QueriesOnly(events) && i <= |events|
    ensures LevelAt(qps, burst, events, Decisions(Started(qps, burst, from), events, false), k, i,
                    Final(Started(qps, burst, from), events[..i], false))
  {
    var s := Started(qps, burst, from);
    var ds := Decisions(s, events, false);
    if i > 0 {
      var m := i - 1;
      LevelBefore(qps, burst, from, events, k, m);
      DecisionAt(s, events, m, false);
      assert events[m] in events && events[m].Query?;
      var before := Final(s, events[..m], false);
      assert Step(before, events[m], false) == Remembered(before, events[m].key, events[m].now);
      hide Final, Decisions, LevelAt, Remembered, Step;
      if Asks(events[m], k) { OwnStep(qps, burst, events, ds, k, m, before); }
      else { OtherKeeps(qps, burst, events, ds, k, m, before); }
    }
  }

  /**
   * Which queries are admitted, for settings that refill a burst within five minutes: those
   * with a valid address for which, from every earlier query of the same key on, fewer were
   * admitted than the burst and the rate over the time since allow. Nothing else counts, so a
   * refused query costs nothing.
   */
  lemma AdmittedIff(qps: int, burst: int, from: real, events: seq<Event>, i: nat)
    requires qps >= 1 && burst >= 1 && burst <= 300 * qps
    requires Monotone(events, from) && QueriesOnly(events) && i < |events|
    ensures var ds := Decisions(Started(qps, burst, from), events, true);
            forall j :: 0 <= j < |events| ==> events[j].Query?
    ensures var ds := Decisions(Started(qps, burst, from), events, true);
            ds[i] <==> events[i].key.Some? && forall j :: 0 <= j <= i && events[j].key == events[i].key ==>
                         Room(qps, burst, events, ds, events[i].key.value, j, i)
  {
    var s := Started(qps, burst, from);
    ForgettingIsInvisible(s, s, from, events);
    var ds := Decisions(s, events, false);
    forall j | 0 <= j < |events| ensures events[j].Query? { assert events[j] in events; }
    DecisionAt(s, events, i, false);
    if events[i].key.Some? {
      var k := events[i].key.value;
      LevelBefore(qps, burst, from, events, k, i);
      OwnStep(qps, burst, events, ds, k, i, Final(s, events[..i], false));
    }
    hide Room, Final, LevelAt;
  }

  // ----- refusals are free -----

  /** The same limiter, but for buckets touched at another time without effect. */
  ghost predicate Alike(a: State, b: State) {
    && a.qps == b.qps && a.burst == b.burst && a.buckets.Keys == b.buckets.Keys
    && forall k :: k in a.buckets ==>
         a.buckets[k].tokens == b.buckets[k].tokens + Gain(a.buckets[k].ts - b.buckets[k].ts, a.qps)
  }

  lemma AlikeStep(a: State, b: State, key: Option<Key>, now: real)
    requires Alike(a, b)
    ensures Remembered(a, key, now).1 == Remembered(b, key, now).1
    ensures Alike(Remembered(a, key, now).0, Remembered(b, key, now).0)
  {
    hide Gain;
    GainNothing(a.qps);
    if key.Some? && key.value in a.buckets {
      var x, y := a.buckets[key.value], b.buckets[key.value];
      GainAdds(now - x.ts, x.ts - y.ts, a.qps);
      assert (now - x.ts) + (x.ts - y.ts) == now - y.ts;
    }
  }

  lemma {:induction false} AlikeRuns(a: State, b: State, events: seq<Event>)
    requires Alike(a, b) && QueriesOnly(events)
    ensures Decisions(a, events, false) == Decisions(b, events, false)
    decreases |events|
  {
    if events != [] {
      var e := events[0];
      assert e in events;
      AlikeStep(a, b, e.key, e.now);
      hide Alike, Remembered;
      AlikeRuns(Step(a, e, false).0, Step(b, e, false).0, events[1..]);
    }
  }

  lemma RefusalAlike(s: State, key: Option<Key>, now: real)
    requires s.burst >= 1 && !Remembered(s, key, now).1
    ensures Alike(Remembered(s, key, now).0, s)
  {
    GainNothing(s.qps);
    hide Gain;
    if key.Some? { NoTimeNoRefill(Bucket(s.burst as real, now), s.qps, s.burst); }
  }

  lemma {:induction false} SettingsStay(s: State, events: seq<Event>)
    requires QueriesOnly(events)
    ensures Final(s, events, false).qps == s.qps && Final(s, events, false).burst == s.burst
    decreases |events|
  {
    if events != [] {
      assert events[0] in events;
      SettingsStay(Step(s, events[0], false).0, events[1..]);
    }
  }

  lemma {:induction false} MonotoneWithout(a: seq<Event>, e: Event, b: seq<Event>, from: real)
    requires QueriesOnly(a + [e] + b) && Monotone(a + [e] + b, from)
    ensures QueriesOnly(a + b) && Monotone(a + b, from)
    decreases |a|
  {
    forall x | x in a + b ensures x.Query? { assert x in a + [e] + b; }
    assert e in a + [e] + b;
    if a == [] {
      assert ([] + [e] + b)[1..] == b && a + b == b;
      MonotoneEarlier(b, e.now, from);
    } else {
      assert a[0] in a + [e] + b;
      assert (a + [e] + b)[1..] == a[1..] + [e] + b && (a + b)[1..] == a[1..] + b;
      assert forall x :: x in a[1..] + [e] + b ==> x in a + [e] + b;
      MonotoneWithout(a[1..], e, b, a[0].now);
    }
  }

  /** Taking a refused query out of a run changes no other answer. */
  lemma RefusalsAreFree(qps: int, burst: int, from: real, a: seq<Event>, e: Event, b: seq<Event>)
    requires qps >= 1 && burst >= 1 && burst <= 300 * qps
    requires QueriesOnly(a + [e] + b) && Monotone(a + [e] + b, from)
    requires !Decisions(Started(qps, burst, from), a + [e] + b, true)[|a|]
    ensures var s := Started(qps, burst, from);
            var with, without := Decisions(s, a + [e] + b, true), Decisions(s, a + b, true);
            with == without[..|a|] + [false] + without[|a|..]
  {
    var s := Started(qps, burst, from);
    MonotoneWithout(a, e, b, from);
    ForgettingIsInvisible(s, s, from, a + [e] + b);
    ForgettingIsInvisible(s, s, from, a + b);
    assert e in a + [e] + b && QueriesOnly(a) && QueriesOnly(b) by {
      forall x | x in a ensures x.Query? { assert x in a + [e] + b; }
      forall x | x in b ensures x.Query? { assert x in a + [e] + b; }
    }
    var mid := Final(s, a, false);
    RunsCompose(s, a, [e] + b, false);
    RunsCompose(s, a, b, false);
    assert a + ([e] + b) == a + [e] + b;
    assert ([e] + b)[1..] == b;
    var next := Remembered(mid, e.key, e.now);
    assert Decisions(mid, [e] + b, false) == [next.1] + Decisions(next.0, b, false);
    SettingsStay(s, a);
    RefusalAlike(mid, e.key, e.now);
    AlikeRuns(next.0, mid, b);
    hide Decisions, Final, Monotone, Remembered;
  }
}
