/** The log throttle: repeats of a message within a window become one record with a count. */
module Throttle {
  import opened Collections
  import opened RuleList

  const MAX_KEYS := 1024
  const LEVEL_INFO := 0

  datatype Record = Record(time: int, level: int, message: string)

  /** When the message was last emitted, and how often it has been dropped since. */
  datatype Counter = Counter(first: int, dropped: nat)

  datatype Outcome = Passed | Dropped | Emitted(suppressed: nat)

  /** The window, and the logging library's level names. */
  datatype Config = Config(window: int, name: int -> string)

  function Key(c: Config, r: Record): string {
    c.name(r.level) + [NUL] + r.message
  }

  /** Level names that differ and hold no NUL make keys that differ whenever level or message do. */
  lemma KeyInjective(c: Config, r: Record, q: Record)
    requires forall a, b :: c.name(a) == c.name(b) ==> a == b
    requires forall a :: NUL !in c.name(a)
    ensures Key(c, r) == Key(c, q) <==> r.level == q.level && r.message == q.message
  {
    if Key(c, r) == Key(c, q) {
      CutUnique(c.name(r.level), r.message, c.name(q.level), q.message, NUL);
    }
  }

  predicate Throttled(r: Record) {
    r.level >= LEVEL_INFO
  }

  predicate Repeats(c: Config, seen: map<string, Counter>, r: Record) {
    Key(c, r) in seen && r.time - seen[Key(c, r)].first < c.window
  }

  /** An emission that finds the map overfull starts it afresh, forgetting every pending count. */
  predicate Overfull(seen: map<string, Counter>) {
    |seen| > MAX_KEYS
  }

  function OutcomeOf(c: Config, seen: map<string, Counter>, r: Record): Outcome {
    if !Throttled(r) then Passed
    else if Repeats(c, seen, r) then Dropped
    else Emitted(if Key(c, r) in seen then seen[Key(c, r)].dropped else 0)
  }

  function SeenAfter(c: Config, seen: map<string, Counter>, r: Record): map<string, Counter> {
    var key := Key(c, r);
    if !Throttled(r) then seen
    else if Repeats(c, seen, r) then seen[key := seen[key].(dropped := seen[key].dropped + 1)]
    else (if Overfull(seen) then map[] else seen)[key := Counter(r.time, 0)]
  }

  class Throttle {
    const config: Config
    var seen: map<string, Counter>

    constructor (config: Config)
      ensures this.config == config && seen == map[]
    {
      this.config := config;
      seen := map[];
    }

    method Handle(r: Record) returns (out: Outcome)
      modifies this`seen
      ensures out == OutcomeOf(config, old(seen), r)
      ensures seen == SeenAfter(config, old(seen), r)
    {
      if r.level < LEVEL_INFO { return Passed; }
      var key := config.name(r.level) + [NUL] + r.message;
      var known := key in seen;
      if known && r.time - seen[key].first < config.window {
        seen := seen[key := Counter(seen[key].first, seen[key].dropped + 1)];
        return Dropped;
      }
      var dropped := 0;
      if known { dropped := seen[key].dropped; }
      if |seen| > MAX_KEYS { seen := map[]; }
      seen := seen[key := Counter(r.time, 0)];
      return Emitted(dropped);
    }
  }

  // ----- whole runs -----

  datatype Emission = Emission(key: string, time: int, suppressed: nat)

  /** The map, what was emitted, the drops forgotten so far by key, and how often the map started afresh. */
  datatype Log = Log(seen: map<string, Counter>, emitted: seq<Emission>, lost: string -> nat, resets: nat)

  function Pending(seen: map<string, Counter>, key: string): nat {
    if key in seen then seen[key].dropped else 0
  }

  ghost function After(c: Config, l: Log, r: Record): Log {
    var key := Key(c, r);
    var out := OutcomeOf(c, l.seen, r);
    var forgets := out.Emitted? && Overfull(l.seen);
    Log(SeenAfter(c, l.seen, r),
        if out.Emitted? then l.emitted + [Emission(key, r.time, out.suppressed)] else l.emitted,
        if forgets then k => l.lost(k) + (if k == key then 0 else Pending(l.seen, k)) else l.lost,
        if forgets then l.resets + 1 else l.resets)
  }

  ghost function RunOf(c: Config, rs: seq<Record>): Log {
    if rs == [] then Log(map[], [], _ => 0, 0) else After(c, RunOf(c, rs[..|rs| - 1]), rs[|rs| - 1])
  }

  /** How many of the throttled records bear the key. */
  function Handled(c: Config, rs: seq<Record>, key: string): nat {
    if rs == [] then 0
    else
      var last := rs[|rs| - 1];
      Handled(c, rs[..|rs| - 1], key) + if Throttled(last) && Key(c, last) == key then 1 else 0
  }

  /** What the emitted records of a key account for: themselves and those they report suppressed. */
  function Reported(emitted: seq<Emission>, key: string): nat {
    if emitted == [] then 0
    else
      var last := emitted[|emitted| - 1];
      Reported(emitted[..|emitted| - 1], key) + if last.key == key then 1 + last.suppressed else 0
  }

  lemma ReportedStep(emitted: seq<Emission>, e: Emission, key: string)
    ensures Reported(emitted + [e], key) == Reported(emitted, key) + if e.key == key then 1 + e.suppressed else 0
  {
    assert (emitted + [e])[..|emitted|] == emitted;
  }

  /** What one key has been accounted for so far. */
  ghost function Accounted(l: Log, key: string): nat {
    Reported(l.emitted, key) + Pending(l.seen, key) + l.lost(key)
  }

  lemma AccountStep(c: Config, l: Log, r: Record, key: string)
    ensures Accounted(After(c, l, r), key) ==
            Accounted(l, key) + if Throttled(r) && Key(c, r) == key then 1 else 0
  {
    var mine, out := Key(c, r), OutcomeOf(c, l.seen, r);
    hide Key;
    if out.Emitted? {
      ReportedStep(l.emitted, Emission(mine, r.time, out.suppressed), key);
      hide Reported;
    } else {
      hide Reported;
    }
  }

  /**
   * For every run and every key: each record handled is emitted, reported as suppressed by an
   * emission, still pending, or was forgotten when the map started afresh.
   */
  lemma {:induction false} Conservation(c: Config, rs: seq<Record>, key: string)
    ensures var l := RunOf(c, rs);
            Handled(c, rs, key) == Reported(l.emitted, key) + Pending(l.seen, key) + l.lost(key)
  {
    if rs != [] {
      Conservation(c, rs[..|rs| - 1], key);
      AccountStep(c, RunOf(c, rs[..|rs| - 1]), rs[|rs| - 1], key);
      hide Key, After, Reported, Pending;
    }
  }

  /** The map never holds more than one key above its limit. */
  lemma {:induction false} MapIsBounded(c: Config, rs: seq<Record>)
    ensures |RunOf(c, rs).seen| <= 1025
  {
    if rs != [] {
      var front, last := rs[..|rs| - 1], rs[|rs| - 1];
      MapIsBounded(c, front);
      AtMostOneMore(c, RunOf(c, front).seen, last);
    }
  }

  lemma AtMostOneMore(c: Config, seen: map<string, Counter>, r: Record)
    ensures Overfull(seen) ==> |SeenAfter(c, seen, r)| <= |seen|
    ensures |SeenAfter(c, seen, r)| <= |seen| + 1
  {
    var key, next := Key(c, r), SeenAfter(c, seen, r);
    if next.Keys == seen.Keys {
      assert |next| == |next.Keys| == |seen.Keys|;
    } else if Overfull(seen) {
      assert next.Keys == {key};
      assert |next| == |next.Keys|;
    } else {
      assert next.Keys == seen.Keys + {key};
      assert |next| == |next.Keys|;
    }
  }

  // ----- few keys -----

  function KeysOf(c: Config, rs: seq<Record>): set<string> {
    set r | r in rs && Throttled(r) :: Key(c, r)
  }

  /** While no more keys come up than fit, nothing is forgotten. */
  lemma {:induction false} FewKeysNoReset(c: Config, rs: seq<Record>)
    requires |KeysOf(c, rs)| <= 1024
    ensures RunOf(c, rs).resets == 0
    ensures RunOf(c, rs).seen.Keys <= KeysOf(c, rs)
    ensures forall k :: RunOf(c, rs).lost(k) == 0
  {
    if rs != [] {
      var front, last := rs[..|rs| - 1], rs[|rs| - 1];
      assert rs == front + [last];
      assert KeysOf(c, front) <= KeysOf(c, rs);
      SubsetSize(KeysOf(c, front), KeysOf(c, rs));
      FewKeysNoReset(c, front);
      var seen := RunOf(c, front).seen;
      SubsetSize(seen.Keys, KeysOf(c, front));
      assert |seen| == |seen.Keys|;
      assert Throttled(last) ==> Key(c, last) in KeysOf(c, rs);
    }
  }

  /** With at most 1024 distinct keys, every record handled is emitted, reported as suppressed, or pending. */
  lemma NothingIsForgotten(c: Config, rs: seq<Record>, key: string)
    requires |KeysOf(c, rs)| <= 1024
    ensures var l := RunOf(c, rs);
            Handled(c, rs, key) == Reported(l.emitted, key) + Pending(l.seen, key)
  {
    FewKeysNoReset(c, rs);
    Conservation(c, rs, key);
  }

  // ----- spacing -----

  /** Emissions of one key are a window apart, and none is later than the map says. */
  ghost predicate Spaced(c: Config, l: Log) {
    && (forall i, j :: 0 <= i < j < |l.emitted| && l.emitted[i].key == l.emitted[j].key ==>
          l.emitted[j].time - l.emitted[i].time >= c.window)
    && (forall i :: 0 <= i < |l.emitted| ==>
          && l.emitted[i].key in l.seen
          && l.emitted[i].time <= l.seen[l.emitted[i].key].first)
  }

  lemma ResetsOnlyGrow(c: Config, rs: seq<Record>)
    requires rs != []
    ensures RunOf(c, rs[..|rs| - 1]).resets <= RunOf(c, rs).resets
  {
  }

  lemma SpacedStep(c: Config, l: Log, r: Record)
    requires c.window >= 0 && Spaced(c, l) && After(c, l, r).resets == l.resets
    ensures Spaced(c, After(c, l, r))
  {
    hide Key;
  }

  /** Until the map starts afresh, two emissions of one key are at least the window apart, whatever order the records' times come in. */
  lemma {:induction false} EmissionsAreSpaced(c: Config, rs: seq<Record>)
    requires c.window >= 0 && RunOf(c, rs).resets == 0
    ensures Spaced(c, RunOf(c, rs))
  {
    if rs != [] {
      ResetsOnlyGrow(c, rs);
      EmissionsAreSpaced(c, rs[..|rs| - 1]);
      SpacedStep(c, RunOf(c, rs[..|rs| - 1]), rs[|rs| - 1]);
    }
  }

  /** An emission is the last word on its key: a repeat right after it is dropped, unless a full map was reset in between. */
  lemma FullMapForgets(c: Config, seen: map<string, Counter>, r: Record, other: Record)
    requires c.window > 0 && Throttled(r) && Throttled(other) && Key(c, r) != Key(c, other)
    requires Key(c, r) in seen && r.time == seen[Key(c, r)].first && !Repeats(c, seen, other)
    ensures OutcomeOf(c, seen, r).Dropped?
    ensures OutcomeOf(c, SeenAfter(c, seen, other), r).Emitted? <==> Overfull(seen)
  {
  }

  // ----- exactly what is emitted -----

  /** Position `i` holds the last emission of the key. */
  ghost predicate LastOf(emitted: seq<Emission>, key: string, i: int) {
    0 <= i < |emitted| && emitted[i].key == key && forall j :: i < j < |emitted| ==> emitted[j].key != key
  }

  /** The map has the keys emitted, each with the time of its last emission. */
  ghost predicate Remembers(l: Log) {
    && (forall i :: 0 <= i < |l.emitted| ==> l.emitted[i].key in l.seen)
    && (forall k :: k in l.seen ==> exists i :: LastOf(l.emitted, k, i) && l.emitted[i].time == l.seen[k].first)
  }

  lemma LastUnique(emitted: seq<Emission>, key: string, i: int, j: int)
    requires LastOf(emitted, key, i) && LastOf(emitted, key, j)
    ensures i == j
  {
    assert !(i < j) && !(j < i);
  }

  lemma LastAfter(emitted: seq<Emission>, e: Emission, key: string, i: int)
    requires LastOf(emitted, key, i) && e.key != key
    ensures LastOf(emitted + [e], key, i) && (emitted + [e])[i] == emitted[i]
  {
  }

  lemma RemembersStep(c: Config, l: Log, r: Record)
    requires Remembers(l) && After(c, l, r).resets == l.resets
    ensures Remembers(After(c, l, r))
  {
    var t, key := After(c, l, r), Key(c, r);
    hide Key;
    forall k | k in t.seen ensures exists i :: LastOf(t.emitted, k, i) && t.emitted[i].time == t.seen[k].first {
      if k == key && t.emitted != l.emitted {
        assert LastOf(t.emitted, k, |l.emitted|);
      } else {
        assert k in l.seen;
        var i :| LastOf(l.emitted, k, i) && l.emitted[i].time == l.seen[k].first;
        if t.emitted != l.emitted { LastAfter(l.emitted, t.emitted[|l.emitted|], k, i); }
        assert LastOf(t.emitted, k, i);
      }
    }
  }

  lemma {:induction false} RememberedRun(c: Config, rs: seq<Record>)
    requires RunOf(c, rs).resets == 0
    ensures Remembers(RunOf(c, rs))
    ensures forall k :: RunOf(c, rs).lost(k) == 0
  {
    if rs != [] {
      ResetsOnlyGrow(c, rs);
      RememberedRun(c, rs[..|rs| - 1]);
      RemembersStep(c, RunOf(c, rs[..|rs| - 1]), rs[|rs| - 1]);
      hide Remembers, Key;
    }
  }

  /**
   * Exactly which records are emitted while the map has not started afresh: those at or above
   * the level whose key was last emitted a window ago or more, or never. The record then
   * reports how many of its key were handled and not accounted for yet.
   */
  lemma EmittedIff(c: Config, rs: seq<Record>, r: Record)
    requires RunOf(c, rs).resets == 0
    ensures var before, after, key := RunOf(c, rs).emitted, RunOf(c, rs + [r]).emitted, c.name(r.level) + [NUL] + r.message;
            if r.level >= 0 && forall i :: LastOf(before, key, i) ==> r.time - before[i].time >= c.window then
              && |after| == |before| + 1 && after[..|before|] == before
              && after[|before|].key == key && after[|before|].time == r.time
              && after[|before|].suppressed + Reported(before, key) == Handled(c, rs, key)
            else after == before
  {
    var l, key := RunOf(c, rs), Key(c, r);
    RememberedRun(c, rs);
    Conservation(c, rs, key);
    assert (rs + [r])[..|rs|] == rs;
    assert RunOf(c, rs + [r]) == After(c, l, r);
    if key in l.seen {
      var i :| LastOf(l.emitted, key, i) && l.emitted[i].time == l.seen[key].first;
      forall j | LastOf(l.emitted, key, j) ensures j == i { LastUnique(l.emitted, key, i, j); }
    }
    hide RunOf, Reported, Handled;
  }
}
