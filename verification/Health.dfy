/** The health record of one egress relay, as an ingress node keeps it. */
module Health {
  import opened Model

  datatype Health = Health(healthy: bool, fails: nat, successes: nat, latency: real)

  const FRESH := Health(true, 0, 0, 0.0)

  /** One connection attempt: whether it worked and how many milliseconds it took. */
  datatype Observation = Observation(ok: bool, ms: real)

  function Smooth(latency: real, ms: real): real {
    if latency == 0.0 then ms else 0.7 * latency + 0.3 * ms
  }

  function Observe(h: Health, o: Observation, fail: int, rise: int): Health {
    if o.ok then
      Health(h.healthy || h.successes + 1 >= rise, 0, h.successes + 1, Smooth(h.latency, o.ms))
    else
      Health(h.healthy && h.fails + 1 < fail, h.fails + 1, 0, h.latency)
  }

  class Target {
    const info: EgressTarget
    var healthy: bool
    var fails: nat
    var successes: nat
    var latencyMs: real

    function Record(): Health
      reads this
    {
      Health(healthy, fails, successes, latencyMs)
    }

    constructor (info: EgressTarget, healthy: bool, latencyMs: real)
      ensures this.info == info
      ensures Record() == Health(healthy, 0, 0, latencyMs)
    {
      this.info := info;
      this.healthy, this.latencyMs := healthy, latencyMs;
      fails, successes := 0, 0;
    }

    method Note(ok: bool, ms: real, fail: int, rise: int)
      modifies this
      ensures Record() == Observe(old(Record()), Observation(ok, ms), fail, rise)
    {
      if ok {
        fails := 0;
        successes := successes + 1;
        if latencyMs == 0.0 {
          latencyMs := ms;
        } else {
          latencyMs := 0.7 * latencyMs + 0.3 * ms;
        }
        if !healthy && successes >= rise {
          healthy := true;
        }
      } else {
        successes := 0;
        fails := fails + 1;
        if healthy && fails >= fail {
          healthy := false;
        }
      }
    }
  }

  // ----- whole histories -----

  function After(h: Health, history: seq<Observation>, fail: int, rise: int): Health {
    if history == [] then h
    else Observe(After(h, history[..|history| - 1], fail, rise), history[|history| - 1], fail, rise)
  }

  /** The `n` observations before position `i` all had the given outcome. */
  ghost predicate RunBefore(history: seq<Observation>, ok: bool, n: int, i: nat)
    requires i <= |history|
  {
    n <= i && forall k :: i - n <= k < i && 0 <= k ==> history[k].ok == ok
  }

  /** Position `i` is where the target was given up: a full run of failures, or an inherited verdict. */
  ghost predicate DownAt(inherited: bool, history: seq<Observation>, fail: int, i: nat)
    requires i <= |history|
  {
    (i == 0 && !inherited) || RunBefore(history, false, fail, i)
  }

  /** Given up at some point, and no full run of successes since. */
  ghost predicate Unhealthy(inherited: bool, history: seq<Observation>, fail: int, rise: int) {
    exists i: nat :: i <= |history| && DownAt(inherited, history, fail, i)
      && forall j: nat :: i < j <= |history| ==> !RunBefore(history, true, rise, j)
  }

  /** The counters are the lengths of the trailing runs. */
  lemma {:induction false} CountersAreRuns(h: Health, history: seq<Observation>, fail: int, rise: int)
    requires h.fails == 0 && h.successes == 0
    ensures var a := After(h, history, fail, rise);
            && (forall n: nat :: RunBefore(history, false, n, |history|) <==> n <= a.fails)
            && (forall n: nat :: RunBefore(history, true, n, |history|) <==> n <= a.successes)
  {
    if history != [] {
      var front, last := history[..|history| - 1], history[|history| - 1];
      CountersAreRuns(h, front, fail, rise);
      forall n: nat, ok: bool
        ensures RunBefore(history, ok, n, |history|) <==>
                n == 0 || (last.ok == ok && RunBefore(front, ok, n - 1, |front|))
      {
        ExtendRun(history, ok, n);
      }
    }
  }

  lemma ExtendRun(history: seq<Observation>, ok: bool, n: nat)
    requires history != []
    ensures var front, last := history[..|history| - 1], history[|history| - 1];
            RunBefore(history, ok, n, |history|) <==>
            n == 0 || (last.ok == ok && RunBefore(front, ok, n - 1, |front|))
  {
    var front, last := history[..|history| - 1], history[|history| - 1];
    if n > 0 && RunBefore(history, ok, n, |history|) {
      assert history[|history| - 1].ok == ok;
      forall k | |front| - (n - 1) <= k < |front| && 0 <= k ensures front[k].ok == ok {
        assert history[k].ok == ok;
      }
    }
    if n > 0 && last.ok == ok && RunBefore(front, ok, n - 1, |front|) {
      forall k | |history| - n <= k < |history| && 0 <= k ensures history[k].ok == ok {
        if k < |front| { assert front[k].ok == ok; }
      }
    }
  }

  lemma RunBeforePrefix(history: seq<Observation>, ok: bool, n: int, i: nat)
    requires history != [] && i < |history|
    ensures RunBefore(history, ok, n, i) <==> RunBefore(history[..|history| - 1], ok, n, i)
  {
    var front := history[..|history| - 1];
    assert forall k :: 0 <= k < i ==> front[k] == history[k];
  }

  /** How the verdict rule moves when one observation is added. */
  lemma UnhealthyStep(inherited: bool, history: seq<Observation>, fail: int, rise: int)
    requires history != [] && fail >= 1 && rise >= 1
    ensures var front, n := history[..|history| - 1], |history|;
            Unhealthy(inherited, history, fail, rise) <==>
            if history[n - 1].ok
            then Unhealthy(inherited, front, fail, rise) && !RunBefore(history, true, rise, n)
            else Unhealthy(inherited, front, fail, rise) || RunBefore(history, false, fail, n)
  {
    var front, n := history[..|history| - 1], |history|;
    forall i: nat | i < n
      ensures DownAt(inherited, history, fail, i) <==> DownAt(inherited, front, fail, i)
      ensures RunBefore(history, true, rise, i) <==> RunBefore(front, true, rise, i)
    {
      RunBeforePrefix(history, false, fail, i);
      RunBeforePrefix(history, true, rise, i);
    }
    if Unhealthy(inherited, history, fail, rise) {
      var i: nat :| i <= n && DownAt(inherited, history, fail, i)
        && forall j: nat :: i < j <= n ==> !RunBefore(history, true, rise, j);
      if i == n {
        assert !history[n - 1].ok;
      } else {
        assert forall j: nat :: i < j <= |front| ==> !RunBefore(front, true, rise, j);
        assert DownAt(inherited, front, fail, i);
        assert Unhealthy(inherited, front, fail, rise);
        assert !RunBefore(history, true, rise, n);
      }
    }
    if Unhealthy(inherited, front, fail, rise) && !RunBefore(history, true, rise, n) {
      var i: nat :| i <= |front| && DownAt(inherited, front, fail, i)
        && forall j: nat :: i < j <= |front| ==> !RunBefore(front, true, rise, j);
      assert DownAt(inherited, history, fail, i);
      assert forall j: nat :: i < j <= n ==> !RunBefore(history, true, rise, j);
    }
    if RunBefore(history, false, fail, n) {
      assert DownAt(inherited, history, fail, n);
      assert Unhealthy(inherited, history, fail, rise);
    }
    if RunBefore(history, true, rise, n) {
      assert history[n - 1].ok;
    }
  }

  /**
   * After any history a target is unhealthy exactly when `fail` consecutive failures,
   * or the inherited verdict, have not since been followed by `rise` consecutive successes.
   */
  lemma {:induction false} HealthIsHysteresis(h: Health, history: seq<Observation>, fail: int, rise: int)
    requires h.fails == 0 && h.successes == 0
    requires fail >= 1 && rise >= 1
    ensures !After(h, history, fail, rise).healthy <==> Unhealthy(h.healthy, history, fail, rise)
  {
    if history == [] {
      assert DownAt(h.healthy, history, fail, 0) <==> !h.healthy;
    } else {
      var front := history[..|history| - 1];
      HealthIsHysteresis(h, front, fail, rise);
      UnhealthyStep(h.healthy, history, fail, rise);
      CountersAreRuns(h, history, fail, rise);
      assert RunBefore(history, true, rise, |history|) <==> rise <= After(h, history, fail, rise).successes;
      assert RunBefore(history, false, fail, |history|) <==> fail <= After(h, history, fail, rise).fails;
    }
  }

  /** The smoothed latency never leaves the range of the samples it was fed. */
  lemma {:induction false} LatencyWithinSamples(
      h: Health, history: seq<Observation>, fail: int, rise: int, lo: real, hi: real)
    requires 0.0 <= lo <= hi
    requires h.latency == 0.0 || lo <= h.latency <= hi
    requires forall o :: o in history && o.ok ==> lo <= o.ms <= hi
    ensures var l := After(h, history, fail, rise).latency;
            l == 0.0 || lo <= l <= hi
    ensures (exists o :: o in history && o.ok) || h.latency != 0.0 ==>
              lo <= After(h, history, fail, rise).latency <= hi
  {
    if history != [] {
      var front, last := history[..|history| - 1], history[|history| - 1];
      assert history == front + [last];
      LatencyWithinSamples(h, front, fail, rise, lo, hi);
    }
  }

  function Successes(history: seq<Observation>): nat {
    if history == [] then 0 else Successes(history[..|history| - 1]) + (if history[|history| - 1].ok then 1 else 0)
  }

  /** What is left of a distance after `n` samples. */
  function Remaining(n: nat): real {
    if n == 0 then 1.0 else 0.7 * Remaining(n - 1)
  }

  /** The average after `n` samples of `m`, from an average of `start`. */
  ghost predicate Near(l: real, start: real, n: nat, m: real) {
    if n == 0 then l == start
    else if start == 0.0 then l == m
    else l > 0.0 && l - m == Remaining(n) * (start - m)
  }

  lemma SampleMoves(l: real, m: real, d: real, r: real)
    requires l - m == r * d
    ensures 0.7 * l + 0.3 * m - m == 0.7 * r * d
  {
    assert 0.7 * r * d == 0.7 * (r * d);
  }

  lemma NearStep(l: real, start: real, n: nat, m: real)
    requires start >= 0.0 && m > 0.0 && Near(l, start, n, m)
    ensures Near(if l == 0.0 then m else 0.7 * l + 0.3 * m, start, n + 1, m)
  {
    if start != 0.0 {
      assert n == 0 ==> Remaining(n) == 1.0 && 1.0 * (start - m) == start - m;
      SampleMoves(l, m, start - m, Remaining(n));
      assert Remaining(n + 1) == 0.7 * Remaining(n);
    }
    hide Remaining;
  }

  lemma LatencyStep(h: Health, history: seq<Observation>, fail: int, rise: int)
    requires history != []
    ensures var front, last := history[..|history| - 1], history[|history| - 1];
            var before := After(h, front, fail, rise).latency;
            && After(h, history, fail, rise).latency ==
               (if !last.ok then before else if before == 0.0 then last.ms else 0.7 * before + 0.3 * last.ms)
            && Successes(history) == Successes(front) + (if last.ok then 1 else 0)
  {
  }

  /**
   * The average follows the samples: the first is taken as it is, and each further one leaves
   * 0.7 of the distance to it. Failures do not move it.
   */
  lemma {:induction false} LatencyApproaches(h: Health, history: seq<Observation>, fail: int, rise: int, m: real)
    requires h.latency >= 0.0 && m > 0.0
    requires forall o :: o in history && o.ok ==> o.ms == m
    ensures var l, n := After(h, history, fail, rise).latency, Successes(history);
            if n == 0 then l == h.latency
            else if h.latency == 0.0 then l == m
            else l > 0.0 && l - m == Remaining(n) * (h.latency - m)
  {
    NearAfter(h, history, fail, rise, m);
    hide After, Successes, Remaining;
  }

  lemma {:induction false} NearAfter(h: Health, history: seq<Observation>, fail: int, rise: int, m: real)
    requires h.latency >= 0.0 && m > 0.0
    requires forall o :: o in history && o.ok ==> o.ms == m
    ensures Near(After(h, history, fail, rise).latency, h.latency, Successes(history), m)
  {
    if history != [] {
      var front, last := history[..|history| - 1], history[|history| - 1];
      assert history == front + [last];
      NearAfter(h, front, fail, rise, m);
      LatencyStep(h, history, fail, rise);
      hide After, Successes, Near;
      NearStep(After(h, front, fail, rise).latency, h.latency, Successes(front), m);
    }
  }
}
