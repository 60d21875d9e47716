/**
 * Session admission at a proxy or relay: handlers running side by side increment a shared
 * counter, compare what they got with the maximum, and decrement again when they are
 * refused or done.
 */
module Admission {
  import opened Collections

  type HandlerId = nat

  /** `Judging` has incremented and not yet compared; `Refused` has compared and not yet undone. */
  datatype Phase = Judging | Admitted | Refused

  /** A handler between its increment, which returned `ticket`, and its decrement. */
  datatype Handler = Handler(ticket: int, phase: Phase)

  datatype State = State(active: int, limit: int, handlers: map<HandlerId, Handler>)

  datatype Step =
    | Increment(id: HandlerId)
    | Compare(id: HandlerId)
    | Decrement(id: HandlerId)
    | Configure(limit: int)

  predicate Can(s: State, st: Step) {
    match st
    case Increment(id) => id !in s.handlers
    case Compare(id) => id in s.handlers && s.handlers[id].phase.Judging?
    case Decrement(id) => id in s.handlers && !s.handlers[id].phase.Judging?
    case Configure(_) => true
  }

  function Do(s: State, st: Step): State
    requires Can(s, st)
  {
    match st
    case Increment(id) => s.(active := s.active + 1, handlers := s.handlers[id := Handler(s.active + 1, Judging)])
    case Compare(id) =>
      var h := s.handlers[id];
      s.(handlers := s.handlers[id := h.(phase := if h.ticket > s.limit then Refused else Admitted)])
    case Decrement(id) => s.(active := s.active - 1, handlers := s.handlers - {id})
    case Configure(limit) => s.(limit := limit)
  }

  function Init(limit: int): State {
    State(0, limit, map[])
  }

  function In(s: State, phase: Phase): set<HandlerId> {
    set id | id in s.handlers && s.handlers[id].phase == phase
  }

  /** The handlers whose increment returned at most `m`. */
  function Within(s: State, m: int): set<HandlerId> {
    set id | id in s.handlers && s.handlers[id].ticket <= m
  }

  /**
   * The counter counts the handlers; whatever the interleaving, no more than `m` of those
   * present ever got a ticket of at most `m`; and the admitted have tickets within `peak`.
   */
  ghost predicate Inv(s: State, peak: int) {
    && s.active == |s.handlers|
    && s.limit <= peak
    && (forall m: nat :: |Within(s, m)| <= m)
    && (forall id :: id in s.handlers ==> s.handlers[id].ticket >= 1)
    && (forall id :: id in s.handlers && s.handlers[id].phase.Admitted? ==> s.handlers[id].ticket <= peak)
  }

  /** The highest limit in force so far. */
  function Peak(peak: int, st: Step): int {
    if st.Configure? then Max(peak, st.limit) else peak
  }

  lemma StepKeepsInv(s: State, st: Step, peak: int)
    requires Inv(s, peak) && Can(s, st)
    ensures Inv(Do(s, st), Peak(peak, st))
  {
    var t := Do(s, st);
    assert t.handlers.Keys == match st
      case Increment(id) => s.handlers.Keys + {id}
      case Decrement(id) => s.handlers.Keys - {id}
      case _ => s.handlers.Keys;
    assert |t.handlers| == |t.handlers.Keys| && |s.handlers| == |s.handlers.Keys|;
    forall m: nat ensures |Within(t, m)| <= m {
      if st.Increment? && s.active + 1 <= m {
        SubsetSize(Within(t, m), t.handlers.Keys);
      } else {
        SubsetSize(Within(t, m), Within(s, m));
      }
    }
  }

  ghost predicate Runs(s: State, steps: seq<Step>)
    decreases |steps|
  {
    steps == [] || (Can(s, steps[0]) && Runs(Do(s, steps[0]), steps[1..]))
  }

  function End(s: State, steps: seq<Step>): State
    requires Runs(s, steps)
    decreases |steps|
  {
    if steps == [] then s else End(Do(s, steps[0]), steps[1..])
  }

  function PeakOf(peak: int, steps: seq<Step>): int
    decreases |steps|
  {
    if steps == [] then peak else PeakOf(Peak(peak, steps[0]), steps[1..])
  }

  lemma {:induction false} RunKeepsInv(s: State, steps: seq<Step>, peak: int)
    requires Inv(s, peak) && Runs(s, steps)
    ensures Inv(End(s, steps), PeakOf(peak, steps))
    decreases |steps|
  {
    if steps != [] {
      StepKeepsInv(s, steps[0], peak);
      RunKeepsInv(Do(s, steps[0]), steps[1..], Peak(peak, steps[0]));
    }
  }

  /**
   * In every interleaving: the counter is the admitted sessions plus the handlers still
   * judging or refused and not yet undone; it is zero once all are gone; and the admitted
   * never exceed the highest limit that was in force.
   */
  lemma AdmissionSafety(limit: int, steps: seq<Step>)
    requires Runs(Init(limit), steps)
    ensures var s := End(Init(limit), steps);
            && s.active == |In(s, Admitted)| + |In(s, Judging)| + |In(s, Refused)|
            && (s.handlers == map[] ==> s.active == 0)
            && |In(s, Admitted)| <= Max(0, PeakOf(limit, steps))
  {
    var s := End(Init(limit), steps);
    var peak := Max(0, PeakOf(limit, steps));
    assert Inv(Init(limit), limit) by {
      assert forall m: nat :: Within(Init(limit), m) == {};
    }
    RunKeepsInv(Init(limit), steps, limit);
    Phases(s);
    SubsetSize(In(s, Admitted), Within(s, peak));
  }

  lemma Phases(s: State)
    ensures |s.handlers| == |In(s, Admitted)| + |In(s, Judging)| + |In(s, Refused)|
  {
    var a, j, r := In(s, Admitted), In(s, Judging), In(s, Refused);
    assert s.handlers.Keys == a + j + r;
    assert |a + j| == |a| + |j|;
    assert |a + j + r| == |a + j| + |r|;
  }

  lemma {:induction false} FixedLimitPeak(limit: int, steps: seq<Step>)
    requires forall st :: st in steps ==> !st.Configure?
    ensures PeakOf(limit, steps) == limit
    decreases |steps|
  {
    if steps != [] {
      assert steps[0] in steps;
      FixedLimitPeak(limit, steps[1..]);
    }
  }

  /** Under a fixed limit the admitted sessions never exceed it. */
  lemma FixedLimitHolds(limit: int, steps: seq<Step>)
    requires Runs(Init(limit), steps) && forall st :: st in steps ==> !st.Configure?
    ensures |In(End(Init(limit), steps), Admitted)| <= Max(0, limit)
  {
    AdmissionSafety(limit, steps);
    FixedLimitPeak(limit, steps);
  }

  /** Until it compares, a handler keeps the ticket its increment gave it. */
  lemma {:induction false} TicketKept(s: State, steps: seq<Step>, id: HandlerId)
    requires Runs(s, steps) && id in s.handlers && s.handlers[id].phase.Judging? && Compare(id) !in steps
    ensures id in End(s, steps).handlers && End(s, steps).handlers[id] == s.handlers[id]
    decreases |steps|
  {
    if steps != [] {
      assert steps[0] in steps && forall st :: st in steps[1..] ==> st in steps;
      TicketKept(Do(s, steps[0]), steps[1..], id);
    }
  }

  /**
   * Whatever happens between a handler's increment and its comparison, it is refused exactly
   * when the handlers present at the increment, admitted or not yet undone, were as many as
   * the limit at the comparison.
   */
  lemma RefusedIff(s: State, id: HandlerId, steps: seq<Step>, peak: int)
    requires Inv(s, peak) && Can(s, Increment(id))
    requires Runs(Do(s, Increment(id)), steps) && Compare(id) !in steps
    ensures var u := End(Do(s, Increment(id)), steps);
            && Can(u, Compare(id))
            && (Do(u, Compare(id)).handlers[id].phase.Refused? <==>
                  |In(s, Admitted)| + |In(s, Judging)| + |In(s, Refused)| >= u.limit)
  {
    Phases(s);
    TicketKept(Do(s, Increment(id)), steps, id);
  }

  /** An increment and its comparison, one after the other. */
  lemma Arrives(s: State, id: HandlerId)
    requires id !in s.handlers
    ensures Can(s, Increment(id)) && Can(Do(s, Increment(id)), Compare(id))
    ensures Do(Do(s, Increment(id)), Compare(id)) ==
            s.(active := s.active + 1,
               handlers := s.handlers[id := Handler(s.active + 1, if s.active + 1 > s.limit then Refused else Admitted)])
  {
  }

  /** So a refusal can be spurious: a refused handler that has not undone its increment keeps a free place closed. */
  lemma SpuriousRefusal() returns (steps: seq<Step>)
    ensures Runs(Init(1), steps)
    ensures var s := End(Init(1), steps);
            && In(s, Admitted) == {} && 2 in s.handlers && s.handlers[2].phase.Refused?
  {
    steps := [Increment(0), Compare(0), Increment(1), Compare(1), Decrement(0), Increment(2), Compare(2)];
    var a := State(1, 1, map[0 := Handler(1, Admitted)]);
    var b := State(2, 1, map[0 := Handler(1, Admitted), 1 := Handler(2, Refused)]);
    var c := State(1, 1, map[1 := Handler(2, Refused)]);
    var d := State(2, 1, map[1 := Handler(2, Refused), 2 := Handler(2, Refused)]);
    Arrives(Init(1), 0);
    Arrives(a, 1);
    Arrives(c, 2);
    assert map[0 := Handler(1, Judging)][0 := Handler(1, Admitted)] == map[0 := Handler(1, Admitted)];
    assert Do(b, Decrement(0)) == c;
    hide Do;
    assert Runs(c, [Increment(2), Compare(2)]) && End(c, [Increment(2), Compare(2)]) == d by {
      assert [Increment(2), Compare(2)][1..] == [Compare(2)];
    }
    assert steps[1..][1..][1..][1..][1..] == [Increment(2), Compare(2)];
  }

  /** From every state the handlers present can finish, and then the counter is back at zero. */
  lemma {:induction false} Drains(s: State, peak: int) returns (steps: seq<Step>)
    requires Inv(s, peak)
    ensures Runs(s, steps) && forall st :: st in steps ==> !st.Increment? && !st.Configure?
    ensures End(s, steps).handlers == map[] && End(s, steps).active == 0
    decreases |s.handlers|
  {
    if s.handlers == map[] {
      steps := [];
    } else {
      var id :| id in s.handlers;
      var judging := s.handlers[id].phase.Judging?;
      var mid := if judging then Do(s, Compare(id)) else s;
      if judging { StepKeepsInv(s, Compare(id), peak); }
      StepKeepsInv(mid, Decrement(id), peak);
      var rest := Do(mid, Decrement(id));
      assert rest.handlers.Keys == s.handlers.Keys - {id};
      assert |rest.handlers.Keys| == |s.handlers.Keys| - 1;
      var tail := Drains(rest, peak);
      steps := [Decrement(id)] + tail;
      assert steps[1..] == tail;
      if judging {
        var all := [Compare(id)] + steps;
        assert all[1..] == steps;
        steps := all;
      }
    }
  }
}
