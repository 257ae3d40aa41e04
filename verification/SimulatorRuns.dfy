/** Whole runs of the simulator: the event loop always advances and always ends, and every state any
    sequence of control actions can reach keeps the invariant. */
module SimulatorRuns {
  import opened Requests
  import opened ReplicaEngines
  import opened ReplicaPool
  import opened Simulator
  import opened SimulatorInvariant

  // ---- the loop always advances ------------------------------------------------------------------------

  lemma RunningAhead(m: Model, r: Rep, t: real)
    requires RepOk(m, r, t) && r.eng.running != []
    ensures r.Serving(t) && r.eng.next.At? && r.eng.next.t > t
  {}

  lemma MinClockFacts(a: Clock, b: Clock)
    ensures MinClock(a, b).At? <==> a.At? || b.At?
    ensures MinClock(a, b).At? ==> MinClock(a, b) == a || MinClock(a, b) == b
    ensures a.At? ==> MinClock(a, b).t <= a.t
    ensures b.At? ==> MinClock(a, b).t <= b.t
  {}

  /** The next service event lies ahead and no running batch is due before it. */
  lemma {:induction false} StepAhead(m: Model, reps: seq<Rep>, t: real)
    requires forall r :: r in reps ==> RepOk(m, r, t)
    ensures var n := NextStep(reps, t);
            && (n.At? ==> n.t > t && StepDue(reps, t, n.t))
            && (forall r :: r in reps && r.eng.running != [] ==>
                  r.Serving(t) && r.eng.next.At? && n.At? && n.t <= r.eng.next.t)
  {
    StepScan(reps, t);
    forall r | r in reps && r.eng.running != [] ensures r.Serving(t) && r.eng.next.At? && r.eng.next.t > t {
      RunningAhead(m, r, t);
    }
    hide RepOk;
  }

  lemma {:induction false} ReadyAhead(reps: seq<Rep>, t: real)
    ensures NextReady(reps, t).At? ==> NextReady(reps, t).t > t && BootDue(reps, t, NextReady(reps, t).t)
  {
    ReadyScan(reps, t);
  }

  /** No batch runs before the first arrival has been dispatched. */
  lemma {:induction false} NothingRuns(s: Sim)
    requires Conserved(s) && s.arrivalI == 0
    ensures forall r :: r in s.pool.reps ==> r.eng.running == []
  {
    assert HeldMs(s.pool.reps) == multiset{} by { assert s.trace[..0] == []; }
    forall r | r in s.pool.reps ensures r.eng.running == [] {
      if r.eng.running != [] {
        var i :| 0 <= i < |s.pool.reps| && s.pool.reps[i] == r;
        assert r.eng.Has(r.eng.running[0]);
        HeldMember(s.pool.reps, i, r.eng.running[0]);
      }
    }
  }

  /** The instant the loop jumps to. */
  function EventTime(c: SimConfig, s: Sim): real
    requires NextEvent(s).At?
  {
    if NextEvent(s).t <= s.t then NextAfter(c.gap, s.t) else NextEvent(s).t
  }

  /** The invariant of a run: before any time has passed no stall has been counted. */
  ghost predicate RunInv(c: SimConfig, s: Sim) { SimInv(c, s) && (s.t == 0.0 ==> s.stalls == 0) }

  /** Every event lies strictly ahead and something is due then. Only an arrival at the very start of an
      episode is not ahead of the clock. */
  lemma {:induction false} EventAhead(c: SimConfig, s: Sim)
    requires SimInv(c, s) && NextEvent(s).At?
    ensures s.t < EventTime(c, s) && BeforeClocks(s, EventTime(c, s)) && Productive(s, EventTime(c, s))
    ensures NextEvent(s).t <= s.t ==> s.t == 0.0
  {
    var a, b, d := NextArrival(s), NextReady(s.pool.reps, s.t), NextStep(s.pool.reps, s.t);
    MinClockFacts(a, b);
    MinClockFacts(MinClock(a, b), d);
    StepAhead(c.model, s.pool.reps, s.t);
    ReadyAhead(s.pool.reps, s.t);
    if s.arrivalI == 0 { NothingRuns(s); }
    hide PoolInv, TraceOk, Conserved, RepOk, Inv, StepDue, BootDue, NextReady, NextStep, MinClock;
  }

  /** Nothing happens up to tEnd. */
  ghost predicate QuietUntil(s: Sim, tEnd: real) {
    NextEvent(s).At? ==> NextEvent(s).t > tEnd
  }

  /** When nothing happens up to tEnd, every clock and the next arrival lie beyond it. */
  lemma {:induction false} QuietClocks(c: SimConfig, s: Sim, tEnd: real)
    requires SimInv(c, s) && QuietUntil(s, tEnd)
    ensures forall r :: r in s.pool.reps && r.eng.running != [] ==> r.eng.next.At? && r.eng.next.t > tEnd
    ensures s.arrivalI < |s.trace| ==> s.trace[s.arrivalI].tArrival > tEnd
  {
    hide PoolInv, TraceOk, Conserved, RepOk, StepDue, NextReady, NextStep, MinClock;
    var a, b, d := NextArrival(s), NextReady(s.pool.reps, s.t), NextStep(s.pool.reps, s.t);
    MinClockFacts(a, b);
    MinClockFacts(MinClock(a, b), d);
    StepAhead(c.model, s.pool.reps, s.t);
  }

  lemma {:induction false} CoastEngine(m: Model, r: Rep, t: real, tEnd: real)
    requires RepOk(m, r, t) && t <= tEnd && (r.eng.running != [] ==> r.eng.next.At? && r.eng.next.t > tEnd)
    ensures RepOk(m, r, tEnd)
  {
    hide Inv;
    Idle(m, r.eng, t, tEnd);
  }

  /** Coasting over a quiet stretch bills it and changes nothing else. */
  lemma {:induction false} CoastKeeps(c: SimConfig, s: Sim, tEnd: real)
    requires SimInv(c, s) && s.t < tEnd && QuietUntil(s, tEnd)
    ensures SimInv(c, Jump(s, tEnd)) && Measure(c, Jump(s, tEnd)) <= Measure(c, s)
  {
    hide PoolInv, TraceOk, RepOk, Inv, HeldMs, QuietUntil, Measure;
    QuietClocks(c, s, tEnd);
    MoveKeeps(c.pool, s.pool, tEnd);
    RetiredIdle(c, s, tEnd);
    JumpMeasure(c, s, tEnd);
    forall r | r in s.pool.reps ensures RepOk(c.model, r, tEnd) { CoastEngine(c.model, r, s.t, tEnd); }
  }

  lemma StallsIrrelevant(c: SimConfig, s: Sim, n: nat, t: real)
    requires SimInv(c, s) && n <= 1
    ensures SimInv(c, s.(stalls := n)) && Measure(c, s.(stalls := n)) == Measure(c, s)
    ensures BeforeClocks(s, t) ==> BeforeClocks(s.(stalls := n), t)
    ensures Productive(s, t) ==> Productive(s.(stalls := n), t)
  {
    hide PoolInv, TraceOk, HeldMs, RepOk, Inv, StepDue, BootDue, WorkAll, WorkAhead, BootingCount;
  }

  /** s' is s after one event of the loop. */
  ghost predicate Progresses(c: SimConfig, s: Sim, s': Sim) {
    && RunInv(c, s') && s.t < s'.t && s'.trace == s.trace && Measure(c, s') < Measure(c, s)
    && (s'.stalls == 1 ==> s.t == 0.0)
  }

  lemma {:induction false} EventProgress(c: SimConfig, s: Sim, n: nat, t: real)
    requires SimInv(c, s) && n <= 1 && 0.0 <= s.t < t && BeforeClocks(s, t) && Productive(s, t)
    requires n == 1 ==> s.t == 0.0
    ensures Progresses(c, s, Event(c, s.(stalls := n), t)) && Event(c, s.(stalls := n), t).t == t
  {
    StallsIrrelevant(c, s, n, t);
    hide SimInv, Measure, Productive, BeforeClocks, Event;
    EventKeeps(c, s.(stalls := n), t);
  }

  /** What an iteration with an event by tEnd does. */
  lemma IterateIsEvent(c: SimConfig, s: Sim, tEnd: real, idle: bool)
    requires NextEvent(s).At? && NextEvent(s).t <= tEnd && s.stalls <= 1 && (s.t == 0.0 ==> s.stalls == 0)
    requires NextEvent(s).t <= s.t ==> s.t == 0.0
    ensures Iterate(c, s, tEnd, idle)
            == Advanced(Event(c, s.(stalls := if NextEvent(s).t <= s.t then 1 else 0), EventTime(c, s)))
  {
    hide NextEvent, Event;
  }

  /** An advancing iteration is one event, from a state that differs in its stall counter alone. */
  lemma {:induction false} AsEvent(c: SimConfig, s: Sim, tEnd: real, idle: bool) returns (s1: Sim, t: real)
    requires RunInv(c, s) && NextEvent(s).At? && NextEvent(s).t <= tEnd
    ensures s1 == s.(stalls := s1.stalls) && SimInv(c, s1) && s1.t < t && BeforeClocks(s1, t)
    ensures Iterate(c, s, tEnd, idle) == Advanced(Event(c, s1, t))
  {
    NoEarlier(c, s);
    EventAhead(c, s);
    t := EventTime(c, s);
    var n := if NextEvent(s).t <= s.t then 1 else 0;
    StallsIrrelevant(c, s, n, t);
    hide SimInv, Productive, BeforeClocks, Event, NextEvent, EventTime, Iterate;
    IterateIsEvent(c, s, tEnd, idle);
    s1 := s.(stalls := n);
  }

  /** One iteration of the loop never stalls; it keeps the invariant, and either ends the loop with nothing
      left to do by tEnd, or advances the clock and makes the measure smaller. */
  lemma {:induction false} IterateKeeps(c: SimConfig, s: Sim, tEnd: real, idle: bool)
    requires RunInv(c, s) && s.t < tEnd
    ensures var o := Iterate(c, s, tEnd, idle);
            && !o.Stalled? && RunInv(c, o.s) && (o.Advanced? ==> Progresses(c, s, o.s))
            && (o.Returned? ==> QuietUntil(s, tEnd) && o.s == (if idle then Jump(s, tEnd) else s))
  {
    NoEarlier(c, s);
    hide SimInv, Productive, BeforeClocks, Event, Jump;
    if NextEvent(s).At? && NextEvent(s).t <= tEnd {
      EventAhead(c, s);
      hide NextEvent, Progresses, EventTime, Iterate;
      IterateIsEvent(c, s, tEnd, idle);
      EventProgress(c, s, if NextEvent(s).t <= s.t then 1 else 0, EventTime(c, s));
      ProgressKeeps(c, s, Iterate(c, s, tEnd, idle).s);
    } else {
      CoastKeeps(c, s, tEnd);
    }
  }

  lemma ProgressKeeps(c: SimConfig, s: Sim, s': Sim)
    requires Progresses(c, s, s')
    ensures RunInv(c, s')
  {}

  lemma NoEarlier(c: SimConfig, s: Sim)
    requires SimInv(c, s)
    ensures s.t >= 0.0 && s.stalls <= 1
  {}

  // ---- the control surface ----------------------------------------------------------------------------------

  /** Two instants this close end a drain. */
  const DRAIN_EPS: real := 0.000000000001

  /** Run the event loop up to tEnd. With `idle` the clock coasts to tEnd, without it the clock stays at the
      last event. */
  function StepTo(c: SimConfig, s: Sim, tEnd: real, idle: bool): (s': Sim)
    requires RunInv(c, s)
    ensures RunInv(c, s') && s'.trace == s.trace && s.t <= s'.t
    ensures s'.t >= tEnd - EPS || (!idle && QuietUntil(s', tEnd))
    ensures !idle ==> s' == s || (s.t < s'.t && Measure(c, s') < Measure(c, s))
    decreases Measure(c, s)
  {
    if s.t >= tEnd - EPS then s
    else
      IterateKeeps(c, s, tEnd, idle);
      hide SimInv, Measure, QuietUntil, Iterate;
      match Iterate(c, s, tEnd, idle)
      case Advanced(s1) => StepTo(c, s1, tEnd, idle)
      case Returned(s1) => s1
  }

  function SetTargetReplicas(c: SimConfig, s: Sim, k: int): Sim { s.(pool := SetTarget(c.pool, s.pool, k)) }

  predicate HasWork(reps: seq<Rep>) { exists i :: 0 <= i < |reps| && reps[i].eng.HasWork() }

  /** Run past the horizon until no replica holds work, or tCap. */
  function DrainAll(c: SimConfig, s: Sim, tCap: real): (s': Sim)
    requires RunInv(c, s)
    ensures RunInv(c, s') && s'.trace == s.trace && s.t <= s'.t
    decreases Measure(c, s)
  {
    if s.t < tCap && HasWork(s.pool.reps) then
      var s1 := StepTo(c, s, tCap, false);
      if s1.t <= s.t + DRAIN_EPS then s1 else DrainAll(c, s1, tCap)
    else s
  }

  /** Rescaling leaves what every replica holds alone; new replicas hold nothing. */
  lemma {:induction false} RescaleHeld(before: seq<Rep>, after: seq<Rep>)
    requires Rescales(before, after)
    ensures HeldMs(after) == HeldMs(before)
  {
    var n := |before|;
    assert after == after[..n] + after[n..];
    HeldAppend(after[..n], after[n..]);
    forall i | 0 <= i < n ensures after[..n][i].eng.Held() == before[i].eng.Held() {
      assert after[i].eng == before[i].eng.(accepting := !after[i].draining);
    }
    HeldEqual(after[..n], before);
    NewHeld(after[n..]);
  }

  lemma {:induction false} NewHeld(reps: seq<Rep>)
    requires forall r :: r in reps ==> r.eng == NewEngine
    ensures HeldMs(reps) == multiset{}
  {
    if reps != [] { NewHeld(reps[1..]); }
  }

  lemma {:induction false} RescaleEngines(m: Model, before: seq<Rep>, after: seq<Rep>, t: real)
    requires Rescales(before, after) && forall r :: r in before ==> RepOk(m, r, t)
    ensures forall r :: r in after ==> RepOk(m, r, t)
  {
    hide Inv;
    forall i | 0 <= i < |after| ensures RepOk(m, after[i], t) {
      if i < |before| {
        assert RepOk(m, before[i], t);
        SetAccepting(m, before[i].eng, !after[i].draining, t);
      } else {
        NewEngineInv(m, t);
      }
    }
  }

  /** A control action keeps the invariant: it moves no request and no clock. */
  lemma {:induction false} ScaleKeeps(c: SimConfig, s: Sim, k: int)
    requires RunInv(c, s)
    ensures RunInv(c, SetTargetReplicas(c, s, k))
  {
    hide SetTarget, NotEarly, OnTime, PoolInv, Rescales, TraceOk, HeldMs, RepOk, Inv, NoNewDrain, DrainsNewest;
    SetTargetKeeps(c.pool, s.pool, k);
    RescaleHeld(s.pool.reps, SetTarget(c.pool, s.pool, k).reps);
    RescaleEngines(c.model, s.pool.reps, SetTarget(c.pool, s.pool, k).reps, s.t);
    StaysTimely(s, SetTarget(c.pool, s.pool, k));
  }

  /** Idle founders have nothing pending. */
  lemma {:induction false} NothingPending(reps: seq<Rep>, t: real)
    requires t >= 0.0 && forall r :: r in reps ==> r.tReady == 0.0 && r.eng == NewEngine
    ensures NextReady(reps, t).Never? && NextStep(reps, t).Never?
  {
    if reps != [] { NothingPending(reps[1..], t); }
  }

  // ---- every reachable state -----------------------------------------------------------------------------------

  /** The state after reset. */
  function Begin(c: SimConfig, trace: seq<Req>): Sim { Sim(0.0, Reset(c.pool), trace, 0, 0, 0) }

  lemma BeginPool(c: SimConfig, trace: seq<Req>)
    ensures Begin(c, trace).pool == ReplicaPool.Reset(c.pool) && Begin(c, trace).t == 0.0
  {}

  lemma {:induction false} BeginKeeps(c: SimConfig, trace: seq<Req>)
    requires TraceOk(c.model, trace)
    ensures RunInv(c, Begin(c, trace))
  {
    hide Reset, PoolInv, TraceOk, HeldMs, Inv;
    ResetKeeps(c.pool);
    NewHeld(Reset(c.pool).reps);
    NewHeld([]);
    NewEngineInv(c.model, 0.0);
    assert trace[..0] == [];
  }

  /** What a controller, or the loop on its behalf, may do next. `Turn` is a single iteration of the event
      loop, so that what holds of every reachable state holds between any two events. */
  datatype Action = Scale(k: int) | Turn(tEnd: real, idle: bool) | Advance(tEnd: real, idle: bool) | Drain(tCap: real)

  function Apply(c: SimConfig, s: Sim, a: Action): (s': Sim)
    requires RunInv(c, s)
    ensures RunInv(c, s') && s'.trace == s.trace && s.t <= s'.t
  {
    match a
    case Scale(k) =>
      ScaleKeeps(c, s, k);
      SetTargetReplicas(c, s, k)
    case Turn(tEnd, idle) =>
      if s.t >= tEnd - EPS then s
      else
        IterateKeeps(c, s, tEnd, idle);
        hide SimInv, Measure, QuietUntil, Iterate;
        Iterate(c, s, tEnd, idle).s
    case Advance(tEnd, idle) => StepTo(c, s, tEnd, idle)
    case Drain(tCap) => DrainAll(c, s, tCap)
  }

  function ApplyAll(c: SimConfig, s: Sim, acts: seq<Action>): (s': Sim)
    requires RunInv(c, s)
    ensures RunInv(c, s') && s'.trace == s.trace && s.t <= s'.t
    decreases |acts|
  {
    if acts == [] then s
    else
      hide RunInv, Apply;
      ApplyAll(c, Apply(c, s, acts[0]), acts[1..])
  }

  /** The state any sequence of actions leads to. */
  function Reached(c: SimConfig, trace: seq<Req>, acts: seq<Action>): (s: Sim)
    requires TraceOk(c.model, trace)
    ensures RunInv(c, s) && s.trace == trace
  {
    BeginKeeps(c, trace);
    hide RunInv, TraceOk;
    ApplyAll(c, Begin(c, trace), acts)
  }

  lemma {:induction false} ApplyAppend(c: SimConfig, s: Sim, xs: seq<Action>, ys: seq<Action>)
    requires RunInv(c, s)
    ensures ApplyAll(c, s, xs + ys) == ApplyAll(c, ApplyAll(c, s, xs), ys)
    decreases |xs|
  {
    hide RunInv, Apply;
    if xs == [] {
      assert [] + ys == ys;
    } else {
      assert (xs + ys)[1..] == xs[1..] + ys;
      ApplyAppend(c, Apply(c, s, xs[0]), xs[1..], ys);
    }
  }

  /** Only single turns of the event loop. */
  ghost predicate OnlyTurns(acts: seq<Action>) { forall i :: 0 <= i < |acts| ==> acts[i].Turn? }

  lemma TurnThen(c: SimConfig, s: Sim, a: Action, rest: seq<Action>)
    requires RunInv(c, s) && a.Turn? && OnlyTurns(rest)
    ensures OnlyTurns([a] + rest) && ApplyAll(c, s, [a] + rest) == ApplyAll(c, Apply(c, s, a), rest)
  {
    hide RunInv, Apply;
    assert ([a] + rest)[1..] == rest;
  }

  lemma {:induction false} StepToUnfold(c: SimConfig, s: Sim, tEnd: real, idle: bool)
    requires RunInv(c, s) && s.t < tEnd - EPS
    ensures var s1 := Apply(c, s, Turn(tEnd, idle));
            && !Iterate(c, s, tEnd, idle).Stalled? && s1 == Iterate(c, s, tEnd, idle).s
            && StepTo(c, s, tEnd, idle) == (if Iterate(c, s, tEnd, idle).Advanced? then StepTo(c, s1, tEnd, idle) else s1)
            && (Iterate(c, s, tEnd, idle).Advanced? ==> Measure(c, s1) < Measure(c, s))
  {
    IterateKeeps(c, s, tEnd, idle);
    hide SimInv, Measure, QuietUntil, Iterate;
  }

  /** Advancing to tEnd takes at most as many turns of the loop as the measure counts, and one to end it. */
  lemma {:induction false} StepToTurns(c: SimConfig, s: Sim, tEnd: real, idle: bool) returns (ts: seq<Action>)
    requires RunInv(c, s)
    ensures OnlyTurns(ts) && ApplyAll(c, s, ts) == StepTo(c, s, tEnd, idle) && |ts| <= Measure(c, s) + 1
    decreases Measure(c, s)
  {
    hide RunInv, Measure, QuietUntil, Iterate, OnlyTurns;
    NoTurns();
    ts := [];
    if s.t < tEnd - EPS {
      StepToUnfold(c, s, tEnd, idle);
      hide StepTo, Apply;
      var s1 := Apply(c, s, Turn(tEnd, idle));
      if Iterate(c, s, tEnd, idle).Advanced? {
        ts := StepToTurns(c, s1, tEnd, idle);
      }
      TurnThen(c, s, Turn(tEnd, idle), ts);
      ts := [Turn(tEnd, idle)] + ts;
    }
  }

  lemma NoTurns()
    ensures OnlyTurns([])
  {}

  lemma {:induction false} DrainTurns(c: SimConfig, s: Sim, tCap: real) returns (ts: seq<Action>)
    requires RunInv(c, s)
    ensures OnlyTurns(ts) && ApplyAll(c, s, ts) == DrainAll(c, s, tCap)
    decreases Measure(c, s)
  {
    hide RunInv, Measure, QuietUntil;
    if s.t < tCap && HasWork(s.pool.reps) {
      ts := StepToTurns(c, s, tCap, false);
      hide StepTo, ApplyAll, HasWork;
      var s1 := StepTo(c, s, tCap, false);
      if s1.t > s.t + DRAIN_EPS {
        var rest := DrainTurns(c, s1, tCap);
        ApplyAppend(c, s, ts, rest);
        ts := ts + rest;
      }
    } else {
      ts := [];
    }
  }

  /** Every action but a rescale is a sequence of turns of the event loop. */
  lemma {:induction false} AsTurns(c: SimConfig, s: Sim, a: Action) returns (ts: seq<Action>)
    requires RunInv(c, s) && !a.Scale?
    ensures OnlyTurns(ts) && ApplyAll(c, s, ts) == Apply(c, s, a)
  {
    hide RunInv, Measure, QuietUntil;
    match a
    case Turn(tEnd, idle) =>
      ts := [a];
      assert [a][1..] == [];
    case Advance(tEnd, idle) => ts := StepToTurns(c, s, tEnd, idle);
    case Drain(tCap) => ts := DrainTurns(c, s, tCap);
  }
}
