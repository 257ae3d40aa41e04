/** Draining past the horizon: a drain is a run of events and nothing else, what it bills, and exactly when it is
    cut short. */
module DrainRuns {
  import opened Requests
  import opened ReplicaEngines
  import opened ReplicaPool
  import opened Simulator
  import opened SimulatorInvariant
  import opened SimulatorRuns
  import opened Draining

  // ---- events and nothing else ----------------------------------------------------------------------------------

  /** The state after the next event of the loop. */
  function NextTurn(c: SimConfig, s: Sim): (s': Sim)
    requires RunInv(c, s) && NextEvent(s).At?
    ensures RunInv(c, s') && s'.trace == s.trace && s.t < s'.t == EventTime(c, s) && Measure(c, s') < Measure(c, s)
  {
    NoEarlier(c, s);
    EventAhead(c, s);
    var n := if NextEvent(s).t <= s.t then 1 else 0;
    EventProgress(c, s, n, EventTime(c, s));
    hide SimInv, Measure, Productive, BeforeClocks, Event, NextEvent, EventTime;
    Event(c, s.(stalls := n), EventTime(c, s))
  }

  /** The state n events later, or when the events run out. */
  function After(c: SimConfig, s: Sim, n: nat): (s': Sim)
    requires RunInv(c, s)
    ensures RunInv(c, s') && s'.trace == s.trace && s.t <= s'.t
    decreases n
  {
    if n == 0 || NextEvent(s).Never? then s
    else
      hide RunInv, NextTurn, NextEvent, Measure, EventTime;
      After(c, NextTurn(c, s), n - 1)
  }

  /** At least n more events come by tCap, and at the time of each an arrival, a boot or a service clock is due. */
  ghost predicate EventsBy(c: SimConfig, s: Sim, n: nat, tCap: real)
    requires RunInv(c, s)
    decreases n
  {
    n == 0 || (NextEvent(s).At? && NextEvent(s).t <= tCap && Productive(s, EventTime(c, s))
               && EventsBy(c, NextTurn(c, s), n - 1, tCap))
  }

  /** Replica-seconds of the next n events: each lasts from the event before it, for every replica that exists. */
  function EventBill(c: SimConfig, s: Sim, n: nat): real
    requires RunInv(c, s)
    decreases n
  {
    if n == 0 || NextEvent(s).Never? then 0.0
    else Times(EventTime(c, s) - s.t, |s.pool.reps|) + EventBill(c, NextTurn(c, s), n - 1)
  }

  /** A turn that advances is the next event. */
  lemma {:induction false} TurnIsNext(c: SimConfig, s: Sim, tEnd: real, idle: bool)
    requires RunInv(c, s) && Iterate(c, s, tEnd, idle).Advanced?
    ensures NextEvent(s).At? && NextEvent(s).t <= tEnd && Productive(s, EventTime(c, s))
    ensures Iterate(c, s, tEnd, idle).s == NextTurn(c, s)
  {
    EventBy(c, s, tEnd, idle);
    NoEarlier(c, s);
    EventAhead(c, s);
    hide SimInv, Productive, BeforeClocks, Event, NextEvent, EventTime, Iterate;
    IterateIsEvent(c, s, tEnd, idle);
  }

  lemma EventBy(c: SimConfig, s: Sim, tEnd: real, idle: bool)
    requires Iterate(c, s, tEnd, idle).Advanced?
    ensures NextEvent(s).At? && NextEvent(s).t <= tEnd
  {}

  lemma StaysPut(c: SimConfig, s: Sim, tEnd: real)
    requires Iterate(c, s, tEnd, false).Returned?
    ensures Iterate(c, s, tEnd, false).s == s
  {}

  lemma {:induction false} AfterAdd(c: SimConfig, s: Sim, n: nat, k: nat, tCap: real)
    requires RunInv(c, s) && EventsBy(c, s, n, tCap) && EventsBy(c, After(c, s, n), k, tCap)
    ensures After(c, s, n + k) == After(c, After(c, s, n), k) && EventsBy(c, s, n + k, tCap)
    decreases n
  {
    hide RunInv, NextTurn, NextEvent, Measure, EventTime, Productive;
    if n > 0 { AfterAdd(c, NextTurn(c, s), n - 1, k, tCap); }
  }

  lemma {:induction false} StepToEvents(c: SimConfig, s: Sim, tEnd: real) returns (n: nat)
    requires RunInv(c, s)
    ensures StepTo(c, s, tEnd, false) == After(c, s, n) && EventsBy(c, s, n, tEnd)
    decreases Measure(c, s)
  {
    hide RunInv, Measure, QuietUntil, Iterate, NextEvent, NextTurn, EventTime, Productive;
    n := 0;
    if s.t < tEnd - EPS {
      StepToUnfold(c, s, tEnd, false);
      hide StepTo;
      if Iterate(c, s, tEnd, false).Advanced? {
        TurnIsNext(c, s, tEnd, false);
        n := StepToEvents(c, NextTurn(c, s), tEnd);
        n := n + 1;
      } else {
        StaysPut(c, s, tEnd);
      }
    }
  }

  lemma {:induction false} DrainEvents(c: SimConfig, s: Sim, tCap: real) returns (n: nat)
    requires RunInv(c, s)
    ensures DrainAll(c, s, tCap) == After(c, s, n) && EventsBy(c, s, n, tCap)
    decreases Measure(c, s)
  {
    hide RunInv, Measure, QuietUntil, HasWork, After, EventsBy;
    n := 0;
    NoEvents(c, s, tCap);
    if s.t < tCap && HasWork(s.pool.reps) {
      n := StepToEvents(c, s, tCap);
      var s1 := StepTo(c, s, tCap, false);
      hide StepTo;
      if s1.t > s.t + DRAIN_EPS {
        var k := DrainEvents(c, s1, tCap);
        AfterAdd(c, s, n, k, tCap);
        n := n + k;
      }
    }
  }

  lemma NoEvents(c: SimConfig, s: Sim, tCap: real)
    requires RunInv(c, s)
    ensures After(c, s, 0) == s && EventsBy(c, s, 0, tCap)
  {}

  // ---- the bill ---------------------------------------------------------------------------------------------------

  lemma {:induction false} EventBilled(c: SimConfig, s: Sim, t: real)
    requires SimInv(c, s) && s.t < t && BeforeClocks(s, t)
    ensures Event(c, s, t).pool.replicaSeconds == s.pool.replicaSeconds + Times(t - s.t, |s.pool.reps|)
  {
    JumpKeeps(c, s, t);
    DispatchPool(c, Jump(s, t), s.t);
    EventMoney(c, s, t);
    JumpMoney(c, s, t);
    hide SimInv, MidInv, BeforeClocks, Jump, DispatchDue, Event, Times;
  }

  lemma EventMoney(c: SimConfig, s: Sim, t: real)
    ensures Event(c, s, t).pool.replicaSeconds == DispatchDue(c, Jump(s, t)).pool.replicaSeconds
  {
    hide DispatchDue, Jump, Kept, Released, AnyDraining;
  }

  lemma JumpMoney(c: SimConfig, s: Sim, t: real)
    requires SimInv(c, s) && s.t < t
    ensures Jump(s, t).pool.replicaSeconds == s.pool.replicaSeconds + Times(t - s.t, |s.pool.reps|)
  {
    hide EnginesOk, TraceOk, Conserved, Times, LiveSeconds, RetiredSeconds, InOrder, LiveOk, RetiredOk;
  }

  lemma {:induction false} NextTurnIsEvent(c: SimConfig, s: Sim) returns (s1: Sim)
    requires RunInv(c, s) && NextEvent(s).At?
    ensures s1 == s.(stalls := s1.stalls) && SimInv(c, s1) && s.t < EventTime(c, s)
    ensures BeforeClocks(s1, EventTime(c, s)) && NextTurn(c, s) == Event(c, s1, EventTime(c, s))
  {
    NoEarlier(c, s);
    EventAhead(c, s);
    var n := if NextEvent(s).t <= s.t then 1 else 0;
    StallsIrrelevant(c, s, n, EventTime(c, s));
    hide SimInv, Measure, Productive, BeforeClocks, Event, NextEvent, EventTime;
    s1 := s.(stalls := n);
  }

  lemma {:induction false} TurnBilled(c: SimConfig, s: Sim)
    requires RunInv(c, s) && NextEvent(s).At?
    ensures NextTurn(c, s).pool.replicaSeconds
            == s.pool.replicaSeconds + Times(EventTime(c, s) - s.t, |s.pool.reps|)
  {
    hide RunInv, SimInv, NextTurn, BeforeClocks, Event, NextEvent, EventTime, Times;
    var s1 := NextTurnIsEvent(c, s);
    EventBilled(c, s1, EventTime(c, s));
  }

  lemma {:induction false} EventsBilled(c: SimConfig, s: Sim, n: nat)
    requires RunInv(c, s)
    ensures After(c, s, n).pool.replicaSeconds == s.pool.replicaSeconds + EventBill(c, s, n)
    decreases n
  {
    hide RunInv, NextTurn, NextEvent, Measure, EventTime, Times;
    if n > 0 && NextEvent(s).At? {
      TurnBilled(c, s);
      EventsBilled(c, NextTurn(c, s), n - 1);
    }
  }

  lemma {:induction false} EventsCount(c: SimConfig, s: Sim, n: nat, tCap: real)
    requires RunInv(c, s) && EventsBy(c, s, n, tCap)
    ensures Measure(c, After(c, s, n)) + n <= Measure(c, s)
    decreases n
  {
    hide RunInv, NextTurn, NextEvent, Measure, EventTime, Productive;
    if n > 0 { EventsCount(c, NextTurn(c, s), n - 1, tCap); }
  }

  /** A drain is some number of events, at each of which something is due; it stops the clock at the last of them
      and bills exactly the time up to it. No idle time is billed, neither between events nor after the last. */
  lemma {:induction false} DrainStopsAtEvent(c: SimConfig, s: Sim, tCap: real) returns (n: nat)
    requires RunInv(c, s)
    ensures DrainAll(c, s, tCap) == After(c, s, n) && EventsBy(c, s, n, tCap) && n <= Measure(c, s)
    ensures DrainAll(c, s, tCap).pool.replicaSeconds == s.pool.replicaSeconds + EventBill(c, s, n)
    ensures n > 0 ==>
              var last := After(c, s, n - 1);
              && NextEvent(last).At? && Productive(last, EventTime(c, last)) && DrainAll(c, s, tCap) == NextTurn(c, last)
              && DrainAll(c, s, tCap).t == EventTime(c, last)
  {
    n := DrainEvents(c, s, tCap);
    EventsBilled(c, s, n);
    EventsCount(c, s, n, tCap);
    hide RunInv, DrainAll, NextEvent, Measure, EventTime, Productive, EventBill;
    if n > 0 { LastEvent(c, s, n, tCap); }
  }

  lemma {:induction false} LastEvent(c: SimConfig, s: Sim, n: nat, tCap: real)
    requires RunInv(c, s) && n > 0 && EventsBy(c, s, n, tCap)
    ensures var last := After(c, s, n - 1);
            && NextEvent(last).At? && NextEvent(last).t <= tCap && Productive(last, EventTime(c, last))
            && After(c, s, n) == NextTurn(c, last)
    decreases n
  {
    hide RunInv, NextTurn, NextEvent, Measure, EventTime, Productive;
    if n > 1 { LastEvent(c, NextTurn(c, s), n - 1, tCap); }
  }

  // ---- draining past the horizon ------------------------------------------------------------------------------------

  /** A drain ends because no work is left, because the clock is at the cap, or because nothing more happens
      by the cap. */
  lemma {:induction false} DrainEnds(c: SimConfig, s: Sim, tCap: real)
    requires RunInv(c, s)
    ensures var s' := DrainAll(c, s, tCap);
            !HasWork(s'.pool.reps) || s'.t >= tCap - EPS || QuietUntil(s', tCap)
    decreases Measure(c, s)
  {
    hide RunInv, Measure, QuietUntil, HasWork;
    if s.t < tCap && HasWork(s.pool.reps) {
      var s1 := StepTo(c, s, tCap, false);
      hide StepTo;
      if s1.t > s.t + DRAIN_EPS { DrainEnds(c, s1, tCap); }
    }
  }

  /** A batch whose next event lies beyond tCap. */
  ghost predicate RunsBeyond(reps: seq<Rep>, tCap: real) {
    exists i :: 0 <= i < |reps| && reps[i].eng.running != [] && reps[i].eng.next.At? && reps[i].eng.next.t > tCap
  }

  lemma QueueHasBatch(m: Model, e: Engine, t: real)
    requires Inv(m, e, t) && AdmissionMaximal(m, e) && e.slot != []
    ensures e.running != []
  {
    if m.Llm? { assert e.slot[0] in e.slot; }
  }

  /** When the next service event lies beyond tCap, so does the clock of any batch. */
  lemma {:induction false} QuietRunning(c: SimConfig, s: Sim, tCap: real, i: nat)
    requires SimInv(c, s) && QuietUntil(s, tCap) && i < |s.pool.reps| && s.pool.reps[i].eng.running != []
    ensures RunsBeyond(s.pool.reps, tCap)
  {
    var a, b, d := NextArrival(s), NextReady(s.pool.reps, s.t), NextStep(s.pool.reps, s.t);
    MinClockFacts(a, b);
    MinClockFacts(MinClock(a, b), d);
    StepAhead(c.model, s.pool.reps, s.t);
    hide PoolInv, TraceOk, Conserved, RepOk, Inv, StepDue, NextReady, NextStep, MinClock;
  }

  lemma {:induction false} WorkMeansBatch(c: SimConfig, s: Sim) returns (i: nat)
    requires SimInv(c, s) && Settled(c.model, s.pool.reps) && HasWork(s.pool.reps)
    ensures i < |s.pool.reps| && s.pool.reps[i].eng.running != []
  {
    hide PoolInv, TraceOk, Conserved, Inv, AdmissionMaximal;
    i :| 0 <= i < |s.pool.reps| && s.pool.reps[i].eng.HasWork();
    if s.pool.reps[i].eng.running == [] {
      assert RepOk(c.model, s.pool.reps[i], s.t);
      QueueHasBatch(c.model, s.pool.reps[i].eng, s.t);
    }
  }

  /** When the clock has reached tCap, the next event of any batch lies beyond it. */
  lemma RunningBeyond(c: SimConfig, s: Sim, tCap: real, i: nat)
    requires SimInv(c, s) && s.t >= tCap && i < |s.pool.reps| && s.pool.reps[i].eng.running != []
    ensures RunsBeyond(s.pool.reps, tCap)
  {
    assert RepOk(c.model, s.pool.reps[i], s.t);
    hide PoolInv, TraceOk, Conserved, RepOk, Inv;
    RunningAhead(c.model, s.pool.reps[i], s.t);
  }

  /** In a run that never scales down, a drain past the horizon is cut short exactly when a running batch has
      its next event beyond the cap. No queued request is ever stranded. */
  lemma {:induction false} DrainCutOnlyByCap(c: SimConfig, trace: seq<Req>, acts: seq<Action>, tCap: real)
    requires TraceOk(c.model, trace)
    requires RunInv(c, Begin(c, trace)) && NeverScalesDown(c, Begin(c, trace), acts)
    ensures var reps := DrainAll(c, Reached(c, trace, acts), tCap).pool.reps;
            HasWork(reps) <==> RunsBeyond(reps, tCap - EPS)
  {
    hide TraceOk, SimInv, Settled, DrainAll, QuietUntil, Begin, ApplyAll;
    var s := Reached(c, trace, acts);
    BeginSettled(c, trace);
    RunSettles(c, Begin(c, trace), acts);
    ActionSettles(c, s, Drain(tCap));
    DrainEnds(c, s, tCap);
    var s' := DrainAll(c, s, tCap);
    if HasWork(s'.pool.reps) {
      var i := WorkMeansBatch(c, s');
      if s'.t >= tCap - EPS {
        RunningBeyond(c, s', tCap - EPS, i);
      } else {
        QuietRunning(c, s', tCap, i);
      }
    }
  }

  // ---- when a drain is cut short, in any run ---------------------------------------------------------------------------

  /** Nothing admissible waits on a replica that may admit. */
  ghost predicate Maximal(m: Model, reps: seq<Rep>) {
    forall i :: 0 <= i < |reps| && !reps[i].draining ==> AdmissionMaximal(m, reps[i].eng)
  }

  /** Some draining replica will not finish what it holds. */
  ghost predicate Doomed(m: Model, reps: seq<Rep>) {
    exists i :: 0 <= i < |reps| && reps[i].draining && !CanFinish(m, reps[i].eng)
  }

  /** A replica that was revived has not been served since: it accepts, and holds a queue but no batch. */
  ghost predicate Unserved(reps: seq<Rep>) {
    exists i :: 0 <= i < |reps| && !reps[i].draining && reps[i].eng.slot != [] && reps[i].eng.running == []
  }

  /** The loop finds nothing to do by tEnd. */
  ghost predicate NothingBy(s: Sim, tEnd: real) { s.t >= tEnd - EPS || QuietUntil(s, tEnd) }

  lemma EmptyQueueMaximal(m: Model, e: Engine)
    requires e.slot == []
    ensures AdmissionMaximal(m, e)
  {}

  lemma {:induction false} EventMaximal(c: SimConfig, s: Sim, t: real)
    requires SimInv(c, s) && s.t < t && BeforeClocks(s, t)
    ensures Maximal(c.model, Event(c, s, t).pool.reps)
  {
    hide PoolInv, TraceOk, Conserved, Inv, BeforeClocks, Event, AdmissionMaximal, Measure, Productive;
    EventKeeps(c, s, t);
    var s' := Event(c, s, t);
    forall i | 0 <= i < |s'.pool.reps| && !s'.pool.reps[i].draining
      ensures AdmissionMaximal(c.model, s'.pool.reps[i].eng)
    {
      var r := s'.pool.reps[i];
      assert RepOk(c.model, r, t);
      AliveInPool(c, s', i);
      if r.Serving(t) { AdmissionMaximalAfterEvent(c, s, t, r); } else { EmptyQueueMaximal(c.model, r.eng); }
    }
  }

  /** No event decides whether a draining replica will finish: that was decided before. */
  lemma {:induction false} EventDoomed(c: SimConfig, s: Sim, t: real)
    requires SimInv(c, s) && s.t < t && BeforeClocks(s, t)
    ensures Doomed(c.model, Event(c, s, t).pool.reps) <==> Doomed(c.model, s.pool.reps)
  {
    hide SimInv, BeforeClocks, Served, Event, AnyDraining, CanFinish, Kept;
    EventReps(c, s, t);
    EventProspects(c, s, t);
    var reps := Served(c, s, t);
    assert Doomed(c.model, reps) <==> Doomed(c.model, s.pool.reps);
    KeptDoomed(c.model, reps);
  }

  lemma {:induction false} KeptDoomed(m: Model, reps: seq<Rep>)
    ensures Doomed(m, Kept(reps)) <==> Doomed(m, reps)
  {
    forall r ensures Releasable(r) ==> CanFinish(m, r.eng) { if Releasable(r) { IdleFinish(m, r.eng); } }
    hide CanFinish, Releasable;
    if Doomed(m, reps) {
      var i :| 0 <= i < |reps| && reps[i].draining && !CanFinish(m, reps[i].eng);
      var k := KeptIndex(reps, i);
    }
    if Doomed(m, Kept(reps)) {
      var k :| 0 <= k < |Kept(reps)| && Kept(reps)[k].draining && !CanFinish(m, Kept(reps)[k].eng);
      assert Kept(reps)[k] in reps;
    }
  }

  lemma {:induction false} TurnDecides(c: SimConfig, s: Sim)
    requires RunInv(c, s) && NextEvent(s).At?
    ensures Maximal(c.model, NextTurn(c, s).pool.reps)
    ensures Doomed(c.model, NextTurn(c, s).pool.reps) <==> Doomed(c.model, s.pool.reps)
  {
    var s1 := NextTurnIsEvent(c, s);
    hide RunInv, SimInv, NextTurn, BeforeClocks, Event, NextEvent, EventTime, Maximal, Doomed;
    EventMaximal(c, s1, EventTime(c, s));
    EventDoomed(c, s1, EventTime(c, s));
  }

  lemma {:induction false} EventsDecide(c: SimConfig, s: Sim, n: nat, tCap: real)
    requires RunInv(c, s) && EventsBy(c, s, n, tCap)
    ensures n > 0 ==> Maximal(c.model, After(c, s, n).pool.reps)
    ensures Doomed(c.model, After(c, s, n).pool.reps) <==> Doomed(c.model, s.pool.reps)
    decreases n
  {
    hide RunInv, NextTurn, NextEvent, Measure, EventTime, Productive, Maximal, Doomed;
    if n > 0 {
      TurnDecides(c, s);
      EventsDecide(c, NextTurn(c, s), n - 1, tCap);
    }
  }

  /** What is left when the loop finds nothing more to do by tCap is a batch with its event beyond it, a queue on a
      draining replica, or a queue that a revival has just given back. */
  lemma {:induction false} WhatIsLeft(c: SimConfig, s: Sim, tCap: real)
    requires RunInv(c, s) && NothingBy(s, tCap)
    ensures HasWork(s.pool.reps)
            <==> RunsBeyond(s.pool.reps, tCap - EPS) || Doomed(c.model, s.pool.reps) || Unserved(s.pool.reps)
  {
    var reps := s.pool.reps;
    hide SimInv, QuietUntil, CanFinish;
    if HasWork(reps) {
      var i :| 0 <= i < |reps| && reps[i].eng.HasWork();
      if reps[i].eng.running != [] {
        if s.t >= tCap - EPS { RunningBeyond(c, s, tCap - EPS, i); } else { QuietRunning(c, s, tCap, i); }
      } else {
        IdleFinish(c.model, reps[i].eng);
      }
    }
    if Doomed(c.model, reps) {
      var i :| 0 <= i < |reps| && reps[i].draining && !CanFinish(c.model, reps[i].eng);
      if !reps[i].eng.HasWork() { IdleFinish(c.model, reps[i].eng); }
    }
  }

  lemma {:induction false} MaximalServes(c: SimConfig, s: Sim)
    requires RunInv(c, s) && Maximal(c.model, s.pool.reps)
    ensures !Unserved(s.pool.reps)
  {
    hide PoolInv, TraceOk, Conserved, Inv, AdmissionMaximal;
    if Unserved(s.pool.reps) {
      var i :| 0 <= i < |s.pool.reps| && !s.pool.reps[i].draining && s.pool.reps[i].eng.slot != []
               && s.pool.reps[i].eng.running == [];
      assert RepOk(c.model, s.pool.reps[i], s.t);
      QueueHasBatch(c.model, s.pool.reps[i].eng, s.t);
    }
  }

  lemma {:induction false} NothingMoves(c: SimConfig, s: Sim, tCap: real)
    requires RunInv(c, s) && NothingBy(s, tCap)
    ensures DrainAll(c, s, tCap) == s && StepTo(c, s, tCap, false) == s
  {
    hide RunInv, Measure, HasWork, Event;
    if s.t < tCap - EPS { StepToUnfold(c, s, tCap, false); }
  }

  lemma {:induction false} SomethingMoves(c: SimConfig, s: Sim, tCap: real)
    requires RunInv(c, s) && !NothingBy(s, tCap) && HasWork(s.pool.reps)
    ensures DrainAll(c, s, tCap).t > s.t
  {
    hide RunInv, Measure, HasWork, NextEvent;
  }

  /** A drain is cut short, in any run and from any state, exactly when a batch is left whose next event lies beyond
      the cap, or when it was bound to be from the start: a replica drains that cannot finish what it holds, or a
      revived replica waits for an event that does not come by the cap. */
  lemma {:induction false} DrainTruncatedExactly(c: SimConfig, s: Sim, tCap: real)
    requires RunInv(c, s)
    ensures var reps := DrainAll(c, s, tCap).pool.reps;
            HasWork(reps) <==> || RunsBeyond(reps, tCap - EPS)
                               || Doomed(c.model, s.pool.reps)
                               || (NothingBy(s, tCap) && Unserved(s.pool.reps))
  {
    hide RunInv, Measure, QuietUntil, RunsBeyond, Doomed, Unserved, EventsBy, After;
    if NothingBy(s, tCap) {
      NothingMoves(c, s, tCap);
      WhatIsLeft(c, s, tCap);
    } else {
      var s' := DrainAll(c, s, tCap);
      var n := DrainEvents(c, s, tCap);
      EventsDecide(c, s, n, tCap);
      DrainEnds(c, s, tCap);
      if HasWork(s.pool.reps) {
        SomethingMoves(c, s, tCap);
        NoEvents(c, s, tCap);
        assert n > 0;
        MaximalServes(c, s');
        if HasWork(s'.pool.reps) { WhatIsLeft(c, s', tCap); }
      }
      LeftIsWork(c.model, s'.pool.reps, tCap - EPS);
    }
  }

  /** A batch left, or a draining replica that cannot finish, is work. */
  lemma {:induction false} LeftIsWork(m: Model, reps: seq<Rep>, tCap: real)
    ensures RunsBeyond(reps, tCap) || Doomed(m, reps) ==> HasWork(reps)
  {
    hide CanFinish;
    if Doomed(m, reps) {
      var i :| 0 <= i < |reps| && reps[i].draining && !CanFinish(m, reps[i].eng);
      if !reps[i].eng.HasWork() { IdleFinish(m, reps[i].eng); }
    }
  }

  // ---- revival ------------------------------------------------------------------------------------------------------

  lemma {:induction false} StepToMaximal(c: SimConfig, s: Sim, tEnd: real, idle: bool)
    requires RunInv(c, s) && (Maximal(c.model, s.pool.reps) || !NothingBy(s, tEnd))
    ensures Maximal(c.model, StepTo(c, s, tEnd, idle).pool.reps)
    decreases Measure(c, s)
  {
    hide RunInv, Measure, Iterate, NextEvent, NextTurn, EventTime, Productive, Maximal;
    if s.t < tEnd - EPS {
      StepToUnfold(c, s, tEnd, idle);
      hide StepTo;
      if Iterate(c, s, tEnd, idle).Advanced? {
        TurnIsNext(c, s, tEnd, idle);
        TurnDecides(c, s);
        StepToMaximal(c, NextTurn(c, s), tEnd, idle);
      } else {
        CoastsOnly(c, s, tEnd, idle);
      }
    }
  }

  lemma CoastsOnly(c: SimConfig, s: Sim, tEnd: real, idle: bool)
    requires Iterate(c, s, tEnd, idle).Returned?
    ensures QuietUntil(s, tEnd) && Iterate(c, s, tEnd, idle).s.pool.reps == s.pool.reps
  {}

  /** Reviving a replica is not enough to serve the queue it kept: advancing serves every such queue if an event
      comes by the end time, and leaves every replica as it was if none does. */
  lemma {:induction false} RevivalServedExactly(c: SimConfig, s: Sim, tEnd: real, idle: bool)
    requires RunInv(c, s)
    ensures var reps := StepTo(c, s, tEnd, idle).pool.reps;
            && (Unserved(reps) <==> NothingBy(s, tEnd) && Unserved(s.pool.reps))
            && (NothingBy(s, tEnd) ==> reps == s.pool.reps)
            && (!NothingBy(s, tEnd) ==> Maximal(c.model, reps))
  {
    hide RunInv, Measure, Iterate, QuietUntil, Maximal, Unserved;
    if NothingBy(s, tEnd) {
      if s.t < tEnd - EPS {
        StepToUnfold(c, s, tEnd, idle);
        QuietCoasts(c, s, tEnd, idle);
      }
    } else {
      StepToMaximal(c, s, tEnd, idle);
      MaximalServes(c, StepTo(c, s, tEnd, idle));
    }
  }

  lemma QuietCoasts(c: SimConfig, s: Sim, tEnd: real, idle: bool)
    requires QuietUntil(s, tEnd)
    ensures Iterate(c, s, tEnd, idle).Returned? && Iterate(c, s, tEnd, idle).s.pool.reps == s.pool.reps
  {}

  // ---- what events do to the size of the pool ---------------------------------------------------------------------------

  lemma {:induction false} KeptSize(reps: seq<Rep>)
    ensures |Kept(reps)| <= |reps|
  {
    if reps != [] { KeptSize(reps[1..]); }
  }

  /** An event changes no target and boots nothing. */
  lemma {:induction false} EventPool(c: SimConfig, s: Sim, t: real)
    requires SimInv(c, s) && s.t < t && BeforeClocks(s, t)
    ensures Event(c, s, t).pool.target == s.pool.target && |Event(c, s, t).pool.reps| <= |s.pool.reps|
  {
    EventSize(c, s, t);
    EventReps(c, s, t);
    KeptSize(Served(c, s, t));
    JumpKeeps(c, s, t);
    DispatchPool(c, Jump(s, t), s.t);
    hide SimInv, MidInv, BeforeClocks, DispatchDue, Served, Kept, Released, AnyDraining;
  }

  lemma {:induction false} TurnPool(c: SimConfig, s: Sim, a: Action)
    requires RunInv(c, s) && a.Turn?
    ensures Apply(c, s, a).pool.target == s.pool.target && |Apply(c, s, a).pool.reps| <= |s.pool.reps|
  {
    hide RunInv, Event, NextEvent, BeforeClocks, Measure;
    if s.t < a.tEnd - EPS {
      if NextEvent(s).At? && NextEvent(s).t <= a.tEnd {
        var s1, t := AsEvent(c, s, a.tEnd, a.idle);
        EventPool(c, s1, t);
      }
    }
  }

  lemma {:induction false} TurnsPool(c: SimConfig, s: Sim, ts: seq<Action>)
    requires RunInv(c, s) && OnlyTurns(ts)
    ensures ApplyAll(c, s, ts).pool.target == s.pool.target && |ApplyAll(c, s, ts).pool.reps| <= |s.pool.reps|
    decreases |ts|
  {
    hide RunInv, Apply;
    if ts != [] {
      TurnPool(c, s, ts[0]);
      TurnsPool(c, Apply(c, s, ts[0]), ts[1..]);
    }
  }
}
