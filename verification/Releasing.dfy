/** Releasing drained replicas: as soon as an event leaves them without work, and nothing else ever. */
module Releasing {
  import opened Requests
  import opened ReplicaEngines
  import opened ReplicaPool
  import opened Simulator
  import opened SimulatorInvariant
  import opened SimulatorRuns
  import opened RequestHistory
  import opened Draining
  import opened DrainRuns
  import opened ReachableStates
  import L = LlmServing
  import R = RequestService

  /** After an event no replica drains without work. */
  lemma {:induction false} NoneDrainsIdle(c: SimConfig, s: Sim, t: real, r: Rep)
    requires SimInv(c, s) && s.t < t && BeforeClocks(s, t)
    requires r in Event(c, s, t).pool.reps && r.draining
    ensures r.eng.running != [] || r.eng.slot != []
  {
    hide SimInv, BeforeClocks, Served, Event, AdmissionMaximal;
    EventReps(c, s, t);
    EventSize(c, s, t);
    if !AnyDraining(s.pool.reps) {
      var i :| 0 <= i < |Served(c, s, t)| && Served(c, s, t)[i] == r;
      EventQueues(c, s, t, i);
      AliveInPool(c, s, i);
      SomeDrains(s.pool.reps, i);
    }
  }

  lemma {:induction false} SomeDrains(reps: seq<Rep>, i: nat)
    requires i < |reps| && reps[i].Alive() && reps[i].draining
    ensures AnyDraining(reps)
  {
    if i > 0 { SomeDrains(reps[1..], i - 1); }
  }

  /** A replica with this identity is among reps. */
  ghost predicate Present(reps: seq<Rep>, rid: nat) { exists k :: 0 <= k < |reps| && reps[k].rid == rid }

  /** The replica rid was released at t, when it drained and held nothing. */
  ghost predicate ReleasedAt(retired: seq<Rep>, rid: nat, t: real) {
    exists k :: 0 <= k < |retired| && retired[k].rid == rid && retired[k].tReleased == Some(t)
                && retired[k].draining && retired[k].eng.running == [] && retired[k].eng.slot == []
  }

  lemma {:induction false} ReleasedHas(reps: seq<Rep>, t: real, i: nat)
    requires i < |reps| && reps[i].draining && !reps[i].eng.HasWork()
    ensures reps[i].(tReleased := Some(t)) in Released(reps, t)
  {
    if i > 0 { ReleasedHas(reps[1..], t, i - 1); }
  }

  lemma EventRetired(c: SimConfig, s: Sim, t: real)
    requires SimInv(c, s) && s.t < t && BeforeClocks(s, t)
    ensures Event(c, s, t).pool.retired
            == s.pool.retired + if AnyDraining(s.pool.reps) then Released(Served(c, s, t), t) else []
  {
    hide SimInv, MidInv, BeforeClocks, DispatchDue, Jump, Released, Kept, AnyDraining, SameBatches, Measure;
    JumpKeeps(c, s, t);
    JumpSame(s, t);
    DispatchDueKeeps(c, Jump(s, t), s.t);
    EventShape(c, s, t);
  }

  /** Every replica of the pool is still there after an event, or it drained, held nothing, and was released at it. */
  lemma {:induction false} OnlyIdleReleased(c: SimConfig, s: Sim, t: real, i: nat)
    requires SimInv(c, s) && s.t < t && BeforeClocks(s, t) && i < |s.pool.reps|
    ensures var e, rid := Event(c, s, t), s.pool.reps[i].rid;
            Present(e.pool.reps, rid) || (s.pool.reps[i].draining && ReleasedAt(e.pool.retired, rid, t))
  {
    hide SimInv, BeforeClocks, Served, Event, AdmissionMaximal, Released;
    EventReps(c, s, t);
    EventSize(c, s, t);
    EventRetired(c, s, t);
    EventQueues(c, s, t, i);
    var out, e := Served(c, s, t), Event(c, s, t);
    if AnyDraining(s.pool.reps) {
      if out[i].draining && !out[i].eng.HasWork() {
        ReleasedHas(out, t, i);
        var x := out[i].(tReleased := Some(t));
        assert x in e.pool.retired;
        var k :| 0 <= k < |e.pool.retired| && e.pool.retired[k] == x;
      } else {
        var k := KeptIndex(out, i);
      }
    } else {
      assert e.pool.reps[i].rid == s.pool.reps[i].rid;
    }
  }

  /** After an event at t exactly the requests that arrive by t, or within the event tolerance of it, have been
      dispatched. */
  lemma {:induction false} EventDispatches(c: SimConfig, s: Sim, t: real, i: nat)
    requires SimInv(c, s) && s.t < t && BeforeClocks(s, t) && i < |s.trace|
    ensures i < Event(c, s, t).arrivalI <==> s.trace[i].tArrival <= t + 0.000000001
  {
    EventKeeps(c, s, t);
    hide SimInv, MidInv, BeforeClocks, DispatchDue, Jump, Kept, AnyDraining, SameBatches, Measure, ServePool;
    JumpKeeps(c, s, t);
    JumpSame(s, t);
    DispatchDueKeeps(c, Jump(s, t), s.t);
    var e := Event(c, s, t);
    assert e.t == t && e.trace == s.trace && !ArrivalDue(e);
    hide Event;
    DueInTime(c, e, i);
  }

  lemma {:induction false} DueInTime(c: SimConfig, s: Sim, i: nat)
    requires SimInv(c, s) && s.t > 0.0 && !ArrivalDue(s) && i < |s.trace|
    ensures i < s.arrivalI <==> s.trace[i].tArrival <= s.t + 0.000000001
  {
    hide PoolInv, EnginesOk, HeldMs;
    if i < s.arrivalI {
      TraceSorted(c.model, s.trace, i, s.arrivalI - 1);
    } else {
      TraceSorted(c.model, s.trace, s.arrivalI, i);
    }
    hide TraceOk;
  }

  // ---- a replica drained idle --------------------------------------------------------------------------------------

  lemma {:induction false} IdleServes(m: Model, e: Engine, t: real)
    requires e.running == [] && e.slot == []
    ensures Serve(m, e, t).running == [] && Serve(m, e, t).slot == []
  {
    hide R.MinLeft, R.Rate, L.StepTime;
  }

  lemma {:induction false} IdleStaysIdle(c: SimConfig, s: Sim, t: real, i: nat)
    requires SimInv(c, s) && s.t < t && BeforeClocks(s, t)
    requires i < |s.pool.reps| && s.pool.reps[i].draining && !s.pool.reps[i].eng.HasWork()
    ensures |Served(c, s, t)| == |s.pool.reps| && !Served(c, s, t)[i].eng.HasWork()
  {
    hide SimInv, MidInv, BeforeClocks, DispatchDue, Jump, Serve;
    EventSize(c, s, t);
    JumpKeeps(c, s, t);
    JumpSame(s, t);
    DispatchesToAccepting(c, Jump(s, t), s.t);
    IdleServes(c.model, s.pool.reps[i].eng, t);
  }

  /** A replica that drains without work is gone after the next event, released at it and billed no longer. */
  lemma {:induction false} IdleReleased(c: SimConfig, s: Sim, i: nat)
    requires RunInv(c, s) && NextEvent(s).At?
    requires i < |s.pool.reps| && s.pool.reps[i].draining && s.pool.reps[i].eng.running == [] && s.pool.reps[i].eng.slot == []
    ensures var s', rid := NextTurn(c, s), s.pool.reps[i].rid;
            !Present(s'.pool.reps, rid) && ReleasedAt(s'.pool.retired, rid, EventTime(c, s))
  {
    hide RunInv, SimInv, NextTurn, BeforeClocks, Event, NextEvent, EventTime, Served, Present, ReleasedAt;
    var s1 := NextTurnIsEvent(c, s);
    IdleGone(c, s1, EventTime(c, s), i);
  }

  lemma {:induction false} IdleGone(c: SimConfig, s: Sim, t: real, i: nat)
    requires SimInv(c, s) && s.t < t && BeforeClocks(s, t)
    requires i < |s.pool.reps| && s.pool.reps[i].draining && !s.pool.reps[i].eng.HasWork()
    ensures !Present(Event(c, s, t).pool.reps, s.pool.reps[i].rid)
    ensures ReleasedAt(Event(c, s, t).pool.retired, s.pool.reps[i].rid, t)
  {
    hide SimInv, BeforeClocks, Served, Event, ReleasedAt, Releasable, AdmissionMaximal;
    OnlyIdleReleased(c, s, t, i);
    EventReps(c, s, t);
    EventSize(c, s, t);
    IdleStaysIdle(c, s, t, i);
    var out, reps, rid := Served(c, s, t), Event(c, s, t).pool.reps, s.pool.reps[i].rid;
    if Present(reps, rid) {
      var k :| 0 <= k < |reps| && reps[k].rid == rid;
      assert reps[k] in out;
      var j :| 0 <= j < |out| && out[j] == reps[k];
      EventQueues(c, s, t, j);
      OneOfEachRid(c, s, i, j);
      EventQueues(c, s, t, i);
      NoneDrainsIdle(c, s, t, reps[k]);
    }
  }

  // ---- over a run -----------------------------------------------------------------------------------------------------

  lemma {:induction false} TurnRetires(c: SimConfig, s: Sim)
    requires RunInv(c, s) && NextEvent(s).At?
    ensures s.pool.retired <= NextTurn(c, s).pool.retired
  {
    hide RunInv, SimInv, NextTurn, BeforeClocks, Event, NextEvent, EventTime, Served, Released;
    var s1 := NextTurnIsEvent(c, s);
    EventRetired(c, s1, EventTime(c, s));
  }

  lemma {:induction false} StepToRetires(c: SimConfig, s: Sim, tEnd: real, idle: bool)
    requires RunInv(c, s)
    ensures s.pool.retired <= StepTo(c, s, tEnd, idle).pool.retired
    decreases Measure(c, s)
  {
    hide RunInv, Measure, Iterate, NextEvent, NextTurn, EventTime, Productive, QuietUntil;
    if s.t < tEnd - EPS {
      StepToUnfold(c, s, tEnd, idle);
      hide StepTo;
      if Iterate(c, s, tEnd, idle).Advanced? {
        TurnIsNext(c, s, tEnd, idle);
        TurnRetires(c, s);
        StepToRetires(c, NextTurn(c, s), tEnd, idle);
      } else {
        CoastRetires(c, s, tEnd, idle);
      }
    }
  }

  lemma CoastRetires(c: SimConfig, s: Sim, tEnd: real, idle: bool)
    requires Iterate(c, s, tEnd, idle).Returned?
    ensures Iterate(c, s, tEnd, idle).s.pool.retired == s.pool.retired
  {}

  /** A control action that drains a replica without work, and an interval in which anything happens: the replica is
      released at the first event of the interval. */
  lemma {:induction false} DrainedIdleIsReleased(c: SimConfig, s: Sim, k: int, tEnd: real, i: nat)
    requires RunInv(c, s) && RunInv(c, SetTargetReplicas(c, s, k)) && !NothingBy(SetTargetReplicas(c, s, k), tEnd)
    requires var reps := SetTargetReplicas(c, s, k).pool.reps;
             i < |reps| && reps[i].draining && reps[i].eng.running == [] && reps[i].eng.slot == []
    ensures var s0 := SetTargetReplicas(c, s, k);
            && NextEvent(s0).At?
            && ReleasedAt(StepTo(c, s0, tEnd, true).pool.retired, s0.pool.reps[i].rid, EventTime(c, s0))
  {
    hide RunInv, Measure, SetTargetReplicas, NextTurn, EventTime, NextEvent, ReleasedAt, Productive;
    var s0 := SetTargetReplicas(c, s, k);
    IdleReleased(c, s0, i);
    StepToUnfold(c, s0, tEnd, true);
    Advances(c, s0, tEnd);
    TurnIsNext(c, s0, tEnd, true);
    hide StepTo;
    StepToRetires(c, NextTurn(c, s0), tEnd, true);
    StaysReleased(NextTurn(c, s0).pool.retired, StepTo(c, s0, tEnd, true).pool.retired, s0.pool.reps[i].rid, EventTime(c, s0));
  }

  lemma Advances(c: SimConfig, s: Sim, tEnd: real)
    requires !QuietUntil(s, tEnd) && !Iterate(c, s, tEnd, true).Stalled?
    ensures Iterate(c, s, tEnd, true).Advanced?
  {
    hide Event, Jump;
  }

  lemma StaysReleased(a: seq<Rep>, b: seq<Rep>, rid: nat, t: real)
    requires a <= b && ReleasedAt(a, rid, t)
    ensures ReleasedAt(b, rid, t)
  {
    var k :| 0 <= k < |a| && a[k].rid == rid && a[k].tReleased == Some(t)
             && a[k].draining && a[k].eng.running == [] && a[k].eng.slot == [];
    assert b[k] == a[k];
  }
}
