/** Draining replicas: what an event leaves waiting, what a drained replica does with its queue, and when it
    finishes what it holds. */
module Draining {
  import opened Requests
  import opened ReplicaEngines
  import opened ReplicaPool
  import opened Simulator
  import opened SimulatorInvariant
  import opened SimulatorRuns
  import L = LlmServing
  import R = RequestService

  // ---- dispatch goes to accepting replicas only -----------------------------------------------------------

  /** Replicas that accept nothing at t are left alone. */
  ghost predicate OnlyAccepting(a: seq<Rep>, b: seq<Rep>, t: real) {
    |a| == |b| && forall i :: 0 <= i < |a| && !a[i].Accepting(t) ==> b[i] == a[i]
  }

  lemma AcceptingStays(a: seq<Rep>, b: seq<Rep>, c: seq<Rep>, t: real)
    requires SameBatches(a, b) && OnlyAccepting(a, b, t) && OnlyAccepting(b, c, t)
    ensures OnlyAccepting(a, c, t)
  {
    forall i | 0 <= i < |a| && !a[i].Accepting(t) ensures c[i] == a[i] {
      assert b[i] == a[i];
    }
  }

  lemma {:induction false} DispatchAccepting(c: SimConfig, s: Sim)
    requires PoolInv(c.pool, s.pool) && s.pool.t == s.t && s.arrivalI < |s.trace|
    ensures OnlyAccepting(s.pool.reps, Dispatch(c, s).pool.reps, s.t)
  {
    RouteAccepts(c, s);
    hide Route, PoolInv;
  }

  lemma {:induction false} DispatchesToAccepting(c: SimConfig, s: Sim, now: real)
    requires MidInv(c, s, now)
    ensures OnlyAccepting(s.pool.reps, DispatchDue(c, s).pool.reps, s.t)
    decreases |s.trace| - s.arrivalI
  {
    if ArrivalDue(s) {
      DispatchKeeps(c, s, now);
      DispatchBatches(c, s);
      DispatchAccepting(c, s);
      hide Dispatch, PoolInv, TraceOk, RepReady, Inv, SameBatches, Conserved, OnlyAccepting;
      DispatchesToAccepting(c, Dispatch(c, s), now);
      AcceptingStays(s.pool.reps, Dispatch(c, s).pool.reps, DispatchDue(c, s).pool.reps, s.t);
    }
  }

  // ---- one event ---------------------------------------------------------------------------------------------

  /** The queue q is what `slot` ends with: nothing of q has left. */
  predicate EndsWith(slot: seq<Req>, q: seq<Req>) { |q| <= |slot| && slot[|slot| - |q|..] == q }

  lemma {:induction false} ServeQueues(m: Model, e: Engine, now: real, t: real)
    requires Inv(m, e, now) && InTime(e, now, t)
    ensures e.accepting ==> AdmissionMaximal(m, Serve(m, e, t))
    ensures !e.accepting ==> EndsWith(Serve(m, e, t).slot, e.slot)
  {
    hide Inv, InTime, Descs, Serve, Work, AdmissionMaximal;
    ServeKeeps(m, e, now, t);
  }

  /** What an event at t means for the queue of one replica, r before it and r' after. */
  ghost predicate QueueRules(m: Model, r: Rep, r': Rep, t: real) {
    && r'.(eng := r.eng) == r
    && (r.Accepting(t) ==> AdmissionMaximal(m, r'.eng))
    && (r.draining ==> EndsWith(r'.eng.slot, r.eng.slot))
    && (!r.Serving(t) ==> r'.eng == r.eng)
  }

  lemma {:induction false} RepQueues(m: Model, r0: Rep, r: Rep, now: real, t: real)
    requires r == r0.(eng := r.eng) && (!r0.Accepting(t) ==> r == r0)
    requires RepReady(m, r, now, t) && r.eng.accepting == !r.draining
    ensures QueueRules(m, r0, ServeRep(m, r, t), t)
  {
    hide Inv, InTime, Serve, AdmissionMaximal;
    if r.Serving(t) { ServeQueues(m, r.eng, now, t); }
  }

  /** What one event does to the i-th replica, before anything is released. */
  function Served(c: SimConfig, s: Sim, t: real): (reps: seq<Rep>) {
    ServeAll(c.model, DispatchDue(c, Jump(s, t)).pool.reps, t)
  }

  /** An event leaves nothing admissible waiting on a replica that accepts, and takes nothing out of the queue
      of a replica that drains. */
  lemma {:induction false} EventQueues(c: SimConfig, s: Sim, t: real, i: nat)
    requires SimInv(c, s) && s.t < t && BeforeClocks(s, t) && i < |s.pool.reps|
    ensures |Served(c, s, t)| == |s.pool.reps|
    ensures QueueRules(c.model, s.pool.reps[i], Served(c, s, t)[i], t)
  {
    JumpKeeps(c, s, t);
    JumpReps(s, t);
    DispatchDueKeeps(c, Jump(s, t), s.t);
    DispatchesToAccepting(c, Jump(s, t), s.t);
    var d := DispatchDue(c, Jump(s, t));
    MidRep(c, d, s.t, i);
    hide SimInv, MidInv, BeforeClocks, Jump, DispatchDue, RepReady, Measure, QueueRules, ServeRep;
    assert d.pool.reps[i] == s.pool.reps[i].(eng := d.pool.reps[i].eng);
    RepQueues(c.model, s.pool.reps[i], d.pool.reps[i], s.t, t);
  }

  lemma JumpReps(s: Sim, t: real)
    ensures Jump(s, t).pool.reps == s.pool.reps && Jump(s, t).t == t
  {}

  lemma MidRep(c: SimConfig, s: Sim, now: real, i: nat)
    requires MidInv(c, s, now) && i < |s.pool.reps|
    ensures RepReady(c.model, s.pool.reps[i], now, s.t) && s.pool.reps[i].eng.accepting == !s.pool.reps[i].draining
  {
    assert LiveOk(c.pool, s.pool.reps[i], s.pool.t, s.pool.nextRid);
    hide Inv;
  }

  // ---- releasing --------------------------------------------------------------------------------------------

  lemma EventReps(c: SimConfig, s: Sim, t: real)
    ensures Event(c, s, t).pool.reps == if AnyDraining(s.pool.reps) then Kept(Served(c, s, t)) else Served(c, s, t)
  {}

  /** After an event nothing admissible waits on any replica that is ready and not draining. */
  lemma {:induction false} AdmissionMaximalAfterEvent(c: SimConfig, s: Sim, t: real, r: Rep)
    requires SimInv(c, s) && s.t < t && BeforeClocks(s, t)
    requires r in Event(c, s, t).pool.reps && r.tReady <= t + 0.000000001 && !r.draining
    ensures AdmissionMaximal(c.model, r.eng)
  {
    EventReps(c, s, t);
    hide SimInv, BeforeClocks, Served, Event, Releasable, AdmissionMaximal;
    EventSize(c, s, t);
    var i :| 0 <= i < |Served(c, s, t)| && Served(c, s, t)[i] == r;
    EventQueues(c, s, t, i);
    AliveInPool(c, s, i);
  }

  lemma EventSize(c: SimConfig, s: Sim, t: real)
    requires SimInv(c, s) && s.t < t && BeforeClocks(s, t)
    ensures |Served(c, s, t)| == |s.pool.reps|
  {
    JumpKeeps(c, s, t);
    JumpReps(s, t);
    DispatchDueKeeps(c, Jump(s, t), s.t);
    hide SimInv, MidInv, BeforeClocks, Jump, DispatchDue, Measure;
  }

  // ---- a drained replica keeps its queue -----------------------------------------------------------------------

  /** The replica rid drains, and its queue ends with q. */
  ghost predicate Stranded(reps: seq<Rep>, rid: nat, q: seq<Req>) {
    exists i :: 0 <= i < |reps| && reps[i].rid == rid && reps[i].draining && EndsWith(reps[i].eng.slot, q)
  }

  lemma EndsWithTrans(a: seq<Req>, b: seq<Req>, c: seq<Req>)
    requires EndsWith(a, b) && EndsWith(b, c)
    ensures EndsWith(a, c)
  {
    assert a[|a| - |b|..][|b| - |c|..] == a[|a| - |c|..];
  }

  lemma KeptIndex(reps: seq<Rep>, i: nat) returns (k: nat)
    requires i < |reps| && !Releasable(reps[i])
    ensures k < |Kept(reps)| && Kept(reps)[k] == reps[i]
  {
    assert reps[i] in Kept(reps);
    k :| 0 <= k < |Kept(reps)| && Kept(reps)[k] == reps[i];
  }

  lemma {:induction false} EventStrands(c: SimConfig, s: Sim, t: real, rid: nat, q: seq<Req>)
    requires SimInv(c, s) && s.t < t && BeforeClocks(s, t) && q != [] && Stranded(s.pool.reps, rid, q)
    ensures Stranded(Event(c, s, t).pool.reps, rid, q)
  {
    var i :| 0 <= i < |s.pool.reps| && s.pool.reps[i].rid == rid && s.pool.reps[i].draining
             && EndsWith(s.pool.reps[i].eng.slot, q);
    EventReps(c, s, t);
    EventSize(c, s, t);
    EventQueues(c, s, t, i);
    hide SimInv, BeforeClocks, Served, Event, Kept, AdmissionMaximal, AnyDraining;
    var r := Served(c, s, t)[i];
    EndsWithTrans(r.eng.slot, s.pool.reps[i].eng.slot, q);
    if AnyDraining(s.pool.reps) { var k := KeptIndex(Served(c, s, t), i); }
  }

  lemma {:induction false} TurnStrands(c: SimConfig, s: Sim, a: Action, rid: nat, q: seq<Req>)
    requires RunInv(c, s) && a.Turn? && q != [] && Stranded(s.pool.reps, rid, q)
    ensures Stranded(Apply(c, s, a).pool.reps, rid, q)
  {
    hide RunInv, Event, Stranded, NextEvent, BeforeClocks, Measure;
    if s.t < a.tEnd - EPS {
      if NextEvent(s).At? && NextEvent(s).t <= a.tEnd {
        var s1, t := AsEvent(c, s, a.tEnd, a.idle);
        EventStrands(c, s1, t, rid, q);
      } else {
        JumpReps(s, a.tEnd);
      }
    }
  }

  lemma {:induction false} TurnsStrand(c: SimConfig, s: Sim, ts: seq<Action>, rid: nat, q: seq<Req>)
    requires RunInv(c, s) && OnlyTurns(ts) && q != [] && Stranded(s.pool.reps, rid, q)
    ensures Stranded(ApplyAll(c, s, ts).pool.reps, rid, q)
    decreases |ts|
  {
    hide RunInv, Stranded, Apply;
    if ts != [] {
      TurnStrands(c, s, ts[0], rid, q);
      TurnsStrand(c, Apply(c, s, ts[0]), ts[1..], rid, q);
    }
  }

  /** Every rescale in the run asks for at most as many replicas, after clamping, as the one before it: it
      repeats the target or scales down. */
  predicate NeverScalesUp(c: SimConfig, s: Sim, acts: seq<Action>)
    requires RunInv(c, s)
    decreases |acts|
  {
    acts == [] ||
    ((acts[0].Scale? ==> Clamp(c.pool, acts[0].k) <= s.pool.target)
     && NeverScalesUp(c, Apply(c, s, acts[0]), acts[1..]))
  }

  /** Repeating the target or scaling down leaves draining replicas as they are. */
  lemma {:induction false} ScaleLeavesDraining(c: SimConfig, s: Sim, k: int)
    requires RunInv(c, s) && Clamp(c.pool, k) <= s.pool.target
    ensures var after := SetTargetReplicas(c, s, k).pool.reps;
            && |after| == |s.pool.reps|
            && forall i :: 0 <= i < |after| ==>
                 && after[i].rid == s.pool.reps[i].rid
                 && (s.pool.reps[i].draining ==> after[i] == s.pool.reps[i])
  {
    SetTargetKeeps(c.pool, s.pool, k);
    hide RunInv, ScaleUp, ScaleDown, CountActive;
    if Clamp(c.pool, k) == s.pool.target { assert SetTarget(c.pool, s.pool, k).reps == s.pool.reps; }
  }

  lemma {:induction false} ActionStrands(c: SimConfig, s: Sim, a: Action, rid: nat, q: seq<Req>)
    requires RunInv(c, s) && q != [] && Stranded(s.pool.reps, rid, q)
    requires a.Scale? ==> Clamp(c.pool, a.k) <= s.pool.target
    ensures Stranded(Apply(c, s, a).pool.reps, rid, q)
  {
    hide RunInv, SetTarget;
    if a.Scale? {
      ScaleLeavesDraining(c, s, a.k);
    } else {
      hide Stranded, Apply;
      var ts := AsTurns(c, s, a);
      TurnsStrand(c, s, ts, rid, q);
    }
  }

  /** Once a replica drains with a queue, neither time nor a further scale-down serves that queue or releases the
      replica: only a later scale-up can. So draining does not finish what the replica holds. */
  lemma {:induction false} DrainingNeverServesQueue(c: SimConfig, s: Sim, acts: seq<Action>, rid: nat, q: seq<Req>)
    requires RunInv(c, s) && q != [] && Stranded(s.pool.reps, rid, q) && NeverScalesUp(c, s, acts)
    ensures Stranded(ApplyAll(c, s, acts).pool.reps, rid, q)
    decreases |acts|
  {
    hide RunInv, Stranded, Apply;
    if acts != [] {
      ActionStrands(c, s, acts[0], rid, q);
      DrainingNeverServesQueue(c, Apply(c, s, acts[0]), acts[1..], rid, q);
    }
  }

  // ---- runs that never scale down -------------------------------------------------------------------------------

  /** Nothing drains and nothing admissible waits. */
  ghost predicate Settled(m: Model, reps: seq<Rep>) {
    forall i :: 0 <= i < |reps| ==> !reps[i].draining && AdmissionMaximal(m, reps[i].eng)
  }

  lemma {:induction false} NothingDrains(m: Model, reps: seq<Rep>)
    requires Settled(m, reps)
    ensures !AnyDraining(reps)
  {
    hide AdmissionMaximal;
    if reps != [] {
      assert forall i :: 0 <= i < |reps[1..]| ==> reps[1..][i] == reps[i + 1];
      NothingDrains(m, reps[1..]);
    }
  }

  lemma AliveInPool(c: SimConfig, s: Sim, i: nat)
    requires SimInv(c, s) && i < |s.pool.reps|
    ensures s.pool.reps[i].Alive()
  {
    assert LiveOk(c.pool, s.pool.reps[i], s.pool.t, s.pool.nextRid);
  }

  lemma {:induction false} EventSettles(c: SimConfig, s: Sim, t: real)
    requires SimInv(c, s) && s.t < t && BeforeClocks(s, t) && Settled(c.model, s.pool.reps)
    ensures Settled(c.model, Event(c, s, t).pool.reps)
  {
    hide SimInv, BeforeClocks, Served, Event, AdmissionMaximal, AnyDraining;
    NothingDrains(c.model, s.pool.reps);
    EventReps(c, s, t);
    EventSize(c, s, t);
    forall i | 0 <= i < |s.pool.reps|
      ensures !Served(c, s, t)[i].draining && AdmissionMaximal(c.model, Served(c, s, t)[i].eng)
    {
      AliveInPool(c, s, i);
      EventQueues(c, s, t, i);
    }
  }

  lemma {:induction false} TurnSettles(c: SimConfig, s: Sim, a: Action)
    requires RunInv(c, s) && a.Turn? && Settled(c.model, s.pool.reps)
    ensures Settled(c.model, Apply(c, s, a).pool.reps)
  {
    hide RunInv, Event, Settled, NextEvent, BeforeClocks, Measure;
    if s.t < a.tEnd - EPS {
      if NextEvent(s).At? && NextEvent(s).t <= a.tEnd {
        var s1, t := AsEvent(c, s, a.tEnd, a.idle);
        EventSettles(c, s1, t);
      } else {
        JumpReps(s, a.tEnd);
      }
    }
  }

  lemma {:induction false} TurnsSettle(c: SimConfig, s: Sim, ts: seq<Action>)
    requires RunInv(c, s) && OnlyTurns(ts) && Settled(c.model, s.pool.reps)
    ensures Settled(c.model, ApplyAll(c, s, ts).pool.reps)
    decreases |ts|
  {
    hide RunInv, Settled, Apply;
    if ts != [] {
      TurnSettles(c, s, ts[0]);
      TurnsSettle(c, Apply(c, s, ts[0]), ts[1..]);
    }
  }

  lemma NewEngineMaximal(m: Model)
    ensures AdmissionMaximal(m, NewEngine)
  {}

  lemma SameQueueMaximal(m: Model, e: Engine, b: bool)
    ensures AdmissionMaximal(m, e.(accepting := b)) == AdmissionMaximal(m, e)
  {}

  lemma {:induction false} RescaleSettles(m: Model, before: seq<Rep>, after: seq<Rep>)
    requires Settled(m, before) && Rescales(before, after) && NoNewDrain(before, after)
    ensures Settled(m, after)
  {
    NewEngineMaximal(m);
    hide AdmissionMaximal;
    forall i | 0 <= i < |after| ensures !after[i].draining && AdmissionMaximal(m, after[i].eng) {
      if i < |before| { SameQueueMaximal(m, before[i].eng, !after[i].draining); }
    }
  }

  /** Every rescale in the run asks for at least as many replicas, after clamping, as the one before it. */
  predicate NeverScalesDown(c: SimConfig, s: Sim, acts: seq<Action>)
    requires RunInv(c, s)
    decreases |acts|
  {
    acts == [] ||
    ((acts[0].Scale? ==> Clamp(c.pool, acts[0].k) >= s.pool.target)
     && NeverScalesDown(c, Apply(c, s, acts[0]), acts[1..]))
  }

  lemma {:induction false} ActionSettles(c: SimConfig, s: Sim, a: Action)
    requires RunInv(c, s) && Settled(c.model, s.pool.reps)
    requires a.Scale? ==> Clamp(c.pool, a.k) >= s.pool.target
    ensures Settled(c.model, Apply(c, s, a).pool.reps)
  {
    if a.Scale? {
      SetTargetKeeps(c.pool, s.pool, a.k);
      hide RunInv, Settled, SetTarget, Rescales, NoNewDrain;
      RescaleSettles(c.model, s.pool.reps, SetTarget(c.pool, s.pool, a.k).reps);
    } else {
      hide RunInv, Settled, Apply;
      var ts := AsTurns(c, s, a);
      TurnsSettle(c, s, ts);
    }
  }

  lemma {:induction false} RunSettles(c: SimConfig, s: Sim, acts: seq<Action>)
    requires RunInv(c, s) && Settled(c.model, s.pool.reps) && NeverScalesDown(c, s, acts)
    ensures Settled(c.model, ApplyAll(c, s, acts).pool.reps)
    decreases |acts|
  {
    hide RunInv, Settled, Apply;
    if acts != [] {
      ActionSettles(c, s, acts[0]);
      RunSettles(c, Apply(c, s, acts[0]), acts[1..]);
    }
  }

  lemma {:induction false} BeginSettled(c: SimConfig, trace: seq<Req>)
    ensures Settled(c.model, Begin(c, trace).pool.reps)
  {
    ResetKeeps(c.pool);
    NewEngineMaximal(c.model);
    hide AdmissionMaximal, PoolInv;
  }

  // ---- when draining does finish what a replica holds -----------------------------------------------------------------

  /** The replica rid still holds work. */
  ghost predicate HoldsWork(reps: seq<Rep>, rid: nat) {
    exists i :: 0 <= i < |reps| && reps[i].rid == rid && reps[i].eng.HasWork()
  }

  /** The replica rid drains and its fate is decided: it can finish, or it cannot and stays. */
  ghost predicate Fate(m: Model, reps: seq<Rep>, rid: nat, finishes: bool) {
    && (forall i :: 0 <= i < |reps| && reps[i].rid == rid ==>
          reps[i].draining && (CanFinish(m, reps[i].eng) <==> finishes))
    && (!finishes ==> exists i :: 0 <= i < |reps| && reps[i].rid == rid)
  }

  lemma {:induction false} RepFinish(m: Model, r0: Rep, r: Rep, now: real, t: real)
    requires r == r0.(eng := r.eng) && (!r0.Accepting(t) ==> r == r0) && r0.draining
    requires RepReady(m, r, now, t) && r.eng.accepting == !r.draining
    ensures CanFinish(m, ServeRep(m, r, t).eng) <==> CanFinish(m, r0.eng)
  {
    hide Inv, InTime, Serve, CanFinish;
    if r.Serving(t) { ServeFinish(m, r.eng, now, t); }
  }

  lemma {:induction false} EventFinish(c: SimConfig, s: Sim, t: real, i: nat)
    requires SimInv(c, s) && s.t < t && BeforeClocks(s, t) && i < |s.pool.reps|
    ensures |Served(c, s, t)| == |s.pool.reps|
    ensures Served(c, s, t)[i] == s.pool.reps[i].(eng := Served(c, s, t)[i].eng)
    ensures s.pool.reps[i].draining ==>
              (CanFinish(c.model, Served(c, s, t)[i].eng) <==> CanFinish(c.model, s.pool.reps[i].eng))
  {
    EventQueues(c, s, t, i);
    JumpKeeps(c, s, t);
    JumpReps(s, t);
    DispatchDueKeeps(c, Jump(s, t), s.t);
    DispatchesToAccepting(c, Jump(s, t), s.t);
    var d := DispatchDue(c, Jump(s, t));
    MidRep(c, d, s.t, i);
    hide SimInv, MidInv, BeforeClocks, Jump, DispatchDue, RepReady, Measure, ServeRep, AdmissionMaximal, CanFinish;
    if s.pool.reps[i].draining { RepFinish(c.model, s.pool.reps[i], d.pool.reps[i], s.t, t); }
  }

  lemma {:induction false} KeptFate(m: Model, reps: seq<Rep>, rid: nat, finishes: bool)
    requires Fate(m, reps, rid, finishes)
    ensures Fate(m, Kept(reps), rid, finishes)
  {
    forall r ensures Releasable(r) ==> CanFinish(m, r.eng) { if Releasable(r) { IdleFinish(m, r.eng); } }
    hide CanFinish, Releasable;
    forall k | 0 <= k < |Kept(reps)| && Kept(reps)[k].rid == rid
      ensures Kept(reps)[k].draining && (CanFinish(m, Kept(reps)[k].eng) <==> finishes)
    {
      assert Kept(reps)[k] in reps;
    }
    if !finishes {
      var i :| 0 <= i < |reps| && reps[i].rid == rid;
      var k := KeptIndex(reps, i);
    }
  }

  /** Replica for replica, the same identity and the same prospects. */
  ghost predicate SameProspects(m: Model, a: seq<Rep>, b: seq<Rep>) {
    |a| == |b| && forall i :: 0 <= i < |a| ==>
      && b[i].rid == a[i].rid && b[i].draining == a[i].draining
      && (a[i].draining ==> (CanFinish(m, b[i].eng) <==> CanFinish(m, a[i].eng)))
  }

  lemma SameFate(m: Model, a: seq<Rep>, b: seq<Rep>, rid: nat, finishes: bool)
    requires SameProspects(m, a, b) && Fate(m, a, rid, finishes)
    ensures Fate(m, b, rid, finishes)
  {
    hide CanFinish;
  }

  lemma {:induction false} EventProspects(c: SimConfig, s: Sim, t: real)
    requires SimInv(c, s) && s.t < t && BeforeClocks(s, t)
    ensures SameProspects(c.model, s.pool.reps, Served(c, s, t))
  {
    hide SimInv, BeforeClocks, Served, CanFinish;
    EventSize(c, s, t);
    forall i | 0 <= i < |s.pool.reps|
      ensures Served(c, s, t)[i] == s.pool.reps[i].(eng := Served(c, s, t)[i].eng)
      ensures s.pool.reps[i].draining ==>
                (CanFinish(c.model, Served(c, s, t)[i].eng) <==> CanFinish(c.model, s.pool.reps[i].eng))
    {
      EventFinish(c, s, t, i);
    }
  }

  lemma {:induction false} EventFate(c: SimConfig, s: Sim, t: real, rid: nat, finishes: bool)
    requires SimInv(c, s) && s.t < t && BeforeClocks(s, t) && Fate(c.model, s.pool.reps, rid, finishes)
    ensures Fate(c.model, Event(c, s, t).pool.reps, rid, finishes)
  {
    EventReps(c, s, t);
    EventProspects(c, s, t);
    hide SimInv, BeforeClocks, Served, Event, AnyDraining, Fate, SameProspects;
    SameFate(c.model, s.pool.reps, Served(c, s, t), rid, finishes);
    KeptFate(c.model, Served(c, s, t), rid, finishes);
  }

  lemma {:induction false} TurnFate(c: SimConfig, s: Sim, a: Action, rid: nat, finishes: bool)
    requires RunInv(c, s) && a.Turn? && Fate(c.model, s.pool.reps, rid, finishes)
    ensures Fate(c.model, Apply(c, s, a).pool.reps, rid, finishes)
  {
    hide RunInv, Event, Fate, NextEvent, BeforeClocks, Measure;
    if s.t < a.tEnd - EPS {
      if NextEvent(s).At? && NextEvent(s).t <= a.tEnd {
        var s1, t := AsEvent(c, s, a.tEnd, a.idle);
        EventFate(c, s1, t, rid, finishes);
      } else {
        JumpReps(s, a.tEnd);
      }
    }
  }

  lemma {:induction false} TurnsFate(c: SimConfig, s: Sim, ts: seq<Action>, rid: nat, finishes: bool)
    requires RunInv(c, s) && OnlyTurns(ts) && Fate(c.model, s.pool.reps, rid, finishes)
    ensures Fate(c.model, ApplyAll(c, s, ts).pool.reps, rid, finishes)
    decreases |ts|
  {
    hide RunInv, Fate, Apply;
    if ts != [] {
      TurnFate(c, s, ts[0], rid, finishes);
      TurnsFate(c, Apply(c, s, ts[0]), ts[1..], rid, finishes);
    }
  }

  lemma {:induction false} ActionFate(c: SimConfig, s: Sim, a: Action, rid: nat, finishes: bool)
    requires RunInv(c, s) && Fate(c.model, s.pool.reps, rid, finishes)
    requires a.Scale? ==> Clamp(c.pool, a.k) <= s.pool.target
    ensures Fate(c.model, Apply(c, s, a).pool.reps, rid, finishes)
  {
    hide RunInv, SetTarget, CanFinish;
    if a.Scale? {
      ScaleLeavesDraining(c, s, a.k);
    } else {
      hide Fate, Apply;
      var ts := AsTurns(c, s, a);
      TurnsFate(c, s, ts, rid, finishes);
    }
  }

  lemma {:induction false} RunFate(c: SimConfig, s: Sim, acts: seq<Action>, rid: nat, finishes: bool)
    requires RunInv(c, s) && Fate(c.model, s.pool.reps, rid, finishes) && NeverScalesUp(c, s, acts)
    ensures Fate(c.model, ApplyAll(c, s, acts).pool.reps, rid, finishes)
    decreases |acts|
  {
    hide RunInv, Fate, Apply;
    if acts != [] {
      ActionFate(c, s, acts[0], rid, finishes);
      RunFate(c, Apply(c, s, acts[0]), acts[1..], rid, finishes);
    }
  }

  lemma {:induction false} OneOfEachRid(c: SimConfig, s: Sim, i: nat, j: nat)
    requires SimInv(c, s) && i < |s.pool.reps| && j < |s.pool.reps| && s.pool.reps[i].rid == s.pool.reps[j].rid
    ensures i == j
  {
    RidsIncrease(c, s);
    hide SimInv;
  }

  lemma RidsIncrease(c: SimConfig, s: Sim)
    requires SimInv(c, s)
    ensures forall i, j :: 0 <= i < j < |s.pool.reps| ==> s.pool.reps[i].rid < s.pool.reps[j].rid
  {
    assert forall i, j :: 0 <= i < j < |s.pool.reps| ==> Follows(c.pool, s.pool.reps[i], s.pool.reps[j]);
  }

  /** A draining replica finishes what it holds exactly when its queue was empty and its batch fits the KV
      budget to its end: however far the run goes without a scale-up, once nothing more can happen the replica
      still holds work if and only if that condition fails. */
  lemma {:induction false} DrainFinishesExactly(c: SimConfig, s: Sim, i: nat, acts: seq<Action>)
    requires RunInv(c, s) && i < |s.pool.reps| && s.pool.reps[i].draining && NeverScalesUp(c, s, acts)
    requires NextEvent(ApplyAll(c, s, acts)).Never?
    ensures HoldsWork(ApplyAll(c, s, acts).pool.reps, s.pool.reps[i].rid) <==> !CanFinish(c.model, s.pool.reps[i].eng)
  {
    hide SimInv, ApplyAll, NextEvent, CanFinish;
    var rid, finishes, s' := s.pool.reps[i].rid, CanFinish(c.model, s.pool.reps[i].eng), ApplyAll(c, s, acts);
    forall j | 0 <= j < |s.pool.reps| && s.pool.reps[j].rid == rid ensures j == i { OneOfEachRid(c, s, i, j); }
    RunFate(c, s, acts, rid, finishes);
    forall k | 0 <= k < |s'.pool.reps|
      ensures CanFinish(c.model, s'.pool.reps[k].eng) <==> !s'.pool.reps[k].eng.HasWork()
    {
      NoBatchLeft(c, s', k);
      IdleFinish(c.model, s'.pool.reps[k].eng);
    }
  }

  lemma {:induction false} NoBatchLeft(c: SimConfig, s: Sim, i: nat)
    requires SimInv(c, s) && NextEvent(s).Never? && i < |s.pool.reps|
    ensures s.pool.reps[i].eng.running == []
  {
    hide SimInv, NextEvent;
    if s.pool.reps[i].eng.running != [] {
      BatchMeansEvent(c, s, i);
    }
  }

  lemma {:induction false} BatchMeansEvent(c: SimConfig, s: Sim, i: nat)
    requires SimInv(c, s) && i < |s.pool.reps| && s.pool.reps[i].eng.running != []
    ensures NextEvent(s).At?
  {
    var a, b, d := NextArrival(s), NextReady(s.pool.reps, s.t), NextStep(s.pool.reps, s.t);
    MinClockFacts(a, b);
    MinClockFacts(MinClock(a, b), d);
    StepAhead(c.model, s.pool.reps, s.t);
    hide PoolInv, TraceOk, Conserved, RepOk, Inv, StepDue, NextReady, NextStep, MinClock;
  }
}
