/** The replica pool and the simulator as objects: lifecycle, billing, the event loop and the drain, in place. */
module ClusterObjects {
  import opened Requests
  import opened ReplicaEngines
  import opened ReplicaPool
  import opened Simulator
  import opened SimulatorInvariant
  import opened SimulatorRuns

  // ---- the pool ----------------------------------------------------------------------------------------------------

  class Cluster {
    const c: PoolConfig
    var t: real
    var reps: seq<Rep>
    var retired: seq<Rep>
    var target: int
    var hypothetical: bool
    var replicaSeconds: real
    var nextRid: nat
    var tLastBill: real

    constructor (c: PoolConfig)
      ensures this.c == c && View() == ReplicaPool.Reset(c)
    {
      this.c := c;
      t, reps, retired, target, hypothetical, replicaSeconds, nextRid, tLastBill := 0.0, [], [], 0, false, 0.0, 0, 0.0;
      new;
      Clear();
    }

    function View(): Pool
      reads this
    {
      Pool(t, reps, retired, target, hypothetical, replicaSeconds, nextRid, tLastBill)
    }

    /** Start over with the founding replicas. */
    method Clear()
      modifies this
      ensures View() == ReplicaPool.Reset(c)
    {
      t, reps, retired, target, hypothetical, replicaSeconds, nextRid, tLastBill := 0.0, [], [], 0, false, 0.0, 0, 0.0;
      ghost var goal := StartMany(c, View(), c.Founders());
      var n := c.Founders();
      while n > 0
        invariant n >= 0 && StartMany(c, View(), n) == goal
      {
        StartReplica(true);
        n := n - 1;
      }
      target := |reps|;
    }

    method StartReplica(readyNow: bool)
      modifies this
      ensures View() == Start(c, old(View()), readyNow)
    {
      var tReady := t;
      if !readyNow && !c.sequential { tReady := t + c.coldStart; }
      if !readyNow && c.sequential {
        var last := LatestPending();
        tReady := last + c.coldStart;
      }
      reps := reps + [Rep(nextRid, t, tReady, false, None, NewEngine)];
      nextRid := nextRid + 1;
    }

    /** The latest ready time still in the future, or now. */
    method LatestPending() returns (m: real)
      ensures m == LastPending(reps, t)
    {
      m := t;
      var i := |reps|;
      while i > 0
        invariant 0 <= i <= |reps| && m == LastPending(reps[i..], t)
      {
        i := i - 1;
        assert reps[i..][1..] == reps[i + 1..];
        if reps[i].Alive() && reps[i].tReady > t && reps[i].tReady > m { m := reps[i].tReady; }
      }
      assert reps[0..] == reps;
    }

    /** Replicas that are neither draining nor released. */
    method NumActive() returns (n: nat)
      ensures n == CountActive(reps)
    {
      n := 0;
      var i := |reps|;
      while i > 0
        invariant 0 <= i <= |reps| && n == CountActive(reps[i..])
      {
        i := i - 1;
        assert reps[i..][1..] == reps[i + 1..];
        if reps[i].Active() { n := n + 1; }
      }
      assert reps[0..] == reps;
    }

    /** Revive the first draining replica, or boot one. */
    method Grow()
      modifies this
      ensures View() == AddOne(c, old(View()))
    {
      var i := 0;
      while i < |reps| && !(reps[i].Alive() && reps[i].draining)
        invariant 0 <= i <= |reps| && FirstDraining(reps) == i + FirstDraining(reps[i..])
      {
        assert reps[i..][1..] == reps[i + 1..];
        i := i + 1;
      }
      if i < |reps| {
        reps := reps[i := reps[i].Revive()];
      } else {
        StartReplica(false);
      }
    }

    /** The newest active replica. */
    method FindNewest() returns (i: nat)
      requires CountActive(reps) > 0
      ensures i == ReplicaPool.Newest(reps)
    {
      var best: Option<nat> := None;
      var j := |reps|;
      while j > 0
        invariant 0 <= j <= |reps|
        invariant best.None? <==> CountActive(reps[j..]) == 0
        invariant best.Some? ==> CountActive(reps[j..]) > 0 && best.value == j + ReplicaPool.Newest(reps[j..])
      {
        j := j - 1;
        assert reps[j..][1..] == reps[j + 1..];
        if best.None? {
          if reps[j].Active() { best := Some(j); }
        } else if reps[j].Active() && Newer(reps[j], reps[best.value]) {
          best := Some(j);
        }
      }
      assert reps[0..] == reps;
      i := best.value;
    }

    /** Request k replicas. */
    method Request(k: int)
      modifies this
      ensures View() == SetTarget(c, old(View()), k)
    {
      hide AddMany, AddOne, DrainNewest, CountActive, ReplicaPool.Newest;
      var k' := Clamp(c, k);
      if k' > c.kMax { hypothetical := true; }
      if k' == target { return; }
      var active := NumActive();
      if k' > target {
        var n := k' - active;
        ghost var goal := if n > 0 then AddMany(c, View(), n) else View();
        while n > 0
          invariant n > 0 ==> AddMany(c, View(), n) == goal
          invariant n <= 0 ==> View() == goal
        {
          AddManyMore(c, View(), n);
          Grow();
          n := n - 1;
        }
      } else {
        var n := if active - k' < 0 then 0 else if active - k' > active then active else active - k';
        ghost var goal := View().(reps := DrainNewest(reps, n));
        while n > 0
          invariant 0 <= n <= CountActive(reps)
          invariant View().(reps := DrainNewest(reps, n)) == goal
        {
          DrainMore(reps, n);
          var i := FindNewest();
          reps := reps[i := reps[i].Drain()];
          n := n - 1;
        }
        DrainNone(reps);
      }
      target := k';
    }

    /** Release drained replicas that hold no work. */
    method ReapAt(now: real)
      modifies this
      ensures View() == Reap(old(View()), now)
    {
      var kept, out := [], [];
      var i := |reps|;
      while i > 0
        invariant 0 <= i <= |reps| && kept == Kept(reps[i..]) && out == Released(reps[i..], now)
      {
        i := i - 1;
        assert reps[i..][1..] == reps[i + 1..];
        if Releasable(reps[i]) {
          out := [reps[i].(tReleased := Some(now))] + out;
        } else {
          kept := [reps[i]] + kept;
        }
      }
      assert reps[0..] == reps;
      reps, retired := kept, retired + out;
    }

    /** Every replica that exists costs. */
    method BillTo(now: real)
      modifies this
      ensures View() == Bill(old(View()), now)
    {
      var dt := now - tLastBill;
      if dt <= 0.0 { return; }
      replicaSeconds := replicaSeconds + Times(dt, |reps|);
      tLastBill := now;
    }

    method Move(now: real)
      modifies this
      ensures View() == MoveTo(old(View()), now)
    {
      BillTo(now);
      t := now;
    }
  }

  // ---- the simulator --------------------------------------------------------------------------------------------------

  class Simulation {
    const c: SimConfig
    const pool: Cluster
    var t: real
    var trace: seq<Req>
    var arrivalI: nat
    var stalls: nat
    var nDispatched: nat

    /** Start an episode on the requests the workload source built. */
    constructor (c: SimConfig, trace: seq<Req>)
      ensures this.c == c && pool.c == c.pool && fresh(pool) && View() == Begin(c, trace)
    {
      this.c := c;
      pool := new Cluster(c.pool);
      t, this.trace, arrivalI, stalls, nDispatched := 0.0, trace, 0, 0, 0;
    }

    function View(): Sim
      reads this, pool
    {
      Sim(t, pool.View(), trace, arrivalI, stalls, nDispatched)
    }

    method SetTargetReplicas(k: int)
      requires pool.c == c.pool && pool.t == t
      modifies pool
      ensures View() == SimulatorRuns.SetTargetReplicas(c, old(View()), k)
    {
      hide SetTarget;
      pool.Request(k);
    }

    /** One pass over the replicas for the next ready time, the next service event, and whether any drains. */
    method Scan() returns (ready: Clock, step: Clock, draining: bool)
      ensures ready == NextReady(pool.reps, t) && step == NextStep(pool.reps, t) && draining == AnyDraining(pool.reps)
    {
      ready, step, draining := Never, Never, false;
      var reps := pool.reps;
      var i := |reps|;
      while i > 0
        invariant 0 <= i <= |reps|
        invariant ready == NextReady(reps[i..], t) && step == NextStep(reps[i..], t) && draining == AnyDraining(reps[i..])
      {
        i := i - 1;
        assert reps[i..][1..] == reps[i + 1..];
        var r := reps[i];
        if r.Alive() {
          if r.draining { draining := true; }
          if r.tReady > t + EPS {
            ready := MinClock(ready, At(r.tReady));
          } else if r.eng.running != [] {
            step := MinClock(step, r.eng.next);
          }
        }
      }
      assert reps[0..] == reps;
    }

    /** Route the next arrival onto some replica's queue. */
    method DispatchNext()
      requires arrivalI < |trace|
      modifies this, pool
      ensures View() == Dispatch(c, old(View()))
      ensures t == old(t) && trace == old(trace) && arrivalI == old(arrivalI) + 1
    {
      hide Where, Soonest, Start;
      var s := View();
      var (p, i) := Route(c, s);
      pool.reps := p.reps[i := p.reps[i].(eng := PushBack(p.reps[i].eng, trace[arrivalI]))];
      pool.nextRid := p.nextRid;
      RouteKeepsRest(c, s);
      arrivalI, nDispatched := arrivalI + 1, nDispatched + 1;
    }

    /** Serve every replica that is ready: its scheduler step if one is due, then admission. */
    method ServeReplicas()
      modifies pool
      ensures pool.View() == ServePool(c.model, old(pool.View()), t)
    {
      hide OnTick, ServiceStep;
      var reps := pool.reps;
      for i := 0 to |reps|
        invariant pool.View() == old(pool.View()).(reps := pool.reps) && |pool.reps| == |reps|
        invariant forall k :: 0 <= k < i ==> pool.reps[k] == ServeRep(c.model, reps[k], t)
        invariant forall k :: i <= k < |reps| ==> pool.reps[k] == reps[k]
      {
        var r := reps[i];
        if r.Alive() && r.tReady <= t + EPS {
          var e := if r.eng.running != [] && Due(r.eng.next, t) then ServiceStep(c.model, r.eng, t) else r.eng;
          pool.reps := pool.reps[i := r.(eng := OnTick(c.model, e, t))];
        }
      }
    }

    /** Everything that happens at the event time te. */
    method Fire(te: real, draining: bool)
      requires draining == AnyDraining(pool.reps)
      modifies this, pool
      ensures View() == Event(c, old(View()), te)
    {
      hide MoveTo, Dispatch, ServePool, Reap, AnyDraining;
      pool.Move(te);
      t := te;
      ghost var j := View();
      while arrivalI < |trace| && trace[arrivalI].tArrival <= t + EPS
        invariant DispatchDue(c, View()) == DispatchDue(c, j) && trace == old(trace) && t == te
        decreases |trace| - arrivalI
      {
        DispatchNext();
      }
      ServeReplicas();
      if draining { pool.ReapAt(t); }
    }

    /** Bill up to tEnd and move the clocks there. */
    method CoastTo(tEnd: real)
      modifies this, pool
      ensures View() == Jump(old(View()), tEnd)
    {
      hide MoveTo;
      pool.Move(tEnd);
      t := tEnd;
    }

    /** One iteration of the event loop. Returns whether the loop is over: nothing more happens by tEnd. */
    method Iteration(tEnd: real, idle: bool) returns (over: bool)
      requires RunInv(c, View()) && t < tEnd
      modifies this, pool
      ensures var o := Iterate(c, old(View()), tEnd, idle);
              !o.Stalled? && View() == o.s && over == o.Returned?
    {
      hide RunInv, Event, MoveTo, Jump, NextReady, NextStep, AnyDraining, Iterate;
      ghost var s := View();
      FewStalls(c, s);
      TurnIs(c, s, tEnd, idle);
      var arrival := if arrivalI < |trace| then At(trace[arrivalI].tArrival) else Never;
      var ready, step, draining := Scan();
      var next := MinClock(MinClock(arrival, ready), step);
      assert next == NextEvent(s);
      over := next.Never? || next.t > tEnd;
      if over {
        if idle { CoastTo(tEnd); }
      } else {
        var te := next.t;
        if te <= t {
          stalls := stalls + 1;
          te := NextAfter(c.gap, t);
        } else {
          stalls := 0;
        }
        Fire(te, draining);
      }
    }

    /** Advance to wall time tEnd. */
    method Step(tEnd: real, idle: bool)
      requires RunInv(c, View())
      modifies this, pool
      ensures RunInv(c, View()) && View() == StepTo(c, old(View()), tEnd, idle)
    {
      hide RunInv, Measure, QuietUntil, Iterate, StepTo, Apply;
      var over := false;
      while !over && t < tEnd - EPS
        invariant RunInv(c, View())
        invariant (if over then View() else StepTo(c, View(), tEnd, idle)) == StepTo(c, old(View()), tEnd, idle)
        decreases Measure(c, View()), !over
      {
        ghost var s := View();
        StepToUnfold(c, s, tEnd, idle);
        TurnKeeps(c, s, tEnd, idle);
        over := Iteration(tEnd, idle);
      }
      if !over { StepToStops(c, View(), tEnd, idle); }
    }

    /** Run past the horizon until no replica holds work, or tCap; reports whether work was left. */
    method Drain(tCap: real) returns (truncated: bool)
      requires RunInv(c, View())
      modifies this, pool
      ensures RunInv(c, View()) && View() == DrainAll(c, old(View()), tCap) && truncated == HasWork(View().pool.reps)
    {
      hide RunInv, Measure, QuietUntil, StepTo;
      while t < tCap && HasWork(pool.reps)
        invariant RunInv(c, View()) && DrainAll(c, View(), tCap) == DrainAll(c, old(View()), tCap)
        decreases Measure(c, View())
      {
        var before := t;
        Step(tCap, false);
        if t <= before + DRAIN_EPS { break; }
      }
      truncated := HasWork(pool.reps);
    }
  }

  /** What an iteration does, with the stall counter as the loop sets it. */
  lemma TurnIs(c: SimConfig, s: Sim, tEnd: real, idle: bool)
    requires s.stalls < STALL_LIMIT
    ensures var next := NextEvent(s);
            if next.Never? || next.t > tEnd then Iterate(c, s, tEnd, idle) == Returned(if idle then Jump(s, tEnd) else s)
            else Iterate(c, s, tEnd, idle)
                 == Advanced(Event(c, s.(stalls := if next.t <= s.t then s.stalls + 1 else 0),
                                   if next.t <= s.t then NextAfter(c.gap, s.t) else next.t))
  {
    hide Event, NextEvent, Jump;
  }

  lemma FewStalls(c: SimConfig, s: Sim)
    requires RunInv(c, s)
    ensures s.stalls < STALL_LIMIT
  {
    hide PoolInv, TraceOk, Conserved, OnTime, EnginesOk;
  }

  lemma TurnKeeps(c: SimConfig, s: Sim, tEnd: real, idle: bool)
    requires RunInv(c, s) && s.t < tEnd
    ensures !Iterate(c, s, tEnd, idle).Stalled? && RunInv(c, Iterate(c, s, tEnd, idle).s)
    ensures Iterate(c, s, tEnd, idle).Returned? ==> Measure(c, Iterate(c, s, tEnd, idle).s) <= Measure(c, s)
  {
    IterateKeeps(c, s, tEnd, idle);
    hide SimInv, Measure, Iterate, Jump, NextEvent;
    if Iterate(c, s, tEnd, idle).Returned? { CoastKeeps(c, s, tEnd); }
  }

  lemma StepToStops(c: SimConfig, s: Sim, tEnd: real, idle: bool)
    requires RunInv(c, s) && s.t >= tEnd - EPS
    ensures StepTo(c, s, tEnd, idle) == s
  {
    hide RunInv, Measure, QuietUntil, Iterate;
  }

  lemma RouteKeepsRest(c: SimConfig, s: Sim)
    ensures Route(c, s).0 == s.pool.(reps := Route(c, s).0.reps, nextRid := Route(c, s).0.nextRid)
  {
    hide Where, Soonest;
  }

  lemma AddManyMore(c: PoolConfig, p: Pool, n: nat)
    requires n > 0
    ensures AddMany(c, p, n) == AddMany(c, AddOne(c, p), n - 1)
    ensures AddMany(c, p, 0) == p && AddMany(c, AddOne(c, p), 0) == AddOne(c, p)
  {
    hide AddOne;
  }

  lemma DrainMore(reps: seq<Rep>, n: nat)
    requires 0 < n <= CountActive(reps)
    ensures var i := ReplicaPool.Newest(reps);
            && n - 1 <= CountActive(reps[i := reps[i].Drain()])
            && DrainNewest(reps, n) == DrainNewest(reps[i := reps[i].Drain()], n - 1)
  {
    CountUpdate(reps, ReplicaPool.Newest(reps), reps[ReplicaPool.Newest(reps)].Drain());
  }

  lemma DrainNone(reps: seq<Rep>)
    ensures DrainNewest(reps, 0) == reps
  {}
}
