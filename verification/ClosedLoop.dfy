/** Controllers in the loop: what a controller reads of the pool follows from what it decided before, so its promises
    over runs hold of every episode it drives. */
module ClosedLoop {
  import opened Numbers
  import opened Requests
  import opened ReplicaPool
  import opened Simulator
  import opened SimulatorInvariant
  import opened SimulatorRuns
  import opened DrainRuns
  import opened Episode
  import C = Controllers

  /** By the end of a control interval the replicas decided on exist, and no more than those or what existed
      before. */
  lemma {:induction false} IntervalPool(c: EnvConfig, s: Sim, k: int)
    requires RunInv(c.sim, s)
    ensures var n, k' := |Interval(c, s, k).pool.reps|, Clamp(c.sim.pool, k);
            k' <= n && (n <= |s.pool.reps| || n <= k')
  {
    hide SimInv, SetTarget, QuietUntil, Measure, Rescales, NoNewDrain, DrainsNewest, PoolInv, StepTo;
    ScaledPool(c.sim, s, k);
    var s0 := SetTargetReplicas(c.sim, s, k);
    var ts := StepToTurns(c.sim, s0, s.t + c.dt, true);
    TurnsPool(c.sim, s0, ts);
    TargetExists(c.sim, Interval(c, s, k));
  }

  lemma ScaledPool(c: SimConfig, s: Sim, k: int)
    requires RunInv(c, s)
    ensures var p, k' := SetTargetReplicas(c, s, k).pool, Clamp(c.pool, k);
            && RunInv(c, SetTargetReplicas(c, s, k)) && p.target == k'
            && (|p.reps| <= |s.pool.reps| || |p.reps| <= k')
  {
    ScaleKeeps(c, s, k);
    SetTargetKeeps(c.pool, s.pool, k);
    SetTargetSize(c.pool, s.pool, k);
    hide PoolInv, TraceOk, Conserved, EnginesOk, SetTarget, Rescales, NoNewDrain, DrainsNewest;
  }

  lemma TargetExists(c: SimConfig, s: Sim)
    requires SimInv(c, s)
    ensures s.pool.target <= |s.pool.reps|
  {
    CountPrefix(s.pool.reps, |s.pool.reps|);
  }

  /** The readings of the episode the decisions ks drive: the replicas that exist at each control time, with any load
      and any time. */
  ghost predicate ReadFrom(c: EnvConfig, l: C.Limits, trace: seq<Req>, ks: seq<int>, rs: seq<C.Reading>)
    requires TraceOk(c.sim.model, trace)
  {
    && l.kMin == c.sim.pool.kMin && l.kMax == c.sim.pool.kMax && |rs| == |ks| <= c.nSteps
    && forall i :: 0 <= i < |rs| ==> rs[i].cur == MaxInt(|Run(c, trace, ks[..i]).sim.pool.reps|, l.kMin)
  }

  /** Requests in flight on the replicas that accept, and the number of those replicas. */
  function InFlight(reps: seq<Rep>, t: real): nat {
    if reps == [] then 0
    else (if reps[0].Accepting(t) then |reps[0].eng.running| + |reps[0].eng.slot| else 0) + InFlight(reps[1..], t)
  }

  function ReadyCount(reps: seq<Rep>, t: real): nat {
    if reps == [] then 0 else (if reps[0].Accepting(t) then 1 else 0) + ReadyCount(reps[1..], t)
  }

  /** The concurrency metric of a state. */
  function Conc(s: Sim): real { InFlight(s.pool.reps, s.t) as real / Max(ReadyCount(s.pool.reps, s.t) as real, 1.0) }

  /** The load read is the concurrency of the cluster, and the time is its time. */
  ghost predicate ReadsConc(c: EnvConfig, l: C.Limits, trace: seq<Req>, ks: seq<int>, rs: seq<C.Reading>)
    requires TraceOk(c.sim.model, trace)
  {
    && ReadFrom(c, l, trace, ks, rs)
    && forall i :: 0 <= i < |rs| ==>
         rs[i].load == Conc(Run(c, trace, ks[..i]).sim) && rs[i].t == Run(c, trace, ks[..i]).sim.t
  }

  lemma StepSim(c: EnvConfig, v: Env, k: int)
    requires RunInv(c.sim, v.sim) && v.stepI + 1 < c.nSteps
    ensures Step(c, v, k).sim == Interval(c, v.sim, k)
  {
    hide RunInv, Interval;
  }

  /** Between two control times of an episode the pool follows the decision. */
  lemma {:induction false} RunPool(c: EnvConfig, trace: seq<Req>, ks: seq<int>, i: nat)
    requires TraceOk(c.sim.model, trace) && i + 1 < |ks| <= c.nSteps
    requires c.sim.pool.kMin <= ks[i] <= c.sim.pool.kMax
    ensures var n0, n1 := |Run(c, trace, ks[..i]).sim.pool.reps|, |Run(c, trace, ks[..i + 1]).sim.pool.reps|;
            ks[i] <= n1 && (n1 <= n0 || n1 <= ks[i])
  {
    hide RunInv, TraceOk, Step, Interval, OpenInv;
    RunOpen(c, trace, ks[..i]);
    var v := Run(c, trace, ks[..i]);
    assert ks[..i + 1][..i] == ks[..i] && ks[..i + 1][i] == ks[i];
    StepSim(c, v, ks[i]);
    IntervalPool(c, v.sim, ks[i]);
  }

  /** Whatever the decisions within the limits, what is read follows them. */
  lemma {:induction false} ReadingsFollow(c: EnvConfig, l: C.Limits, trace: seq<Req>, ks: seq<int>, rs: seq<C.Reading>)
    requires TraceOk(c.sim.model, trace) && ReadFrom(c, l, trace, ks, rs)
    requires forall i :: 0 <= i < |ks| ==> l.kMin <= ks[i] <= l.kMax
    ensures C.Actuated(l, rs, ks)
  {
    hide TraceOk, RunInv, Run;
    forall i | 0 <= i < |rs| - 1 ensures ks[i] <= rs[i + 1].cur <= MaxInt(rs[i].cur, ks[i]) {
      RunPool(c, trace, ks, i);
    }
  }

  /** In every episode the concurrency rule drives, two consecutive moves in opposite directions are at least one
      cooldown apart. */
  lemma {:induction false} CooldownHolds(c: EnvConfig, l: C.Limits, p: C.QueueParams, trace: seq<Req>, ks: seq<int>,
                                         rs: seq<C.Reading>, i: nat, j: nat)
    requires TraceOk(c.sim.model, trace) && ReadFrom(c, l, trace, ks, rs) && C.QueueDecides(l, p, rs, ks)
    requires p.cooldown > 0.0 && i < j < |rs|
    requires ks[i] != rs[i].cur && C.Sign(ks[j], rs[j].cur) == -C.Sign(ks[i], rs[i].cur)
    requires forall k :: i < k < j ==> ks[k] == rs[k].cur
    ensures rs[j].t - rs[i].t >= p.cooldown
  {
    hide TraceOk, ReadFrom, C.QueueRule;
    forall k | 0 <= k < |ks| ensures l.kMin <= ks[k] <= l.kMax {
      C.QueueInRange(l, p, rs[k], C.QueueRun(l, p, rs[..k]));
    }
    ReadingsFollow(c, l, trace, ks, rs);
    C.ReversalsAreApart(l, p, rs, ks, i, j);
  }

  /** In every episode the concurrency rule drives, one interval after a control time the replicas that exist can
      hold what was in flight then at the target concurrency, k_max of them if those cannot, up to the hysteresis
      share; unless that would have reversed a move made within the cooldown. */
  lemma {:induction false} LoadIsFollowed(c: EnvConfig, l: C.Limits, p: C.QueueParams, trace: seq<Req>, ks: seq<int>,
                                          rs: seq<C.Reading>, i: nat)
    requires TraceOk(c.sim.model, trace) && ReadFrom(c, l, trace, ks, rs) && C.QueueDecides(l, p, rs, ks)
    requires i + 1 < |rs| && rs[i].t - C.NEVER_CHANGED.lastChange >= p.cooldown
    ensures C.Holds(l, p, rs[i].cur, rs[i].load, |Run(c, trace, ks[..i + 1]).sim.pool.reps|)
            || (p.cooldown > 0.0 && exists j :: 0 <= j < i && C.Reverses(l, p, rs, ks, j, i))
  {
    hide TraceOk, C.QueueRule, C.QueueRun, C.QueueRaw, C.Within, Run, C.CoversLoad, C.Holds, C.Reverses;
    C.QueueInRange(l, p, rs[i], C.QueueRun(l, p, rs[..i]));
    RunPool(c, trace, ks, i);
    C.QueueTracks(l, p, rs, ks, i);
    if C.CoversLoad(l, p, rs[i].cur, rs[i].load, ks[i]) {
      C.ShareCovers(l, p, rs[i].cur, rs[i].load, ks[i], |Run(c, trace, ks[..i + 1]).sim.pool.reps|);
    }
  }

  /** In every episode the autoscaler drives, control times on the grid, no decision goes below the current count
      while more was asked for inside the scale-down window, under the conditions of StabilisedExactly. */
  lemma {:induction false} StabilisationHolds(c: EnvConfig, l: C.Limits, p: C.HpaParams, trace: seq<Req>, ks: seq<int>,
                                              rs: seq<C.Reading>)
    requires TraceOk(c.sim.model, trace) && ReadFrom(c, l, trace, ks, rs)
    requires C.HpaDecides(l, p, rs, ks) && C.OnGrid(l, rs) && p.target > 0.0
    requires p.upWindow < l.dt || l.kMax <= l.kMin + 1 || p.tolerance >= 1.0
    ensures C.RunStabilised(l, p, rs, ks)
  {
    hide TraceOk, ReadFrom, C.HpaRule, C.RunStabilised, C.OnGrid;
    forall k | 0 <= k < |ks| ensures l.kMin <= ks[k] <= l.kMax {
      C.HpaInRange(l, p, rs[k], C.HpaRun(l, p, rs[..k]));
    }
    ReadingsFollow(c, l, trace, ks, rs);
    C.LoopStabilised(l, p, rs, ks);
  }
}
