/** The environment as an object: it drives the simulator one control step at a time and keeps the books. */
module EpisodeObjects {
  import opened Requests
  import opened Simulator
  import opened SimulatorInvariant
  import opened SimulatorRuns
  import opened RequestHistory
  import opened ClusterObjects
  import opened CostModel
  import E = Episode

  class KubeGymEnv {
    const c: E.EnvConfig
    const sim: Simulation
    var stepI: nat
    var scored: set<int>
    var cum: Costs
    var nViol: nat
    var closed: bool

    /** Start an episode. */
    constructor (c: E.EnvConfig, trace: seq<Req>)
      requires TraceOk(c.sim.model, trace)
      ensures this.c == c && Valid() && fresh(sim) && fresh(sim.pool) && View() == E.Reset(c, trace)
    {
      hide TraceOk, RunInv;
      BeginKeeps(c.sim, trace);
      this.c := c;
      sim := new Simulation(c.sim, trace);
      stepI, scored, cum, nViol, closed := 0, {}, NO_COSTS, 0, false;
    }

    ghost predicate Valid()
      reads this, sim, sim.pool
    {
      sim.c == c.sim && sim.pool.c == c.sim.pool && RunInv(c.sim, sim.View())
    }

    function View(): E.Env
      reads this, sim, sim.pool
    {
      E.Env(sim.View(), stepI, scored, cum, nViol, closed)
    }

    /** One control interval: act, advance, score. */
    method Interval(k: int) returns (viol: nat, rs: real, churn: nat)
      requires Valid()
      modifies this`scored, sim, sim.pool
      ensures Valid() && sim.View() == E.Interval(c, old(sim.View()), k)
      ensures churn == E.ChurnOf(c, old(sim.View()), k)
      ensures rs == sim.View().pool.replicaSeconds - SetTargetReplicas(c.sim, old(sim.View()), k).pool.replicaSeconds
      ensures var w := Window(old(sim.t), sim.t, old(scored), true);
              && scored == old(scored) + E.Elems(Newly(c.slo, w, RequestsNow(sim.View())))
              && viol == Violations(c.slo, w, RequestsNow(sim.View()))
    {
      hide RunInv, StepTo, RequestsNow, Newly, Violations;
      ScaleKeeps(c.sim, sim.View(), k);
      var before := sim.pool.target;
      PoolClock(c.sim, sim.View());
      sim.SetTargetReplicas(k);
      churn := E.Distance(sim.pool.target, before);
      var tPrev, rsPrev := sim.t, sim.pool.replicaSeconds;
      sim.Step(sim.t + c.dt, true);
      rs := sim.pool.replicaSeconds - rsPrev;
      var newly, reasons;
      viol, newly, reasons := ScoreWindow(c.slo, RequestsNow(sim.View()), tPrev, sim.t, scored, true);
      scored := scored + E.Elems(newly);
    }

    /** Drain past the horizon and score what completes there. */
    method Close() returns (viol: nat, rs: real, unfinished: nat, truncated: bool)
      requires Valid()
      modifies this`scored, sim, sim.pool
      ensures Valid() && sim.View() == DrainAll(c.sim, old(sim.View()), old(sim.t) + c.drainCap)
      ensures rs == sim.View().pool.replicaSeconds - old(sim.View()).pool.replicaSeconds
      ensures var w := Window(old(sim.t), sim.t, old(scored), false);
              && scored == old(scored) + E.Elems(Newly(c.slo, w, RequestsNow(sim.View())))
              && viol == Violations(c.slo, w, RequestsNow(sim.View()))
      ensures unfinished == CountUnfinished(RequestsNow(sim.View()), scored)
      ensures truncated == HasWork(sim.View().pool.reps)
    {
      hide RunInv, DrainAll, RequestsNow, Newly, Violations;
      var tNow, rsNow := sim.t, sim.pool.replicaSeconds;
      truncated := sim.Drain(tNow + c.drainCap);
      rs := sim.pool.replicaSeconds - rsNow;
      var newly, reasons;
      viol, newly, reasons := ScoreWindow(c.slo, RequestsNow(sim.View()), tNow, sim.t, scored, false);
      scored := scored + E.Elems(newly);
      unfinished := CountUnfinished(RequestsNow(sim.View()), scored);
    }

    /** One step of the episode. The last one drains, charges the drain and closes the episode. */
    method Step(k: int) returns (reward: real, terminated: bool, truncated: bool)
      requires Valid() && !closed
      modifies this, sim, sim.pool
      ensures Valid() && View() == E.Step(c, old(View()), k)
      ensures reward == -(View().cum.total - old(cum.total))
      ensures closed == (terminated || truncated) && (truncated ==> HasWork(sim.View().pool.reps))
    {
      hide RunInv, E.Interval, DrainAll, RequestsNow, Newly, Violations, CountUnfinished, Decompose, E.ChurnOf, HasWork;
      var viol, rs, churn := Interval(k);
      nViol := nViol + viol;
      stepI := stepI + 1;
      terminated, truncated := false, false;
      var cost := Decompose(c.weights, viol, rs, churn, 0, 0.0, 0);
      if stepI >= c.nSteps {
        var violDrain, rsDrain, unfinished;
        violDrain, rsDrain, unfinished, truncated := Close();
        if c.chargeDrain { cost := Decompose(c.weights, viol, rs, churn, violDrain, rsDrain, unfinished); }
        terminated := !truncated;
        closed := true;
      }
      cum := AddCosts(cum, cost);
      reward := -cost.total;
    }
  }

  lemma PoolClock(c: SimConfig, s: Sim)
    requires RunInv(c, s)
    ensures s.pool.t == s.t
  {}
}
