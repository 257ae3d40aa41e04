/** What an episode costs, read off the final stamps of its requests, its targets and its bill, and nothing else. */
module EpisodeCosts {
  import opened Requests
  import opened ReplicaEngines
  import opened ReplicaPool
  import opened Simulator
  import opened SimulatorInvariant
  import opened SimulatorRuns
  import opened ReachableStates
  import opened RequestHistory
  import opened DrainRuns
  import opened CostModel
  import opened Episode
  import L = LlmServing
  import R = RequestService

  // ---- targets, by stamps ------------------------------------------------------------------------------------------

  /** The first target of the profile is missed: time to first token, or latency. */
  predicate MissesFirst(slo: Slo, r: Req) {
    match slo
    case LlmSlo(ttft, _, _) => r.tFirst.Some? && r.tFirst.value - r.tArrival > ttft
    case ServiceSlo(latency, _, _) => r.tDone.Some? && r.tDone.value - r.tArrival > latency
  }

  /** The second is: the mean gap between the tokens of a request of `demand` tokens, or time to admission. A request
      service has no gaps. */
  predicate MissesSecond(m: Model, slo: Slo, r: Req) {
    match slo
    case LlmSlo(_, tbt, _) =>
      m.Llm? && r.tFirst.Some? && r.tLast.Some? && r.tLast.value - r.tFirst.value > tbt * (r.demand - 1.0)
    case ServiceSlo(_, queueDelay, _) => r.tAdmit.Some? && r.tAdmit.value - r.tArrival > queueDelay
  }

  predicate Misses(m: Model, slo: Slo, r: Req) { MissesFirst(slo, r) || MissesSecond(m, slo, r) }

  lemma MeanAbove(sum: real, n: real, limit: real)
    requires n > 0.0
    ensures sum / n > limit <==> sum > limit * n
  {
    var q := sum / n;
    assert q * n == sum;
    if q > limit { assert q * n > limit * n; } else { assert q * n <= limit * n; }
  }

  /** Token accounting of a completed request. */
  lemma {:induction false} LlmStamps(p: L.LlmModel, e: Engine, t: real, r: Req)
    requires L.LlmInv(p, e, t) && e.Has(r) && r.Done()
    ensures r.tFirst.Some? && r.tLast.Some? && r.nTbt as real == r.demand - 1.0
    ensures r.sumTbt == r.tLast.value - r.tFirst.value && r.sumTbt >= 0.0 && (r.nTbt == 0 ==> r.sumTbt == 0.0)
  {
    assert L.GoodRequest(p, r) && L.TokenOk(r, t);
  }

  lemma ServiceStamps(p: R.RsModel, e: Engine, t: real, r: Req)
    requires R.RsInv(p, e, t) && R.Steady(e) && e.Has(r)
    ensures r.nTbt == 0
  {
    hide R.RsInv, R.Alone;
  }

  /** Whether a completed request is a violation, and for which reason, by its stamps: the first target if that is
      missed, whatever the second; the second if only that is missed. */
  lemma {:induction false} MissesExactly(m: Model, slo: Slo, e: Engine, t: real, r: Req)
    requires Inv(m, e, t) && e.Has(r) && r.Done()
    ensures ViolatesCompleted(slo, r)
            == if MissesFirst(slo, r) then Some(if slo.LlmSlo? then Ttft else Latency)
               else if MissesSecond(m, slo, r) then Some(if slo.LlmSlo? then Tbt else QueueDelay)
               else None
  {
    hide L.LlmInv, L.Paced, R.RsInv, R.Steady;
    if m.Llm? {
      LlmStamps(m.llm, e, t, r);
      if slo.LlmSlo? {
        if r.nTbt > 0 { MeanAbove(r.sumTbt, r.nTbt as real, slo.tbt); }
      }
    } else {
      ServiceStamps(m.rs, e, t, r);
    }
  }

  /** In every state of a run: the requests as they are now. */
  lemma {:induction false} NowMisses(c: SimConfig, s: Sim, slo: Slo, i: nat)
    requires RunInv(c, s) && i < |s.trace| && RequestsNow(s)[i].Done()
    ensures ViolatesCompleted(slo, RequestsNow(s)[i]).Some? <==> Misses(c.model, slo, RequestsNow(s)[i])
  {
    hide SimInv, RequestsNow, HeldMs, Inv, ViolatesCompleted, MissesFirst, MissesSecond, Holds;
    SimFacts(c, s);
    if i < s.arrivalI {
      var x := TraceIsHeld(s, i);
      CurrentIs(c, s, i, x);
      HeldSomewhere(s, x);
      var k :| 0 <= k < |Everyone(s)| && Everyone(s)[k].eng.Has(x);
      EngineSound(c, s, Everyone(s)[k]);
      MissesExactly(c.model, slo, Everyone(s)[k].eng, s.t, x);
    } else {
      UndispatchedIs(c, s, i);
      FreshInTrace(c.model, s.trace, i);
    }
  }

  lemma HeldSomewhere(s: Sim, x: Req)
    requires Holds(Everyone(s), x)
    ensures exists k :: 0 <= k < |Everyone(s)| && Everyone(s)[k].eng.Has(x)
  {}

  // ---- what is charged, by stamps -----------------------------------------------------------------------------------

  /** Late at one of the control times ts, or finished having missed a target. */
  predicate Bad(m: Model, slo: Slo, ts: seq<real>, r: Req) { Late(slo, ts, r) || (r.Done() && Misses(m, slo, r)) }

  function BadCount(m: Model, slo: Slo, ts: seq<real>, rs: seq<Req>): nat { Tally(r => Bad(m, slo, ts, r), rs) }

  /** Bad, or never finished. */
  function ChargedCount(m: Model, slo: Slo, ts: seq<real>, rs: seq<Req>): nat {
    Tally(r => Bad(m, slo, ts, r) || !r.Done(), rs)
  }

  lemma {:induction false} TallyEqual(f: Req -> bool, g: Req -> bool, rs: seq<Req>)
    requires forall i :: 0 <= i < |rs| ==> f(rs[i]) == g(rs[i])
    ensures Tally(f, rs) == Tally(g, rs)
  {
    if rs != [] { TallyEqual(f, g, rs[..|rs| - 1]); }
  }

  lemma {:induction false} SameCounts(c: SimConfig, s: Sim, slo: Slo, ts: seq<real>)
    requires RunInv(c, s)
    ensures ViolatedCount(slo, ts, RequestsNow(s)) == BadCount(c.model, slo, ts, RequestsNow(s))
    ensures Episode.ChargedCount(slo, ts, RequestsNow(s)) == ChargedCount(c.model, slo, ts, RequestsNow(s))
  {
    hide RunInv, RequestsNow, ViolatesCompleted, Misses, Late, Tally;
    var rs, m := RequestsNow(s), c.model;
    forall i | 0 <= i < |rs| ensures Violated(slo, ts, rs[i]) == Bad(m, slo, ts, rs[i]) {
      if rs[i].Done() { NowMisses(c, s, slo, i); }
    }
    TallyEqual(r => Violated(slo, ts, r), r => Bad(m, slo, ts, r), rs);
    TallyEqual(r => Charged(slo, ts, r), r => Bad(m, slo, ts, r) || !r.Done(), rs);
  }

  // ---- churn ---------------------------------------------------------------------------------------------------------

  function Abs(x: int): nat { if x < 0 then -x else x }

  /** The target in force after the requests ks. */
  function TargetAfter(c: PoolConfig, ks: seq<int>): int {
    if ks == [] then if c.k0 > c.kMin then c.k0 else c.kMin
    else
      var k := ks[|ks| - 1];
      if k <= c.kMin then c.kMin else if k > c.kMax && !c.allowHypothetical then c.kMax else k
  }

  /** The total change of the target over the requests ks. */
  function TotalChange(c: PoolConfig, ks: seq<int>): nat {
    if ks == [] then 0
    else TotalChange(c, ks[..|ks| - 1]) + Abs(TargetAfter(c, ks) - TargetAfter(c, ks[..|ks| - 1]))
  }

  lemma {:induction false} IntervalTarget(c: EnvConfig, s: Sim, k: int)
    requires RunInv(c.sim, s)
    ensures Interval(c, s, k).pool.target == Clamp(c.sim.pool, k) == SetTargetReplicas(c.sim, s, k).pool.target
  {
    hide SimInv, SetTarget, QuietUntil, Measure, Rescales, NoNewDrain, DrainsNewest, PoolInv;
    TargetSet(c.sim, s, k);
    var s0 := SetTargetReplicas(c.sim, s, k);
    var ts := StepToTurns(c.sim, s0, s.t + c.dt, true);
    TurnsPool(c.sim, s0, ts);
    hide StepTo;
  }

  lemma TargetSet(c: SimConfig, s: Sim, k: int)
    requires RunInv(c, s)
    ensures RunInv(c, SetTargetReplicas(c, s, k)) && SetTargetReplicas(c, s, k).pool.target == Clamp(c.pool, k)
  {
    ScaleKeeps(c, s, k);
    SetTargetKeeps(c.pool, s.pool, k);
    hide PoolInv, TraceOk, Conserved, EnginesOk, SetTarget, Rescales, NoNewDrain, DrainsNewest;
  }

  lemma StepIsInterval(c: EnvConfig, v: Env, k: int)
    requires RunInv(c.sim, v.sim) && v.stepI + 1 < c.nSteps
    ensures Step(c, v, k).sim == Interval(c, v.sim, k)
  {
    hide RunInv, Interval;
  }

  lemma {:induction false} RunTarget(c: EnvConfig, trace: seq<Req>, ks: seq<int>)
    requires TraceOk(c.sim.model, trace) && |ks| < c.nSteps
    ensures Run(c, trace, ks).sim.pool.target == TargetAfter(c.sim.pool, ks)
  {
    hide RunInv, TraceOk, Step, Interval, OpenInv;
    if ks == [] {
      ResetKeeps(c.sim.pool);
    } else {
      var n := |ks| - 1;
      RunOpen(c, trace, ks[..n]);
      StepIsInterval(c, Run(c, trace, ks[..n]), ks[n]);
      IntervalTarget(c, Run(c, trace, ks[..n]).sim, ks[n]);
    }
  }

  /** Churn is the total change of the target. */
  lemma {:induction false} ChurnIs(c: EnvConfig, trace: seq<Req>, ks: seq<int>)
    requires TraceOk(c.sim.model, trace) && |ks| <= c.nSteps
    ensures Churn(c, trace, ks) == TotalChange(c.sim.pool, ks)
  {
    hide RunInv, TraceOk, Run, SetTargetReplicas;
    if ks != [] {
      var n := |ks| - 1;
      ChurnIs(c, trace, ks[..n]);
      RunTarget(c, trace, ks[..n]);
      TargetSet(c.sim, Run(c, trace, ks[..n]).sim, ks[n]);
    }
  }

  // ---- the whole episode ----------------------------------------------------------------------------------------------

  /** The accumulated costs, item by item: b1 bad requests and r1 replica-seconds by the horizon, and the churn; and,
      where the drain is charged, the bad requests and the replica-seconds it adds to make b2 and r2, and the
      unfinished. */
  predicate Priced(c: EnvConfig, cum: Costs, b1: nat, b2: nat, r1: real, r2: real, churn: nat, unfinished: nat) {
    var w, drain := c.weights, if c.chargeDrain then 1.0 else 0.0;
    && cum.slo == w.slo * (b1 as real) && cum.resource == w.resource * r1 && cum.churn == w.churn * (churn as real)
    && cum.sloDrain == drain * (w.slo * ((b2 - b1) as real))
    && cum.resourceDrain == drain * (w.resource * (r2 - r1))
    && cum.sloUnfinished == drain * (w.slo * (unfinished as real))
    && cum.total == cum.slo + cum.resource + cum.churn + cum.sloDrain + cum.resourceDrain + cum.sloUnfinished
  }

  lemma ItemsArePriced(c: EnvConfig, cum: Costs, b1: nat, b2: nat, r1: real, r2: real, churn: nat, unfinished: nat)
    requires b1 <= b2 && Items(c, cum, b1, b2 - b1, r1, r2, churn, unfinished)
    ensures Priced(c, cum, b1, b2, r1, r2, churn, unfinished)
  {}

  lemma Totalled(c: EnvConfig, cum: Costs, b1: nat, b2: nat, r1: real, r2: real, churn: nat, unfinished: nat)
    requires b1 <= b2 && Items(c, cum, b1, b2 - b1, r1, r2, churn, unfinished)
    ensures var w := c.weights;
            cum.total == if c.chargeDrain
                         then w.slo * ((b2 + unfinished) as real) + w.resource * r2 + w.churn * (churn as real)
                         else w.slo * (b1 as real) + w.resource * r1 + w.churn * (churn as real)
  {
    ProductSum(c.weights.slo, b1, b2 - b1);
    ProductSum(c.weights.slo, b2, unfinished);
    Resources(c.weights.resource, r1, r2);
  }

  /** Over a whole episode, whatever the actions: scored are exactly the requests that completed or were late at a
      control time, scored and unfinished requests partition the trace, and the accumulated cost is the weighted number
      of requests that were late at a control time, missed a target or never finished, each once, plus the weighted
      final replica-seconds and the weighted total change of the target. Where the drain is not charged, it is that of
      the requests bad by the horizon, of the replica-seconds up to it, and of the same change. Every item of the costs
      is its own share of this, and the violations reported are those by the horizon. */
  lemma {:induction false} EpisodeCharges(c: EnvConfig, trace: seq<Req>, ks: seq<int>)
    requires TraceOk(c.sim.model, trace) && |ks| == c.nSteps >= 1
    ensures var v, ts, s1 := Run(c, trace, ks), Episode.Times(c, trace, ks), Horizon(c, trace, ks);
            var rs, m, w, churn := RequestsNow(v.sim), c.sim.model, c.weights, TotalChange(c.sim.pool, ks);
            var b1, b2 := BadCount(m, c.slo, ts, RequestsNow(s1)), BadCount(m, c.slo, ts, rs);
            && v.closed
            && (forall i :: 0 <= i < |rs| ==>
                  (rs[i].seqNo in v.scored <==> rs[i].Done() || Late(c.slo, ts, rs[i])))
            && |v.scored| + CountUnfinished(rs, v.scored) == |trace|
            && (v.cum.total == if c.chargeDrain
                               then w.slo * (ChargedCount(m, c.slo, ts, rs) as real) + w.resource * v.sim.pool.replicaSeconds
                                    + w.churn * (churn as real)
                               else w.slo * (b1 as real) + w.resource * s1.pool.replicaSeconds + w.churn * (churn as real))
            && v.nViol == b1
            && Priced(c, v.cum, b1, b2, s1.pool.replicaSeconds, v.sim.pool.replicaSeconds, churn,
                      CountUnfinished(rs, v.scored))
  {
    hide RunInv, TraceOk, Run, Episode.Times, RequestsNow, CountUnfinished, Late, Interval, Churn, TotalChange,
         ChargedCount, BadCount, Episode.ChargedCount, ViolatedCount, Items, Horizon;
    EpisodeSettles(c, trace, ks);
    ChurnIs(c, trace, ks);
    var v, ts, s1 := Run(c, trace, ks), Episode.Times(c, trace, ks), Horizon(c, trace, ks);
    SameCounts(c.sim, v.sim, c.slo, ts);
    SameCounts(c.sim, s1, c.slo, ts);
    var b1, b2 := BadCount(c.sim.model, c.slo, ts, RequestsNow(s1)), BadCount(c.sim.model, c.slo, ts, RequestsNow(v.sim));
    var unfinished := CountUnfinished(RequestsNow(v.sim), v.scored);
    ItemsArePriced(c, v.cum, b1, b2, s1.pool.replicaSeconds, v.sim.pool.replicaSeconds, TotalChange(c.sim.pool, ks), unfinished);
    Totalled(c, v.cum, b1, b2, s1.pool.replicaSeconds, v.sim.pool.replicaSeconds, TotalChange(c.sim.pool, ks), unfinished);
    hide Priced;
  }
}
