/** What holds in every state that any sequence of control actions and loop iterations can reach, from any
    trace the workload source may hand out and under any dispatch policy. */
module ReachableStates {
  import opened Requests
  import opened ReplicaEngines
  import opened ReplicaPool
  import opened Simulator
  import opened SimulatorInvariant
  import opened SimulatorRuns
  import L = LlmServing
  import R = RequestService

  /** Live and retired replicas. */
  function Everyone(s: Sim): seq<Rep> { s.pool.reps + s.pool.retired }

  // ---- conservation ---------------------------------------------------------------------------------------

  lemma {:induction false} PrefixDistinct(m: Model, trace: seq<Req>, n: nat)
    requires TraceOk(m, trace) && n <= |trace|
    ensures forall x :: multiset(trace[..n])[x] <= 1
    ensures forall i :: n <= i < |trace| ==> multiset(trace[..n])[trace[i]] == 0
  {
    if n > 0 {
      PrefixDistinct(m, trace, n - 1);
      assert trace[..n] == trace[..n - 1] + [trace[n - 1]];
      assert forall i :: n <= i < |trace| ==> trace[i] != trace[n - 1];
    }
  }

  /** The dispatched prefix of the trace is held, each request exactly once, by the batches, queues and
      completions of the replicas that exist or existed; the rest of the trace is held nowhere. */
  lemma {:induction false} NothingLost(c: SimConfig, trace: seq<Req>, acts: seq<Action>)
    requires TraceOk(c.model, trace)
    ensures var s := Reached(c, trace, acts);
            var held := HeldMs(s.pool.reps) + HeldMs(s.pool.retired);
            && s.trace == trace && s.nDispatched == s.arrivalI <= |trace|
            && held == multiset(trace[..s.arrivalI])
            && (forall x :: held[x] <= 1)
            && (forall i :: s.arrivalI <= i < |trace| ==> held[trace[i]] == 0)
  {
    hide TraceOk, PoolInv, EnginesOk, HeldMs;
    PrefixDistinct(c.model, trace, Reached(c, trace, acts).arrivalI);
  }

  /** A released replica took nothing unfinished with it. */
  lemma RetiredAreEmpty(c: SimConfig, trace: seq<Req>, acts: seq<Action>, r: Rep)
    requires TraceOk(c.model, trace) && r in Reached(c, trace, acts).pool.retired
    ensures r.eng.running == [] && r.eng.slot == [] && r.tReleased.Some? && r.draining
  {
    hide TraceOk, Conserved, EnginesOk;
    assert RetiredOk(Reached(c, trace, acts).pool);
  }

  /** Once time has passed, dispatch is on time to within the event tolerance: nothing that has arrived waits for
      it, and nothing is dispatched earlier than the tolerance before its arrival. */
  lemma {:induction false} DispatchedOnTime(c: SimConfig, trace: seq<Req>, acts: seq<Action>, i: nat)
    requires TraceOk(c.model, trace) && Reached(c, trace, acts).t > 0.0 && i < |trace|
    ensures var s := Reached(c, trace, acts);
            if i < s.arrivalI then trace[i].tArrival <= s.t + EPS else trace[i].tArrival > s.t
  {
    hide RunInv, TraceOk;
    OnTimeAt(c, Reached(c, trace, acts), i);
  }

  lemma {:induction false} OnTimeAt(c: SimConfig, s: Sim, i: nat)
    requires RunInv(c, s) && s.t > 0.0 && i < |s.trace|
    ensures if i < s.arrivalI then s.trace[i].tArrival <= s.t + EPS else s.trace[i].tArrival > s.t
  {
    hide PoolInv, EnginesOk, TraceOk, HeldMs;
    if i < s.arrivalI {
      TraceSorted(c.model, s.trace, i, s.arrivalI - 1);
    } else {
      TraceSorted(c.model, s.trace, s.arrivalI, i);
    }
  }

  lemma Undispatched(c: SimConfig, s: Sim)
    requires RunInv(c, s) && s.t > 0.0 && s.arrivalI < |s.trace|
    ensures s.trace[s.arrivalI].tArrival > s.t
  {
    hide PoolInv, TraceOk, EnginesOk, Conserved;
  }

  lemma TraceSorted(m: Model, trace: seq<Req>, i: nat, j: nat)
    requires TraceOk(m, trace) && i <= j < |trace|
    ensures trace[i].tArrival <= trace[j].tArrival
  {
    if i < j { assert Before(trace[i], trace[j]); }
  }

  /** From no reachable state does the loop stall: the next turn either ends the loop or moves the clock strictly
      forward. A turn that finds its event not ahead of the clock happens at the start of the episode only. */
  lemma {:induction false} NeverStalls(c: SimConfig, trace: seq<Req>, acts: seq<Action>, tEnd: real, idle: bool)
    requires TraceOk(c.model, trace) && Reached(c, trace, acts).t < tEnd
    ensures var s := Reached(c, trace, acts);
            var o := Iterate(c, s, tEnd, idle);
            && !o.Stalled? && s.stalls <= 1
            && (o.Advanced? ==> o.s.t > s.t && Measure(c, o.s) < Measure(c, s) && (o.s.stalls == 1 ==> s.t == 0.0))
  {
    hide TraceOk, SimInv, Iterate, Measure;
    IterateKeeps(c, Reached(c, trace, acts), tEnd, idle);
    NoEarlier(c, Reached(c, trace, acts));
  }

  // ---- order -------------------------------------------------------------------------------------------------

  lemma {:induction false} EngineSound(c: SimConfig, s: Sim, r: Rep)
    requires RunInv(c, s) && r in Everyone(s)
    ensures Inv(c.model, r.eng, s.t)
  {
    hide PoolInv, TraceOk, Conserved, OnTime, Inv;
    if r in s.pool.reps { assert RepOk(c.model, r, s.t); }
  }

  lemma EngineOrder(m: Model, e: Engine, t: real)
    requires Inv(m, e, t)
    ensures Increasing(e.Line()) && AdmitMonotone(e) && Stamped(e, t)
  {}

  /** On every replica the batch followed by the queue is in dispatch order, and first admissions follow
      dispatch order: neither admission nor preemption ever reorders. */
  lemma {:induction false} NeverReorders(c: SimConfig, trace: seq<Req>, acts: seq<Action>, r: Rep)
    requires TraceOk(c.model, trace) && r in Everyone(Reached(c, trace, acts))
    ensures forall i, j :: 0 <= i < j < |r.eng.running + r.eng.slot| ==>
              Before((r.eng.running + r.eng.slot)[i], (r.eng.running + r.eng.slot)[j])
    ensures forall a, b :: r.eng.Has(a) && r.eng.Has(b) && Before(a, b) && b.tAdmit.Some? ==>
              a.tAdmit.Some? && a.tAdmit.value <= b.tAdmit.value
  {
    hide RunInv;
    var s := Reached(c, trace, acts);
    EngineSound(c, s, r);
    hide Inv;
    EngineOrder(c.model, r.eng, s.t);
  }

  /** A batch is only ever in service on a replica that is ready, and its clock lies strictly ahead. */
  lemma {:induction false} ClocksAhead(c: SimConfig, trace: seq<Req>, acts: seq<Action>, r: Rep)
    requires TraceOk(c.model, trace) && r in Reached(c, trace, acts).pool.reps && r.eng.running != []
    ensures var s := Reached(c, trace, acts);
            r.Serving(s.t) && r.eng.next.At? && r.eng.next.t > s.t
  {
    hide PoolInv, TraceOk, Conserved, OnTime, Inv;
    var s := Reached(c, trace, acts);
    assert RepOk(c.model, r, s.t);
    RunningAhead(c.model, r, s.t);
  }

  // ---- KV budget and tokens -----------------------------------------------------------------------------------

  /** The KV budget holds or a single sequence runs, and whatever waits, preempted victims included, fits an
      empty replica. */
  lemma {:induction false} KvBudgetHolds(c: SimConfig, trace: seq<Req>, acts: seq<Action>, r: Rep)
    requires TraceOk(c.model, trace) && c.model.Llm? && r in Everyone(Reached(c, trace, acts))
    ensures L.KvUsed(r.eng) <= c.model.llm.kvBudget || |r.eng.running| <= 1
    ensures |r.eng.running| <= c.model.llm.maxSeqs
    ensures forall q :: q in r.eng.slot ==> q.size + q.progress <= c.model.llm.kvBudget
  {
    hide RunInv;
    EngineSound(c, Reached(c, trace, acts), r);
  }

  /** Tokens of one request: never more than asked for, all of them exactly when done, and inter-token gaps
      that add up to the time between its first and its last token. */
  lemma {:induction false} TokensAddUp(c: SimConfig, trace: seq<Req>, acts: seq<Action>, r: Rep, q: Req)
    requires TraceOk(c.model, trace) && c.model.Llm? && r in Everyone(Reached(c, trace, acts)) && r.eng.Has(q)
    ensures 0.0 <= q.progress <= q.demand && (q.progress == q.demand <==> q.Done())
    ensures q.tFirst.Some? <==> q.progress >= 1.0
    ensures q.tFirst.Some? ==>
              && q.tLast.Some? && q.sumTbt == q.tLast.value - q.tFirst.value
              && q.nTbt as real == q.progress - 1.0 && q.maxTbt * (q.nTbt as real) >= q.sumTbt
  {
    hide RunInv;
    var s := Reached(c, trace, acts);
    EngineSound(c, s, r);
    TokenFacts(c.model.llm, r.eng, s.t, q);
  }

  lemma TokenFacts(p: L.LlmModel, e: Engine, t: real, q: Req)
    requires L.LlmInv(p, e, t) && e.Has(q)
    ensures L.GoodRequest(p, q) && L.TokenOk(q, t)
    ensures q.progress > 0.0 ==> q.progress >= 1.0
  {
    assert L.TokenOk(q, t);
  }

  /** Decode speed, over every run: between its first and its last token a request takes at least a shortest step time,
      up to the event tolerance, for every token after the first; whatever arrives, is admitted, preempted or drained
      in between, and however often it was evicted itself. */
  lemma {:induction false} TokensTakeTime(c: SimConfig, trace: seq<Req>, acts: seq<Action>, r: Rep, q: Req)
    requires TraceOk(c.model, trace) && c.model.Llm? && r in Everyone(Reached(c, trace, acts)) && r.eng.Has(q)
    requires q.tFirst.Some?
    ensures var p := c.model.llm;
            q.tLast.Some? && q.tLast.value - q.tFirst.value >= (p.a0 + p.a1 - EPS) * (q.progress - 1.0)
  {
    hide RunInv, L.LlmInv, L.Paced, L.TokenOk, L.GoodRequest;
    var s := Reached(c, trace, acts);
    EngineSound(c, s, r);
    TokenFacts(c.model.llm, r.eng, s.t, q);
    SpacedOut(c.model.llm, r.eng, s.t, q);
  }

  lemma SpacedOut(p: L.LlmModel, e: Engine, t: real, q: Req)
    requires L.Paced(p, e, t) && e.Has(q) && L.TokenOk(q, t) && q.tFirst.Some?
    ensures q.tLast.Some? && q.tLast.value - q.tFirst.value >= (p.a0 + p.a1 - EPS) * (q.progress - 1.0)
  {
    assert q.nTbt as real == q.progress - 1.0 && q.sumTbt == q.tLast.value - q.tFirst.value;
    if L.Pace(p) > 0.0 {
      assert L.Spaced(p, q);
    } else {
      NotPositive(L.Pace(p), q.nTbt as real);
    }
  }

  lemma NotPositive(x: real, y: real)
    requires x <= 0.0 && y >= 0.0
    ensures x * y <= 0.0
  {}

  /** Work delivered by the engines, over live and retired replicas. */
  function WorkDelivered(reps: seq<Rep>): real {
    if reps == [] then 0.0 else reps[0].eng.work + WorkDelivered(reps[1..])
  }

  /** Progress made by the requests, over live and retired replicas. */
  function ProgressMade(reps: seq<Rep>): real {
    if reps == [] then 0.0 else Sum(Progress, reps[0].eng.Held()) + ProgressMade(reps[1..])
  }

  lemma EngineAccounts(m: Model, e: Engine, t: real)
    requires Inv(m, e, t)
    ensures e.work == Sum(Progress, e.Held())
  {}

  lemma {:induction false} AllAccount(m: Model, reps: seq<Rep>, t: real)
    requires forall r :: r in reps ==> Inv(m, r.eng, t)
    ensures WorkDelivered(reps) == ProgressMade(reps)
  {
    hide Inv;
    if reps != [] {
      EngineAccounts(m, reps[0].eng, t);
      AllAccount(m, reps[1..], t);
    }
  }

  /** Everything the engines ever delivered is progress of some request, across preemptions and releases. */
  lemma {:induction false} WorkIsProgress(c: SimConfig, trace: seq<Req>, acts: seq<Action>)
    requires TraceOk(c.model, trace)
    ensures WorkDelivered(Everyone(Reached(c, trace, acts))) == ProgressMade(Everyone(Reached(c, trace, acts)))
  {
    hide RunInv, TraceOk;
    var s := Reached(c, trace, acts);
    forall r | r in Everyone(s) ensures Inv(c.model, r.eng, s.t) { EngineSound(c, s, r); }
    hide Inv;
    AllAccount(c.model, Everyone(s), s.t);
  }

  // ---- request-service times -------------------------------------------------------------------------------------

  /** A completed request took its demand, up to the completion tolerance, at least; at most its demand slowed
      down by a full batch; and at most its demand when there is no contention. */
  lemma {:induction false} ServiceTimes(c: SimConfig, trace: seq<Req>, acts: seq<Action>, r: Rep, q: Req)
    requires TraceOk(c.model, trace) && c.model.Rs? && r in Everyone(Reached(c, trace, acts)) && q in r.eng.fin
    ensures var p := c.model.rs;
            && q.tAdmit.Some? && q.tDone.Some? && q.progress <= q.demand
            && q.tAdmit.value + q.demand - (0.000000000001 + 0.000000001 * q.demand) <= q.tDone.value
            && q.tDone.value <= q.tAdmit.value + q.demand * (1.0 + p.contention * ((p.maxConc - 1) as real))
            && (p.contention == 0.0 ==> q.tDone.value <= q.tAdmit.value + q.demand)
  {
    hide RunInv, R.Slow, R.RsInv, R.Steady;
    var s := Reached(c, trace, acts);
    EngineSound(c, s, r);
    R.ResponseTime(c.model.rs, r.eng, s.t, q);
  }

  /** A request is completed if and only if it has received its demand, up to the completion tolerance. */
  lemma {:induction false} CompletedExactly(c: SimConfig, trace: seq<Req>, acts: seq<Action>, r: Rep, q: Req)
    requires TraceOk(c.model, trace) && c.model.Rs? && r in Everyone(Reached(c, trace, acts)) && r.eng.Has(q)
    ensures q.Done() <==> q.progress >= q.demand - (0.000000000001 + 0.000000001 * q.demand)
  {
    hide RunInv, R.Slow, R.RsInv, R.Steady;
    var s := Reached(c, trace, acts);
    EngineSound(c, s, r);
    R.CompletedExactly(c.model.rs, r.eng, s.t, q);
  }

  /** With any contention, a completed request that no other request of its replica was in service with took exactly
      the service it received: its demand, up to the completion tolerance. */
  lemma {:induction false} AloneAtFullSpeed(c: SimConfig, trace: seq<Req>, acts: seq<Action>, r: Rep, q: Req)
    requires TraceOk(c.model, trace) && c.model.Rs? && r in Everyone(Reached(c, trace, acts)) && q in r.eng.fin
    requires q.tAdmit.Some? && q.tDone.Some?
    requires forall x :: r.eng.Has(x) && Desc(x) != Desc(q) && x.tAdmit.Some? ==>
               (x.tDone.Some? && x.tDone.value <= q.tAdmit.value) || x.tAdmit.value >= q.tDone.value
    ensures q.tDone.value - q.tAdmit.value == q.progress
    ensures q.demand - (0.000000000001 + 0.000000001 * q.demand) <= q.tDone.value - q.tAdmit.value <= q.demand
  {
    hide RunInv, R.Slow, R.RsInv, R.Steady;
    var s := Reached(c, trace, acts);
    EngineSound(c, s, r);
    R.ResponseTime(c.model.rs, r.eng, s.t, q);
    SteadyDone(r.eng, q);
  }

  lemma SteadyDone(e: Engine, q: Req)
    requires R.Steady(e) && q in e.fin && q.tDone.Some? && R.Alone(e, q, q.tDone.value)
    ensures q.progress == q.tDone.value - q.tAdmit.value
  {
    hide R.Alone;
  }

  // ---- pool and billing ----------------------------------------------------------------------------------------------

  /** Billing by time slices is billing by lifetimes, at every instant. */
  lemma {:induction false} BillsLifetimes(c: SimConfig, trace: seq<Req>, acts: seq<Action>)
    requires TraceOk(c.model, trace)
    ensures var s := Reached(c, trace, acts);
            s.pool.replicaSeconds == LiveSeconds(s.pool.reps, s.t) + RetiredSeconds(s.pool.retired)
  {
    hide TraceOk, Conserved, EnginesOk, InOrder, LiveOk, RetiredOk;
  }

  lemma {:induction false} AcceptingCount(c: PoolConfig, p: Pool)
    requires PoolInv(c, p)
    ensures forall i :: 0 <= i < c.kMin ==> i < |p.reps| && p.reps[i].rid == i && p.reps[i].Accepting(p.t)
  {
    forall i | 0 <= i < c.kMin ensures p.reps[i].Accepting(p.t) {
      assert LiveOk(c, p.reps[i], p.t, p.nextRid);
    }
  }

  /** The pool holds what was asked for, within its range; the founding k_min replicas are never drained, so at
      least k_min replicas always accept, and dispatch always finds an accepting replica. */
  lemma {:induction false} PoolHolds(c: SimConfig, trace: seq<Req>, acts: seq<Action>)
    requires TraceOk(c.model, trace)
    ensures var s := Reached(c, trace, acts);
            && CountActive(s.pool.reps) == s.pool.target >= c.pool.kMin
            && (!c.pool.allowHypothetical && c.pool.k0 <= c.pool.kMax ==> s.pool.target <= c.pool.kMax)
            && (forall i :: 0 <= i < c.pool.kMin ==>
                  i < |s.pool.reps| && s.pool.reps[i].rid == i && s.pool.reps[i].Accepting(s.t))
            && Route(c, s).0 == s.pool && s.pool.reps[Route(c, s).1].Accepting(s.t)
  {
    var s := Reached(c, trace, acts);
    hide TraceOk, Conserved, EnginesOk, OnTime;
    AcceptingCount(c.pool, s.pool);
    RouteAccepts(c, s);
    hide ScaleInv, Route;
  }

  /** Under sequential bring-up a replica started later is ready at least one cold start later. */
  lemma {:induction false} BootsInTurn(c: SimConfig, trace: seq<Req>, acts: seq<Action>, i: nat, j: nat)
    requires TraceOk(c.model, trace) && c.pool.sequential && i < j < |Reached(c, trace, acts).pool.reps|
    requires Reached(c, trace, acts).pool.reps[j].rid >= c.pool.Founders()
    ensures var reps := Reached(c, trace, acts).pool.reps;
            reps[i].rid < reps[j].rid && reps[j].tReady >= reps[i].tReady + c.pool.coldStart
  {
    hide TraceOk, Conserved, EnginesOk, OnTime, LiveOk;
    var p := Reached(c, trace, acts).pool;
    assert InOrder(c.pool, p.reps);
    assert Follows(c.pool, p.reps[i], p.reps[j]);
  }
}
