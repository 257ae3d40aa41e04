/** What every event of the loop keeps: nothing lost, clocks ahead of time, arrivals dispatched on time. */
module SimulatorInvariant {
  import opened Requests
  import opened ReplicaEngines
  import opened ReplicaPool
  import opened Simulator

  // ---- the invariant ---------------------------------------------------------------------------------

  /** Descriptors of everything the replicas hold. */
  function HeldMs(reps: seq<Rep>): multiset<Req> {
    if reps == [] then multiset{} else multiset(Descs(reps[0].eng.Held())) + HeldMs(reps[1..])
  }

  /** The workload source's promise: fresh requests in dispatch order, with distinct sequence numbers. */
  ghost predicate TraceOk(m: Model, trace: seq<Req>) {
    && (forall i :: 0 <= i < |trace| ==> Fresh(trace[i]) && ReplicaEngines.GoodRequest(m, trace[i]))
    && (forall i, j :: 0 <= i < j < |trace| ==> Before(trace[i], trace[j]) && trace[i].seqNo != trace[j].seqNo)
  }

  /** An engine as the loop finds it: the contract holds, and only serving replicas have been given work. */
  ghost predicate RepOk(m: Model, r: Rep, t: real) {
    Inv(m, r.eng, t) && (!r.Serving(t) ==> !r.eng.HasWork())
  }

  /** The dispatched prefix of the trace is exactly what the replicas, live and retired, ever held. */
  ghost predicate Conserved(s: Sim) {
    && s.arrivalI <= |s.trace| && s.nDispatched == s.arrivalI
    && HeldMs(s.pool.reps) + HeldMs(s.pool.retired) == multiset(s.trace[..s.arrivalI])
  }

  /** Nothing due is left undispatched, except before the first event of an episode. */
  ghost predicate OnTime(s: Sim) {
    || (s.arrivalI < |s.trace| ==> s.trace[s.arrivalI].tArrival > s.t)
    || (s.t == 0.0 && s.arrivalI == 0)
  }

  /** Nothing is dispatched before its time. */
  ghost predicate NotEarly(s: Sim) {
    0 < s.arrivalI <= |s.trace| ==> s.trace[s.arrivalI - 1].tArrival <= s.t + EPS
  }

  /** What happens to the pool changes nothing about what was dispatched when. */
  lemma StaysTimely(s: Sim, p: Pool)
    ensures NotEarly(s.(pool := p)) == NotEarly(s) && OnTime(s.(pool := p)) == OnTime(s)
  {}

  ghost predicate EnginesOk(c: SimConfig, s: Sim) {
    && (forall r :: r in s.pool.reps ==> RepOk(c.model, r, s.t))
    && (forall r :: r in s.pool.retired ==> Inv(c.model, r.eng, s.t))
  }

  ghost predicate SimInv(c: SimConfig, s: Sim) {
    && PoolInv(c.pool, s.pool) && s.pool.t == s.t && TraceOk(c.model, s.trace)
    && Conserved(s) && OnTime(s) && NotEarly(s) && EnginesOk(c, s) && s.stalls <= 1
  }

  // ---- multisets over replicas ---------------------------------------------------------------------------

  lemma {:induction false} HeldAppend(a: seq<Rep>, b: seq<Rep>)
    ensures HeldMs(a + b) == HeldMs(a) + HeldMs(b)
  {
    if a == [] { assert a + b == b; }
    else {
      assert (a + b)[1..] == a[1..] + b;
      HeldAppend(a[1..], b);
    }
  }

  lemma {:induction false} HeldEqual(a: seq<Rep>, b: seq<Rep>)
    requires |a| == |b|
    requires forall i :: 0 <= i < |a| ==> multiset(Descs(a[i].eng.Held())) == multiset(Descs(b[i].eng.Held()))
    ensures HeldMs(a) == HeldMs(b)
  {
    if a != [] { HeldEqual(a[1..], b[1..]); }
  }

  lemma {:induction false} HeldUpdate(reps: seq<Rep>, i: nat, r: Rep, x: Req)
    requires i < |reps|
    requires multiset(Descs(r.eng.Held())) == multiset(Descs(reps[i].eng.Held())) + multiset{x}
    ensures HeldMs(reps[i := r]) == HeldMs(reps) + multiset{x}
  {
    assert reps[i := r] == [if i == 0 then r else reps[0]] + (if i == 0 then reps[1..] else reps[1..][i - 1 := r]);
    if i > 0 { HeldUpdate(reps[1..], i - 1, r, x); }
  }

  lemma {:induction false} HeldMember(reps: seq<Rep>, i: nat, x: Req)
    requires i < |reps| && reps[i].eng.Has(x)
    ensures Desc(x) in HeldMs(reps)
  {
    if i == 0 {
      var h := reps[0].eng.Held();
      assert x in h;
      var k :| 0 <= k < |h| && h[k] == x;
      assert Descs(h)[k] == Desc(x);
    } else {
      HeldMember(reps[1..], i - 1, x);
    }
  }

  lemma {:induction false} HeldReap(reps: seq<Rep>, t: real)
    ensures HeldMs(Kept(reps)) + HeldMs(Released(reps, t)) == HeldMs(reps)
  {
    if reps != [] {
      HeldReap(reps[1..], t);
      if Releasable(reps[0]) {
        assert Released(reps, t)[1..] == Released(reps[1..], t);
      } else {
        assert Kept(reps)[1..] == Kept(reps[1..]);
      }
    }
  }

  // ---- the scan for the next event ---------------------------------------------------------------------

  lemma {:induction false} ReadyScan(reps: seq<Rep>, t: real)
    ensures NextReady(reps, t).At? ==> exists r :: r in reps && r.Booting(t) && NextReady(reps, t) == At(r.tReady)
    ensures forall r :: r in reps && r.Booting(t) ==>
              NextReady(reps, t).At? && NextReady(reps, t).t <= r.tReady
  {
    if reps != [] { ReadyScan(reps[1..], t); }
  }

  lemma {:induction false} StepScan(reps: seq<Rep>, t: real)
    ensures NextStep(reps, t).At? ==>
              exists r :: r in reps && r.Serving(t) && r.eng.running != [] && NextStep(reps, t) == r.eng.next
    ensures forall r :: r in reps && r.Serving(t) && r.eng.running != [] && r.eng.next.At? ==>
              NextStep(reps, t).At? && NextStep(reps, t).t <= r.eng.next.t
  {
    if reps != [] { StepScan(reps[1..], t); }
  }

  // ---- moving time forward --------------------------------------------------------------------------------

  /** t is no later than any pending clock of the loop. */
  ghost predicate BeforeClocks(s: Sim, t: real) {
    forall r :: r in s.pool.reps && r.Serving(s.t) && r.eng.running != [] ==> r.eng.next.At? && t <= r.eng.next.t
  }

  /** A replica whose engine was last served at `now` and is about to be served at t. */
  ghost predicate RepReady(m: Model, r: Rep, now: real, t: real) {
    Inv(m, r.eng, now) && InTime(r.eng, now, t) && (!r.Serving(t) ==> !r.eng.HasWork())
  }

  /** The state between the jump to an event time and the service of the replicas. */
  ghost predicate MidInv(c: SimConfig, s: Sim, now: real) {
    && PoolInv(c.pool, s.pool) && s.pool.t == s.t && now <= s.t && TraceOk(c.model, s.trace)
    && Conserved(s) && NotEarly(s) && s.stalls <= 1
    && (forall r :: r in s.pool.reps ==> RepReady(c.model, r, now, s.t))
    && (forall r :: r in s.pool.retired ==> Inv(c.model, r.eng, s.t))
  }

  lemma {:induction false} RetiredIdle(c: SimConfig, s: Sim, t: real)
    requires SimInv(c, s) && s.t <= t
    ensures forall r :: r in s.pool.retired ==> Inv(c.model, r.eng, t)
  {
    forall r | r in s.pool.retired ensures Inv(c.model, r.eng, t) {
      assert RetiredOk(s.pool);
      Idle(c.model, r.eng, s.t, t);
    }
  }

  lemma WithinTrace(c: SimConfig, s: Sim)
    requires SimInv(c, s)
    ensures s.arrivalI <= |s.trace|
  {}

  lemma {:induction false} JumpKeeps(c: SimConfig, s: Sim, t: real)
    requires SimInv(c, s) && s.t <= t && BeforeClocks(s, t)
    ensures MidInv(c, Jump(s, t), s.t)
  {
    hide PoolInv, Inv, TraceOk;
    MoveKeeps(c.pool, s.pool, t);
    RetiredIdle(c, s, t);
    forall r | r in s.pool.reps ensures RepReady(c.model, r, s.t, t) {
      assert RepOk(c.model, r, s.t);
    }
  }

  // ---- dispatch ----------------------------------------------------------------------------------------------

  /** With at least one founder, some replica always accepts: the fallback branches are never taken. */
  lemma {:induction false} RouteAccepts(c: SimConfig, s: Sim)
    requires PoolInv(c.pool, s.pool) && s.pool.t == s.t
    ensures Route(c, s).0 == s.pool && s.pool.reps[Route(c, s).1].Accepting(s.t)
  {
    FounderAccepts(c.pool, s.pool);
    var f := (r: Rep) => r.Accepting(s.t);
    var cand := Where(s.pool.reps, f);
    assert f(s.pool.reps[0]) && 0 in cand;
    var k := c.choices(s.nDispatched) % |cand|;
    assert f(s.pool.reps[cand[k]]);
  }

  /** The next arrival comes after everything any replica ever held. */
  lemma {:induction false} NextIsNewest(c: SimConfig, s: Sim, i: nat)
    requires TraceOk(c.model, s.trace) && Conserved(s) && s.arrivalI < |s.trace| && i < |s.pool.reps|
    ensures ReplicaEngines.Newest(s.pool.reps[i].eng, s.trace[s.arrivalI])
  {
    forall x | s.pool.reps[i].eng.Has(x) ensures Before(x, s.trace[s.arrivalI]) {
      HeldMember(s.pool.reps, i, x);
      assert Desc(x) in multiset(s.trace[..s.arrivalI]);
      assert Desc(x) in s.trace[..s.arrivalI];
      var j :| 0 <= j < s.arrivalI && s.trace[..s.arrivalI][j] == Desc(x);
      assert Before(s.trace[j], s.trace[s.arrivalI]);
    }
  }

  /** Where the next arrival goes. */
  function Target(c: SimConfig, s: Sim): (i: nat)
    requires PoolInv(c.pool, s.pool) && s.pool.t == s.t
    ensures i < |s.pool.reps| && Route(c, s) == (s.pool, i) && s.pool.reps[i].Accepting(s.t)
  {
    RouteAccepts(c, s);
    Route(c, s).1
  }

  lemma PushHeld(e: Engine, x: Req)
    requires Fresh(x)
    ensures multiset(Descs(PushBack(e, x).Held())) == multiset(Descs(e.Held())) + multiset{x}
  {
    assert PushBack(e, x).Held() == e.Held() + [x];
    DescsAppend(e.Held(), [x]);
    assert Descs([x]) == [x];
  }

  lemma {:induction false} DispatchConserves(c: SimConfig, s: Sim, i: nat)
    requires Conserved(s) && s.arrivalI < |s.trace| && Fresh(s.trace[s.arrivalI])
    requires i < |s.pool.reps| && Route(c, s) == (s.pool, i)
    ensures Conserved(Dispatch(c, s))
  {
    hide Route, Descs, Fresh, HeldMs, PushBack;
    var x := s.trace[s.arrivalI];
    PushHeld(s.pool.reps[i].eng, x);
    HeldUpdate(s.pool.reps, i, Push(s.pool, i, x).reps[i], x);
    PrefixMs(s.trace, s.arrivalI);
  }

  lemma PrefixMs(trace: seq<Req>, i: nat)
    requires i < |trace|
    ensures multiset(trace[..i + 1]) == multiset(trace[..i]) + multiset{trace[i]}
  {
    assert trace[..i + 1] == trace[..i] + [trace[i]];
  }

  lemma {:induction false} DispatchReady(c: SimConfig, s: Sim, now: real, i: nat)
    requires MidInv(c, s, now) && s.arrivalI < |s.trace| && i < |s.pool.reps| && s.pool.reps[i].Accepting(s.t)
    ensures var e := s.pool.reps[i].eng;
            var r := s.pool.reps[i].(eng := PushBack(e, s.trace[s.arrivalI]));
            && RepReady(c.model, r, now, s.t)
            && Work(c.model, r.eng) == Work(c.model, e) + WorkOf(c.model, s.trace[s.arrivalI])
  {
    hide PoolInv, Inv, Conserved, TraceOk;
    NextIsNewest(c, s, i);
    assert RepReady(c.model, s.pool.reps[i], now, s.t);
    TraceGood(c.model, s.trace, s.arrivalI);
    PushKeeps(c.model, s.pool.reps[i].eng, s.trace[s.arrivalI], now);
  }

  lemma TraceGood(m: Model, trace: seq<Req>, i: nat)
    requires TraceOk(m, trace) && i < |trace|
    ensures Fresh(trace[i]) && ReplicaEngines.GoodRequest(m, trace[i])
  {}

  lemma DispatchTimely(c: SimConfig, s: Sim)
    requires ArrivalDue(s)
    ensures NotEarly(Dispatch(c, s))
  {
    hide Route;
  }

  lemma {:induction false} DispatchKeeps(c: SimConfig, s: Sim, now: real)
    requires MidInv(c, s, now) && ArrivalDue(s)
    ensures MidInv(c, Dispatch(c, s), now)
    ensures WorkAll(c.model, Dispatch(c, s).pool.reps) ==
            WorkAll(c.model, s.pool.reps) + WorkOf(c.model, s.trace[s.arrivalI])
  {
    hide PoolInv, Inv, Conserved, TraceOk, RepReady, Route, NotEarly;
    var i := Target(c, s);
    DispatchReady(c, s, now, i);
    TraceGood(c.model, s.trace, s.arrivalI);
    DispatchConserves(c, s, i);
    DispatchTimely(c, s);
    var s' := Dispatch(c, s);
    EnginesIrrelevant(c.pool, s.pool, s'.pool.reps);
    WorkUpdate(c.model, s.pool.reps, i, s'.pool.reps[i]);
  }

  // ---- the termination measure ---------------------------------------------------------------------------------

  function WorkAll(m: Model, reps: seq<Rep>): nat {
    if reps == [] then 0 else Work(m, reps[0].eng) + WorkAll(m, reps[1..])
  }

  function WorkAhead(m: Model, trace: seq<Req>): nat {
    if trace == [] then 0 else WorkOf(m, trace[0]) + WorkAhead(m, trace[1..])
  }

  function BootingCount(reps: seq<Rep>, t: real): nat {
    if reps == [] then 0 else (if reps[0].Booting(t) then 1 else 0) + BootingCount(reps[1..], t)
  }

  /** Arrivals left, replicas still booting, and work left, undispatched work included. */
  function Measure(c: SimConfig, s: Sim): nat {
    if s.arrivalI > |s.trace| then 0
    else
      (|s.trace| - s.arrivalI) + WorkAhead(c.model, s.trace[s.arrivalI..])
      + BootingCount(s.pool.reps, s.t) + WorkAll(c.model, s.pool.reps)
  }

  lemma {:induction false} WorkUpdate(m: Model, reps: seq<Rep>, i: nat, r: Rep)
    requires i < |reps|
    ensures WorkAll(m, reps[i := r]) == WorkAll(m, reps) - Work(m, reps[i].eng) + Work(m, r.eng)
  {
    assert reps[i := r] == [if i == 0 then r else reps[0]] + (if i == 0 then reps[1..] else reps[1..][i - 1 := r]);
    if i > 0 { WorkUpdate(m, reps[1..], i - 1, r); }
  }

  lemma {:induction false} BootingUpdate(reps: seq<Rep>, i: nat, e: Engine, t: real)
    requires i < |reps|
    ensures BootingCount(reps[i := reps[i].(eng := e)], t) == BootingCount(reps, t)
  {
    var r := reps[i].(eng := e);
    assert reps[i := r] == [if i == 0 then r else reps[0]] + (if i == 0 then reps[1..] else reps[1..][i - 1 := r]);
    if i > 0 { BootingUpdate(reps[1..], i - 1, e, t); }
  }

  lemma {:induction false} DispatchMeasure(c: SimConfig, s: Sim, now: real)
    requires MidInv(c, s, now) && ArrivalDue(s)
    ensures Dispatch(c, s).arrivalI <= |s.trace| && Measure(c, Dispatch(c, s)) + 1 == Measure(c, s)
  {
    DispatchKeeps(c, s, now);
    var i := Target(c, s);
    hide MidInv, PoolInv, Route;
    BootingUpdate(s.pool.reps, i, PushBack(s.pool.reps[i].eng, s.trace[s.arrivalI]), s.t);
    assert s.trace[s.arrivalI..][1..] == s.trace[s.arrivalI + 1..];
  }

  /** Dispatch touches queues only. */
  ghost predicate SameBatches(a: seq<Rep>, b: seq<Rep>) {
    |a| == |b| && forall i :: 0 <= i < |a| ==>
      b[i] == a[i].(eng := a[i].eng.(slot := b[i].eng.slot)) && a[i].eng.slot <= b[i].eng.slot
  }

  lemma SameBatchesTrans(a: seq<Rep>, b: seq<Rep>, c: seq<Rep>)
    requires SameBatches(a, b) && SameBatches(b, c)
    ensures SameBatches(a, c)
  {
    forall i | 0 <= i < |a|
      ensures c[i] == a[i].(eng := a[i].eng.(slot := c[i].eng.slot)) && a[i].eng.slot <= c[i].eng.slot
    {
      assert b[i] == a[i].(eng := a[i].eng.(slot := b[i].eng.slot));
    }
  }

  lemma {:induction false} DispatchBatches(c: SimConfig, s: Sim)
    requires PoolInv(c.pool, s.pool) && s.pool.t == s.t && s.arrivalI < |s.trace|
    ensures SameBatches(s.pool.reps, s.pool.reps)
    ensures var d := Dispatch(c, s);
            && SameBatches(s.pool.reps, d.pool.reps) && d.pool.retired == s.pool.retired
            && d.t == s.t && d.trace == s.trace && d.stalls == s.stalls && d.arrivalI == s.arrivalI + 1
  {
    var i := Target(c, s);
    hide PoolInv, Route;
  }

  /** All arrivals due are dispatched, in order, and the work they bring is accounted for. */
  lemma {:induction false} DispatchDueKeeps(c: SimConfig, s: Sim, now: real)
    requires MidInv(c, s, now)
    ensures var d := DispatchDue(c, s);
            && MidInv(c, d, now) && !ArrivalDue(d) && d.t == s.t && d.trace == s.trace && d.stalls == s.stalls
            && Measure(c, d) <= Measure(c, s) && (ArrivalDue(s) ==> Measure(c, d) < Measure(c, s))
            && SameBatches(s.pool.reps, d.pool.reps) && d.pool.retired == s.pool.retired
    decreases |s.trace| - s.arrivalI
  {
    if ArrivalDue(s) {
      DispatchKeeps(c, s, now);
      DispatchMeasure(c, s, now);
      DispatchBatches(c, s);
      hide SameBatches, Dispatch, PoolInv, TraceOk, RepReady, Inv, Measure;
      DispatchDueKeeps(c, Dispatch(c, s), now);
      SameBatchesTrans(s.pool.reps, Dispatch(c, s).pool.reps, DispatchDue(c, s).pool.reps);
    }
  }

  /** Dispatch changes nothing about the pool but its queues. */
  lemma {:induction false} DispatchPool(c: SimConfig, s: Sim, now: real)
    requires MidInv(c, s, now)
    ensures DispatchDue(c, s).pool == s.pool.(reps := DispatchDue(c, s).pool.reps)
    decreases |s.trace| - s.arrivalI
  {
    if ArrivalDue(s) {
      DispatchKeeps(c, s, now);
      var i := Target(c, s);
      hide MidInv, Route;
      DispatchPool(c, Dispatch(c, s), now);
    }
  }

  // ---- serving every replica -----------------------------------------------------------------------------------

  lemma {:induction false} ServeOne(m: Model, r: Rep, now: real, t: real)
    requires RepReady(m, r, now, t)
    ensures RepOk(m, ServeRep(m, r, t), t)
    ensures ServeRep(m, r, t).eng.accepting == r.eng.accepting
    ensures multiset(Descs(ServeRep(m, r, t).eng.Held())) == multiset(Descs(r.eng.Held()))
    ensures Work(m, ServeRep(m, r, t).eng) <= Work(m, r.eng)
    ensures r.Serving(t) && r.eng.running != [] && r.eng.next == At(t) ==>
              Work(m, ServeRep(m, r, t).eng) < Work(m, r.eng)
  {
    if r.Serving(t) { ServeKeeps(m, r.eng, now, t); } else { Idle(m, r.eng, now, t); }
  }

  /** A batch that is serving at u has its clock exactly at t. */
  ghost predicate StepDue(reps: seq<Rep>, u: real, t: real) {
    exists r :: r in reps && r.Serving(u) && r.eng.running != [] && r.eng.next == At(t)
  }

  /** A replica that is booting at u is ready exactly at t. */
  ghost predicate BootDue(reps: seq<Rep>, u: real, t: real) {
    exists r :: r in reps && r.Booting(u) && r.tReady == t
  }

  lemma {:induction false} ServeWork(m: Model, reps: seq<Rep>, now: real, t: real)
    requires forall r :: r in reps ==> RepReady(m, r, now, t)
    ensures WorkAll(m, ServeAll(m, reps, t)) <= WorkAll(m, reps)
    ensures StepDue(reps, t, t) ==>
              WorkAll(m, ServeAll(m, reps, t)) < WorkAll(m, reps)
  {
    hide RepReady, Work, ServeRep;
    if reps != [] {
      ServeOne(m, reps[0], now, t);
      ServeWork(m, reps[1..], now, t);
      assert ServeAll(m, reps, t)[1..] == ServeAll(m, reps[1..], t);
      if StepDue(reps, t, t) {
        var r :| r in reps && r.Serving(t) && r.eng.running != [] && r.eng.next == At(t);
        if r != reps[0] { assert r in reps[1..]; }
      }
    }
  }

  lemma {:induction false} ServeReps(m: Model, reps: seq<Rep>, now: real, t: real)
    requires forall r :: r in reps ==> RepReady(m, r, now, t)
    ensures forall r :: r in ServeAll(m, reps, t) ==> RepOk(m, r, t)
    ensures HeldMs(ServeAll(m, reps, t)) == HeldMs(reps)
    ensures SameLifecycle(reps, ServeAll(m, reps, t))
  {
    hide RepReady, RepOk;
    var out := ServeAll(m, reps, t);
    forall i | 0 <= i < |reps|
      ensures RepOk(m, out[i], t) && out[i].eng.accepting == reps[i].eng.accepting
      ensures multiset(Descs(out[i].eng.Held())) == multiset(Descs(reps[i].eng.Held()))
    {
      hide RepReady, RepOk;
      ServeOne(m, reps[i], now, t);
    }
    HeldEqual(out, reps);
  }

  /** Serving every replica at t re-establishes the invariant, with nothing due left behind. */
  lemma {:induction false} ServePoolKeeps(c: SimConfig, s: Sim, now: real)
    requires MidInv(c, s, now) && !ArrivalDue(s)
    ensures SimInv(c, s.(pool := ServePool(c.model, s.pool, s.t)))
    ensures WorkAll(c.model, ServePool(c.model, s.pool, s.t).reps) <= WorkAll(c.model, s.pool.reps)
    ensures StepDue(s.pool.reps, s.t, s.t) ==>
              WorkAll(c.model, ServePool(c.model, s.pool, s.t).reps) < WorkAll(c.model, s.pool.reps)
  {
    hide NotEarly, PoolInv, RepReady, RepOk, TraceOk, SameLifecycle, Inv, WorkAll;
    ServeReps(c.model, s.pool.reps, now, s.t);
    ServeWork(c.model, s.pool.reps, now, s.t);
    EnginesIrrelevant(c.pool, s.pool, ServeAll(c.model, s.pool.reps, s.t));
    StaysTimely(s, ServePool(c.model, s.pool, s.t));
  }

  lemma {:induction false} ReapWork(m: Model, reps: seq<Rep>, t: real)
    ensures WorkAll(m, Kept(reps)) <= WorkAll(m, reps) && BootingCount(Kept(reps), t) <= BootingCount(reps, t)
  {
    if reps != [] {
      ReapWork(m, reps[1..], t);
      if !Releasable(reps[0]) { assert Kept(reps)[1..] == Kept(reps[1..]); }
    }
  }

  lemma {:induction false} ReapEngines(c: SimConfig, s: Sim)
    requires EnginesOk(c, s)
    ensures EnginesOk(c, s.(pool := Reap(s.pool, s.t)))
  {
    hide Inv, Releasable;
    forall r | r in Reap(s.pool, s.t).retired ensures Inv(c.model, r.eng, s.t) {
      if r !in s.pool.retired {
        var r0 :| r0 in s.pool.reps && Releasable(r0) && r == r0.(tReleased := Some(s.t));
        assert RepOk(c.model, r0, s.t);
      }
    }
  }

  lemma {:induction false} ReapConserved(s: Sim)
    requires Conserved(s)
    ensures Conserved(s.(pool := Reap(s.pool, s.t)))
  {
    HeldReap(s.pool.reps, s.t);
    HeldAppend(s.pool.retired, Released(s.pool.reps, s.t));
    hide HeldMs, Kept, Released;
  }

  /** Releasing drained replicas keeps the invariant: their completed requests move along with them. */
  lemma {:induction false} ReapSimKeeps(c: SimConfig, s: Sim)
    requires SimInv(c, s)
    ensures SimInv(c, s.(pool := Reap(s.pool, s.t)))
    ensures Measure(c, s.(pool := Reap(s.pool, s.t))) <= Measure(c, s)
  {
    ReapKeeps(c.pool, s.pool);
    ReapEngines(c, s);
    ReapConserved(s);
    ReapWork(c.model, s.pool.reps, s.t);
    StaysTimely(s, Reap(s.pool, s.t));
    hide NotEarly, OnTime, Conserved, PoolInv, TraceOk, EnginesOk, Kept, Released, WorkAll, BootingCount, WorkAhead;
  }

  // ---- one event -----------------------------------------------------------------------------------------------------

  lemma {:induction false} BootingLifecycle(a: seq<Rep>, b: seq<Rep>, t: real)
    requires |a| == |b| && forall i :: 0 <= i < |a| ==> b[i].(eng := a[i].eng) == a[i]
    ensures BootingCount(a, t) == BootingCount(b, t)
  {
    if a != [] {
      assert b[0].(eng := a[0].eng) == a[0];
      BootingLifecycle(a[1..], b[1..], t);
    }
  }

  lemma {:induction false} BootingPasses(reps: seq<Rep>, t: real, u: real)
    requires t <= u
    ensures BootingCount(reps, u) <= BootingCount(reps, t)
    ensures BootDue(reps, t, u) ==> BootingCount(reps, u) < BootingCount(reps, t)
  {
    if reps != [] {
      BootingPasses(reps[1..], t, u);
      if BootDue(reps, t, u) {
        var r :| r in reps && r.Booting(t) && r.tReady == u;
        if r != reps[0] { assert r in reps[1..]; }
      }
    }
  }

  /** What makes an event at t productive: an arrival, a boot or a service clock is due exactly now. */
  ghost predicate Productive(s: Sim, t: real) {
    || (s.arrivalI < |s.trace| && s.trace[s.arrivalI].tArrival <= t + EPS)
    || BootDue(s.pool.reps, s.t, t)
    || StepDue(s.pool.reps, s.t, t)
  }

  lemma {:induction false} JumpMeasure(c: SimConfig, s: Sim, t: real)
    requires s.t <= t && s.arrivalI <= |s.trace|
    ensures Jump(s, t).pool.reps == s.pool.reps
    ensures Measure(c, Jump(s, t)) <= Measure(c, s)
    ensures BootDue(s.pool.reps, s.t, t) ==>
              Measure(c, Jump(s, t)) < Measure(c, s)
  {
    BootingPasses(s.pool.reps, s.t, t);
  }

  lemma {:induction false} ServeMeasure(c: SimConfig, s: Sim, now: real)
    requires MidInv(c, s, now) && !ArrivalDue(s)
    ensures var q := s.(pool := ServePool(c.model, s.pool, s.t));
            && SimInv(c, q) && Measure(c, q) <= Measure(c, s)
            && (StepDue(s.pool.reps, s.t, s.t)
                ==> Measure(c, q) < Measure(c, s))
  {
    hide SimInv, PoolInv, TraceOk, RepReady, RepOk, HeldMs, WorkAll, WorkAhead, BootingCount, Inv;
    ServePoolKeeps(c, s, now);
    ServeReps(c.model, s.pool.reps, now, s.t);
    BootingLifecycle(s.pool.reps, ServeAll(c.model, s.pool.reps, s.t), s.t);
  }

  /** A batch due at the event time is still there after dispatch. */
  lemma DueSurvives(a: seq<Rep>, b: seq<Rep>, u: real, t: real)
    requires SameBatches(a, b) && u <= t
    requires StepDue(a, u, t)
    ensures StepDue(b, t, t)
  {
    var r :| r in a && r.Serving(u) && r.eng.running != [] && r.eng.next == At(t);
    var i :| 0 <= i < |a| && a[i] == r;
    DueOne(a[i], b[i], u, t);
    assert b[i] in b;
  }

  lemma DueOne(a: Rep, b: Rep, u: real, t: real)
    requires b == a.(eng := a.eng.(slot := b.eng.slot)) && u <= t && a.Serving(u)
    ensures b.Serving(t) && b.eng.running == a.eng.running && b.eng.next == a.eng.next
  {}

  /** One event keeps the invariant, and a productive one decreases the termination measure. */
  lemma {:induction false} EventKeeps(c: SimConfig, s: Sim, t: real)
    requires SimInv(c, s) && s.t < t && BeforeClocks(s, t)
    ensures SimInv(c, Event(c, s, t)) && Event(c, s, t).t == t
    ensures Event(c, s, t).trace == s.trace && Event(c, s, t).stalls == s.stalls
    ensures Measure(c, Event(c, s, t)) <= Measure(c, s)
    ensures Productive(s, t) ==> Measure(c, Event(c, s, t)) < Measure(c, s)
  {
    hide SimInv, MidInv, Measure, BeforeClocks, SameBatches, DispatchDue, ServePool, Reap, MoveTo, StepDue, BootDue,
         AnyDraining;
    WithinTrace(c, s);
    JumpKeeps(c, s, t);
    JumpMeasure(c, s, t);
    var j := Jump(s, t);
    DispatchDueKeeps(c, j, s.t);
    var d := DispatchDue(c, j);
    ServeMeasure(c, d, s.t);
    if StepDue(s.pool.reps, s.t, t) {
      DueSurvives(s.pool.reps, d.pool.reps, s.t, t);
    }
    ReapSimKeeps(c, d.(pool := ServePool(c.model, d.pool, t)));
  }
}
