/** The discrete-event loop: arrivals, boots and service events over a replica pool. */
module Simulator {
  import opened Requests
  import opened ReplicaEngines
  import opened ReplicaPool

  const STALL_LIMIT: nat := 64

  /** `choices(i)` selects the replica the i-th dispatch goes to, among the eligible ones. Every dispatch
      policy, stateful or random, produces some such sequence along a run. */
  datatype SimConfig = SimConfig(model: Model, pool: PoolConfig, gap: real -> real, choices: nat -> nat)

  datatype Sim = Sim(t: real, pool: Pool, trace: seq<Req>, arrivalI: nat, stalls: nat, nDispatched: nat)

  // ---- the next event -----------------------------------------------------------------------------

  function NextArrival(s: Sim): Clock {
    if s.arrivalI < |s.trace| then At(s.trace[s.arrivalI].tArrival) else Never
  }

  function NextReady(reps: seq<Rep>, t: real): Clock {
    if reps == [] then Never
    else if reps[0].Booting(t) then MinClock(NextReady(reps[1..], t), At(reps[0].tReady))
    else NextReady(reps[1..], t)
  }

  function NextStep(reps: seq<Rep>, t: real): Clock {
    if reps == [] then Never
    else if reps[0].Serving(t) && reps[0].eng.running != [] then MinClock(NextStep(reps[1..], t), reps[0].eng.next)
    else NextStep(reps[1..], t)
  }

  predicate AnyDraining(reps: seq<Rep>) {
    if reps == [] then false else (reps[0].Alive() && reps[0].draining) || AnyDraining(reps[1..])
  }

  function NextEvent(s: Sim): Clock {
    MinClock(MinClock(NextArrival(s), NextReady(s.pool.reps, s.t)), NextStep(s.pool.reps, s.t))
  }

  // ---- dispatch --------------------------------------------------------------------------------------

  /** Indices of the replicas satisfying f, in pool order. */
  function Where(reps: seq<Rep>, f: Rep -> bool): (ix: seq<nat>)
    ensures forall j :: 0 <= j < |ix| ==> ix[j] < |reps| && f(reps[ix[j]])
    ensures forall i: nat :: i < |reps| && f(reps[i]) ==> i in ix
  {
    if reps == [] then []
    else
      var n := |reps| - 1;
      var ix := Where(reps[..n], f);
      if f(reps[n]) then ix + [n] else ix
  }

  /** Of the replicas listed, the one ready soonest, ties by id. */
  function Soonest(reps: seq<Rep>, ix: seq<nat>): (i: nat)
    requires ix != [] && forall j :: 0 <= j < |ix| ==> ix[j] < |reps|
    ensures i < |reps| && exists j :: 0 <= j < |ix| && ix[j] == i
    ensures forall j :: 0 <= j < |ix| ==> !Newer(reps[i], reps[ix[j]])
  {
    if |ix| == 1 then ix[0]
    else
      var k := Soonest(reps, ix[1..]);
      if Newer(reps[k], reps[ix[0]]) then ix[0] else k
  }

  /** The pool and replica index the next arrival goes to. */
  function Route(c: SimConfig, s: Sim): (res: (Pool, nat))
    ensures res.1 < |res.0.reps|
  {
    var p := s.pool;
    var cand := Where(p.reps, (r: Rep) => r.Accepting(s.t));
    if cand != [] then (p, cand[c.choices(s.nDispatched) % |cand|])
    else
      var active := Where(p.reps, (r: Rep) => r.Active());
      if active != [] then (p, Soonest(p.reps, active))
      else
        var alive := Where(p.reps, (r: Rep) => r.Alive());
        if alive != [] then (p, Soonest(p.reps, alive))
        else (Start(c.pool, p, true), |p.reps|)
  }

  function Push(p: Pool, i: nat, r: Req): Pool
    requires i < |p.reps|
  {
    p.(reps := p.reps[i := p.reps[i].(eng := PushBack(p.reps[i].eng, r))])
  }

  /** Route the next arrival onto some replica's queue. */
  function Dispatch(c: SimConfig, s: Sim): Sim
    requires s.arrivalI < |s.trace|
  {
    var (p, i) := Route(c, s);
    s.(pool := Push(p, i, s.trace[s.arrivalI]), arrivalI := s.arrivalI + 1, nDispatched := s.nDispatched + 1)
  }

  predicate ArrivalDue(s: Sim) {
    s.arrivalI < |s.trace| && s.trace[s.arrivalI].tArrival <= s.t + EPS
  }

  /** Dispatch everything due now; several arrivals may share a timestamp. */
  function DispatchDue(c: SimConfig, s: Sim): (s': Sim)
    decreases |s.trace| - s.arrivalI
  {
    if ArrivalDue(s) then DispatchDue(c, Dispatch(c, s)) else s
  }

  // ---- one event -----------------------------------------------------------------------------------------

  function ServeRep(m: Model, r: Rep, t: real): Rep {
    if r.Serving(t) then r.(eng := Serve(m, r.eng, t)) else r
  }

  function ServeAll(m: Model, reps: seq<Rep>, t: real): (out: seq<Rep>)
    ensures |out| == |reps| && forall i :: 0 <= i < |reps| ==> out[i] == ServeRep(m, reps[i], t)
  {
    seq(|reps|, i requires 0 <= i < |reps| => ServeRep(m, reps[i], t))
  }

  function Jump(s: Sim, t: real): Sim { s.(t := t, pool := MoveTo(s.pool, t)) }

  function ServePool(m: Model, p: Pool, t: real): Pool { p.(reps := ServeAll(m, p.reps, t)) }

  /** Everything that happens at the event time t: billing, arrivals, service, release. */
  function Event(c: SimConfig, s: Sim, t: real): Sim {
    var d := DispatchDue(c, Jump(s, t));
    var p := ServePool(c.model, d.pool, t);
    d.(pool := if AnyDraining(s.pool.reps) then Reap(p, t) else p)
  }

  datatype Outcome = Advanced(s: Sim) | Returned(s: Sim) | Stalled

  /** One iteration of the event loop. */
  function Iterate(c: SimConfig, s: Sim, tEnd: real, advanceWhenIdle: bool): Outcome {
    var next := NextEvent(s);
    if next.Never? || next.t > tEnd then
      Returned(if advanceWhenIdle then Jump(s, tEnd) else s)
    else if next.t <= s.t then
      if s.stalls + 1 > STALL_LIMIT then Stalled
      else Advanced(Event(c, s.(stalls := s.stalls + 1), NextAfter(c.gap, s.t)))
    else Advanced(Event(c, s.(stalls := 0), next.t))
  }

  // ---- where an arrival goes, when the next event comes ----------------------------------------------------

  predicate SomeRep(reps: seq<Rep>, f: Rep -> bool) { exists i :: 0 <= i < |reps| && f(reps[i]) }

  /** r is what f asks for, and no replica of that kind is ready earlier, or at the same time with a smaller id. */
  predicate FirstReady(reps: seq<Rep>, f: Rep -> bool, r: Rep) {
    f(r) && forall i :: 0 <= i < |reps| && f(reps[i]) ==>
              r.tReady < reps[i].tReady || (r.tReady == reps[i].tReady && r.rid <= reps[i].rid)
  }

  /** Alive, ready to within the event tolerance, and not draining. */
  predicate Ready(r: Rep, t: real) { r.tReleased.None? && !r.draining && r.tReady <= t + 0.000000001 }

  /** An arrival goes to a replica that accepts, if there is one; else to the active one that is ready first; else to
      the draining one that is; and only where the pool is empty is a replica started for it. */
  lemma {:induction false} RouteIs(c: SimConfig, s: Sim)
    ensures var (p, i) := Route(c, s);
            var reps := s.pool.reps;
            if SomeRep(reps, (r: Rep) => Ready(r, s.t)) then p == s.pool && Ready(reps[i], s.t)
            else if SomeRep(reps, (r: Rep) => r.Active()) then p == s.pool && FirstReady(reps, (r: Rep) => r.Active(), reps[i])
            else if SomeRep(reps, (r: Rep) => r.Alive()) then p == s.pool && FirstReady(reps, (r: Rep) => r.Alive(), reps[i])
            else i == |reps| && |p.reps| == |reps| + 1 && p.reps[..i] == reps && p.reps[i].tReady == s.pool.t
  {
    WhereIs(s.pool.reps, (r: Rep) => r.Accepting(s.t));
    SameReps(s.pool.reps, (r: Rep) => r.Accepting(s.t), (r: Rep) => Ready(r, s.t));
    WhereIs(s.pool.reps, (r: Rep) => r.Active());
    WhereIs(s.pool.reps, (r: Rep) => r.Alive());
    SoonestIs(s.pool.reps, (r: Rep) => r.Active());
    SoonestIs(s.pool.reps, (r: Rep) => r.Alive());
    hide Where, Soonest;
  }

  lemma SameReps(reps: seq<Rep>, f: Rep -> bool, g: Rep -> bool)
    requires forall r: Rep :: f(r) == g(r)
    ensures SomeRep(reps, f) == SomeRep(reps, g)
  {}

  lemma WhereIs(reps: seq<Rep>, f: Rep -> bool)
    ensures Where(reps, f) != [] <==> SomeRep(reps, f)
  {
    if Where(reps, f) != [] { assert f(reps[Where(reps, f)[0]]); }
  }

  lemma SoonestIs(reps: seq<Rep>, f: Rep -> bool)
    ensures Where(reps, f) != [] ==> FirstReady(reps, f, reps[Soonest(reps, Where(reps, f))])
  {
    var ix := Where(reps, f);
    if ix != [] {
      var k := Soonest(reps, ix);
      forall i | 0 <= i < |reps| && f(reps[i]) ensures !Newer(reps[k], reps[i]) { assert i in ix; }
    }
  }

  /** Every replica that accepts is within reach of the dispatch policy. */
  lemma {:induction false} RouteAnywhere(c: SimConfig, s: Sim, i: nat) returns (k: nat)
    requires i < |s.pool.reps| && Ready(s.pool.reps[i], s.t)
    ensures Route(c.(choices := _ => k), s) == (s.pool, i)
  {
    var cand := Where(s.pool.reps, (r: Rep) => r.Accepting(s.t));
    assert i in cand;
    k :| k < |cand| && cand[k] == i;
    SmallModulus(k, |cand|);
    hide Where;
  }

  lemma SmallModulus(k: nat, n: nat)
    requires k < n
    ensures k % n == k
  {}

  /** What is still to come: the arrival of a request, the end of a boot, the clock of a batch. */
  predicate ToCome(s: Sim, t: real) {
    || (s.arrivalI < |s.trace| && s.trace[s.arrivalI].tArrival == t)
    || (exists i :: 0 <= i < |s.pool.reps| && ToComeOf(s.pool.reps[i], s.t, t))
  }

  predicate ToComeOf(r: Rep, now: real, t: real) {
    && r.tReleased.None?
    && if r.tReady > now + 0.000000001 then r.tReady == t else r.eng.running != [] && r.eng.next == At(t)
  }

  lemma {:induction false} NextOf(reps: seq<Rep>, now: real)
    ensures var x := MinClock(NextReady(reps, now), NextStep(reps, now));
            && (x.At? ==> exists i :: 0 <= i < |reps| && ToComeOf(reps[i], now, x.t))
            && forall i, t :: 0 <= i < |reps| && ToComeOf(reps[i], now, t) ==> x.At? && x.t <= t
  {
    if reps != [] {
      NextOf(reps[1..], now);
      var y := MinClock(NextReady(reps[1..], now), NextStep(reps[1..], now));
      if y.At? {
        var i :| 0 <= i < |reps[1..]| && ToComeOf(reps[1..][i], now, y.t);
        assert ToComeOf(reps[i + 1], now, y.t);
      }
      forall i, t | 0 <= i < |reps| && ToComeOf(reps[i], now, t)
        ensures var x := MinClock(NextReady(reps, now), NextStep(reps, now)); x.At? && x.t <= t
      {
        if i > 0 { assert ToComeOf(reps[1..][i - 1], now, t); }
      }
    }
  }

  /** The next event is the first thing still to come. */
  lemma {:induction false} NextEventIsFirst(s: Sim)
    ensures NextEvent(s).At? ==> ToCome(s, NextEvent(s).t)
    ensures forall t :: ToCome(s, t) ==> NextEvent(s).At? && NextEvent(s).t <= t
  {
    NextOf(s.pool.reps, s.t);
    hide NextReady, NextStep;
  }
}
