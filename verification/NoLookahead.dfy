/** No lookahead: what the simulator does up to a time T, and what an episode is charged for it, does not depend on
    requests that arrive after T. */
module NoLookahead {
  import opened Requests
  import opened ReplicaPool
  import opened Simulator
  import opened SimulatorInvariant
  import opened SimulatorRuns
  import opened ReachableStates
  import opened RequestHistory
  import opened CostModel
  import opened Episode

  /** The traces share their first n requests, and whatever else they hold arrives after T. */
  predicate Shared(a: seq<Req>, b: seq<Req>, n: nat, T: real) {
    && n <= |a| && n <= |b| && a[..n] == b[..n]
    && (n < |a| ==> a[n].tArrival > T + EPS) && (n < |b| ==> b[n].tArrival > T + EPS)
  }

  /** Two runs in the same state, on traces that agree up to T. */
  predicate Twin(s: Sim, s': Sim, n: nat, T: real) {
    Shared(s.trace, s'.trace, n, T) && s' == s.(trace := s'.trace) && s.arrivalI <= n
  }

  lemma NextShared(s: Sim, s': Sim, n: nat, T: real)
    requires Twin(s, s', n, T)
    ensures s.arrivalI < n ==> s.trace[s.arrivalI] == s'.trace[s.arrivalI]
    ensures s.arrivalI == n ==> (NextArrival(s).At? ==> NextArrival(s).t > T + EPS)
                                && (NextArrival(s').At? ==> NextArrival(s').t > T + EPS)
  {
    if s.arrivalI < n { assert s.trace[..n][s.arrivalI] == s'.trace[..n][s.arrivalI]; }
  }

  /** An event by tEnd is the same event in both runs. */
  lemma {:induction false} SameEvent(s: Sim, s': Sim, n: nat, T: real, tEnd: real)
    requires Twin(s, s', n, T) && tEnd <= T
    ensures NextEvent(s).At? && NextEvent(s).t <= tEnd <==> NextEvent(s').At? && NextEvent(s').t <= tEnd
    ensures NextEvent(s).At? && NextEvent(s).t <= tEnd ==> NextEvent(s') == NextEvent(s)
  {
    NextShared(s, s', n, T);
    hide NextReady, NextStep;
  }

  lemma {:induction false} TwinDispatch(c: SimConfig, s: Sim, s': Sim, n: nat, T: real)
    requires Twin(s, s', n, T) && s.arrivalI < n
    ensures Twin(Dispatch(c, s), Dispatch(c, s'), n, T)
  {
    NextShared(s, s', n, T);
    assert Route(c, s') == Route(c, s);
    hide Route;
  }

  lemma {:induction false} TwinDispatchDue(c: SimConfig, s: Sim, s': Sim, n: nat, T: real)
    requires Twin(s, s', n, T) && s.t <= T
    ensures Twin(DispatchDue(c, s), DispatchDue(c, s'), n, T)
    decreases n - s.arrivalI
  {
    NextShared(s, s', n, T);
    if ArrivalDue(s) {
      TwinDispatch(c, s, s', n, T);
      DispatchCounts(c, s);
      hide Dispatch, Twin;
      TwinDispatchDue(c, Dispatch(c, s), Dispatch(c, s'), n, T);
    }
  }

  lemma DispatchCounts(c: SimConfig, s: Sim)
    requires s.arrivalI < |s.trace|
    ensures Dispatch(c, s).arrivalI == s.arrivalI + 1 && Dispatch(c, s).t == s.t
  {
    hide Route;
  }

  lemma {:induction false} TwinEvent(c: SimConfig, s: Sim, s': Sim, n: nat, T: real, t: real)
    requires Twin(s, s', n, T) && t <= T
    ensures Twin(Event(c, s, t), Event(c, s', t), n, T)
  {
    TwinDispatchDue(c, Jump(s, t), Jump(s', t), n, T);
    hide DispatchDue, Jump, MoveTo, ServePool, Reap, AnyDraining;
  }

  /** One turn of the loop ends, or advances, in both runs alike. */
  lemma {:induction false} TwinTurn(c: SimConfig, s: Sim, s': Sim, n: nat, T: real, tEnd: real, idle: bool)
    requires Twin(s, s', n, T) && RunInv(c, s) && RunInv(c, s') && s.t < tEnd <= T && NextAfter(c.gap, 0.0) <= T
    ensures var o, o' := Iterate(c, s, tEnd, idle), Iterate(c, s', tEnd, idle);
            !o.Stalled? && !o'.Stalled? && o.Advanced? == o'.Advanced? && Twin(o.s, o'.s, n, T)
  {
    hide SimInv, Shared, Measure;
    SameEvent(s, s', n, T, tEnd);
    IterateKeeps(c, s, tEnd, idle);
    IterateKeeps(c, s', tEnd, idle);
    if NextEvent(s).At? && NextEvent(s).t <= tEnd {
      EventAhead(c, s);
      var t := EventTime(c, s);
      var k := if NextEvent(s).t <= s.t then s.stalls + 1 else 0;
      hide RunInv, Event, Progresses, QuietUntil, BeforeClocks, Productive, NextEvent, Jump;
      TwinEvent(c, s.(stalls := k), s'.(stalls := k), n, T, t);
    } else {
      hide RunInv, Event, Progresses, QuietUntil, NextEvent, MoveTo;
    }
  }

  lemma {:induction false} TwinStepTo(c: SimConfig, s: Sim, s': Sim, n: nat, T: real, tEnd: real, idle: bool)
    requires Twin(s, s', n, T) && RunInv(c, s) && RunInv(c, s') && tEnd <= T && NextAfter(c.gap, 0.0) <= T
    ensures Twin(StepTo(c, s, tEnd, idle), StepTo(c, s', tEnd, idle), n, T)
    decreases Measure(c, s)
  {
    hide RunInv, Measure, QuietUntil, Iterate, Shared;
    if s.t < tEnd - EPS {
      TwinTurn(c, s, s', n, T, tEnd, idle);
      StepToUnfold(c, s, tEnd, idle);
      StepToUnfold(c, s', tEnd, idle);
      hide StepTo, Twin;
      if Iterate(c, s, tEnd, idle).Advanced? {
        TwinStepTo(c, Iterate(c, s, tEnd, idle).s, Iterate(c, s', tEnd, idle).s, n, T, tEnd, idle);
      }
    }
  }

  lemma {:induction false} TwinDrain(c: SimConfig, s: Sim, s': Sim, n: nat, T: real, tCap: real)
    requires Twin(s, s', n, T) && RunInv(c, s) && RunInv(c, s') && tCap <= T && NextAfter(c.gap, 0.0) <= T
    ensures Twin(DrainAll(c, s, tCap), DrainAll(c, s', tCap), n, T)
    decreases Measure(c, s)
  {
    hide RunInv, Measure, QuietUntil, Shared, HasWork;
    if s.t < tCap && HasWork(s.pool.reps) {
      TwinStepTo(c, s, s', n, T, tCap, false);
      var s1, s1' := StepTo(c, s, tCap, false), StepTo(c, s', tCap, false);
      hide StepTo;
      if s1.t > s.t + DRAIN_EPS { TwinDrain(c, s1, s1', n, T, tCap); }
    }
  }

  /** No action of the run looks beyond T. */
  predicate Until(acts: seq<Action>, T: real) {
    forall i :: 0 <= i < |acts| ==>
      match acts[i] case Scale(_) => true case Turn(tEnd, _) => tEnd <= T case Advance(tEnd, _) => tEnd <= T
                    case Drain(tCap) => tCap <= T
  }

  lemma {:induction false} TwinApply(c: SimConfig, s: Sim, s': Sim, n: nat, T: real, a: Action)
    requires Twin(s, s', n, T) && RunInv(c, s) && RunInv(c, s') && Until([a], T) && NextAfter(c.gap, 0.0) <= T
    ensures Twin(Apply(c, s, a), Apply(c, s', a), n, T)
  {
    hide SimInv, Shared, Iterate, SetTarget, StepTo, DrainAll, Measure, QuietUntil;
    assert [a][0] == a;
    match a
    case Scale(k) =>
    case Turn(tEnd, idle) => if s.t < tEnd - EPS { TwinTurn(c, s, s', n, T, tEnd, idle); }
    case Advance(tEnd, idle) => TwinStepTo(c, s, s', n, T, tEnd, idle);
    case Drain(tCap) => TwinDrain(c, s, s', n, T, tCap);
  }

  lemma {:induction false} TwinApplyAll(c: SimConfig, s: Sim, s': Sim, n: nat, T: real, acts: seq<Action>)
    requires Twin(s, s', n, T) && RunInv(c, s) && RunInv(c, s') && Until(acts, T) && NextAfter(c.gap, 0.0) <= T
    ensures Twin(ApplyAll(c, s, acts), ApplyAll(c, s', acts), n, T)
    decreases |acts|
  {
    hide RunInv, Twin, Apply;
    if acts != [] {
      assert Until([acts[0]], T) && Until(acts[1..], T);
      TwinApply(c, s, s', n, T, acts[0]);
      TwinApplyAll(c, Apply(c, s, acts[0]), Apply(c, s', acts[0]), n, T, acts[1..]);
    }
  }

  /** Two episodes whose traces agree on everything that arrives by T are, under the same actions, in the same
      state at every time up to T: the future of the trace plays no part. */
  lemma {:induction false} FutureIsIrrelevant(c: SimConfig, a: seq<Req>, b: seq<Req>, n: nat, T: real,
                                              acts: seq<Action>)
    requires TraceOk(c.model, a) && TraceOk(c.model, b) && Shared(a, b, n, T)
    requires Until(acts, T) && NextAfter(c.gap, 0.0) <= T
    ensures Reached(c, b, acts) == Reached(c, a, acts).(trace := b) && Reached(c, a, acts).arrivalI <= n
  {
    hide TraceOk, RunInv, Shared, Until;
    BeginKeeps(c, a);
    BeginKeeps(c, b);
    TwinApplyAll(c, Begin(c, a), Begin(c, b), n, T, acts);
  }

  // ---- what an episode is charged -----------------------------------------------------------------------------------

  /** Nobody needs to know more of the trace than what has been dispatched to say where its requests stand. */
  lemma {:induction false} NowTwin(c: SimConfig, s: Sim, s': Sim, n: nat, T: real, i: nat)
    requires Twin(s, s', n, T) && RunInv(c, s) && RunInv(c, s')
    ensures i < n ==> RequestsNow(s)[i] == RequestsNow(s')[i]
    ensures n <= i < |s.trace| ==> RequestsNow(s)[i].tDone.None? && RequestsNow(s)[i].tArrival > T
    ensures n <= i < |s'.trace| ==> RequestsNow(s')[i].tDone.None? && RequestsNow(s')[i].tArrival > T
  {
    if i < n {
      assert s.trace[i] == s.trace[..n][i] == s'.trace[..n][i] == s'.trace[i];
      hide RunInv;
    } else {
      hide SimInv, RequestsNow;
      if i < |s.trace| { FutureNow(c, s, n, T, i); }
      if i < |s'.trace| { FutureNow(c, s', n, T, i); }
    }
  }

  lemma {:induction false} FutureNow(c: SimConfig, s: Sim, n: nat, T: real, i: nat)
    requires RunInv(c, s) && s.arrivalI <= n <= i < |s.trace| && s.trace[n].tArrival > T + EPS
    ensures RequestsNow(s)[i].tDone.None? && RequestsNow(s)[i].tArrival > T
  {
    hide SimInv, RequestsNow;
    SimFacts(c, s);
    UndispatchedIs(c, s, i);
    FreshInTrace(c.model, s.trace, i);
    TraceSorted(c.model, s.trace, n, i);
    hide TraceOk, Conserved;
  }

  lemma {:induction false} SelectPrefix(f: Req -> bool, rs: seq<Req>, n: nat)
    requires n <= |rs| && forall i :: n <= i < |rs| ==> !f(rs[i])
    ensures Select(f, rs) == Select(f, rs[..n]) && Tally(f, rs) == Tally(f, rs[..n])
  {
    if n < |rs| {
      var k := |rs| - 1;
      SelectPrefix(f, rs[..k], n);
      assert rs[..k][..n] == rs[..n];
    } else {
      assert rs[..n] == rs;
    }
  }

  /** A window that ends by T decides and charges the same requests in both runs. */
  lemma {:induction false} WindowTwin(c: EnvConfig, s: Sim, s': Sim, n: nat, T: real, w: Window)
    requires Twin(s, s', n, T) && RunInv(c.sim, s) && RunInv(c.sim, s') && w.tNow <= T
    ensures Newly(c.slo, w, RequestsNow(s)) == Newly(c.slo, w, RequestsNow(s'))
    ensures Violations(c.slo, w, RequestsNow(s)) == Violations(c.slo, w, RequestsNow(s'))
  {
    var rs, rs' := RequestsNow(s), RequestsNow(s');
    hide RunInv, RequestsNow, ViolatesCompleted;
    forall i | 0 <= i < n ensures rs[i] == rs'[i] { NowTwin(c.sim, s, s', n, T, i); }
    forall i | n <= i < |rs| ensures !Decides(c.slo, w, rs[i]) { NowTwin(c.sim, s, s', n, T, i); }
    forall i | n <= i < |rs'| ensures !Decides(c.slo, w, rs'[i]) { NowTwin(c.sim, s, s', n, T, i); }
    hide Decides, Select, Tally;
    assert rs[..n] == rs'[..n];
    SelectPrefix(r => Decides(c.slo, w, r), rs, n);
    SelectPrefix(r => Decides(c.slo, w, r), rs', n);
    SelectPrefix(r => Violates(c.slo, w, r), rs, n);
    SelectPrefix(r => Violates(c.slo, w, r), rs', n);
  }

  lemma TwinScale(c: SimConfig, s: Sim, s': Sim, n: nat, T: real, k: int)
    requires Twin(s, s', n, T)
    ensures Twin(SetTargetReplicas(c, s, k), SetTargetReplicas(c, s', k), n, T)
    ensures SetTargetReplicas(c, s, k).pool == SetTargetReplicas(c, s', k).pool && s'.pool == s.pool && s'.t == s.t
  {
    hide SetTarget, Shared;
  }

  lemma {:induction false} TwinInterval(c: EnvConfig, s: Sim, s': Sim, n: nat, T: real, k: int)
    requires Twin(s, s', n, T) && RunInv(c.sim, s) && RunInv(c.sim, s')
    requires s.t + c.dt <= T && NextAfter(c.sim.gap, 0.0) <= T
    ensures Twin(Interval(c, s, k), Interval(c, s', k), n, T) && ChurnOf(c, s, k) == ChurnOf(c, s', k)
    ensures SetTargetReplicas(c.sim, s, k).pool == SetTargetReplicas(c.sim, s', k).pool
  {
    hide RunInv, Shared, SetTarget, Measure, QuietUntil, StepTo, Twin;
    TwinScale(c.sim, s, s', n, T, k);
    ScaleKeeps(c.sim, s, k);
    ScaleKeeps(c.sim, s', k);
    TwinStepTo(c.sim, SetTargetReplicas(c.sim, s, k), SetTargetReplicas(c.sim, s', k), n, T, s.t + c.dt, true);
  }

  /** Two environments in the same state, their traces apart. */
  ghost predicate TwinEnv(v: Env, v': Env, n: nat, T: real) {
    Twin(v.sim, v'.sim, n, T) && v' == v.(sim := v'.sim)
  }

  lemma {:induction false} TwinStep(c: EnvConfig, v: Env, v': Env, n: nat, T: real, k: int)
    requires TwinEnv(v, v', n, T) && RunInv(c.sim, v.sim) && RunInv(c.sim, v'.sim) && v.stepI + 1 < c.nSteps
    requires Interval(c, v.sim, k).t <= T && v.sim.t + c.dt <= T && NextAfter(c.sim.gap, 0.0) <= T
    ensures TwinEnv(Step(c, v, k), Step(c, v', k), n, T)
  {
    hide RunInv, Interval, RequestsNow, Newly, Violations, Decompose, AddCosts, Shared, ChurnOf, SetTargetReplicas;
    TwinInterval(c, v.sim, v'.sim, n, T, k);
    var s1, s1' := Interval(c, v.sim, k), Interval(c, v'.sim, k);
    WindowTwin(c, s1, s1', n, T, Window(v.sim.t, s1.t, v.scored, true));
  }

  /** Every control interval of the run is over by T. */
  ghost predicate OverBy(c: EnvConfig, trace: seq<Req>, ks: seq<int>, T: real)
    requires TraceOk(c.sim.model, trace)
  {
    forall j :: 0 <= j < |ks| ==>
      Run(c, trace, ks[..j]).sim.t + c.dt <= T && Interval(c, Run(c, trace, ks[..j]).sim, ks[j]).t <= T
  }

  /** What an episode has been charged by a control time does not depend on requests that arrive after it: two
      episodes whose traces agree up to T have, under the same actions, the same costs, the same scored requests and
      the same state up to then. */
  lemma {:induction false} ChargesAreCausal(c: EnvConfig, a: seq<Req>, b: seq<Req>, n: nat, T: real, ks: seq<int>)
    requires TraceOk(c.sim.model, a) && TraceOk(c.sim.model, b) && Shared(a, b, n, T) && |ks| < c.nSteps
    requires OverBy(c, a, ks, T) && NextAfter(c.sim.gap, 0.0) <= T
    ensures var v, v' := Run(c, a, ks), Run(c, b, ks);
            && v'.cum == v.cum && v'.scored == v.scored && v'.nViol == v.nViol
            && v'.sim == v.sim.(trace := b)
  {
    hide RunInv, TraceOk, Shared, Step, OverBy, RequestsNow;
    TwinRun(c, a, b, n, T, ks);
  }

  lemma {:induction false} TwinRun(c: EnvConfig, a: seq<Req>, b: seq<Req>, n: nat, T: real, ks: seq<int>)
    requires TraceOk(c.sim.model, a) && TraceOk(c.sim.model, b) && Shared(a, b, n, T) && |ks| < c.nSteps
    requires OverBy(c, a, ks, T) && NextAfter(c.sim.gap, 0.0) <= T
    ensures TwinEnv(Run(c, a, ks), Run(c, b, ks), n, T)
  {
    hide RunInv, TraceOk, Shared, Step, Interval, OpenInv;
    if ks != [] {
      var m := |ks| - 1;
      assert OverBy(c, a, ks[..m], T) by {
        forall j | 0 <= j < m
          ensures Run(c, a, ks[..m][..j]).sim.t + c.dt <= T
          ensures Interval(c, Run(c, a, ks[..m][..j]).sim, ks[..m][j]).t <= T
        {
          assert ks[..m][..j] == ks[..j];
        }
      }
      TwinRun(c, a, b, n, T, ks[..m]);
      RunOpen(c, a, ks[..m]);
      TwinStep(c, Run(c, a, ks[..m]), Run(c, b, ks[..m]), n, T, ks[m]);
    }
  }
}
