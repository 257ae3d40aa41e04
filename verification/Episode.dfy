/** One scored episode: control steps, the drain past the horizon, and what the whole episode is charged. */
module Episode {
  import opened Requests
  import opened ReplicaPool
  import opened Simulator
  import opened SimulatorInvariant
  import opened SimulatorRuns
  import opened ReplicaEngines
  import opened ReachableStates
  import opened RequestHistory
  import opened DrainRuns
  import opened CostModel

  datatype EnvConfig = EnvConfig(sim: SimConfig, slo: Slo, weights: Weights, dt: real, nSteps: nat,
                                 drainCap: real, chargeDrain: bool)

  /** The environment's state within an episode. */
  datatype Env = Env(sim: Sim, stepI: nat, scored: set<int>, cum: Costs, nViol: nat, closed: bool)

  function Reset(c: EnvConfig, trace: seq<Req>): Env { Env(Begin(c.sim, trace), 0, {}, NO_COSTS, 0, false) }

  function Elems(s: seq<int>): set<int> { set n | n in s }

  function Distance(a: int, b: int): nat { if a >= b then a - b else b - a }

  /** The simulator after a control action and one control interval. */
  function Interval(c: EnvConfig, s: Sim, k: int): (s': Sim)
    requires RunInv(c.sim, s)
    ensures RunInv(c.sim, s') && s'.trace == s.trace && s.t <= s'.t
  {
    ScaleKeeps(c.sim, s, k);
    hide SimInv, QuietUntil;
    StepTo(c.sim, SetTargetReplicas(c.sim, s, k), s.t + c.dt, true)
  }

  function ChurnOf(c: EnvConfig, s: Sim, k: int): nat {
    Distance(SetTargetReplicas(c.sim, s, k).pool.target, s.pool.target)
  }

  /** One control step; the last one also drains, scores the drain and closes the episode. */
  function Step(c: EnvConfig, v: Env, k: int): (v': Env)
    requires RunInv(c.sim, v.sim)
    ensures RunInv(c.sim, v'.sim) && v'.sim.trace == v.sim.trace
  {
    var s1 := Interval(c, v.sim, k);
    var w := Window(v.sim.t, s1.t, v.scored, true);
    var scored := v.scored + Elems(Newly(c.slo, w, RequestsNow(s1)));
    var viol := Violations(c.slo, w, RequestsNow(s1));
    var rs := s1.pool.replicaSeconds - SetTargetReplicas(c.sim, v.sim, k).pool.replicaSeconds;
    var churn := ChurnOf(c, v.sim, k);
    hide RunInv;
    if v.stepI + 1 < c.nSteps then
      Env(s1, v.stepI + 1, scored, AddCosts(v.cum, Decompose(c.weights, viol, rs, churn, 0, 0.0, 0)),
          v.nViol + viol, false)
    else
      var s2 := DrainAll(c.sim, s1, s1.t + c.drainCap);
      var w2 := Window(s1.t, s2.t, scored, false);
      var scored2 := scored + Elems(Newly(c.slo, w2, RequestsNow(s2)));
      var viol2 := Violations(c.slo, w2, RequestsNow(s2));
      var rs2 := s2.pool.replicaSeconds - s1.pool.replicaSeconds;
      var unfinished := CountUnfinished(RequestsNow(s2), scored2);
      var cost := if c.chargeDrain then Decompose(c.weights, viol, rs, churn, viol2, rs2, unfinished)
                  else Decompose(c.weights, viol, rs, churn, 0, 0.0, 0);
      Env(s2, v.stepI + 1, scored2, AddCosts(v.cum, cost), v.nViol + viol, true)
  }

  /** The environment after the actions ks, one control step each. */
  function Run(c: EnvConfig, trace: seq<Req>, ks: seq<int>): (v: Env)
    requires TraceOk(c.sim.model, trace)
    ensures RunInv(c.sim, v.sim) && v.sim.trace == trace
  {
    if ks == [] then
      BeginKeeps(c.sim, trace);
      Reset(c, trace)
    else
      hide RunInv, Step, TraceOk;
      Step(c, Run(c, trace, ks[..|ks| - 1]), ks[|ks| - 1])
  }

  // ---- the reference: what a request is charged, read off its final state ---------------------------------------

  /** At time t the request was in the system, past its hard deadline. */
  predicate LateAt(slo: Slo, r: Req, t: real) {
    && r.tArrival <= t && t - r.tArrival > slo.hard
    && (r.tDone.None? || r.tDone.value > t)
    && (slo.LlmSlo? ==> r.tFirst.None? || r.tFirst.value > t)
  }

  /** The request was late at one of the control times ts. */
  predicate Late(slo: Slo, ts: seq<real>, r: Req) { exists k :: 0 <= k < |ts| && LateAt(slo, r, ts[k]) }

  predicate Decided(slo: Slo, ts: seq<real>, r: Req) { r.Done() || Late(slo, ts, r) }

  /** It was late at a control time, or finished in violation of its targets. */
  predicate Violated(slo: Slo, ts: seq<real>, r: Req) {
    Late(slo, ts, r) || (r.Done() && ViolatesCompleted(slo, r).Some?)
  }

  /** Charged at the end of the episode: a violation, or never finished. */
  predicate Charged(slo: Slo, ts: seq<real>, r: Req) { Violated(slo, ts, r) || !r.Done() }

  /** Number of requests charged, each once. */
  function ChargedCount(slo: Slo, ts: seq<real>, rs: seq<Req>): nat { Tally(r => Charged(slo, ts, r), rs) }

  function ViolatedCount(slo: Slo, ts: seq<real>, rs: seq<Req>): nat { Tally(r => Violated(slo, ts, r), rs) }

  /** Control times of a run: the end of every control interval. */
  function Times(c: EnvConfig, trace: seq<Req>, ks: seq<int>): seq<real>
    requires TraceOk(c.sim.model, trace)
  {
    if ks == [] then []
    else
      var v := Run(c, trace, ks[..|ks| - 1]);
      Times(c, trace, ks[..|ks| - 1]) + [Interval(c, v.sim, ks[|ks| - 1]).t]
  }

  /** Replicas added or removed by the actions of a run. */
  function Churn(c: EnvConfig, trace: seq<Req>, ks: seq<int>): nat
    requires TraceOk(c.sim.model, trace)
  {
    if ks == [] then 0
    else
      var v := Run(c, trace, ks[..|ks| - 1]);
      Churn(c, trace, ks[..|ks| - 1]) + ChurnOf(c, v.sim, ks[|ks| - 1])
  }

  // ---- one request across one window -------------------------------------------------------------------------------

  /** Nothing is stamped in the future. */
  predicate StampedBy(r: Req, t: real) {
    (r.tDone.Some? ==> r.tDone.value <= t) && (r.tFirst.Some? ==> r.tFirst.value <= t)
  }

  lemma LateKept(slo: Slo, r: Req, r': Req, u: real, t: real, t': real)
    requires Later(r, r', t, t') && StampedBy(r, t) && u <= t <= t'
    ensures LateAt(slo, r', u) <==> LateAt(slo, r, u)
  {}

  lemma {:induction false} LatesKept(slo: Slo, ts: seq<real>, r: Req, r': Req, t: real, t': real)
    requires Later(r, r', t, t') && StampedBy(r, t) && t <= t' && forall k :: 0 <= k < |ts| ==> ts[k] <= t
    ensures Late(slo, ts, r') <==> Late(slo, ts, r)
  {
    forall k | 0 <= k < |ts| ensures LateAt(slo, r', ts[k]) <==> LateAt(slo, r, ts[k]) {
      LateKept(slo, r, r', ts[k], t, t');
    }
  }

  lemma {:induction false} LateAppend(slo: Slo, ts: seq<real>, t: real, r: Req)
    ensures Late(slo, ts + [t], r) <==> Late(slo, ts, r) || LateAt(slo, r, t)
  {
    var us := ts + [t];
    if Late(slo, ts, r) {
      var k :| 0 <= k < |ts| && LateAt(slo, r, ts[k]);
      assert LateAt(slo, r, us[k]);
    }
    if LateAt(slo, r, t) { assert LateAt(slo, r, us[|ts|]); }
  }

  /** A control window decides exactly what its end makes decided, and charges exactly what that adds. */
  lemma {:induction false} ControlWindow(slo: Slo, ts: seq<real>, r: Req, r': Req, w: Window)
    requires w.pending && Later(r, r', w.tPrev, w.tNow) && StampedBy(r, w.tPrev) && w.tPrev <= w.tNow
    requires forall k :: 0 <= k < |ts| ==> ts[k] <= w.tPrev
    requires r.seqNo in w.scored <==> Decided(slo, ts, r)
    ensures StampedBy(r', w.tNow)
    ensures Decided(slo, ts + [w.tNow], r') <==> r'.seqNo in w.scored || Decides(slo, w, r')
    ensures !(r'.seqNo in w.scored && Decides(slo, w, r'))
    ensures Violated(slo, ts + [w.tNow], r') <==> Violated(slo, ts, r) || Violates(slo, w, r')
    ensures !(Violated(slo, ts, r) && Violates(slo, w, r'))
  {
    LatesKept(slo, ts, r, r', w.tPrev, w.tNow);
    LateAppend(slo, ts, w.tNow, r');
    hide Late, ViolatesCompleted;
  }

  /** The drain window decides exactly the completions of the drain. */
  lemma {:induction false} DrainWindow(slo: Slo, ts: seq<real>, r: Req, r': Req, w: Window)
    requires !w.pending && Later(r, r', w.tPrev, w.tNow) && StampedBy(r, w.tPrev) && w.tPrev <= w.tNow
    requires forall k :: 0 <= k < |ts| ==> ts[k] <= w.tPrev
    requires r.seqNo in w.scored <==> Decided(slo, ts, r)
    ensures StampedBy(r', w.tNow)
    ensures Decided(slo, ts, r') <==> r'.seqNo in w.scored || Decides(slo, w, r')
    ensures !(r'.seqNo in w.scored && Decides(slo, w, r'))
    ensures Violated(slo, ts, r') <==> Violated(slo, ts, r) || Violates(slo, w, r')
    ensures !(Violated(slo, ts, r) && Violates(slo, w, r'))
  {
    LatesKept(slo, ts, r, r', w.tPrev, w.tNow);
    hide Late, ViolatesCompleted;
  }

  // ---- all requests across one window ---------------------------------------------------------------------------------

  ghost predicate Distinct(rs: seq<Req>) { forall i, j :: 0 <= i < j < |rs| ==> rs[i].seqNo != rs[j].seqNo }

  /** The books at time t: scored is what has been decided, each violation has been counted once. */
  ghost predicate Scores(slo: Slo, rs: seq<Req>, t: real, ts: seq<real>, scored: set<int>, nViol: nat) {
    && (forall k :: 0 <= k < |ts| ==> ts[k] <= t)
    && (forall i :: 0 <= i < |rs| ==> StampedBy(rs[i], t))
    && (forall i :: 0 <= i < |rs| ==> (rs[i].seqNo in scored <==> Decided(slo, ts, rs[i])))
    && (forall n :: n in scored ==> exists i :: 0 <= i < |rs| && rs[i].seqNo == n)
    && nViol == ViolatedCount(slo, ts, rs)
  }

  ghost predicate AllLater(rs: seq<Req>, rs': seq<Req>, t: real, t': real) {
    |rs| == |rs'| && t <= t' && forall i :: 0 <= i < |rs| ==> Later(rs[i], rs'[i], t, t')
  }

  /** What one window does to the books, given what it does to each request. */
  lemma {:induction false} WindowScores(slo: Slo, rs: seq<Req>, rs': seq<Req>, w: Window, ts: seq<real>, ts': seq<real>,
                                        nViol: nat)
    requires Scores(slo, rs, w.tPrev, ts, w.scored, nViol) && |rs'| == |rs| && Distinct(rs')
    requires forall k :: 0 <= k < |ts'| ==> ts'[k] <= w.tNow
    requires forall i :: 0 <= i < |rs| ==>
               && rs'[i].seqNo == rs[i].seqNo && StampedBy(rs'[i], w.tNow)
               && (Decided(slo, ts', rs'[i]) <==> rs'[i].seqNo in w.scored || Decides(slo, w, rs'[i]))
               && (Violated(slo, ts', rs'[i]) <==> Violated(slo, ts, rs[i]) || Violates(slo, w, rs'[i]))
               && !(Violated(slo, ts, rs[i]) && Violates(slo, w, rs'[i]))
    ensures Scores(slo, rs', w.tNow, ts', w.scored + Elems(Newly(slo, w, rs')), nViol + Violations(slo, w, rs'))
  {
    hide Decided, Violated, Decides, Violates, StampedBy;
    var newly := Newly(slo, w, rs');
    SelectMembers(r => Decides(slo, w, r), rs');
    TallySplit(r => Violated(slo, ts, r), r => Violates(slo, w, r), r => Violated(slo, ts', r), rs, rs');
    forall n | n in w.scored ensures exists i :: 0 <= i < |rs'| && rs'[i].seqNo == n {
      var i :| 0 <= i < |rs| && rs[i].seqNo == n;
      assert rs'[i].seqNo == n;
    }
    forall i | 0 <= i < |rs'| ensures rs'[i].seqNo in newly <==> Decides(slo, w, rs'[i]) {
      NewlyIs(slo, w, rs', i);
    }
  }

  lemma {:induction false} NewlyIs(slo: Slo, w: Window, rs: seq<Req>, i: nat)
    requires Distinct(rs) && i < |rs|
    ensures rs[i].seqNo in Newly(slo, w, rs) <==> Decides(slo, w, rs[i])
  {
    hide Decides;
    SelectMembers(r => Decides(slo, w, r), rs);
    if rs[i].seqNo in Newly(slo, w, rs) {
      var j :| 0 <= j < |rs| && Decides(slo, w, rs[j]) && rs[j].seqNo == rs[i].seqNo;
      assert j == i;
    }
  }

  lemma {:induction false} ControlScores(slo: Slo, rs: seq<Req>, rs': seq<Req>, w: Window, ts: seq<real>, nViol: nat)
    requires w.pending && Scores(slo, rs, w.tPrev, ts, w.scored, nViol)
    requires AllLater(rs, rs', w.tPrev, w.tNow) && Distinct(rs')
    ensures Scores(slo, rs', w.tNow, ts + [w.tNow], w.scored + Elems(Newly(slo, w, rs')),
                   nViol + Violations(slo, w, rs'))
  {
    var ts' := ts + [w.tNow];
    hide Decided, Violated, Decides, Violates, StampedBy, Newly, Violations;
    forall i | 0 <= i < |rs|
      ensures rs'[i].seqNo == rs[i].seqNo && StampedBy(rs'[i], w.tNow)
      ensures Decided(slo, ts', rs'[i]) <==> rs'[i].seqNo in w.scored || Decides(slo, w, rs'[i])
      ensures Violated(slo, ts', rs'[i]) <==> Violated(slo, ts, rs[i]) || Violates(slo, w, rs'[i])
      ensures !(Violated(slo, ts, rs[i]) && Violates(slo, w, rs'[i]))
    {
      ControlWindow(slo, ts, rs[i], rs'[i], w);
    }
    WindowScores(slo, rs, rs', w, ts, ts', nViol);
  }

  lemma {:induction false} DrainScores(slo: Slo, rs: seq<Req>, rs': seq<Req>, w: Window, ts: seq<real>, nViol: nat)
    requires !w.pending && Scores(slo, rs, w.tPrev, ts, w.scored, nViol)
    requires AllLater(rs, rs', w.tPrev, w.tNow) && Distinct(rs')
    ensures Scores(slo, rs', w.tNow, ts, w.scored + Elems(Newly(slo, w, rs')), nViol + Violations(slo, w, rs'))
  {
    hide Decided, Violated, Decides, Violates, StampedBy, Newly, Violations;
    forall i | 0 <= i < |rs|
      ensures rs'[i].seqNo == rs[i].seqNo && StampedBy(rs'[i], w.tNow)
      ensures Decided(slo, ts, rs'[i]) <==> rs'[i].seqNo in w.scored || Decides(slo, w, rs'[i])
      ensures Violated(slo, ts, rs'[i]) <==> Violated(slo, ts, rs[i]) || Violates(slo, w, rs'[i])
      ensures !(Violated(slo, ts, rs[i]) && Violates(slo, w, rs'[i]))
    {
      DrainWindow(slo, ts, rs[i], rs'[i], w);
    }
    WindowScores(slo, rs, rs', w, ts, ts, nViol);
  }

  // ---- one control step ---------------------------------------------------------------------------------------------------

  lemma {:induction false} NowDistinct(c: SimConfig, s: Sim)
    requires RunInv(c, s)
    ensures Distinct(RequestsNow(s))
  {
    SimFacts(c, s);
    hide SimInv, RequestsNow;
    forall i | 0 <= i < |s.trace| ensures Desc(RequestsNow(s)[i]) == s.trace[i] { NowDescends(c, s, i); }
    forall i, j | 0 <= i < j < |s.trace| ensures RequestsNow(s)[i].seqNo != RequestsNow(s)[j].seqNo {
      assert s.trace[i].seqNo != s.trace[j].seqNo;
    }
  }

  lemma {:induction false} NowDescends(c: SimConfig, s: Sim, i: nat)
    requires TraceOk(c.model, s.trace) && Conserved(s) && i < |s.trace|
    ensures Desc(RequestsNow(s)[i]) == s.trace[i]
  {
    hide RequestsNow, HeldMs;
    if i < s.arrivalI {
      var x := TraceIsHeld(s, i);
      CurrentIs(c, s, i, x);
    } else {
      UndispatchedIs(c, s, i);
      FreshInTrace(c.model, s.trace, i);
    }
  }

  lemma {:induction false} IntervalLater(c: EnvConfig, s: Sim, k: int)
    requires RunInv(c.sim, s)
    ensures AllLater(RequestsNow(s), RequestsNow(Interval(c, s, k)), s.t, Interval(c, s, k).t)
  {
    hide SimInv, RequestsLater, RequestsNow, Later, QuietUntil;
    ScaleKeeps(c.sim, s, k);
    ScaleLater(c.sim, s, k);
    var s0 := SetTargetReplicas(c.sim, s, k);
    ActionLater(c.sim, s0, Advance(s.t + c.dt, true));
    hide StepTo, SetTargetReplicas;
    RequestsLaterTrans(s, s0, Interval(c, s, k));
    AllLaterIs(s, Interval(c, s, k));
  }

  lemma AllLaterIs(s: Sim, s': Sim)
    requires RequestsLater(s, s')
    ensures AllLater(RequestsNow(s), RequestsNow(s'), s.t, s'.t)
  {
    hide RequestsNow, Later;
  }

  lemma {:induction false} DrainLater(c: SimConfig, s: Sim, tCap: real)
    requires RunInv(c, s)
    ensures AllLater(RequestsNow(s), RequestsNow(DrainAll(c, s, tCap)), s.t, DrainAll(c, s, tCap).t)
  {
    hide RunInv, RequestsLater, RequestsNow, Later, DrainAll;
    ActionLater(c, s, Drain(tCap));
    AllLaterIs(s, DrainAll(c, s, tCap));
  }

  // ---- the whole episode ------------------------------------------------------------------------------------------------------

  ghost predicate Books(c: EnvConfig, s: Sim, ts: seq<real>, scored: set<int>, nViol: nat) {
    Scores(c.slo, RequestsNow(s), s.t, ts, scored, nViol)
  }

  function Product(w: real, n: nat): real { w * (n as real) }

  lemma ProductSum(w: real, a: nat, b: nat)
    ensures Product(w, a + b) == Product(w, a) + Product(w, b)
  {
    assert (a + b) as real == a as real + b as real;
  }

  lemma ProductZero(w: real)
    ensures Product(w, 0) == 0.0
  {}

  /** The accumulated costs, before any drain. */
  ghost predicate Money(c: EnvConfig, cum: Costs, nViol: nat, replicaSeconds: real, churn: nat) {
    && cum.slo == Product(c.weights.slo, nViol) && cum.churn == Product(c.weights.churn, churn)
    && cum.resource == c.weights.resource * replicaSeconds
    && cum.sloDrain == 0.0 && cum.resourceDrain == 0.0 && cum.sloUnfinished == 0.0
    && cum.total == cum.slo + cum.resource + cum.churn
  }

  lemma Resources(w: real, a: real, b: real)
    ensures w * a + w * (b - a) == w * b
  {}

  /** A step without a drain adds its violations, its replica-seconds and its churn. */
  lemma {:induction false} MoneyAdds(c: EnvConfig, cum: Costs, nViol: nat, r0: real, churn: nat, viol: nat, r1: real,
                                     more: nat)
    requires Money(c, cum, nViol, r0, churn)
    ensures Money(c, AddCosts(cum, Decompose(c.weights, viol, r1 - r0, more, 0, 0.0, 0)), nViol + viol, r1, churn + more)
  {
    var w := c.weights;
    ProductSum(w.slo, nViol, viol);
    ProductSum(w.churn, churn, more);
    ProductZero(w.slo);
    Resources(w.resource, r0, r1);
  }

  /** The accumulated costs at the end: n1 violations, r1 replica-seconds and the churn up to the horizon, and, where
      the drain is charged, n2 more violations, the replica-seconds up to r2, and the requests left unfinished. */
  ghost predicate Items(c: EnvConfig, cum: Costs, n1: nat, n2: nat, r1: real, r2: real, churn: nat, unfinished: nat) {
    && cum.slo == Product(c.weights.slo, n1) && cum.resource == c.weights.resource * r1
    && cum.churn == Product(c.weights.churn, churn)
    && cum.sloDrain == (if c.chargeDrain then Product(c.weights.slo, n2) else 0.0)
    && cum.resourceDrain == (if c.chargeDrain then c.weights.resource * (r2 - r1) else 0.0)
    && cum.sloUnfinished == (if c.chargeDrain then Product(c.weights.slo, unfinished) else 0.0)
    && cum.total == cum.slo + cum.resource + cum.churn + cum.sloDrain + cum.resourceDrain + cum.sloUnfinished
  }

  /** The last step. */
  lemma {:induction false} MoneyCloses(c: EnvConfig, cum: Costs, nViol: nat, r0: real, churn: nat, viol: nat, r1: real,
                                       more: nat, viol2: nat, r2: real, unfinished: nat)
    requires Money(c, cum, nViol, r0, churn)
    ensures var cost := if c.chargeDrain then Decompose(c.weights, viol, r1 - r0, more, viol2, r2 - r1, unfinished)
                        else Decompose(c.weights, viol, r1 - r0, more, 0, 0.0, 0);
            Items(c, AddCosts(cum, cost), nViol + viol, viol2, r1, r2, churn + more, unfinished)
  {
    var w := c.weights;
    ProductSum(w.slo, nViol, viol);
    ProductSum(w.churn, churn, more);
    ProductZero(w.slo);
    Resources(w.resource, r0, r1);
  }

  /** The books at the end of the episode: the costs are those of the requests in violation at the horizon and after
      the drain, and of what the requests left unfinished are. */
  ghost predicate Itemised(c: EnvConfig, s1: Sim, v: Env, ts: seq<real>, churn: nat) {
    var n1, n2 := ViolatedCount(c.slo, ts, RequestsNow(s1)), ViolatedCount(c.slo, ts, RequestsNow(v.sim));
    && n1 <= n2 && v.nViol == n1
    && Items(c, v.cum, n1, n2 - n1, s1.pool.replicaSeconds, v.sim.pool.replicaSeconds, churn,
             CountUnfinished(RequestsNow(v.sim), v.scored))
  }

  lemma BooksCount(c: EnvConfig, s: Sim, ts: seq<real>, scored: set<int>, nViol: nat)
    requires Books(c, s, ts, scored, nViol)
    ensures nViol == ViolatedCount(c.slo, ts, RequestsNow(s))
  {
    hide RequestsNow, Scores;
    ScoresCount(c.slo, RequestsNow(s), s.t, ts, scored, nViol);
  }

  lemma {:induction false} IntervalBooks(c: EnvConfig, s: Sim, k: int, ts: seq<real>, scored: set<int>, nViol: nat)
    requires RunInv(c.sim, s) && Books(c, s, ts, scored, nViol)
    ensures var s1 := Interval(c, s, k);
            var w := Window(s.t, s1.t, scored, true);
            Books(c, s1, ts + [s1.t], scored + Elems(Newly(c.slo, w, RequestsNow(s1))),
                  nViol + Violations(c.slo, w, RequestsNow(s1)))
  {
    hide RunInv, Interval, RequestsNow, Scores, AllLater, Distinct;
    var s1 := Interval(c, s, k);
    IntervalLater(c, s, k);
    NowDistinct(c.sim, s1);
    ControlScores(c.slo, RequestsNow(s), RequestsNow(s1), Window(s.t, s1.t, scored, true), ts, nViol);
  }

  lemma {:induction false} DrainBooks(c: EnvConfig, s: Sim, tCap: real, ts: seq<real>, scored: set<int>, nViol: nat)
    requires RunInv(c.sim, s) && Books(c, s, ts, scored, nViol)
    ensures var s2 := DrainAll(c.sim, s, tCap);
            var w := Window(s.t, s2.t, scored, false);
            Books(c, s2, ts, scored + Elems(Newly(c.slo, w, RequestsNow(s2))),
                  nViol + Violations(c.slo, w, RequestsNow(s2)))
  {
    hide RunInv, DrainAll, RequestsNow, Scores, AllLater, Distinct;
    var s2 := DrainAll(c.sim, s, tCap);
    DrainLater(c.sim, s, tCap);
    NowDistinct(c.sim, s2);
    DrainScores(c.slo, RequestsNow(s), RequestsNow(s2), Window(s.t, s2.t, scored, false), ts, nViol);
  }

  lemma {:induction false} ResetBooks(c: EnvConfig, trace: seq<Req>)
    requires TraceOk(c.sim.model, trace)
    ensures Books(c, Begin(c.sim, trace), [], {}, 0)
  {
    RequestsAtBegin(c.sim, trace);
    TraceUnscored(c, trace);
    hide RequestsNow, Begin;
  }

  lemma {:induction false} TraceUnscored(c: EnvConfig, trace: seq<Req>)
    requires TraceOk(c.sim.model, trace)
    ensures Scores(c.slo, trace, 0.0, [], {}, 0)
  {
    var f := r => Violated(c.slo, [], r);
    forall i | 0 <= i < |trace| ensures !trace[i].Done() && trace[i].tFirst.None? {
      assert Fresh(trace[i]);
    }
    hide TraceOk, ViolatesCompleted;
    NoneTallied(f, trace);
  }

  lemma {:induction false} NoneTallied(f: Req -> bool, rs: seq<Req>)
    requires forall i :: 0 <= i < |rs| ==> !f(rs[i])
    ensures Tally(f, rs) == 0
  {
    if rs != [] { NoneTallied(f, rs[..|rs| - 1]); }
  }

  ghost predicate OpenInv(c: EnvConfig, v: Env, ts: seq<real>, churn: nat) {
    && Books(c, v.sim, ts, v.scored, v.nViol) && !v.closed
    && Money(c, v.cum, v.nViol, v.sim.pool.replicaSeconds, churn)
  }

  lemma {:induction false} OpenStep(c: EnvConfig, v: Env, k: int, ts: seq<real>, churn: nat)
    requires RunInv(c.sim, v.sim) && OpenInv(c, v, ts, churn) && v.stepI + 1 < c.nSteps
    ensures OpenInv(c, Step(c, v, k), ts + [Interval(c, v.sim, k).t], churn + ChurnOf(c, v.sim, k))
    ensures Step(c, v, k).stepI == v.stepI + 1
  {
    hide RunInv, Interval, Books, Money, Newly, Violations, RequestsNow, ChurnOf, Decompose, AddCosts;
    var s1 := Interval(c, v.sim, k);
    IntervalBooks(c, v.sim, k, ts, v.scored, v.nViol);
    SetTargetUnbilled(c.sim.pool, v.sim.pool, k);
    var viol := Violations(c.slo, Window(v.sim.t, s1.t, v.scored, true), RequestsNow(s1));
    MoneyAdds(c, v.cum, v.nViol, v.sim.pool.replicaSeconds, churn, viol, s1.pool.replicaSeconds, ChurnOf(c, v.sim, k));
  }

  /** Up to the horizon the books are right after every step. */
  lemma {:induction false} RunOpen(c: EnvConfig, trace: seq<Req>, ks: seq<int>)
    requires TraceOk(c.sim.model, trace) && |ks| < c.nSteps
    ensures OpenInv(c, Run(c, trace, ks), Times(c, trace, ks), Churn(c, trace, ks))
    ensures Run(c, trace, ks).stepI == |ks|
  {
    hide RunInv, TraceOk, Books, Step, Interval;
    if ks == [] {
      ResetBooks(c, trace);
      ResetKeeps(c.sim.pool);
      ProductZero(c.weights.slo);
      ProductZero(c.weights.churn);
    } else {
      var n := |ks| - 1;
      hide OpenInv;
      RunOpen(c, trace, ks[..n]);
      OpenStep(c, Run(c, trace, ks[..n]), ks[n], Times(c, trace, ks[..n]), Churn(c, trace, ks[..n]));
    }
  }

  /** The numbers in `scored` are those of the requests that satisfy f. */
  ghost predicate ScoredBy(f: Req -> bool, rs: seq<Req>, scored: set<int>) {
    && (forall n :: n in scored ==> exists i :: 0 <= i < |rs| && rs[i].seqNo == n)
    && (forall i :: 0 <= i < |rs| ==> (rs[i].seqNo in scored <==> f(rs[i])))
  }

  lemma {:induction false} ScoredLast(f: Req -> bool, rs: seq<Req>, scored: set<int>)
    requires rs != [] && Distinct(rs) && ScoredBy(f, rs, scored)
    ensures ScoredBy(f, rs[..|rs| - 1], scored - {rs[|rs| - 1].seqNo})
  {
    var k := |rs| - 1;
    var rest := scored - {rs[k].seqNo};
    forall n | n in rest ensures exists i :: 0 <= i < k && rs[..k][i].seqNo == n {
      var i :| 0 <= i < |rs| && rs[i].seqNo == n;
      assert rs[..k][i].seqNo == n;
    }
    forall i | 0 <= i < k ensures rs[..k][i].seqNo in rest <==> f(rs[..k][i]) {
      assert rs[i].seqNo != rs[k].seqNo;
    }
  }

  lemma LessOne(s: set<int>, x: int)
    ensures |s| == |s - {x}| + (if x in s then 1 else 0)
  {
    if x in s { assert s == s - {x} + {x}; } else { assert s == s - {x}; }
  }

  /** A set of distinct sequence numbers is as large as the number of requests it names. */
  lemma {:induction false} ScoredSize(f: Req -> bool, rs: seq<Req>, scored: set<int>)
    requires Distinct(rs) && ScoredBy(f, rs, scored)
    ensures |scored| == Tally(f, rs)
    decreases |rs|
  {
    if rs == [] {
      assert forall n :: n !in scored;
    } else {
      var k := |rs| - 1;
      ScoredLast(f, rs, scored);
      LessOne(scored, rs[k].seqNo);
      assert rs[k].seqNo in scored <==> f(rs[k]);
      hide ScoredBy;
      ScoredSize(f, rs[..k], scored - {rs[k].seqNo});
    }
  }

  /** At the end every request is either scored or unfinished, and each is charged at most once. */
  lemma {:induction false} Settlement(slo: Slo, rs: seq<Req>, t: real, ts: seq<real>, scored: set<int>, nViol: nat)
    requires Scores(slo, rs, t, ts, scored, nViol) && Distinct(rs)
    ensures |scored| + CountUnfinished(rs, scored) == |rs|
    ensures nViol + CountUnfinished(rs, scored) == ChargedCount(slo, ts, rs)
  {
    hide Late, ViolatesCompleted, StampedBy;
    ScoredSize(r => Decided(slo, ts, r), rs, scored);
    TallySplit(r => Decided(slo, ts, r), r => Unfinished(scored, r), r => true, rs, rs);
    AllTallied(rs);
    TallySplit(r => Violated(slo, ts, r), r => Unfinished(scored, r), r => Charged(slo, ts, r), rs, rs);
  }

  lemma {:induction false} AllTallied(rs: seq<Req>)
    ensures Tally(r => true, rs) == |rs|
  {
    if rs != [] { AllTallied(rs[..|rs| - 1]); }
  }

  /** What the last control step does, spelt out. */
  lemma {:induction false} CloseStep(c: EnvConfig, v: Env, k: int, ts: seq<real>, churn: nat)
    requires RunInv(c.sim, v.sim) && OpenInv(c, v, ts, churn) && v.stepI + 1 >= c.nSteps
    ensures var v', ts' := Step(c, v, k), ts + [Interval(c, v.sim, k).t];
            var rs := RequestsNow(v'.sim);
            && v'.closed
            && (exists n: nat :: Scores(c.slo, rs, v'.sim.t, ts', v'.scored, n))
            && Itemised(c, Interval(c, v.sim, k), v', ts', churn + ChurnOf(c, v.sim, k))
  {
    hide RunInv, Interval, Books, Money, Newly, Violations, RequestsNow, ChurnOf, Decompose, AddCosts, DrainAll,
         Scores, Distinct, CountUnfinished, ViolatedCount, Items;
    var s1 := Interval(c, v.sim, k);
    var w := Window(v.sim.t, s1.t, v.scored, true);
    var viol := Violations(c.slo, w, RequestsNow(s1));
    var scored := v.scored + Elems(Newly(c.slo, w, RequestsNow(s1)));
    var ts' := ts + [s1.t];
    IntervalBooks(c, v.sim, k, ts, v.scored, v.nViol);
    SetTargetUnbilled(c.sim.pool, v.sim.pool, k);
    var s2 := DrainAll(c.sim, s1, s1.t + c.drainCap);
    var w2 := Window(s1.t, s2.t, scored, false);
    var scored2 := scored + Elems(Newly(c.slo, w2, RequestsNow(s2)));
    var viol2 := Violations(c.slo, w2, RequestsNow(s2));
    DrainBooks(c, s1, s1.t + c.drainCap, ts', scored, v.nViol + viol);
    BooksAre(c, s2, ts', scored2, v.nViol + viol + viol2);
    DrainKeeps(c.sim, s1, s1.t + c.drainCap);
    NowDistinct(c.sim, s2);
    BooksCount(c, s1, ts', scored, v.nViol + viol);
    BooksCount(c, s2, ts', scored2, v.nViol + viol + viol2);
    MoneyCloses(c, v.cum, v.nViol, v.sim.pool.replicaSeconds, churn, viol, s1.pool.replicaSeconds,
                ChurnOf(c, v.sim, k), viol2, s2.pool.replicaSeconds, CountUnfinished(RequestsNow(s2), scored2));
  }

  lemma DrainKeeps(c: SimConfig, s: Sim, tCap: real)
    requires RunInv(c, s)
    ensures RunInv(c, DrainAll(c, s, tCap))
  {
    hide RunInv;
  }

  lemma BooksAre(c: EnvConfig, s: Sim, ts: seq<real>, scored: set<int>, nViol: nat)
    requires Books(c, s, ts, scored, nViol)
    ensures Scores(c.slo, RequestsNow(s), s.t, ts, scored, nViol)
  {
    hide Scores, RequestsNow;
  }

  /** Over a whole episode, whatever the actions: every completed request has been scored, scored and unfinished
      requests partition the trace, and the accumulated costs are itemised. */
  lemma {:induction false} EpisodeSettles(c: EnvConfig, trace: seq<Req>, ks: seq<int>)
    requires TraceOk(c.sim.model, trace) && |ks| == c.nSteps >= 1
    ensures var v, ts := Run(c, trace, ks), Times(c, trace, ks);
            var rs := RequestsNow(v.sim);
            && v.closed
            && (forall i :: 0 <= i < |rs| ==> (rs[i].seqNo in v.scored <==> Decided(c.slo, ts, rs[i])))
            && |v.scored| + CountUnfinished(rs, v.scored) == |trace|
            && CountUnfinished(rs, v.scored) + ViolatedCount(c.slo, ts, rs) == ChargedCount(c.slo, ts, rs)
            && Itemised(c, Horizon(c, trace, ks), v, ts, Churn(c, trace, ks))
  {
    hide RunInv, TraceOk, Step, Interval, OpenInv, RequestsNow, Distinct, CountUnfinished, Decided, Charged, Scores,
         ChurnOf, ChargedCount, Itemised, ViolatedCount;
    var n := |ks| - 1;
    RunOpen(c, trace, ks[..n]);
    CloseStep(c, Run(c, trace, ks[..n]), ks[n], Times(c, trace, ks[..n]), Churn(c, trace, ks[..n]));
    var v, ts := Run(c, trace, ks), Times(c, trace, ks);
    var nViol: nat :| Scores(c.slo, RequestsNow(v.sim), v.sim.t, ts, v.scored, nViol);
    NowDistinct(c.sim, v.sim);
    Settlement(c.slo, RequestsNow(v.sim), v.sim.t, ts, v.scored, nViol);
    ScoresMean(c.slo, RequestsNow(v.sim), v.sim.t, ts, v.scored, nViol);
    ScoresCount(c.slo, RequestsNow(v.sim), v.sim.t, ts, v.scored, nViol);
  }

  lemma ScoresCount(slo: Slo, rs: seq<Req>, t: real, ts: seq<real>, scored: set<int>, nViol: nat)
    requires Scores(slo, rs, t, ts, scored, nViol)
    ensures nViol == ViolatedCount(slo, ts, rs)
  {
    hide ViolatedCount, StampedBy, Decided;
  }

  lemma ScoresMean(slo: Slo, rs: seq<Req>, t: real, ts: seq<real>, scored: set<int>, nViol: nat)
    requires Scores(slo, rs, t, ts, scored, nViol)
    ensures forall i :: 0 <= i < |rs| ==> (rs[i].seqNo in scored <==> Decided(slo, ts, rs[i]))
  {
    hide Decided, StampedBy, ViolatedCount;
  }

  /** No window ever scores a request a second time, and no window lists a request twice. */
  lemma {:induction false} ScoredOnce(slo: Slo, w: Window, rs: seq<Req>)
    requires Distinct(rs)
    ensures forall n :: n in Newly(slo, w, rs) ==> n !in w.scored
    ensures |Elems(Newly(slo, w, rs))| == |Newly(slo, w, rs)|
  {
    var f := r => Decides(slo, w, r);
    SelectMembers(f, rs);
    forall i | 0 <= i < |rs| ensures rs[i].seqNo in Elems(Newly(slo, w, rs)) <==> f(rs[i]) { NewlyIs(slo, w, rs, i); }
    ScoredSize(f, rs, Elems(Newly(slo, w, rs)));
  }

  // ---- unfinished requests without a truncated drain ------------------------------------------------------------------------------

  lemma EngineFin(m: Model, e: Engine, t: real, x: Req)
    requires Inv(m, e, t) && e.Has(x) && !e.HasWork()
    ensures x.Done()
  {}

  /** When no replica holds work, everything dispatched is done. */
  lemma {:induction false} IdleMeansDone(c: SimConfig, s: Sim, i: nat)
    requires RunInv(c, s) && !HasWork(s.pool.reps) && i < s.arrivalI <= |s.trace|
    ensures RequestsNow(s)[i].Done()
  {
    SimFacts(c, s);
    RetiredEmpty(c, s);
    hide SimInv, RequestsNow, HeldMs, TraceOk, Conserved, Holds;
    var x := TraceIsHeld(s, i);
    CurrentIs(c, s, i, x);
    HeldDone(c, s, x);
  }

  lemma RetiredEmpty(c: SimConfig, s: Sim)
    requires SimInv(c, s)
    ensures forall r :: r in s.pool.retired ==> !r.eng.HasWork()
  {
    assert RetiredOk(s.pool);
  }

  lemma {:induction false} HeldDone(c: SimConfig, s: Sim, x: Req)
    requires RunInv(c, s) && !HasWork(s.pool.reps) && Holds(Everyone(s), x)
    requires forall r :: r in s.pool.retired ==> !r.eng.HasWork()
    ensures x.Done()
  {
    hide RunInv, Inv;
    var k :| 0 <= k < |Everyone(s)| && Everyone(s)[k].eng.Has(x);
    EngineSound(c, s, Everyone(s)[k]);
    EngineFin(c.model, Everyone(s)[k].eng, s.t, x);
  }

  /** When no replica holds work, the requests left unfinished are exactly those that were never dispatched. */
  lemma {:induction false} UnfinishedAre(c: EnvConfig, s: Sim, ts: seq<real>, scored: set<int>, nViol: nat, i: nat)
    requires RunInv(c.sim, s) && Books(c, s, ts, scored, nViol) && s.t > 0.0 && !HasWork(s.pool.reps)
    requires i < |s.trace|
    ensures Unfinished(scored, RequestsNow(s)[i]) <==> i >= s.arrivalI
  {
    hide SimInv, RequestsNow, TraceOk, HeldMs, StampedBy, Violated, HasWork;
    SimFacts(c.sim, s);
    if i < s.arrivalI {
      IdleMeansDone(c.sim, s, i);
    } else {
      NotYetLate(c, s, ts, i);
    }
  }

  /** Their number. */
  lemma {:induction false} UnfinishedCount(c: EnvConfig, s: Sim, ts: seq<real>, scored: set<int>, nViol: nat)
    requires RunInv(c.sim, s) && Books(c, s, ts, scored, nViol) && s.t > 0.0 && !HasWork(s.pool.reps)
    ensures s.arrivalI <= |s.trace| && CountUnfinished(RequestsNow(s), scored) == |s.trace| - s.arrivalI
  {
    hide SimInv, RequestsNow, TraceOk, HeldMs, Books, Unfinished, HasWork;
    SimFacts(c.sim, s);
    var rs := RequestsNow(s);
    forall i | 0 <= i < |rs| ensures Unfinished(scored, rs[i]) <==> i >= s.arrivalI {
      UnfinishedAre(c, s, ts, scored, nViol, i);
    }
    TallySuffix(r => Unfinished(scored, r), rs, s.arrivalI);
  }

  /** Where the last control interval ends. */
  function Horizon(c: EnvConfig, trace: seq<Req>, ks: seq<int>): (s: Sim)
    requires TraceOk(c.sim.model, trace) && ks != []
    ensures RunInv(c.sim, s) && s.trace == trace
  {
    hide RunInv, TraceOk;
    Interval(c, Run(c, trace, ks[..|ks| - 1]).sim, ks[|ks| - 1])
  }

  lemma LastStepSim(c: EnvConfig, v: Env, k: int)
    requires RunInv(c.sim, v.sim) && v.stepI + 1 >= c.nSteps
    ensures var s1 := Interval(c, v.sim, k);
            Step(c, v, k).sim == DrainAll(c.sim, s1, s1.t + c.drainCap)
  {
    hide RunInv, Interval, DrainAll, Newly, Violations, RequestsNow, CountUnfinished, Decompose, AddCosts, ChurnOf,
         SetTargetReplicas, Elems;
  }

  /** A drain that starts deals with everything that arrives by its cap. */
  lemma {:induction false} DrainDispatches(c: SimConfig, s: Sim, tCap: real, i: nat)
    requires RunInv(c, s) && 0.0 < s.t < tCap && HasWork(s.pool.reps) && i < |s.trace|
    ensures DrainAll(c, s, tCap).arrivalI <= i ==> s.trace[i].tArrival > tCap - EPS
    decreases Measure(c, s)
  {
    hide RunInv, Measure, HasWork, NextEvent;
    var s1 := StepTo(c, s, tCap, false);
    ArrivalsBy(c, s1, tCap, i);
    hide StepTo;
    if s1.t > s.t + DRAIN_EPS {
      if s1.t < tCap && HasWork(s1.pool.reps) {
        DrainDispatches(c, s1, tCap, i);
      } else {
        assert DrainAll(c, s1, tCap) == s1;
      }
    }
  }

  lemma {:induction false} ArrivalsBy(c: SimConfig, s: Sim, tCap: real, i: nat)
    requires RunInv(c, s) && s.t > 0.0 && NothingBy(s, tCap) && i < |s.trace|
    ensures s.arrivalI <= i ==> s.trace[i].tArrival > tCap - EPS
  {
    if s.arrivalI <= i {
      OnTimeAt(c, s, i);
      TraceSorted(c.model, s.trace, s.arrivalI, i);
      MinClockFacts(NextArrival(s), NextReady(s.pool.reps, s.t));
      MinClockFacts(MinClock(NextArrival(s), NextReady(s.pool.reps, s.t)), NextStep(s.pool.reps, s.t));
      hide SimInv, NextReady, NextStep, MinClock;
    }
  }

  /** A drain never moves the clock beyond its cap. */
  lemma {:induction false} DrainWithinCap(c: SimConfig, s: Sim, tCap: real)
    requires RunInv(c, s) && s.t > 0.0
    ensures DrainAll(c, s, tCap).t <= s.t || DrainAll(c, s, tCap).t <= tCap
  {
    hide SimInv, Measure, EventsBy, DrainAll, NextEvent, Productive, BeforeClocks;
    var n := DrainStopsAtEvent(c, s, tCap);
    NoEvents(c, s, tCap);
    if n > 0 {
      LastEvent(c, s, n, tCap);
      EventAhead(c, After(c, s, n - 1));
    }
  }

  /** What the drain of the last step leaves undispatched, in terms of what is known before it: the requests that
      arrive after the cap if work is held at the horizon, and those that arrive after the horizon if none is. */
  lemma {:induction false} DrainLeaves(c: SimConfig, s: Sim, tCap: real, i: nat)
    requires RunInv(c, s) && s.t > 0.0 && i < |s.trace| && !HasWork(DrainAll(c, s, tCap).pool.reps)
    ensures var bound := if HasWork(s.pool.reps) then tCap else s.t;
            && (DrainAll(c, s, tCap).arrivalI <= i ==> s.trace[i].tArrival > bound - EPS)
            && (s.trace[i].tArrival > bound + EPS ==> DrainAll(c, s, tCap).arrivalI <= i)
  {
    var s2 := DrainAll(c, s, tCap);
    OnTimeAt(c, s2, i);
    DrainWithinCap(c, s, tCap);
    if HasWork(s.pool.reps) {
      assert s.t < tCap;
      DrainDispatches(c, s, tCap, i);
    }
    hide RunInv, HasWork, StepTo;
  }

  /** Unless the drain was truncated, a request is left unfinished, and charged, if and only if it arrives after the
      cap when work is held at the horizon, or after the horizon when none is; up to the event tolerance, within
      which a request may be dispatched either way. */
  lemma {:induction false} UnfinishedArriveLater(c: EnvConfig, trace: seq<Req>, ks: seq<int>, i: nat)
    requires TraceOk(c.sim.model, trace) && |ks| == c.nSteps >= 1 && c.dt > EPS && i < |trace|
    requires !HasWork(Run(c, trace, ks).sim.pool.reps)
    ensures var v, s1 := Run(c, trace, ks), Horizon(c, trace, ks);
            var bound := if HasWork(s1.pool.reps) then s1.t + c.drainCap else s1.t;
            && (Unfinished(v.scored, RequestsNow(v.sim)[i]) ==> trace[i].tArrival > bound - EPS)
            && (trace[i].tArrival > bound + EPS ==> Unfinished(v.scored, RequestsNow(v.sim)[i]))
  {
    hide RunInv, TraceOk, Step, Interval, OpenInv, RequestsNow, CountUnfinished, Scores, Unfinished, HasWork, ChurnOf,
         DrainAll, ChargedCount;
    var n := |ks| - 1;
    var v0, v := Run(c, trace, ks[..n]), Run(c, trace, ks);
    RunOpen(c, trace, ks[..n]);
    CloseStep(c, v0, ks[n], Times(c, trace, ks[..n]), Churn(c, trace, ks[..n]));
    LastStepSim(c, v0, ks[n]);
    var s1 := Interval(c, v0.sim, ks[n]);
    IntervalMoves(c, v0.sim, ks[n]);
    DrainLeaves(c.sim, s1, s1.t + c.drainCap, i);
    var ts' := Times(c, trace, ks[..n]) + [s1.t];
    var nViol: nat :| Scores(c.slo, RequestsNow(v.sim), v.sim.t, ts', v.scored, nViol);
    UnfinishedAre(c, v.sim, ts', v.scored, nViol, i);
  }

  lemma {:induction false} IntervalMoves(c: EnvConfig, s: Sim, k: int)
    requires RunInv(c.sim, s) && c.dt > EPS
    ensures Interval(c, s, k).t > 0.0
  {
    ScaleKeeps(c.sim, s, k);
    NoEarlier(c.sim, s);
    hide SimInv, Measure, QuietUntil, SetTarget;
  }

  lemma {:induction false} NotYetLate(c: EnvConfig, s: Sim, ts: seq<real>, i: nat)
    requires RunInv(c.sim, s) && s.t > 0.0 && s.arrivalI <= i < |s.trace|
    requires forall k :: 0 <= k < |ts| ==> ts[k] <= s.t
    ensures !RequestsNow(s)[i].Done() && !Decided(c.slo, ts, RequestsNow(s)[i])
  {
    SimFacts(c.sim, s);
    Undispatched(c.sim, s);
    TraceSorted(c.sim.model, s.trace, s.arrivalI, i);
    UndispatchedIs(c.sim, s, i);
    FreshInTrace(c.sim.model, s.trace, i);
    hide SimInv, TraceOk, RequestsNow;
  }

  lemma {:induction false} TallySuffix(f: Req -> bool, rs: seq<Req>, n: nat)
    requires n <= |rs| && forall i :: 0 <= i < |rs| ==> (f(rs[i]) <==> i >= n)
    ensures Tally(f, rs) == |rs| - n
  {
    if n < |rs| { TallySuffix(f, rs[..|rs| - 1], n); } else { NoneTallied(f, rs); }
  }

  /** Nothing happens to idle founders before the first arrival. */
  lemma {:induction false} QuietStart(c: SimConfig, trace: seq<Req>, tEnd: real)
    requires tEnd > 0.0 && forall i :: 0 <= i < |trace| ==> trace[i].tArrival > tEnd
    ensures Iterate(c, Begin(c, trace), tEnd, true) == Returned(Jump(Begin(c, trace), tEnd))
  {
    var s := Begin(c, trace);
    ResetKeeps(c.pool);
    NothingPending(s.pool.reps, 0.0);
    hide Jump, Event, NextReady, NextStep, PoolInv;
    assert NextEvent(s) == NextArrival(s);
  }

  lemma {:induction false} IdleStart(c: EnvConfig, trace: seq<Req>)
    requires RunInv(c.sim, Begin(c.sim, trace)) && c.sim.pool.k0 <= c.sim.pool.kMax
    requires c.dt > EPS && forall i :: 0 <= i < |trace| ==> trace[i].tArrival > c.dt
    ensures Interval(c, Begin(c.sim, trace), c.sim.pool.Founders()) == Jump(Begin(c.sim, trace), c.dt)
  {
    var s := Begin(c.sim, trace);
    FoundersTarget(c.sim.pool);
    QuietStart(c.sim, trace, c.dt);
    hide RunInv, Jump, Iterate, SetTarget, Measure, QuietUntil, Begin;
    assert SetTargetReplicas(c.sim, s, c.sim.pool.Founders()) == s by { BeginPool(c.sim, trace); }
    assert s.t == 0.0 by { BeginPool(c.sim, trace); }
    StepToUnfold(c.sim, s, c.dt, true);
  }

  lemma FoundersTarget(c: PoolConfig)
    requires c.k0 <= c.kMax
    ensures SetTarget(c, ReplicaPool.Reset(c), c.Founders()) == ReplicaPool.Reset(c)
  {
    StartManyFounders(c, Pool(0.0, [], [], 0, false, 0.0, 0, 0.0), c.Founders());
    hide AddMany, DrainNewest, CountActive;
  }

  lemma IdleDrain(c: SimConfig, s: Sim, tCap: real)
    requires RunInv(c, s) && !HasWork(s.pool.reps)
    ensures DrainAll(c, s, tCap) == s
  {
    hide RunInv, HasWork;
  }

  lemma {:induction false} IdleFounders(c: SimConfig, trace: seq<Req>, t: real)
    ensures var s := Jump(Begin(c, trace), t);
            !HasWork(s.pool.reps) && s.t == t && s.arrivalI == 0 && s.trace == trace
  {
    ResetKeeps(c.pool);
    JumpSame(Begin(c, trace), t);
    hide PoolInv, Jump;
  }

  lemma {:induction false} IdleHorizon(c: EnvConfig, trace: seq<Req>, ks: seq<int>)
    requires TraceOk(c.sim.model, trace) && |ks| == c.nSteps >= 1 && !HasWork(Horizon(c, trace, ks).pool.reps)
    ensures Run(c, trace, ks).sim == Horizon(c, trace, ks)
  {
    hide RunInv, TraceOk, Step, Interval, OpenInv, HasWork, DrainAll;
    var n := |ks| - 1;
    var v0, s1 := Run(c, trace, ks[..n]), Horizon(c, trace, ks);
    RunOpen(c, trace, ks[..n]);
    LastStepSim(c, v0, ks[n]);
    IdleDrain(c.sim, s1, s1.t + c.drainCap);
  }

  /** A request is charged as unfinished although the drain was not truncated, and not even needed, in every episode
      that is idle at the horizon and whose request arrives after it. */
  lemma {:induction false} UnfinishedWithoutTruncation(c: EnvConfig, trace: seq<Req>, ks: seq<int>, i: nat)
    requires TraceOk(c.sim.model, trace) && |ks| == c.nSteps >= 1 && c.dt > EPS && i < |trace|
    requires !HasWork(Horizon(c, trace, ks).pool.reps) && trace[i].tArrival > Horizon(c, trace, ks).t + EPS
    ensures var v := Run(c, trace, ks);
            && v.closed && v.sim == Horizon(c, trace, ks) && !HasWork(v.sim.pool.reps)
            && Unfinished(v.scored, RequestsNow(v.sim)[i])
  {
    hide RunInv, TraceOk, HasWork, RequestsNow, Unfinished, Run, Horizon, CountUnfinished, Decided, ChargedCount,
         Itemised;
    IdleHorizon(c, trace, ks);
    UnfinishedArriveLater(c, trace, ks, i);
    EpisodeSettles(c, trace, ks);
  }

  /** There are such episodes: a single request, after the only control interval. No replica ever holds work, and still
      one request is charged as unfinished. */
  lemma {:induction false} LateRequest(c: EnvConfig, r: Req)
    requires TraceOk(c.sim.model, [r]) && c.sim.pool.k0 <= c.sim.pool.kMax
    requires c.nSteps == 1 && c.dt > EPS && r.tArrival > c.dt
    ensures var v := Run(c, [r], [c.sim.pool.Founders()]);
            && v.closed && !HasWork(v.sim.pool.reps) && CountUnfinished(RequestsNow(v.sim), v.scored) == 1
  {
    hide RunInv, TraceOk, RequestsNow, Interval, OpenInv, Scores, CountUnfinished, HasWork, Step, Begin, Jump, Charged,
         ChargedCount, ChurnOf;
    var k, v0 := c.sim.pool.Founders(), Run(c, [r], []);
    BeginKeeps(c.sim, [r]);
    IdleStart(c, [r]);
    IdleFounders(c.sim, [r], c.dt);
    RunOpen(c, [r], []);
    assert [k][..0] == [] && Run(c, [r], [k]) == Step(c, v0, k);
    hide Run;
    LastStepSim(c, v0, k);
    IdleDrain(c.sim, Interval(c, v0.sim, k), c.dt + c.drainCap);
    CloseStep(c, v0, k, [], 0);
    var v := Step(c, v0, k);
    var ts := [] + [v.sim.t];
    var n: nat :| Scores(c.slo, RequestsNow(v.sim), v.sim.t, ts, v.scored, n);
    UnfinishedCount(c, v.sim, ts, v.scored, n);
  }
}
