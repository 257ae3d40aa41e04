/** The engine contract: what the event loop may rely on, whichever service model is behind it. */
module ReplicaEngines {
  import opened Requests
  import L = LlmServing
  import R = RequestService

  datatype Model = Llm(llm: L.LlmModel) | Rs(rs: R.RsModel)

  function ServiceStep(m: Model, e: Engine, t: real): Engine {
    match m case Llm(p) => L.ServiceStep(p, e, t) case Rs(p) => R.ServiceStep(p, e, t)
  }

  function OnTick(m: Model, e: Engine, t: real): Engine {
    match m case Llm(p) => L.OnTick(p, e, t) case Rs(p) => R.OnTick(p, e, t)
  }

  /** The scheduler step, if one is due. */
  function StepIfDue(m: Model, e: Engine, t: real): Engine {
    if e.running != [] && Due(e.next, t) then ServiceStep(m, e, t) else e
  }

  /** What one event does to a serving replica. */
  function Serve(m: Model, e: Engine, t: real): Engine { OnTick(m, StepIfDue(m, e, t), t) }

  ghost predicate GoodRequest(m: Model, r: Req) {
    match m case Llm(p) => L.GoodRequest(p, r) case Rs(p) => R.GoodRequest(r)
  }

  ghost predicate Inv(m: Model, e: Engine, now: real) {
    match m case Llm(p) => L.LlmInv(p, e, now) && L.Paced(p, e, now) case Rs(p) => R.RsInv(p, e, now) && R.Steady(e)
  }

  predicate AdmissionMaximal(m: Model, e: Engine) {
    match m case Llm(p) => L.AdmissionMaximal(p, e) case Rs(p) => R.AdmissionMaximal(p, e)
  }

  /** Work left on a replica: undelivered tokens, or unfinished requests. */
  function Work(m: Model, e: Engine): nat {
    match m case Llm(p) => L.Work(e) case Rs(p) => R.Work(e)
  }

  /** Work a request brings. */
  function WorkOf(m: Model, r: Req): nat {
    match m case Llm(p) => L.Left(r) case Rs(p) => 1
  }

  ghost predicate InTime(e: Engine, now: real, t: real) { R.InTime(e, now, t) }

  /** What every engine promises across one event at t. */
  ghost predicate Serves(m: Model, e: Engine, e': Engine, t: real) {
    && e.fin <= e'.fin && (forall r :: r in e'.fin[|e.fin|..] ==> r.tDone == Some(t))
    && multiset(Descs(e'.Held())) == multiset(Descs(e.Held()))
    && e'.accepting == e.accepting
    && Work(m, e') <= Work(m, e)
    && (e.running != [] && e.next == At(t) ==> Work(m, e') < Work(m, e))
    && (e.accepting ==> AdmissionMaximal(m, e'))
    && (!e.accepting ==> |e.slot| <= |e'.slot| && e'.slot[|e'.slot| - |e.slot|..] == e.slot)
  }

  /** The scheduler step, taken or not, leaves an engine the tick can start from. */
  lemma {:induction false} LlmStepIfDue(p: L.LlmModel, e: Engine, now: real, t: real)
    requires L.LlmInv(p, e, now) && now <= t
    ensures var e1 := StepIfDue(Llm(p), e, t);
            && L.Core(p, e1, t) && L.KvEvictable(p, e1)
            && e.fin <= e1.fin && (forall r :: r in e1.fin[|e.fin|..] ==> r.tDone == Some(t))
            && multiset(Descs(e1.Held())) == multiset(Descs(e.Held()))
            && e1.accepting == e.accepting && e1.slot == e.slot && L.Work(e1) <= L.Work(e)
            && (e.running != [] && e.next == At(t) ==> L.Work(e1) < L.Work(e))
  {
    hide L.Core, L.KvEvictable, L.Work, Descs;
    if e.running != [] && Due(e.next, t) {
      L.StepKeeps(p, e, now, t);
      L.StepDelivers(p, e, now, t);
    } else {
      L.CoreLater(p, e, now, t);
      L.SafeIsEvictable(p, e);
    }
  }

  lemma {:induction false} LlmServes(p: L.LlmModel, e: Engine, now: real, t: real)
    requires L.LlmInv(p, e, now) && now <= t
    ensures L.LlmInv(p, Serve(Llm(p), e, t), t) && Serves(Llm(p), e, Serve(Llm(p), e, t), t)
  {
    hide L.LlmInv, L.Core, L.KvEvictable, L.Work, L.OnTick, StepIfDue, Descs;
    var e1 := StepIfDue(Llm(p), e, t);
    LlmStepIfDue(p, e, now, t);
    L.TickKeeps(p, e1, t);
    RecutConserves(e1, L.OnTick(p, e1, t));
    if !e.accepting { L.RefusingKeepsQueue(p, e1, t); }
  }

  lemma {:induction false} LlmPaces(p: L.LlmModel, e: Engine, now: real, t: real)
    requires L.LlmInv(p, e, now) && L.Paced(p, e, now) && now <= t
    ensures L.Paced(p, Serve(Llm(p), e, t), t)
  {
    hide L.LlmInv, L.Paced, L.OnTick, L.ServiceStep;
    if e.running != [] && Due(e.next, t) {
      L.StepPaces(p, e, now, t);
    } else {
      L.PacedLater(p, e, now, t);
    }
    L.TickPaces(p, StepIfDue(Llm(p), e, t), t);
  }

  lemma FinTrans(a: Engine, b: Engine, c: Engine, t: real)
    requires a.fin <= b.fin && (forall r :: r in b.fin[|a.fin|..] ==> r.tDone == Some(t))
    requires b.fin <= c.fin && (forall r :: r in c.fin[|b.fin|..] ==> r.tDone == Some(t))
    ensures a.fin <= c.fin && (forall r :: r in c.fin[|a.fin|..] ==> r.tDone == Some(t))
  {
    assert c.fin[|a.fin|..] == b.fin[|a.fin|..] + c.fin[|b.fin|..];
  }

  lemma {:induction false} RsServes(p: R.RsModel, e: Engine, now: real, t: real)
    requires R.RsInv(p, e, now) && InTime(e, now, t)
    ensures R.RsInv(p, Serve(Rs(p), e, t), t) && Serves(Rs(p), e, Serve(Rs(p), e, t), t)
  {
    hide R.RsInv, R.OnTick, R.ServiceStep, R.Work, Descs;
    var e1 := StepIfDue(Rs(p), e, t);
    var u := if e.running != [] && Due(e.next, t) then t else now;
    if e.running != [] && Due(e.next, t) {
      R.StepKeeps(p, e, now, t);
      R.StepDelivers(p, e, now, t);
      R.ClockFact(p, e1, t);
    }
    R.TickKeeps(p, e1, u, t);
    R.TickDelivers(p, e1, u, t);
    FinTrans(e, e1, R.OnTick(p, e1, t), t);
  }

  lemma {:induction false} RsSteady(p: R.RsModel, e: Engine, now: real, t: real)
    requires R.RsInv(p, e, now) && InTime(e, now, t) && R.Steady(e)
    ensures R.Steady(Serve(Rs(p), e, t))
  {
    hide R.RsInv, R.Steady, R.OnTick, R.ServiceStep;
    if e.running != [] && Due(e.next, t) {
      var e1 := StepIfDue(Rs(p), e, t);
      R.StepKeeps(p, e, now, t);
      R.StepSteady(p, e, now, t);
      R.ClockFact(p, e1, t);
      R.TickSteady(p, e1, t, t);
    } else {
      R.TickSteady(p, e, now, t);
    }
  }

  /** Both engines keep the contract. */
  lemma {:induction false} ServeKeeps(m: Model, e: Engine, now: real, t: real)
    requires Inv(m, e, now) && InTime(e, now, t)
    ensures Inv(m, Serve(m, e, t), t) && Serves(m, e, Serve(m, e, t), t)
  {
    hide L.LlmInv, L.Paced, R.RsInv, R.Steady, Serve, Serves;
    match m
    case Llm(p) =>
      LlmServes(p, e, now, t);
      LlmPaces(p, e, now, t);
    case Rs(p) =>
      RsServes(p, e, now, t);
      RsSteady(p, e, now, t);
  }

  /** Time may pass up to the clock without an event. */
  lemma {:induction false} Idle(m: Model, e: Engine, now: real, t: real)
    requires Inv(m, e, now) && now <= t && (e.running != [] ==> e.next.At? && t < e.next.t)
    ensures Inv(m, e, t)
  {
    match m
    case Llm(p) =>
      L.CoreLater(p, e, now, t);
      L.PacedLater(p, e, now, t);
    case Rs(p) => R.CoreLater(p, e, now, t);
  }

  /** A new replica's engine keeps the contract. */
  lemma NewEngineInv(m: Model, now: real)
    ensures Inv(m, NewEngine, now) && Work(m, NewEngine) == 0
  {}

  lemma LlmAccepting(p: L.LlmModel, e: Engine, b: bool, now: real)
    requires L.LlmInv(p, e, now)
    ensures L.LlmInv(p, e.(accepting := b), now)
  {
    hide Increasing, AdmitMonotone, L.TokenOk, L.GoodRequest, Sum, L.Footprint;
    var e' := e.(accepting := b);
    assert e'.Held() == e.Held() && e'.Line() == e.Line();
    forall r ensures e'.Has(r) == e.Has(r) {}
    SameRecord(e, b, now);
  }

  lemma RsAccepting(p: R.RsModel, e: Engine, b: bool, now: real)
    requires R.RsInv(p, e, now)
    ensures R.RsInv(p, e.(accepting := b), now)
  {
    hide Increasing, AdmitMonotone, R.Serving, R.Served, R.GoodRequest, Sum, R.MinLeft, R.Rate;
    var e' := e.(accepting := b);
    assert e'.Held() == e.Held() && e'.Line() == e.Line();
    forall r ensures e'.Has(r) == e.Has(r) {}
    SameRecord(e, b, now);
  }

  lemma SameRecord(e: Engine, b: bool, now: real)
    requires Stamped(e, now) && AdmitMonotone(e)
    ensures Stamped(e.(accepting := b), now) && AdmitMonotone(e.(accepting := b))
  {
    forall r ensures e.(accepting := b).Has(r) == e.Has(r) {}
  }

  /** Refusing or accepting admissions does not disturb an engine. */
  lemma SetAccepting(m: Model, e: Engine, b: bool, now: real)
    requires Inv(m, e, now)
    ensures Inv(m, e.(accepting := b), now) && Work(m, e.(accepting := b)) == Work(m, e)
    ensures e.(accepting := b).Held() == e.Held()
  {
    hide L.LlmInv, L.Paced, R.RsInv, R.Steady;
    match m
    case Llm(p) =>
      LlmAccepting(p, e, b, now);
      L.AcceptPaces(p, e, b, now);
    case Rs(p) =>
      RsAccepting(p, e, b, now);
      R.SteadySame(e, e.(accepting := b));
  }

  // ---- when a replica that refuses admissions can finish ------------------------------------------------

  /** Nothing waits, and (decoding under a KV budget) nothing running will have to go back to waiting. */
  ghost predicate CanFinish(m: Model, e: Engine) {
    e.slot == [] && (m.Llm? ==> L.CanFinish(m.llm, e))
  }

  lemma {:induction false} LlmServeFinish(p: L.LlmModel, e: Engine, now: real, t: real)
    requires L.LlmInv(p, e, now) && now <= t && !e.accepting
    ensures CanFinish(Llm(p), Serve(Llm(p), e, t)) <==> CanFinish(Llm(p), e)
  {
    hide L.LlmInv, L.Core, L.KvEvictable, L.OnTick, L.CanFinish, StepIfDue, L.Work, Descs;
    LlmStepIfDue(p, e, now, t);
    var e1 := StepIfDue(Llm(p), e, t);
    L.TickFinish(p, e1, t, t);
    LlmStepFinish(p, e, now, t);
    FinishMeansNoQueue(p, e);
    FinishMeansNoQueue(p, L.OnTick(p, e1, t));
  }

  lemma FinishMeansNoQueue(p: L.LlmModel, e: Engine)
    ensures L.CanFinish(p, e) ==> e.slot == []
  {}

  lemma {:induction false} LlmStepFinish(p: L.LlmModel, e: Engine, now: real, t: real)
    requires L.LlmInv(p, e, now) && now <= t
    ensures L.CanFinish(p, StepIfDue(Llm(p), e, t)) <==> L.CanFinish(p, e)
  {
    hide L.LlmInv, L.CanFinish, L.ServiceStep;
    L.StepFinish(p, e, now, t);
  }

  lemma {:induction false} RsServeFinish(p: R.RsModel, e: Engine, now: real, t: real)
    requires R.RsInv(p, e, now) && InTime(e, now, t) && !e.accepting
    ensures Serve(Rs(p), e, t).slot == e.slot
  {
    hide R.RsInv, R.OnTick, R.ServiceStep, R.Work, Descs;
    var e1 := StepIfDue(Rs(p), e, t);
    if e.running != [] && Due(e.next, t) {
      R.StepKeeps(p, e, now, t);
      R.StepDelivers(p, e, now, t);
      R.ClockFact(p, e1, t);
      R.TickKeeps(p, e1, t, t);
    } else {
      R.TickKeeps(p, e, now, t);
    }
  }

  /** Whether a replica that refuses admissions can finish never changes while it is served. */
  lemma {:induction false} ServeFinish(m: Model, e: Engine, now: real, t: real)
    requires Inv(m, e, now) && InTime(e, now, t) && !e.accepting
    ensures CanFinish(m, Serve(m, e, t)) <==> CanFinish(m, e)
  {
    match m
    case Llm(p) => LlmServeFinish(p, e, now, t);
    case Rs(p) => RsServeFinish(p, e, now, t);
  }

  lemma IdleFinish(m: Model, e: Engine)
    requires e.running == []
    ensures CanFinish(m, e) <==> e.slot == []
  {}

  // ---- dispatch onto a queue -------------------------------------------------------------------------

  /** r comes after everything this replica ever held. */
  ghost predicate Newest(e: Engine, r: Req) { forall x :: e.Has(x) ==> Before(x, r) }

  lemma {:induction false} PushOrdered(e: Engine, r: Req, now: real)
    requires Fresh(r) && Newest(e, r) && Stamped(e, now) && Increasing(e.Line()) && AdmitMonotone(e)
    ensures var e' := PushBack(e, r);
            && Stamped(e', now) && Increasing(e'.Line()) && AdmitMonotone(e')
            && e'.Line() == e.Line() + [r] && e'.Held() == e.Held() + [r]
            && (forall x :: e'.Has(x) <==> e.Has(x) || x == r)
  {
    var e' := PushBack(e, r);
    assert e'.Line() == e.Line() + [r] && e'.Held() == e.Held() + [r];
    forall x ensures e'.Has(x) <==> e.Has(x) || x == r {}
    forall i, j | 0 <= i < j < |e'.Line()| ensures Before(e'.Line()[i], e'.Line()[j]) {
      if j == |e.Line()| {
        assert e.Line()[i] in e.running || e.Line()[i] in e.slot;
        assert e.Has(e.Line()[i]);
      } else {
        assert Before(e.Line()[i], e.Line()[j]);
      }
    }
    forall a, b | e'.Has(a) && e'.Has(b) && Before(a, b) && b.tAdmit.Some?
      ensures a.tAdmit.Some? && a.tAdmit.value <= b.tAdmit.value
    {
      assert b != r && e.Has(b);
      if a != r { assert e.Has(a); }
    }
    forall x | e'.Has(x) && x.tAdmit.Some? ensures x.tAdmit.value <= now { assert e.Has(x); }
  }

  lemma {:induction false} LlmPush(p: L.LlmModel, e: Engine, r: Req, now: real)
    requires L.LlmInv(p, e, now) && Fresh(r) && L.GoodRequest(p, r) && Newest(e, r)
    ensures L.LlmInv(p, PushBack(e, r), now) && L.Work(PushBack(e, r)) == L.Work(e) + L.Left(r)
  {
    hide Increasing, AdmitMonotone, Stamped;
    PushOrdered(e, r, now);
    SumAppend(Progress, e.Held(), [r]);
    CountAppend(L.Left, e.slot, [r]);
    forall x | PushBack(e, r).Has(x) ensures L.GoodRequest(p, x) && L.TokenOk(x, now) {
      if x != r { assert e.Has(x); }
    }
  }

  lemma {:induction false} RsPush(p: R.RsModel, e: Engine, r: Req, now: real)
    requires R.RsInv(p, e, now) && Fresh(r) && R.GoodRequest(r) && Newest(e, r)
    ensures R.RsInv(p, PushBack(e, r), now) && R.Work(PushBack(e, r)) == R.Work(e) + 1
  {
    hide Increasing, AdmitMonotone, Stamped, R.Serving, R.Served, R.MinLeft, R.Rate, R.GoodRequest;
    PushOrdered(e, r, now);
    SumAppend(Progress, e.Held(), [r]);
    forall x | PushBack(e, r).Has(x) ensures R.GoodRequest(x) {
      if x != r { assert e.Has(x); }
    }
  }

  /** A fresh request that comes after everything dispatched before may join any queue. */
  lemma {:induction false} PushKeeps(m: Model, e: Engine, r: Req, now: real)
    requires Inv(m, e, now) && Fresh(r) && GoodRequest(m, r) && Newest(e, r)
    ensures Inv(m, PushBack(e, r), now) && Work(m, PushBack(e, r)) == Work(m, e) + WorkOf(m, r)
  {
    match m
    case Llm(p) =>
      LlmPush(p, e, r, now);
      L.PushPaces(p, e, r, now);
    case Rs(p) =>
      RsPush(p, e, r, now);
      R.PushSteady(e, r);
  }

  /** At an event a replica decodes if and only if its clock is due, to within the event tolerance: a token for every
      sequence of its batch then, and none otherwise. */
  lemma {:induction false} DecodesWhenDue(p: L.LlmModel, e: Engine, now: real, t: real)
    requires L.Core(p, e, now) && now <= t
    ensures Serve(Llm(p), e, t).work
            == e.work + (if e.next.At? && e.next.t <= t + 0.000000001 then |e.running| as real else 0.0)
  {
    var e1 := StepIfDue(Llm(p), e, t);
    var spent := L.TryAdmit(p, e1, t).1;
    hide L.Core, L.TryAdmit, L.Preempt;
    L.AdmitExactly(p, e1, t);
    L.PreemptExactly(p, L.TryAdmit(p, e1, t).0.(next := L.Charge(e1.next, spent, t)));
    hide L.ServiceStep, L.StepTime;
    if e.running != [] && Due(e.next, t) { StepWorks(p, e, t); }
  }

  lemma StepWorks(p: L.LlmModel, e: Engine, t: real)
    ensures L.ServiceStep(p, e, t).work == e.work + (|e.running| as real)
  {}
}
