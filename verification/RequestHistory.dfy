/** How single requests evolve along a run: nothing is ever un-stamped, completed requests never change, and
    every new stamp carries the time of the event that made it. */
module RequestHistory {
  import opened Requests
  import opened ReplicaEngines
  import opened ReplicaPool
  import opened Simulator
  import opened SimulatorInvariant
  import opened SimulatorRuns
  import opened ReachableStates
  import L = LlmServing
  import R = RequestService

  /** A stamp that is kept, or made after t0 and no later than t1. */
  predicate StampLater(a: Option<real>, b: Option<real>, t0: real, t1: real) {
    if a.Some? then b == a else b.Some? ==> t0 < b.value <= t1
  }

  /** The request r at t0 has become r' at t1. */
  predicate Later(r: Req, r': Req, t0: real, t1: real) {
    && Desc(r') == Desc(r) && (r.Done() ==> r' == r)
    && StampLater(r.tAdmit, r'.tAdmit, t0, t1)
    && StampLater(r.tFirst, r'.tFirst, t0, t1)
    && StampLater(r.tDone, r'.tDone, t0, t1)
  }

  lemma LaterTrans(a: Req, b: Req, c: Req, t0: real, t1: real, t2: real)
    requires t0 <= t1 <= t2 && Later(a, b, t0, t1) && Later(b, c, t1, t2)
    ensures Later(a, c, t0, t2)
  {}

  /** Every request of e' was a request of e. */
  ghost predicate EngineLater(e: Engine, e': Engine, t0: real, t1: real) {
    forall x' :: e'.Has(x') ==> exists x :: e.Has(x) && Later(x, x', t0, t1)
  }

  lemma EngineLaterTrans(a: Engine, b: Engine, c: Engine, t0: real, t1: real)
    requires t0 < t1 && EngineLater(a, b, t0, t1) && EngineLater(b, c, t0, t1)
    ensures EngineLater(a, c, t0, t1)
  {
    forall z | c.Has(z) ensures exists x :: a.Has(x) && Later(x, z, t0, t1) {
      var y :| b.Has(y) && Later(y, z, t0, t1);
      var x :| a.Has(x) && Later(x, y, t0, t1);
      LaterTwice(x, y, z, t0, t1);
    }
  }

  lemma LaterTwice(a: Req, b: Req, c: Req, t0: real, t1: real)
    requires t0 < t1 && Later(a, b, t0, t1) && Later(b, c, t0, t1)
    ensures Later(a, c, t0, t1)
  {}

  lemma LaterSame(e: Engine, e': Engine, t0: real, t1: real)
    requires forall x :: e'.Has(x) ==> e.Has(x)
    ensures EngineLater(e, e', t0, t1)
  {
    forall x | e'.Has(x) ensures e.Has(x) && Later(x, x, t0, t1) {}
  }

  // ---- decoding ------------------------------------------------------------------------------------------------

  lemma TokenLater(r: Req, t0: real, t: real)
    requires !r.Done() && t0 < t
    ensures Later(r, L.Token(r, t), t0, t)
  {}

  lemma {:induction false} LlmStepLater(p: L.LlmModel, e: Engine, t0: real, t: real)
    requires Stamped(e, t0) && t0 < t
    ensures EngineLater(e, L.ServiceStep(p, e, t), t0, t)
  {
    var stepped := L.Tokens(e.running, t);
    forall x' | L.ServiceStep(p, e, t).Has(x') ensures exists x :: e.Has(x) && Later(x, x', t0, t) {
      hide L.Token;
      if x' in stepped {
        var i :| 0 <= i < |stepped| && stepped[i] == x';
        TokenLater(e.running[i], t0, t);
        assert e.Has(e.running[i]);
      } else {
        assert e.Has(x') && Later(x', x', t0, t);
      }
    }
  }

  lemma AdmitHeadLater(e: Engine, t0: real, t: real)
    requires t0 < t && e.slot != [] && !e.slot[0].Done()
    ensures EngineLater(e, L.AdmitHead(e, t), t0, t)
  {
    forall x' | L.AdmitHead(e, t).Has(x') ensures exists x :: e.Has(x) && Later(x, x', t0, t) {
      var x := if x' == Admit(e.slot[0], t) then e.slot[0] else x';
      assert e.Has(x) && Later(x, x', t0, t);
    }
  }

  lemma {:induction false} LlmAdmitLater(p: L.LlmModel, e: Engine, t0: real, t: real)
    requires t0 < t && forall r :: r in e.slot ==> !r.Done()
    ensures EngineLater(e, L.TryAdmit(p, e, t).0, t0, t)
    decreases |e.slot|
  {
    LaterSame(e, e, t0, t);
    hide EngineLater, L.CanAdmit;
    if e.slot != [] && L.CanAdmit(p, e, e.slot[0]) {
      AdmitHeadLater(e, t0, t);
      LlmAdmitLater(p, L.AdmitHead(e, t), t0, t);
      EngineLaterTrans(e, L.AdmitHead(e, t), L.TryAdmit(p, e, t).0, t0, t);
    }
  }

  lemma EvictLater(e: Engine, t0: real, t: real)
    requires t0 < t && e.running != [] && !e.running[|e.running| - 1].Done()
    ensures EngineLater(e, L.Evict(e), t0, t)
  {
    forall x' | L.Evict(e).Has(x') ensures exists x :: e.Has(x) && Later(x, x', t0, t) {
      var x := if x' == L.Evict(e).slot[0] then e.running[|e.running| - 1] else x';
      assert e.Has(x) && Later(x, x', t0, t);
    }
  }

  lemma {:induction false} LlmPreemptLater(p: L.LlmModel, e: Engine, t0: real, t: real)
    requires t0 < t && forall r :: r in e.running ==> !r.Done()
    ensures EngineLater(e, L.Preempt(p, e), t0, t)
    decreases |e.running|
  {
    LaterSame(e, e, t0, t);
    hide EngineLater, L.KvUsed;
    if L.OverBudget(p, e) {
      EvictLater(e, t0, t);
      LlmPreemptLater(p, L.Evict(e), t0, t);
      EngineLaterTrans(e, L.Evict(e), L.Preempt(p, e), t0, t);
    }
  }

  lemma LlmStamped(p: L.LlmModel, e: Engine, t: real)
    requires L.Core(p, e, t)
    ensures Stamped(e, t)
  {}

  lemma UndoneStamped(e: Engine, t: real)
    requires Stamped(e, t)
    ensures forall r :: r in e.running ==> !r.Done()
    ensures forall r :: r in e.slot ==> !r.Done()
  {}

  lemma {:induction false} LlmTickLater(p: L.LlmModel, e: Engine, t0: real, t: real)
    requires L.Core(p, e, t) && t0 < t
    ensures EngineLater(e, L.OnTick(p, e, t), t0, t)
  {
    var (e1, spent) := L.TryAdmit(p, e, t);
    L.TryAdmitKeeps(p, e, t);
    LlmStamped(p, e, t);
    LlmStamped(p, e1, t);
    hide L.Core, L.Requeues, EngineLater, Stamped, L.TryAdmit, L.Preempt, L.Rearm;
    UndoneStamped(e, t);
    UndoneStamped(e1, t);
    LlmAdmitLater(p, e, t0, t);
    var e2 := e1.(next := L.Charge(e1.next, spent, t));
    LaterSame(e1, e2, t0, t);
    LlmPreemptLater(p, e2, t0, t);
    var e3 := L.Preempt(p, e2);
    RearmSame(p, e3, t);
    LaterSame(e3, L.Rearm(p, e3, t), t0, t);
    EngineLaterTrans(e, e1, e2, t0, t);
    EngineLaterTrans(e, e2, e3, t0, t);
    EngineLaterTrans(e, e3, L.Rearm(p, e3, t), t0, t);
  }

  lemma RearmSame(p: L.LlmModel, e: Engine, t: real)
    ensures forall x :: L.Rearm(p, e, t).Has(x) ==> e.Has(x)
  {}

  lemma {:induction false} LlmServeLater(p: L.LlmModel, e: Engine, now: real, t: real)
    requires L.LlmInv(p, e, now) && now < t
    ensures EngineLater(e, Serve(Llm(p), e, t), now, t)
  {
    LlmStamped(p, e, now);
    hide L.LlmInv, L.Core, L.KvEvictable, L.OnTick, L.ServiceStep, L.Work, Descs, Stamped, EngineLater;
    var e1 := StepIfDue(Llm(p), e, t);
    LlmStepIfDue(p, e, now, t);
    LaterSame(e, e, now, t);
    LlmStepLater(p, e, now, t);
    LlmTickLater(p, e1, now, t);
    EngineLaterTrans(e, e1, L.OnTick(p, e1, t), now, t);
  }

  // ---- integrating -------------------------------------------------------------------------------------------------

  lemma DeliverLater(r: Req, d: real, t0: real, t: real)
    requires !r.Done() && t0 < t
    ensures Later(r, R.Deliver(r, d, t), t0, t)
  {}

  lemma {:induction false} AdvanceLater(p: R.RsModel, e: Engine, t0: real, t: real)
    requires Stamped(e, t0) && t0 < t
    ensures EngineLater(e, R.Advance(p, e, t), t0, t)
  {
    forall x' | R.Advance(p, e, t).Has(x') ensures exists x :: e.Has(x) && Later(x, x', t0, t) {
      hide R.Deliver, R.Delivered, R.Rate, Times;
      if e.Has(x') {
        assert Later(x', x', t0, t);
      } else {
        var i :| 0 <= i < |e.running| && R.Stepped(p, e, t)[i] == x';
        DeliverLater(e.running[i], R.Delivered(p, e, t), t0, t);
        assert e.Has(e.running[i]);
      }
    }
  }

  lemma BeginHeadLater(e: Engine, t0: real, t: real)
    requires t0 < t && e.slot != [] && !e.slot[0].Done()
    ensures EngineLater(e, R.AdmitHead(e, t), t0, t)
  {
    forall x' | R.AdmitHead(e, t).Has(x') ensures exists x :: e.Has(x) && Later(x, x', t0, t) {
      var x := if x' == R.Begin(e.slot[0], t) then e.slot[0] else x';
      assert e.Has(x) && Later(x, x', t0, t);
    }
  }

  lemma {:induction false} RsAdmitLater(p: R.RsModel, e: Engine, t0: real, t: real)
    requires t0 < t && forall r :: r in e.slot ==> !r.Done()
    ensures EngineLater(e, R.AdmitAll(p, e, t), t0, t)
    decreases |e.slot|
  {
    LaterSame(e, e, t0, t);
    hide EngineLater;
    if e.slot != [] && R.CanAdmit(p, e) {
      BeginHeadLater(e, t0, t);
      RsAdmitLater(p, R.AdmitHead(e, t), t0, t);
      EngineLaterTrans(e, R.AdmitHead(e, t), R.AdmitAll(p, e, t), t0, t);
    }
  }

  lemma RescheduleSame(p: R.RsModel, e: Engine, t: real)
    ensures forall x :: R.Reschedule(p, e, t).Has(x) ==> e.Has(x)
  {
    hide R.Rate, R.MinLeft;
  }

  lemma AdvanceSlot(p: R.RsModel, e: Engine, t: real)
    ensures R.Advance(p, e, t).slot == e.slot
  {
    hide R.Rate, R.Stepped, R.Delivered;
  }

  lemma {:induction false} RsStepLater(p: R.RsModel, e: Engine, t0: real, t: real)
    requires Stamped(e, t0) && t0 < t
    ensures EngineLater(e, R.ServiceStep(p, e, t), t0, t)
  {
    hide EngineLater, Stamped, R.Advance, R.Reschedule;
    AdvanceLater(p, e, t0, t);
    RescheduleSame(p, R.Advance(p, e, t), t);
    LaterSame(R.Advance(p, e, t), R.ServiceStep(p, e, t), t0, t);
    EngineLaterTrans(e, R.Advance(p, e, t), R.ServiceStep(p, e, t), t0, t);
  }

  /** A tick right after a step at the same instant integrates nothing more. */
  lemma AdvanceAgain(p: R.RsModel, e: Engine, t: real)
    requires e.lastT == Some(t)
    ensures R.Advance(p, e, t) == e
  {}

  lemma StepStamps(p: R.RsModel, e: Engine, t: real)
    ensures R.Advance(p, e, t).lastT == Some(t) && R.ServiceStep(p, e, t).lastT == Some(t)
  {
    hide R.Rate, R.Stepped, R.Delivered, R.MinLeft;
  }

  lemma {:induction false} RsTickLater(p: R.RsModel, e: Engine, t0: real, t: real)
    requires Stamped(e, t0) && t0 < t
    ensures EngineLater(e, R.OnTick(p, e, t), t0, t)
  {
    UndoneStamped(e, t0);
    hide EngineLater, Stamped, R.Advance, R.Reschedule, R.AdmitAll;
    var a := R.Advance(p, e, t);
    AdvanceSlot(p, e, t);
    AdvanceLater(p, e, t0, t);
    RsAdmitLater(p, a, t0, t);
    var b := R.AdmitAll(p, a, t);
    RescheduleSame(p, b, t);
    LaterSame(b, R.OnTick(p, e, t), t0, t);
    EngineLaterTrans(e, a, b, t0, t);
    EngineLaterTrans(e, b, R.OnTick(p, e, t), t0, t);
  }

  /** The tick that follows a step: admission only. */
  lemma {:induction false} RsReTickLater(p: R.RsModel, e: Engine, t0: real, t: real)
    requires e.lastT == Some(t) && t0 < t && forall r :: r in e.slot ==> !r.Done()
    ensures EngineLater(e, R.OnTick(p, e, t), t0, t)
  {
    AdvanceAgain(p, e, t);
    hide EngineLater, R.Advance, R.Reschedule, R.AdmitAll;
    RsAdmitLater(p, e, t0, t);
    var b := R.AdmitAll(p, e, t);
    RescheduleSame(p, b, t);
    LaterSame(b, R.OnTick(p, e, t), t0, t);
    EngineLaterTrans(e, b, R.OnTick(p, e, t), t0, t);
  }

  lemma StepSlot(p: R.RsModel, e: Engine, t: real)
    ensures R.ServiceStep(p, e, t).slot == e.slot
  {
    AdvanceSlot(p, e, t);
    hide R.Advance, R.Rate, R.MinLeft;
  }

  lemma RsStamped(p: R.RsModel, e: Engine, t: real)
    requires R.RsInv(p, e, t)
    ensures Stamped(e, t)
  {}

  lemma {:induction false} RsServeLater(p: R.RsModel, e: Engine, now: real, t: real)
    requires R.RsInv(p, e, now) && now < t
    ensures EngineLater(e, Serve(Rs(p), e, t), now, t)
  {
    RsStamped(p, e, now);
    UndoneStamped(e, now);
    hide R.RsInv, Stamped, EngineLater, R.OnTick, R.ServiceStep;
    if e.running != [] && Due(e.next, t) {
      var e1 := R.ServiceStep(p, e, t);
      RsStepLater(p, e, now, t);
      StepStamps(p, e, t);
      StepSlot(p, e, t);
      RsReTickLater(p, e1, now, t);
      EngineLaterTrans(e, e1, R.OnTick(p, e1, t), now, t);
    } else {
      RsTickLater(p, e, now, t);
    }
  }

  /** Whatever an event does to an engine, its requests only move forward. */
  lemma {:induction false} ServeLater(m: Model, e: Engine, now: real, t: real)
    requires Inv(m, e, now) && now < t
    ensures EngineLater(e, Serve(m, e, t), now, t)
  {
    match m
    case Llm(p) => LlmServeLater(p, e, now, t);
    case Rs(p) => RsServeLater(p, e, now, t);
  }

  // ---- the requests of a run -----------------------------------------------------------------------------------------

  /** Some replica, live or retired, holds x. */
  ghost predicate Holds(reps: seq<Rep>, x: Req) { exists i :: 0 <= i < |reps| && reps[i].eng.Has(x) }

  /** Everything the replicas ever held, in some order. */
  function AllHeld(reps: seq<Rep>): seq<Req> {
    if reps == [] then [] else reps[0].eng.Held() + AllHeld(reps[1..])
  }

  function Find(rs: seq<Req>, n: int): (found: Option<Req>)
    ensures found.Some? ==> found.value in rs && found.value.seqNo == n
    ensures found.None? ==> forall r :: r in rs ==> r.seqNo != n
  {
    if rs == [] then None else if rs[0].seqNo == n then Some(rs[0]) else Find(rs[1..], n)
  }

  /** The present value of the request that the trace entry r became. */
  function Current(held: seq<Req>, r: Req): Req {
    var found := Find(held, r.seqNo);
    if found.Some? then found.value else r
  }

  /** The requests of the episode as they are now, in trace order. */
  function RequestsNow(s: Sim): (rs: seq<Req>)
    ensures |rs| == |s.trace|
  {
    var held := AllHeld(Everyone(s));
    seq(|s.trace|, i requires 0 <= i < |s.trace| => Current(held, s.trace[i]))
  }

  lemma {:induction false} HeldFlat(reps: seq<Rep>)
    ensures multiset(Descs(AllHeld(reps))) == HeldMs(reps)
    ensures forall x :: x in AllHeld(reps) <==> Holds(reps, x)
  {
    if reps != [] {
      HeldFlat(reps[1..]);
      DescsAppend(reps[0].eng.Held(), AllHeld(reps[1..]));
      forall x ensures x in AllHeld(reps) <==> Holds(reps, x) {
        hide HeldMs;
        if x in AllHeld(reps) {
          if x in AllHeld(reps[1..]) {
            var i :| 0 <= i < |reps[1..]| && reps[1..][i].eng.Has(x);
            assert reps[i + 1].eng.Has(x);
          } else {
            assert reps[0].eng.Has(x);
          }
        }
        if Holds(reps, x) {
          var i :| 0 <= i < |reps| && reps[i].eng.Has(x);
          if i > 0 { assert reps[1..][i - 1].eng.Has(x); }
        }
      }
    }
  }

  lemma {:induction false} OnceOnly(ds: seq<Req>, k: nat, l: nat)
    requires k < l < |ds| && ds[k] == ds[l]
    ensures multiset(ds)[ds[k]] >= 2
  {
    assert ds == ds[..k] + [ds[k]] + ds[k + 1..];
    assert ds[k + 1..] == ds[k + 1..l] + [ds[l]] + ds[l + 1..];
  }

  lemma {:induction false} SameDescSame(held: seq<Req>, x: Req, y: Req)
    requires x in held && y in held && Desc(x) == Desc(y) && multiset(Descs(held))[Desc(x)] <= 1
    ensures x == y
  {
    var k :| 0 <= k < |held| && held[k] == x;
    var l :| 0 <= l < |held| && held[l] == y;
    if k < l { OnceOnly(Descs(held), k, l); }
    if l < k { OnceOnly(Descs(held), l, k); }
  }

  /** Whatever is held descends from exactly one dispatched trace entry. */
  lemma {:induction false} HeldFromTrace(s: Sim, x: Req) returns (i: nat)
    requires Conserved(s) && Holds(Everyone(s), x)
    ensures i < s.arrivalI && s.trace[i] == Desc(x)
  {
    HeldFlat(Everyone(s));
    HeldAppend(s.pool.reps, s.pool.retired);
    var held := AllHeld(Everyone(s));
    var k :| 0 <= k < |held| && held[k] == x;
    assert Descs(held)[k] == Desc(x);
    hide HeldMs, AllHeld, Descs, Holds;
    assert Desc(x) in multiset(s.trace[..s.arrivalI]);
    assert Desc(x) in s.trace[..s.arrivalI];
    i :| 0 <= i < s.arrivalI && s.trace[..s.arrivalI][i] == Desc(x);
  }

  /** A dispatched trace entry is held somewhere. */
  lemma {:induction false} TraceIsHeld(s: Sim, i: nat) returns (x: Req)
    requires Conserved(s) && i < s.arrivalI
    ensures Holds(Everyone(s), x) && Desc(x) == s.trace[i]
  {
    HeldFlat(Everyone(s));
    HeldAppend(s.pool.reps, s.pool.retired);
    hide HeldMs, AllHeld, Holds;
    var held := AllHeld(Everyone(s));
    assert s.trace[..i + 1][i] == s.trace[i];
    assert s.trace[i] in s.trace[..s.arrivalI];
    assert s.trace[i] in multiset(Descs(held));
    assert s.trace[i] in Descs(held);
    var k :| 0 <= k < |held| && Descs(held)[k] == s.trace[i];
    x := held[k];
  }

  lemma TraceDistinct(m: Model, trace: seq<Req>, i: nat, j: nat)
    requires TraceOk(m, trace) && i < |trace| && j < |trace| && trace[i].seqNo == trace[j].seqNo
    ensures i == j
  {
    assert forall a, b :: 0 <= a < b < |trace| ==> trace[a].seqNo != trace[b].seqNo;
  }

  /** The lookup by sequence number finds the descendant of the trace entry. */
  lemma {:induction false} CurrentIs(c: SimConfig, s: Sim, i: nat, x: Req)
    requires TraceOk(c.model, s.trace) && Conserved(s) && i < s.arrivalI
    requires Holds(Everyone(s), x) && Desc(x) == s.trace[i]
    ensures RequestsNow(s)[i] == x
  {
    var held := AllHeld(Everyone(s));
    HeldFlat(Everyone(s));
    HeldAppend(s.pool.reps, s.pool.retired);
    PrefixDistinct(c.model, s.trace, s.arrivalI);
    hide HeldMs, AllHeld, Holds;
    assert x in held && x.seqNo == s.trace[i].seqNo;
    var y := Find(held, s.trace[i].seqNo).value;
    var j := HeldFromTrace(s, y);
    TraceDistinct(c.model, s.trace, i, j);
    SameDescSame(held, x, y);
  }

  /** Requests the loop has not dispatched yet are as the workload source handed them out. */
  lemma {:induction false} UndispatchedIs(c: SimConfig, s: Sim, i: nat)
    requires TraceOk(c.model, s.trace) && Conserved(s) && s.arrivalI <= i < |s.trace|
    ensures RequestsNow(s)[i] == s.trace[i]
  {
    var held := AllHeld(Everyone(s));
    HeldFlat(Everyone(s));
    hide HeldMs, AllHeld, Holds;
    if Find(held, s.trace[i].seqNo).Some? {
      var y := Find(held, s.trace[i].seqNo).value;
      var j := HeldFromTrace(s, y);
      TraceDistinct(c.model, s.trace, i, j);
    }
  }

  // ---- from event to event -----------------------------------------------------------------------------------------------

  /** Everything held in s' was held in s, or was dispatched in between. */
  ghost predicate HeldLater(s: Sim, s': Sim) {
    && s'.trace == s.trace && s.arrivalI <= s'.arrivalI <= |s.trace| && s.t <= s'.t
    && forall x' :: Holds(Everyone(s'), x') ==>
         exists x :: (Holds(Everyone(s), x) || x in s.trace[s.arrivalI..s'.arrivalI]) && Later(x, x', s.t, s'.t)
  }

  /** Each request of the episode moved forward. */
  ghost predicate RequestsLater(s: Sim, s': Sim) {
    && s'.trace == s.trace && s.t <= s'.t
    && forall i :: 0 <= i < |s.trace| ==> Later(RequestsNow(s)[i], RequestsNow(s')[i], s.t, s'.t)
  }

  lemma {:induction false} RequestLater(c: SimConfig, s: Sim, s': Sim, i: nat)
    requires TraceOk(c.model, s.trace) && Conserved(s) && Conserved(s') && HeldLater(s, s') && i < |s.trace|
    ensures Later(RequestsNow(s)[i], RequestsNow(s')[i], s.t, s'.t)
  {
    hide RequestsNow, HeldMs, Holds;
    if i >= s'.arrivalI {
      UndispatchedIs(c, s, i);
      UndispatchedIs(c, s', i);
    } else {
      var x' := TraceIsHeld(s', i);
      CurrentIs(c, s', i, x');
      var x :| (Holds(Everyone(s), x) || x in s.trace[s.arrivalI..s'.arrivalI]) && Later(x, x', s.t, s'.t);
      if Holds(Everyone(s), x) {
        var j := HeldFromTrace(s, x);
        TraceDistinct(c.model, s.trace, i, j);
        CurrentIs(c, s, i, x);
      } else {
        var j :| s.arrivalI <= j < s'.arrivalI && s.trace[j] == x;
        FreshInTrace(c.model, s.trace, j);
        TraceDistinct(c.model, s.trace, i, j);
        UndispatchedIs(c, s, i);
      }
    }
  }

  lemma FreshInTrace(m: Model, trace: seq<Req>, i: nat)
    requires TraceOk(m, trace) && i < |trace|
    ensures Desc(trace[i]) == trace[i]
  {}

  lemma {:induction false} AllRequestsLater(c: SimConfig, s: Sim, s': Sim)
    requires TraceOk(c.model, s.trace) && Conserved(s) && Conserved(s') && HeldLater(s, s')
    ensures RequestsLater(s, s')
  {
    hide TraceOk, Conserved, Later, RequestsNow;
    assert s'.trace == s.trace && s.t <= s'.t;
    forall i | 0 <= i < |s.trace| ensures Later(RequestsNow(s)[i], RequestsNow(s')[i], s.t, s'.t) {
      RequestLater(c, s, s', i);
    }
  }

  lemma {:induction false} RequestsLaterTrans(a: Sim, b: Sim, c: Sim)
    requires RequestsLater(a, b) && RequestsLater(b, c)
    ensures RequestsLater(a, c)
  {
    hide Later, RequestsNow;
    forall i | 0 <= i < |a.trace| ensures Later(RequestsNow(a)[i], RequestsNow(c)[i], a.t, c.t) {
      LaterTrans(RequestsNow(a)[i], RequestsNow(b)[i], RequestsNow(c)[i], a.t, b.t, c.t);
    }
  }

  /** x is held after dispatch only if it was held before or was dispatched. */
  ghost predicate Dispatched(s: Sim, d: Sim) {
    && s.arrivalI <= d.arrivalI <= |s.trace| && d.trace == s.trace
    && forall x :: Holds(Everyone(d), x) ==> Holds(Everyone(s), x) || x in s.trace[s.arrivalI..d.arrivalI]
  }

  lemma {:induction false} DispatchHolds(c: SimConfig, s: Sim, x: Req)
    requires PoolInv(c.pool, s.pool) && s.pool.t == s.t && s.arrivalI < |s.trace|
    requires Holds(Everyone(Dispatch(c, s)), x)
    ensures Holds(Everyone(s), x) || x == s.trace[s.arrivalI]
  {
    hide PoolInv, Route;
    RouteAccepts(c, s);
    var i := Route(c, s).1;
    var d := Dispatch(c, s);
    var k :| 0 <= k < |Everyone(d)| && Everyone(d)[k].eng.Has(x);
    if x != s.trace[s.arrivalI] { assert Everyone(s)[k].eng.Has(x); }
  }

  lemma {:induction false} DispatchOnce(c: SimConfig, s: Sim, now: real)
    requires MidInv(c, s, now) && s.arrivalI < |s.trace|
    ensures Dispatched(s, Dispatch(c, s))
  {
    hide PoolInv, TraceOk, Conserved, RepReady, Holds;
    DispatchBatches(c, s);
    forall x | Holds(Everyone(Dispatch(c, s)), x)
      ensures Holds(Everyone(s), x) || x in s.trace[s.arrivalI..s.arrivalI + 1]
    {
      DispatchHolds(c, s, x);
    }
  }

  lemma DispatchedTrans(a: Sim, b: Sim, c: Sim)
    requires Dispatched(a, b) && Dispatched(b, c)
    ensures Dispatched(a, c)
  {
    hide Holds;
    assert a.trace[a.arrivalI..c.arrivalI] == a.trace[a.arrivalI..b.arrivalI] + a.trace[b.arrivalI..c.arrivalI];
  }

  lemma {:induction false} DispatchDueHolds(c: SimConfig, s: Sim, now: real)
    requires MidInv(c, s, now)
    ensures Dispatched(s, DispatchDue(c, s))
    decreases |s.trace| - s.arrivalI
  {
    WithinMid(c, s, now);
    hide MidInv, Dispatch, Holds, Measure;
    if ArrivalDue(s) {
      DispatchKeeps(c, s, now);
      DispatchOnce(c, s, now);
      hide Dispatched;
      DispatchMeasure(c, s, now);
      DispatchDueHolds(c, Dispatch(c, s), now);
      DispatchedTrans(s, Dispatch(c, s), DispatchDue(c, s));
    }
  }

  lemma WithinMid(c: SimConfig, s: Sim, now: real)
    requires MidInv(c, s, now)
    ensures s.arrivalI <= |s.trace|
  {}

  lemma {:induction false} ServeRepLater(m: Model, r: Rep, now: real, t: real)
    requires RepReady(m, r, now, t) && now < t
    ensures EngineLater(r.eng, ServeRep(m, r, t).eng, now, t)
  {
    hide Inv, InTime, Serve;
    LaterSame(r.eng, r.eng, now, t);
    if r.Serving(t) { ServeLater(m, r.eng, now, t); }
  }

  lemma {:induction false} ServeHolds(m: Model, reps: seq<Rep>, retired: seq<Rep>, now: real, t: real, x': Req)
    requires now < t && forall r :: r in reps ==> RepReady(m, r, now, t)
    requires Holds(ServeAll(m, reps, t) + retired, x')
    ensures exists x :: Holds(reps + retired, x) && Later(x, x', now, t)
  {
    hide RepReady, ServeRep, Later;
    var out := ServeAll(m, reps, t) + retired;
    var k :| 0 <= k < |out| && out[k].eng.Has(x');
    if k < |reps| {
      ServeRepLater(m, reps[k], now, t);
      var x :| reps[k].eng.Has(x) && Later(x, x', now, t);
      assert (reps + retired)[k].eng.Has(x);
    } else {
      assert (reps + retired)[k].eng.Has(x');
      LaterRefl(x', now, t);
    }
  }

  lemma LaterRefl(x: Req, t0: real, t1: real)
    ensures Later(x, x, t0, t1)
  {}

  lemma {:induction false} ReapHolds(p: Pool, t: real, x: Req)
    requires Holds(Reap(p, t).reps + Reap(p, t).retired, x)
    ensures Holds(p.reps + p.retired, x)
  {
    var out := Reap(p, t).reps + Reap(p, t).retired;
    hide Releasable;
    var k :| 0 <= k < |out| && out[k].eng.Has(x);
    var r := out[k];
    assert r in Kept(p.reps) || r in p.retired || r in Released(p.reps, t);
    var r0 := r;
    if r !in p.reps && r !in p.retired {
      r0 :| r0 in p.reps && Releasable(r0) && r == r0.(tReleased := Some(t));
    }
    assert r0.eng.Has(x) && r0 in p.reps + p.retired;
  }

  lemma MidReps(c: SimConfig, s: Sim, now: real)
    requires MidInv(c, s, now)
    ensures forall r :: r in s.pool.reps ==> RepReady(c.model, r, now, s.t)
    ensures TraceOk(c.model, s.trace) && s.arrivalI <= |s.trace|
  {}

  lemma {:induction false} EventHeldLater(c: SimConfig, s: Sim, t: real)
    requires SimInv(c, s) && s.t < t && BeforeClocks(s, t)
    ensures HeldLater(s, Event(c, s, t))
  {
    hide SimInv, MidInv, BeforeClocks, Jump, DispatchDue, RepReady, Measure, Event, Reap, Holds, Later, TraceOk,
         SameBatches;
    var j, e := Jump(s, t), Event(c, s, t);
    JumpKeeps(c, s, t);
    JumpSame(s, t);
    DispatchDueKeeps(c, j, s.t);
    DispatchDueHolds(c, j, s.t);
    var d := DispatchDue(c, j);
    MidReps(c, d, s.t);
    EventShape(c, s, t);
    forall x' | Holds(Everyone(e), x')
      ensures exists x :: (Holds(Everyone(s), x) || x in s.trace[s.arrivalI..e.arrivalI]) && Later(x, x', s.t, t)
    {
      if AnyDraining(s.pool.reps) { ReapHolds(ServePool(c.model, d.pool, t), t, x'); }
      ServeHolds(c.model, d.pool.reps, d.pool.retired, s.t, t, x');
    }
  }

  lemma JumpSame(s: Sim, t: real)
    ensures var j := Jump(s, t);
            j.t == t && j.pool.reps == s.pool.reps && j.pool.retired == s.pool.retired && j.trace == s.trace
            && j.arrivalI == s.arrivalI
  {}

  lemma EventShape(c: SimConfig, s: Sim, t: real)
    ensures var d, e := DispatchDue(c, Jump(s, t)), Event(c, s, t);
            && e.t == d.t && e.trace == d.trace && e.arrivalI == d.arrivalI
            && e.pool == (if AnyDraining(s.pool.reps) then Reap(ServePool(c.model, d.pool, t), t)
                          else ServePool(c.model, d.pool, t))
  {
    hide DispatchDue, Jump, Reap, ServePool;
  }

  lemma SimFacts(c: SimConfig, s: Sim)
    requires SimInv(c, s)
    ensures TraceOk(c.model, s.trace) && Conserved(s)
  {}

  lemma {:induction false} EventLater(c: SimConfig, s: Sim, t: real)
    requires SimInv(c, s) && s.t < t && BeforeClocks(s, t)
    ensures RequestsLater(s, Event(c, s, t))
  {
    hide BeforeClocks, Event, HeldLater, Measure, Productive;
    EventKeeps(c, s, t);
    EventHeldLater(c, s, t);
    hide SimInv;
    SimFacts(c, s);
    SimFacts(c, Event(c, s, t));
    AllRequestsLater(c, s, Event(c, s, t));
  }

  lemma {:induction false} SameRequestsLater(s: Sim, s': Sim)
    requires s'.trace == s.trace && s.t <= s'.t && RequestsNow(s') == RequestsNow(s)
    ensures RequestsLater(s, s')
  {
    hide RequestsNow, Later;
    forall i | 0 <= i < |s.trace| ensures Later(RequestsNow(s)[i], RequestsNow(s')[i], s.t, s'.t) {
      LaterRefl(RequestsNow(s)[i], s.t, s'.t);
    }
  }

  lemma RequestsFromPool(s: Sim, s': Sim)
    requires s'.trace == s.trace && s'.pool.reps == s.pool.reps && s'.pool.retired == s.pool.retired
    ensures RequestsNow(s') == RequestsNow(s)
  {
    hide AllHeld, Find;
  }

  lemma {:induction false} TurnLater(c: SimConfig, s: Sim, a: Action)
    requires RunInv(c, s) && a.Turn?
    ensures RequestsLater(s, Apply(c, s, a))
  {
    hide RunInv, Event, RequestsLater, NextEvent, BeforeClocks, Measure, RequestsNow;
    SameRequestsLater(s, s);
    if s.t < a.tEnd - EPS {
      if NextEvent(s).At? && NextEvent(s).t <= a.tEnd {
        var s1, t := AsEvent(c, s, a.tEnd, a.idle);
        EventLater(c, s1, t);
        RequestsFromPool(s, s1);
        SameRequestsLater(s, s1);
        RequestsLaterTrans(s, s1, Event(c, s1, t));
      } else {
        JumpSame(s, a.tEnd);
        RequestsFromPool(s, Jump(s, a.tEnd));
        SameRequestsLater(s, Jump(s, a.tEnd));
      }
    }
  }

  lemma {:induction false} TurnsLater(c: SimConfig, s: Sim, ts: seq<Action>)
    requires RunInv(c, s) && OnlyTurns(ts)
    ensures RequestsLater(s, ApplyAll(c, s, ts))
    decreases |ts|
  {
    hide RunInv, RequestsLater, Apply, RequestsNow;
    SameRequestsLater(s, s);
    if ts != [] {
      TurnLater(c, s, ts[0]);
      TurnsLater(c, Apply(c, s, ts[0]), ts[1..]);
      RequestsLaterTrans(s, Apply(c, s, ts[0]), ApplyAll(c, s, ts));
    }
  }

  lemma {:induction false} ScaleLater(c: SimConfig, s: Sim, k: int)
    requires RunInv(c, s)
    ensures RequestsLater(s, SetTargetReplicas(c, s, k))
  {
    var s' := SetTargetReplicas(c, s, k);
    SetTargetKeeps(c.pool, s.pool, k);
    ScaleKeeps(c, s, k);
    SimFacts(c, s);
    SimFacts(c, s');
    hide SimInv, SetTarget, PoolInv, NoNewDrain, DrainsNewest, TraceOk;
    forall x' | Holds(Everyone(s'), x') ensures Holds(Everyone(s), x') && Later(x', x', s.t, s'.t) {
      RescaleHolds(s.pool.reps, s'.pool.reps, s.pool.retired, x');
      LaterRefl(x', s.t, s'.t);
    }
    hide Rescales, Holds, Later, RequestsLater;
    AllRequestsLater(c, s, s');
  }

  lemma {:induction false} RescaleHolds(before: seq<Rep>, after: seq<Rep>, retired: seq<Rep>, x: Req)
    requires Rescales(before, after) && Holds(after + retired, x)
    ensures Holds(before + retired, x)
  {
    var k :| 0 <= k < |after + retired| && (after + retired)[k].eng.Has(x);
    if k < |before| {
      assert (before + retired)[k].eng.Has(x);
    } else if k >= |after| {
      assert (before + retired)[k - |after| + |before|].eng.Has(x);
    }
  }

  lemma {:induction false} ActionLater(c: SimConfig, s: Sim, a: Action)
    requires RunInv(c, s)
    ensures RequestsLater(s, Apply(c, s, a))
  {
    hide RunInv, RequestsLater;
    if a.Scale? {
      ScaleLater(c, s, a.k);
    } else {
      hide Apply;
      var ts := AsTurns(c, s, a);
      TurnsLater(c, s, ts);
    }
  }

  /** Along any run every request only moves forward: its descriptor never changes, a stamp once made is kept,
      a new stamp lies after the start and no later than the end, and a completed request never changes. */
  lemma {:induction false} RunLater(c: SimConfig, s: Sim, acts: seq<Action>)
    requires RunInv(c, s)
    ensures RequestsLater(s, ApplyAll(c, s, acts))
    decreases |acts|
  {
    hide RunInv, RequestsLater, Apply, RequestsNow;
    SameRequestsLater(s, s);
    if acts != [] {
      ActionLater(c, s, acts[0]);
      RunLater(c, Apply(c, s, acts[0]), acts[1..]);
      RequestsLaterTrans(s, Apply(c, s, acts[0]), ApplyAll(c, s, acts));
    }
  }

  /** Before anything has happened the requests are the trace. */
  lemma {:induction false} RequestsAtBegin(c: SimConfig, trace: seq<Req>)
    requires TraceOk(c.model, trace)
    ensures RequestsNow(Begin(c, trace)) == trace
  {
    var s := Begin(c, trace);
    BeginKeeps(c, trace);
    SimFacts(c, s);
    hide SimInv, TraceOk, RequestsNow, Conserved;
    forall i | 0 <= i < |trace| ensures RequestsNow(s)[i] == trace[i] { UndispatchedIs(c, s, i); }
  }
}
