/** Continuous batching under a KV budget: token steps, admission, recompute preemption. */
module LlmServing {
  import opened Numbers
  import opened Requests

  datatype LlmConfig = LlmConfig(kvBudget: real, a0: real, a1: real, maxSeqs: nat, prefillTps: real)
  {
    predicate Valid() { a0 > 0.0 && a1 > 0.0 && maxSeqs >= 1 && prefillTps > 0.0 }
  }

  /** Configurations with positive rates and at least one sequence per batch. */
  type LlmModel = p: LlmConfig | p.Valid() witness LlmConfig(1.0, 1.0, 1.0, 1, 1.0)

  // ---- the engine's operations -------------------------------------------------------------

  /** KV tokens a sequence occupies: its prompt plus what it has generated. */
  function Footprint(r: Req): real { r.size + r.progress }

  function KvUsed(e: Engine): real { Sum(Footprint, e.running) }

  /** Seconds one scheduler step takes with b running sequences. */
  function StepTime(p: LlmModel, b: nat): real { p.a0 + p.a1 * (b as real) }

  lemma StepTimeBounds(p: LlmModel, b: nat)
    requires b >= 1
    ensures StepTime(p, b) >= p.a0 + p.a1 > 0.0
  {
    assert p.a1 * (b as real) - p.a1 == p.a1 * (b as real - 1.0);
  }

  predicate CanAdmit(p: LlmModel, e: Engine, r: Req) {
    e.accepting && |e.running| < p.maxSeqs && KvUsed(e) + r.size + r.progress <= p.kvBudget
  }

  function AdmitHead(e: Engine, t: real): Engine
    requires e.slot != []
  {
    e.(slot := e.slot[1..], running := e.running + [Admit(e.slot[0], t)])
  }

  /** Admit from the queue head while KV allows; also the prefill seconds spent. */
  function TryAdmit(p: LlmModel, e: Engine, t: real): (res: (Engine, real))
    decreases |e.slot|
  {
    if e.slot != [] && CanAdmit(p, e, e.slot[0]) then
      var (out, rest) := TryAdmit(p, AdmitHead(e, t), t);
      (out, Footprint(e.slot[0]) / p.prefillTps + rest)
    else (e, 0.0)
  }

  predicate OverBudget(p: LlmModel, e: Engine) {
    |e.running| > 1 && KvUsed(e) > p.kvBudget
  }

  /** Return the most recently admitted sequence to the head of the queue. */
  function Evict(e: Engine): Engine
    requires e.running != []
  {
    var victim := e.running[|e.running| - 1];
    e.(running := e.running[..|e.running| - 1],
       slot := [victim.(nPreempt := victim.nPreempt + 1)] + e.slot,
       nPreempt := e.nPreempt + 1)
  }

  function Preempt(p: LlmModel, e: Engine): Engine
    decreases |e.running|
  {
    if OverBudget(p, e) then Preempt(p, Evict(e)) else e
  }

  /** One decoded token. */
  function Token(r: Req, t: real): Req {
    var m := MarkOutput(r, t);
    var s := m.(progress := m.progress + 1.0);
    if s.progress >= s.demand then s.(tDone := Some(t)) else s
  }

  function Tokens(rs: seq<Req>, t: real): (out: seq<Req>)
    ensures |out| == |rs| && forall i :: 0 <= i < |rs| ==> out[i] == Token(rs[i], t)
  {
    seq(|rs|, i requires 0 <= i < |rs| => Token(rs[i], t))
  }

  /** One scheduler step: every running sequence advances by one token. */
  function ServiceStep(p: LlmModel, e: Engine, t: real): Engine {
    var stepped := Tokens(e.running, t);
    var left := Pending(stepped);
    e.(running := left, fin := e.fin + Completed(stepped),
       work := e.work + (|e.running| as real), nSuccess := e.nSuccess + |Completed(stepped)|,
       next := At(t + (if left == [] then 0.0 else StepTime(p, |left|))))
  }

  /** The decode clock after `spent` seconds of prefill. */
  function Charge(next: Clock, spent: real, t: real): Clock {
    if spent <= 0.0 || next.Never? then next
    else At((if next.t > t then next.t else t) + spent)
  }

  function Rearm(p: LlmModel, e: Engine, t: real): Engine {
    if e.running != [] && (e.next.Never? || e.next.t <= t + EPS)
    then e.(next := At(t + StepTime(p, |e.running|)))
    else e
  }

  /** Admit, charge prefill, preempt, set the decode clock. */
  function OnTick(p: LlmModel, e: Engine, t: real): Engine {
    var (admitted, spent) := TryAdmit(p, e, t);
    Rearm(p, Preempt(p, admitted.(next := Charge(admitted.next, spent, t))), t)
  }

  // ---- what holds of one request -----------------------------------------------------------

  predicate Integral(x: real) { x == x.Floor as real }

  /** What the workload source promises: whole tokens, and a prompt that fits the budget. */
  ghost predicate GoodRequest(p: LlmModel, r: Req) {
    1.0 <= r.size <= p.kvBudget && r.demand >= 1.0 && Integral(r.demand)
  }

  /** Token accounting of one request at time now. */
  ghost predicate TokenOk(r: Req, now: real) {
    && Integral(r.progress) && 0.0 <= r.progress <= r.demand
    && (r.Done() <==> r.progress == r.demand)
    && (r.tFirst.None? <==> r.progress == 0.0)
    && r.maxTbt >= 0.0
    && (r.tFirst.None? ==> r.nTbt == 0 && r.sumTbt == 0.0 && r.tLast.None?)
    && (r.tFirst.Some? ==>
          && r.tLast.Some? && r.tFirst.value <= r.tLast.value <= now
          && r.sumTbt == r.tLast.value - r.tFirst.value
          && r.nTbt as real == r.progress - 1.0
          && r.maxTbt * (r.nTbt as real) >= r.sumTbt)
  }

  /** Tokens a request still needs. */
  function Left(r: Req): nat {
    if r.Done() || r.progress >= r.demand then 0 else (r.demand - r.progress).Floor
  }

  function Work(e: Engine): nat { Count(Left, e.running) + Count(Left, e.slot) }

  /** What an LLM engine keeps throughout, inside an event as well as between events. */
  ghost predicate Core(p: LlmModel, e: Engine, now: real) {
    && Stamped(e, now) && Increasing(e.Line()) && AdmitMonotone(e)
    && (forall r :: e.Has(r) ==> GoodRequest(p, r) && TokenOk(r, now))
    && |e.running| <= p.maxSeqs
    && (forall r :: r in e.slot ==> Footprint(r) <= p.kvBudget)
    && e.work == Sum(Progress, e.Held())
    && e.nSuccess == |e.fin|
  }

  /** The KV budget holds, or one sequence has outgrown it alone. */
  ghost predicate KvSafe(p: LlmModel, e: Engine) { KvUsed(e) <= p.kvBudget || |e.running| <= 1 }

  /** A step may overshoot the budget, but then every sequence still fits an empty replica. */
  ghost predicate KvEvictable(p: LlmModel, e: Engine) {
    KvSafe(p, e) || forall r :: r in e.running ==> Footprint(r) <= p.kvBudget
  }

  /** Nothing more can be admitted. */
  predicate AdmissionMaximal(p: LlmModel, e: Engine) {
    e.slot == [] || |e.running| >= p.maxSeqs || KvUsed(e) + Footprint(e.slot[0]) > p.kvBudget
  }

  /** Everything an LLM engine keeps between events. */
  ghost predicate LlmInv(p: LlmModel, e: Engine, now: real) {
    Core(p, e, now) && KvSafe(p, e) && ClockAhead(e, now)
  }

  // ---- token accounting ----------------------------------------------------------------------

  lemma GapBound(m: real, m': real, n: real, s: real, gap: real)
    requires m' >= m && m' >= gap && n >= 0.0 && m * n >= s
    ensures m' * (n + 1.0) >= s + gap
  {
    assert m' * n >= m * n;
    assert m' * (n + 1.0) == m' * n + m';
  }

  lemma TokenKeeps(p: LlmModel, r: Req, now: real, t: real)
    requires GoodRequest(p, r) && TokenOk(r, now) && !r.Done() && now <= t
    ensures TokenOk(Token(r, t), t)
    ensures Left(Token(r, t)) + 1 == Left(r)
    ensures Token(r, t).progress == r.progress + 1.0
    ensures Desc(Token(r, t)) == Desc(r) && Token(r, t).tAdmit == r.tAdmit
    ensures Token(r, t).Done() ==> Token(r, t).tDone == Some(t)
  {
    var r' := Token(r, t);
    assert r.progress < r.demand;
    assert (r.progress.Floor + 1) as real == r.progress + 1.0;
    assert r.demand.Floor >= r.progress.Floor + 1;
    assert Integral(r'.progress);
    assert (r.demand - r.progress).Floor == r.demand.Floor - r.progress.Floor;
    if r.tFirst.Some? {
      var gap := t - r.tLast.value;
      GapBound(r.maxTbt, r'.maxTbt, r.nTbt as real, r.sumTbt, gap);
      assert r'.nTbt as real == r.nTbt as real + 1.0;
    } else {
      assert r'.maxTbt * (r'.nTbt as real) >= r'.sumTbt;
    }
  }

  lemma TokenLater(r: Req, now: real, t: real)
    requires TokenOk(r, now) && now <= t
    ensures TokenOk(r, t)
  {}

  // ---- one scheduler step --------------------------------------------------------------------

  /** One sequence's share of the budget, when every sequence holds at least one token. */
  lemma {:induction false} ShareOfKv(rs: seq<Req>, i: nat)
    requires i < |rs| && forall r :: r in rs ==> Footprint(r) >= 1.0
    ensures Footprint(rs[i]) + (|rs| - 1) as real <= Sum(Footprint, rs)
  {
    if |rs| > 1 {
      if i == 0 {
        ShareOfKv(rs[1..], 0);
      } else {
        ShareOfKv(rs[1..], i - 1);
        assert rs[1..][i - 1] == rs[i];
      }
    } else {
      assert rs[1..] == [];
    }
  }

  lemma {:induction false} WorkShrinks(p: LlmModel, rs: seq<Req>, now: real, t: real)
    requires now <= t
    requires forall r :: r in rs ==> GoodRequest(p, r) && TokenOk(r, now) && !r.Done()
    ensures Count(Left, Tokens(rs, t)) + |rs| == Count(Left, rs)
  {
    if rs != [] {
      WorkShrinks(p, rs[1..], now, t);
      TokenKeeps(p, rs[0], now, t);
      assert Tokens(rs, t)[1..] == Tokens(rs[1..], t);
    }
  }

  lemma {:induction false} DoneIsFree(rs: seq<Req>)
    requires forall r :: r in rs ==> r.Done()
    ensures Count(Left, rs) == 0
  {
    if rs != [] { DoneIsFree(rs[1..]); }
  }

  lemma {:induction false} StepKv(p: LlmModel, e: Engine, t: real)
    requires KvSafe(p, e) && forall r :: r in e.running ==> Footprint(r) >= 1.0
    ensures KvEvictable(p, ServiceStep(p, e, t))
  {
    var stepped := Tokens(e.running, t);
    if |e.running| > 1 {
      forall r | r in Pending(stepped) ensures Footprint(r) <= p.kvBudget {
        var i :| 0 <= i < |stepped| && stepped[i] == r;
        ShareOfKv(e.running, i);
        assert Footprint(r) == Footprint(e.running[i]) + 1.0;
      }
    }
  }

  lemma {:induction false} StepWork(p: LlmModel, e: Engine, now: real, t: real)
    requires LlmInv(p, e, now) && now <= t
    ensures Work(ServiceStep(p, e, t)) + |e.running| == Work(e)
  {
    forall r | r in e.running ensures GoodRequest(p, r) && TokenOk(r, now) && !r.Done() {
      assert e.Has(r);
    }
    WorkShrinks(p, e.running, now, t);
    CountSplit(Left, Tokens(e.running, t));
    DoneIsFree(Completed(Tokens(e.running, t)));
  }

  lemma {:induction false} StepRetires(p: LlmModel, e: Engine, now: real, t: real)
    requires LlmInv(p, e, now) && now <= t
    ensures Retires(e, ServiceStep(p, e, t), Tokens(e.running, t))
    ensures forall r :: r in Tokens(e.running, t) ==>
              GoodRequest(p, r) && TokenOk(r, t) && r.tAdmit.Some? && r.tAdmit.value <= t
              && (r.Done() ==> r.tDone == Some(t))
  {
    var stepped := Tokens(e.running, t);
    forall i | 0 <= i < |stepped|
      ensures Desc(stepped[i]) == Desc(e.running[i]) && stepped[i].tAdmit == e.running[i].tAdmit
      ensures GoodRequest(p, stepped[i]) && TokenOk(stepped[i], t)
      ensures stepped[i].tAdmit.Some? && stepped[i].tAdmit.value <= t
      ensures stepped[i].Done() ==> stepped[i].tDone == Some(t)
    {
      assert e.Has(e.running[i]);
      TokenKeeps(p, e.running[i], now, t);
      assert GoodRequest(p, Desc(e.running[i]));
    }
  }

  lemma {:induction false} StepRequests(p: LlmModel, e: Engine, now: real, t: real)
    requires LlmInv(p, e, now) && now <= t
    ensures var e' := ServiceStep(p, e, t);
            Stamped(e', t) && forall r :: e'.Has(r) ==> GoodRequest(p, r) && TokenOk(r, t)
  {
    StepRetires(p, e, now, t);
    var e' := ServiceStep(p, e, t);
    forall r | e'.Has(r) ensures GoodRequest(p, r) && TokenOk(r, t) {
      if r !in Tokens(e.running, t) {
        assert e.Has(r);
        TokenLater(r, now, t);
      }
    }
    forall r | e'.Has(r) && r.tAdmit.Some? ensures r.tAdmit.value <= t {
      if r !in Tokens(e.running, t) { assert e.Has(r); }
    }
  }

  lemma {:induction false} StepAccounts(p: LlmModel, e: Engine, t: real)
    requires Retires(e, ServiceStep(p, e, t), Tokens(e.running, t))
    requires e.work == Sum(Progress, e.Held())
    ensures ServiceStep(p, e, t).work == Sum(Progress, ServiceStep(p, e, t).Held())
  {
    var stepped := Tokens(e.running, t);
    RetireSum(Progress, e, ServiceStep(p, e, t), stepped);
    SumShift(Progress, e.running, stepped, 1.0);
    assert Times(1.0, |e.running|) == |e.running| as real;
  }

  /** A step keeps the engine's facts. */
  lemma {:induction false} StepKeeps(p: LlmModel, e: Engine, now: real, t: real)
    requires LlmInv(p, e, now) && now <= t
    ensures Core(p, ServiceStep(p, e, t), t) && KvEvictable(p, ServiceStep(p, e, t))
  {
    StepRetires(p, e, now, t);
    StepRequests(p, e, now, t);
    RetireOrdered(e, ServiceStep(p, e, t), Tokens(e.running, t));
    forall r | r in e.running ensures Footprint(r) >= 1.0 { assert e.Has(r); }
    StepKv(p, e, t);
    StepAccounts(p, e, t);
  }

  /** A step delivers one token per running sequence, stamps what it completes and forgets no request. */
  lemma {:induction false} StepDelivers(p: LlmModel, e: Engine, now: real, t: real)
    requires LlmInv(p, e, now) && now <= t
    ensures e.fin <= ServiceStep(p, e, t).fin
    ensures forall r :: r in ServiceStep(p, e, t).fin[|e.fin|..] ==> r.tDone == Some(t)
    ensures Work(ServiceStep(p, e, t)) + |e.running| == Work(e)
    ensures multiset(Descs(ServiceStep(p, e, t).Held())) == multiset(Descs(e.Held()))
  {
    var e' := ServiceStep(p, e, t);
    StepRetires(p, e, now, t);
    RetireConserves(e, e', Tokens(e.running, t));
    StepWork(p, e, now, t);
    assert e'.fin[|e.fin|..] == Completed(Tokens(e.running, t));
  }

  // ---- admission and preemption ----------------------------------------------------------------

  /** e' differs from e only in where the line is cut between batch and queue (and in stamps). */
  ghost predicate Requeues(e: Engine, e': Engine) {
    && Descs(e'.Line()) == Descs(e.Line()) && e'.fin == e.fin && Work(e') == Work(e)
    && e'.accepting == e.accepting && e'.work == e.work && e'.nSuccess == e.nSuccess
    && Sum(Progress, e'.Line()) == Sum(Progress, e.Line())
  }

  lemma CoreLater(p: LlmModel, e: Engine, now: real, t: real)
    requires Core(p, e, now) && now <= t
    ensures Core(p, e, t)
  {
    forall r | e.Has(r) ensures TokenOk(r, t) { TokenLater(r, now, t); }
  }

  lemma AdmitWork(e: Engine, t: real)
    requires e.slot != []
    ensures Work(AdmitHead(e, t)) == Work(e)
  {
    CountAppend(Left, e.running, [Admit(e.slot[0], t)]);
    assert Left(Admit(e.slot[0], t)) == Left(e.slot[0]);
  }

  lemma AdmitRequeues(e: Engine, t: real)
    requires e.slot != []
    ensures Requeues(e, AdmitHead(e, t))
    ensures Promotes(e, AdmitHead(e, t), Admit(e.slot[0], t), t)
  {
    var e', h := AdmitHead(e, t), Admit(e.slot[0], t);
    PromoteLine(e, e', h, t);
    PromoteSum(e, e', h, t);
    AdmitWork(e, t);
  }

  lemma AdmitKv(e: Engine, t: real)
    requires e.slot != []
    ensures KvUsed(AdmitHead(e, t)) == KvUsed(e) + Footprint(e.slot[0])
  {
    SumAppend(Footprint, e.running, [Admit(e.slot[0], t)]);
  }

  lemma AdmitRequests(p: LlmModel, e: Engine, t: real)
    requires e.slot != [] && forall r :: e.Has(r) ==> GoodRequest(p, r) && TokenOk(r, t)
    ensures forall r :: AdmitHead(e, t).Has(r) ==> GoodRequest(p, r) && TokenOk(r, t)
  {
    forall r | AdmitHead(e, t).Has(r) ensures GoodRequest(p, r) && TokenOk(r, t) {
      if r == Admit(e.slot[0], t) { assert e.Has(e.slot[0]); } else { assert e.Has(r); }
    }
  }

  lemma AdmitKeeps(p: LlmModel, e: Engine, t: real)
    requires Core(p, e, t) && e.slot != [] && |e.running| < p.maxSeqs
    ensures Core(p, AdmitHead(e, t), t)
  {
    AdmitRequeues(e, t);
    PromoteOrdered(e, AdmitHead(e, t), Admit(e.slot[0], t), t);
    AdmitRequests(p, e, t);
    SumHeldLine(Progress, e);
    SumHeldLine(Progress, AdmitHead(e, t));
  }

  /** Admission fills the batch from the front of the queue until nothing more fits. */
  lemma {:induction false} TryAdmitKeeps(p: LlmModel, e: Engine, t: real)
    requires Core(p, e, t)
    ensures var (e', spent) := TryAdmit(p, e, t);
            && Core(p, e', t) && Requeues(e, e') && e'.next == e.next
            && (e' == e || KvUsed(e') <= p.kvBudget)
            && (spent > 0.0 <==> e' != e) && spent >= 0.0
            && (e.accepting ==> AdmissionMaximal(p, e')) && (!e.accepting ==> e' == e)
            && |e.running| <= |e'.running|
    decreases |e.slot|
  {
    if e.slot != [] && CanAdmit(p, e, e.slot[0]) {
      var e1 := AdmitHead(e, t);
      AdmitRequeues(e, t);
      AdmitKv(e, t);
      AdmitKeeps(p, e, t);
      TryAdmitKeeps(p, e1, t);
      PrefillPositive(p, e, t);
    }
  }

  lemma PrefillPositive(p: LlmModel, e: Engine, t: real)
    requires Core(p, e, t) && e.slot != []
    ensures Footprint(e.slot[0]) / p.prefillTps > 0.0
  {
    assert e.Has(e.slot[0]);
    assert Footprint(e.slot[0]) >= 1.0;
    QuotientPositive(Footprint(e.slot[0]), p.prefillTps);
  }

  lemma RequeuesRefl(a: Engine)
    ensures Requeues(a, a)
  {}

  lemma RequeuesTrans(a: Engine, b: Engine, c: Engine)
    requires Requeues(a, b) && Requeues(b, c)
    ensures Requeues(a, c)
  {}

  /** What eviction does to the line and the sums. */
  lemma EvictRequeues(e: Engine)
    requires e.running != []
    ensures Requeues(e, Evict(e))
    ensures KvUsed(Evict(e)) + Footprint(e.running[|e.running| - 1]) == KvUsed(e)
  {
    var n := |e.running| - 1;
    var v, v' := e.running[n], Evict(e).slot[0];
    assert e.running == e.running[..n] + [v];
    EvictLine(e);
    SumSwap(Progress, e.running[..n], v, v', e.slot);
    SumAppend(Footprint, e.running[..n], [v]);
    assert Work(Evict(e)) == Work(e) by {
      CountAppend(Left, e.running[..n], [v]);
      CountAppend(Left, [v'], e.slot);
      assert Left(v) == Left(v');
    }
  }

  lemma EvictLine(e: Engine)
    requires e.running != []
    ensures var n := |e.running| - 1;
            && e.Line() == e.running[..n] + [e.running[n]] + e.slot
            && Evict(e).Line() == e.running[..n] + [Evict(e).slot[0]] + e.slot
    ensures Descs(Evict(e).Line()) == Descs(e.Line())
  {}

  /** What a request of the evicted engine was before. */
  lemma EvictSource(e: Engine, x: Req) returns (x0: Req)
    requires e.running != [] && Evict(e).Has(x)
    ensures e.Has(x0) && x0.(nPreempt := 0) == x.(nPreempt := 0)
  {
    x0 := if x == Evict(e).slot[0] then e.running[|e.running| - 1] else x;
  }

  lemma EvictKeeps(p: LlmModel, e: Engine, t: real)
    requires Core(p, e, t) && e.running != [] && Footprint(e.running[|e.running| - 1]) <= p.kvBudget
    ensures Core(p, Evict(e), t)
  {
    var e' := Evict(e);
    EvictRequeues(e);
    IncreasingDescs(e.Line(), e'.Line());
    SumHeldLine(Progress, e);
    SumHeldLine(Progress, e');
    EvictRequests(p, e, t);
  }

  lemma EvictRequests(p: LlmModel, e: Engine, t: real)
    requires e.running != [] && Stamped(e, t) && AdmitMonotone(e)
    requires forall r :: e.Has(r) ==> GoodRequest(p, r) && TokenOk(r, t)
    ensures Stamped(Evict(e), t) && AdmitMonotone(Evict(e))
    ensures forall r :: Evict(e).Has(r) ==> GoodRequest(p, r) && TokenOk(r, t)
  {
    forall r | Evict(e).Has(r)
      ensures GoodRequest(p, r) && TokenOk(r, t) && (r.tAdmit.Some? ==> r.tAdmit.value <= t)
    {
      var r0 := EvictSource(e, r);
      assert TokenOk(r0, t);
    }
    forall a, b | Evict(e).Has(a) && Evict(e).Has(b) && Before(a, b) && b.tAdmit.Some?
      ensures a.tAdmit.Some? && a.tAdmit.value <= b.tAdmit.value
    {
      var a0 := EvictSource(e, a);
      var b0 := EvictSource(e, b);
      assert Before(a0, b0);
    }
  }

  /** Preemption restores the budget, and its last victim is the queue head that no longer fits. */
  lemma {:induction false} PreemptKeeps(p: LlmModel, e: Engine, t: real)
    requires Core(p, e, t) && KvEvictable(p, e)
    ensures var e' := Preempt(p, e);
            && Core(p, e', t) && KvSafe(p, e') && Requeues(e, e') && e'.next == e.next
            && (OverBudget(p, e) ==> e' != e && AdmissionMaximal(p, e'))
            && (e.running != [] ==> e'.running != [])
    decreases |e.running|
  {
    hide Core, Requeues;
    RequeuesRefl(e);
    if OverBudget(p, e) {
      EvictRequeues(e);
      EvictKeeps(p, e, t);
      EvictStaysEvictable(p, e);
      PreemptKeeps(p, Evict(e), t);
      PreemptShrinks(p, Evict(e));
      RequeuesTrans(e, Evict(e), Preempt(p, e));
    }
  }

  lemma EvictStaysEvictable(p: LlmModel, e: Engine)
    requires e.running != [] && forall r :: r in e.running ==> Footprint(r) <= p.kvBudget
    ensures KvEvictable(p, Evict(e))
  {}

  lemma {:induction false} PreemptShrinks(p: LlmModel, e: Engine)
    ensures |Preempt(p, e).running| <= |e.running|
    ensures |Preempt(p, e).slot| + |Preempt(p, e).running| == |e.slot| + |e.running|
    ensures |Preempt(p, e).slot| >= |e.slot| && Preempt(p, e).slot[|Preempt(p, e).slot| - |e.slot|..] == e.slot
    decreases |e.running|
  {
    if OverBudget(p, e) { PreemptShrinks(p, Evict(e)); }
  }

  // ---- one tick -------------------------------------------------------------------------------------

  /** One tick never both admits and preempts. */
  lemma AdmitXorPreempt(p: LlmModel, e: Engine, t: real)
    requires Core(p, e, t)
    ensures TryAdmit(p, e, t).0 == e || Preempt(p, TryAdmit(p, e, t).0) == TryAdmit(p, e, t).0
  {
    TryAdmitKeeps(p, e, t);
  }

  /** A tick restores the KV budget, leaves nothing admissible behind, sets a future clock and loses
      no request. */
  lemma {:induction false} TickKeeps(p: LlmModel, e: Engine, t: real)
    requires Core(p, e, t) && KvEvictable(p, e)
    ensures LlmInv(p, OnTick(p, e, t), t) && Requeues(e, OnTick(p, e, t))
    ensures e.accepting ==> AdmissionMaximal(p, OnTick(p, e, t))
  {
    hide Core, Requeues;
    var (e1, spent) := TryAdmit(p, e, t);
    TryAdmitKeeps(p, e, t);
    var e2 := e1.(next := Charge(e1.next, spent, t));
    NextIrrelevant(p, e, e1, e2.next, t);
    var e3 := Preempt(p, e2);
    PreemptKeeps(p, e2, t);
    RequeuesTrans(e, e2, e3);
    var e4 := Rearm(p, e3, t);
    NextIrrelevant(p, e, e3, e4.next, t);
    if e3.running != [] { StepTimeBounds(p, |e3.running|); }
  }

  lemma SafeIsEvictable(p: LlmModel, e: Engine)
    requires KvSafe(p, e)
    ensures KvEvictable(p, e)
  {}

  lemma NextIrrelevant(p: LlmModel, e: Engine, e1: Engine, c: Clock, t: real)
    requires Core(p, e1, t) && Requeues(e, e1)
    ensures Core(p, e1.(next := c), t) && Requeues(e, e1.(next := c))
  {
    var e2 := e1.(next := c);
    forall r ensures e2.Has(r) == e1.Has(r) {}
    assert e2.Held() == e1.Held() && e2.Line() == e1.Line();
  }

  /** A nonempty queue on an accepting replica implies a nonempty batch. */
  lemma {:induction false} DeadlockFree(p: LlmModel, e: Engine, t: real)
    requires Core(p, e, t) && KvEvictable(p, e) && e.accepting
    ensures OnTick(p, e, t).slot != [] ==> OnTick(p, e, t).running != []
  {
    TickKeeps(p, e, t);
    var e' := OnTick(p, e, t);
    assert e'.slot != [] ==> e'.slot[0] in e'.slot;
    assert e'.running == [] ==> KvUsed(e') == 0.0;
  }

  /** A replica that refuses admissions never shortens its queue. */
  lemma {:induction false} RefusingKeepsQueue(p: LlmModel, e: Engine, t: real)
    requires !e.accepting
    ensures |OnTick(p, e, t).slot| >= |e.slot|
    ensures OnTick(p, e, t).slot[|OnTick(p, e, t).slot| - |e.slot|..] == e.slot
  {
    var e2 := e.(next := Charge(e.next, 0.0, t));
    assert TryAdmit(p, e, t) == (e, 0.0);
    PreemptShrinks(p, e2);
  }

  // ---- when a replica that refuses admissions can finish -----------------------------------------------

  /** Sequences of the batch still running k steps from now, if nothing is preempted. */
  function BatchAfter(rs: seq<Req>, k: nat): nat {
    if rs == [] then 0
    else (if rs[0].demand - rs[0].progress > k as real then 1 else 0) + BatchAfter(rs[1..], k)
  }

  /** KV tokens the batch occupies k steps from now, if nothing is preempted. */
  function KvAfter(rs: seq<Req>, k: nat): real {
    if rs == [] then 0.0
    else (if rs[0].demand - rs[0].progress > k as real then Footprint(rs[0]) + k as real else 0.0)
         + KvAfter(rs[1..], k)
  }

  predicate FitsAfter(p: LlmModel, rs: seq<Req>, k: nat) {
    BatchAfter(rs, k) <= 1 || KvAfter(rs, k) <= p.kvBudget
  }

  /** Nothing is queued, and the batch fits the budget all the way to its end. */
  ghost predicate CanFinish(p: LlmModel, e: Engine) {
    e.slot == [] && forall k: nat :: FitsAfter(p, e.running, k)
  }

  lemma {:induction false} StepShifts(p: LlmModel, rs: seq<Req>, now: real, t: real, k: nat)
    requires now <= t
    requires forall r :: r in rs ==> GoodRequest(p, r) && TokenOk(r, now) && !r.Done()
    ensures BatchAfter(Pending(Tokens(rs, t)), k) == BatchAfter(rs, k + 1)
    ensures KvAfter(Pending(Tokens(rs, t)), k) == KvAfter(rs, k + 1)
  {
    if rs != [] {
      StepShifts(p, rs[1..], now, t, k);
      assert Tokens(rs, t)[1..] == Tokens(rs[1..], t);
      TokenKeeps(p, rs[0], now, t);
      var s := Token(rs[0], t);
      assert (k + 1) as real == k as real + 1.0;
      if !s.Done() {
        assert s.size == rs[0].size && s.demand == rs[0].demand;
        assert Pending(Tokens(rs, t)) == [s] + Pending(Tokens(rs[1..], t));
      }
    }
  }

  lemma {:induction false} NowFits(p: LlmModel, rs: seq<Req>, now: real)
    requires forall r :: r in rs ==> TokenOk(r, now) && !r.Done()
    ensures BatchAfter(rs, 0) == |rs| && KvAfter(rs, 0) == Sum(Footprint, rs)
  {
    if rs != [] {
      NowFits(p, rs[1..], now);
      assert TokenOk(rs[0], now);
    }
  }

  lemma BatchTokens(p: LlmModel, e: Engine, now: real)
    requires Core(p, e, now)
    ensures forall r :: r in e.running ==> GoodRequest(p, r) && TokenOk(r, now) && !r.Done()
  {
    forall r | r in e.running ensures GoodRequest(p, r) && TokenOk(r, now) { assert e.Has(r); }
  }

  /** A scheduler step does not change whether the batch can finish. */
  lemma {:induction false} StepFinish(p: LlmModel, e: Engine, now: real, t: real)
    requires LlmInv(p, e, now) && now <= t
    ensures CanFinish(p, ServiceStep(p, e, t)) <==> CanFinish(p, e)
  {
    BatchTokens(p, e, now);
    NowFits(p, e.running, now);
    var rs, rs1 := e.running, ServiceStep(p, e, t).running;
    forall k: nat ensures FitsAfter(p, rs1, k) == FitsAfter(p, rs, k + 1) { StepShifts(p, rs, now, t, k); }
    assert FitsAfter(p, rs, 0);
    hide FitsAfter, Core;
    forall k: nat ensures k == 0 || FitsAfter(p, rs, k) == FitsAfter(p, rs1, k - 1) {
      if k > 0 { assert FitsAfter(p, rs1, k - 1) == FitsAfter(p, rs, (k - 1) + 1); }
    }
  }

  lemma RefusingTick(p: LlmModel, e: Engine, t: real)
    requires !e.accepting
    ensures var (e', e1) := (OnTick(p, e, t), Preempt(p, e.(next := Charge(e.next, 0.0, t))));
            e'.running == e1.running && e'.slot == e1.slot
  {
    hide Preempt;
    assert TryAdmit(p, e, t) == (e, 0.0);
  }

  /** Preemption takes effect exactly when the batch exceeds the budget, and leaves a queue. */
  lemma {:induction false} PreemptsIf(p: LlmModel, e: Engine)
    ensures OverBudget(p, e) ==> Preempt(p, e).slot != [] && Preempt(p, e).running != e.running
    ensures !OverBudget(p, e) ==> Preempt(p, e) == e
  {
    if OverBudget(p, e) { PreemptShrinks(p, Evict(e)); }
  }

  /** Neither does a tick that admits nothing. Such a tick leaves the batch as it is exactly when the batch fits the
      budget now. */
  lemma {:induction false} TickFinish(p: LlmModel, e: Engine, now: real, t: real)
    requires Core(p, e, now) && !e.accepting
    ensures CanFinish(p, OnTick(p, e, t)) <==> CanFinish(p, e)
    ensures OnTick(p, e, t).running == e.running <==> FitsAfter(p, e.running, 0)
  {
    hide Core, BatchAfter, KvAfter, OnTick, Preempt, TryAdmit;
    RefusingTick(p, e, t);
    PreemptsIf(p, e.(next := Charge(e.next, 0.0, t)));
    BatchTokens(p, e, now);
    NowFits(p, e.running, now);
    assert OverBudget(p, e) <==> !FitsAfter(p, e.running, 0);
  }

  // ---- no superluminal decode ---------------------------------------------------------------------------

  /** What the event loop may do to an engine between two of its scheduler steps. */
  datatype Action = Arrive(r: Req) | Tick(t: real) | SetAccepting(b: bool)

  function Act(p: LlmModel, e: Engine, a: Action): Engine {
    match a
    case Arrive(r) => PushBack(e, r)
    case Tick(t) => OnTick(p, e, t)
    case SetAccepting(b) => e.(accepting := b)
  }

  /** Prefill seconds the action charges. */
  function Prefill(p: LlmModel, e: Engine, a: Action): real {
    match a
    case Tick(t) => TryAdmit(p, e, t).1
    case _ => 0.0
  }

  function ActAll(p: LlmModel, e: Engine, acts: seq<Action>): Engine
    decreases |acts|
  {
    if acts == [] then e else ActAll(p, Act(p, e, acts[0]), acts[1..])
  }

  function PrefillAll(p: LlmModel, e: Engine, acts: seq<Action>): real
    decreases |acts|
  {
    if acts == [] then 0.0 else Prefill(p, e, acts[0]) + PrefillAll(p, Act(p, e, acts[0]), acts[1..])
  }

  lemma {:induction false} TryAdmitBatch(p: LlmModel, e: Engine, t: real)
    ensures TryAdmit(p, e, t).0.next == e.next && |TryAdmit(p, e, t).0.running| >= |e.running|
    decreases |e.slot|
  {
    if e.slot != [] && CanAdmit(p, e, e.slot[0]) { TryAdmitBatch(p, AdmitHead(e, t), t); }
  }

  lemma {:induction false} PreemptBatch(p: LlmModel, e: Engine)
    requires e.running != []
    ensures Preempt(p, e).next == e.next && Preempt(p, e).running != []
    decreases |e.running|
  {
    if OverBudget(p, e) { PreemptBatch(p, Evict(e)); }
  }

  /** No arrival, tick or drain ever moves the decode clock of a busy replica earlier, and prefill moves
      it at least as far as was charged. */
  lemma {:induction false} ClockNeverEarlier(p: LlmModel, e: Engine, a: Action)
    requires p.a0 + p.a1 > EPS && e.running != [] && e.next.At?
    ensures var e' := Act(p, e, a);
            e'.running != [] && e'.next.At? && e'.next.t >= e.next.t + Prefill(p, e, a)
  {
    if a.Tick? {
      var (e1, spent) := TryAdmit(p, e, a.t);
      TryAdmitBatch(p, e, a.t);
      var e2 := e1.(next := Charge(e1.next, spent, a.t));
      PreemptBatch(p, e2);
      var e3 := Preempt(p, e2);
      StepTimeBounds(p, |e3.running|);
      assert e2.next.At? && e2.next.t >= e.next.t + spent;
      assert Act(p, e, a) == Rearm(p, e3, a.t);
    }
  }

  lemma {:induction false} ClockAccumulates(p: LlmModel, e: Engine, acts: seq<Action>)
    requires p.a0 + p.a1 > EPS && e.running != [] && e.next.At?
    ensures var e' := ActAll(p, e, acts);
            e'.running != [] && e'.next.At? && e'.next.t >= e.next.t + PrefillAll(p, e, acts)
    decreases |acts|
  {
    if acts != [] {
      ClockNeverEarlier(p, e, acts[0]);
      ClockAccumulates(p, Act(p, e, acts[0]), acts[1..]);
    }
  }

  /** Between two consecutive scheduler steps, whatever arrivals, ticks and drains come in between, at
      least one step time for the batch left behind plus all prefill charged has passed (up to EPS), if the first
      step left a batch behind. */
  lemma {:induction false} NoSuperluminalDecode(p: LlmModel, e: Engine, t1: real, acts: seq<Action>, t2: real)
    requires p.a0 + p.a1 > EPS && ServiceStep(p, e, t1).running != []
    requires Due(ActAll(p, ServiceStep(p, e, t1), acts).next, t2)
    ensures t2 - t1 >= p.a0 + p.a1 * (|ServiceStep(p, e, t1).running| as real)
                       + PrefillAll(p, ServiceStep(p, e, t1), acts) - EPS
  {
    var e1 := ServiceStep(p, e, t1);
    assert e1.next == At(t1 + StepTime(p, |e1.running|));
    hide ServiceStep, ActAll, PrefillAll;
    ClockAccumulates(p, e1, acts);
  }

  // ---- the exact clock of a busy replica --------------------------------------------------------------------

  /** Every tick of acts comes before the clock is due, as the event loop has it: at its clock a replica steps. */
  ghost predicate BeforeDue(p: LlmModel, e: Engine, acts: seq<Action>)
    decreases |acts|
  {
    acts == [] || ((acts[0].Tick? ==> !Due(e.next, acts[0].t)) && BeforeDue(p, Act(p, e, acts[0]), acts[1..]))
  }

  /** A tick before the clock is due moves the clock of a busy replica by exactly the prefill it charges. */
  lemma {:induction false} BusyTick(p: LlmModel, e: Engine, t: real)
    requires e.running != [] && e.next.At? && !Due(e.next, t)
    ensures var e', spent := OnTick(p, e, t), TryAdmit(p, e, t).1;
            e'.running != [] && e'.next == At(e.next.t + (if spent > 0.0 then spent else 0.0))
  {
    TryAdmitBatch(p, e, t);
    var (e1, spent) := TryAdmit(p, e, t);
    PreemptBatch(p, e1.(next := Charge(e1.next, spent, t)));
    hide TryAdmit, Preempt;
  }

  /** Admission charges a second for every prefillTps tokens it brings into the batch, prompt and what was generated
      before. */
  lemma {:induction false} PrefillIs(p: LlmModel, e: Engine, t: real)
    ensures var (e', spent) := TryAdmit(p, e, t);
            spent * p.prefillTps == Sum((r: Req) => r.size + r.progress, e'.running)
                                    - Sum((r: Req) => r.size + r.progress, e.running)
  {
    PrefillTokens(p, e, t);
    SameSum(Footprint, (r: Req) => r.size + r.progress, e.running);
    SameSum(Footprint, (r: Req) => r.size + r.progress, TryAdmit(p, e, t).0.running);
    hide TryAdmit, Sum;
  }

  lemma {:induction false} SameSum(f: Req -> real, g: Req -> real, rs: seq<Req>)
    requires forall r :: f(r) == g(r)
    ensures Sum(f, rs) == Sum(g, rs)
  {
    if rs != [] { SameSum(f, g, rs[1..]); }
  }

  lemma {:induction false} PrefillTokens(p: LlmModel, e: Engine, t: real)
    ensures TryAdmit(p, e, t).1 * p.prefillTps == KvUsed(TryAdmit(p, e, t).0) - KvUsed(e)
    decreases |e.slot|
  {
    if e.slot != [] && CanAdmit(p, e, e.slot[0]) {
      AdmitKv(e, t);
      PrefillTokens(p, AdmitHead(e, t), t);
      var x, rest := Footprint(e.slot[0]), TryAdmit(p, AdmitHead(e, t), t).1;
      ShareOf(x, p.prefillTps, rest);
      hide KvUsed, AdmitHead;
    }
  }

  lemma ShareOf(x: real, tps: real, rest: real)
    requires tps > 0.0
    ensures (x / tps + rest) * tps == x + rest * tps
  {
    assert (x / tps) * tps == x;
  }

  lemma {:induction false} SpentNonNegative(p: LlmModel, e: Engine, t: real)
    requires Core(p, e, t)
    ensures TryAdmit(p, e, t).1 >= 0.0
  {
    TryAdmitKeeps(p, e, t);
  }

  /** Every state on the way satisfies what an engine keeps. */
  ghost predicate CoreAlong(p: LlmModel, e: Engine, acts: seq<Action>)
    decreases |acts|
  {
    acts == [] || ((acts[0].Tick? ==> Core(p, e, acts[0].t)) && CoreAlong(p, Act(p, e, acts[0]), acts[1..]))
  }

  lemma {:induction false} ClockAdds(p: LlmModel, e: Engine, acts: seq<Action>)
    requires e.running != [] && e.next.At? && BeforeDue(p, e, acts) && CoreAlong(p, e, acts)
    ensures var e' := ActAll(p, e, acts);
            e'.running != [] && e'.next == At(e.next.t + PrefillAll(p, e, acts))
    decreases |acts|
  {
    if acts != [] {
      if acts[0].Tick? {
        BusyTick(p, e, acts[0].t);
        SpentNonNegative(p, e, acts[0].t);
      }
      hide OnTick, TryAdmit, Core;
      ClockAdds(p, Act(p, e, acts[0]), acts[1..]);
    }
  }

  /** The clock of a replica that a step left with b running: the next step is due exactly a0 + a1*b after it, later
      by exactly the prefill charged in between. Arrivals, drains and ticks that admit nothing do not move it. */
  lemma {:induction false} DecodeClock(p: LlmModel, e: Engine, t1: real, acts: seq<Action>)
    requires ServiceStep(p, e, t1).running != []
    requires BeforeDue(p, ServiceStep(p, e, t1), acts) && CoreAlong(p, ServiceStep(p, e, t1), acts)
    ensures var e1 := ServiceStep(p, e, t1);
            ActAll(p, e1, acts).next == At(t1 + p.a0 + p.a1 * (|e1.running| as real) + PrefillAll(p, e1, acts))
  {
    var e1 := ServiceStep(p, e, t1);
    assert e1.next == At(t1 + StepTime(p, |e1.running|));
    hide ServiceStep, ActAll, PrefillAll, CoreAlong, BeforeDue;
    ClockAdds(p, e1, acts);
  }

  /** Nothing is charged when nothing is admitted. */
  lemma {:induction false} NothingCharged(p: LlmModel, e: Engine, acts: seq<Action>)
    requires forall i :: 0 <= i < |acts| ==> !acts[i].Tick?
    ensures PrefillAll(p, e, acts) == 0.0
    decreases |acts|
  {
    if acts != [] { NothingCharged(p, Act(p, e, acts[0]), acts[1..]); }
  }

  // ---- decoding out of an empty batch -------------------------------------------------------------------

  /** The clock of the first token out of a batch that was empty. On a replica that never decoded it is a step time
      away, and the prefill is not charged. Otherwise it is the prefill away and no more, unless that is within the
      event tolerance; then it is a step time away. */
  lemma {:induction false} ClockFromIdle(p: LlmModel, e: Engine, t: real)
    requires Core(p, e, t) && e.running == [] && (e.next.At? ==> e.next.t <= t) && OnTick(p, e, t).running != []
    ensures var e', spent := OnTick(p, e, t), TryAdmit(p, e, t).1;
            e'.next == At(t + (if e.next.At? && spent > EPS then spent else p.a0 + p.a1 * (|e'.running| as real)))
  {
    hide Core, TryAdmit, Requeues;
    var (e1, spent) := TryAdmit(p, e, t);
    TryAdmitKeeps(p, e, t);
    NoBatchToEvict(p, e.(next := Charge(e.next, spent, t)));
    AfterAdmission(p, e1.(next := Charge(e1.next, spent, t)));
  }

  lemma NoBatchToEvict(p: LlmModel, e: Engine)
    requires e.running == []
    ensures Preempt(p, e) == e
  {}

  lemma AfterAdmission(p: LlmModel, e: Engine)
    ensures KvUsed(e) <= p.kvBudget ==> Preempt(p, e) == e
  {}

  /** So a full step time passes before that token unless prefill alone takes less. */
  lemma {:induction false} FullStepFromIdle(p: LlmModel, e: Engine, t: real)
    requires Core(p, e, t) && e.running == [] && (e.next.At? ==> e.next.t <= t) && OnTick(p, e, t).running != []
    ensures var e', spent := OnTick(p, e, t), TryAdmit(p, e, t).1;
            && e'.next.At?
            && (e'.next.t >= t + p.a0 + p.a1 * (|e'.running| as real)
                <==> !(e.next.At? && EPS < spent < p.a0 + p.a1 * (|e'.running| as real)))
  {
    ClockFromIdle(p, e, t);
    hide Core, OnTick, TryAdmit;
  }

  /** Through the actions acts the batch is empty. */
  ghost predicate StaysEmpty(p: LlmModel, e: Engine, acts: seq<Action>)
    decreases |acts|
  {
    e.running == [] && (acts == [] || StaysEmpty(p, Act(p, e, acts[0]), acts[1..]))
  }

  lemma {:induction false} EmptyClock(p: LlmModel, e: Engine, acts: seq<Action>)
    requires StaysEmpty(p, e, acts)
    ensures ActAll(p, e, acts).running == [] && ActAll(p, e, acts).next == e.next
    decreases |acts|
  {
    if acts != [] {
      if acts[0].Tick? { EmptyTick(p, e, acts[0].t); }
      hide Act;
      EmptyClock(p, Act(p, e, acts[0]), acts[1..]);
    }
  }

  lemma {:induction false} EmptyTick(p: LlmModel, e: Engine, t: real)
    requires e.running == [] && OnTick(p, e, t).running == []
    ensures OnTick(p, e, t).next == e.next
  {
    TryAdmitBatch(p, e, t);
    var (e1, spent) := TryAdmit(p, e, t);
    if e1.running != [] { PreemptBatch(p, e1.(next := Charge(e1.next, spent, t))); }
    if e.slot != [] && CanAdmit(p, e, e.slot[0]) { TryAdmitBatch(p, AdmitHead(e, t), t); }
  }

  /** After a step at t1 that emptied the batch, and a tick at t that fills it again, the next step comes no earlier
      than the clock of that tick, plus all prefill charged since (up to EPS). */
  lemma {:induction false} GapAfterEmptied(p: LlmModel, e: Engine, t1: real, idle: seq<Action>, t: real,
                                           acts: seq<Action>, t2: real)
    requires p.a0 + p.a1 > EPS && StaysEmpty(p, ServiceStep(p, e, t1), idle) && t1 <= t
    requires var e1 := ActAll(p, ServiceStep(p, e, t1), idle);
             && Core(p, e1, t) && OnTick(p, e1, t).running != []
             && Due(ActAll(p, OnTick(p, e1, t), acts).next, t2)
    ensures var e1 := ActAll(p, ServiceStep(p, e, t1), idle);
            var e2, spent := OnTick(p, e1, t), TryAdmit(p, e1, t).1;
            t2 >= t + (if spent > EPS then spent else p.a0 + p.a1 * (|e2.running| as real))
                  + PrefillAll(p, e2, acts) - EPS
  {
    hide ServiceStep, Core, OnTick, TryAdmit, StaysEmpty, PrefillAll, ActAll;
    var e0 := ServiceStep(p, e, t1);
    EmptiedClock(p, e, t1, idle);
    var e1 := ActAll(p, e0, idle);
    EmptyClock(p, e0, idle);
    ClockFromIdle(p, e1, t);
    ClockAccumulates(p, OnTick(p, e1, t), acts);
  }

  lemma EmptiedClock(p: LlmModel, e: Engine, t1: real, idle: seq<Action>)
    requires StaysEmpty(p, ServiceStep(p, e, t1), idle)
    ensures ServiceStep(p, e, t1).running == [] && ServiceStep(p, e, t1).next == At(t1)
  {
    assert ServiceStep(p, e, t1).running == [];
  }

  // ---- pacing over the life of a request -----------------------------------------------------------------

  /** The shortest step time, less the event tolerance. */
  function Pace(p: LlmModel): real { p.a0 + p.a1 - EPS }

  /** The next token of x is at least a shortest step after its last one: either that much time has passed, or the
      clock of the batch is that far. */
  predicate Rested(p: LlmModel, e: Engine, x: Req, now: real) {
    x.tLast.Some? ==>
      || now >= x.tLast.value + Pace(p)
      || (e.running != [] && e.next.At? && e.next.t >= x.tLast.value + p.a0 + p.a1)
  }

  /** Every gap between two tokens of a request was at least a shortest step, across evictions. */
  predicate Spaced(p: LlmModel, x: Req) { x.sumTbt >= Times(Pace(p), x.nTbt) }

  ghost predicate Paced(p: LlmModel, e: Engine, now: real) {
    Pace(p) > 0.0 ==>
      && (forall x :: e.Has(x) ==> Spaced(p, x))
      && (forall x :: x in e.running || x in e.slot ==> Rested(p, e, x, now))
  }

  lemma TokenPaces(p: LlmModel, e: Engine, x: Req, now: real, t: real)
    requires TokenOk(x, now) && Spaced(p, x) && Rested(p, e, x, now) && now <= t && Due(e.next, t)
    ensures Spaced(p, Token(x, t)) && Token(x, t).tLast == Some(t)
  {
    if x.tFirst.Some? { TimesSucc(Pace(p), x.nTbt); }
  }

  /** A scheduler step at its clock keeps the pace. */
  lemma {:induction false} StepPaces(p: LlmModel, e: Engine, now: real, t: real)
    requires LlmInv(p, e, now) && Paced(p, e, now) && now <= t && e.running != [] && Due(e.next, t)
    ensures Paced(p, ServiceStep(p, e, t), t)
  {
    BatchTokens(p, e, now);
    hide Core, Spaced, TokenOk, Token, GoodRequest;
    var e' := ServiceStep(p, e, t);
    if Pace(p) > 0.0 {
      forall s | s in Tokens(e.running, t) ensures Spaced(p, s) && s.tLast == Some(t) {
        var i :| 0 <= i < |e.running| && Tokens(e.running, t)[i] == s;
        assert e.Has(e.running[i]) && e.running[i] in e.running;
        TokenPaces(p, e, e.running[i], now, t);
      }
      forall x | e'.Has(x) ensures Spaced(p, x) {
        if x !in Tokens(e.running, t) { assert e.Has(x); }
      }
      if e'.running != [] { StepTimeBounds(p, |e'.running|); }
      forall x | x in e'.running || x in e'.slot ensures Rested(p, e', x, t) {
        if x !in e'.running { assert Rested(p, e, x, now); }
      }
    }
  }

  lemma PacedLater(p: LlmModel, e: Engine, now: real, t: real)
    requires Paced(p, e, now) && now <= t
    ensures Paced(p, e, t)
  {
    hide Spaced;
    forall x | Pace(p) > 0.0 && (x in e.running || x in e.slot) ensures Rested(p, e, x, t) {
      assert Rested(p, e, x, now);
    }
  }

  /** Moving the clock of a batch later, or setting it a step away, keeps the pace. */
  lemma {:induction false} ClockPaces(p: LlmModel, e: Engine, c: Clock, t: real)
    requires Paced(p, e, t)
    requires e.running != [] && e.next.At? ==> c.At? && (c.t >= e.next.t || Pace(p) <= 0.0)
    ensures Paced(p, e.(next := c), t)
  {
    hide Spaced;
    var e' := e.(next := c);
    if Pace(p) > 0.0 {
      forall x | e'.Has(x) ensures Spaced(p, x) { assert e.Has(x); }
      forall x | x in e'.running || x in e'.slot ensures Rested(p, e', x, t) { assert Rested(p, e, x, t); }
    }
  }

  lemma {:induction false} AdmitPaces(p: LlmModel, e: Engine, t: real)
    requires Paced(p, e, t)
    ensures Paced(p, TryAdmit(p, e, t).0, t) && TryAdmit(p, e, t).0.next == e.next
    decreases |e.slot|
  {
    if e.slot != [] && CanAdmit(p, e, e.slot[0]) {
      HeadPaces(p, e, t);
      AdmitPaces(p, AdmitHead(e, t), t);
    }
  }

  lemma HeadPaces(p: LlmModel, e: Engine, t: real)
    requires Paced(p, e, t) && e.slot != []
    ensures Paced(p, AdmitHead(e, t), t)
  {
    var e', h, h' := AdmitHead(e, t), e.slot[0], Admit(e.slot[0], t);
    if Pace(p) > 0.0 {
      assert e.Has(h) && Spaced(p, h) && Rested(p, e, h, t);
      forall x | e'.Has(x) ensures Spaced(p, x) { if x != h' { assert e.Has(x); } }
      hide Spaced;
      forall x | x in e'.running || x in e'.slot ensures Rested(p, e', x, t) {
        if x != h' { assert Rested(p, e, x, t); }
      }
    }
  }

  lemma {:induction false} PreemptPaces(p: LlmModel, e: Engine, t: real)
    requires Paced(p, e, t)
    ensures Paced(p, Preempt(p, e), t)
    decreases |e.running|
  {
    if OverBudget(p, e) {
      EvictPaces(p, e, t);
      PreemptPaces(p, Evict(e), t);
    }
  }

  lemma EvictPaces(p: LlmModel, e: Engine, t: real)
    requires Paced(p, e, t) && |e.running| > 1
    ensures Paced(p, Evict(e), t)
  {
    var e', v := Evict(e), e.running[|e.running| - 1];
    if Pace(p) > 0.0 {
      assert e.Has(v) && Spaced(p, v) && Rested(p, e, v, t);
      forall x | e'.Has(x) ensures Spaced(p, x) { if x != e'.slot[0] { assert e.Has(x); } }
      hide Spaced;
      forall x | x in e'.running || x in e'.slot ensures Rested(p, e', x, t) {
        if x != e'.slot[0] { assert Rested(p, e, x, t); }
      }
    }
  }

  /** So does a tick. */
  lemma {:induction false} TickPaces(p: LlmModel, e: Engine, t: real)
    requires Paced(p, e, t)
    ensures Paced(p, OnTick(p, e, t), t)
  {
    hide Paced, TryAdmit, Preempt;
    var (e1, spent) := TryAdmit(p, e, t);
    AdmitPaces(p, e, t);
    ClockPaces(p, e1, Charge(e1.next, spent, t), t);
    var e2 := e1.(next := Charge(e1.next, spent, t));
    PreemptPaces(p, e2, t);
    var e3 := Preempt(p, e2);
    if e3.running != [] { StepTimeBounds(p, |e3.running|); }
    ClockPaces(p, e3, Rearm(p, e3, t).next, t);
  }

  lemma PushPaces(p: LlmModel, e: Engine, r: Req, t: real)
    requires Paced(p, e, t) && Fresh(r)
    ensures Paced(p, PushBack(e, r), t)
  {
    var e' := PushBack(e, r);
    if Pace(p) > 0.0 {
      forall x | e'.Has(x) ensures Spaced(p, x) { if x != r { assert e.Has(x); } }
      hide Spaced;
      forall x | x in e'.running || x in e'.slot ensures Rested(p, e', x, t) {
        if x != r { assert Rested(p, e, x, t); }
      }
    }
  }

  lemma AcceptPaces(p: LlmModel, e: Engine, b: bool, t: real)
    requires Paced(p, e, t)
    ensures Paced(p, e.(accepting := b), t)
  {
    hide Spaced;
    var e' := e.(accepting := b);
    if Pace(p) > 0.0 {
      forall x | e'.Has(x) ensures Spaced(p, x) { assert e.Has(x); }
      forall x | x in e'.running || x in e'.slot ensures Rested(p, e', x, t) { assert Rested(p, e, x, t); }
    }
  }

  // ---- what a tick moves, request by request ---------------------------------------------------------------

  function Admitted(rs: seq<Req>, t: real): (out: seq<Req>)
    ensures |out| == |rs| && forall i :: 0 <= i < |rs| ==> out[i] == (if rs[i].tAdmit.None? then rs[i].(tAdmit := Some(t)) else rs[i])
  {
    seq(|rs|, i requires 0 <= i < |rs| => Admit(rs[i], t))
  }

  /** e' is e with the first m of its queue admitted. */
  predicate Admits(e: Engine, e': Engine, m: nat, t: real) {
    m <= |e.slot| && e' == e.(running := e.running + Admitted(e.slot[..m], t), slot := e.slot[m..])
  }

  lemma AdmitsOne(e: Engine, e': Engine, m: nat, t: real)
    requires e.slot != [] && Admits(AdmitHead(e, t), e', m, t)
    ensures Admits(e, e', m + 1, t)
  {
    var e1 := AdmitHead(e, t);
    assert e.slot[..m + 1] == [e.slot[0]] + e1.slot[..m];
    assert Admitted(e.slot[..m + 1], t) == [Admit(e.slot[0], t)] + Admitted(e1.slot[..m], t);
  }

  lemma AdmitsNone(e: Engine, t: real)
    ensures Admits(e, e, 0, t)
  {
    assert e.running + Admitted(e.slot[..0], t) == e.running;
  }

  /** Admission takes requests off the front of the queue, in order, stamps those never admitted before, and changes
      nothing else. */
  lemma {:induction false} AdmitExactly(p: LlmModel, e: Engine, t: real)
    ensures var e' := TryAdmit(p, e, t).0;
            |e.running| <= |e'.running| && Admits(e, e', |e'.running| - |e.running|, t)
    decreases |e.slot|
  {
    hide CanAdmit, Admits;
    if e.slot != [] && CanAdmit(p, e, e.slot[0]) {
      var e1, e' := AdmitHead(e, t), TryAdmit(p, e, t).0;
      AdmitExactly(p, e1, t);
      AdmitsOne(e, e', |e'.running| - |e1.running|, t);
    } else {
      AdmitsNone(e, t);
    }
  }

  function Returned(rs: seq<Req>): (out: seq<Req>)
    ensures |out| == |rs| && forall i :: 0 <= i < |rs| ==> out[i] == rs[i].(nPreempt := rs[i].nPreempt + 1)
  {
    seq(|rs|, i requires 0 <= i < |rs| => rs[i].(nPreempt := rs[i].nPreempt + 1))
  }

  /** e' is e with all but the first k of its batch returned to the queue. */
  predicate Returns(e: Engine, e': Engine, k: nat) {
    && k <= |e.running|
    && e' == e.(running := e.running[..k], slot := Returned(e.running[k..]) + e.slot,
                nPreempt := e.nPreempt + (|e.running| - k))
  }

  lemma ReturnsOne(e: Engine, e': Engine, k: nat)
    requires e.running != [] && Returns(Evict(e), e', k)
    ensures Returns(e, e', k)
  {
    var n, e1 := |e.running| - 1, Evict(e);
    assert e.running[k..] == e1.running[k..] + [e.running[n]];
    assert Returned(e.running[k..]) == Returned(e1.running[k..]) + [e1.slot[0]];
    assert e.running[..k] == e1.running[..k];
  }

  lemma ReturnsNone(e: Engine)
    ensures Returns(e, e, |e.running|)
  {
    assert e.running[..|e.running|] == e.running;
    assert Returned(e.running[|e.running|..]) + e.slot == e.slot;
  }

  /** The first j of the batch are too many for the budget. */
  predicate TooMany(p: LlmModel, rs: seq<Req>, j: nat)
    requires j <= |rs|
  {
    j > 1 && Sum(Footprint, rs[..j]) > p.kvBudget
  }

  lemma TooManyAll(p: LlmModel, e: Engine)
    ensures TooMany(p, e.running, |e.running|) <==> OverBudget(p, e)
  {
    assert e.running[..|e.running|] == e.running;
  }

  lemma TooManyPrefix(p: LlmModel, rs: seq<Req>, n: nat, j: nat)
    requires j <= n <= |rs|
    ensures TooMany(p, rs[..n], j) == TooMany(p, rs, j)
  {
    assert rs[..n][..j] == rs[..j];
  }

  /** Preemption keeps the longest start of the batch, one at least, that fits the budget; the rest goes back to the
      front of the queue in order, every request of it and the replica counting one preemption each. */
  lemma {:induction false} PreemptExactly(p: LlmModel, e: Engine)
    ensures var e' := Preempt(p, e);
            var k := |e'.running|;
            && Returns(e, e', k)
            && !TooMany(p, e.running, k) && forall j :: k < j <= |e.running| ==> TooMany(p, e.running, j)
    decreases |e.running|
  {
    hide OverBudget, Returns, TooMany;
    TooManyAll(p, e);
    if OverBudget(p, e) {
      NotOverEmpty(p, e);
      var n, e1, e' := |e.running| - 1, Evict(e), Preempt(p, e);
      PreemptExactly(p, e1);
      ReturnsOne(e, e', |e'.running|);
      ReturnsAtMost(e1, e', |e'.running|);
      forall j: nat | j <= n ensures TooMany(p, e1.running, j) == TooMany(p, e.running, j) {
        TooManyPrefix(p, e.running, n, j);
      }
    } else {
      ReturnsNone(e);
    }
  }

  lemma ReturnsAtMost(e: Engine, e': Engine, k: nat)
    requires Returns(e, e', k)
    ensures k <= |e.running|
  {}

  lemma NotOverEmpty(p: LlmModel, e: Engine)
    requires OverBudget(p, e)
    ensures |e.running| > 1
  {}
}
