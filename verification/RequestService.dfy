/** A bounded-concurrency FIFO server that integrates service between events and reschedules. */
module RequestService {
  import opened Numbers
  import opened Requests

  const ABS_TOL: real := 0.000000000001
  const REL_TOL: real := 0.000000001

  datatype RsConfig = RsConfig(maxConc: nat, contention: real, gap: real -> real)
  {
    predicate Valid() { maxConc >= 1 && contention >= 0.0 }
  }

  /** At least one concurrency slot, and contention that never speeds service up. */
  type RsModel = p: RsConfig | p.Valid() witness RsConfig(1, 0.0, (t: real) => 1.0)

  // ---- the engine's operations -------------------------------------------------------------

  function Abs(x: real): real { if x < 0.0 then -x else x }

  /** Tolerance for "this request has finished its work". */
  function Tol(r: Req): real { ABS_TOL + REL_TOL * Max(Abs(r.demand), Abs(r.progress)) }

  /** Slow-down of a batch of b. */
  function Slow(p: RsModel, b: nat): real { 1.0 + p.contention * ((b - 1) as real) }

  function Rate(p: RsModel, b: nat): real {
    if b == 0 then 0.0
    else
      SlowPositive(p, b);
      1.0 / Slow(p, b)
  }

  lemma SlowPositive(p: RsModel, b: nat)
    requires b >= 1
    ensures Slow(p, b) >= 1.0
  {}

  function Deliver(r: Req, d: real, t: real): Req {
    var s := r.(progress := r.progress + d);
    if s.progress >= s.demand - Tol(s) then s.(tDone := Some(t)) else s
  }

  function DeliverAll(rs: seq<Req>, d: real, t: real): (out: seq<Req>)
    ensures |out| == |rs| && forall i :: 0 <= i < |rs| ==> out[i] == Deliver(rs[i], d, t)
  {
    seq(|rs|, i requires 0 <= i < |rs| => Deliver(rs[i], d, t))
  }

  /** The service each running request receives between the last event and t. */
  function Delivered(p: RsModel, e: Engine, t: real): real
    requires e.lastT.Some?
  {
    (t - e.lastT.value) * Rate(p, |e.running|)
  }

  function Stepped(p: RsModel, e: Engine, t: real): seq<Req>
    requires e.lastT.Some?
  {
    DeliverAll(e.running, Delivered(p, e, t), t)
  }

  /** Integrate the service delivered since the last event and retire what it completes. */
  function Advance(p: RsModel, e: Engine, t: real): Engine {
    if e.lastT.None? || t - e.lastT.value <= 0.0 || e.running == [] then e.(lastT := Some(t))
    else
      var stepped := Stepped(p, e, t);
      e.(running := Pending(stepped), fin := e.fin + Completed(stepped), lastT := Some(t),
         work := e.work + Times(Delivered(p, e, t), |e.running|),
         nSuccess := e.nSuccess + |Completed(stepped)|)
  }

  function LeftOver(r: Req): real { Max(0.0, r.demand - r.progress) }

  /** The least service any running request still needs. */
  function MinLeft(rs: seq<Req>): (m: real)
    requires rs != []
    ensures forall r :: r in rs ==> m <= LeftOver(r)
    ensures exists r :: r in rs && m == LeftOver(r)
  {
    if |rs| == 1 then LeftOver(rs[0])
    else
      assert rs == [rs[0]] + rs[1..];
      Min(LeftOver(rs[0]), MinLeft(rs[1..]))
  }

  function Reschedule(p: RsModel, e: Engine, t: real): Engine {
    if e.running == [] then e.(next := Never)
    else
      SlowPositive(p, |e.running|);
      var rate := Rate(p, |e.running|);
      if rate <= 0.0 then e.(next := Never)
      else
        var at := t + MinLeft(e.running) / rate;
        e.(next := At(if at > t then at else NextAfter(p.gap, t)))
  }

  function ServiceStep(p: RsModel, e: Engine, t: real): Engine {
    Reschedule(p, Advance(p, e, t), t)
  }

  predicate CanAdmit(p: RsModel, e: Engine) { e.accepting && |e.running| < p.maxConc }

  /** Service starts on admission, and that is also the first visible output. */
  function Begin(r: Req, t: real): Req { MarkOutput(Admit(r, t), t) }

  function AdmitHead(e: Engine, t: real): Engine
    requires e.slot != []
  {
    e.(slot := e.slot[1..], running := e.running + [Begin(e.slot[0], t)])
  }

  function AdmitAll(p: RsModel, e: Engine, t: real): Engine
    decreases |e.slot|
  {
    if e.slot != [] && CanAdmit(p, e) then AdmitAll(p, AdmitHead(e, t), t) else e
  }

  function OnTick(p: RsModel, e: Engine, t: real): Engine {
    Reschedule(p, AdmitAll(p, Advance(p, e, t), t), t)
  }

  // ---- what holds of one request ------------------------------------------------------------

  /** A request with some work to do, beyond the completion tolerance. */
  predicate GoodRequest(r: Req) { r.demand > ABS_TOL + REL_TOL * r.demand }

  /** In service at time l: it has received at most the time since its admission, and at least that
      time divided by the slow-down of a full batch. */
  predicate Serving(p: RsModel, r: Req, l: real) {
    && r.tAdmit.Some? && r.tAdmit.value <= l
    && 0.0 <= r.progress <= l - r.tAdmit.value <= r.progress * Slow(p, p.maxConc)
    && r.progress < r.demand - Tol(r)
  }

  /** Completed: it received its demand, up to the tolerance, and never more. */
  predicate Served(p: RsModel, r: Req) {
    && r.tAdmit.Some? && r.tDone.Some?
    && r.demand - Tol(r) <= r.progress <= r.demand && 0.0 <= r.progress
    && r.progress <= r.tDone.value - r.tAdmit.value <= r.progress * Slow(p, p.maxConc)
  }

  predicate Waiting(r: Req) { r.progress == 0.0 && r.tAdmit.None? && r.tFirst.None? }

  /** What a request-service engine keeps throughout. */
  ghost predicate Core(p: RsModel, e: Engine, now: real) {
    && Stamped(e, now) && Increasing(e.Line()) && AdmitMonotone(e)
    && (forall r :: e.Has(r) ==> GoodRequest(r))
    && |e.running| <= p.maxConc
    && (e.lastT.Some? ==> e.lastT.value <= now)
    && (e.running != [] ==> e.lastT.Some?)
    && (forall r :: r in e.running ==> e.lastT.Some? && Serving(p, r, e.lastT.value))
    && (forall r :: r in e.slot ==> Waiting(r))
    && (forall r :: r in e.fin ==> Served(p, r))
    && e.work == Sum(Progress, e.Held())
    && e.nSuccess == |e.fin|
  }

  /** The clock points at the first completion of the batch. */
  ghost predicate ClockExact(p: RsModel, e: Engine) {
    e.running != [] ==>
      && e.lastT.Some? && Rate(p, |e.running|) > 0.0
      && e.next == At(e.lastT.value + MinLeft(e.running) / Rate(p, |e.running|))
  }

  /** Every concurrency slot is busy, or nothing waits. */
  predicate AdmissionMaximal(p: RsModel, e: Engine) { e.slot == [] || |e.running| == p.maxConc }

  function Work(e: Engine): nat { |e.running| + |e.slot| }

  ghost predicate RsInv(p: RsModel, e: Engine, now: real) {
    Core(p, e, now) && ClockExact(p, e) && ClockAhead(e, now)
  }

  // ---- rates ----------------------------------------------------------------------------------

  lemma RateBounds(p: RsModel, b: nat)
    requires 1 <= b <= p.maxConc
    ensures 0.0 < Rate(p, b) <= 1.0
    ensures Rate(p, b) * Slow(p, p.maxConc) >= 1.0
  {
    SlowPositive(p, b);
    var s, m := Slow(p, b), Slow(p, p.maxConc);
    assert m - s == p.contention * ((p.maxConc - b) as real);
    assert m >= s >= 1.0;
    Reciprocal(s, m);
  }

  lemma Reciprocal(s: real, m: real)
    requires m >= s >= 1.0
    ensures 0.0 < 1.0 / s <= 1.0 && (1.0 / s) * m >= 1.0
  {
    var x := 1.0 / s;
    assert x * s == 1.0;
    assert x > 0.0;
    assert x * m >= x * s;
  }

  /** Service delivered up to an instant no later than the clock never exceeds the least remainder. */
  lemma NoOvershoot(l: real, t: real, rem: real, rate: real)
    requires rate > 0.0 && l <= t <= l + rem / rate
    ensures 0.0 <= (t - l) * rate <= rem
    ensures t == l + rem / rate ==> (t - l) * rate == rem
  {
    var q := rem / rate;
    assert q * rate == rem;
    assert (t - l) * rate <= q * rate;
  }

  lemma Stretch(progress: real, wait: real, dt: real, rate: real, slow: real)
    requires 0.0 <= progress <= wait <= progress * slow && dt >= 0.0
    requires 0.0 < rate <= 1.0 && rate * slow >= 1.0
    ensures 0.0 <= progress + dt * rate <= wait + dt <= (progress + dt * rate) * slow
  {
    assert dt * rate <= dt;
    assert (dt * rate) * slow == dt * (rate * slow);
    assert dt * (rate * slow) >= dt;
    assert (progress + dt * rate) * slow == progress * slow + (dt * rate) * slow;
  }

  // ---- integration ------------------------------------------------------------------------------

  /** The batch is about to be integrated up to t, no later than its clock. */
  ghost predicate InTime(e: Engine, now: real, t: real) {
    now <= t && (e.running != [] ==> e.next.At? && t <= e.next.t)
  }

  /** s is r after the batch received d seconds of service up to t, without overshooting. */
  ghost predicate Received(p: RsModel, r: Req, s: Req, d: real, t: real) {
    && Desc(s) == Desc(r) && s.tAdmit == r.tAdmit && s.progress == r.progress + d
    && GoodRequest(s) && s.tAdmit.Some? && s.tAdmit.value <= t
    && (s.Done() ==> s.tDone == Some(t) && Served(p, s))
    && (!s.Done() ==> Serving(p, s, t))
    && (d == LeftOver(r) ==> s.Done())
  }

  lemma {:induction false} DeliverKeeps(p: RsModel, r: Req, l: real, t: real, d: real, rate: real)
    requires GoodRequest(r) && Serving(p, r, l) && !r.Done() && l <= t
    requires 0.0 < rate <= 1.0 && rate * Slow(p, p.maxConc) >= 1.0 && d == (t - l) * rate
    requires d <= LeftOver(r)
    ensures Received(p, r, Deliver(r, d, t), d, t)
  {
    Stretch(r.progress, l - r.tAdmit.value, t - l, rate, Slow(p, p.maxConc));
  }

  lemma {:induction false} DeliveredFits(p: RsModel, e: Engine, now: real, t: real)
    requires 1 <= |e.running| <= p.maxConc && ClockExact(p, e) && InTime(e, now, t) && e.lastT.value < t
    ensures forall r :: r in e.running ==> Delivered(p, e, t) <= LeftOver(r)
    ensures t == e.next.t ==> exists r :: r in e.running && Delivered(p, e, t) == LeftOver(r)
  {
    NoOvershoot(e.lastT.value, t, MinLeft(e.running), Rate(p, |e.running|));
  }

  lemma {:induction false} DeliverOne(p: RsModel, e: Engine, t: real, r: Req)
    requires e.lastT.Some? && e.lastT.value < t && 1 <= |e.running| <= p.maxConc
    requires GoodRequest(r) && Serving(p, r, e.lastT.value) && !r.Done()
    requires Delivered(p, e, t) <= LeftOver(r)
    ensures Received(p, r, Deliver(r, Delivered(p, e, t), t), Delivered(p, e, t), t)
  {
    RateBounds(p, |e.running|);
    DeliverKeeps(p, r, e.lastT.value, t, Delivered(p, e, t), Rate(p, |e.running|));
  }

  /** The batch is serving at its last event and the clock points at its first completion. */
  ghost predicate BatchOk(p: RsModel, e: Engine, now: real, t: real) {
    && 1 <= |e.running| <= p.maxConc && e.lastT.Some? && e.lastT.value < t
    && ClockExact(p, e) && InTime(e, now, t)
    && forall i :: 0 <= i < |e.running| ==>
         GoodRequest(e.running[i]) && Serving(p, e.running[i], e.lastT.value) && !e.running[i].Done()
  }

  lemma {:induction false} InvGivesBatch(p: RsModel, e: Engine, now: real, t: real)
    requires RsInv(p, e, now) && InTime(e, now, t) && e.running != [] && e.lastT.value < t
    ensures BatchOk(p, e, now, t)
  {
    hide AdmitMonotone, Increasing, MinLeft, Sum, Serving, GoodRequest, Rate;
    forall i | 0 <= i < |e.running|
      ensures GoodRequest(e.running[i]) && Serving(p, e.running[i], e.lastT.value) && !e.running[i].Done()
    {
      assert e.Has(e.running[i]);
    }
  }

  /** Integrating never overshoots: everything still running stays short of its demand, everything that
      completes has received its demand up to the tolerance. */
  lemma {:induction false} DeliverBatch(p: RsModel, e: Engine, now: real, t: real)
    requires BatchOk(p, e, now, t)
    ensures forall i :: 0 <= i < |e.running| ==>
              Received(p, e.running[i], Stepped(p, e, t)[i], Delivered(p, e, t), t)
    ensures t == e.next.t ==> exists r :: r in Stepped(p, e, t) && r.Done()
  {
    hide MinLeft, Delivered, Received, Serving, GoodRequest, Rate, Deliver;
    DeliveredFits(p, e, now, t);
    forall i | 0 <= i < |e.running|
      ensures Received(p, e.running[i], Stepped(p, e, t)[i], Delivered(p, e, t), t)
    {
      DeliverOne(p, e, t, e.running[i]);
    }
    if t == e.next.t {
      var r :| r in e.running && Delivered(p, e, t) == LeftOver(r);
      var i :| 0 <= i < |e.running| && e.running[i] == r;
      ReceivedAll(p, r, Stepped(p, e, t)[i], Delivered(p, e, t), t);
      assert Stepped(p, e, t)[i] in Stepped(p, e, t);
    }
  }

  lemma ReceivedAll(p: RsModel, r: Req, s: Req, d: real, t: real)
    requires Received(p, r, s, d, t) && d == LeftOver(r)
    ensures s.Done()
  {}

  /** What a batch looks like just after integration. */
  ghost predicate SteppedOk(p: RsModel, e: Engine, t: real)
    requires e.lastT.Some?
  {
    forall s :: s in Stepped(p, e, t) ==>
      && GoodRequest(s) && s.tAdmit.Some? && s.tAdmit.value <= t
      && (s.Done() ==> s.tDone == Some(t) && Served(p, s)) && (!s.Done() ==> Serving(p, s, t))
  }

  lemma {:induction false} AdvanceRetires(p: RsModel, e: Engine, now: real, t: real)
    requires BatchOk(p, e, now, t)
    ensures Retires(e, Advance(p, e, t), Stepped(p, e, t))
  {
    hide MinLeft, GoodRequest, Served, Serving, Rate, Delivered, Times, Deliver, ClockExact, Tol;
    DeliverBatch(p, e, now, t);
  }

  lemma {:induction false} AdvanceStepped(p: RsModel, e: Engine, now: real, t: real)
    requires BatchOk(p, e, now, t)
    ensures SteppedOk(p, e, t)
  {
    DeliverBatch(p, e, now, t);
    hide MinLeft, GoodRequest, Served, Serving, Rate, Slow, Delivered, Times, Deliver, ClockExact, BatchOk;
    forall s | s in Stepped(p, e, t)
      ensures GoodRequest(s) && s.tAdmit.Some? && s.tAdmit.value <= t
      ensures s.Done() ==> s.tDone == Some(t) && Served(p, s)
      ensures !s.Done() ==> Serving(p, s, t)
    {
      var i :| 0 <= i < |e.running| && Stepped(p, e, t)[i] == s;
      assert Received(p, e.running[i], s, Delivered(p, e, t), t);
    }
  }

  lemma {:induction false} AdvanceRequests(p: RsModel, e: Engine, now: real, t: real)
    requires BatchOk(p, e, now, t) && SteppedOk(p, e, t)
    requires Stamped(e, now) && (forall r :: e.Has(r) ==> GoodRequest(r))
    requires forall r :: r in e.fin ==> Served(p, r)
    ensures var e' := Advance(p, e, t);
            && Stamped(e', t)
            && (forall r :: e'.Has(r) ==> GoodRequest(r))
            && (forall r :: r in e'.running ==> Serving(p, r, t))
            && (forall r :: r in e'.fin ==> Served(p, r))
  {
    hide Serving, Served, GoodRequest, MinLeft, Rate, Slow, Delivered, Times, Deliver, ClockExact;
    var e' := Advance(p, e, t);
    forall r | e'.Has(r) ensures GoodRequest(r) && (r.tAdmit.Some? ==> r.tAdmit.value <= t) {
      if r !in Stepped(p, e, t) { assert e.Has(r); }
    }
  }

  lemma BatchProgress(rs: seq<Req>, d: real, t: real)
    ensures Sum(Progress, DeliverAll(rs, d, t)) == Sum(Progress, rs) + Times(d, |rs|)
  {
    var stepped := DeliverAll(rs, d, t);
    forall i | 0 <= i < |rs| ensures Progress(stepped[i]) == Progress(rs[i]) + d {
      hide Tol;
      assert stepped[i] == Deliver(rs[i], d, t);
    }
    hide Deliver;
    SumShift(Progress, rs, stepped, d);
  }

  lemma {:induction false} AdvanceAccounts(p: RsModel, e: Engine, t: real)
    requires e.lastT.Some? && e.lastT.value < t && e.running != []
    requires Retires(e, Advance(p, e, t), Stepped(p, e, t)) && e.work == Sum(Progress, e.Held())
    ensures Advance(p, e, t).work == Sum(Progress, Advance(p, e, t).Held())
  {
    hide Delivered, Retires, Sum;
    RetireSum(Progress, e, Advance(p, e, t), Stepped(p, e, t));
    BatchProgress(e.running, Delivered(p, e, t), t);
  }

  /** Integration keeps the engine's facts. */
  lemma {:induction false} AdvanceKeeps(p: RsModel, e: Engine, now: real, t: real)
    requires RsInv(p, e, now) && InTime(e, now, t)
    ensures Core(p, Advance(p, e, t), t) && Advance(p, e, t).lastT == Some(t)
  {
    hide Serving, Served, GoodRequest, MinLeft, Rate, Slow, Delivered, Times, Deliver, AdmitMonotone,
         Increasing, Sum, ClockExact;
    if e.running != [] && e.lastT.value < t {
      InvGivesBatch(p, e, now, t);
      AdvanceRetires(p, e, now, t);
      AdvanceStepped(p, e, now, t);
      AdvanceRequests(p, e, now, t);
      AdvanceAccounts(p, e, t);
      RetireOrdered(e, Advance(p, e, t), Stepped(p, e, t));
    } else {
      SameRequests(e, Advance(p, e, t), now, t);
    }
  }

  lemma SameRequests(e: Engine, e': Engine, now: real, t: real)
    requires Stamped(e, now) && AdmitMonotone(e) && now <= t
    requires e'.fin == e.fin && e'.running == e.running && e'.slot == e.slot
    ensures Stamped(e', t) && AdmitMonotone(e') && e'.Held() == e.Held() && e'.Line() == e.Line()
    ensures forall r :: e'.Has(r) == e.Has(r)
  {}

  lemma {:induction false} PendingProper(rs: seq<Req>)
    requires exists r :: r in rs && r.Done()
    ensures |Pending(rs)| < |rs|
  {
    if !rs[0].Done() {
      assert rs == [rs[0]] + rs[1..];
      PendingProper(rs[1..]);
    }
  }

  /** Integration completes work exactly at the clock, stamps what it completes and forgets nothing. */
  lemma {:induction false} AdvanceDelivers(p: RsModel, e: Engine, now: real, t: real)
    requires RsInv(p, e, now) && InTime(e, now, t)
    ensures var e' := Advance(p, e, t);
            && e.fin <= e'.fin && (forall r :: r in e'.fin[|e.fin|..] ==> r.tDone == Some(t))
            && multiset(Descs(e'.Held())) == multiset(Descs(e.Held()))
            && Work(e') <= Work(e) && (e.running != [] && t == e.next.t ==> Work(e') < Work(e))
            && e'.slot == e.slot && e'.accepting == e.accepting
  {
    if e.running != [] && e.lastT.value < t {
      hide AdmitMonotone, Increasing, Serving, Served, GoodRequest, MinLeft, Rate, Slow, Sum, Delivered, Times, Deliver;
      InvGivesBatch(p, e, now, t);
      AdvanceRetires(p, e, now, t);
      AdvanceStepped(p, e, now, t);
      if t == e.next.t {
        DeliverBatch(p, e, now, t);
        PendingProper(Stepped(p, e, t));
      }
      RetireConserves(e, Advance(p, e, t), Stepped(p, e, t));
      assert Advance(p, e, t).fin[|e.fin|..] == Completed(Stepped(p, e, t));
    } else {
      SameRequests(e, Advance(p, e, t), now, t);
    }
  }

  // ---- admission and rescheduling ----------------------------------------------------------------

  lemma {:induction false} MinLeftPositive(p: RsModel, rs: seq<Req>, l: real)
    requires rs != [] && forall r :: r in rs ==> Serving(p, r, l)
    ensures MinLeft(rs) > 0.0
  {
    var m := MinLeft(rs);
    var r :| r in rs && m == LeftOver(r);
    assert Serving(p, r, l) && Tol(r) >= 0.0;
  }

  /** Rescheduling points the clock exactly at the first completion, strictly in the future. */
  lemma {:induction false} RescheduleKeeps(p: RsModel, e: Engine, t: real)
    requires Core(p, e, t) && e.lastT == Some(t)
    ensures RsInv(p, Reschedule(p, e, t), t)
  {
    hide Serving, Served, AdmitMonotone, Increasing, Sum, MinLeft, Rate, Slow;
    var e' := Reschedule(p, e, t);
    SameRequests(e, e', t, t);
    if e.running != [] {
      RateBounds(p, |e.running|);
      MinLeftPositive(p, e.running, t);
      QuotientPositive(MinLeft(e.running), Rate(p, |e.running|));
    }
  }

  lemma BeginServes(p: RsModel, r: Req, t: real)
    requires GoodRequest(r) && Waiting(r)
    ensures Serving(p, Begin(r, t), t) && Desc(Begin(r, t)) == Desc(r) && GoodRequest(Begin(r, t))
  {}

  lemma {:induction false} AdmitKeeps(p: RsModel, e: Engine, t: real)
    requires Core(p, e, t) && e.lastT == Some(t) && e.slot != [] && CanAdmit(p, e)
    ensures Core(p, AdmitHead(e, t), t) && Promotes(e, AdmitHead(e, t), Begin(e.slot[0], t), t)
  {
    hide Serving, Served, AdmitMonotone, Increasing, GoodRequest, Sum;
    var e', h := AdmitHead(e, t), Begin(e.slot[0], t);
    assert e.Has(e.slot[0]) && e.slot[0] in e.slot;
    BeginServes(p, e.slot[0], t);
    PromoteOrdered(e, e', h, t);
    PromoteSum(e, e', h, t);
    SumHeldLine(Progress, e);
    SumHeldLine(Progress, e');
    forall r | e'.Has(r) ensures GoodRequest(r) {
      if r != h { assert e.Has(r); }
    }
  }

  /** Admission moves requests from the queue into free slots and touches nothing else. */
  ghost predicate Requeues(e: Engine, e': Engine) {
    && Descs(e'.Line()) == Descs(e.Line()) && e'.fin == e.fin && Work(e') == Work(e)
    && e'.accepting == e.accepting
  }

  lemma {:induction false} AdmitAllKeeps(p: RsModel, e: Engine, t: real)
    requires Core(p, e, t) && e.lastT == Some(t)
    ensures var e' := AdmitAll(p, e, t);
            && Core(p, e', t) && e'.lastT == Some(t) && Requeues(e, e')
            && (e.accepting ==> AdmissionMaximal(p, e')) && (!e.accepting ==> e' == e)
    decreases |e.slot|
  {
    hide Core;
    assert |e.running| <= p.maxConc by { WithinSlots(p, e, t); }
    if e.slot != [] && CanAdmit(p, e) {
      AdmitKeeps(p, e, t);
      PromoteLine(e, AdmitHead(e, t), Begin(e.slot[0], t), t);
      AdmitAllKeeps(p, AdmitHead(e, t), t);
    }
  }

  lemma WithinSlots(p: RsModel, e: Engine, t: real)
    requires Core(p, e, t)
    ensures |e.running| <= p.maxConc
  {}

  lemma {:induction false} CoreLater(p: RsModel, e: Engine, now: real, t: real)
    requires Core(p, e, now) && now <= t
    ensures Core(p, e, t)
  {
    hide Serving, Served, AdmitMonotone, Increasing, Sum, GoodRequest;
    SameRequests(e, e, now, t);
  }

  lemma ClockFact(p: RsModel, e: Engine, now: real)
    requires RsInv(p, e, now)
    ensures e.running != [] ==> e.next.At? && e.next.t > now
  {}

  // ---- the two hooks of the engine contract --------------------------------------------------------

  lemma {:induction false} StepKeeps(p: RsModel, e: Engine, now: real, t: real)
    requires RsInv(p, e, now) && InTime(e, now, t)
    ensures RsInv(p, ServiceStep(p, e, t), t)
  {
    hide Core, ClockExact;
    AdvanceKeeps(p, e, now, t);
    RescheduleKeeps(p, Advance(p, e, t), t);
  }

  /** A tick integrates, then fills every free slot in FIFO order, then points the clock at the next
      completion. */
  lemma {:induction false} TickKeeps(p: RsModel, e: Engine, now: real, t: real)
    requires RsInv(p, e, now) && InTime(e, now, t)
    ensures RsInv(p, OnTick(p, e, t), t)
    ensures e.accepting ==> AdmissionMaximal(p, OnTick(p, e, t))
    ensures !e.accepting ==> OnTick(p, e, t).slot == e.slot
  {
    hide Core, ClockExact;
    AdvanceKeeps(p, e, now, t);
    AdvanceDelivers(p, e, now, t);
    AdmitAllKeeps(p, Advance(p, e, t), t);
    RescheduleKeeps(p, AdmitAll(p, Advance(p, e, t), t), t);
  }

  lemma {:induction false} StepDelivers(p: RsModel, e: Engine, now: real, t: real)
    requires RsInv(p, e, now) && InTime(e, now, t)
    ensures var e' := ServiceStep(p, e, t);
            && e.fin <= e'.fin && (forall r :: r in e'.fin[|e.fin|..] ==> r.tDone == Some(t))
            && multiset(Descs(e'.Held())) == multiset(Descs(e.Held()))
            && Work(e') <= Work(e) && (e.running != [] && t == e.next.t ==> Work(e') < Work(e))
            && e'.slot == e.slot && e'.accepting == e.accepting
  {
    hide Core, ClockExact;
    AdvanceDelivers(p, e, now, t);
    RecutConserves(Advance(p, e, t), ServiceStep(p, e, t));
  }

  lemma {:induction false} TickDelivers(p: RsModel, e: Engine, now: real, t: real)
    requires RsInv(p, e, now) && InTime(e, now, t)
    ensures var e' := OnTick(p, e, t);
            && e.fin <= e'.fin && (forall r :: r in e'.fin[|e.fin|..] ==> r.tDone == Some(t))
            && multiset(Descs(e'.Held())) == multiset(Descs(e.Held()))
            && Work(e') <= Work(e) && e'.accepting == e.accepting
  {
    hide Core, ClockExact;
    AdvanceKeeps(p, e, now, t);
    AdvanceDelivers(p, e, now, t);
    AdmitAllKeeps(p, Advance(p, e, t), t);
    RecutConserves(Advance(p, e, t), OnTick(p, e, t));
  }

  lemma ServedBounds(p: RsModel, r: Req)
    requires Served(p, r)
    ensures r.demand - (ABS_TOL + REL_TOL * r.demand) <= r.tDone.value - r.tAdmit.value
    ensures r.tDone.value - r.tAdmit.value <= r.demand * Slow(p, p.maxConc)
  {
    SlowPositive(p, p.maxConc);
    ScaleUp(r.progress, r.demand, Slow(p, p.maxConc));
  }

  lemma ScaleUp(x: real, y: real, s: real)
    requires x <= y && s >= 0.0
    ensures x * s <= y * s
  {}

  lemma NoContention(p: RsModel)
    requires p.contention == 0.0
    ensures Slow(p, p.maxConc) == 1.0
  {}

  /** Response time of every completed request: its demand (up to the completion tolerance) at least,
      and its demand slowed down by a full batch at most; exactly its demand without contention. */
  lemma {:induction false} ResponseTime(p: RsModel, e: Engine, now: real, r: Req)
    requires RsInv(p, e, now) && r in e.fin
    ensures r.tAdmit.Some? && r.tDone.Some? && 0.0 <= r.progress <= r.demand
    ensures r.demand - (ABS_TOL + REL_TOL * r.demand) <= r.tDone.value - r.tAdmit.value
    ensures r.tDone.value - r.tAdmit.value <= r.demand * (1.0 + p.contention * ((p.maxConc - 1) as real))
    ensures p.contention == 0.0 ==> r.tDone.value - r.tAdmit.value <= r.demand
  {
    hide Served;
    assert Served(p, r);
    ServedFacts(p, r);
    RateIs(p, p.maxConc);
    hide Slow, RsInv;
    ServedBounds(p, r);
    if p.contention == 0.0 { NoContention(p); }
  }

  /** A request is completed as soon as it has received its demand, up to the completion tolerance, and not before. */
  lemma {:induction false} CompletedExactly(p: RsModel, e: Engine, now: real, r: Req)
    requires RsInv(p, e, now) && e.Has(r)
    ensures r.Done() <==> r.progress >= r.demand - (0.000000000001 + 0.000000001 * r.demand)
  {
    hide Slow, Rate, MinLeft, Increasing, AdmitMonotone, ClockExact;
    if r in e.fin {
      assert Served(p, r);
    } else if r in e.running {
      assert Serving(p, r, e.lastT.value) && !r.Done();
    } else {
      assert Waiting(r) && GoodRequest(r) && !r.Done();
    }
  }

  lemma ServedFacts(p: RsModel, r: Req)
    requires Served(p, r)
    ensures r.tAdmit.Some? && r.tDone.Some? && 0.0 <= r.progress <= r.demand
  {
    hide Slow, Tol;
  }

  // ---- the rate, written out ---------------------------------------------------------------------------

  /** Each of b running requests is slowed down by the b - 1 others. */
  lemma RateIs(p: RsModel, b: nat)
    requires b >= 1
    ensures Slow(p, b) == 1.0 + p.contention * ((b - 1) as real) >= 1.0
    ensures Rate(p, b) == 1.0 / (1.0 + p.contention * ((b - 1) as real))
  {
    SlowPositive(p, b);
  }

  lemma TimesReciprocal(x: real, y: real)
    requires y > 0.0
    ensures x * (1.0 / y) == x / y
  {}

  lemma DeliveredIs(p: RsModel, e: Engine, l: real, t: real)
    requires e.lastT == Some(l) && e.running != []
    ensures Delivered(p, e, t) == (t - l) / (1.0 + p.contention * ((|e.running| - 1) as real))
  {
    RateIs(p, |e.running|);
    TimesReciprocal(t - l, 1.0 + p.contention * ((|e.running| - 1) as real));
  }

  /** Integrating from l to t gives each request of a batch of b exactly the time divided by its slow-down, and
      changes nothing else about it but its completion. */
  lemma {:induction false} AdvanceExactly(p: RsModel, e: Engine, l: real, t: real, i: nat) returns (x: Req)
    requires e.lastT == Some(l) && l < t && i < |e.running| && !e.running[i].Done()
    ensures var e', b := Advance(p, e, t), |e.running|;
            && (x in e'.running || x in e'.fin)
            && x.(tDone := None) == e.running[i].(progress := x.progress)
            && x.progress == e.running[i].progress + (t - l) / (1.0 + p.contention * ((b - 1) as real))
  {
    hide Tol, Slow, Rate, Delivered;
    DeliveredIs(p, e, l, t);
    x := Deliver(e.running[i], Delivered(p, e, t), t);
    hide Deliver;
    assert Stepped(p, e, t)[i] == x && x in Stepped(p, e, t);
  }

  /** When r will have received its demand, slowed down by the rest of a batch of b since l. */
  function Finish(r: Req, l: real, contention: real, b: int): real {
    l + (r.demand - r.progress) * (1.0 + contention * ((b - 1) as real))
  }

  /** The clock of a batch is the first instant at which one of its requests will have received its demand. */
  lemma {:induction false} ClockWritten(p: RsModel, e: Engine, now: real)
    requires RsInv(p, e, now) && e.running != []
    ensures e.next.At? && e.lastT.Some?
    ensures forall r :: r in e.running ==> e.next.t <= Finish(r, e.lastT.value, p.contention, |e.running|)
    ensures exists r :: r in e.running && e.next.t == Finish(r, e.lastT.value, p.contention, |e.running|)
  {
    hide RsInv, Slow, Rate, Finish;
    forall r | r in e.running
      ensures e.lastT.Some? && e.next.At? && e.next.t <= Finish(r, e.lastT.value, p.contention, |e.running|)
      ensures MinLeft(e.running) == LeftOver(r) ==> e.next.t == Finish(r, e.lastT.value, p.contention, |e.running|)
    {
      FinishOf(p, e, now, r);
    }
    assert e.running[0] in e.running;
    var r :| r in e.running && MinLeft(e.running) == LeftOver(r);
  }

  lemma FinishOf(p: RsModel, e: Engine, now: real, r: Req)
    requires RsInv(p, e, now) && r in e.running
    ensures e.lastT.Some? && e.next.At? && e.next.t <= Finish(r, e.lastT.value, p.contention, |e.running|)
    ensures MinLeft(e.running) == LeftOver(r) ==> e.next.t == Finish(r, e.lastT.value, p.contention, |e.running|)
  {
    hide RsInv, Slow, Rate, Finish, MinLeft, LeftOver;
    var slow := SlowDown(p, |e.running|);
    ClockAtMin(p, e, now, slow);
    StillNeeds(p, e, now, r);
    FinishIs(r, e.lastT.value, p.contention, |e.running|, slow);
    Bigger(MinLeft(e.running), r.demand - r.progress, slow);
  }

  lemma SlowDown(p: RsModel, b: nat) returns (slow: real)
    requires b >= 1
    ensures slow == 1.0 + p.contention * ((b - 1) as real) && slow >= 1.0 && Rate(p, b) == 1.0 / slow
  {
    RateIs(p, b);
    slow := 1.0 + p.contention * ((b - 1) as real);
  }

  lemma FinishIs(r: Req, l: real, contention: real, b: int, slow: real)
    requires slow == 1.0 + contention * ((b - 1) as real)
    ensures Finish(r, l, contention, b) == l + (r.demand - r.progress) * slow
  {}

  lemma StillNeeds(p: RsModel, e: Engine, now: real, r: Req)
    requires RsInv(p, e, now) && r in e.running
    ensures e.lastT.Some? && LeftOver(r) == r.demand - r.progress && MinLeft(e.running) <= LeftOver(r)
  {
    hide ClockExact, Increasing, AdmitMonotone, GoodRequest, Sum, Slow;
    assert Serving(p, r, e.lastT.value) && Tol(r) >= 0.0;
  }

  lemma ClockAtMin(p: RsModel, e: Engine, now: real, slow: real)
    requires RsInv(p, e, now) && e.running != [] && slow >= 1.0 && Rate(p, |e.running|) == 1.0 / slow
    ensures e.lastT.Some? && e.next == At(e.lastT.value + MinLeft(e.running) * slow)
  {
    hide Core, Slow, Rate, MinLeft;
    OverReciprocal(MinLeft(e.running), slow);
  }

  lemma OverReciprocal(x: real, s: real)
    requires s > 0.0
    ensures x / (1.0 / s) == x * s
  {
    var q := 1.0 / s;
    assert q * s == 1.0;
    var y := x / q;
    assert y * q == x;
    assert y == y * (q * s) == (y * q) * s;
  }

  lemma Bigger(x: real, y: real, s: real)
    requires x <= y && s >= 0.0
    ensures x * s <= y * s
  {}

  // ---- a request alone in service -------------------------------------------------------------------------

  /** No other request of the engine was in service with q between its admission and u. */
  ghost predicate Alone(e: Engine, q: Req, u: real) {
    q.tAdmit.Some? && forall x :: e.Has(x) && Desc(x) != Desc(q) && x.tAdmit.Some? ==>
      (x.tDone.Some? && x.tDone.value <= q.tAdmit.value) || x.tAdmit.value >= u
  }

  /** What has run alone so far has received every second since its admission; and the first output, the only one,
      comes with admission. */
  ghost predicate Steady(e: Engine) {
    && (forall q :: q in e.running ==>
          e.lastT.Some? && (Alone(e, q, e.lastT.value) ==> q.progress == e.lastT.value - q.tAdmit.value))
    && (forall q :: q in e.fin ==>
          && q.tDone.Some? && e.lastT.Some? && q.tDone.value <= e.lastT.value
          && (Alone(e, q, q.tDone.value) ==> q.progress == q.tDone.value - q.tAdmit.value))
    && (forall q :: e.Has(q) ==> q.nTbt == 0 && q.tFirst == q.tAdmit && q.tLast == q.tFirst)
  }

  /** Two requests in line are different ones. */
  lemma LineDistinct(e: Engine, a: Req, b: Req, i: nat, j: nat)
    requires Increasing(e.Line()) && i < |e.running| && j < |e.running| && i != j
    requires e.running[i] == a && e.running[j] == b
    ensures Desc(a) != Desc(b)
  {
    assert e.Line()[i] == a && e.Line()[j] == b;
    assert Before(e.Line()[i], e.Line()[j]) || Before(e.Line()[j], e.Line()[i]);
  }

  /** Two that were in service together are not alone. */
  lemma {:induction false} NotAlone(p: RsModel, e: Engine, l: real, t: real, i: nat, j: nat, q': Req)
    requires Increasing(e.Line()) && e.lastT == Some(l) && l < t && i < |e.running| && j < |e.running| && i != j
    requires forall r :: r in e.running ==> r.tAdmit.Some? && r.tAdmit.value <= l && !r.Done()
    requires Desc(q') == Desc(e.running[i]) && q'.tAdmit == e.running[i].tAdmit
    ensures !Alone(Advance(p, e, t), q', t)
  {
    hide Tol, Slow, Rate, Delivered;
    LineDistinct(e, e.running[j], e.running[i], j, i);
    var x, e' := Stepped(p, e, t)[j], Advance(p, e, t);
    assert e.running[i] in e.running && e.running[j] in e.running;
    assert x in Stepped(p, e, t) && e'.Has(x);
    assert Desc(x) == Desc(e.running[j]) && x.tAdmit == e.running[j].tAdmit && (x.tDone.None? || x.tDone == Some(t));
  }

  /** A request alone after integration was alone before, in a batch of one. */
  lemma {:induction false} AloneBefore(p: RsModel, e: Engine, l: real, t: real, i: nat, q': Req)
    requires Increasing(e.Line()) && e.lastT == Some(l) && l < t && i < |e.running|
    requires forall r :: r in e.running ==> r.tAdmit.Some? && r.tAdmit.value <= l && !r.Done()
    requires forall r :: r in e.slot ==> r.tAdmit.None?
    requires Desc(q') == Desc(e.running[i]) && q'.tAdmit == e.running[i].tAdmit
    requires Alone(Advance(p, e, t), q', t)
    ensures |e.running| == 1 && Alone(e, e.running[i], l)
  {
    hide Tol, Slow, Rate, Delivered;
    var q, e' := e.running[i], Advance(p, e, t);
    if |e.running| > 1 { NotAlone(p, e, l, t, i, if i == 0 then 1 else 0, q'); }
    forall x | e.Has(x) && Desc(x) != Desc(q) && x.tAdmit.Some?
      ensures (x.tDone.Some? && x.tDone.value <= q.tAdmit.value) || x.tAdmit.value >= l
    {
      if x in e.fin { assert e'.Has(x); }
    }
  }

  /** What had completed before is alone after integration only if it was before. */
  lemma {:induction false} AloneStill(p: RsModel, e: Engine, l: real, t: real, q: Req)
    requires e.lastT == Some(l) && l < t && e.running != [] && q in e.fin
    requires q.tDone.Some? && q.tAdmit.Some? && q.tAdmit.value <= q.tDone.value <= l
    requires Alone(Advance(p, e, t), q, q.tDone.value)
    ensures Alone(e, q, q.tDone.value)
  {
    hide Tol, Slow, Rate, Delivered;
    var e' := Advance(p, e, t);
    forall x | e.Has(x) && Desc(x) != Desc(q) && x.tAdmit.Some?
      ensures (x.tDone.Some? && x.tDone.value <= q.tAdmit.value) || x.tAdmit.value >= q.tDone.value
    {
      if x in e.running {
        var j :| 0 <= j < |e.running| && e.running[j] == x;
        var x' := Stepped(p, e, t)[j];
        assert x' in Stepped(p, e, t) && e'.Has(x');
        assert Desc(x') == Desc(x) && x'.tAdmit == x.tAdmit && (x'.tDone == x.tDone || x'.tDone == Some(t));
      } else {
        assert e'.Has(x);
      }
    }
  }

  /** What the invariant says of stamps. */
  lemma {:induction false} StampFacts(p: RsModel, e: Engine, now: real)
    requires Core(p, e, now)
    ensures Increasing(e.Line())
    ensures e.running != [] ==> e.lastT.Some?
    ensures forall r :: r in e.running ==> e.lastT.Some? && r.tAdmit.Some? && r.tAdmit.value <= e.lastT.value && !r.Done()
    ensures forall r :: r in e.slot ==> r.tAdmit.None?
    ensures forall r :: r in e.fin ==> r.tDone.Some? && r.tAdmit.Some? && r.tAdmit.value <= r.tDone.value
    ensures e.lastT.Some? ==> e.lastT.value <= now
  {
    hide AdmitMonotone, GoodRequest, Sum, Slow, Tol;
    forall r | r in e.fin ensures r.tDone.Some? && r.tAdmit.Some? && r.tAdmit.value <= r.tDone.value {
      assert Served(p, r);
    }
    forall r | r in e.running ensures e.lastT.Some? && r.tAdmit.Some? && r.tAdmit.value <= e.lastT.value {
      assert Serving(p, r, e.lastT.value);
    }
    forall r | r in e.slot ensures r.tAdmit.None? { assert Waiting(r); }
  }

  lemma {:induction false} SoloProgress(p: RsModel, e: Engine, l: real, t: real, i: nat, q': Req)
    requires Increasing(e.Line()) && Steady(e) && e.lastT == Some(l) && l < t && i < |e.running|
    requires forall r :: r in e.running ==> r.tAdmit.Some? && r.tAdmit.value <= l && !r.Done()
    requires forall r :: r in e.slot ==> r.tAdmit.None?
    requires q' == Stepped(p, e, t)[i] && Alone(Advance(p, e, t), q', t)
    ensures q'.progress == t - q'.tAdmit.value
  {
    hide Tol, Steady, Alone, Advance;
    AloneBefore(p, e, l, t, i, q');
    RateIs(p, 1);
    SteadyRuns(e, e.running[i]);
  }

  lemma SteadyRuns(e: Engine, q: Req)
    requires Steady(e) && q in e.running && e.lastT.Some? && Alone(e, q, e.lastT.value)
    ensures q.tAdmit.Some? && q.progress == e.lastT.value - q.tAdmit.value
  {}

  lemma {:induction false} AdvanceSteady(p: RsModel, e: Engine, now: real, t: real)
    requires Core(p, e, now) && now <= t && Steady(e)
    ensures Steady(Advance(p, e, t))
  {
    hide Core, Tol, Slow, Rate, Delivered, Alone;
    StampFacts(p, e, now);
    var e' := Advance(p, e, t);
    if e.running != [] && e.lastT.value < t {
      var l := e.lastT.value;
      forall q' | q' in Stepped(p, e, t)
        ensures q'.nTbt == 0 && q'.tFirst == q'.tAdmit && q'.tLast == q'.tFirst
        ensures Alone(e', q', t) ==> q'.progress == t - q'.tAdmit.value
      {
        var i :| 0 <= i < |e.running| && Stepped(p, e, t)[i] == q';
        assert e.Has(e.running[i]);
        if Alone(e', q', t) { SoloProgress(p, e, l, t, i, q'); }
      }
      forall q | q in e.fin && Alone(e', q, q.tDone.value) ensures Alone(e, q, q.tDone.value) {
        AloneStill(p, e, l, t, q);
      }
      SteppedStamps(p, e, t);
      forall q | q in e'.fin && q !in e.fin ensures q in Stepped(p, e, t) && q.tDone == Some(t) {}
      forall q | e'.Has(q) ensures q.nTbt == 0 && q.tFirst == q.tAdmit && q.tLast == q.tFirst {
        if q !in Stepped(p, e, t) { assert e.Has(q); }
      }
    } else {
      SameAlone(e, e');
    }
  }

  lemma SteppedStamps(p: RsModel, e: Engine, t: real)
    requires e.lastT.Some? && forall r :: r in e.running ==> !r.Done()
    ensures forall s :: s in Stepped(p, e, t) && s.Done() ==> s.tDone == Some(t)
  {
    hide Tol, Slow, Rate, Delivered;
    forall s | s in Stepped(p, e, t) && s.Done() ensures s.tDone == Some(t) {
      var i :| 0 <= i < |e.running| && Stepped(p, e, t)[i] == s;
      assert e.running[i] in e.running;
    }
  }

  /** Clocks and flags do not matter. */
  lemma SameAlone(e: Engine, e': Engine)
    requires e'.running == e.running && e'.slot == e.slot && e'.fin == e.fin
    ensures forall q, u: real :: Alone(e', q, u) == Alone(e, q, u)
    ensures forall q :: e'.Has(q) == e.Has(q)
  {
    forall q ensures e'.Has(q) == e.Has(q) {}
  }

  lemma {:induction false} HeadSteady(p: RsModel, e: Engine, t: real)
    requires Core(p, e, t) && e.lastT == Some(t) && e.slot != [] && Steady(e)
    ensures Steady(AdmitHead(e, t))
  {
    StampFacts(p, e, t);
    hide Core;
    var e', x, h := AdmitHead(e, t), e.slot[0], Begin(e.slot[0], t);
    assert e.Has(x) && x in e.slot && Waits(p, e, t, x);
    forall q | e'.Has(q) ensures q == h || e.Has(q) {}
    forall q, u: real | q != h && Alone(e', q, u) ensures Alone(e, q, u) {
      forall y | e.Has(y) && Desc(y) != Desc(q) && y.tAdmit.Some?
        ensures (y.tDone.Some? && y.tDone.value <= q.tAdmit.value) || y.tAdmit.value >= u
      {
        assert e'.Has(y);
      }
    }
  }

  predicate Waits(p: RsModel, e: Engine, t: real, x: Req) { x.tAdmit.None? }

  lemma {:induction false} AdmitSteady(p: RsModel, e: Engine, t: real)
    requires Core(p, e, t) && e.lastT == Some(t) && Steady(e)
    ensures Steady(AdmitAll(p, e, t))
    decreases |e.slot|
  {
    hide Core, Steady;
    if e.slot != [] && CanAdmit(p, e) {
      AdmitKeeps(p, e, t);
      HeadSteady(p, e, t);
      AdmitSteady(p, AdmitHead(e, t), t);
    }
  }

  lemma SteadySame(e: Engine, e': Engine)
    requires Steady(e) && e'.running == e.running && e'.slot == e.slot && e'.fin == e.fin && e'.lastT == e.lastT
    ensures Steady(e')
  {
    SameAlone(e, e');
    hide Alone;
  }

  lemma {:induction false} StepSteady(p: RsModel, e: Engine, now: real, t: real)
    requires RsInv(p, e, now) && InTime(e, now, t) && Steady(e)
    ensures Steady(ServiceStep(p, e, t))
  {
    hide Core, Steady, Rate, MinLeft;
    AdvanceSteady(p, e, now, t);
    SteadySame(Advance(p, e, t), ServiceStep(p, e, t));
  }

  lemma {:induction false} TickSteady(p: RsModel, e: Engine, now: real, t: real)
    requires RsInv(p, e, now) && InTime(e, now, t) && Steady(e)
    ensures Steady(OnTick(p, e, t))
  {
    hide Core, Steady, Rate, MinLeft, ClockExact;
    AdvanceSteady(p, e, now, t);
    AdvanceKeeps(p, e, now, t);
    AdmitSteady(p, Advance(p, e, t), t);
    SteadySame(AdmitAll(p, Advance(p, e, t), t), OnTick(p, e, t));
  }

  lemma PushSteady(e: Engine, r: Req)
    requires Steady(e) && Fresh(r)
    ensures Steady(PushBack(e, r))
  {
    var e' := PushBack(e, r);
    forall q ensures e'.Has(q) <==> e.Has(q) || q == r {}
    forall q, u: real | Alone(e', q, u) ensures Alone(e, q, u) {}
    hide Alone;
  }
}
