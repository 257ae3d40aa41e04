/** The event-driven request server refines a first-come first-served queue with several servers: on a replica that is
    never drained, every request is admitted at the first instant at which fewer requests ahead of it are unfinished
    than there are servers. */
module FifoService {
  import opened Numbers
  import opened Requests
  import opened ReplicaEngines
  import opened ReplicaPool
  import opened Simulator
  import opened SimulatorInvariant
  import opened SimulatorRuns
  import opened ReachableStates
  import opened RequestHistory
  import opened Draining
  import opened DrainRuns
  import R = RequestService

  // ---- the reference queue --------------------------------------------------------------------------------------

  /** x has not finished by u. */
  predicate Open(x: Req, u: real) { x.tDone.None? || x.tDone.value > u }

  /** How many of the requests rs come before q and have not finished by u. */
  function Ahead(rs: seq<Req>, q: Req, u: real): nat {
    if rs == [] then 0 else (if Before(rs[0], q) && Open(rs[0], u) then 1 else 0) + Ahead(rs[1..], q, u)
  }

  /** When q is there to be served: at its arrival, or at the first instant of an episode that it arrived with. */
  function From(q: Req, start: real): real { Max(q.tArrival, start) }

  /** Up to now, a queue with m servers that takes requests in dispatch order, each at the first instant at which
      fewer than m of those ahead of it are unfinished: fewer are when a request is admitted, and never from its
      arrival up to then. */
  ghost predicate Fifo(m: nat, e: Engine, now: real, start: real) {
    forall q :: e.Has(q) ==>
      && (q.tAdmit.Some? ==> Ahead(e.Held(), q, q.tAdmit.value) < m)
      && forall u: real :: From(q, start) <= u <= now && (q.tAdmit.Some? ==> u < q.tAdmit.value) ==>
           Ahead(e.Held(), q, u) >= m
  }

  // ---- counting ----------------------------------------------------------------------------------------------------

  lemma {:induction false} AheadAppend(a: seq<Req>, b: seq<Req>, q: Req, u: real)
    ensures Ahead(a + b, q, u) == Ahead(a, q, u) + Ahead(b, q, u)
  {
    if a == [] { assert a + b == b; } else {
      assert (a + b)[1..] == a[1..] + b;
      AheadAppend(a[1..], b, q, u);
    }
  }

  /** Of requests that are all unfinished, only which ones they are matters. */
  lemma {:induction false} AheadPermuted(a: seq<Req>, b: seq<Req>, q: Req, q': Req, u: real)
    requires multiset(Descs(a)) == multiset(Descs(b)) && Desc(q) == Desc(q')
    requires AllOpen(a, u) && AllOpen(b, u)
    ensures Ahead(a, q, u) == Ahead(b, q', u)
    decreases |a|
  {
    hide Descs, Ahead, AllOpen, Before, Desc, Open;
    if a == [] {
      NoDescs(b);
      SameAhead(b, q, q', u);
    } else {
      var k := FindDesc(a, b);
      Without(a, 0, q, u);
      Without(b, k, q', u);
      Cancel(multiset{Desc(a[0])}, multiset(Descs(Rest(a, 0))), multiset(Descs(Rest(b, k))));
      SameBefore(a[0], b[k], q, q');
      AheadPermuted(Rest(a, 0), Rest(b, k), q, q', u);
    }
  }

  /** A list without its k-th element. */
  function Rest(rs: seq<Req>, k: nat): (rest: seq<Req>)
    requires k < |rs|
    ensures |rest| == |rs| - 1
  {
    rs[..k] + rs[k + 1..]
  }

  /** Taking one request out of a list. */
  lemma {:induction false} Without(rs: seq<Req>, k: nat, q: Req, u: real)
    requires k < |rs| && AllOpen(rs, u)
    ensures multiset(Descs(rs)) == multiset{Desc(rs[k])} + multiset(Descs(Rest(rs, k)))
    ensures Ahead(rs, q, u) == Ahead(Rest(rs, k), q, u) + (if Before(rs[k], q) then 1 else 0)
    ensures AllOpen(Rest(rs, k), u)
  {
    var a, x, b := rs[..k], rs[k], rs[k + 1..];
    assert rs == a + [x] + b;
    DescsAppend(a + [x], b);
    DescsAppend(a, [x]);
    DescsAppend(a, b);
    assert Descs([x]) == [Desc(x)];
    AheadAppend(a + [x], b, q, u);
    AheadAppend(a, [x], q, u);
    AheadAppend(a, b, q, u);
    assert Ahead([x], q, u) == (if Before(x, q) then 1 else 0) by { assert [x][1..] == []; }
  }

  ghost predicate AllOpen(rs: seq<Req>, u: real) { forall i :: 0 <= i < |rs| ==> Open(rs[i], u) }

  lemma NoDescs(b: seq<Req>)
    requires multiset(Descs([])) == multiset(Descs(b))
    ensures b == []
  {
    assert |multiset(Descs(b))| == |b|;
  }

  lemma FindDesc(a: seq<Req>, b: seq<Req>) returns (k: nat)
    requires a != [] && multiset(Descs(a)) == multiset(Descs(b))
    ensures k < |b| && Desc(b[k]) == Desc(a[0])
  {
    assert Descs(a)[0] in multiset(Descs(b));
    k :| 0 <= k < |b| && Descs(b)[k] == Descs(a)[0];
  }

  lemma SameBefore(x: Req, y: Req, q: Req, q': Req)
    requires Desc(x) == Desc(y) && Desc(q) == Desc(q')
    ensures Before(x, q) == Before(y, q')
  {}

  lemma {:induction false} NoneAhead(rs: seq<Req>, q: Req, u: real)
    requires forall x :: x in rs ==> !Open(x, u) || !Before(x, q)
    ensures Ahead(rs, q, u) == 0
  {
    if rs != [] { NoneAhead(rs[1..], q, u); }
  }

  lemma {:induction false} AllAhead(rs: seq<Req>, q: Req, u: real)
    requires forall x :: x in rs ==> Open(x, u) && Before(x, q)
    ensures Ahead(rs, q, u) == |rs|
  {
    if rs != [] { AllAhead(rs[1..], q, u); }
  }

  /** In a line of unfinished requests a request has its place ahead of it. */
  lemma {:induction false} AheadInLine(line: seq<Req>, i: nat, u: real)
    requires Increasing(line) && i < |line| && forall x :: x in line ==> Open(x, u)
    ensures Ahead(line, line[i], u) == i
  {
    assert line == line[..i] + line[i..];
    AheadAppend(line[..i], line[i..], line[i], u);
    AllAhead(line[..i], line[i], u);
    forall x | x in line[i..] ensures !Before(x, line[i]) {
      var k :| 0 <= k < |line[i..]| && line[i..][k] == x;
      if k > 0 { assert Before(line[i], line[i + k]); }
    }
    NoneAhead(line[i..], line[i], u);
  }

  /** Nothing on an engine's books has finished after `now`; what is in line has not finished at all. */
  lemma {:induction false} AheadOnEngine(e: Engine, now: real, i: nat, u: real)
    requires Stamped(e, now) && Increasing(e.Line()) && i < |e.Line()| && u >= now
    ensures Ahead(e.Held(), e.Line()[i], u) == i
  {
    assert e.Held() == e.fin + e.Line();
    AheadAppend(e.fin, e.Line(), e.Line()[i], u);
    NoneAhead(e.fin, e.Line()[i], u);
    AheadInLine(e.Line(), i, u);
  }

  /** An event at t does not change what was unfinished before it. */
  lemma {:induction false} AheadKept(e: Engine, e': Engine, now: real, t: real, q: Req, q': Req, u: real)
    requires Stamped(e, now) && Stamped(e', t) && u < t && Desc(q) == Desc(q')
    requires e.fin <= e'.fin && forall r :: r in e'.fin[|e.fin|..] ==> r.tDone == Some(t)
    requires multiset(Descs(e'.Held())) == multiset(Descs(e.Held()))
    ensures Ahead(e'.Held(), q', u) == Ahead(e.Held(), q, u)
  {
    hide Ahead, Descs, Desc;
    var newly := e'.fin[|e.fin|..];
    assert e.Held() == e.fin + e.Line();
    assert e'.Held() == e.fin + (newly + e'.Line());
    KeptDescs(e.fin, newly + e'.Line(), e.Line());
    StillOpen([], e, now, u);
    StillOpen(newly, e', t, u);
    assert [] + e.Line() == e.Line();
    AheadAppend(e.fin, e.Line(), q, u);
    AheadAppend(e.fin, newly + e'.Line(), q', u);
    AheadPermuted(newly + e'.Line(), e.Line(), q', q, u);
    SameAhead(e.fin, q, q', u);
  }

  lemma StillOpen(newly: seq<Req>, e: Engine, t: real, u: real)
    requires Stamped(e, t) && forall r :: r in newly ==> Open(r, u)
    ensures AllOpen(newly + e.Line(), u)
  {
    var line := newly + e.Line();
    forall i | 0 <= i < |line| ensures Open(line[i], u) {
      if i < |newly| {
        assert line[i] in newly;
      } else {
        assert line[i] in e.running || line[i] in e.slot;
      }
    }
  }

  lemma KeptDescs(f: seq<Req>, x: seq<Req>, y: seq<Req>)
    requires multiset(Descs(f + x)) == multiset(Descs(f + y))
    ensures multiset(Descs(x)) == multiset(Descs(y))
  {
    DescsAppend(f, x);
    DescsAppend(f, y);
    Cancel(multiset(Descs(f)), multiset(Descs(x)), multiset(Descs(y)));
  }

  lemma Cancel(f: multiset<Req>, x: multiset<Req>, y: multiset<Req>)
    requires f + x == f + y
    ensures x == y
  {
    forall r ensures x[r] == y[r] { assert (f + x)[r] == (f + y)[r]; }
  }

  lemma {:induction false} SameAhead(rs: seq<Req>, q: Req, q': Req, u: real)
    requires Desc(q) == Desc(q')
    ensures Ahead(rs, q, u) == Ahead(rs, q', u)
  {
    if rs != [] { SameAhead(rs[1..], q, q', u); }
  }

  // ---- one engine -------------------------------------------------------------------------------------------------------

  /** What waits has not been admitted, and has as many ahead of it as it has before it in line. */
  lemma {:induction false} PlaceInLine(p: R.RsModel, e: Engine, now: real, q: Req, u: real) returns (i: nat)
    requires R.RsInv(p, e, now) && q in e.slot && u >= now
    ensures q.tAdmit.None? && |e.running| <= i < |e.Line()| && e.Line()[i] == q && Ahead(e.Held(), q, u) == i
  {
    hide R.Serving, R.Served, AdmitMonotone, R.GoodRequest, R.ClockExact, Ahead;
    var k :| 0 <= k < |e.slot| && e.slot[k] == q;
    i := |e.running| + k;
    assert R.Waiting(q);
    AheadOnEngine(e, now, i, u);
  }

  /** Time passing without an event: whoever waits still has every server busy ahead of it. */
  lemma {:induction false} FifoLater(p: R.RsModel, e: Engine, now: real, t: real, start: real)
    requires R.RsInv(p, e, now) && R.AdmissionMaximal(p, e) && Fifo(p.maxConc, e, now, start) && now <= t
    ensures Fifo(p.maxConc, e, t, start)
  {
    forall q | e.Has(q) && q.tAdmit.None? ensures q in e.slot { AdmittedInBatch(p, e, now, q); }
    forall q, u: real | e.Has(q) && From(q, start) <= u <= t && (q.tAdmit.Some? ==> u < q.tAdmit.value)
      ensures Ahead(e.Held(), q, u) >= p.maxConc
    {
      if u > now {
        if q.tAdmit.Some? { AdmittedBefore(p, e, now, q); } else { var i := PlaceInLine(p, e, now, q, u); }
      }
    }
  }

  lemma AdmittedInBatch(p: R.RsModel, e: Engine, now: real, q: Req)
    requires R.RsInv(p, e, now) && e.Has(q) && q.tAdmit.None?
    ensures q in e.slot
  {}

  lemma AdmittedBefore(p: R.RsModel, e: Engine, now: real, q: Req)
    requires R.RsInv(p, e, now) && e.Has(q) && q.tAdmit.Some?
    ensures q.tAdmit.value <= now && q !in e.slot
  {}

  // ---- one event on one engine ---------------------------------------------------------------------------------------------

  /** Whatever may join the queue at t did not wait before t; whoever waited longer has every server busy ahead. */
  ghost predicate Crowded(p: R.RsModel, e: Engine, t: real, start: real) {
    forall q :: q in e.slot && From(q, start) < t ==> |e.running| == p.maxConc
  }

  /** A request that comes after all others joins the queue. */
  lemma {:induction false} FifoPush(p: R.RsModel, e: Engine, x: Req, now: real, t: real, start: real)
    requires Fifo(p.maxConc, e, now, start) && Crowded(p, e, t, start) && ReplicaEngines.Newest(e, x)
    requires x.tAdmit.None? && From(x, start) >= t > now
    ensures Fifo(p.maxConc, PushBack(e, x), now, start) && Crowded(p, PushBack(e, x), t, start)
  {
    hide Ahead;
    var e' := PushBack(e, x);
    assert e'.Held() == e.Held() + [x];
    forall q, u: real | e.Has(q) ensures Ahead(e'.Held(), q, u) == Ahead(e.Held(), q, u) {
      AheadAppend(e.Held(), [x], q, u);
      assert Before(q, x);
      NoneAhead([x], q, u);
    }
    forall q | e'.Has(q) ensures e.Has(q) || q == x {}
  }

  /** Who was admitted by now, or is admitted at t. */
  ghost predicate StampedAt(e: Engine, now: real, t: real) {
    && (forall r :: r in e.fin ==> r.tAdmit.Some? && r.tAdmit.value <= now)
    && (forall r :: r in e.running ==> r.tAdmit.Some? && (r.tAdmit.value <= now || r.tAdmit.value == t))
    && (forall r :: r in e.slot ==> r.tAdmit.None?)
  }

  lemma {:induction false} AdmitAllStamps(p: R.RsModel, e: Engine, now: real, t: real)
    requires StampedAt(e, now, t)
    ensures StampedAt(R.AdmitAll(p, e, t), now, t)
    decreases |e.slot|
  {
    if e.slot != [] && R.CanAdmit(p, e) { AdmitAllStamps(p, R.AdmitHead(e, t), now, t); }
  }

  lemma {:induction false} AdvanceStamps(p: R.RsModel, e: Engine, now: real, t: real)
    requires R.RsInv(p, e, now)
    ensures StampedAt(R.Advance(p, e, t), now, t)
  {
    hide R.Delivered, R.Serving, R.Served, AdmitMonotone, R.GoodRequest, R.ClockExact, Increasing, R.Tol, Sum;
    forall r | r in e.slot ensures r.tAdmit.None? { assert R.Waiting(r); }
    forall r | e.Has(r) && r.tAdmit.Some? ensures r.tAdmit.value <= now {}
    if e.lastT.Some? {
      forall x | x in R.Stepped(p, e, t) ensures x.tAdmit.Some? && x.tAdmit.value <= now {
        var i :| 0 <= i < |e.running| && R.Stepped(p, e, t)[i] == x;
        assert e.Has(e.running[i]);
      }
    }
  }

  lemma RescheduleStamps(p: R.RsModel, e: Engine, now: real, t: real, u: real)
    requires StampedAt(e, now, t)
    ensures StampedAt(R.Reschedule(p, e, u), now, t)
  {
    hide R.Rate, R.MinLeft;
  }

  /** Admissions carry the time of the event that makes them, and put a request into the batch. */
  lemma {:induction false} ServeStamps(p: R.RsModel, e: Engine, now: real, t: real)
    requires R.RsInv(p, e, now)
    ensures StampedAt(Serve(Rs(p), e, t), now, t)
  {
    hide R.RsInv, StampedAt, R.Advance, R.AdmitAll, R.Reschedule;
    AdvanceStamps(p, e, now, t);
    var a := R.Advance(p, e, t);
    if e.running != [] && Due(e.next, t) {
      var e1 := R.ServiceStep(p, e, t);
      RescheduleStamps(p, a, now, t, t);
      StepStamps(p, e, t);
      AdvanceAgain(p, e1, t);
      AdmitAllStamps(p, e1, now, t);
      RescheduleStamps(p, R.AdmitAll(p, e1, t), now, t, t);
    } else {
      AdmitAllStamps(p, a, now, t);
      RescheduleStamps(p, R.AdmitAll(p, a, t), now, t, t);
    }
  }

  /** Before t, a request not admitted by now has every server busy ahead of it. */
  lemma {:induction false} WaitsBehind(p: R.RsModel, e: Engine, now: real, t: real, start: real, q: Req, u: real)
    requires R.RsInv(p, e, now) && Fifo(p.maxConc, e, now, start) && Crowded(p, e, t, start)
    requires e.Has(q) && q.tAdmit.None? && From(q, start) <= u < t
    ensures Ahead(e.Held(), q, u) >= p.maxConc
  {
    hide R.RsInv, Ahead;
    AdmittedInBatch(p, e, now, q);
    if u > now { var i := PlaceInLine(p, e, now, q, u); }
  }

  /** At t, the batch is what has fewer than maxConc requests ahead. */
  lemma {:induction false} BatchAhead(p: R.RsModel, e: Engine, t: real, q: Req)
    requires R.RsInv(p, e, t) && q in e.running
    ensures Ahead(e.Held(), q, t) < p.maxConc
  {
    hide R.Serving, R.Served, AdmitMonotone, R.GoodRequest, R.ClockExact, Ahead;
    var i :| 0 <= i < |e.running| && e.running[i] == q;
    assert e.Line()[i] == q;
    AheadOnEngine(e, t, i, t);
  }

  /** One request across one event. */
  lemma {:induction false} FifoOne(p: R.RsModel, e: Engine, e': Engine, now: real, t: real, start: real, q: Req, q': Req)
    requires R.RsInv(p, e, now) && R.RsInv(p, e', t) && now < t && R.AdmissionMaximal(p, e')
    requires Fifo(p.maxConc, e, now, start) && Crowded(p, e, t, start) && StampedAt(e', now, t)
    requires e.Has(q) && e'.Has(q') && Later(q, q', now, t)
    requires forall u: real :: u < t ==> Ahead(e'.Held(), q', u) == Ahead(e.Held(), q, u)
    ensures q'.tAdmit.Some? ==> Ahead(e'.Held(), q', q'.tAdmit.value) < p.maxConc
    ensures forall u: real :: From(q', start) <= u <= t && (q'.tAdmit.Some? ==> u < q'.tAdmit.value) ==>
              Ahead(e'.Held(), q', u) >= p.maxConc
  {
    hide R.RsInv, Ahead, Crowded;
    assert From(q, start) == From(q', start);
    if q.tAdmit.Some? {
      AdmittedBefore(p, e, now, q);
    } else {
      forall u: real | From(q', start) <= u < t ensures Ahead(e'.Held(), q', u) >= p.maxConc {
        WaitsBehind(p, e, now, t, start, q, u);
      }
      if q'.tAdmit.Some? {
        BatchAhead(p, e', t, q');
      } else {
        AdmittedInBatch(p, e', t, q');
        var i := PlaceInLine(p, e', t, q', t);
      }
    }
  }

  /** An event keeps the order of service. */
  lemma {:induction false} FifoServe(p: R.RsModel, e: Engine, now: real, t: real, start: real)
    requires R.RsInv(p, e, now) && InTime(e, now, t) && now < t && e.accepting
    requires Fifo(p.maxConc, e, now, start) && Crowded(p, e, t, start)
    ensures Fifo(p.maxConc, Serve(Rs(p), e, t), t, start)
  {
    hide R.RsInv, Ahead, Crowded, Serve, StampedAt, Later, Descs;
    var e' := Serve(Rs(p), e, t);
    RsServes(p, e, now, t);
    RsServeLater(p, e, now, t);
    ServeStamps(p, e, now, t);
    RsStamped(p, e, now);
    RsStamped(p, e', t);
    forall q' | e'.Has(q')
      ensures q'.tAdmit.Some? ==> Ahead(e'.Held(), q', q'.tAdmit.value) < p.maxConc
      ensures forall u: real :: From(q', start) <= u <= t && (q'.tAdmit.Some? ==> u < q'.tAdmit.value) ==>
                Ahead(e'.Held(), q', u) >= p.maxConc
    {
      var q :| e.Has(q) && Later(q, q', now, t);
      forall u: real | u < t ensures Ahead(e'.Held(), q', u) == Ahead(e.Held(), q, u) {
        LaterDesc(q, q', now, t);
        AheadKept(e, e', now, t, q, q', u);
      }
      FifoOne(p, e, e', now, t, start, q, q');
    }
  }

  lemma LaterDesc(q: Req, q': Req, now: real, t: real)
    requires Later(q, q', now, t)
    ensures Desc(q) == Desc(q')
  {}

  // ---- whole runs ---------------------------------------------------------------------------------------------------------------

  /** The first instant of an episode at which anything can be dispatched. */
  function Start(c: SimConfig): real { NextAfter(c.gap, 0.0) }

  /** The replica takes requests first-come first-served, and nothing waits there for a free server. */
  ghost predicate RepFifo(c: SimConfig, r: Rep, t: real) {
    && c.model.Rs? && !r.draining && R.AdmissionMaximal(c.model.rs, r.eng)
    && Fifo(c.model.rs.maxConc, r.eng, t, Start(c))
  }

  /** The replica rid, if it is there. */
  ghost predicate InFifo(c: SimConfig, s: Sim, rid: nat) {
    forall i :: 0 <= i < |s.pool.reps| && s.pool.reps[i].rid == rid ==> RepFifo(c, s.pool.reps[i], s.t)
  }

  /** Nothing undispatched could have been served before t. */
  ghost predicate NoneBefore(c: SimConfig, s: Sim, t: real) {
    forall k :: s.arrivalI <= k < |s.trace| ==> From(s.trace[k], Start(c)) >= t
  }

  lemma {:induction false} DispatchFifo(c: SimConfig, s: Sim, now: real, i: nat)
    requires MidInv(c, s, now) && now < s.t && i < |s.pool.reps| && c.model.Rs? && NoneBefore(c, s, s.t)
    requires Fifo(c.model.rs.maxConc, s.pool.reps[i].eng, now, Start(c))
    requires Crowded(c.model.rs, s.pool.reps[i].eng, s.t, Start(c))
    ensures var reps := DispatchDue(c, s).pool.reps;
            && |reps| == |s.pool.reps| && Fifo(c.model.rs.maxConc, reps[i].eng, now, Start(c))
            && Crowded(c.model.rs, reps[i].eng, s.t, Start(c))
    decreases |s.trace| - s.arrivalI
  {
    hide Fifo, Crowded, Inv, RepReady, NoneBefore, From;
    if ArrivalDue(s) {
      DispatchKeeps(c, s, now);
      OneMore(c, s, now, i);
      hide MidInv, Dispatch;
      DispatchFifo(c, Dispatch(c, s), now, i);
    }
  }

  lemma {:induction false} OneMore(c: SimConfig, s: Sim, now: real, i: nat)
    requires MidInv(c, s, now) && now < s.t && i < |s.pool.reps| && c.model.Rs? && ArrivalDue(s)
    requires NoneBefore(c, s, s.t)
    requires Fifo(c.model.rs.maxConc, s.pool.reps[i].eng, now, Start(c))
    requires Crowded(c.model.rs, s.pool.reps[i].eng, s.t, Start(c))
    ensures var d := Dispatch(c, s);
            && d.t == s.t && d.arrivalI == s.arrivalI + 1 && d.trace == s.trace && NoneBefore(c, d, s.t)
            && |d.pool.reps| == |s.pool.reps|
            && Fifo(c.model.rs.maxConc, d.pool.reps[i].eng, now, Start(c))
            && Crowded(c.model.rs, d.pool.reps[i].eng, s.t, Start(c))
  {
    hide Fifo, Crowded, PoolInv, Inv, RepReady, Conserved, TraceOk, PushBack;
    var j := Target(c, s);
    var x := s.trace[s.arrivalI];
    TraceGood(c.model, s.trace, s.arrivalI);
    NextIsNewest(c, s, j);
    hide Route, ReplicaEngines.Newest;
    if j == i { FifoPush(c.model.rs, s.pool.reps[i].eng, x, now, s.t, Start(c)); }
  }

  lemma MaximalCrowds(p: R.RsModel, e: Engine, t: real, start: real)
    requires R.AdmissionMaximal(p, e)
    ensures Crowded(p, e, t, start)
  {}

  lemma {:induction false} ServedFifo(c: SimConfig, s: Sim, t: real, i: nat)
    requires SimInv(c, s) && s.t < t && BeforeClocks(s, t) && NoneBefore(c, s, t)
    requires i < |s.pool.reps| && RepFifo(c, s.pool.reps[i], s.t)
    ensures |Served(c, s, t)| == |s.pool.reps| && Served(c, s, t)[i].rid == s.pool.reps[i].rid
    ensures RepFifo(c, Served(c, s, t)[i], t)
  {
    hide SimInv, MidInv, BeforeClocks, Fifo, Jump, DispatchDue, NoneBefore, Measure, Served, R.AdmissionMaximal;
    EventQueues(c, s, t, i);
    AliveInPool(c, s, i);
    var r := s.pool.reps[i];
    if r.Serving(t) {
      BusyFifo(c, s, t, i);
    } else {
      LiveEngine(c, s, i);
      FifoLater(c.model.rs, r.eng, s.t, t, Start(c));
    }
  }

  lemma LiveEngine(c: SimConfig, s: Sim, i: nat)
    requires SimInv(c, s) && i < |s.pool.reps| && c.model.Rs?
    ensures R.RsInv(c.model.rs, s.pool.reps[i].eng, s.t)
  {
    hide PoolInv, TraceOk, Conserved, R.RsInv;
    assert RepOk(c.model, s.pool.reps[i], s.t);
  }

  lemma {:induction false} BusyFifo(c: SimConfig, s: Sim, t: real, i: nat)
    requires SimInv(c, s) && s.t < t && BeforeClocks(s, t) && NoneBefore(c, s, t)
    requires i < |s.pool.reps| && RepFifo(c, s.pool.reps[i], s.t) && s.pool.reps[i].Serving(t)
    ensures |Served(c, s, t)| == |s.pool.reps|
    ensures Fifo(c.model.rs.maxConc, Served(c, s, t)[i].eng, t, Start(c))
  {
    hide SimInv, MidInv, BeforeClocks, Fifo, Crowded, Jump, DispatchDue, NoneBefore, Measure, R.AdmissionMaximal, Inv,
         InTime, Serve;
    JumpKeeps(c, s, t);
    JumpSame(s, t);
    JumpWaits(c, s, t);
    var j := Jump(s, t);
    MaximalCrowds(c.model.rs, s.pool.reps[i].eng, t, Start(c));
    DispatchDueKeeps(c, j, s.t);
    DispatchFifo(c, j, s.t, i);
    var d := DispatchDue(c, j);
    assert d.pool.reps[i] == s.pool.reps[i].(eng := d.pool.reps[i].eng);
    MidRep(c, d, s.t, i);
    ReadyServes(c, d.pool.reps[i], s.t, t);
  }

  lemma JumpWaits(c: SimConfig, s: Sim, t: real)
    requires NoneBefore(c, s, t)
    ensures NoneBefore(c, Jump(s, t), t)
  {
    hide From;
  }

  lemma {:induction false} ReadyServes(c: SimConfig, r: Rep, now: real, t: real)
    requires c.model.Rs? && RepReady(c.model, r, now, t) && r.Serving(t) && r.eng.accepting && now < t
    requires Fifo(c.model.rs.maxConc, r.eng, now, Start(c)) && Crowded(c.model.rs, r.eng, t, Start(c))
    ensures Fifo(c.model.rs.maxConc, ServeRep(c.model, r, t).eng, t, Start(c))
  {
    hide Fifo, Crowded, R.RsInv, Serve;
    FifoServe(c.model.rs, r.eng, now, t, Start(c));
  }

  lemma {:induction false} EventFifo(c: SimConfig, s: Sim, t: real, rid: nat)
    requires SimInv(c, s) && s.t < t && BeforeClocks(s, t) && InFifo(c, s, rid) && NoneBefore(c, s, t)
    ensures InFifo(c, Event(c, s, t), rid)
  {
    hide SimInv, BeforeClocks, RepFifo, NoneBefore, Served, Event, AnyDraining, Measure, Productive, Releasable;
    EventKeeps(c, s, t);
    EventReps(c, s, t);
    EventSize(c, s, t);
    var out, reps := Served(c, s, t), Event(c, s, t).pool.reps;
    forall k | 0 <= k < |reps| && reps[k].rid == rid ensures RepFifo(c, reps[k], t) {
      assert reps[k] in out;
      var i :| 0 <= i < |out| && out[i] == reps[k];
      ServedRid(c, s, t, i);
      ServedFifo(c, s, t, i);
    }
  }

  lemma ServedRid(c: SimConfig, s: Sim, t: real, i: nat)
    requires SimInv(c, s) && s.t < t && BeforeClocks(s, t) && i < |s.pool.reps|
    ensures |Served(c, s, t)| == |s.pool.reps| && Served(c, s, t)[i].rid == s.pool.reps[i].rid
  {
    hide SimInv, BeforeClocks, Served, AdmissionMaximal;
    EventQueues(c, s, t, i);
  }

  /** The loop never jumps beyond an arrival. */
  lemma {:induction false} ArrivalsAhead(c: SimConfig, s: Sim)
    requires RunInv(c, s) && NextEvent(s).At?
    ensures NoneBefore(c, s, EventTime(c, s))
  {
    EventAhead(c, s);
    MinClockFacts(NextArrival(s), NextReady(s.pool.reps, s.t));
    MinClockFacts(MinClock(NextArrival(s), NextReady(s.pool.reps, s.t)), NextStep(s.pool.reps, s.t));
    hide PoolInv, Conserved, EnginesOk, TraceOk, NextReady, NextStep, MinClock, BeforeClocks, Productive;
    forall k | s.arrivalI <= k < |s.trace| ensures From(s.trace[k], Start(c)) >= EventTime(c, s) {
      TraceSorted(c.model, s.trace, s.arrivalI, k);
    }
  }

  lemma {:induction false} NextTurnFifo(c: SimConfig, s: Sim, rid: nat)
    requires RunInv(c, s) && NextEvent(s).At? && InFifo(c, s, rid)
    ensures InFifo(c, NextTurn(c, s), rid)
  {
    hide SimInv, NextTurn, Event, NextEvent, EventTime, RepFifo, From, BeforeClocks;
    ArrivalsAhead(c, s);
    var s1 := NextTurnIsEvent(c, s);
    EventFifo(c, s1, EventTime(c, s), rid);
  }

  lemma {:induction false} CoastFifo(c: SimConfig, s: Sim, t: real, rid: nat)
    requires SimInv(c, s) && s.t <= t && InFifo(c, s, rid)
    ensures InFifo(c, Jump(s, t), rid)
  {
    hide SimInv, Fifo, R.AdmissionMaximal, R.RsInv, Jump;
    JumpSame(s, t);
    forall i | 0 <= i < |s.pool.reps| && s.pool.reps[i].rid == rid ensures RepFifo(c, s.pool.reps[i], t) {
      LiveEngine(c, s, i);
      FifoLater(c.model.rs, s.pool.reps[i].eng, s.t, t, Start(c));
    }
  }

  lemma {:induction false} TurnFifo(c: SimConfig, s: Sim, a: Action, rid: nat)
    requires RunInv(c, s) && a.Turn? && InFifo(c, s, rid)
    ensures InFifo(c, Apply(c, s, a), rid)
  {
    hide SimInv, Jump, Event, NextTurn, NextEvent, InFifo, Measure, BeforeClocks, EventTime;
    if s.t < a.tEnd - EPS {
      IterateKeeps(c, s, a.tEnd, a.idle);
      if Iterate(c, s, a.tEnd, a.idle).Advanced? {
        TurnIsNext(c, s, a.tEnd, a.idle);
        NextTurnFifo(c, s, rid);
      } else {
        CoastFifo(c, s, a.tEnd, rid);
      }
    }
  }

  lemma {:induction false} TurnsFifo(c: SimConfig, s: Sim, ts: seq<Action>, rid: nat)
    requires RunInv(c, s) && OnlyTurns(ts) && InFifo(c, s, rid)
    ensures InFifo(c, ApplyAll(c, s, ts), rid)
    decreases |ts|
  {
    hide RunInv, Apply, InFifo;
    if ts != [] {
      TurnFifo(c, s, ts[0], rid);
      TurnsFifo(c, Apply(c, s, ts[0]), ts[1..], rid);
    }
  }

  /** The replica rid, if it is there, is not draining. */
  predicate NotDraining(reps: seq<Rep>, rid: nat) {
    forall i :: 0 <= i < |reps| && reps[i].rid == rid ==> !reps[i].draining
  }

  lemma {:induction false} NewFifo(c: SimConfig, r: Rep, t: real)
    requires c.model.Rs? && r.eng == NewEngine && !r.draining
    ensures RepFifo(c, r, t)
  {
    hide Ahead;
  }

  lemma {:induction false} ScaleFifo(c: SimConfig, s: Sim, k: int, rid: nat)
    requires RunInv(c, s) && c.model.Rs? && InFifo(c, s, rid) && NotDraining(SetTargetReplicas(c, s, k).pool.reps, rid)
    ensures InFifo(c, SetTargetReplicas(c, s, k), rid)
  {
    hide TraceOk, Conserved, EnginesOk, Fifo, R.AdmissionMaximal, SetTarget, ScaleInv, NoNewDrain, DrainsNewest;
    SetTargetKeeps(c.pool, s.pool, k);
    var before, after := s.pool.reps, SetTarget(c.pool, s.pool, k).reps;
    forall i | 0 <= i < |after| && after[i].rid == rid ensures RepFifo(c, after[i], s.t) {
      if i < |before| {
        assert RepFifo(c, before[i], s.t);
        AcceptFifo(c, before[i].eng, !after[i].draining, s.t);
      } else {
        NewFifo(c, after[i], s.t);
      }
    }
  }

  lemma AcceptFifo(c: SimConfig, e: Engine, b: bool, t: real)
    requires c.model.Rs? && Fifo(c.model.rs.maxConc, e, t, Start(c)) && R.AdmissionMaximal(c.model.rs, e)
    ensures Fifo(c.model.rs.maxConc, e.(accepting := b), t, Start(c))
    ensures R.AdmissionMaximal(c.model.rs, e.(accepting := b))
  {
    hide Ahead;
    assert e.(accepting := b).Held() == e.Held();
    forall q ensures e.(accepting := b).Has(q) == e.Has(q) {}
  }

  /** No action of the run leaves the replica rid draining. */
  predicate NeverDrains(c: SimConfig, s: Sim, acts: seq<Action>, rid: nat)
    requires RunInv(c, s)
    decreases |acts|
  {
    acts == [] || (NotDraining(Apply(c, s, acts[0]).pool.reps, rid)
                   && NeverDrains(c, Apply(c, s, acts[0]), acts[1..], rid))
  }

  lemma {:induction false} RunFifo(c: SimConfig, s: Sim, acts: seq<Action>, rid: nat)
    requires RunInv(c, s) && c.model.Rs? && InFifo(c, s, rid) && NeverDrains(c, s, acts, rid)
    ensures InFifo(c, ApplyAll(c, s, acts), rid)
    decreases |acts|
  {
    hide RunInv, Apply, InFifo, NotDraining;
    if acts != [] {
      if acts[0].Scale? {
        ScaleApplies(c, s, acts[0].k);
        ScaleFifo(c, s, acts[0].k, rid);
      } else {
        var ts := AsTurns(c, s, acts[0]);
        TurnsFifo(c, s, ts, rid);
      }
      RunFifo(c, Apply(c, s, acts[0]), acts[1..], rid);
    }
  }

  lemma ScaleApplies(c: SimConfig, s: Sim, k: int)
    requires RunInv(c, s)
    ensures Apply(c, s, Scale(k)) == SetTargetReplicas(c, s, k)
  {
    hide RunInv, SetTargetReplicas;
  }

  lemma {:induction false} BeginFifo(c: SimConfig, trace: seq<Req>, rid: nat)
    requires c.model.Rs?
    ensures InFifo(c, Begin(c, trace), rid)
  {
    hide PoolInv, RepFifo;
    ResetKeeps(c.pool);
    forall i | 0 <= i < |Begin(c, trace).pool.reps| ensures RepFifo(c, Begin(c, trace).pool.reps[i], 0.0) {
      NewFifo(c, Begin(c, trace).pool.reps[i], 0.0);
    }
  }

  /** Over every run, whatever the dispatch policy: on each replica that no action has left draining, a request is in
      service from the first instant, from its arrival on, at which fewer than maxConc of the requests dispatched to that
      replica before it are unfinished; until then it waits. */
  lemma {:induction false} FirstComeFirstServed(c: SimConfig, trace: seq<Req>, acts: seq<Action>, i: nat, q: Req)
    requires TraceOk(c.model, trace) && c.model.Rs? && i < |Reached(c, trace, acts).pool.reps|
    requires RunInv(c, Begin(c, trace))
    requires NeverDrains(c, Begin(c, trace), acts, Reached(c, trace, acts).pool.reps[i].rid)
    requires Reached(c, trace, acts).pool.reps[i].eng.Has(q)
    ensures var s := Reached(c, trace, acts);
            var held, m := s.pool.reps[i].eng.Held(), c.model.rs.maxConc;
            && (q.tAdmit.Some? ==>
                  && Ahead(held, q, q.tAdmit.value) < m
                  && forall u: real :: From(q, Start(c)) <= u < q.tAdmit.value ==> Ahead(held, q, u) >= m)
            && (q.tAdmit.None? ==> forall u: real :: From(q, Start(c)) <= u <= s.t ==> Ahead(held, q, u) >= m)
  {
    hide RunInv, TraceOk, Ahead, From, Begin, ApplyAll, NeverDrains;
    var s := Reached(c, trace, acts);
    var rid := s.pool.reps[i].rid;
    BeginFifo(c, trace, rid);
    RunFifo(c, Begin(c, trace), acts, rid);
    assert RepFifo(c, s.pool.reps[i], s.t);
    if q.tAdmit.Some? { AdmittedByNow(c, s, i, q); }
  }

  lemma AdmittedByNow(c: SimConfig, s: Sim, i: nat, q: Req)
    requires RunInv(c, s) && c.model.Rs? && i < |s.pool.reps| && s.pool.reps[i].eng.Has(q) && q.tAdmit.Some?
    ensures q.tAdmit.value <= s.t
  {
    hide SimInv, R.RsInv;
    LiveEngine(c, s, i);
    AdmittedBefore(c.model.rs, s.pool.reps[i].eng, s.t, q);
  }

  /** Scaling never drains one of the k_min founders, so the theorem covers them whatever the control actions. */
  lemma {:induction false} FoundersNeverDrain(c: SimConfig, s: Sim, acts: seq<Action>, rid: nat)
    requires RunInv(c, s) && rid < c.pool.kMin
    ensures NeverDrains(c, s, acts, rid)
    decreases |acts|
  {
    hide RunInv, Apply, NotDraining;
    if acts != [] {
      FounderNotDraining(c, Apply(c, s, acts[0]), rid);
      FoundersNeverDrain(c, Apply(c, s, acts[0]), acts[1..], rid);
    }
  }

  lemma FounderNotDraining(c: SimConfig, s: Sim, rid: nat)
    requires RunInv(c, s) && rid < c.pool.kMin
    ensures NotDraining(s.pool.reps, rid)
  {
    hide TraceOk, Conserved, EnginesOk;
    forall i | 0 <= i < |s.pool.reps| && s.pool.reps[i].rid == rid ensures !s.pool.reps[i].draining {
      assert LiveOk(c.pool, s.pool.reps[i], s.pool.t, s.pool.nextRid);
    }
  }
}
