/** An episode in which scale-up stabilisation makes the autoscaler bypass its scale-down window. The controller reads the
    simulated cluster; nothing about its readings is chosen. */
module BypassEpisode {
  import opened Numbers
  import opened Requests
  import opened ReplicaEngines
  import opened ReplicaPool
  import opened Simulator
  import opened SimulatorInvariant
  import opened SimulatorRuns
  import opened RequestHistory
  import opened CostModel
  import opened Draining
  import opened Episode
  import opened ClosedLoop
  import C = Controllers
  import R = RequestService

  // ---- the episode -------------------------------------------------------------------------------------------------

  const SERVER: R.RsModel := R.RsConfig(9, 0.0, (t: real) => 1.0)

  /** One to three replicas that start at once; whenever two accept, the second gets the request. */
  const SIM: SimConfig :=
    SimConfig(Rs(SERVER), PoolSettings(1, 1, 3, 0.0, true, false), (t: real) => 1.0, (n: nat) => 1)

  const ENV: EnvConfig :=
    EnvConfig(SIM, ServiceSlo(10.0, 10.0, 10.0), WeightSettings(1.0, 1.0, 1.0), 2.0, 5, 10.0, true)

  function Job(n: int, t: real, d: real): Req { Req(n, t, d, 1.0, None, None, None, 0.0, 0, 0.0, 0.0, 0, None) }

  const FIRST: Req := Job(0, 1.0, 4.0)
  const SECOND: Req := Job(1, 1.0, 4.0)
  /** A long job, as the first two finish. */
  const LONG: Req := Job(2, 5.0, 100.0)
  const LATE0: Req := Job(3, 7.0, 100.0)
  const LATE1: Req := Job(4, 7.0, 100.0)
  const LATE2: Req := Job(5, 7.0, 100.0)

  const TRACE: seq<Req> := [FIRST, SECOND, LONG, LATE0, LATE1, LATE2]

  const LIMITS: C.Limits := C.LimitSettings(1, 3, 2.0, 0.0)

  /** One request in flight per replica, stabilised over one interval upwards. */
  const HPA: C.HpaParams := C.HpaParams(1.0, 0.0, 1.0, 2.0)

  const DECISIONS: seq<int> := [1, 1, 2, 1, 1]

  const READINGS: seq<C.Reading> :=
    [C.Reading(1, 0.0, 0.0), C.Reading(1, 2.0, 2.0), C.Reading(1, 2.0, 4.0), C.Reading(2, 0.5, 6.0), C.Reading(2, 3.0, 8.0)]

  lemma TraceIsOk()
    ensures TraceOk(SIM.model, TRACE)
  {}

  // ---- engines --------------------------------------------------------------------------------------------------------

  function Begun(rs: seq<Req>, t: real): (out: seq<Req>)
    ensures |out| == |rs| && forall i :: 0 <= i < |rs| ==> out[i] == R.Begin(rs[i], t)
  {
    seq(|rs|, i requires 0 <= i < |rs| => R.Begin(rs[i], t))
  }

  lemma FullRate(b: nat)
    requires b >= 1
    ensures R.Rate(SERVER, b) == 1.0
  {
    assert R.Slow(SERVER, b) == 1.0;
  }

  lemma {:induction false} AdmitsAll(e: Engine, t: real)
    requires e.accepting && |e.running| + |e.slot| <= SERVER.maxConc
    ensures R.AdmitAll(SERVER, e, t) == e.(slot := [], running := e.running + Begun(e.slot, t))
    decreases |e.slot|
  {
    if e.slot == [] {
      assert e.running + Begun(e.slot, t) == e.running;
    } else {
      var e1 := R.AdmitHead(e, t);
      AdmitsAll(e1, t);
      assert e1.running + Begun(e1.slot, t) == e.running + Begun(e.slot, t);
    }
  }

  /** Every request of the batch still needs d. */
  predicate AllNeed(rs: seq<Req>, d: real) { forall i :: 0 <= i < |rs| ==> rs[i].progress == 0.0 && rs[i].demand == d }

  lemma MinLeftIs(rs: seq<Req>, d: real)
    requires rs != [] && AllNeed(rs, d) && d >= 0.0
    ensures R.MinLeft(rs) == d
  {}

  /** An idle replica starts everything that waits. */
  lemma {:induction false} Starts(e: Engine, t: real, d: real)
    requires e.running == [] && e.accepting && 1 <= |e.slot| <= 9 && AllNeed(e.slot, d) && d > 0.0
    ensures var e' := Serve(Rs(SERVER), e, t);
            && e'.running == Begun(e.slot, t) && e'.slot == [] && e'.next == At(t + d) && e'.lastT == Some(t)
            && e'.accepting
  {
    hide R.MinLeft, R.Rate, R.AdmitAll;
    var a := e.(lastT := Some(t));
    assert R.Advance(SERVER, e, t) == a;
    AdmitsAll(a, t);
    assert [] + Begun(e.slot, t) == Begun(e.slot, t);
    MinLeftIs(Begun(e.slot, t), d);
    FullRate(|e.slot|);
  }

  lemma {:induction false} StaysIdle(e: Engine, t: real)
    requires e.running == [] && e.slot == []
    ensures var e' := Serve(Rs(SERVER), e, t);
            e'.running == [] && e'.slot == [] && e'.accepting == e.accepting
  {
    hide R.MinLeft, R.Rate;
  }

  /** At its clock a batch of equal jobs is done. */
  lemma {:induction false} Finishes(e: Engine, l: real, d: real)
    requires e.running != [] && e.slot == [] && AllNeed(e.running, d) && d > 0.0 && e.lastT == Some(l) && e.next == At(l + d)
    ensures var e' := Serve(Rs(SERVER), e, l + d);
            e'.running == [] && e'.slot == [] && e'.accepting == e.accepting
  {
    hide R.MinLeft, R.Rate, R.Deliver;
    var t := l + d;
    FullRate(|e.running|);
    assert R.Delivered(SERVER, e, t) == d;
    forall i | 0 <= i < |e.running| ensures R.Stepped(SERVER, e, t)[i].Done() { Delivers(e.running[i], d, t); }
    NonePending(R.Stepped(SERVER, e, t));
    assert R.Advance(SERVER, e, t).running == [];
    var e1 := R.ServiceStep(SERVER, e, t);
    StaysIdle(e1, t);
  }

  lemma Delivers(r: Req, d: real, t: real)
    requires r.progress == 0.0 && r.demand == d && d > 0.0
    ensures R.Deliver(r, d, t).Done()
  {}

  lemma {:induction false} NonePending(rs: seq<Req>)
    requires forall i :: 0 <= i < |rs| ==> rs[i].Done()
    ensures Pending(rs) == []
  {
    if rs != [] { NonePending(rs[1..]); }
  }

  /** A long job goes on, its clock where it was. */
  lemma {:induction false} GoesOn(e: Engine, x: Req, l: real, t: real)
    requires e.running == [x] && e.slot == [] && x.progress == 0.0 && x.demand == 100.0 && !x.Done()
    requires e.lastT == Some(l) && e.next == At(l + 100.0) && l < t < l + 50.0
    ensures var e' := Serve(Rs(SERVER), e, t);
            |e'.running| == 1 && e'.slot == [] && e'.next == At(l + 100.0) && e'.accepting == e.accepting
  {
    FullRate(1);
    assert R.Delivered(SERVER, e, t) == t - l;
    var y := R.Deliver(x, t - l, t);
    assert R.Stepped(SERVER, e, t) == [y] && !y.Done() && y.progress == t - l;
    assert [y][1..] == [] && Pending([y]) == [y];
    var a := R.Advance(SERVER, e, t);
    assert a.running == [y] && a.slot == [] && R.AdmitAll(SERVER, a, t) == a;
    assert R.MinLeft([y]) == 100.0 - (t - l);
    hide R.Rate, R.MinLeft;
  }

  // ---- the cluster ------------------------------------------------------------------------------------------------------

  const FOUNDER: Rep := Rep(0, 0.0, 0.0, false, None, NewEngine)
  /** The replica booted at the third control time. */
  function Extra(n: nat): Rep { Rep(n, 4.0, 4.0, false, None, NewEngine) }

  lemma WhereTwo(a: Rep, b: Rep, f: Rep -> bool)
    requires f(a)
    ensures Where([a], f) == [0]
    ensures Where([a, b], f) == if f(b) then [0, 1] else [0]
  {
    var none: seq<Rep> := [];
    assert [a][..0] == none && Where(none, f) == [];
    assert Where([a], f) == Where(none, f) + [0];
    assert [a, b][..1] == [a];
  }

  lemma RouteOne(s: Sim, a: Rep)
    requires s.pool.reps == [a] && a.Accepting(s.t)
    ensures Route(SIM, s) == (s.pool, 0)
  {
    hide Where;
    WhereTwo(a, a, (r: Rep) => r.Accepting(s.t));
  }

  lemma RouteFirst(s: Sim, a: Rep, b: Rep)
    requires s.pool.reps == [a, b] && a.Accepting(s.t) && !b.Accepting(s.t)
    ensures Route(SIM, s) == (s.pool, 0)
  {
    hide Where;
    WhereTwo(a, b, (r: Rep) => r.Accepting(s.t));
  }

  lemma RouteSecond(s: Sim, a: Rep, b: Rep)
    requires s.pool.reps == [a, b] && a.Accepting(s.t) && b.Accepting(s.t)
    ensures Route(SIM, s) == (s.pool, 1)
  {
    hide Where;
    WhereTwo(a, b, (r: Rep) => r.Accepting(s.t));
  }

  /** One arrival joins the queue of the i-th replica. */
  lemma Joins(s: Sim, i: nat)
    requires i < |s.pool.reps| && Route(SIM, s) == (s.pool, i) && ArrivalDue(s)
    ensures var r := s.pool.reps[i];
            var d := Dispatch(SIM, s);
            && d.pool.reps == s.pool.reps[i := r.(eng := r.eng.(slot := r.eng.slot + [s.trace[s.arrivalI]]))]
            && d.t == s.t && d.trace == s.trace && d.arrivalI == s.arrivalI + 1 && d.stalls == s.stalls
            && DispatchDue(SIM, s) == DispatchDue(SIM, d)
  {
    hide Route;
  }

  /** After the first event both jobs run, until five. */
  ghost predicate BothRun(r: Rep) {
    && r == FOUNDER.(eng := r.eng) && r.eng.accepting
    && r.eng.running == Begun([FIRST, SECOND], 1.0) && r.eng.slot == [] && r.eng.next == At(5.0) && r.eng.lastT == Some(1.0)
  }

  lemma FirstQueue()
    ensures var d := DispatchDue(SIM, Jump(Begin(SIM, TRACE), 1.0));
            && d.pool.reps == [FOUNDER.(eng := NewEngine.(slot := [FIRST, SECOND]))]
            && d.t == 1.0 && d.trace == TRACE && d.arrivalI == 2 && d.stalls == 0
  {
    hide Begin, Jump, Route;
    BeginIs();
    JumpSame(Begin(SIM, TRACE), 1.0);
    JumpStalls(Begin(SIM, TRACE), 1.0);
    var s := Jump(Begin(SIM, TRACE), 1.0);
    RouteOne(s, FOUNDER);
    Joins(s, 0);
    hide Dispatch;
    var d := Dispatch(SIM, s);
    assert [] + [FIRST] == [FIRST] && [FIRST] + [SECOND] == [FIRST, SECOND];
    assert d.pool.reps == [FOUNDER.(eng := NewEngine.(slot := [FIRST]))];
    RouteOne(d, d.pool.reps[0]);
    Joins(d, 0);
  }

  lemma EventIs(s: Sim, t: real)
    ensures var d, e := DispatchDue(SIM, Jump(s, t)), Event(SIM, s, t);
            && e.t == d.t && e.trace == d.trace && e.arrivalI == d.arrivalI && e.stalls == d.stalls
            && e.pool.reps == if AnyDraining(s.pool.reps) then Kept(ServeAll(SIM.model, d.pool.reps, t))
                              else ServeAll(SIM.model, d.pool.reps, t)
  {
    hide DispatchDue, Jump, Kept, Released;
  }

  lemma BeginIs()
    ensures var s := Begin(SIM, TRACE);
            && s.pool.reps == [FOUNDER] && s.pool.target == 1 && !AnyDraining(s.pool.reps)
            && s.t == 0.0 && s.trace == TRACE && s.arrivalI == 0 && s.stalls == 0
  {
    StartManyFounders(SIM.pool, Pool(0.0, [], [], 0, false, 0.0, 0, 0.0), 1);
    assert [FOUNDER][1..] == [];
  }

  lemma FirstEvent()
    ensures var s := Event(SIM, Begin(SIM, TRACE), 1.0);
            && s.t == 1.0 && s.trace == TRACE && s.arrivalI == 2 && s.stalls == 0
            && |s.pool.reps| == 1 && BothRun(s.pool.reps[0])
  {
    hide Serve, DispatchDue, Jump, Begin, AnyDraining, Event, Kept;
    BeginIs();
    FirstQueue();
    EventIs(Begin(SIM, TRACE), 1.0);
    Starts(NewEngine.(slot := [FIRST, SECOND]), 1.0, 4.0);
  }

  /** The first replica is idle, the second runs the long job. */
  ghost predicate LongRuns(a: Rep, b: Rep) {
    && a == FOUNDER.(eng := a.eng) && a.eng.accepting && a.eng.running == [] && a.eng.slot == []
    && b == Extra(b.rid).(draining := b.draining, eng := b.eng) && b.eng.accepting == !b.draining
    && b.eng.running == [R.Begin(LONG, 5.0)] && b.eng.slot == [] && b.eng.next == At(105.0) && b.eng.lastT == Some(5.0)
  }

  lemma SecondQueue(s: Sim, r: Rep, n: nat)
    requires s.pool.reps == [r, Extra(n)] && BothRun(r) && s.trace == TRACE && s.arrivalI == 2 && s.stalls == 0
    ensures var d := DispatchDue(SIM, Jump(s, 5.0));
            && d.pool.reps == [r, Extra(n).(eng := NewEngine.(slot := [LONG]))]
            && d.t == 5.0 && d.trace == TRACE && d.arrivalI == 3 && d.stalls == 0
  {
    JumpSame(s, 5.0);
    var j := Jump(s, 5.0);
    hide MoveTo, Route;
    RouteSecond(j, r, Extra(n));
    Joins(j, 1);
    assert [] + [LONG] == [LONG];
  }

  lemma SecondEvent(s: Sim, r: Rep, n: nat)
    requires s.pool.reps == [r, Extra(n)] && BothRun(r) && s.trace == TRACE && s.arrivalI == 2 && s.stalls == 0
    ensures var e := Event(SIM, s, 5.0);
            && e.t == 5.0 && e.trace == TRACE && e.arrivalI == 3 && e.stalls == 0
            && |e.pool.reps| == 2 && LongRuns(e.pool.reps[0], e.pool.reps[1]) && !e.pool.reps[1].draining
  {
    hide Serve, DispatchDue, Jump, AnyDraining, Event, Kept;
    NoneDrain(s.pool.reps, r, Extra(n));
    SecondQueue(s, r, n);
    EventIs(s, 5.0);
    Finishes(r.eng, 1.0, 4.0);
    Starts(NewEngine.(slot := [LONG]), 5.0, 100.0);
    assert Begun([LONG], 5.0) == [R.Begin(LONG, 5.0)];
  }

  lemma NoneDrain(reps: seq<Rep>, a: Rep, b: Rep)
    requires reps == [a, b] && !a.draining && !b.draining
    ensures !AnyDraining(reps)
  {
    var rest := reps[1..];
    assert rest == [b] && rest[1..] == [];
    assert !AnyDraining(rest[1..]) && !AnyDraining(rest);
  }

  /** After the last arrivals the first replica runs three jobs, the second, draining, still the long one. */
  ghost predicate Overloaded(a: Rep, b: Rep) {
    && a == FOUNDER.(eng := a.eng) && |a.eng.running| == 3 && a.eng.slot == [] && a.eng.next == At(107.0)
    && b == Extra(b.rid).(draining := true, eng := b.eng) && |b.eng.running| == 1 && b.eng.slot == [] && b.eng.next == At(105.0)
  }

  lemma ThirdQueue(s: Sim, a: Rep, b: Rep)
    requires s.pool.reps == [a, b] && LongRuns(a, b) && b.draining && s.trace == TRACE && s.arrivalI == 3 && s.stalls == 0
    ensures var d := DispatchDue(SIM, Jump(s, 7.0));
            && d.pool.reps == [a.(eng := a.eng.(slot := [LATE0, LATE1, LATE2])), b]
            && d.t == 7.0 && d.trace == TRACE && d.arrivalI == 6 && d.stalls == 0
  {
    hide MoveTo, Route;
    JumpSame(s, 7.0);
    var j := Jump(s, 7.0);
    RouteFirst(j, a, b);
    Joins(j, 0);
    var d := Dispatch(SIM, j);
    assert d.pool.reps == [a.(eng := a.eng.(slot := [LATE0])), b] by { assert [] + [LATE0] == [LATE0]; }
    RouteFirst(d, d.pool.reps[0], b);
    Joins(d, 0);
    var d' := Dispatch(SIM, d);
    assert d'.pool.reps == [a.(eng := a.eng.(slot := [LATE0, LATE1])), b] by { assert [LATE0] + [LATE1] == [LATE0, LATE1]; }
    RouteFirst(d', d'.pool.reps[0], b);
    Joins(d', 0);
    assert [LATE0, LATE1] + [LATE2] == [LATE0, LATE1, LATE2];
  }

  lemma ThirdEvent(s: Sim, a: Rep, b: Rep)
    requires s.pool.reps == [a, b] && LongRuns(a, b) && b.draining && s.trace == TRACE && s.arrivalI == 3 && s.stalls == 0
    ensures var e := Event(SIM, s, 7.0);
            && e.t == 7.0 && e.trace == TRACE && e.arrivalI == 6 && e.stalls == 0
            && |e.pool.reps| == 2 && Overloaded(e.pool.reps[0], e.pool.reps[1])
  {
    hide Serve, DispatchDue, Jump, AnyDraining, Event, Kept;
    ThirdQueue(s, a, b);
    EventIs(s, 7.0);
    Starts(a.eng.(slot := [LATE0, LATE1, LATE2]), 7.0, 100.0);
    GoesOn(b.eng, R.Begin(LONG, 5.0), 5.0, 7.0);
    var out := ServeAll(SIM.model, DispatchDue(SIM, Jump(s, 7.0)).pool.reps, 7.0);
    NoneReleased(out, out[0], out[1]);
  }

  lemma NoneReleased(reps: seq<Rep>, a: Rep, b: Rep)
    requires reps == [a, b] && !Releasable(a) && !Releasable(b)
    ensures Kept(reps) == reps
  {
    assert reps[1..] == [b] && reps[1..][1..] == [] && Kept([b]) == [b];
  }

  // ---- what comes next --------------------------------------------------------------------------------------------------

  function Busy(r: Rep): Clock { if r.eng.running != [] then r.eng.next else Never }

  lemma NextOfOne(s: Sim, a: Rep)
    requires s.pool.reps == [a] && a.Serving(s.t)
    ensures NextEvent(s) == MinClock(NextArrival(s), Busy(a))
  {
    var none := s.pool.reps[1..];
    assert none == [] && NextReady(none, s.t) == Never && NextStep(none, s.t) == Never;
  }

  lemma NextOfTwo(s: Sim, a: Rep, b: Rep)
    requires s.pool.reps == [a, b] && a.Serving(s.t) && b.Serving(s.t)
    ensures NextEvent(s) == MinClock(NextArrival(s), MinClock(Busy(b), Busy(a)))
  {
    assert s.pool.reps[1..] == [b] && s.pool.reps[1..][1..] == [];
    assert NextReady([b], s.t) == Never && NextStep([b], s.t) == Busy(b);
  }

  /** A control interval with no event only passes time. */
  lemma {:induction false} QuietInterval(s: Sim, k: int)
    requires RunInv(SIM, s) && RunInv(SIM, SetTargetReplicas(SIM, s, k))
    requires QuietUntil(SetTargetReplicas(SIM, s, k), s.t + 2.0)
    ensures Interval(ENV, s, k) == Jump(SetTargetReplicas(SIM, s, k), s.t + 2.0)
  {
    hide RunInv, SetTarget, Jump, Event, Measure, NextEvent;
    StepToUnfold(SIM, SetTargetReplicas(SIM, s, k), s.t + 2.0, true);
  }

  /** With one event, that happens and then time passes. */
  lemma {:induction false} BusyInterval(s: Sim, k: int, t: real)
    requires RunInv(SIM, s) && RunInv(SIM, SetTargetReplicas(SIM, s, k)) && s.stalls == 0
    requires NextEvent(SetTargetReplicas(SIM, s, k)) == At(t) && s.t < t <= s.t + 1.0
    requires QuietUntil(Event(SIM, SetTargetReplicas(SIM, s, k), t), s.t + 2.0)
    requires Event(SIM, SetTargetReplicas(SIM, s, k), t).t == t
    ensures Interval(ENV, s, k) == Jump(Event(SIM, SetTargetReplicas(SIM, s, k), t), s.t + 2.0)
  {
    hide RunInv, SetTarget, Jump, Event, Measure, NextEvent;
    var s0, tEnd := SetTargetReplicas(SIM, s, k), s.t + 2.0;
    assert s0.(stalls := 0) == s0;
    StepToUnfold(SIM, s0, tEnd, true);
    StepToUnfold(SIM, Apply(SIM, s0, Turn(tEnd, true)), tEnd, true);
  }

  lemma NoChange(s: Sim)
    requires s.pool.target == 1
    ensures SetTargetReplicas(SIM, s, 1) == s
  {
    hide CountActive, AddMany, DrainNewest;
  }

  lemma TargetIs(s: Sim)
    requires RunInv(SIM, s)
    ensures s.pool.target == CountActive(s.pool.reps) && s.pool.t == s.t
  {
    hide ScaleInv, TraceOk, Conserved, EnginesOk;
  }

  lemma CountOne(a: Rep)
    requires a.Active()
    ensures CountActive([a]) == 1
  {
    assert [a][1..] == [] && CountActive([a][1..]) == 0;
  }

  lemma CountBoth(a: Rep, b: Rep)
    requires a.Active() && b.Active()
    ensures CountActive([a, b]) == 2
  {
    CountOne(b);
    assert [a, b][1..] == [b];
  }

  // ---- the control intervals ----------------------------------------------------------------------------------------------

  /** Both first jobs run. */
  ghost predicate Early(s: Sim, t: real) {
    && RunInv(SIM, s) && s.t == t && s.trace == TRACE && s.arrivalI == 2 && s.stalls == 0
    && |s.pool.reps| == 1 && BothRun(s.pool.reps[0])
  }

  lemma {:induction false} FirstInterval()
    requires RunInv(SIM, Begin(SIM, TRACE))
    ensures Early(Interval(ENV, Begin(SIM, TRACE), 1), 2.0)
  {
    hide RunInv, Begin, Event, Interval, Jump, NextArrival;
    var s := Begin(SIM, TRACE);
    BeginIs();
    NoChange(s);
    NextOfOne(s, FOUNDER);
    ArrivesNext(s);
    FirstEvent();
    var e := Event(SIM, s, 1.0);
    ArrivesNext(e);
    NextOfOne(e, e.pool.reps[0]);
    BusyInterval(s, 1, 1.0);
    JumpSame(e, 2.0);
    JumpStalls(e, 2.0);
  }

  lemma ArrivesNext(s: Sim)
    requires s.trace == TRACE
    ensures s.arrivalI == 0 ==> NextArrival(s) == At(1.0)
    ensures s.arrivalI == 2 ==> NextArrival(s) == At(5.0)
    ensures s.arrivalI == 3 ==> NextArrival(s) == At(7.0)
    ensures s.arrivalI == 6 ==> NextArrival(s) == Never
  {}

  lemma JumpStalls(s: Sim, t: real)
    ensures Jump(s, t).stalls == s.stalls && Jump(s, t).nDispatched == s.nDispatched
  {}

  lemma {:induction false} SecondInterval(s: Sim)
    requires Early(s, 2.0)
    ensures Early(Interval(ENV, s, 1), 4.0)
  {
    hide RunInv, Interval, Jump, NextArrival;
    TargetIs(s);
    CountOne(s.pool.reps[0]);
    assert s.pool.reps == [s.pool.reps[0]];
    NoChange(s);
    ArrivesNext(s);
    NextOfOne(s, s.pool.reps[0]);
    QuietInterval(s, 1);
    JumpSame(s, 4.0);
    JumpStalls(s, 4.0);
  }

  lemma {:induction false} Boots(s: Sim)
    requires Early(s, 4.0)
    ensures var s0 := SetTargetReplicas(SIM, s, 2);
            s0 == s.(pool := s0.pool) && s0.pool.reps == [s.pool.reps[0], Extra(s.pool.nextRid)]
  {
    hide RunInv, NextArrival;
    TargetIs(s);
    var a, p := s.pool.reps[0], s.pool;
    assert p.reps == [a];
    CountOne(a);
    assert LastPending(p.reps, 4.0) == 4.0;
    assert FirstDraining(p.reps) == 1;
    assert AddMany(SIM.pool, p, 1) == AddMany(SIM.pool, AddOne(SIM.pool, p), 0);
  }

  /** The extra replica runs the long job, the first is idle. */
  ghost predicate Middle(s: Sim) {
    && RunInv(SIM, s) && s.t == 6.0 && s.trace == TRACE && s.arrivalI == 3 && s.stalls == 0
    && |s.pool.reps| == 2 && LongRuns(s.pool.reps[0], s.pool.reps[1]) && !s.pool.reps[1].draining
  }

  lemma {:induction false} ThirdInterval(s: Sim)
    requires Early(s, 4.0)
    ensures Middle(Interval(ENV, s, 2))
  {
    hide RunInv, Interval, Jump, NextArrival, Event, SetTarget;
    ScaleKeeps(SIM, s, 2);
    Boots(s);
    var s0, r, n := SetTargetReplicas(SIM, s, 2), s.pool.reps[0], s.pool.nextRid;
    ArrivesNext(s0);
    NextOfTwo(s0, r, Extra(n));
    SecondEvent(s0, r, n);
    var e := Event(SIM, s0, 5.0);
    assert e.pool.reps == [e.pool.reps[0], e.pool.reps[1]];
    ArrivesNext(e);
    NextOfTwo(e, e.pool.reps[0], e.pool.reps[1]);
    BusyInterval(s, 2, 5.0);
    JumpSame(e, 6.0);
    JumpStalls(e, 6.0);
  }

  lemma {:induction false} Drains(s: Sim)
    requires Middle(s)
    ensures var s0 := SetTargetReplicas(SIM, s, 1);
            s0 == s.(pool := s0.pool) && s0.pool.reps == [s.pool.reps[0], s.pool.reps[1].Drain()]
  {
    hide PoolInv, TraceOk, Conserved, EnginesOk, SetTarget, Rescales, NoNewDrain, CountActive;
    var a, b := s.pool.reps[0], s.pool.reps[1];
    assert s.pool.reps == [a, b];
    TargetIs(s);
    CountBoth(a, b);
    SetTargetKeeps(SIM.pool, s.pool, 1);
    NewestGoes([a, b], SetTarget(SIM.pool, s.pool, 1).reps);
  }

  lemma NewestGoes(before: seq<Rep>, after: seq<Rep>)
    requires |before| == 2 && DrainsNewest(before, after, 1) && before[0].Active() && before[1].Active()
    requires before[0].tReady < before[1].tReady
    ensures after == [before[0], before[1].Drain()]
  {
    assert Newer(before[1], before[0]);
    assert after == [after[0], after[1]] && before == [before[0], before[1]];
    CountBoth(before[0], before[1]);
    if after[0].Active() && after[1].Active() { CountBoth(after[0], after[1]); }
    if !after[0].Active() && !after[1].Active() { CountNeither(after[0], after[1]); }
  }

  lemma CountNeither(a: Rep, b: Rep)
    requires !a.Active() && !b.Active()
    ensures CountActive([a, b]) == 0
  {
    assert [a, b][1..] == [b] && [b][1..] == [] && CountActive([b]) == CountActive([b][1..]);
  }

  ghost predicate Late(s: Sim) {
    && RunInv(SIM, s) && s.t == 8.0 && |s.pool.reps| == 2 && Overloaded(s.pool.reps[0], s.pool.reps[1])
  }

  lemma {:induction false} FourthInterval(s: Sim)
    requires Middle(s)
    ensures Late(Interval(ENV, s, 1))
  {
    hide RunInv, Interval, Jump, NextArrival, Event, SetTarget;
    ScaleKeeps(SIM, s, 1);
    Drains(s);
    var s0, a, b := SetTargetReplicas(SIM, s, 1), s.pool.reps[0], s.pool.reps[1].Drain();
    ArrivesNext(s0);
    NextOfTwo(s0, a, b);
    ThirdEvent(s0, a, b);
    var e := Event(SIM, s0, 7.0);
    assert e.pool.reps == [e.pool.reps[0], e.pool.reps[1]];
    ArrivesNext(e);
    NextOfTwo(e, e.pool.reps[0], e.pool.reps[1]);
    BusyInterval(s, 1, 7.0);
    JumpSame(e, 8.0);
  }

  // ---- the readings ------------------------------------------------------------------------------------------------------------

  /** What the controller reads of a state. */
  ghost predicate Reads(s: Sim, r: C.Reading) {
    r.cur == MaxInt(|s.pool.reps|, LIMITS.kMin) && r.load == Conc(s) && r.t == s.t
  }

  lemma ConcOne(s: Sim, a: Rep)
    requires s.pool.reps == [a] && a.Accepting(s.t)
    ensures Conc(s) == (|a.eng.running| + |a.eng.slot|) as real
  {
    var none := s.pool.reps[1..];
    assert none == [] && InFlight(none, s.t) == 0 && ReadyCount(none, s.t) == 0;
  }

  lemma ConcBoth(s: Sim, a: Rep, b: Rep)
    requires s.pool.reps == [a, b] && a.Accepting(s.t) && b.Accepting(s.t)
    ensures Conc(s) == (|a.eng.running| + |a.eng.slot| + |b.eng.running| + |b.eng.slot|) as real / 2.0
  {
    var rest := s.pool.reps[1..];
    var none := rest[1..];
    assert rest == [b] && none == [] && InFlight(none, s.t) == 0 && ReadyCount(none, s.t) == 0;
    assert InFlight(rest, s.t) == |b.eng.running| + |b.eng.slot| && ReadyCount(rest, s.t) == 1;
    assert InFlight(s.pool.reps, s.t) == |a.eng.running| + |a.eng.slot| + InFlight(rest, s.t);
    assert ReadyCount(s.pool.reps, s.t) == 2;
  }

  lemma ConcFirst(s: Sim, a: Rep, b: Rep)
    requires s.pool.reps == [a, b] && a.Accepting(s.t) && !b.Accepting(s.t)
    ensures Conc(s) == (|a.eng.running| + |a.eng.slot|) as real
  {
    var rest := s.pool.reps[1..];
    var none := rest[1..];
    assert rest == [b] && none == [] && InFlight(none, s.t) == 0 && ReadyCount(none, s.t) == 0;
    assert InFlight(rest, s.t) == 0 && ReadyCount(rest, s.t) == 0;
    assert InFlight(s.pool.reps, s.t) == |a.eng.running| + |a.eng.slot| && ReadyCount(s.pool.reps, s.t) == 1;
  }

  lemma {:induction false} NextRun(i: nat)
    requires TraceOk(SIM.model, TRACE) && i < 4
    ensures Run(ENV, TRACE, DECISIONS[..i + 1]).sim == Interval(ENV, Run(ENV, TRACE, DECISIONS[..i]).sim, DECISIONS[i])
  {
    hide RunInv, TraceOk, Step, Interval, OpenInv;
    var ks := DECISIONS[..i + 1];
    assert ks[..i] == DECISIONS[..i] && ks[i] == DECISIONS[i];
    RunOpen(ENV, TRACE, DECISIONS[..i]);
    StepSim(ENV, Run(ENV, TRACE, DECISIONS[..i]), DECISIONS[i]);
  }

  lemma {:induction false} EarlyReads(s: Sim, t: real)
    requires Early(s, t) && t >= 1.0
    ensures Reads(s, C.Reading(1, 2.0, t))
  {
    hide RunInv;
    assert s.pool.reps == [s.pool.reps[0]];
    ConcOne(s, s.pool.reps[0]);
    hide Conc;
  }

  lemma {:induction false} AllReadings(i: nat)
    requires TraceOk(SIM.model, TRACE) && i < 5
    ensures Reads(Run(ENV, TRACE, DECISIONS[..i]).sim, READINGS[i])
  {
    hide RunInv, TraceOk, Interval, Begin, Run;
    var s0 := Run(ENV, TRACE, DECISIONS[..0]).sim;
    RunsFromBegin();
    BeginIs();
    ConcOne(s0, FOUNDER);
    if i > 0 {
      NextRun(0);
      FirstInterval();
      var s1 := Run(ENV, TRACE, DECISIONS[..1]).sim;
      EarlyReads(s1, 2.0);
      if i > 1 {
        NextRun(1);
        SecondInterval(s1);
        var s2 := Run(ENV, TRACE, DECISIONS[..2]).sim;
        EarlyReads(s2, 4.0);
        if i > 2 { LastReadings(s2, i); }
      }
    }
  }

  lemma {:induction false} LastReadings(s2: Sim, i: nat)
    requires TraceOk(SIM.model, TRACE) && 3 <= i < 5 && s2 == Run(ENV, TRACE, DECISIONS[..2]).sim && Early(s2, 4.0)
    ensures Reads(Run(ENV, TRACE, DECISIONS[..i]).sim, READINGS[i])
  {
    hide RunInv, TraceOk, Interval, Run;
    NextRun(2);
    ThirdInterval(s2);
    var s3 := Run(ENV, TRACE, DECISIONS[..3]).sim;
    if i == 3 {
      assert s3.pool.reps == [s3.pool.reps[0], s3.pool.reps[1]];
      ConcBoth(s3, s3.pool.reps[0], s3.pool.reps[1]);
    } else {
      NextRun(3);
      FourthInterval(s3);
      var s4 := Run(ENV, TRACE, DECISIONS[..4]).sim;
      assert s4.pool.reps == [s4.pool.reps[0], s4.pool.reps[1]];
      ConcFirst(s4, s4.pool.reps[0], s4.pool.reps[1]);
    }
  }

  lemma RunsFromBegin()
    requires TraceOk(SIM.model, TRACE)
    ensures DECISIONS[..0] == [] && Run(ENV, TRACE, DECISIONS[..0]).sim == Begin(SIM, TRACE)
    ensures RunInv(SIM, Begin(SIM, TRACE))
  {
    hide RunInv, TraceOk, Begin, Step;
    BeginKeeps(SIM, TRACE);
    assert DECISIONS[..0] == [];
  }

  // ---- the decisions -----------------------------------------------------------------------------------------------------------

  /** What is asked for, and on record, reading by reading. */
  const ASKED: C.Desired := [(0.0, 1), (2.0, 2), (4.0, 2), (6.0, 1), (8.0, 3)]

  lemma Raws()
    ensures C.HpaRaw(LIMITS, HPA, 1, 0.0) == 1 && C.HpaRaw(LIMITS, HPA, 1, 2.0) == 2
    ensures C.HpaRaw(LIMITS, HPA, 2, 0.5) == 1 && C.HpaRaw(LIMITS, HPA, 2, 3.0) == 3
  {
    assert C.Ceil(0.0) == 0 && C.Ceil(2.0) == 2 && C.Ceil(1.0) == 1 && C.Ceil(6.0) == 6;
  }

  lemma {:induction false} Records(i: nat)
    requires i <= 5
    ensures C.HpaRun(LIMITS, HPA, READINGS[..i]) == ASKED[..i]
  {
    hide C.HpaRule, C.HpaRaw;
    if i > 0 {
      Records(i - 1);
      var r := READINGS[i - 1];
      RecordIs(i - 1);
      C.RuleRecords(LIMITS, HPA, r, ASKED[..i - 1]);
      assert READINGS[..i][..i - 1] == READINGS[..i - 1] && READINGS[..i][i - 1] == r;
      assert ASKED[..i] == ASKED[..i - 1] + [ASKED[i - 1]];
    }
  }

  lemma RecordIs(i: nat)
    requires i < 5
    ensures ASKED[i] == (READINGS[i].t, C.HpaRaw(LIMITS, HPA, READINGS[i].cur, READINGS[i].load))
  {
    hide C.HpaRaw;
    Raws();
  }

  lemma {:induction false} Decides(i: nat)
    requires i < 5
    ensures DECISIONS[i]
            == C.HpaRule(LIMITS, HPA, READINGS[i].cur, READINGS[i].load, READINGS[i].t, C.HpaRun(LIMITS, HPA, READINGS[..i])).0
  {
    hide C.HpaRule, C.HpaRaw, C.HpaRun;
    Records(i);
    Raws();
    var r, dh := READINGS[i], ASKED[..i];
    C.HpaInRange(LIMITS, HPA, r, dh);
    if i == 0 {
      C.LoopDecision(LIMITS, HPA, r, dh);
    } else if i == 1 {
      C.UpDecision(LIMITS, HPA, r.cur, r.load, r.t, dh);
      assert dh[0] == (0.0, 1);
    } else if i == 2 {
      C.UpDecision(LIMITS, HPA, r.cur, r.load, r.t, dh);
    } else if i == 3 {
      C.DownDecision(LIMITS, HPA, r.cur, r.load, r.t, dh);
    } else {
      C.UpDecision(LIMITS, HPA, r.cur, r.load, r.t, dh);
      assert dh[3] == (6.0, 1);
    }
  }

  /** Along this episode the autoscaler makes every decision from what it reads of the cluster, on the control grid; at
      the last one its metric is three times its target and asks for k_max, and it decides on one replica fewer than
      exist. */
  lemma {:induction false} WindowBypassed()
    ensures TraceOk(SIM.model, TRACE) && ReadsConc(ENV, LIMITS, TRACE, DECISIONS, READINGS)
    ensures C.HpaDecides(LIMITS, HPA, READINGS, DECISIONS) && C.OnGrid(LIMITS, READINGS)
    ensures !C.RunStabilised(LIMITS, HPA, READINGS, DECISIONS)
  {
    hide TraceOk, ReadsConc, C.HpaDecides, C.HpaRun, C.HpaRule, C.HpaRaw;
    TraceIsOk();
    ReadsTheCluster();
    DecidesThroughout();
    Raws();
    assert C.Asked(LIMITS, HPA, READINGS, 4) == 3 && DECISIONS[4] == 1;
  }

  lemma {:induction false} ReadsTheCluster()
    requires TraceOk(SIM.model, TRACE)
    ensures ReadsConc(ENV, LIMITS, TRACE, DECISIONS, READINGS)
  {
    hide TraceOk, Run, Conc, RunInv;
    forall i | 0 <= i < |READINGS| ensures Reads(Run(ENV, TRACE, DECISIONS[..i]).sim, READINGS[i]) { AllReadings(i); }
  }

  lemma {:induction false} DecidesThroughout()
    ensures C.HpaDecides(LIMITS, HPA, READINGS, DECISIONS)
  {
    hide C.HpaRun, C.HpaRule;
    forall i | 0 <= i < |READINGS|
      ensures DECISIONS[i]
              == C.HpaRule(LIMITS, HPA, READINGS[i].cur, READINGS[i].load, READINGS[i].t,
                           C.HpaRun(LIMITS, HPA, READINGS[..i])).0
    {
      Decides(i);
    }
  }
}
