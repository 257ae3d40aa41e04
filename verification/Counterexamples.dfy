/** Small runs that show what the program does not promise. */
module Counterexamples {
  import opened Requests
  import opened ReplicaEngines
  import opened ReplicaPool
  import opened Simulator
  import opened SimulatorInvariant
  import opened SimulatorRuns
  import opened Draining
  import opened DrainRuns
  import L = LlmServing
  import R = RequestService

  /** Two replicas with one concurrency slot each, and a policy that always picks the second. */
  const TWO: SimConfig :=
    SimConfig(Rs(R.RsConfig(1, 0.0, (t: real) => 1.0)), PoolSettings(2, 1, 2, 0.0, true, false), (t: real) => 1.0,
              (n: nat) => 1)

  function Job(n: int): Req { Req(n, 1.0, 5.0, 1.0, None, None, None, 0.0, 0, 0.0, 0.0, 0, None) }

  /** Two jobs that arrive together. */
  const JOBS: seq<Req> := [Job(0), Job(1)]

  const IDLE: Rep := Rep(0, 0.0, 0.0, false, None, NewEngine)

  lemma TwoFounders()
    ensures ReplicaPool.Reset(TWO.pool).reps == [IDLE, IDLE.(rid := 1)]
    ensures ReplicaPool.Reset(TWO.pool).target == 2
  {
    var p := Pool(0.0, [], [], 0, false, 0.0, 0, 0.0);
    StartManyFounders(TWO.pool, p, 2);
    var q := StartMany(TWO.pool, p, 2);
    assert q.reps == [q.reps[0], q.reps[1]];
  }

  lemma JobsOk()
    ensures TraceOk(TWO.model, JOBS)
  {}

  /** With both replicas accepting, the policy picks the second. */
  lemma PicksSecond(s: Sim, a: Rep, b: Rep)
    requires s.pool.reps == [a, b] && a.Accepting(s.t) && b.Accepting(s.t)
    ensures Route(TWO, s) == (s.pool, 1)
  {
    var f := (r: Rep) => r.Accepting(s.t);
    var reps, none: seq<Rep> := s.pool.reps, [];
    assert [a][..0] == none && Where(none, f) == [];
    assert Where([a], f) == Where(none, f) + [0];
    assert reps[..1] == [a] && Where(reps, f) == [0, 1];
    hide Where;
  }

  lemma DispatchToSecond(s: Sim, a: Rep, b: Rep)
    requires s.pool.reps == [a, b] && a.Accepting(s.t) && b.Accepting(s.t) && s.arrivalI < |s.trace|
    ensures Dispatch(TWO, s).pool.reps == [a, b.(eng := PushBack(b.eng, s.trace[s.arrivalI]))]
  {
    PicksSecond(s, a, b);
    hide Route, PushBack;
  }

  /** The second founder with the jobs q waiting. */
  function Loaded(q: seq<Req>): Rep { IDLE.(rid := 1, eng := NewEngine.(slot := q)) }

  /** Both jobs are dispatched to the second replica. */
  lemma BothGoToTheSecond(s: Sim)
    requires s == Jump(Begin(TWO, JOBS), 1.0)
    ensures DispatchDue(TWO, s).pool.reps == [IDLE, Loaded([Job(0), Job(1)])] && DispatchDue(TWO, s).t == 1.0
    ensures DispatchDue(TWO, s).arrivalI == 2
  {
    TwoFounders();
    JumpReps(Begin(TWO, JOBS), 1.0);
    hide ReplicaPool.Reset, MoveTo, Route;
    assert s.pool.reps == [IDLE, Loaded([])];
    DispatchToSecond(s, IDLE, Loaded([]));
    var d1 := Dispatch(TWO, s);
    assert d1.pool.reps == [IDLE, Loaded([Job(0)])] by { assert [] + [Job(0)] == [Job(0)]; }
    DispatchToSecond(d1, IDLE, Loaded([Job(0)]));
    var d2 := Dispatch(TWO, d1);
    assert d2.pool.reps == [IDLE, Loaded([Job(0), Job(1)])] by { assert [Job(0)] + [Job(1)] == [Job(0), Job(1)]; }
    assert DispatchDue(TWO, d2) == d2;
    assert DispatchDue(TWO, d1) == d2;
  }

  /** One job starts, and will take five seconds; the other waits. */
  lemma OneRunsOneWaits()
    ensures var e := ServeRep(TWO.model, Loaded([Job(0), Job(1)]), 1.0).eng;
            e.slot == [Job(1)] && |e.running| == 1 && e.next == At(6.0)
    ensures var e := ServeRep(TWO.model, IDLE, 1.0).eng;
            e.slot == [] && e.running == []
  {
    var p := TWO.model.rs;
    var e := Loaded([Job(0), Job(1)]).eng;
    assert R.Advance(p, e, 1.0) == e.(lastT := Some(1.0));
    var e1 := R.AdmitHead(e.(lastT := Some(1.0)), 1.0);
    assert e1.slot == [Job(1)] && |e1.running| == 1;
    assert R.AdmitAll(p, e1, 1.0) == e1;
    assert R.AdmitAll(p, e.(lastT := Some(1.0)), 1.0) == e1;
    assert R.Rate(p, 1) == 1.0 && R.MinLeft(e1.running) == 5.0;
    hide R.MinLeft, R.Rate;
  }

  lemma FirstTurn()
    ensures Iterate(TWO, Begin(TWO, JOBS), 1.0, true) == Advanced(Event(TWO, Begin(TWO, JOBS), 1.0))
  {
    var s := Begin(TWO, JOBS);
    TwoFounders();
    NothingPending(s.pool.reps, 0.0);
    hide Event, ReplicaPool.Reset, NextReady, NextStep;
    assert NextEvent(s) == At(1.0);
    assert s.(stalls := 0) == s;
  }

  lemma NobodyDrains()
    ensures !AnyDraining(Begin(TWO, JOBS).pool.reps)
  {
    TwoFounders();
  }

  /** The first replica is idle; the second runs one job until six o'clock and has the other waiting. */
  ghost predicate OneWaits(a: Rep, b: Rep) {
    && a == IDLE.(eng := a.eng) && b == IDLE.(rid := 1, eng := b.eng)
    && !a.eng.HasWork() && b.eng.slot == [Job(1)] && |b.eng.running| == 1 && b.eng.next == At(6.0)
  }

  /** That is how the arrivals leave them. */
  lemma JobWaits()
    ensures var s := Event(TWO, Begin(TWO, JOBS), 1.0);
            |s.pool.reps| == 2 && OneWaits(s.pool.reps[0], s.pool.reps[1]) && s.t == 1.0 && s.arrivalI == 2
  {
    hide Jump, DispatchDue, Begin, AnyDraining, Serve;
    var s := Begin(TWO, JOBS);
    BothGoToTheSecond(Jump(s, 1.0));
    NobodyDrains();
    EventReps(TWO, s, 1.0);
    OneRunsOneWaits();
  }

  lemma CountTwo(reps: seq<Rep>)
    requires |reps| == 2
    ensures CountActive(reps) == (if reps[0].Active() then 1 else 0) + (if reps[1].Active() then 1 else 0)
  {
    var rest := reps[1..];
    assert rest == [reps[1]] && rest[1..] == [];
    assert CountActive(rest) == (if rest[0].Active() then 1 else 0) + CountActive(rest[1..]);
  }

  lemma NewestOfTwo(before: seq<Rep>, after: seq<Rep>)
    requires |before| == 2 && DrainsNewest(before, after, 1) && before[0].Active() && before[1].Active()
    requires before[0].tReady == before[1].tReady && before[0].rid < before[1].rid
    ensures after == [before[0], before[1].Drain()]
  {
    assert Newer(before[1], before[0]);
    assert after == [after[0], after[1]] && before == [before[0], before[1]];
    CountTwo(before);
    CountTwo(after);
  }

  lemma TargetCounts(c: SimConfig, s: Sim)
    requires SimInv(c, s)
    ensures CountActive(s.pool.reps) == s.pool.target
  {
    hide ScaleInv, TraceOk, Conserved, EnginesOk;
  }

  lemma ScaledDown(s: Sim)
    requires RunInv(TWO, s) && |s.pool.reps| == 2 && OneWaits(s.pool.reps[0], s.pool.reps[1])
    ensures SetTargetReplicas(TWO, s, 1).pool.reps == [s.pool.reps[0], s.pool.reps[1].Drain()]
  {
    hide PoolInv, TraceOk, Conserved, EnginesOk, SetTarget, Rescales, NoNewDrain, DrainsNewest, CountActive;
    var reps := s.pool.reps;
    SetTargetKeeps(TWO.pool, s.pool, 1);
    CountTwo(reps);
    TargetCounts(TWO, s);
    NewestOfTwo(reps, SetTarget(TWO.pool, s.pool, 1).reps);
  }

  /** Both jobs arrive, and the pool is scaled down to one replica. */
  const ARRIVE_AND_SCALE: seq<Action> := [Turn(1.0, true), Scale(1)]

  /** The state then. */
  lemma {:induction false} AfterScaleDown() returns (s2: Sim, a: Rep, b: Rep)
    ensures TraceOk(TWO.model, JOBS) && RunInv(TWO, s2) && s2 == Reached(TWO, JOBS, ARRIVE_AND_SCALE)
    ensures s2.pool.reps == [a, b.Drain()] && OneWaits(a, b) && s2.t == 1.0 && s2.arrivalI == |s2.trace|
  {
    JobsOk();
    hide TraceOk, RunInv, Begin, Event, Iterate, OneWaits;
    BeginKeeps(TWO, JOBS);
    var s0 := Begin(TWO, JOBS);
    var s1 := Apply(TWO, s0, Turn(1.0, true));
    BeginPool(TWO, JOBS);
    FirstTurn();
    assert s1 == Event(TWO, s0, 1.0);
    JobWaits();
    ScaledDown(s1);
    s2, a, b := SetTargetReplicas(TWO, s1, 1), s1.pool.reps[0], s1.pool.reps[1];
    assert ARRIVE_AND_SCALE[1..] == [Scale(1)] && [Scale(1)][1..] == [];
    assert s2 == Apply(TWO, s1, Scale(1));
  }

  /** Draining does not finish what a replica holds: after a scale-down to one replica the second drains with a
      job waiting, and as long as nothing scales up again it keeps that job and is never released. */
  lemma {:induction false} JobIsStranded(acts: seq<Action>)
    requires TraceOk(TWO.model, JOBS) && NeverScalesUp(TWO, Reached(TWO, JOBS, ARRIVE_AND_SCALE), acts)
    ensures Stranded(Reached(TWO, JOBS, ARRIVE_AND_SCALE + acts).pool.reps, 1, [Job(1)])
  {
    var s2, a, b := AfterScaleDown();
    hide TraceOk, RunInv, Begin, NeverScalesUp, ApplyAll;
    assert EndsWith(s2.pool.reps[1].eng.slot, [Job(1)]);
    assert Stranded(s2.pool.reps, 1, [Job(1)]);
    hide Stranded;
    BeginKeeps(TWO, JOBS);
    ApplyAppend(TWO, Begin(TWO, JOBS), ARRIVE_AND_SCALE, acts);
    DrainingNeverServesQueue(TWO, s2, acts, 1, [Job(1)]);
  }

  /** What is pending then: one job to finish at six. */
  lemma JobPending(s: Sim, a: Rep, b: Rep)
    requires s.pool.reps == [a, b.Drain()] && OneWaits(a, b) && s.t == 1.0 && s.arrivalI == |s.trace|
    ensures NextEvent(s) == At(6.0) && Measure(TWO, s) == 2
  {
    var reps := s.pool.reps;
    assert reps == [a] + [b.Drain()] && reps[1..] == [b.Drain()];
    Alone(b.Drain());
    assert NextReady(reps, 1.0) == NextReady(reps[1..], 1.0) && NextStep(reps, 1.0) == NextStep(reps[1..], 1.0);
    assert s.trace[s.arrivalI..] == [];
  }

  lemma Alone(r: Rep)
    requires r.Serving(1.0) && r.eng.next == At(6.0) && |r.eng.running| == 1 && |r.eng.slot| == 1
    ensures NextReady([r], 1.0) == Never && NextStep([r], 1.0) == At(6.0)
    ensures BootingCount([r], 1.0) == 0 && WorkAll(TWO.model, [r]) == 2
  {
    var none: seq<Rep> := [];
    assert [r][1..] == none;
    assert NextReady(none, 1.0) == Never && NextStep(none, 1.0) == Never;
    assert BootingCount(none, 1.0) == 0 && WorkAll(TWO.model, none) == 0;
  }

  lemma StrandedWork(m: Model, reps: seq<Rep>, rid: nat, q: seq<Req>)
    requires m.Rs? && q != [] && Stranded(reps, rid, q)
    ensures WorkAll(m, reps) >= 1 && HasWork(reps)
  {
    var i :| 0 <= i < |reps| && reps[i].rid == rid && reps[i].draining && EndsWith(reps[i].eng.slot, q);
    assert reps[i].eng.HasWork();
    if i == 0 {
    } else {
      assert reps[1..][i - 1] == reps[i];
      StrandedWork(m, reps[1..], rid, q);
    }
  }

  /** A drain can be cut short long before its cap: from the state above it ends by six, with a job left, however
      late the cap; and that it would be was known before it began. */
  lemma {:induction false} DrainEndsEarly(tCap: real)
    ensures TraceOk(TWO.model, JOBS)
    ensures Doomed(TWO.model, Reached(TWO, JOBS, ARRIVE_AND_SCALE).pool.reps)
    ensures var s := Reached(TWO, JOBS, ARRIVE_AND_SCALE + [Drain(tCap)]);
            HasWork(s.pool.reps) && s.t <= 6.0
  {
    hide TraceOk, RunInv, Begin, ApplyAll, NextEvent, Measure, HasWork, Stranded, DrainAll, OneWaits;
    var s2, a, b := AfterScaleDown();
    JobPending(s2, a, b);
    WaitingIsDoomed(s2, a, b);
    OnlyDrains(s2, tCap);
    JobIsStranded([Drain(tCap)]);
    BeginKeeps(TWO, JOBS);
    ApplyAppend(TWO, Begin(TWO, JOBS), ARRIVE_AND_SCALE, [Drain(tCap)]);
    StrandedWork(TWO.model, DrainAll(TWO, s2, tCap).pool.reps, 1, [Job(1)]);
    AtMostOneEvent(s2, tCap);
  }

  lemma WaitingIsDoomed(s: Sim, a: Rep, b: Rep)
    requires s.pool.reps == [a, b.Drain()] && OneWaits(a, b)
    ensures Doomed(TWO.model, s.pool.reps)
  {
    assert s.pool.reps[1].draining && !CanFinish(TWO.model, s.pool.reps[1].eng);
  }

  lemma OnlyDrains(s: Sim, tCap: real)
    requires RunInv(TWO, s)
    ensures NeverScalesUp(TWO, s, [Drain(tCap)]) && ApplyAll(TWO, s, [Drain(tCap)]) == DrainAll(TWO, s, tCap)
  {
    hide RunInv, DrainAll;
    assert [Drain(tCap)][1..] == [];
  }

  lemma MeasureWork(c: SimConfig, s: Sim)
    requires RunInv(c, s)
    ensures Measure(c, s) >= WorkAll(c.model, s.pool.reps)
  {
    hide PoolInv, TraceOk, HeldMs, EnginesOk, WorkAll, WorkAhead, BootingCount;
  }

  lemma {:induction false} AtMostOneEvent(s: Sim, tCap: real)
    requires RunInv(TWO, s) && NextEvent(s) == At(6.0) && Measure(TWO, s) == 2 && s.t == 1.0
    requires WorkAll(TWO.model, DrainAll(TWO, s, tCap).pool.reps) >= 1
    ensures DrainAll(TWO, s, tCap).t <= 6.0
  {
    hide RunInv, NextEvent, DrainAll, EventsBy, WorkAll, Measure;
    var n := DrainStopsAtEvent(TWO, s, tCap);
    EventsCount(TWO, s, n, tCap);
    MeasureWork(TWO, After(TWO, s, n));
    assert n <= 1;
  }

  // ---- a token in less than a step time ---------------------------------------------------------------------------

  /** One sequence at a time, a token every two seconds, prefill at a token a second. */
  const SLOW: L.LlmModel := L.LlmConfig(2.0, 1.0, 1.0, 1, 1.0)

  function OneToken(n: int): Req { Req(n, 1.0, 1.0, 1.0, None, None, None, 0.0, 0, 0.0, 0.0, 0, None) }

  /** Two requests of one token wait on a new replica. */
  const TWO_WAIT: Engine := NewEngine.(slot := [OneToken(0), OneToken(1)])

  /** Decoding is faster than a step time when a batch has just emptied: the first request has its token two seconds
      after its admission, a step time, but the second only one second later, its prefill. */
  lemma TokenInPrefillTime()
    ensures var e1 := L.OnTick(SLOW, TWO_WAIT, 1.0);
            var e2 := L.ServiceStep(SLOW, e1, 3.0);
            var e3 := L.OnTick(SLOW, e2, 3.0);
            && |e1.running| == 1 && e1.next == At(3.0)
            && e2.running == [] && |e2.fin| == 1
            && |e3.running| == 1 && e3.next == At(4.0) && L.StepTime(SLOW, |e3.running|) == 2.0
  {
    var e1 := L.OnTick(SLOW, TWO_WAIT, 1.0);
    AdmitsOne(TWO_WAIT, 1.0);
    assert e1 == TWO_WAIT.(running := [Admit(OneToken(0), 1.0)], slot := [OneToken(1)], next := At(3.0));
    var done := L.Token(Admit(OneToken(0), 1.0), 3.0);
    assert L.Tokens(e1.running, 3.0) == [done] && done.Done() && [done][1..] == [];
    var e2 := L.ServiceStep(SLOW, e1, 3.0);
    assert e2.running == [] && e2.slot == [OneToken(1)] && e2.next == At(3.0) && e2.fin == [done];
    AdmitsOne(e2, 3.0);
  }

  /** With nothing running, a tick admits the head of the queue and nothing else, for one second of prefill. */
  lemma AdmitsOne(e: Engine, t: real)
    requires e.running == [] && e.slot != [] && e.accepting && OnePromptToken(e.slot[0])
    ensures L.TryAdmit(SLOW, e, t) == (L.AdmitHead(e, t), 1.0)
    ensures L.Preempt(SLOW, L.AdmitHead(e, t)) == L.AdmitHead(e, t)
  {
    assert L.KvUsed(e) == 0.0;
    var e' := L.AdmitHead(e, t);
    assert e'.running == [Admit(e.slot[0], t)];
    assert L.TryAdmit(SLOW, e', t) == (e', 0.0);
  }

  predicate OnePromptToken(r: Req) { r.size == 1.0 && r.progress == 0.0 }
}
