/** What the source controllers decide along a history of scrapes: the promises of the rules, in terms of what was
    scraped. */
module SourceRuns {
  import opened Numbers
  import opened Requests
  import opened Observation
  import opened Controllers
  import opened Forecasting
  import opened PortRefinement

  /** The decisions along hist. */
  function Decisions(l: Limits, k: Kind, hist: seq<ClusterState>): (ks: seq<int>)
    ensures |ks| == |hist| && forall n :: 0 <= n < |hist| ==> ks[n] == SourceDecision(l, k, hist, n)
  {
    seq(|hist|, n requires 0 <= n < |hist| => SourceDecision(l, k, hist, n))
  }

  /** Every replica that exists, ready, booting or draining; k_min at least. */
  function Existing(l: Limits, s: ClusterState): int {
    var n := s.nReady + s.nBooting + s.nDraining;
    if n < l.kMin then l.kMin else n
  }

  // ---- the concurrency rule --------------------------------------------------------------------------------------

  /** What it reads: the replicas that exist, everything in flight, and the time. */
  function QueueReads(l: Limits, hist: seq<ClusterState>): (rs: seq<Reading>)
    ensures |rs| == |hist|
  {
    seq(|hist|, n requires 0 <= n < |hist| =>
      Reading(Existing(l, hist[n]), (hist[n].nRunning + hist[n].nWaiting) as real, hist[n].t))
  }

  lemma QueueStep(l: Limits, p: QueueParams, hist: seq<ClusterState>, n: nat, mem: Memory)
    requires n < |hist|
    ensures var r := QueueReads(l, hist)[n];
            var (k, st) := QueueRule(l, p, r.cur, r.load, r.t, mem.cooldown);
            SourceDecide(l, Queue(p), hist[..n + 1], hist[n].t, mem) == (k, mem.(cooldown := st))
  {
    hide QueueRule;
    assert hist[n].nRunning as real + hist[n].nWaiting as real == (hist[n].nRunning + hist[n].nWaiting) as real;
  }

  lemma {:induction false} QueueMemory(l: Limits, p: QueueParams, hist: seq<ClusterState>, n: nat)
    requires n <= |hist|
    ensures SourceRun(l, Queue(p), hist, n).cooldown == QueueRun(l, p, QueueReads(l, hist)[..n])
  {
    var rs := QueueReads(l, hist);
    hide QueueRule, QueueReads, SourceDecide;
    if n > 0 {
      QueueMemory(l, p, hist, n - 1);
      QueueStep(l, p, hist, n - 1, SourceRun(l, Queue(p), hist, n - 1));
      assert rs[..n][..n - 1] == rs[..n - 1] && rs[..n][n - 1] == rs[n - 1];
    }
  }

  /** Along any history the source decides, from what it reads of each scrape, as the rule does along a run: what is
      proved of every run of the rule holds of the source. */
  lemma {:induction false} QueueFollowsRule(l: Limits, p: QueueParams, hist: seq<ClusterState>)
    ensures QueueDecides(l, p, QueueReads(l, hist), Decisions(l, Queue(p), hist))
  {
    var rs, ks := QueueReads(l, hist), Decisions(l, Queue(p), hist);
    forall n | 0 <= n < |rs|
      ensures ks[n] == QueueRule(l, p, rs[n].cur, rs[n].load, rs[n].t, QueueRun(l, p, rs[..n])).0
    {
      QueueMemory(l, p, hist, n);
      QueueStep(l, p, hist, n, SourceRun(l, Queue(p), hist, n));
      hide QueueRule, QueueReads, SourceDecide, QueueRun, SourceRun;
    }
    hide QueueRule, QueueReads, QueueRun, Decisions;
  }

  /** At every scrape the decision covers what is running and waiting, except where it would reverse a move made
      within the cooldown. */
  lemma {:induction false} QueueSourceCovers(l: Limits, p: QueueParams, hist: seq<ClusterState>, n: nat)
    requires n < |hist| && hist[n].t + 1000000000.0 >= p.cooldown
    ensures var s, ks := hist[n], Decisions(l, Queue(p), hist);
            CoversLoad(l, p, Existing(l, s), (s.nRunning + s.nWaiting) as real, ks[n])
            || (p.cooldown > 0.0 && exists j :: 0 <= j < n && Reverses(l, p, QueueReads(l, hist), ks, j, n))
  {
    QueueFollowsRule(l, p, hist);
    QueueTracks(l, p, QueueReads(l, hist), Decisions(l, Queue(p), hist), n);
    hide CoversLoad, Reverses, QueueDecides, Decisions;
  }

  // ---- horizontal pod autoscaling ---------------------------------------------------------------------------------

  function HpaReads(l: Limits, m: Metric, hist: seq<ClusterState>): (rs: seq<Reading>)
    ensures |rs| == |hist|
  {
    seq(|hist|, n requires 0 <= n < |hist| => Reading(Existing(l, hist[n]), SourceMetric(m, hist[n]), hist[n].t))
  }

  lemma HpaStep(l: Limits, m: Metric, p: HpaParams, hist: seq<ClusterState>, n: nat, mem: Memory)
    requires n < |hist|
    ensures var r := HpaReads(l, m, hist)[n];
            var (k, dh) := HpaRule(l, p, r.cur, r.load, r.t, mem.desired);
            SourceDecide(l, Hpa(m, p), hist[..n + 1], hist[n].t, mem) == (k, mem.(desired := dh))
  {
    hide HpaRule, SourceMetric;
  }

  lemma {:induction false} HpaMemory(l: Limits, m: Metric, p: HpaParams, hist: seq<ClusterState>, n: nat)
    requires n <= |hist|
    ensures SourceRun(l, Hpa(m, p), hist, n).desired == HpaRun(l, p, HpaReads(l, m, hist)[..n])
  {
    var rs := HpaReads(l, m, hist);
    hide HpaRule, HpaReads, SourceDecide;
    if n > 0 {
      HpaMemory(l, m, p, hist, n - 1);
      HpaStep(l, m, p, hist, n - 1, SourceRun(l, Hpa(m, p), hist, n - 1));
      assert rs[..n][..n - 1] == rs[..n - 1] && rs[..n][n - 1] == rs[n - 1];
    }
  }

  /** Along any history the source decides, from what it reads of each scrape, as the rule does along a run. */
  lemma {:induction false} HpaFollowsRule(l: Limits, m: Metric, p: HpaParams, hist: seq<ClusterState>)
    ensures HpaDecides(l, p, HpaReads(l, m, hist), Decisions(l, Hpa(m, p), hist))
  {
    var rs, ks := HpaReads(l, m, hist), Decisions(l, Hpa(m, p), hist);
    forall n | 0 <= n < |rs|
      ensures ks[n] == HpaRule(l, p, rs[n].cur, rs[n].load, rs[n].t, HpaRun(l, p, rs[..n])).0
    {
      HpaMemory(l, m, p, hist, n);
      HpaStep(l, m, p, hist, n, SourceRun(l, Hpa(m, p), hist, n));
      hide HpaRule, HpaReads, SourceDecide, HpaRun, SourceRun;
    }
    hide HpaRule, HpaReads, HpaRun, Decisions;
  }

  // ---- forecast then threshold ----------------------------------------------------------------------------------------

  /** At the n-th scrape the rate over the last thirty seconds, or the control interval if that is longer, is x. */
  predicate ReadsRate(l: Limits, hist: seq<ClusterState>, x: real, n: nat)
    requires n < |hist|
  {
    SourceRate(l, hist[..n + 1], if l.dt > 30.0 then l.dt else 30.0) == x
  }

  ghost predicate SteadyRate(l: Limits, hist: seq<ClusterState>, x: real) {
    forall n :: 0 <= n < |hist| ==> ReadsRate(l, hist, x, n)
  }

  /** The memory after n values x. */
  ghost predicate Learned(p: ForecastParams, x: real, n: nat, f: Forecaster) {
    if n == 0 then f.ewma == None && f.holt == NewSmooth(p)
    else f.ewma == Some(x) && Matches(Flat(p, x), f.holt) && f.holt.i == n
  }

  lemma {:induction false} SteadyStep(l: Limits, p: ForecastParams, x: real, inflight: real, n: nat, f: Forecaster)
    requires Learned(p, x, n, f)
    ensures var (k, f') := ForecastRule(l, p, 12.0, x, inflight, f);
            Learned(p, x, n + 1, f') && Provisioned(l, p, 12.0, x, inflight, k)
  {
    hide HoltForecast, Steps, Threshold, Provisioned, Blend, HoltUpdate;
    var g, h := Flat(p, x), HoltUpdate(p, f.holt, x);
    HoltConstant(p, x);
    assert g.At(f.holt.i) == x;
    if n > 0 {
      HoltStaysMatched(p, g, f.holt);
      SameBlend(p.alpha, x);
    }
    HoltExtrapolates(g, h, Steps(l, p));
    assert g.At(h.i - 1 + Steps(l, p)) == x;
    ThresholdCovers(l, p, 12.0, x, inflight);
    hide Flat, Matches;
  }

  lemma ForecastStep(l: Limits, p: ForecastParams, b: real, hist: seq<ClusterState>, n: nat, mem: Memory, x: real)
    requires n < |hist| && ReadsRate(l, hist, x, n)
    ensures var (k, f) := ForecastRule(l, p, 12.0, x, (hist[n].nRunning + hist[n].nWaiting) as real, mem.forecaster);
            SourceDecide(l, Forecast(p, b), hist[..n + 1], hist[n].t, mem) == (k, mem.(forecaster := f))
  {
    hide ForecastRule, SourceRate;
    assert hist[n].nRunning as real + hist[n].nWaiting as real == (hist[n].nRunning + hist[n].nWaiting) as real;
  }

  lemma {:induction false} SteadyMemory(l: Limits, p: ForecastParams, b: real, hist: seq<ClusterState>, x: real, n: nat)
    requires SteadyRate(l, hist, x) && n <= |hist|
    ensures Learned(p, x, n, SourceRun(l, Forecast(p, b), hist, n).forecaster)
  {
    hide Learned, ForecastRule, SourceDecide, ReadsRate, Provisioned;
    if n > 0 {
      SteadyMemory(l, p, b, hist, x, n - 1);
      assert ReadsRate(l, hist, x, n - 1);
      var mem := SourceRun(l, Forecast(p, b), hist, n - 1);
      ForecastStep(l, p, b, hist, n - 1, mem, x);
      SteadyStep(l, p, x, (hist[n - 1].nRunning + hist[n - 1].nWaiting) as real, n - 1, mem.forecaster);
    } else {
      NothingLearned(p, x, b);
    }
  }

  lemma NothingLearned(p: ForecastParams, x: real, b: real)
    ensures Learned(p, x, 0, NewMemory(Forecast(p, b)).forecaster)
  {}

  /** While requests arrive at a constant rate, every decision of the source forecaster, with or without trend and
      season and from the first on, is right for that rate and for what is in flight at twelve a replica. */
  lemma {:induction false} SteadyRateIsServed(l: Limits, p: ForecastParams, b: real, hist: seq<ClusterState>, x: real, n: nat)
    requires SteadyRate(l, hist, x) && n < |hist|
    ensures Provisioned(l, p, 12.0, x, (hist[n].nRunning + hist[n].nWaiting) as real,
                        Decisions(l, Forecast(p, b), hist)[n])
  {
    hide Learned, ForecastRule, SourceDecide, ReadsRate, Provisioned, SourceRun;
    SteadyMemory(l, p, b, hist, x, n);
    assert ReadsRate(l, hist, x, n);
    var mem := SourceRun(l, Forecast(p, b), hist, n);
    ForecastStep(l, p, b, hist, n, mem, x);
    SteadyStep(l, p, x, (hist[n].nRunning + hist[n].nWaiting) as real, n, mem.forecaster);
  }
}
