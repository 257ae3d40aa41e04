/** The same controllers twice: the source versions read the whole history of scrapes, the ports read only the
    decoded observation. Along any run the two decide alike. */
module PortRefinement {
  import opened Numbers
  import opened Requests
  import opened Observation
  import opened Controllers

  datatype Metric = Kv | Conc | Running

  datatype Kind = Hpa(metric: Metric, hpa: HpaParams) | Queue(queue: QueueParams) | Forecast(forecast: ForecastParams, backlog: real)

  /** What a controller remembers between decisions. */
  datatype Memory = Memory(desired: Desired, cooldown: Cooldown, forecaster: Forecaster)

  function NewMemory(k: Kind): Memory {
    Memory([], NEVER_CHANGED,
           if k.Forecast? then Forecaster(None, NewSmooth(k.forecast)) else Forecaster(None, Smooth(None, 0.0, [], 0)))
  }

  /** The backlog target the source forecaster is built with; the port's is a parameter. */
  const SOURCE_BACKLOG: real := 12.0

  /** The window of the forecaster's input series. */
  function RateWindow(l: Limits): real { Max(l.dt, 30.0) }

  // ---- the source side -------------------------------------------------------------------------------------------

  /** Arrivals within w of tNow, scanning back until a scrape is too old; and the time of the oldest one counted. */
  function ScanBack(hist: seq<ClusterState>, tNow: real, w: real): (nat, Option<real>) {
    if hist == [] || tNow - hist[|hist| - 1].t > w then (0, None)
    else
      var last := hist[|hist| - 1];
      var (n, oldest) := ScanBack(hist[..|hist| - 1], tNow, w);
      (last.arrivals + n, if oldest.Some? then oldest else Some(last.t))
  }

  /** Arrivals per second over a trailing window of the history. */
  function SourceRate(l: Limits, hist: seq<ClusterState>, w: real): real {
    if hist == [] then 0.0
    else
      var tNow := hist[|hist| - 1].t;
      var (n, oldest) := ScanBack(hist, tNow, w);
      if oldest.None? then 0.0 else n as real / Max(tNow - oldest.value, l.dt)
  }

  function SourceMetric(m: Metric, s: ClusterState): real {
    match m
    case Kv => s.satMean
    case Conc => (s.nRunning as real + s.nWaiting as real) / Max(s.nReady as real, 1.0)
    case Running => s.nRunning as real / Max(s.nReady as real, 1.0)
  }

  function SourceDecide(l: Limits, k: Kind, hist: seq<ClusterState>, t: real, mem: Memory): (int, Memory)
    requires hist != []
  {
    var s := hist[|hist| - 1];
    var cur := MaxInt(s.NEffective(), l.kMin);
    var inflight := s.nRunning as real + s.nWaiting as real;
    match k
    case Hpa(metric, p) =>
      var (d, dh) := HpaRule(l, p, cur, SourceMetric(metric, s), t, mem.desired);
      (d, mem.(desired := dh))
    case Queue(p) =>
      var (d, c) := QueueRule(l, p, cur, inflight, t, mem.cooldown);
      (d, mem.(cooldown := c))
    case Forecast(p, _) =>
      var (d, f) := ForecastRule(l, p, SOURCE_BACKLOG, SourceRate(l, hist, RateWindow(l)), inflight, mem.forecaster);
      (d, mem.(forecaster := f))
  }

  /** The source rate, as the loop that scans the history back. */
  method SourceArrivalRate(l: Limits, hist: seq<ClusterState>, w: real) returns (rate: real)
    ensures rate == SourceRate(l, hist, w)
  {
    if hist == [] { return 0.0; }
    var tNow := hist[|hist| - 1].t;
    var n, prev: Option<real>, i := 0, None, |hist|;
    assert hist[..|hist|] == hist;
    while i > 0 && tNow - hist[i - 1].t <= w
      invariant 0 <= i <= |hist| && n >= 0
      invariant var (rest, oldest) := ScanBack(hist[..i], tNow, w);
                ScanBack(hist, tNow, w) == (n + rest, if oldest.Some? then oldest else prev)
    {
      assert hist[..i][..i - 1] == hist[..i - 1];
      n := n + hist[i - 1].arrivals;
      prev := Some(hist[i - 1].t);
      i := i - 1;
    }
    if prev.None? { return 0.0; }
    rate := n as real / Max(tNow - prev.value, l.dt);
  }

  /** What the source controllers scale on: the mean saturation, or what is in the system, or in service, per ready
      replica, of which one is assumed where there is none. */
  lemma SourceMetricIs(s: ClusterState)
    ensures SourceMetric(Kv, s) == s.satMean
    ensures s.nReady >= 1 ==> SourceMetric(Conc, s) * (s.nReady as real) == (s.nRunning + s.nWaiting) as real
    ensures s.nReady >= 1 ==> SourceMetric(Running, s) * (s.nReady as real) == s.nRunning as real
    ensures s.nReady == 0 ==> SourceMetric(Conc, s) == (s.nRunning + s.nWaiting) as real
    ensures s.nReady == 0 ==> SourceMetric(Running, s) == s.nRunning as real
  {
    if s.nReady >= 1 {
      TimesBack((s.nRunning + s.nWaiting) as real, s.nReady as real);
      TimesBack(s.nRunning as real, s.nReady as real);
    }
  }

  lemma TimesBack(x: real, y: real)
    requires y > 0.0
    ensures (x / y) * y == x
  {}

  /** Scrapes in order of time; those from `from` on, and no others, are at most w old. */
  ghost predicate WindowFrom(hist: seq<ClusterState>, w: real, from: nat) {
    && from < |hist| && (forall i, j :: 0 <= i < j < |hist| ==> hist[i].t <= hist[j].t)
    && forall i :: 0 <= i < |hist| ==> (hist[|hist| - 1].t - hist[i].t <= w <==> i >= from)
  }

  /** Whatever the scrape times, the source rate is the number of arrivals within the window by the time since the
      oldest scrape counted, or by one control interval if that is longer. */
  lemma {:induction false} TrailingRate(l: Limits, hist: seq<ClusterState>, w: real, from: nat)
    requires WindowFrom(hist, w, from)
    ensures SourceRate(l, hist, w) * Max(hist[|hist| - 1].t - hist[from].t, l.dt) == StateArrivals(hist[from..]) as real
  {
    ScanFrom(hist, w, from, |hist|);
    assert hist[..|hist|] == hist && hist[from..|hist|] == hist[from..];
    hide ScanBack, StateArrivals;
    TimesBack(StateArrivals(hist[from..]) as real, Max(hist[|hist| - 1].t - hist[from].t, l.dt));
  }

  lemma {:induction false} ScanFrom(hist: seq<ClusterState>, w: real, from: nat, n: nat)
    requires WindowFrom(hist, w, from) && n <= |hist|
    ensures ScanBack(hist[..n], hist[|hist| - 1].t, w)
            == if n <= from then (0, None) else (StateArrivals(hist[from..n]), Some(hist[from].t))
  {
    if n > 0 {
      ScanFrom(hist, w, from, n - 1);
      assert hist[..n][..n - 1] == hist[..n - 1] && hist[..n][n - 1] == hist[n - 1];
      if n > from { assert hist[from..n][..n - 1 - from] == hist[from..n - 1]; }
    }
  }

  // ---- the port side ----------------------------------------------------------------------------------------------

  function ScrapeArrivals(ss: seq<Scrape>): real {
    if ss == [] then 0.0 else ScrapeArrivals(ss[..|ss| - 1]) + ss[|ss| - 1].arrivals
  }

  /** How many of the lags the port uses. */
  function LagsUsed(l: Limits, v: View, n: nat, w: real, progress: real): (k: nat)
    requires n >= 1
    ensures 1 <= k <= n
  {
    var taken := StepIndex(v, progress);
    var usable := MaxInt(1, MinInt(n, taken + 1));
    MaxInt(1, MinInt(usable, Round(w / l.dt) + 1))
  }

  function PortRate(l: Limits, v: View, scrapes: seq<Scrape>, w: real, progress: real): real
    requires scrapes != []
  {
    var k := LagsUsed(l, v, |scrapes|, w, progress);
    ScrapeArrivals(scrapes[|scrapes| - k..]) / Max((k - 1) as real * l.dt, l.dt)
  }

  function PortMetric(m: Metric, s: Scrape): real {
    match m
    case Kv => s.satMean
    case Conc => (s.nRunning + s.nWaiting) / Max(s.nReady, 1.0)
    case Running => s.nRunning / Max(s.nReady, 1.0)
  }

  function PortTarget(l: Limits, v: View, k: Kind, d: Decoded, mem: Memory): (int, Memory)
    requires d.Decoded? && d.scrapes != []
  {
    var s := d.scrapes[|d.scrapes| - 1];
    var cur := MaxInt(Round(s.NEffective()), l.kMin);
    var inflight := s.nRunning + s.nWaiting;
    match k
    case Hpa(metric, p) =>
      var (r, dh) := HpaRule(l, p, cur, PortMetric(metric, s), d.t, mem.desired);
      (r, mem.(desired := dh))
    case Queue(p) =>
      var (r, c) := QueueRule(l, p, cur, inflight, d.t, mem.cooldown);
      (r, mem.(cooldown := c))
    case Forecast(p, backlog) =>
      var (r, f) := ForecastRule(l, p, backlog, PortRate(l, v, d.scrapes, RateWindow(l), d.progress), inflight, mem.forecaster);
      (r, mem.(forecaster := f))
  }

  /** The port's decision on an observation of the right shape. */
  function PortDecide(l: Limits, v: View, k: Kind, obs: seq<real>, mem: Memory): (int, Memory)
    requires |obs| == v.history * |v.features| + 1
  {
    var (r, mem') := PortTarget(l, v, k, Decode(v, obs), mem);
    (Clamp(l, r as real), mem')
  }

  // ---- the two arrival rates -----------------------------------------------------------------------------------------

  function StateArrivals(hist: seq<ClusterState>): nat {
    if hist == [] then 0 else StateArrivals(hist[..|hist| - 1]) + hist[|hist| - 1].arrivals
  }

  /** Control times are exactly i*dt. */
  ghost predicate OnGrid(v: View, hist: seq<ClusterState>) {
    forall i :: 0 <= i < |hist| ==> hist[i].t == StepTime(v, i)
  }

  lemma GridGap(v: View, i: int, j: int, m: int)
    ensures StepTime(v, i) - StepTime(v, j) == StepTime(v, i - j)
    ensures StepTime(v, i) <= StepTime(v, m) <==> i <= m
  {
    assert (i - j) as real == i as real - j as real;
    if i <= m { assert (m - i) as real * v.dt >= 0.0; } else { assert (i - m - 1) as real * v.dt >= 0.0; }
    assert StepTime(v, i) - StepTime(v, m) == (i - m) as real * v.dt;
  }

  /** On the grid, the scan back over a window of m intervals counts exactly the last m+1 scrapes. */
  lemma {:induction false} ScanIs(v: View, hist: seq<ClusterState>, n: nat, j: nat, m: nat)
    requires OnGrid(v, hist) && j <= n <= |hist| && n >= 1
    ensures var from := if n - 1 >= m then n - 1 - m else 0;
            ScanBack(hist[..j], StepTime(v, n - 1), StepTime(v, m))
            == if j <= from then (0, None) else (StateArrivals(hist[from..j]), Some(StepTime(v, from)))
  {
    hide OnGrid, StepTime;
    var from := if n - 1 >= m then n - 1 - m else 0;
    if j > 0 {
      var last := hist[j - 1];
      LastOnGrid(v, hist, j - 1);
      GridGap(v, n - 1, j - 1, 0);
      GridGap(v, n - j, 0, m);
      assert hist[..j][..j - 1] == hist[..j - 1];
      ScanIs(v, hist, n, j - 1, m);
      if j - 1 >= from { assert hist[from..j][..j - 1 - from] == hist[from..j - 1]; }
    }
  }

  lemma LastOnGrid(v: View, hist: seq<ClusterState>, i: nat)
    requires OnGrid(v, hist) && i < |hist|
    ensures hist[i].t == StepTime(v, i)
  {}

  lemma {:induction false} ArrivalsMatch(hist: seq<ClusterState>, ss: seq<Scrape>)
    requires |ss| == |hist| && forall i :: 0 <= i < |hist| ==> ss[i] == ScrapeOf(hist[i])
    ensures ScrapeArrivals(ss) == StateArrivals(hist) as real
  {
    if hist != [] { ArrivalsMatch(hist[..|hist| - 1], ss[..|ss| - 1]); }
  }

  /** Nothing a decoder would see is clipped. */
  ghost predicate AllUnclipped(v: View, hist: seq<ClusterState>) {
    forall i :: 0 <= i < |hist| ==> Unclipped(v, hist[i])
  }

  /** The decoded observation of the history so far. */
  function Shown(v: View, hist: seq<ClusterState>): Decoded
    requires hist != []
  {
    Decode(v, Observe(v, hist, |hist| - 1))
  }

  lemma {:induction false} ShownIs(v: View, hist: seq<ClusterState>)
    requires hist != [] && |hist| - 1 <= v.nSteps && AllUnclipped(v, hist)
    ensures var d := Shown(v, hist);
            && |Observe(v, hist, |hist| - 1)| == v.history * |v.features| + 1
            && d.Decoded? && |d.scrapes| == v.history
            && d.t == StepTime(v, |hist| - 1) && StepIndex(v, d.progress) == |hist| - 1
            && forall k :: 0 <= k < v.history && |hist| + k >= v.history ==>
                 d.scrapes[k] == ScrapeOf(hist[|hist| - v.history + k])
  {
    hide Observe, Decode, Unclipped, StepIndex, StepTime, EpisodeProgress, ScrapeOf;
    ObservedRow(v, hist, |hist| - 1, v.history - 1);
    ProgressStep(v, |hist| - 1);
    forall k | 0 <= k < v.history && |hist| + k >= v.history
      ensures Shown(v, hist).Decoded? && |Shown(v, hist).scrapes| == v.history
      ensures Shown(v, hist).scrapes[k] == ScrapeOf(hist[|hist| - v.history + k])
    {
      DecodeInvertsObserve(v, hist, |hist| - 1, k);
    }
    DecodeInvertsObserve(v, hist, |hist| - 1, v.history - 1);
  }

  lemma WindowSteps(v: View, m: nat)
    ensures Round(StepTime(v, m) / v.dt) == m
  {
    Cancel(v.dt, m as real);
    assert StepTime(v, m) == v.dt * (m as real);
    RoundInteger(m);
  }

  /** Scrapes both sides count: the last m+1, or all there are. */
  function Counted(n: nat, m: nat): nat { if n <= m + 1 then n else m + 1 }

  /** The scrapes counted and the seconds they span. */
  function RateOver(l: Limits, v: View, arrivals: real, k: nat): real { arrivals / Max(StepTime(v, k - 1), l.dt) }

  lemma {:induction false} SourceRateIs(l: Limits, v: View, hist: seq<ClusterState>, m: nat)
    requires hist != [] && OnGrid(v, hist)
    ensures var k := Counted(|hist|, m);
            SourceRate(l, hist, StepTime(v, m)) == RateOver(l, v, StateArrivals(hist[|hist| - k..]) as real, k)
  {
    hide StepTime, ScanBack, StateArrivals;
    var n, k := |hist|, Counted(|hist|, m);
    assert hist[..n] == hist && hist[n - k..n] == hist[n - k..];
    ScanIs(v, hist, n, n, m);
    GridGap(v, n - 1, n - k, 0);
    assert hist[n - 1].t == StepTime(v, n - 1);
  }

  lemma {:induction false} PortRateIs(l: Limits, v: View, scrapes: seq<Scrape>, n: nat, m: nat, progress: real)
    requires n >= 1 && |scrapes| == v.history && StepIndex(v, progress) == n - 1 && l.dt == v.dt && m <= v.history - 1
    ensures var k := Counted(n, m);
            && k <= |scrapes|
            && PortRate(l, v, scrapes, StepTime(v, m), progress)
               == RateOver(l, v, ScrapeArrivals(scrapes[|scrapes| - k..]), k)
  {
    WindowSteps(v, m);
    hide Round, StepIndex;
    assert LagsUsed(l, v, |scrapes|, StepTime(v, m), progress) == Counted(n, m);
  }

  /** The rate over the decoded lags is the rate over the whole history. */
  lemma {:induction false} RatesAgree(l: Limits, v: View, hist: seq<ClusterState>, m: nat)
    requires hist != [] && |hist| - 1 <= v.nSteps && AllUnclipped(v, hist) && OnGrid(v, hist)
    requires l.dt == v.dt && m <= v.history - 1
    ensures var d := Shown(v, hist);
            && d.Decoded? && d.scrapes != []
            && PortRate(l, v, d.scrapes, StepTime(v, m), d.progress) == SourceRate(l, hist, StepTime(v, m))
  {
    hide Observe, Decode, StepIndex, ScrapeOf, Round, PortRate, SourceRate, StepTime, RateOver, AllUnclipped, OnGrid,
         ScrapeArrivals, StateArrivals;
    var n, d, k := |hist|, Shown(v, hist), Counted(|hist|, m);
    ShownIs(v, hist);
    SourceRateIs(l, v, hist, m);
    PortRateIs(l, v, d.scrapes, n, m, d.progress);
    var ss, hs := d.scrapes[v.history - k..], hist[n - k..];
    forall i | 0 <= i < k ensures ss[i] == ScrapeOf(hs[i]) {
      assert d.scrapes[v.history - k + i] == ScrapeOf(hist[n - v.history + (v.history - k + i)]);
    }
    ArrivalsMatch(hs, ss);
  }

  // ---- one decision --------------------------------------------------------------------------------------------------

  /** Under these conditions the port can see all that the source uses: the forecaster's window spans a whole
      number of intervals inside the stack, and its backlog target is the source's. */
  ghost predicate Portable(l: Limits, v: View, k: Kind) {
    && l.dt == v.dt
    && (k.Forecast? ==> k.backlog == SOURCE_BACKLOG
                        && exists m: nat :: m <= v.history - 1 && RateWindow(l) == StepTime(v, m))
  }

  lemma CountsAdd(s: ClusterState)
    ensures Round(ScrapeOf(s).NEffective()) == s.NEffective()
  {
    assert ScrapeOf(s).NEffective() == s.NEffective() as real;
    RoundInteger(s.NEffective());
  }

  lemma MetricsAgree(m: Metric, s: ClusterState)
    ensures PortMetric(m, ScrapeOf(s)) == SourceMetric(m, s)
  {}

  lemma InRange(l: Limits, k: Kind, hist: seq<ClusterState>, t: real, mem: Memory)
    requires hist != []
    ensures l.kMin <= SourceDecide(l, k, hist, t, mem).0 <= l.kMax
  {
    hide HpaRaw, QueueRaw, Recent, Largest, Smallest, HoltUpdate, HoltForecast, EwmaUpdate, SourceRate, SourceMetric;
  }

  lemma {:induction false} TargetsAgree(l: Limits, v: View, k: Kind, hist: seq<ClusterState>, d: Decoded, mem: Memory)
    requires hist != [] && d.Decoded? && d.scrapes != []
    requires d.scrapes[|d.scrapes| - 1] == ScrapeOf(hist[|hist| - 1]) && d.t == hist[|hist| - 1].t
    requires k.Forecast? ==>
               && k.backlog == SOURCE_BACKLOG
               && PortRate(l, v, d.scrapes, RateWindow(l), d.progress) == SourceRate(l, hist, RateWindow(l))
    ensures PortTarget(l, v, k, d, mem) == SourceDecide(l, k, hist, hist[|hist| - 1].t, mem)
  {
    hide RateWindow, PortRate, SourceRate, HpaRule, QueueRule, ForecastRule, SourceMetric, PortMetric, Round;
    var s := hist[|hist| - 1];
    CountsAdd(s);
    match k
    case Hpa(metric, p) => MetricsAgree(metric, s);
    case Queue(p) =>
    case Forecast(p, backlog) =>
  }

  /** On the same history and with the same memory, the port decides as the source does. */
  lemma {:induction false} DecisionsAgree(l: Limits, v: View, k: Kind, hist: seq<ClusterState>, mem: Memory)
    requires Portable(l, v, k) && hist != [] && |hist| - 1 <= v.nSteps && AllUnclipped(v, hist) && OnGrid(v, hist)
    ensures |Observe(v, hist, |hist| - 1)| == v.history * |v.features| + 1
    ensures PortDecide(l, v, k, Observe(v, hist, |hist| - 1), mem) == SourceDecide(l, k, hist, hist[|hist| - 1].t, mem)
  {
    hide Observe, Decode, StepIndex, StepTime, AllUnclipped, RateWindow, PortRate, SourceRate, Clamp, PortTarget,
         SourceDecide, ScrapeOf;
    var n, d := |hist|, Shown(v, hist);
    assert hist[n - 1].t == StepTime(v, n - 1);
    if k.Forecast? {
      var m: nat :| m <= v.history - 1 && RateWindow(l) == StepTime(v, m);
      RatesAgree(l, v, hist, m);
    }
    hide OnGrid;
    ShownIs(v, hist);
    assert d.scrapes[v.history - 1] == ScrapeOf(hist[n - v.history + (v.history - 1)]);
    TargetsAgree(l, v, k, hist, d, mem);
    InRange(l, k, hist, hist[n - 1].t, mem);
    ClampCount(l, SourceDecide(l, k, hist, hist[n - 1].t, mem).0);
  }

  // ---- whole runs -----------------------------------------------------------------------------------------------------

  /** The source's memory after its first n decisions along hist. */
  function SourceRun(l: Limits, k: Kind, hist: seq<ClusterState>, n: nat): Memory
    requires n <= |hist|
  {
    if n == 0 then NewMemory(k) else SourceDecide(l, k, hist[..n], hist[n - 1].t, SourceRun(l, k, hist, n - 1)).1
  }

  /** The source's n-th decision along hist, counting from 0. */
  function SourceDecision(l: Limits, k: Kind, hist: seq<ClusterState>, n: nat): int
    requires n < |hist|
  {
    SourceDecide(l, k, hist[..n + 1], hist[n].t, SourceRun(l, k, hist, n)).0
  }

  function Shows(v: View, hist: seq<ClusterState>, n: nat): (obs: seq<real>)
    requires 1 <= n <= |hist|
    ensures |obs| == v.history * |v.features| + 1
  {
    ObservedRow(v, hist[..n], n - 1, 0);
    hide Observe, Scaled, Lag;
    Observe(v, hist[..n], n - 1)
  }

  function PortRun(l: Limits, v: View, k: Kind, hist: seq<ClusterState>, n: nat): Memory
    requires n <= |hist|
  {
    if n == 0 then NewMemory(k) else PortDecide(l, v, k, Shows(v, hist, n), PortRun(l, v, k, hist, n - 1)).1
  }

  function PortDecision(l: Limits, v: View, k: Kind, hist: seq<ClusterState>, n: nat): int
    requires n < |hist|
  {
    PortDecide(l, v, k, Shows(v, hist, n + 1), PortRun(l, v, k, hist, n)).0
  }

  lemma Prefixes(v: View, hist: seq<ClusterState>, n: nat)
    requires AllUnclipped(v, hist) && OnGrid(v, hist) && 1 <= n <= |hist|
    ensures AllUnclipped(v, hist[..n]) && OnGrid(v, hist[..n])
  {
    hide Unclipped, StepTime;
  }

  lemma {:induction false} MemoriesAgree(l: Limits, v: View, k: Kind, hist: seq<ClusterState>, n: nat)
    requires Portable(l, v, k) && |hist| <= v.nSteps + 1 && AllUnclipped(v, hist) && OnGrid(v, hist) && n <= |hist|
    ensures PortRun(l, v, k, hist, n) == SourceRun(l, k, hist, n)
  {
    hide Portable, AllUnclipped, OnGrid, PortDecide, SourceDecide, Observe;
    if n > 0 {
      MemoriesAgree(l, v, k, hist, n - 1);
      Prefixes(v, hist, n);
      DecisionsAgree(l, v, k, hist[..n], SourceRun(l, k, hist, n - 1));
    }
  }

  /** Along any run whose control times are on the grid and whose lags are not clipped, the port, which sees only
      the decoded observation, makes the source's decision at every step. */
  lemma {:induction false} PortIsExact(l: Limits, v: View, k: Kind, hist: seq<ClusterState>, n: nat)
    requires Portable(l, v, k) && |hist| <= v.nSteps + 1 && AllUnclipped(v, hist) && OnGrid(v, hist) && n < |hist|
    ensures PortDecision(l, v, k, hist, n) == SourceDecision(l, k, hist, n)
  {
    hide Portable, AllUnclipped, OnGrid, PortDecide, SourceDecide, Observe;
    MemoriesAgree(l, v, k, hist, n);
    Prefixes(v, hist, n + 1);
    DecisionsAgree(l, v, k, hist[..n + 1], SourceRun(l, k, hist, n));
  }
}
