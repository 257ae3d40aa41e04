/** The controllers as objects that carry their memory from one decision to the next. */
module ControllerObjects {
  import opened Requests
  import opened Numbers
  import opened Observation
  import opened Controllers
  import opened PortRefinement

  lemma DecodedShape(v: View, obs: seq<real>)
    requires |obs| == v.history * |v.features| + 1
    ensures Decode(v, obs).Decoded? && |Decode(v, obs).scrapes| == v.history
  {
    hide ScrapeAt, StepIndex, StepTime;
  }

  /** Single exponential smoothing. */
  class Ewma {
    const alpha: real
    var level: Option<real>

    constructor (alpha: real)
      ensures this.alpha == alpha && level == None
    {
      this.alpha := alpha;
      level := None;
    }

    method Update(x: real)
      modifies this
      ensures level == EwmaUpdate(alpha, old(level), x)
    {
      level := if level.None? then Some(x) else Some(Blend(alpha, x, level.value));
    }
  }

  /** Holt's smoothing: level, trend and an optional season. */
  class Holt {
    const p: ForecastParams
    var level: Option<real>
    var trend: real
    var season: seq<real>
    var i: nat

    constructor (p: ForecastParams)
      ensures this.p == p
      ensures State() == NewSmooth(p)
    {
      this.p := p;
      level, trend, season, i := None, 0.0, NewSmooth(p).season, 0;
    }

    function State(): Smooth
      reads this
    {
      Smooth(level, trend, season, i)
    }

    method Update(x: real)
      modifies this
      ensures State() == HoltUpdate(p, old(State()), x)
    {
      hide Blend;
      var k := if |season| > 0 then i % |season| else 0;
      var e := if |season| > 0 then season[k] else 0.0;
      var y := x;
      if level.None? {
        trend := 0.0;
      } else {
        y := Blend(p.alpha, x - e, level.value + trend);
        trend := Blend(p.beta, y - level.value, trend);
      }
      level := Some(y);
      if |season| > 0 {
        season := season[k := Blend(p.gamma, x - y, e)];
      }
      i := i + 1;
    }
  }

  /** The desired counts recorded at most w before t, collected in order. */
  method Collect(dh: Desired, t: real, w: real) returns (ks: seq<int>)
    ensures ks == Recent(dh, t, w)
  {
    ks := [];
    for i := 0 to |dh|
      invariant ks == Recent(dh[..i], t, w)
    {
      assert dh[..i + 1][..i] == dh[..i];
      if t - dh[i].0 <= w { ks := ks + [dh[i].1]; }
    }
    assert dh[..|dh|] == dh;
  }

  /** Horizontal pod autoscaling over the whole history. */
  class HpaSource {
    const l: Limits
    const metric: Metric
    const p: HpaParams
    var desiredHist: Desired

    constructor (l: Limits, metric: Metric, p: HpaParams)
      ensures this.l == l && this.metric == metric && this.p == p && desiredHist == []
    {
      this.l, this.metric, this.p := l, metric, p;
      desiredHist := [];
    }

    function Kept(): Memory
      reads this
    {
      NewMemory(Hpa(metric, p)).(desired := desiredHist)
    }

    method Decide(hist: seq<ClusterState>, t: real) returns (k: int)
      requires hist != []
      modifies this
      ensures (k, Kept()) == SourceDecide(l, Hpa(metric, p), hist, t, old(Kept()))
    {
      var s := hist[|hist| - 1];
      k, desiredHist := HpaStep(l, p, MaxInt(s.NEffective(), l.kMin), SourceMetric(metric, s), t, desiredHist);
    }
  }

  /** The decision logic both versions spell out. */
  method HpaStep(l: Limits, p: HpaParams, cur: int, m: real, t: real, dh: Desired) returns (k: int, dh': Desired)
    ensures (k, dh') == HpaRule(l, p, cur, m, t, dh)
  {
    if p.target <= 0.0 { return Clamp(l, cur as real), dh; }
    var desired := HpaRaw(l, p, cur, m);
    dh' := dh + [(t, desired)];
    if desired > cur {
      if p.upWindow > 0.0 {
        var w := Collect(dh', t, p.upWindow);
        if w != [] { desired := Smallest(w); }
      }
      desired := MinInt(desired, MaxInt(cur + 4, cur * 2));
    } else if desired < cur {
      var w := Collect(dh', t, p.downWindow);
      if w != [] { desired := Largest(w); }
      desired := MaxInt(desired, l.kMin);
    }
    k := Clamp(l, desired as real);
  }

  /** Horizontal pod autoscaling on the observation. */
  class HpaPort {
    const l: Limits
    const v: View
    const metric: Metric
    const p: HpaParams
    var desiredHist: Desired

    constructor (l: Limits, v: View, metric: Metric, p: HpaParams)
      ensures this.l == l && this.v == v && this.metric == metric && this.p == p && desiredHist == []
    {
      this.l, this.v, this.metric, this.p := l, v, metric, p;
      desiredHist := [];
    }

    function Kept(): Memory
      reads this
    {
      NewMemory(Hpa(metric, p)).(desired := desiredHist)
    }

    method Target(d: Decoded) returns (k: int)
      requires d.Decoded? && d.scrapes != []
      modifies this
      ensures (k, Kept()) == PortTarget(l, v, Hpa(metric, p), d, old(Kept()))
    {
      var s := d.scrapes[|d.scrapes| - 1];
      k, desiredHist := HpaStep(l, p, MaxInt(Round(s.NEffective()), l.kMin), PortMetric(metric, s), d.t, desiredHist);
    }

    method DesiredReplicas(obs: seq<real>) returns (k: int)
      requires |obs| == v.history * |v.features| + 1
      modifies this
      ensures (k, Kept()) == PortDecide(l, v, Hpa(metric, p), obs, old(Kept()))
    {
      DecodedShape(v, obs);
      hide Decode, PortTarget;
      var d := DecodeVector(v, obs);
      k := Target(d);
      k := Clamp(l, k as real);
    }
  }

  /** A per-replica concurrency target with a cooldown, over the whole history. */
  class QueueSource {
    const l: Limits
    const p: QueueParams
    var lastChange: real
    var lastDir: int

    constructor (l: Limits, p: QueueParams)
      ensures this.l == l && this.p == p && Kept() == NewMemory(Queue(p))
    {
      this.l, this.p := l, p;
      lastChange, lastDir := NEVER_CHANGED.lastChange, NEVER_CHANGED.lastDir;
    }

    function Kept(): Memory
      reads this
    {
      NewMemory(Queue(p)).(cooldown := Cooldown(lastChange, lastDir))
    }

    method Decide(hist: seq<ClusterState>, t: real) returns (k: int)
      requires hist != []
      modifies this
      ensures (k, Kept()) == SourceDecide(l, Queue(p), hist, t, old(Kept()))
    {
      var s := hist[|hist| - 1];
      var cur := MaxInt(s.NEffective(), l.kMin);
      var desired := QueueRaw(l, p, cur, s.nRunning as real + s.nWaiting as real);
      var d := Sign(desired, cur);
      if d != 0 && p.cooldown > 0.0 {
        if t - lastChange < p.cooldown && d != lastDir { return Clamp(l, cur as real); }
        lastChange, lastDir := t, d;
      }
      k := Clamp(l, desired as real);
    }
  }

  /** The same on the observation. */
  class QueuePort {
    const l: Limits
    const v: View
    const p: QueueParams
    var lastChange: real
    var lastDir: int

    constructor (l: Limits, v: View, p: QueueParams)
      ensures this.l == l && this.v == v && this.p == p && Kept() == NewMemory(Queue(p))
    {
      this.l, this.v, this.p := l, v, p;
      lastChange, lastDir := NEVER_CHANGED.lastChange, NEVER_CHANGED.lastDir;
    }

    function Kept(): Memory
      reads this
    {
      NewMemory(Queue(p)).(cooldown := Cooldown(lastChange, lastDir))
    }

    method Target(d: Decoded) returns (k: int)
      requires d.Decoded? && d.scrapes != []
      modifies this
      ensures (k, Kept()) == PortTarget(l, v, Queue(p), d, old(Kept()))
    {
      hide QueueRaw, Clamp, Round, MaxInt;
      var s := d.scrapes[|d.scrapes| - 1];
      var cur := MaxInt(Round(s.NEffective()), l.kMin);
      var desired := QueueRaw(l, p, cur, s.nRunning + s.nWaiting);
      var dir := Sign(desired, cur);
      if dir != 0 && p.cooldown > 0.0 {
        if d.t - lastChange < p.cooldown && dir != lastDir { return Clamp(l, cur as real); }
        lastChange, lastDir := d.t, dir;
      }
      k := Clamp(l, desired as real);
    }

    method DesiredReplicas(obs: seq<real>) returns (k: int)
      requires |obs| == v.history * |v.features| + 1
      modifies this
      ensures (k, Kept()) == PortDecide(l, v, Queue(p), obs, old(Kept()))
    {
      DecodedShape(v, obs);
      hide Decode, PortTarget;
      var d := DecodeVector(v, obs);
      k := Target(d);
      k := Clamp(l, k as real);
    }
  }

  /** Forecast then threshold, over the whole history. */
  class ForecastSource {
    const l: Limits
    const p: ForecastParams
    const ewma: Ewma
    const holt: Holt

    constructor (l: Limits, p: ForecastParams)
      ensures this.l == l && this.p == p && Valid() && fresh(ewma) && fresh(holt)
      ensures Kept() == NewMemory(Forecast(p, SOURCE_BACKLOG))
    {
      this.l, this.p := l, p;
      ewma := new Ewma(p.alpha);
      holt := new Holt(p);
    }

    ghost predicate Valid() { ewma.alpha == p.alpha && holt.p == p }

    function Kept(): Memory
      reads ewma, holt
    {
      Memory([], NEVER_CHANGED, Forecaster(ewma.level, holt.State()))
    }

    method Decide(hist: seq<ClusterState>, t: real) returns (k: int)
      requires hist != [] && Valid()
      modifies ewma, holt
      ensures (k, Kept()) == SourceDecide(l, Forecast(p, SOURCE_BACKLOG), hist, t, old(Kept()))
    {
      hide HoltUpdate, HoltForecast, EwmaUpdate, EwmaForecast, Threshold, SourceRate, Steps, RateWindow;
      var s := hist[|hist| - 1];
      var x := SourceArrivalRate(l, hist, RateWindow(l));
      ewma.Update(x);
      holt.Update(x);
      var pred := if p.holt then HoltForecast(holt.State(), Steps(l, p)) else EwmaForecast(ewma.level);
      k := Threshold(l, p, SOURCE_BACKLOG, pred, s.nRunning as real + s.nWaiting as real);
    }
  }

  /** The same on the observation. */
  class ForecastPort {
    const l: Limits
    const v: View
    const p: ForecastParams
    const backlog: real
    const ewma: Ewma
    const holt: Holt

    constructor (l: Limits, v: View, p: ForecastParams, backlog: real)
      ensures this.l == l && this.v == v && this.p == p && this.backlog == backlog && Valid()
      ensures fresh(ewma) && fresh(holt) && Kept() == NewMemory(Forecast(p, backlog))
    {
      this.l, this.v, this.p, this.backlog := l, v, p, backlog;
      ewma := new Ewma(p.alpha);
      holt := new Holt(p);
    }

    ghost predicate Valid() { ewma.alpha == p.alpha && holt.p == p }

    function Kept(): Memory
      reads ewma, holt
    {
      Memory([], NEVER_CHANGED, Forecaster(ewma.level, holt.State()))
    }

    method Target(d: Decoded) returns (k: int)
      requires d.Decoded? && d.scrapes != [] && Valid()
      modifies ewma, holt
      ensures (k, Kept()) == PortTarget(l, v, Forecast(p, backlog), d, old(Kept()))
    {
      hide HoltUpdate, HoltForecast, EwmaUpdate, EwmaForecast, Threshold, PortRate, Steps, RateWindow;
      var s := d.scrapes[|d.scrapes| - 1];
      var x := PortRate(l, v, d.scrapes, RateWindow(l), d.progress);
      ewma.Update(x);
      holt.Update(x);
      var pred := if p.holt then HoltForecast(holt.State(), Steps(l, p)) else EwmaForecast(ewma.level);
      k := Threshold(l, p, backlog, pred, s.nRunning + s.nWaiting);
    }

    method DesiredReplicas(obs: seq<real>) returns (k: int)
      requires |obs| == v.history * |v.features| + 1 && Valid()
      modifies ewma, holt
      ensures (k, Kept()) == PortDecide(l, v, Forecast(p, backlog), obs, old(Kept()))
    {
      DecodedShape(v, obs);
      hide Decode, PortTarget;
      var d := DecodeVector(v, obs);
      k := Target(d);
      k := Clamp(l, k as real);
    }
  }
}
