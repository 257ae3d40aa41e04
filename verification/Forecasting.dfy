/** What the forecasters predict: exactly weighted means, exact extrapolation of a line with a season, and corrections
    in proportion to the error. */
module Forecasting {
  import opened Numbers
  import opened Requests
  import opened Observation
  import opened Controllers

  // ---- single smoothing ----------------------------------------------------------------------------------------------

  /** The level after the series xs. */
  function EwmaRun(alpha: real, xs: seq<real>): Option<real> {
    if xs == [] then None else EwmaUpdate(alpha, EwmaRun(alpha, xs[..|xs| - 1]), xs[|xs| - 1])
  }

  function Power(x: real, n: nat): real { if n == 0 then 1.0 else x * Power(x, n - 1) }

  /** The weight of the i-th of n values: it decays by 1 - alpha with every later one; the first stands for all before
      it. */
  function Weight(alpha: real, n: nat, i: nat): real
    requires i < n
  {
    (if i == 0 then 1.0 else alpha) * Power(1.0 - alpha, n - 1 - i)
  }

  /** The first k of n values, weighted. */
  function Weighted(alpha: real, xs: seq<real>, n: nat, k: nat): real
    requires k <= n && k <= |xs|
  {
    if k == 0 then 0.0 else Weighted(alpha, xs, n, k - 1) + Weight(alpha, n, k - 1) * xs[k - 1]
  }

  lemma WeightDecays(alpha: real, n: nat, i: nat)
    requires i < n
    ensures Weight(alpha, n + 1, i) == (1.0 - alpha) * Weight(alpha, n, i)
  {
    Regroup(if i == 0 then 1.0 else alpha, 1.0 - alpha, Power(1.0 - alpha, n - 1 - i));
  }

  lemma Regroup(a: real, b: real, c: real)
    ensures a * (b * c) == b * (a * c)
  {}

  lemma Distributes(a: real, x: real, w: real, y: real)
    ensures a * x + (a * w) * y == a * (x + w * y)
  {}

  lemma {:induction false} WeightedStep(alpha: real, xs: seq<real>, x: real, n: nat, k: nat)
    requires k <= n && k <= |xs|
    ensures Weighted(alpha, xs + [x], n + 1, k) == (1.0 - alpha) * Weighted(alpha, xs, n, k)
  {
    hide Weight;
    if k > 0 {
      WeightedStep(alpha, xs, x, n, k - 1);
      WeightDecays(alpha, n, k - 1);
      Distributes(1.0 - alpha, Weighted(alpha, xs, n, k - 1), Weight(alpha, n, k - 1), xs[k - 1]);
    }
  }

  /** One value more: alpha of it, and the rest of what was there. */
  lemma {:induction false} WeightedMore(alpha: real, xs: seq<real>, x: real)
    requires xs != []
    ensures Weighted(alpha, xs + [x], |xs| + 1, |xs| + 1)
            == (1.0 - alpha) * Weighted(alpha, xs, |xs|, |xs|) + alpha * x
  {
    var n := |xs|;
    assert Weight(alpha, n + 1, n) == alpha;
    hide Weight;
    WeightedStep(alpha, xs, x, n, n);
  }

  /** The forecast is the mean of the series, with weights that decay by 1 - alpha. */
  lemma {:induction false} EwmaIs(alpha: real, xs: seq<real>)
    requires xs != []
    ensures EwmaRun(alpha, xs) == Some(Weighted(alpha, xs, |xs|, |xs|))
  {
    hide Weighted, Blend;
    var n := |xs| - 1;
    if n > 0 {
      EwmaIs(alpha, xs[..n]);
      assert xs[..n] + [xs[n]] == xs;
      WeightedMore(alpha, xs[..n], xs[n]);
      BlendIs(alpha, xs[n], Weighted(alpha, xs[..n], n, n), Weighted(alpha, xs, n + 1, n + 1));
    } else {
      OneValue(alpha, xs);
    }
  }

  lemma OneValue(alpha: real, xs: seq<real>)
    requires |xs| == 1
    ensures Weighted(alpha, xs, 1, 1) == xs[0]
  {
    assert Weight(alpha, 1, 0) == 1.0;
  }

  lemma BlendIs(w: real, x: real, y: real, z: real)
    requires z == (1.0 - w) * y + w * x
    ensures Blend(w, x, y) == z
  {}

  /** A constant series is forecast exactly. */
  lemma {:induction false} EwmaConstant(alpha: real, x: real, n: nat)
    requires n > 0
    ensures EwmaRun(alpha, seq(n, _ => x)) == Some(x)
  {
    assert seq(n, _ => x)[..n - 1] == seq(n - 1, _ => x);
    if n > 1 { EwmaConstant(alpha, x, n - 1); }
  }

  // ---- level, trend and season ----------------------------------------------------------------------------------------

  /** A line with a season on it. */
  datatype Signal = Signal(start: real, slope: real, season: seq<real>)
  {
    function At(i: nat): real { Line(i) + Seasonal(i) }

    function Line(i: nat): real { start + slope * (i as real) }

    function Seasonal(i: nat): real { if season == [] then 0.0 else season[i % |season|] }
  }

  /** Level, trend and season are those of the signal at its i-th value, the last one seen. */
  predicate Matches(g: Signal, s: Smooth) {
    && s.i > 0 && s.trend == g.slope && s.season == g.season
    && s.level == Some(g.Line(s.i - 1))
  }

  lemma SameBlend(w: real, x: real)
    ensures Blend(w, x, x) == x
  {}

  lemma Advanced(a: real, b: real, i: nat, h: nat)
    ensures (a + b * (i as real)) + h as real * b == a + b * ((i + h) as real)
  {}

  /** A forecaster that matches a signal forecasts it exactly, any number of steps ahead. */
  lemma HoltExtrapolates(g: Signal, s: Smooth, h: nat)
    requires Matches(g, s)
    ensures HoltForecast(s, h) == g.At(s.i - 1 + h)
  {
    Advanced(g.start, g.slope, s.i - 1, h);
  }

  /** One update, piece by piece: of the value the part e is season. */
  lemma HoltIs(p: ForecastParams, s: Smooth, x: real, e: real, level: real)
    requires s.level.Some? && e == (if s.season == [] then 0.0 else s.season[s.i % |s.season|])
    requires level == Blend(p.alpha, x - e, s.level.value + s.trend)
    ensures HoltUpdate(p, s, x)
            == Smooth(Some(level), Blend(p.beta, level - s.level.value, s.trend),
                      if s.season == [] then [] else s.season[s.i % |s.season| := Blend(p.gamma, x - level, e)], s.i + 1)
  {
    hide Blend;
  }

  /** Seeing the signal's next value keeps it matched, whatever the smoothing weights. */
  lemma {:induction false} HoltStaysMatched(p: ForecastParams, g: Signal, s: Smooth)
    requires Matches(g, s)
    ensures Matches(g, HoltUpdate(p, s, g.At(s.i))) && HoltUpdate(p, s, g.At(s.i)).i == s.i + 1
  {
    hide Blend, HoltUpdate;
    var x, y, e := g.At(s.i), s.level.value, g.Seasonal(s.i);
    var line := g.Line(s.i);
    Advanced(g.start, g.slope, s.i - 1, 1);
    assert y + s.trend == line && x - e == line && line - y == g.slope && x - line == e;
    SameBlend(p.alpha, line);
    SameBlend(p.beta, g.slope);
    SameBlend(p.gamma, e);
    HoltIs(p, s, x, e, line);
  }

  /** The state after n more values of the signal. */
  function HoltRun(p: ForecastParams, g: Signal, s: Smooth, n: nat): Smooth {
    if n == 0 then s else var s' := HoltRun(p, g, s, n - 1); HoltUpdate(p, s', g.At(s'.i))
  }

  /** Once level, trend and season match, the whole rest of the series is forecast exactly. */
  lemma {:induction false} HoltForecastsSignal(p: ForecastParams, g: Signal, s: Smooth, n: nat, h: nat)
    requires Matches(g, s)
    ensures HoltRun(p, g, s, n).i == s.i + n && Matches(g, HoltRun(p, g, s, n))
    ensures HoltForecast(HoltRun(p, g, s, n), h) == g.At(s.i + n - 1 + h)
  {
    hide HoltUpdate, HoltForecast, Matches;
    if n > 0 {
      HoltForecastsSignal(p, g, s, n - 1, h);
      HoltStaysMatched(p, g, HoltRun(p, g, s, n - 1));
    }
    MatchedStarted(g, HoltRun(p, g, s, n));
    HoltExtrapolates(g, HoltRun(p, g, s, n), h);
  }

  lemma MatchedStarted(g: Signal, s: Smooth)
    requires Matches(g, s)
    ensures s.i > 0
  {}

  /** A constant series with no season in it, which a fresh forecaster matches from its first value on. */
  function Flat(p: ForecastParams, x: real): Signal { Signal(x, 0.0, seq(p.seasonLen, _ => 0.0)) }

  lemma HoltConstant(p: ForecastParams, x: real)
    ensures Matches(Flat(p, x), HoltUpdate(p, NewSmooth(p), x)) && HoltUpdate(p, NewSmooth(p), x).i == 1
    ensures forall i: nat :: Flat(p, x).At(i) == x
  {
    var season := seq(p.seasonLen, _ => 0.0);
    assert Blend(p.gamma, 0.0, 0.0) == 0.0;
    if p.seasonLen > 0 { assert season[0 := 0.0] == season; }
  }

  /** Every value corrects the forecast made of it one step before, in proportion to its error: the level by alpha of
      it, the trend by alpha times beta of it, and the season of that step by gamma of what the level leaves. */
  lemma {:induction false} HoltCorrects(p: ForecastParams, s: Smooth, x: real)
    returns (err: real, part: real, rest: real)
    requires s.level.Some?
    ensures err == x - HoltForecast(s, 1) && part == p.alpha * err && rest == err - part
    ensures var s' := HoltUpdate(p, s, x);
            && s'.i == s.i + 1
            && s'.level == Some(s.level.value + s.trend + part)
            && s'.trend == s.trend + p.beta * part
            && s'.season == if s.season == [] then []
                            else s.season[s.i % |s.season| := s.season[s.i % |s.season|] + p.gamma * rest]
  {
    var y, n := s.level.value, |s.season|;
    var e := if s.season == [] then 0.0 else s.season[s.i % n];
    err := x - HoltForecast(s, 1);
    part := p.alpha * err;
    rest := err - part;
    OneAhead(s, e);
    hide Blend, HoltUpdate, HoltForecast;
    var level := Blend(p.alpha, x - e, y + s.trend);
    HoltIs(p, s, x, e, level);
    Correction(p.alpha, x - e, y + s.trend, err);
    Correction(p.beta, level - y, s.trend, part);
    Correction(p.gamma, x - level, e, rest);
    var v := e + p.gamma * rest;
    assert Blend(p.gamma, x - level, e) == v;
    assert s.season != [] ==> HoltUpdate(p, s, x).season == s.season[s.i % n := v];
    assert s.season != [] ==> v == s.season[s.i % n] + p.gamma * rest;
  }

  lemma OneAhead(s: Smooth, e: real)
    requires s.level.Some? && e == (if s.season == [] then 0.0 else s.season[s.i % |s.season|])
    ensures HoltForecast(s, 1) == s.level.value + s.trend + e
  {}

  lemma Correction(w: real, x: real, y: real, d: real)
    requires d == x - y
    ensures Blend(w, x, y) == y + w * d
  {}

  // ---- decisions -------------------------------------------------------------------------------------------------------

  /** The horizon looked ahead is the cold start and the lookahead, to the nearest control interval, one at least. */
  lemma {:induction false} StepsIsNearest(l: Limits, p: ForecastParams)
    ensures var h, x := Steps(l, p), l.coldStart + p.lookahead;
            && x <= h as real * l.dt + l.dt / 2.0
            && (h > 1 ==> h as real * l.dt <= x + l.dt / 2.0)
  {
    var x := l.coldStart + p.lookahead;
    var q := x / l.dt;
    RoundIs(q);
    StepsIs(l, p, q);
    hide Round, Steps;
    Nearest(q, Steps(l, p), l.dt, x);
  }

  lemma {:induction false} Nearest(q: real, h: int, d: real, x: real)
    requires d > 0.0 && q == x / d && q <= h as real + 0.5 && (h > 1 ==> h as real - 0.5 <= q)
    ensures x <= h as real * d + d / 2.0
    ensures h > 1 ==> h as real * d <= x + d / 2.0
  {
    assert q * d == x;
    Scale(q, h as real + 0.5, d);
    assert (h as real + 0.5) * d == h as real * d + d / 2.0;
    if h > 1 {
      Scale(h as real - 0.5, q, d);
      assert (h as real - 0.5) * d == h as real * d - d / 2.0;
    }
  }

  lemma StepsIs(l: Limits, p: ForecastParams, q: real)
    requires q == (l.coldStart + p.lookahead) / l.dt
    ensures Steps(l, p) == MaxInt(1, Round(q))
  {}

  lemma Scale(a: real, b: real, c: real)
    requires a <= b && c > 0.0
    ensures a * c <= b * c
  {
    assert (b - a) * c >= 0.0;
  }

  /** The value x just read is the first, of a constant rate, or the next one of a rate that level, trend and season
      match. */
  predicate Reads(p: ForecastParams, g: Signal, s: Smooth, x: real) {
    (s == NewSmooth(p) && g == Flat(p, x)) || (Matches(g, s) && x == g.At(s.i))
  }

  /** Then the replicas decided are those for the rate the horizon ahead. */
  lemma {:induction false} HoltProvisions(l: Limits, p: ForecastParams, backlog: real, g: Signal, x: real, inflight: real,
                                          st: Forecaster)
    requires p.holt && Reads(p, g, st.holt, x)
    ensures var (k, st') := ForecastRule(l, p, backlog, x, inflight, st);
            Provisioned(l, p, backlog, g.At(st.holt.i + Steps(l, p)), inflight, k) && Matches(g, st'.holt)
  {
    hide HoltUpdate, HoltForecast, Matches, Steps, Threshold, EwmaUpdate, EwmaForecast, Provisioned, Flat;
    var h := Steps(l, p);
    if st.holt == NewSmooth(p) && g == Flat(p, x) { HoltConstant(p, x); } else { HoltStaysMatched(p, g, st.holt); }
    HoltExtrapolates(g, HoltUpdate(p, st.holt, x), h);
    ThresholdCovers(l, p, backlog, g.At(st.holt.i + h), inflight);
  }

  /** Without Holt's smoothing they are those for the weighted mean of the rates read. */
  lemma {:induction false} EwmaProvisions(l: Limits, p: ForecastParams, backlog: real, xs: seq<real>, x: real,
                                          inflight: real, st: Forecaster)
    requires !p.holt && st.ewma == EwmaRun(p.alpha, xs)
    ensures var (k, st') := ForecastRule(l, p, backlog, x, inflight, st);
            && st'.ewma == EwmaRun(p.alpha, xs + [x])
            && Provisioned(l, p, backlog, Weighted(p.alpha, xs + [x], |xs| + 1, |xs| + 1), inflight, k)
  {
    hide HoltUpdate, HoltForecast, Steps, Threshold, Weighted, EwmaUpdate, Provisioned;
    assert (xs + [x])[..|xs|] == xs;
    EwmaIs(p.alpha, xs + [x]);
    var f := EwmaForecast(EwmaRun(p.alpha, xs + [x]));
    ThresholdCovers(l, p, backlog, f, inflight);
  }
}
