/** The scaling rules: horizontal pod autoscaling, a concurrency target, and forecast-then-threshold. The rules
    are stated over what a controller reads (a replica count, a metric, a rate); who reads it is left open. */
module Controllers {
  import opened Numbers
  import opened Requests
  import opened Observation

  const TINY: real := 0.000000001

  datatype LimitSettings = LimitSettings(kMin: int, kMax: int, dt: real, coldStart: real)
  {
    predicate Valid() { 1 <= kMin <= kMax && dt > 0.0 && coldStart >= 0.0 }
  }

  type Limits = l: LimitSettings | l.Valid() witness LimitSettings(1, 1, 1.0, 0.0)

  function Ceil(x: real): int { -((-x).Floor) }

  function Within(l: Limits, k: int): (r: int)
    ensures l.kMin <= r <= l.kMax
    ensures l.kMin <= k <= l.kMax ==> r == k
  {
    MaxInt(l.kMin, MinInt(l.kMax, k))
  }

  /** Round up, with a little slack, into the permitted range. */
  function Clamp(l: Limits, x: real): (k: int)
    ensures l.kMin <= k <= l.kMax
  {
    Within(l, Ceil(x - TINY))
  }

  lemma ClampCount(l: Limits, k: int)
    ensures Clamp(l, k as real) == Within(l, k)
  {
    assert (-(k as real - TINY)).Floor == -k;
  }

  // ---- horizontal pod autoscaling ------------------------------------------------------------------------------

  datatype HpaParams = HpaParams(target: real, tolerance: real, downWindow: real, upWindow: real)

  type Desired = seq<(real, int)>

  /** The ratio rule with its tolerance band. */
  function HpaRaw(l: Limits, p: HpaParams, cur: int, m: real): (k: int)
    requires p.target > 0.0
    ensures l.kMin <= k <= l.kMax
  {
    Within(l, RatioCount(cur, m / p.target, p.tolerance))
  }

  /** The count in proportion to the ratio, unless that is about one. */
  function RatioCount(cur: int, ratio: real, tolerance: real): int {
    var off := ratio - 1.0;
    if (if off < 0.0 then -off else off) <= tolerance then cur else Ceil(cur as real * ratio)
  }

  /** The desired counts recorded at most w before t. */
  function Recent(dh: Desired, t: real, w: real): seq<int> {
    if dh == [] then []
    else Recent(dh[..|dh| - 1], t, w) + (if t - dh[|dh| - 1].0 <= w then [dh[|dh| - 1].1] else [])
  }

  function Largest(ks: seq<int>): (m: int)
    requires ks != []
    ensures m in ks && forall k :: k in ks ==> k <= m
  {
    if |ks| == 1 then ks[0] else
      assert ks == ks[..|ks| - 1] + [ks[|ks| - 1]];
      MaxInt(Largest(ks[..|ks| - 1]), ks[|ks| - 1])
  }

  function Smallest(ks: seq<int>): (m: int)
    requires ks != []
    ensures m in ks && forall k :: k in ks ==> m <= k
  {
    if |ks| == 1 then ks[0] else
      assert ks == ks[..|ks| - 1] + [ks[|ks| - 1]];
      MinInt(Smallest(ks[..|ks| - 1]), ks[|ks| - 1])
  }

  /** One decision from the current count, the metric and the time; and the desired counts it remembers. */
  function HpaRule(l: Limits, p: HpaParams, cur: int, m: real, t: real, dh: Desired): (int, Desired) {
    if p.target <= 0.0 then (Clamp(l, cur as real), dh)
    else
      var raw := HpaRaw(l, p, cur, m);
      var dh' := dh + [(t, raw)];
      if raw > cur then
        var up := if p.upWindow > 0.0 then Recent(dh', t, p.upWindow) else [];
        var k := if up != [] then Smallest(up) else raw;
        (Clamp(l, MinInt(k, MaxInt(cur + 4, cur * 2)) as real), dh')
      else if raw < cur then
        var down := Recent(dh', t, p.downWindow);
        var k := if down != [] then Largest(down) else raw;
        (Clamp(l, MaxInt(k, l.kMin) as real), dh')
      else (Clamp(l, raw as real), dh')
  }

  // ---- concurrency target ---------------------------------------------------------------------------------------

  datatype QueueParams = QueueParams(concurrency: real, hyst: real, cooldown: real)

  datatype Cooldown = Cooldown(lastChange: real, lastDir: int)

  const NEVER_CHANGED: Cooldown := Cooldown(-1000000000.0, 0)

  function Sign(a: int, b: int): int { if a > b then 1 else if a < b then -1 else 0 }

  function QueueRaw(l: Limits, p: QueueParams, cur: int, inflight: real): (k: int)
    ensures l.kMin <= k <= l.kMax || k == cur
  {
    var k := Within(l, Ceil(inflight / Max(p.concurrency, TINY)));
    var gap := if k >= cur then k - cur else cur - k;
    if p.hyst > 0.0 && gap as real <= p.hyst * (MaxInt(cur, 1) as real) then cur else k
  }

  function QueueRule(l: Limits, p: QueueParams, cur: int, inflight: real, t: real, st: Cooldown): (int, Cooldown) {
    var k := QueueRaw(l, p, cur, inflight);
    var d := Sign(k, cur);
    if d != 0 && p.cooldown > 0.0 then
      if t - st.lastChange < p.cooldown && d != st.lastDir then (Clamp(l, cur as real), st)
      else (Clamp(l, k as real), Cooldown(t, d))
    else (Clamp(l, k as real), st)
  }

  // ---- forecast then threshold -------------------------------------------------------------------------------------

  datatype ForecastParams = ForecastParams(holt: bool, alpha: real, beta: real, gamma: real, seasonLen: nat,
                                           lookahead: real, perReplica: real, safety: real)

  /** Level, trend and season of Holt's smoothing. */
  datatype Smooth = Smooth(level: Option<real>, trend: real, season: seq<real>, i: nat)

  /** A fresh state for a forecaster. */
  function NewSmooth(p: ForecastParams): Smooth { Smooth(None, 0.0, seq(p.seasonLen, _ => 0.0), 0) }

  /** Weighted mean of a new value and an old one. */
  function Blend(w: real, x: real, y: real): real { w * x + (1.0 - w) * y }

  function EwmaUpdate(alpha: real, level: Option<real>, x: real): Option<real> {
    match level case None => Some(x) case Some(y) => Some(Blend(alpha, x, y))
  }

  function EwmaForecast(level: Option<real>): real { match level case None => 0.0 case Some(y) => y }

  function HoltUpdate(p: ForecastParams, s: Smooth, x: real): Smooth {
    var seasonal := |s.season| > 0;
    var k := if seasonal then s.i % |s.season| else 0;
    var e := if seasonal then s.season[k] else 0.0;
    var level := match s.level case None => x
                 case Some(y) => Blend(p.alpha, x - e, y + s.trend);
    var trend := match s.level case None => 0.0
                 case Some(y) => Blend(p.beta, level - y, s.trend);
    var season := if seasonal then s.season[k := Blend(p.gamma, x - level, e)] else s.season;
    Smooth(Some(level), trend, season, s.i + 1)
  }

  function HoltForecast(s: Smooth, h: nat): real {
    match s.level
    case None => 0.0
    case Some(y) =>
      y + h as real * s.trend + (if |s.season| > 0 && s.i + h >= 1 then s.season[(s.i + h - 1) % |s.season|] else 0.0)
  }

  /** Control intervals to look ahead. */
  function Steps(l: Limits, p: ForecastParams): (h: nat)
    ensures h >= 1
  {
    MaxInt(1, Round((l.coldStart + p.lookahead) / l.dt))
  }

  /** Replicas' worth of forecast load, safety margin included. */
  function ForecastLoad(p: ForecastParams, forecast: real): real {
    Max(0.0, forecast) * p.safety / Max(p.perReplica, TINY)
  }

  /** Replicas' worth of requests already in the system. */
  function BacklogLoad(backlog: real, inflight: real): real { inflight / Max(backlog, TINY) }

  /** The decision from a forecast of the arrival rate, with a guard for a queue that has already formed. */
  function Threshold(l: Limits, p: ForecastParams, backlog: real, forecast: real, inflight: real): int {
    Clamp(l, Max(Max(ForecastLoad(p, forecast), BacklogLoad(backlog, inflight)), l.kMin as real))
  }

  datatype Forecaster = Forecaster(ewma: Option<real>, holt: Smooth)

  function ForecastRule(l: Limits, p: ForecastParams, backlog: real, x: real, inflight: real, st: Forecaster)
    : (int, Forecaster)
  {
    var ewma := EwmaUpdate(p.alpha, st.ewma, x);
    var holt := HoltUpdate(p, st.holt, x);
    var pred := if p.holt then HoltForecast(holt, Steps(l, p)) else EwmaForecast(ewma);
    (Threshold(l, p, backlog, pred, inflight), Forecaster(ewma, holt))
  }

  // ---- what the rules aim at --------------------------------------------------------------------------------------------

  lemma CeilIsLeast(x: real)
    ensures x <= Ceil(x) as real < x + 1.0
  {}

  /** Inside the tolerance band the rule asks for the current count; outside it, for the least count (k_min at least)
      whose share of the metric is within the target, or for k_max if that does not do. */
  lemma {:induction false} HpaProportional(l: Limits, p: HpaParams, cur: int, m: real)
    requires p.target > 0.0
    ensures var k, off := HpaRaw(l, p, cur, m), m / p.target - 1.0;
            if -p.tolerance <= off <= p.tolerance then k == MaxInt(l.kMin, MinInt(l.kMax, cur))
            else && (k < l.kMax ==> k as real * p.target >= cur as real * m)
                 && (k > l.kMin ==> (k - 1) as real * p.target < cur as real * m)
  {
    hide Within, Ceil, RatioCount;
    var ratio := m / p.target;
    var x := cur as real * ratio;
    RatioIs(cur, ratio, p.tolerance, x);
    Proportional(l, cur as real, m, p.target, x);
    WithinIs(l, cur);
  }

  lemma RatioIs(cur: int, ratio: real, tolerance: real, x: real)
    requires x == cur as real * ratio
    ensures RatioCount(cur, ratio, tolerance) == if -tolerance <= ratio - 1.0 <= tolerance then cur else Ceil(x)
  {
    hide Ceil;
  }

  lemma {:induction false} Proportional(l: Limits, n: real, m: real, target: real, x: real)
    requires target > 0.0 && x == n * (m / target)
    ensures var k := Within(l, Ceil(x));
            && (k < l.kMax ==> k as real * target >= n * m) && (k > l.kMin ==> (k - 1) as real * target < n * m)
  {
    hide Within, Ceil;
    Quotients(n, m, target);
    WithinQuotient(l, n * m, target);
  }

  lemma WithinIs(l: Limits, k: int)
    ensures Within(l, k) == MaxInt(l.kMin, MinInt(l.kMax, k))
  {}

  lemma {:induction false} WithinQuotient(l: Limits, a: real, c: real)
    requires c > 0.0
    ensures var k := Within(l, Ceil(a / c));
            && (k < l.kMax ==> k as real * c >= a) && (k > l.kMin ==> (k - 1) as real * c < a)
  {
    hide Within, Ceil;
    var k := Within(l, Ceil(a / c));
    PlainCovers(l, a / c);
    Below(k as real, a, c);
    Below((k - 1) as real, a, c);
  }

  /** Comparing with a quotient is comparing the product. */
  lemma Below(a: real, x: real, c: real)
    requires c > 0.0
    ensures a >= x / c <==> a * c >= x
  {
    var q := x / c;
    assert q * c == x;
    if a >= q { assert (a - q) * c >= 0.0; } else { assert (q - a) * c > 0.0; }
  }

  lemma Quotients(a: real, b: real, c: real)
    requires c > 0.0
    ensures a * (b / c) == (a * b) / c
  {}

  /** The share of the current count by which hysteresis lets the rule miss. */
  function Share(p: QueueParams, cur: int): real { p.hyst * (MaxInt(cur, 1) as real) }

  function Slack(p: QueueParams, cur: int, k: int): real { if k == cur && p.hyst > 0.0 then Share(p, cur) else 0.0 }

  /** k replicas, `slack` more or fewer, are the least number (k_min at least) that hold what is in flight at c each, or
      k_max of them do not. */
  predicate CoveredUpTo(l: Limits, c: real, inflight: real, k: real, slack: real) {
    && (inflight <= l.kMax as real * c ==> (k + slack) * c >= inflight)
    && (inflight > l.kMax as real * c ==> k + slack >= l.kMax as real)
    && (k - slack > l.kMin as real ==> (k - slack - 1.0) * c < inflight)
  }

  /** The concurrency rule asks for the least count (k_min at least) whose replicas can hold everything in flight at
      the target concurrency, or k_max if that cannot; where it keeps the current count, it may miss either way by
      the hysteresis share of it, and no more. */
  lemma {:induction false} QueueCovers(l: Limits, p: QueueParams, cur: int, inflight: real)
    ensures var k := QueueRaw(l, p, cur, inflight);
            var c, slack := Max(p.concurrency, TINY), Slack(p, cur, k);
            CoveredUpTo(l, c, inflight, k as real, slack)
  {
    hide Ceil, QueueRaw, Slack, Within, CoveredUpTo;
    var c, k := Max(p.concurrency, TINY), QueueRaw(l, p, cur, inflight);
    PlainCovers(l, inflight / c);
    HysteresisMisses(l, p, cur, inflight);
    CoveredMeans(l, c, inflight, k as real, Slack(p, cur, k), inflight / c);
  }

  lemma HysteresisMisses(l: Limits, p: QueueParams, cur: int, inflight: real)
    ensures var k, plain := QueueRaw(l, p, cur, inflight), Within(l, Ceil(inflight / Max(p.concurrency, TINY)));
            k as real - Slack(p, cur, k) <= plain as real <= k as real + Slack(p, cur, k)
  {
    hide Ceil, Within;
  }

  lemma PlainCovers(l: Limits, x: real)
    ensures var k := Within(l, Ceil(x));
            && (x <= l.kMax as real ==> k as real >= x) && (x > l.kMax as real ==> k == l.kMax)
            && (k > l.kMin ==> (k - 1) as real < x) && (k < l.kMax ==> k as real >= x)
  {
    CeilIsLeast(x);
  }

  /** k replicas do the work x at c each and the work y at b each, up to the rounding slack, or are k_max; and one
      fewer would be short of one of the two by more than that slack, or below k_min. */
  predicate Fits(l: Limits, x: real, c: real, y: real, b: real, k: int) {
    && l.kMin <= k <= l.kMax
    && (k < l.kMax ==> (k as real + TINY) * c >= x && (k as real + TINY) * b >= y)
    && (k > l.kMin ==> ((k - 1) as real + TINY) * c < x || ((k - 1) as real + TINY) * b < y)
  }

  /** Work to serve at the rate x, safety margin included. */
  function Due(p: ForecastParams, x: real): real { Max(0.0, x) * p.safety }

  /** The replicas decided are right for the rate x with its safety margin, and for the requests in the system. */
  predicate Provisioned(l: Limits, p: ForecastParams, backlog: real, x: real, inflight: real, k: int) {
    Fits(l, Due(p, x), Max(p.perReplica, TINY), inflight, Max(backlog, TINY), k)
  }

  /** The decision provides for the forecast and for the requests in the system, and for no more. */
  lemma {:induction false} ThresholdCovers(l: Limits, p: ForecastParams, backlog: real, forecast: real, inflight: real)
    ensures Provisioned(l, p, backlog, forecast, inflight, Threshold(l, p, backlog, forecast, inflight))
  {
    hide Fits, Clamp, Due;
    var c, b := Max(p.perReplica, TINY), Max(backlog, TINY);
    LoadIs(p, forecast);
    Loads(l, Due(p, forecast), c, ForecastLoad(p, forecast), inflight, b, BacklogLoad(backlog, inflight));
    hide ForecastLoad, BacklogLoad;
  }

  lemma LoadIs(p: ForecastParams, forecast: real)
    ensures ForecastLoad(p, forecast) == Due(p, forecast) / Max(p.perReplica, TINY)
  {}

  lemma {:induction false} Loads(l: Limits, x: real, c: real, q: real, y: real, b: real, r: real)
    requires c > 0.0 && b > 0.0 && q == x / c && r == y / b
    ensures Fits(l, x, c, y, b, Clamp(l, Max(Max(q, r), l.kMin as real)))
  {
    hide Clamp;
    var k := Clamp(l, Max(Max(q, r), l.kMin as real));
    ClampCovers(l, Max(Max(q, r), l.kMin as real));
    Below(k as real + TINY, x, c);
    Below(k as real + TINY, y, b);
    Below((k - 1) as real + TINY, x, c);
    Below((k - 1) as real + TINY, y, b);
  }

  lemma ClampCovers(l: Limits, z: real)
    ensures Clamp(l, z) < l.kMax ==> Clamp(l, z) as real + TINY >= z
    ensures Clamp(l, z) > l.kMin ==> (Clamp(l, z) - 1) as real + TINY < z
  {
    CeilIsLeast(z - TINY);
    hide Ceil;
  }

  // ---- stabilisation ----------------------------------------------------------------------------------------------------

  lemma {:induction false} RecentIs(dh: Desired, t: real, w: real)
    ensures forall i :: 0 <= i < |dh| && t - dh[i].0 <= w ==> dh[i].1 in Recent(dh, t, w)
    ensures forall k :: k in Recent(dh, t, w) ==> exists i :: 0 <= i < |dh| && t - dh[i].0 <= w && dh[i].1 == k
  {
    if dh != [] { RecentIs(dh[..|dh| - 1], t, w); }
  }

  /** Every desired count on record is within the limits. */
  ghost predicate OnRecord(l: Limits, dh: Desired) { forall i :: 0 <= i < |dh| ==> l.kMin <= dh[i].1 <= l.kMax }

  /** A decision below the current count is made only if no desired count recorded inside the stabilisation
      window is above that decision. */
  ghost predicate Stabilised(p: HpaParams, cur: int, t: real, k: int, dh': Desired) {
    k < cur ==> forall i :: 0 <= i < |dh'| && t - dh'[i].0 <= p.downWindow ==> dh'[i].1 <= k
  }

  /** When the metric asks for more, the decision is the smallest of what it asks for, the growth limit, and the
      desired counts recorded in the scale-up window if there is one. */
  lemma {:induction false} UpDecision(l: Limits, p: HpaParams, cur: int, m: real, t: real, dh: Desired)
    requires p.target > 0.0 && cur >= l.kMin && OnRecord(l, dh) && HpaRaw(l, p, cur, m) > cur
    ensures var k, raw, lim := HpaRule(l, p, cur, m, t, dh).0, HpaRaw(l, p, cur, m), MaxInt(cur + 4, cur * 2);
            && k <= raw && k <= lim
            && (p.upWindow > 0.0 ==> forall i :: 0 <= i < |dh| && t - dh[i].0 <= p.upWindow ==> k <= dh[i].1)
            && (k == raw || k == lim
                || (p.upWindow > 0.0 && exists i :: 0 <= i < |dh| && t - dh[i].0 <= p.upWindow && dh[i].1 == k))
  {
    hide HpaRaw, Clamp, Recent, Within;
    var raw := HpaRaw(l, p, cur, m);
    var dh' := dh + [(t, raw)];
    assert OnRecord(l, dh');
    var up := if p.upWindow > 0.0 then Recent(dh', t, p.upWindow) else [];
    var k := if up != [] then Smallest(up) else raw;
    ClampCount(l, MinInt(k, MaxInt(cur + 4, cur * 2)));
    if p.upWindow > 0.0 {
      RecentIs(dh', t, p.upWindow);
      assert dh'[|dh|] == (t, raw);
      forall i | 0 <= i < |dh| && t - dh[i].0 <= p.upWindow ensures k <= dh[i].1 { assert dh'[i] == dh[i]; }
      var i :| 0 <= i < |dh'| && t - dh'[i].0 <= p.upWindow && dh'[i].1 == k;
      if i < |dh| { assert dh[i] == dh'[i]; }
    }
  }

  /** When the metric asks for less, the decision is the largest count recorded in the scale-down window. */
  lemma {:induction false} DownDecision(l: Limits, p: HpaParams, cur: int, m: real, t: real, dh: Desired)
    requires p.target > 0.0 && cur >= l.kMin && OnRecord(l, dh) && HpaRaw(l, p, cur, m) < cur
    ensures var (k, dh') := HpaRule(l, p, cur, m, t, dh);
            && (forall i :: 0 <= i < |dh'| && t - dh'[i].0 <= p.downWindow ==> dh'[i].1 <= k)
            && (k == HpaRaw(l, p, cur, m)
                || exists i :: 0 <= i < |dh| && t - dh[i].0 <= p.downWindow && dh[i].1 == k)
  {
    hide HpaRaw, Clamp, Recent, Within;
    var raw := HpaRaw(l, p, cur, m);
    var dh' := dh + [(t, raw)];
    assert OnRecord(l, dh');
    RecentIs(dh', t, p.downWindow);
    var down := Recent(dh', t, p.downWindow);
    var k := if down != [] then Largest(down) else raw;
    ClampCount(l, MaxInt(k, l.kMin));
    if down != [] {
      var i :| 0 <= i < |dh'| && t - dh'[i].0 <= p.downWindow && dh'[i].1 == k;
      if i < |dh| { assert dh[i] == dh'[i]; }
    }
  }

  lemma {:induction false} ScaleDownStabilised(l: Limits, p: HpaParams, cur: int, m: real, t: real, dh: Desired)
    requires p.target > 0.0 && OnRecord(l, dh) && cur >= l.kMin
    requires p.upWindow <= 0.0 || HpaRaw(l, p, cur, m) <= cur
    ensures Stabilised(p, cur, t, HpaRule(l, p, cur, m, t, dh).0, HpaRule(l, p, cur, m, t, dh).1)
  {
    hide HpaRaw, Clamp, Recent, Within;
    if HpaRaw(l, p, cur, m) > cur {
      UpDecision(l, p, cur, m, t, dh);
    } else if HpaRaw(l, p, cur, m) < cur {
      DownDecision(l, p, cur, m, t, dh);
    } else {
      ClampCount(l, cur);
    }
  }

  /** A decision adds at most four replicas or doubles the count, whichever is more, except where the scale-down
      window holds a larger count: exactly then, and only when the metric asks for fewer. */
  lemma {:induction false} ScaleUpLimited(l: Limits, p: HpaParams, cur: int, m: real, t: real, dh: Desired)
    requires p.target > 0.0 && cur >= l.kMin && OnRecord(l, dh)
    ensures var lim := MaxInt(cur + 4, cur * 2);
            HpaRule(l, p, cur, m, t, dh).0 <= lim
            <==> HpaRaw(l, p, cur, m) >= cur
                 || forall i :: 0 <= i < |dh| && t - dh[i].0 <= p.downWindow ==> dh[i].1 <= lim
  {
    var raw, lim := HpaRaw(l, p, cur, m), MaxInt(cur + 4, cur * 2);
    var dh' := dh + [(t, raw)];
    hide HpaRaw, Recent, Clamp, Within;
    if raw > cur {
      UpDecision(l, p, cur, m, t, dh);
    } else if raw < cur {
      DownDecision(l, p, cur, m, t, dh);
      var k := HpaRule(l, p, cur, m, t, dh).0;
      if forall i :: 0 <= i < |dh| && t - dh[i].0 <= p.downWindow ==> dh[i].1 <= lim {
        assert forall i :: 0 <= i < |dh'| && t - dh'[i].0 <= p.downWindow ==> dh'[i].1 <= lim;
      }
    } else {
      ClampCount(l, raw);
    }
  }

  /** A metric far above its target. */
  function Overload(l: Limits, p: HpaParams): real { p.target * (p.tolerance + (l.kMax + 2) as real) }

  lemma OverloadRaises(l: Limits, p: HpaParams, cur: int)
    requires p.target > 0.0 && p.tolerance >= 0.0 && cur >= 1
    ensures HpaRaw(l, p, cur, Overload(l, p)) == l.kMax
  {
    var ratio := p.tolerance + (l.kMax + 2) as real;
    Cancel(p.target, ratio);
    assert ratio >= l.kMax as real;
    ScaledAtLeast(cur, ratio, l.kMax);
    assert Overload(l, p) / p.target == ratio;
    hide Ceil, Overload;
  }

  lemma ScaledAtLeast(cur: int, ratio: real, n: int)
    requires cur >= 1 && n >= 0 && ratio >= n as real
    ensures Ceil(cur as real * ratio) >= n
  {
    AtLeast(cur, ratio);
    CeilAtLeast(cur as real * ratio, n);
  }

  lemma CeilAtLeast(x: real, n: int)
    requires x >= n as real
    ensures Ceil(x) >= n
  {}

  lemma Cancel(x: real, y: real)
    requires x > 0.0
    ensures (x * y) / x == y
  {}

  lemma AtLeast(n: int, y: real)
    requires n >= 1 && y >= 0.0
    ensures n as real * y >= y
  {
    assert (n as real - 1.0) * y >= 0.0;
  }

  // ---- runs of a controller in the loop ------------------------------------------------------------------------------

  /** What a controller reads at a control time: the replicas that exist, its metric or the requests in flight, and
      the time. */
  datatype Reading = Reading(cur: int, load: real, t: real)

  /** The readings follow the decisions ks: a decided count exists by the next control time, and the pool holds no
      more replicas than it held before or was asked for. */
  ghost predicate Actuated(l: Limits, rs: seq<Reading>, ks: seq<int>) {
    && |ks| == |rs| && (forall i :: 0 <= i < |rs| ==> rs[i].cur >= l.kMin)
    && (forall i :: 0 <= i < |rs| - 1 ==> ks[i] <= rs[i + 1].cur <= MaxInt(rs[i].cur, ks[i]))
  }

  // ---- stabilisation along a run -----------------------------------------------------------------------------------------

  /** The desired counts on record after the readings rs. */
  function HpaRun(l: Limits, p: HpaParams, rs: seq<Reading>): Desired {
    if rs == [] then []
    else
      var r := rs[|rs| - 1];
      HpaRule(l, p, r.cur, r.load, r.t, HpaRun(l, p, rs[..|rs| - 1])).1
  }

  ghost predicate HpaDecides(l: Limits, p: HpaParams, rs: seq<Reading>, ks: seq<int>) {
    |ks| == |rs| && forall i :: 0 <= i < |rs| ==>
      ks[i] == HpaRule(l, p, rs[i].cur, rs[i].load, rs[i].t, HpaRun(l, p, rs[..i])).0
  }

  /** Control times are the multiples of the interval, and no metric is negative. */
  ghost predicate OnGrid(l: Limits, rs: seq<Reading>) {
    forall i :: 0 <= i < |rs| ==> rs[i].t == i as real * l.dt && rs[i].load >= 0.0
  }

  ghost predicate HpaLoop(l: Limits, p: HpaParams, rs: seq<Reading>, ks: seq<int>) {
    OnGrid(l, rs) && Actuated(l, rs, ks) && HpaDecides(l, p, rs, ks)
  }

  /** The count the ratio rule asked for at the i-th reading. */
  function Asked(l: Limits, p: HpaParams, rs: seq<Reading>, i: nat): int
    requires p.target > 0.0 && i < |rs|
  {
    HpaRaw(l, p, rs[i].cur, rs[i].load)
  }

  /** No decision goes below the current count while the rule asked for more than that decision at some control time
      inside the scale-down window. */
  ghost predicate RunStabilised(l: Limits, p: HpaParams, rs: seq<Reading>, ks: seq<int>)
    requires p.target > 0.0
  {
    forall i, j :: 0 <= j <= i < |rs| == |ks| && ks[i] < rs[i].cur && rs[i].t - rs[j].t <= p.downWindow ==>
      Asked(l, p, rs, j) <= ks[i]
  }

  lemma HpaInRange(l: Limits, p: HpaParams, r: Reading, dh: Desired)
    ensures l.kMin <= HpaRule(l, p, r.cur, r.load, r.t, dh).0 <= l.kMax
  {
    hide HpaRaw, Recent;
  }

  /** Without a target the rule leaves the count alone, and records nothing. */
  lemma NoTarget(l: Limits, p: HpaParams, cur: int, m: real, t: real, dh: Desired)
    requires p.target <= 0.0
    ensures HpaRule(l, p, cur, m, t, dh) == (MaxInt(l.kMin, MinInt(l.kMax, cur)), dh)
  {
    ClampCount(l, cur);
  }

  /** What is on record is what was asked for, reading by reading. */
  lemma {:induction false} HpaRecords(l: Limits, p: HpaParams, rs: seq<Reading>)
    requires p.target > 0.0
    ensures |HpaRun(l, p, rs)| == |rs| && OnRecord(l, HpaRun(l, p, rs))
    ensures forall j :: 0 <= j < |rs| ==> HpaRun(l, p, rs)[j] == (rs[j].t, Asked(l, p, rs, j))
  {
    hide HpaRaw, Recent, Clamp;
    if rs != [] { HpaRecords(l, p, rs[..|rs| - 1]); }
  }

  /** When no count asked for inside the scale-up window lies below the current one, the decision is stabilised. */
  lemma {:induction false} StepStabilised(l: Limits, p: HpaParams, rs: seq<Reading>, ks: seq<int>, i: nat, j: nat)
    requires p.target > 0.0 && HpaDecides(l, p, rs, ks) && j <= i < |rs| && rs[i].cur >= l.kMin
    requires Asked(l, p, rs, i) > rs[i].cur && p.upWindow > 0.0 ==>
               forall k :: 0 <= k < i && rs[i].t - rs[k].t <= p.upWindow ==> Asked(l, p, rs, k) >= rs[i].cur
    requires ks[i] < rs[i].cur && rs[i].t - rs[j].t <= p.downWindow
    ensures Asked(l, p, rs, j) <= ks[i]
  {
    hide HpaRaw, HpaRun, HpaRule;
    if Asked(l, p, rs, i) > rs[i].cur { NeverBelow(l, p, rs, ks, i); } else { DownStabilised(l, p, rs, ks, i, j); }
  }

  /** When more is asked for, and nothing in the scale-up window lies below the current count, neither does the
      decision. */
  lemma {:induction false} NeverBelow(l: Limits, p: HpaParams, rs: seq<Reading>, ks: seq<int>, i: nat)
    requires p.target > 0.0 && HpaDecides(l, p, rs, ks) && i < |rs| && rs[i].cur >= l.kMin
    requires Asked(l, p, rs, i) > rs[i].cur
    requires p.upWindow > 0.0 ==>
               forall k :: 0 <= k < i && rs[i].t - rs[k].t <= p.upWindow ==> Asked(l, p, rs, k) >= rs[i].cur
    ensures ks[i] >= rs[i].cur
  {
    hide HpaRaw, HpaRun, HpaRule;
    var r, dh := rs[i], HpaRun(l, p, rs[..i]);
    HpaRecords(l, p, rs[..i]);
    UpDecision(l, p, r.cur, r.load, r.t, dh);
    forall k | 0 <= k < |dh| && r.t - dh[k].0 <= p.upWindow && p.upWindow > 0.0 ensures dh[k].1 >= r.cur {
      assert dh[k] == (rs[k].t, Asked(l, p, rs, k));
    }
  }

  /** When no more is asked for, the decision is stabilised. */
  lemma {:induction false} DownStabilised(l: Limits, p: HpaParams, rs: seq<Reading>, ks: seq<int>, i: nat, j: nat)
    requires p.target > 0.0 && HpaDecides(l, p, rs, ks) && j <= i < |rs| && rs[i].cur >= l.kMin
    requires Asked(l, p, rs, i) <= rs[i].cur && ks[i] < rs[i].cur && rs[i].t - rs[j].t <= p.downWindow
    ensures Asked(l, p, rs, j) <= ks[i]
  {
    hide HpaRaw, HpaRun, HpaRule;
    var r, dh := rs[i], HpaRun(l, p, rs[..i]);
    HpaRecords(l, p, rs[..i]);
    ScaleDownStabilised(l, p, r.cur, r.load, r.t, dh);
    RuleRecords(l, p, r, dh);
    var dh' := HpaRule(l, p, r.cur, r.load, r.t, dh).1;
    assert dh'[j] == (rs[j].t, Asked(l, p, rs, j));
  }

  lemma RuleRecords(l: Limits, p: HpaParams, r: Reading, dh: Desired)
    requires p.target > 0.0
    ensures HpaRule(l, p, r.cur, r.load, r.t, dh).1 == dh + [(r.t, HpaRaw(l, p, r.cur, r.load))]
  {
    hide HpaRaw, Recent, Clamp;
  }

  /** With a tolerance of one or more the rule never asks for less than what exists, up to k_max. */
  lemma AskedAtLeast(l: Limits, p: HpaParams, cur: int, m: real)
    requires p.target > 0.0 && p.tolerance >= 1.0 && m >= 0.0 && cur >= l.kMin
    ensures HpaRaw(l, p, cur, m) >= MinInt(cur, l.kMax)
  {
    var ratio := m / p.target;
    Below(ratio, m, p.target);
    Below(0.0, m, p.target);
    assert ratio >= 0.0;
    if ratio - 1.0 > p.tolerance { Grows(cur, ratio); }
    hide Ceil;
  }

  lemma Grows(cur: int, ratio: real)
    requires cur >= 1 && ratio >= 1.0
    ensures Ceil(cur as real * ratio) >= cur
  {
    assert cur as real * (ratio - 1.0) >= 0.0;
    CeilAtLeast(cur as real * ratio, cur);
  }

  /** Then nothing asked for inside the scale-up window lies below the current count. */
  lemma {:induction false} WindowAbove(l: Limits, p: HpaParams, rs: seq<Reading>, ks: seq<int>, i: nat, j: nat)
    requires p.target > 0.0 && p.tolerance >= 1.0 && HpaLoop(l, p, rs, ks) && j <= i < |rs|
    requires rs[i].t - rs[j].t <= p.upWindow || i == j
    ensures Asked(l, p, rs, j) >= MinInt(rs[i].cur, l.kMax)
    decreases i
  {
    hide OnGrid, HpaRaw, HpaRun, HpaRule;
    Loaded(l, rs, i);
    AskedAtLeast(l, p, rs[i].cur, rs[i].load);
    if j < i {
      Between(l, rs, i, j);
      WindowAbove(l, p, rs, ks, i - 1, j);
      WindowStep(l, p, rs, ks, i - 1, j);
    }
  }

  lemma Loaded(l: Limits, rs: seq<Reading>, i: nat)
    requires OnGrid(l, rs) && i < |rs|
    ensures rs[i].load >= 0.0
  {}

  lemma {:induction false} WindowStep(l: Limits, p: HpaParams, rs: seq<Reading>, ks: seq<int>, i: nat, j: nat)
    requires p.target > 0.0 && p.tolerance >= 1.0 && HpaDecides(l, p, rs, ks) && j <= i < |rs|
    requires rs[i].load >= 0.0 && rs[i].cur >= l.kMin && rs[i].t - rs[j].t <= p.upWindow && p.upWindow > 0.0
    requires Asked(l, p, rs, j) >= MinInt(rs[i].cur, l.kMax)
    ensures Asked(l, p, rs, j) >= MinInt(MaxInt(rs[i].cur, ks[i]), l.kMax)
  {
    hide HpaRaw, HpaRun, HpaRule;
    var r, dh := rs[i], HpaRun(l, p, rs[..i]);
    AskedAtLeast(l, p, r.cur, r.load);
    HpaRecords(l, p, rs[..i]);
    LoopDecision(l, p, r, dh);
    if j < i { assert dh[j] == (rs[j].t, Asked(l, p, rs, j)); }
  }

  lemma Between(l: Limits, rs: seq<Reading>, i: nat, j: nat)
    requires OnGrid(l, rs) && j < i < |rs|
    ensures rs[j].t <= rs[i - 1].t < rs[i].t && rs[i - 1].load >= 0.0
  {
    assert (i - 1 - j) as real * l.dt >= 0.0;
    assert rs[i - 1].t - rs[j].t == (i - 1 - j) as real * l.dt;
    assert rs[i].t - rs[i - 1].t == l.dt;
  }

  lemma LoopDecision(l: Limits, p: HpaParams, r: Reading, dh: Desired)
    requires p.target > 0.0 && r.cur >= l.kMin && OnRecord(l, dh)
    ensures var k, raw := HpaRule(l, p, r.cur, r.load, r.t, dh).0, HpaRaw(l, p, r.cur, r.load);
            && k <= l.kMax
            && (raw > r.cur && p.upWindow > 0.0 ==>
                  k <= raw && forall i :: 0 <= i < |dh| && r.t - dh[i].0 <= p.upWindow ==> k <= dh[i].1)
            && (raw == r.cur ==> k == r.cur)
  {
    hide HpaRaw, Recent, Within;
    var raw := HpaRaw(l, p, r.cur, r.load);
    if raw > r.cur {
      UpDecision(l, p, r.cur, r.load, r.t, dh);
    } else if raw == r.cur {
      ClampCount(l, raw);
    }
  }

  /** With scale-up stabilisation the scale-down window can be bypassed. At the first control time the metric is low
      and a replica starts to drain; at the second that replica still exists and the metric is far too high, but the
      count asked for before wins, and the decision goes below the current count while k_max is asked for. */
  lemma {:induction false} UpWindowBypassesDown(l: Limits, p: HpaParams) returns (rs: seq<Reading>, ks: seq<int>)
    requires p.target > 0.0 && 0.0 <= p.tolerance < 1.0 && p.downWindow >= 0.0
    requires p.upWindow >= l.dt && l.kMax >= l.kMin + 2
    ensures HpaLoop(l, p, rs, ks) && !RunStabilised(l, p, rs, ks)
  {
    hide HpaRaw, HpaRule, Overload;
    var k := l.kMin + 1;
    rs := [Reading(k, 0.0, 0.0), Reading(k, Overload(l, p), l.dt)];
    ks := [l.kMin, l.kMin];
    OverloadRaises(l, p, k);
    OverloadPositive(l, p);
    IdleLowers(l, p, k);
    FirstLow(l, p, k);
    ThenHigh(l, p, k);
    assert rs[..0] == [] && rs[..1] == [rs[0]] && [rs[0]][..0] == [];
    assert HpaRun(l, p, []) == [];
    assert HpaRun(l, p, rs[..1]) == [(0.0, l.kMin)];
    assert Asked(l, p, rs, 1) == l.kMax;
  }

  lemma OverloadPositive(l: Limits, p: HpaParams)
    requires p.target > 0.0 && p.tolerance >= 0.0
    ensures Overload(l, p) >= 0.0
  {}

  lemma IdleLowers(l: Limits, p: HpaParams, cur: int)
    requires p.target > 0.0 && 0.0 <= p.tolerance < 1.0
    ensures HpaRaw(l, p, cur, 0.0) == l.kMin
  {
    assert 0.0 / p.target == 0.0;
    assert cur as real * 0.0 == 0.0 && Ceil(0.0) == 0;
  }

  lemma {:induction false} FirstLow(l: Limits, p: HpaParams, cur: int)
    requires p.target > 0.0 && p.downWindow >= 0.0 && HpaRaw(l, p, cur, 0.0) == l.kMin < cur
    ensures HpaRule(l, p, cur, 0.0, 0.0, []) == (l.kMin, [(0.0, l.kMin)])
  {
    DownDecision(l, p, cur, 0.0, 0.0, []);
    hide HpaRaw, Clamp, Recent;
    assert [] + [(0.0, l.kMin)] == [(0.0, l.kMin)];
  }

  lemma {:induction false} ThenHigh(l: Limits, p: HpaParams, cur: int)
    requires p.target > 0.0 && p.upWindow >= l.dt && l.kMin < cur < l.kMax
    requires HpaRaw(l, p, cur, Overload(l, p)) == l.kMax
    ensures HpaRule(l, p, cur, Overload(l, p), l.dt, [(0.0, l.kMin)]).0 == l.kMin
  {
    var dh := [(0.0, l.kMin)];
    UpDecision(l, p, cur, Overload(l, p), l.dt, dh);
    hide HpaRaw, Recent, Overload;
    assert dh[0] == (0.0, l.kMin);
  }

  /** Along every run on the control grid the scale-down window is respected, if and only if the scale-up window is
      shorter than the control interval, or the limits leave no count strictly between them, or the tolerance is so
      wide that the rule never asks for less than what exists. */
  lemma {:induction false} StabilisedExactly(l: Limits, p: HpaParams)
    requires p.target > 0.0 && p.tolerance >= 0.0 && p.downWindow >= 0.0
    ensures (forall rs: seq<Reading>, ks: seq<int> :: HpaLoop(l, p, rs, ks) ==> RunStabilised(l, p, rs, ks))
            <==> p.upWindow < l.dt || l.kMax <= l.kMin + 1 || p.tolerance >= 1.0
  {
    hide HpaRaw, HpaRule, HpaLoop, RunStabilised;
    if p.upWindow < l.dt || l.kMax <= l.kMin + 1 || p.tolerance >= 1.0 {
      forall rs: seq<Reading>, ks: seq<int> | HpaLoop(l, p, rs, ks) ensures RunStabilised(l, p, rs, ks) {
        LoopStabilised(l, p, rs, ks);
      }
    } else {
      var rs, ks := UpWindowBypassesDown(l, p);
    }
  }

  lemma {:induction false} LoopStabilised(l: Limits, p: HpaParams, rs: seq<Reading>, ks: seq<int>)
    requires p.target > 0.0 && HpaLoop(l, p, rs, ks)
    requires p.upWindow < l.dt || l.kMax <= l.kMin + 1 || p.tolerance >= 1.0
    ensures RunStabilised(l, p, rs, ks)
  {
    hide HpaRaw, HpaRule, HpaRun;
    forall i, j | 0 <= j <= i < |rs| && ks[i] < rs[i].cur && rs[i].t - rs[j].t <= p.downWindow
      ensures Asked(l, p, rs, j) <= ks[i]
    {
      forall k | 0 <= k < i && rs[i].t - rs[k].t <= p.upWindow && Asked(l, p, rs, i) > rs[i].cur
        ensures Asked(l, p, rs, k) >= rs[i].cur
      {
        Apart(l, rs, i, k);
        AskedRange(l, p, rs, i);
        AskedRange(l, p, rs, k);
        if p.tolerance >= 1.0 { WindowAbove(l, p, rs, ks, i, k); }
      }
      StepStabilised(l, p, rs, ks, i, j);
    }
  }

  lemma AskedRange(l: Limits, p: HpaParams, rs: seq<Reading>, i: nat)
    requires p.target > 0.0 && i < |rs|
    ensures l.kMin <= Asked(l, p, rs, i) <= l.kMax
  {
    hide Within;
  }

  lemma Apart(l: Limits, rs: seq<Reading>, i: nat, k: nat)
    requires OnGrid(l, rs) && k < i < |rs|
    ensures rs[i].t - rs[k].t >= l.dt
  {
    assert ((i - k - 1) as real) * l.dt >= 0.0;
    assert rs[i].t - rs[k].t - l.dt == ((i - k - 1) as real) * l.dt;
  }

  // ---- cooldown -------------------------------------------------------------------------------------------------------

  /** The timer after the readings rs. */
  function QueueRun(l: Limits, p: QueueParams, rs: seq<Reading>): Cooldown {
    if rs == [] then NEVER_CHANGED
    else
      var r := rs[|rs| - 1];
      QueueRule(l, p, r.cur, r.load, r.t, QueueRun(l, p, rs[..|rs| - 1])).1
  }

  ghost predicate QueueDecides(l: Limits, p: QueueParams, rs: seq<Reading>, ks: seq<int>) {
    |ks| == |rs| && forall i :: 0 <= i < |rs| ==>
      ks[i] == QueueRule(l, p, rs[i].cur, rs[i].load, rs[i].t, QueueRun(l, p, rs[..i])).0
  }

  /** Within the limits, a decision that moves is allowed by the timer, which remembers it; one that does not move
      leaves the timer alone. */
  lemma {:induction false} TimerFollows(l: Limits, p: QueueParams, r: Reading, st: Cooldown)
    requires p.cooldown > 0.0 && l.kMin <= r.cur <= l.kMax
    ensures var (k, st') := QueueRule(l, p, r.cur, r.load, r.t, st);
            var d := Sign(k, r.cur);
            && (d != 0 ==> st' == Cooldown(r.t, d) && (d == st.lastDir || r.t - st.lastChange >= p.cooldown))
            && (d == 0 ==> st' == st)
  {
    hide QueueRaw, Clamp;
    ClampCount(l, QueueRaw(l, p, r.cur, r.load));
    ClampCount(l, r.cur);
  }

  /** Above k_max, a decision is k_max itself or a move down that the timer remembers. */
  lemma {:induction false} AboveMax(l: Limits, p: QueueParams, r: Reading, st: Cooldown)
    requires p.cooldown > 0.0 && r.cur > l.kMax
    ensures var (k, st') := QueueRule(l, p, r.cur, r.load, r.t, st);
            k == l.kMax || st' == Cooldown(r.t, -1)
  {
    hide QueueRaw, Clamp;
    ClampCount(l, QueueRaw(l, p, r.cur, r.load));
    ClampCount(l, r.cur);
  }

  lemma QueueInRange(l: Limits, p: QueueParams, r: Reading, st: Cooldown)
    ensures l.kMin <= QueueRule(l, p, r.cur, r.load, r.t, st).0 <= l.kMax
  {
    hide QueueRaw;
  }

  lemma QueueRunStep(l: Limits, p: QueueParams, rs: seq<Reading>, i: nat)
    requires i < |rs|
    ensures QueueRun(l, p, rs[..i + 1]) == QueueRule(l, p, rs[i].cur, rs[i].load, rs[i].t, QueueRun(l, p, rs[..i])).1
  {
    assert rs[..i + 1][..i] == rs[..i] && rs[..i + 1][i] == rs[i];
  }

  /** While no decision moves, the timer holds the last one that did. */
  lemma {:induction false} TimerHolds(l: Limits, p: QueueParams, rs: seq<Reading>, ks: seq<int>, i: nat, n: nat)
    requires p.cooldown > 0.0 && QueueDecides(l, p, rs, ks) && i < n <= |rs|
    requires forall k :: i < k < n ==> ks[k] == rs[k].cur
    ensures QueueRun(l, p, rs[..n]) == QueueRun(l, p, rs[..i + 1])
    decreases n
  {
    hide QueueRule, QueueRun;
    if n > i + 1 {
      TimerHolds(l, p, rs, ks, i, n - 1);
      QueueInRange(l, p, rs[n - 1], QueueRun(l, p, rs[..n - 1]));
      TimerFollows(l, p, rs[n - 1], QueueRun(l, p, rs[..n - 1]));
      QueueRunStep(l, p, rs, n - 1);
    }
  }

  /** Asking for k_max and then staying put leaves at least k_max replicas. */
  lemma {:induction false} StaysAtMax(l: Limits, rs: seq<Reading>, ks: seq<int>, i: nat, n: nat)
    requires Actuated(l, rs, ks) && i < n < |rs| && ks[i] >= l.kMax
    requires forall k :: i < k < n ==> ks[k] == rs[k].cur
    ensures rs[n].cur >= l.kMax
    decreases n
  {
    if n > i + 1 { StaysAtMax(l, rs, ks, i, n - 1); }
  }

  /** With cooldown on, along every run that the readings follow, two consecutive moves in opposite directions are at
      least one cooldown apart; and this although the timer is bypassed above k_max. */
  lemma {:induction false} ReversalsAreApart(l: Limits, p: QueueParams, rs: seq<Reading>, ks: seq<int>, i: nat, j: nat)
    requires p.cooldown > 0.0 && QueueDecides(l, p, rs, ks) && Actuated(l, rs, ks) && i < j < |rs|
    requires ks[i] != rs[i].cur && Sign(ks[j], rs[j].cur) == -Sign(ks[i], rs[i].cur)
    requires forall k :: i < k < j ==> ks[k] == rs[k].cur
    ensures rs[j].t - rs[i].t >= p.cooldown
  {
    hide QueueRule, QueueRun;
    QueueInRange(l, p, rs[i], QueueRun(l, p, rs[..i]));
    QueueInRange(l, p, rs[j], QueueRun(l, p, rs[..j]));
    QueueInRange(l, p, rs[j - 1], QueueRun(l, p, rs[..j - 1]));
    assert rs[j].cur <= MaxInt(rs[j - 1].cur, ks[j - 1]);
    TimerHolds(l, p, rs, ks, i, j);
    QueueRunStep(l, p, rs, i);
    TimerFollows(l, p, rs[j], QueueRun(l, p, rs[..j]));
    if rs[i].cur <= l.kMax {
      TimerFollows(l, p, rs[i], QueueRun(l, p, rs[..i]));
    } else {
      AboveMax(l, p, rs[i], QueueRun(l, p, rs[..i]));
      if ks[i] == l.kMax { StaysAtMax(l, rs, ks, i, j); }
    }
  }

  /** The decision k is the least count (k_min at least) whose replicas can hold everything in flight at the target
      concurrency, or k_max if that cannot; where it leaves the count alone, it may miss either way by the hysteresis
      share of that count, and where it changes it, it does so by more than that share. */
  predicate CoversLoad(l: Limits, p: QueueParams, cur: int, inflight: real, k: int) {
    && CoveredUpTo(l, Max(p.concurrency, TINY), inflight, k as real, if k == Within(l, cur) && p.hyst > 0.0 then Share(p, cur) else 0.0)
    && (p.hyst > 0.0 && k != Within(l, cur) ==> (k - cur) as real > Share(p, cur) || (cur - k) as real > Share(p, cur))
  }

  /** k or more replicas, and the hysteresis share, hold the load or are k_max. */
  predicate Holds(l: Limits, p: QueueParams, cur: int, inflight: real, n: int) {
    var share := if p.hyst > 0.0 then Share(p, cur) else 0.0;
    Enough(l, Max(p.concurrency, TINY), inflight, n as real + share)
  }

  predicate Enough(l: Limits, c: real, inflight: real, n: real) { n * c >= inflight || n >= l.kMax as real }

  lemma {:induction false} ShareCovers(l: Limits, p: QueueParams, cur: int, inflight: real, k: int, n: int)
    requires CoversLoad(l, p, cur, inflight, k) && n >= k
    ensures Holds(l, p, cur, inflight, n)
  {
    if p.hyst > 0.0 { SharePositive(p.hyst, MaxInt(cur, 1)); }
    hide Within, CoveredUpTo, Enough;
    var c, s0 := Max(p.concurrency, TINY), if k == Within(l, cur) && p.hyst > 0.0 then Share(p, cur) else 0.0;
    var s1 := if p.hyst > 0.0 then Share(p, cur) else 0.0;
    assert 0.0 <= s0 <= s1;
    hide Share;
    MoreHold(l, c, inflight, k as real, s0, n as real + s1);
  }

  lemma MoreHold(l: Limits, c: real, inflight: real, k: real, s0: real, n: real)
    requires c > 0.0 && CoveredUpTo(l, c, inflight, k, s0) && n >= k + s0
    ensures Enough(l, c, inflight, n)
  {
    CoveredMeans(l, c, inflight, k, s0, inflight / c);
    hide CoveredUpTo;
    Below(n, inflight, c);
  }

  /** The load asks for a move against the last one, within the cooldown of it. */
  predicate Blocked(l: Limits, p: QueueParams, cur: int, inflight: real, t: real, st: Cooldown) {
    && p.cooldown > 0.0 && t - st.lastChange < p.cooldown
    && QueueRaw(l, p, cur, inflight) != cur && Sign(QueueRaw(l, p, cur, inflight), cur) != st.lastDir
  }

  /** Unless it is blocked, the decision covers the load; a blocked one is the current count, within the limits, and
      leaves the timer alone. */
  lemma {:induction false} QueueDecision(l: Limits, p: QueueParams, cur: int, inflight: real, t: real, st: Cooldown)
    ensures var (k, st') := QueueRule(l, p, cur, inflight, t, st);
            if Blocked(l, p, cur, inflight, t, st) then k == MaxInt(l.kMin, MinInt(l.kMax, cur)) && st' == st
            else CoversLoad(l, p, cur, inflight, k)
  {
    ClampCount(l, cur);
    ClampCount(l, QueueRaw(l, p, cur, inflight));
    if !Blocked(l, p, cur, inflight, t, st) {
      assert QueueRule(l, p, cur, inflight, t, st).0 == Within(l, QueueRaw(l, p, cur, inflight)) by {
        hide QueueRaw, Within, Clamp;
      }
      RawDecision(l, p, cur, inflight);
    }
  }

  lemma {:induction false} RawDecision(l: Limits, p: QueueParams, cur: int, inflight: real)
    ensures CoversLoad(l, p, cur, inflight, Within(l, QueueRaw(l, p, cur, inflight)))
  {
    var raw, c := QueueRaw(l, p, cur, inflight), Max(p.concurrency, TINY);
    var k := Within(l, raw);
    hide QueueRaw, Within, Slack, CoveredUpTo, Share;
    QueueCovers(l, p, cur, inflight);
    Hysteresis(l, p, cur, inflight);
    Looser(l, raw as real, Slack(p, cur, raw), k as real,
           if k == Within(l, cur) && p.hyst > 0.0 then Share(p, cur) else 0.0, c, inflight);
  }

  lemma Hysteresis(l: Limits, p: QueueParams, cur: int, inflight: real)
    ensures var raw, share := QueueRaw(l, p, cur, inflight), Share(p, cur);
            var k := Within(l, raw);
            && 0.0 <= Slack(p, cur, raw) <= (if k == Within(l, cur) && p.hyst > 0.0 then share else 0.0)
            && (p.hyst > 0.0 && k != Within(l, cur) ==> k == raw && ((k - cur) as real > share || (cur - k) as real > share))
            && (raw < k ==> k == l.kMin) && (raw > k ==> k == l.kMax)
  {
    hide Ceil;
    if p.hyst > 0.0 { SharePositive(p.hyst, MaxInt(cur, 1)); }
  }

  /** Moving into the limits, and allowing more slack, keeps the load covered. */
  lemma {:induction false} Looser(l: Limits, raw: real, s0: real, k: real, s1: real, c: real, inflight: real)
    requires c > 0.0 && 0.0 <= s0 <= s1 && (raw < k ==> k == l.kMin as real) && (raw > k ==> k == l.kMax as real)
    requires CoveredUpTo(l, c, inflight, raw, s0)
    ensures CoveredUpTo(l, c, inflight, k, s1)
  {
    CoveredMeans(l, c, inflight, raw, s0, inflight / c);
    CoveredMeans(l, c, inflight, k, s1, inflight / c);
    hide CoveredUpTo;
  }

  lemma {:induction false} CoveredMeans(l: Limits, c: real, inflight: real, k: real, slack: real, q: real)
    requires c > 0.0 && q == inflight / c
    ensures CoveredUpTo(l, c, inflight, k, slack)
            <==> (q <= l.kMax as real ==> k + slack >= q) && (q > l.kMax as real ==> k + slack >= l.kMax as real)
                 && (k - slack > l.kMin as real ==> k - slack - 1.0 < q)
  {
    Below(l.kMax as real, inflight, c);
    Below(k + slack, inflight, c);
    Below(k - slack - 1.0, inflight, c);
  }

  lemma SharePositive(h: real, n: int)
    requires h > 0.0 && n >= 1
    ensures h * (n as real) > 0.0
  {}

  lemma MoveRemembered(l: Limits, p: QueueParams, r: Reading, st: Cooldown)
    ensures var (k, st') := QueueRule(l, p, r.cur, r.load, r.t, st);
            st' == st || (k != r.cur && st' == Cooldown(r.t, Sign(k, r.cur)))
  {
    hide QueueRaw, Clamp;
    ClampCount(l, QueueRaw(l, p, r.cur, r.load));
  }

  /** The timer holds the time and the direction of an earlier move, unless there was none. */
  lemma {:induction false} TimerOrigin(l: Limits, p: QueueParams, rs: seq<Reading>, ks: seq<int>, n: nat)
    requires QueueDecides(l, p, rs, ks) && n <= |rs|
    ensures QueueRun(l, p, rs[..n]) == NEVER_CHANGED
            || exists j :: 0 <= j < n && ks[j] != rs[j].cur
                           && QueueRun(l, p, rs[..n]) == Cooldown(rs[j].t, Sign(ks[j], rs[j].cur))
  {
    hide QueueRule;
    if n > 0 {
      TimerOrigin(l, p, rs, ks, n - 1);
      QueueRunStep(l, p, rs, n - 1);
      MoveRemembered(l, p, rs[n - 1], QueueRun(l, p, rs[..n - 1]));
    }
  }

  /** The j-th decision moved, within the cooldown of the i-th reading, away from where its load now asks to go. */
  ghost predicate Reverses(l: Limits, p: QueueParams, rs: seq<Reading>, ks: seq<int>, j: nat, i: nat)
    requires j < i < |rs| == |ks|
  {
    var want := QueueRaw(l, p, rs[i].cur, rs[i].load);
    && ks[j] != rs[j].cur && want != rs[i].cur && rs[i].t - rs[j].t < p.cooldown
    && (ks[j] > rs[j].cur <==> want < rs[i].cur)
  }

  /** Along every run the decision covers the load at every control time, except where it would reverse a move made
      within the cooldown. */
  lemma {:induction false} QueueTracks(l: Limits, p: QueueParams, rs: seq<Reading>, ks: seq<int>, i: nat)
    requires QueueDecides(l, p, rs, ks) && i < |rs| && rs[i].t - NEVER_CHANGED.lastChange >= p.cooldown
    ensures CoversLoad(l, p, rs[i].cur, rs[i].load, ks[i])
            || (p.cooldown > 0.0 && exists j :: 0 <= j < i && Reverses(l, p, rs, ks, j, i))
  {
    hide QueueRule, QueueRun, QueueRaw, CoversLoad;
    var r, st := rs[i], QueueRun(l, p, rs[..i]);
    QueueDecision(l, p, r.cur, r.load, r.t, st);
    if Blocked(l, p, r.cur, r.load, r.t, st) {
      TimerOrigin(l, p, rs, ks, i);
      var j :| 0 <= j < i && ks[j] != rs[j].cur && st == Cooldown(rs[j].t, Sign(ks[j], rs[j].cur));
      assert Reverses(l, p, rs, ks, j, i);
    }
  }

  /** A decision the cooldown blocks stays where it is exactly when the current count is within the limits. */
  lemma BlockedStays(l: Limits, p: QueueParams, r: Reading, st: Cooldown)
    requires r.cur >= l.kMin && p.cooldown > 0.0 && r.t - st.lastChange < p.cooldown
    requires Sign(QueueRaw(l, p, r.cur, r.load), r.cur) != 0
    requires Sign(QueueRaw(l, p, r.cur, r.load), r.cur) != st.lastDir
    ensures Sign(QueueRule(l, p, r.cur, r.load, r.t, st).0, r.cur) == 0 <==> r.cur <= l.kMax
  {
    hide QueueRaw, Clamp;
    ClampCount(l, r.cur);
  }
}
