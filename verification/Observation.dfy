/** The observation vector: stacked scrapes, zero-padded, scaled and clipped; and the decoder that undoes it. */
module Observation {
  import opened Numbers

  datatype Feature = NReady | NBooting | NDraining | NEffective | Target | NRunning | NWaiting | NInflight
                   | RunningPerReady | WaitingPerReady | SatMean | SatMax | Arrivals | PreemptionsTotal

  /** One scrape of the cluster. */
  datatype StateRecord = StateRecord(t: real, nReady: nat, nBooting: nat, nDraining: nat, target: nat, nRunning: nat,
                                     nWaiting: nat, satMean: real, satMax: real, arrivals: nat, nInflight: nat,
                                     preemptions: nat)
  {
    predicate Valid() { satMean >= 0.0 && satMax >= 0.0 }
    /** Every replica that costs money. */
    function NEffective(): nat { nReady + nBooting + nDraining }
  }

  type ClusterState = s: StateRecord | s.Valid() witness StateRecord(0.0, 0, 0, 0, 0, 0, 0, 0.0, 0.0, 0, 0, 0)

  function Value(f: Feature, s: ClusterState): (v: real)
    ensures v >= 0.0
  {
    match f
    case NReady => s.nReady as real
    case NBooting => s.nBooting as real
    case NDraining => s.nDraining as real
    case NEffective => s.NEffective() as real
    case Target => s.target as real
    case NRunning => s.nRunning as real
    case NWaiting => s.nWaiting as real
    case NInflight => s.nInflight as real
    case RunningPerReady => s.nRunning as real / Max(1.0, s.nReady as real)
    case WaitingPerReady => s.nWaiting as real / Max(1.0, s.nReady as real)
    case SatMean => s.satMean
    case SatMax => s.satMax
    case Arrivals => s.arrivals as real
    case PreemptionsTotal => s.preemptions as real
  }

  datatype NormSettings = NormSettings(replica: real, concurrency: real, perReplica: real, arrivals: real,
                                       preemptions: real, clip: real)
  {
    predicate Valid() {
      replica > 0.0 && concurrency > 0.0 && perReplica > 0.0 && arrivals > 0.0 && preemptions > 0.0 && clip > 0.0
    }
  }

  type Norm = n: NormSettings | n.Valid() witness NormSettings(1.0, 1.0, 1.0, 1.0, 1.0, 1.0)

  function Divisor(n: Norm, f: Feature): (d: real)
    ensures d > 0.0
  {
    match f
    case NReady | NBooting | NDraining | NEffective | Target => n.replica
    case NRunning | NWaiting | NInflight => n.concurrency
    case RunningPerReady | WaitingPerReady => n.perReplica
    case SatMean | SatMax => 1.0
    case Arrivals => n.arrivals
    case PreemptionsTotal => n.preemptions
  }

  /** The features the decoder reads. */
  const SCRAPE_FIELDS: seq<Feature> := [NReady, NBooting, NDraining, Target, NRunning, NWaiting, SatMean, SatMax, Arrivals]

  datatype ViewSettings = ViewSettings(features: seq<Feature>, history: nat, norm: Norm, dt: real, nSteps: nat)
  {
    predicate Valid() {
      history >= 1 && nSteps >= 1 && dt > 0.0 && forall i :: 0 <= i < |SCRAPE_FIELDS| ==> SCRAPE_FIELDS[i] in features
    }
  }

  type View = v: ViewSettings | v.Valid() witness ViewSettings(SCRAPE_FIELDS, 1, NormSettings(1.0, 1.0, 1.0, 1.0, 1.0, 1.0), 1.0, 1)

  // ---- building ------------------------------------------------------------------------------------------------

  function Row(features: seq<Feature>, s: ClusterState): (row: seq<real>)
    ensures |row| == |features| && forall j :: 0 <= j < |row| ==> row[j] == Value(features[j], s)
  {
    seq(|features|, j requires 0 <= j < |features| => Value(features[j], s))
  }

  function Zeros(n: nat): (z: seq<real>)
    ensures |z| == n && forall j :: 0 <= j < n ==> z[j] == 0.0
  {
    seq(n, _ => 0.0)
  }

  /** Lag k of the stack, oldest first; lags before the first scrape are zero. */
  function Lag(v: View, hist: seq<ClusterState>, k: nat): (row: seq<real>)
    requires k < v.history
    ensures |row| == |v.features|
  {
    var i := |hist| - v.history + k;
    if 0 <= i < |hist| then Row(v.features, hist[i]) else Zeros(|v.features|)
  }

  function Flatten(rows: seq<seq<real>>): seq<real> {
    if rows == [] then [] else Flatten(rows[..|rows| - 1]) + rows[|rows| - 1]
  }

  function Lags(v: View, hist: seq<ClusterState>, n: nat): (rows: seq<seq<real>>)
    requires n <= v.history
    ensures |rows| == n && forall k :: 0 <= k < n ==> rows[k] == Lag(v, hist, k)
  {
    seq(n, k requires 0 <= k < n => Lag(v, hist, k))
  }

  /** The raw observation. */
  function Build(v: View, hist: seq<ClusterState>): seq<real> { Flatten(Lags(v, hist, v.history)) }

  function Clip(x: real, top: real): real { if x < 0.0 then 0.0 else if x > top then top else x }

  function Scaled(row: seq<real>, features: seq<Feature>, n: Norm): (out: seq<real>)
    requires |row| == |features|
    ensures |out| == |row| && forall j :: 0 <= j < |row| ==> out[j] == Clip(row[j] / Divisor(n, features[j]), n.clip)
  {
    seq(|row|, j requires 0 <= j < |row| => Clip(row[j] / Divisor(n, features[j]), n.clip))
  }

  function Divisors(v: View): (row: seq<real>)
    ensures |row| == |v.features| && forall j :: 0 <= j < |row| ==> row[j] == Divisor(v.norm, v.features[j]) > 0.0
  {
    seq(|v.features|, j requires 0 <= j < |v.features| => Divisor(v.norm, v.features[j]))
  }

  /** Divisors in the order of the stack. */
  function DivisorVector(v: View, n: nat): seq<real> {
    if n == 0 then [] else DivisorVector(v, n - 1) + Divisors(v)
  }

  /** Elementwise scaling and clipping. */
  function Normalise(raw: seq<real>, divisors: seq<real>, clip: real): (out: seq<real>)
    requires |raw| == |divisors| && forall i :: 0 <= i < |divisors| ==> divisors[i] > 0.0
    ensures |out| == |raw| && forall i :: 0 <= i < |raw| ==> out[i] == Clip(raw[i] / divisors[i], clip)
  {
    seq(|raw|, i requires 0 <= i < |raw| => Clip(raw[i] / divisors[i], clip))
  }

  function EpisodeProgress(v: View, stepI: nat): real {
    var p := stepI as real / v.nSteps as real;
    if p > 1.0 then 1.0 else p
  }

  /** What the controller is shown after stepI control steps. */
  function Observe(v: View, hist: seq<ClusterState>, stepI: nat): seq<real> {
    Shape(v, hist);
    Normalise(Build(v, hist), DivisorVector(v, v.history), v.norm.clip) + [EpisodeProgress(v, stepI)]
  }

  lemma {:induction false} FlattenSize(rows: seq<seq<real>>, w: nat)
    requires forall k :: 0 <= k < |rows| ==> |rows[k]| == w
    ensures |Flatten(rows)| == |rows| * w
  {
    if rows != [] {
      FlattenSize(rows[..|rows| - 1], w);
      assert (|rows| - 1) * w + w == |rows| * w;
    }
  }

  lemma {:induction false} DivisorShape(v: View, n: nat)
    ensures |DivisorVector(v, n)| == n * |v.features|
    ensures forall i :: 0 <= i < |DivisorVector(v, n)| ==> DivisorVector(v, n)[i] > 0.0
  {
    if n > 0 {
      DivisorShape(v, n - 1);
      assert (n - 1) * |v.features| + |v.features| == n * |v.features|;
    }
  }

  lemma Shape(v: View, hist: seq<ClusterState>)
    ensures |Build(v, hist)| == v.history * |v.features| == |DivisorVector(v, v.history)|
    ensures forall i :: 0 <= i < |DivisorVector(v, v.history)| ==> DivisorVector(v, v.history)[i] > 0.0
  {
    FlattenSize(Lags(v, hist, v.history), |v.features|);
    DivisorShape(v, v.history);
  }

  lemma NormaliseAppend(a: seq<real>, b: seq<real>, da: seq<real>, db: seq<real>, clip: real)
    requires |a| == |da| && |b| == |db|
    requires (forall i :: 0 <= i < |da| ==> da[i] > 0.0) && (forall i :: 0 <= i < |db| ==> db[i] > 0.0)
    ensures Normalise(a + b, da + db, clip) == Normalise(a, da, clip) + Normalise(b, db, clip)
  {
    hide Clip;
  }

  lemma NormaliseRow(v: View, row: seq<real>)
    requires |row| == |v.features|
    ensures Normalise(row, Divisors(v), v.norm.clip) == Scaled(row, v.features, v.norm)
  {
    hide Clip, Divisor;
  }

  function ScaledLags(v: View, hist: seq<ClusterState>, n: nat): (rows: seq<seq<real>>)
    requires n <= v.history
    ensures |rows| == n && forall k :: 0 <= k < n ==> rows[k] == Scaled(Lag(v, hist, k), v.features, v.norm)
  {
    seq(n, k requires 0 <= k < n => Scaled(Lag(v, hist, k), v.features, v.norm))
  }

  /** The stack with one lag more. */
  lemma OneLagMore(v: View, hist: seq<ClusterState>, n: nat)
    requires 1 <= n <= v.history
    ensures Flatten(Lags(v, hist, n)) == Flatten(Lags(v, hist, n - 1)) + Lag(v, hist, n - 1)
    ensures Flatten(ScaledLags(v, hist, n))
            == Flatten(ScaledLags(v, hist, n - 1)) + Scaled(Lag(v, hist, n - 1), v.features, v.norm)
    ensures DivisorVector(v, n) == DivisorVector(v, n - 1) + Divisors(v)
  {
    hide Scaled, Lag;
    assert Lags(v, hist, n)[..n - 1] == Lags(v, hist, n - 1);
    assert ScaledLags(v, hist, n)[..n - 1] == ScaledLags(v, hist, n - 1);
  }

  lemma NoLags(v: View, hist: seq<ClusterState>)
    ensures Flatten(Lags(v, hist, 0)) == [] && Flatten(ScaledLags(v, hist, 0)) == [] && DivisorVector(v, 0) == []
  {}

  lemma LagsSize(v: View, hist: seq<ClusterState>, n: nat)
    requires n <= v.history
    ensures |Flatten(Lags(v, hist, n))| == |DivisorVector(v, n)|
    ensures forall i :: 0 <= i < |DivisorVector(v, n)| ==> DivisorVector(v, n)[i] > 0.0
  {
    hide Lag, Divisor, DivisorVector, Flatten;
    FlattenSize(Lags(v, hist, n), |v.features|);
    DivisorShape(v, n);
  }

  /** Normalising the stack is normalising every lag. */
  lemma {:induction false} NormaliseLags(v: View, hist: seq<ClusterState>, n: nat)
    requires n <= v.history
    ensures |Flatten(Lags(v, hist, n))| == |DivisorVector(v, n)|
    ensures forall i :: 0 <= i < |DivisorVector(v, n)| ==> DivisorVector(v, n)[i] > 0.0
    ensures Normalise(Flatten(Lags(v, hist, n)), DivisorVector(v, n), v.norm.clip) == Flatten(ScaledLags(v, hist, n))
  {
    hide Clip, Divisor, Normalise, Scaled, Lag, Lags, ScaledLags, Flatten, DivisorVector;
    LagsSize(v, hist, n);
    if n > 0 {
      NormaliseLags(v, hist, n - 1);
      var row := Lag(v, hist, n - 1);
      OneLagMore(v, hist, n);
      NormaliseRow(v, row);
      NormaliseAppend(Flatten(Lags(v, hist, n - 1)), row, DivisorVector(v, n - 1), Divisors(v), v.norm.clip);
    } else {
      NoLags(v, hist);
      assert Normalise([], [], v.norm.clip) == [];
    }
  }

  lemma {:induction false} FlattenRow(rows: seq<seq<real>>, w: nat, k: nat)
    requires k < |rows| && forall i :: 0 <= i < |rows| ==> |rows[i]| == w
    ensures 0 <= k * w <= k * w + w <= |Flatten(rows)| && Flatten(rows)[k * w..k * w + w] == rows[k]
  {
    var n := |rows| - 1;
    FlattenSize(rows, w);
    FlattenSize(rows[..n], w);
    assert Flatten(rows) == Flatten(rows[..n]) + rows[n];
    if k < n {
      FlattenRow(rows[..n], w, k);
      assert Flatten(rows)[k * w..k * w + w] == Flatten(rows[..n])[k * w..k * w + w];
    }
  }

  // ---- decoding ------------------------------------------------------------------------------------------------

  /** Rounding to the nearest integer, ties to even. */
  function Round(x: real): int {
    var f := x.Floor;
    var d := x - f as real;
    if d < 0.5 then f else if d > 0.5 then f + 1 else if f % 2 == 0 then f else f + 1
  }

  lemma RoundInteger(n: int)
    ensures Round(n as real) == n
  {}

  /** Rounding moves by a half at most, and where by a half, to an even number. */
  lemma RoundIs(x: real)
    ensures x - 0.5 <= Round(x) as real <= x + 0.5
    ensures x - Round(x) as real == 0.5 || Round(x) as real - x == 0.5 ==> Round(x) % 2 == 0
  {}

  predicate IsCount(f: Feature) {
    f in {NReady, NBooting, NDraining, NEffective, Target, NRunning, NWaiting, NInflight, Arrivals}
  }

  /** One decoded scrape. The names in `saturated` were at the ceiling, so their values are lower bounds. */
  datatype Scrape = Scrape(nReady: real, nBooting: real, nDraining: real, target: real, nRunning: real, nWaiting: real,
                           satMean: real, satMax: real, arrivals: real, saturated: seq<Feature>)
  {
    function NEffective(): real { nReady + nBooting + nDraining }
  }

  const CEILING_SLACK: real := 0.000001

  /** An element in the units of the cluster. */
  function Unscaled(v: View, f: Feature, x: real): real { x * Divisor(v.norm, f) }

  function FieldValue(v: View, f: Feature, x: real): real {
    var raw := Unscaled(v, f, x);
    if IsCount(f) then Round(raw) as real else raw
  }

  /** What an element stands for, clipped or not: its amount, rounded to a whole number where the feature counts. */
  lemma FieldIs(v: View, f: Feature, x: real)
    ensures var y, amount := FieldValue(v, f, x), x * Divisor(v.norm, f);
            if f in {RunningPerReady, WaitingPerReady, SatMean, SatMax, PreemptionsTotal} then y == amount
            else y == y.Floor as real && amount - 0.5 <= y <= amount + 0.5
  {
    hide Divisor, Round;
    RoundIs(Unscaled(v, f, x));
  }

  /** The value of a field: the last column that carries the feature wins. */
  function Field(v: View, row: seq<real>, features: seq<Feature>, f: Feature): real
    requires |row| == |features| && f in features
  {
    var n := |features| - 1;
    if features[n] == f then FieldValue(v, f, row[n]) else Field(v, row[..n], features[..n], f)
  }

  /** Features at the clip ceiling. */
  function Ceiling(row: seq<real>, features: seq<Feature>, top: real): seq<Feature>
    requires |row| == |features|
  {
    if features == [] then []
    else
      var n := |features| - 1;
      Ceiling(row[..n], features[..n], top) + (if row[n] >= top - CEILING_SLACK then [features[n]] else [])
  }

  function DecodeRow(v: View, row: seq<real>): Scrape
    requires |row| == |v.features|
  {
    var fs := v.features;
    HasFields(v);
    Scrape(Field(v, row, fs, NReady), Field(v, row, fs, NBooting), Field(v, row, fs, NDraining),
           Field(v, row, fs, Target), Field(v, row, fs, NRunning), Field(v, row, fs, NWaiting),
           Field(v, row, fs, SatMean), Field(v, row, fs, SatMax), Field(v, row, fs, Arrivals),
           Ceiling(row, fs, v.norm.clip))
  }

  lemma SliceBounds(k: nat, n: nat, w: nat)
    requires k < n
    ensures 0 <= k * w <= k * w + w <= n * w
  {
    assert (n - k - 1) * w >= 0;
    assert n * w == k * w + w + (n - k - 1) * w;
  }

  datatype Decoded = Decoded(scrapes: seq<Scrape>, t: real, progress: real, stepI: int) | WrongShape

  function ScrapeAt(v: View, obs: seq<real>, k: nat): Scrape
    requires |obs| == v.history * |v.features| + 1 && k < v.history
  {
    var w := |v.features|;
    SliceBounds(k, v.history, w);
    DecodeRow(v, obs[k * w..k * w + w])
  }

  /** Progress is quantised, so the step count can be read off it, and the episode time with it. */
  function StepIndex(v: View, progress: real): int { Round(progress * (v.nSteps as real)) }

  function StepTime(v: View, stepI: int): real { stepI as real * v.dt }

  /** The inverse of the observation. */
  function Decode(v: View, obs: seq<real>): Decoded {
    if |obs| != v.history * |v.features| + 1 then WrongShape
    else
      var progress := obs[|obs| - 1];
      var stepI := StepIndex(v, progress);
      Decoded(seq(v.history, k requires 0 <= k < v.history => ScrapeAt(v, obs, k)), StepTime(v, stepI), progress, stepI)
  }

  // ---- decoding undoes observing -----------------------------------------------------------------------------------

  /** The scrape a state decodes to when nothing is clipped. */
  function ScrapeOf(s: ClusterState): Scrape {
    Scrape(s.nReady as real, s.nBooting as real, s.nDraining as real, s.target as real, s.nRunning as real,
           s.nWaiting as real, s.satMean, s.satMax, s.arrivals as real, [])
  }

  /** No feature of the state reaches the clip ceiling. */
  predicate Unclipped(v: View, s: ClusterState) {
    forall j :: 0 <= j < |v.features| ==> Value(v.features[j], s) / Divisor(v.norm, v.features[j]) < v.norm.clip - CEILING_SLACK
  }

  lemma CountValue(f: Feature, s: ClusterState)
    requires IsCount(f)
    ensures Round(Value(f, s)) as real == Value(f, s)
  {
    match f
    case NReady => RoundInteger(s.nReady);
    case NBooting => RoundInteger(s.nBooting);
    case NDraining => RoundInteger(s.nDraining);
    case NEffective => RoundInteger(s.NEffective());
    case Target => RoundInteger(s.target);
    case NRunning => RoundInteger(s.nRunning);
    case NWaiting => RoundInteger(s.nWaiting);
    case NInflight => RoundInteger(s.nInflight);
    case Arrivals => RoundInteger(s.arrivals);
    case _ =>
  }

  lemma ScaleBack(x: real, d: real)
    requires d > 0.0 && x >= 0.0
    ensures x / d >= 0.0 && (x / d) * d == x
  {}

  lemma ElementExact(v: View, s: ClusterState, f: Feature)
    requires Value(f, s) / Divisor(v.norm, f) < v.norm.clip - CEILING_SLACK
    ensures FieldValue(v, f, Clip(Value(f, s) / Divisor(v.norm, f), v.norm.clip)) == Value(f, s)
  {
    hide Value, Divisor, Round, Clip;
    ClipBack(Value(f, s), Divisor(v.norm, f), v.norm.clip);
    assert Unscaled(v, f, Clip(Value(f, s) / Divisor(v.norm, f), v.norm.clip)) == Value(f, s);
    hide Unscaled, IsCount;
    if IsCount(f) { CountValue(f, s); }
  }

  lemma ClipBack(x: real, d: real, top: real)
    requires d > 0.0 && x >= 0.0 && x / d < top - CEILING_SLACK
    ensures Clip(x / d, top) * d == x
  {
    ScaleBack(x, d);
    assert Clip(x / d, top) == x / d;
  }

  /** A field that is not clipped decodes to its value. */
  lemma {:induction false} FieldExact(v: View, s: ClusterState, row: seq<real>, features: seq<Feature>, f: Feature)
    requires |row| == |features| && f in features
    requires forall j :: 0 <= j < |row| ==>
               && row[j] == Clip(Value(features[j], s) / Divisor(v.norm, features[j]), v.norm.clip)
               && Value(features[j], s) / Divisor(v.norm, features[j]) < v.norm.clip - CEILING_SLACK
    ensures Field(v, row, features, f) == Value(f, s)
    decreases |features|
  {
    var n := |features| - 1;
    hide Value, Divisor, Clip, FieldValue;
    if features[n] == f {
      ElementExact(v, s, f);
    } else {
      assert f in features[..n];
      FieldExact(v, s, row[..n], features[..n], f);
    }
  }

  lemma {:induction false} NoCeiling(row: seq<real>, features: seq<Feature>, top: real)
    requires |row| == |features| && forall j :: 0 <= j < |row| ==> row[j] < top - CEILING_SLACK
    ensures Ceiling(row, features, top) == []
  {
    if features != [] { NoCeiling(row[..|row| - 1], features[..|features| - 1], top); }
  }

  lemma {:induction false} RowExact(v: View, s: ClusterState)
    requires Unclipped(v, s)
    ensures DecodeRow(v, Scaled(Row(v.features, s), v.features, v.norm)) == ScrapeOf(s)
  {
    var row := Scaled(Row(v.features, s), v.features, v.norm);
    forall j | 0 <= j < |row| ensures row[j] < v.norm.clip - CEILING_SLACK {
      ScaleBack(Value(v.features[j], s), Divisor(v.norm, v.features[j]));
    }
    hide Value, Divisor, Clip, Field;
    NoCeiling(row, v.features, v.norm.clip);
    HasFields(v);
    FieldExact(v, s, row, v.features, NReady);
    FieldExact(v, s, row, v.features, NBooting);
    FieldExact(v, s, row, v.features, NDraining);
    FieldExact(v, s, row, v.features, Target);
    FieldExact(v, s, row, v.features, NRunning);
    FieldExact(v, s, row, v.features, NWaiting);
    FieldExact(v, s, row, v.features, SatMean);
    FieldExact(v, s, row, v.features, SatMax);
    FieldExact(v, s, row, v.features, Arrivals);
    ValuesAre(s);
  }

  lemma HasFields(v: View)
    ensures NReady in v.features && NBooting in v.features && NDraining in v.features && Target in v.features
    ensures NRunning in v.features && NWaiting in v.features && SatMean in v.features && SatMax in v.features
    ensures Arrivals in v.features
  {
    assert SCRAPE_FIELDS[0] in v.features && SCRAPE_FIELDS[1] in v.features && SCRAPE_FIELDS[2] in v.features
        && SCRAPE_FIELDS[3] in v.features && SCRAPE_FIELDS[4] in v.features && SCRAPE_FIELDS[5] in v.features
        && SCRAPE_FIELDS[6] in v.features && SCRAPE_FIELDS[7] in v.features && SCRAPE_FIELDS[8] in v.features;
  }

  lemma ValuesAre(s: ClusterState)
    ensures Value(NReady, s) == s.nReady as real && Value(NBooting, s) == s.nBooting as real
    ensures Value(NDraining, s) == s.nDraining as real && Value(Target, s) == s.target as real
    ensures Value(NRunning, s) == s.nRunning as real && Value(NWaiting, s) == s.nWaiting as real
    ensures Value(SatMean, s) == s.satMean && Value(SatMax, s) == s.satMax && Value(Arrivals, s) == s.arrivals as real
  {}

  lemma {:induction false} ObservedRow(v: View, hist: seq<ClusterState>, stepI: nat, k: nat)
    requires k < v.history
    ensures var obs, w := Observe(v, hist, stepI), |v.features|;
            && |obs| == v.history * w + 1 && obs[|obs| - 1] == EpisodeProgress(v, stepI)
            && 0 <= k * w <= k * w + w <= |obs| - 1
            && obs[k * w..k * w + w] == Scaled(Lag(v, hist, k), v.features, v.norm)
  {
    var w := |v.features|;
    hide Scaled, Lag, Normalise, EpisodeProgress;
    Shape(v, hist);
    NormaliseLags(v, hist, v.history);
    var rows := ScaledLags(v, hist, v.history);
    FlattenRow(rows, w, k);
    assert Observe(v, hist, stepI)[k * w..k * w + w] == Flatten(rows)[k * w..k * w + w];
  }

  lemma ProgressStep(v: View, stepI: nat)
    requires stepI <= v.nSteps
    ensures StepIndex(v, EpisodeProgress(v, stepI)) == stepI
  {
    ScaleBack(stepI as real, v.nSteps as real);
    RoundInteger(stepI);
  }

  lemma DecodedAt(v: View, obs: seq<real>, k: nat)
    requires |obs| == v.history * |v.features| + 1 && k < v.history
    ensures 0 <= k * |v.features| <= k * |v.features| + |v.features| <= |obs|
    ensures var d := Decode(v, obs);
            && d.Decoded? && |d.scrapes| == v.history
            && d.scrapes[k] == DecodeRow(v, obs[k * |v.features|..k * |v.features| + |v.features|])
            && d.stepI == StepIndex(v, obs[|obs| - 1]) && d.t == StepTime(v, d.stepI)
            && d.progress == obs[|obs| - 1]
  {
    SliceBounds(k, v.history, |v.features|);
    hide DecodeRow, StepIndex, StepTime;
  }

  /** Decoding the observation recovers, for every real lag that is not clipped, exactly the scrape it was built
      from, and the episode time from the step count. */
  lemma {:induction false} DecodeInvertsObserve(v: View, hist: seq<ClusterState>, stepI: nat, k: nat)
    requires stepI <= v.nSteps && k < v.history && |hist| + k >= v.history
    requires Unclipped(v, hist[|hist| - v.history + k])
    ensures var d := Decode(v, Observe(v, hist, stepI));
            && d.Decoded? && |d.scrapes| == v.history && d.scrapes[k] == ScrapeOf(hist[|hist| - v.history + k])
            && d.stepI == stepI && d.t == StepTime(v, stepI) && d.progress == EpisodeProgress(v, stepI)
  {
    hide Scaled, DecodeRow, Unclipped, Observe, EpisodeProgress, StepIndex, StepTime, ScrapeOf, Row, Decode;
    ObservedRow(v, hist, stepI, k);
    DecodedAt(v, Observe(v, hist, stepI), k);
    ProgressStep(v, stepI);
    RowExact(v, hist[|hist| - v.history + k]);
    assert Lag(v, hist, k) == Row(v.features, hist[|hist| - v.history + k]);
  }

  lemma RoundMonotone(x: real, y: real)
    requires x <= y
    ensures Round(x) <= Round(y)
  {}

  lemma ClipLow(x: real, d: real, top: real)
    requires d > 0.0 && x >= 0.0 && top > 0.0
    ensures Clip(x / d, top) * d <= x
  {
    ScaleBack(x, d);
    if x / d > top { Shrink(top, x / d, d); }
  }

  lemma Shrink(a: real, b: real, d: real)
    requires a <= b && d > 0.0
    ensures a * d <= b * d
  {}

  /** Clipped or not, a decoded element never exceeds the value it stands for. */
  lemma {:induction false} DecodesLow(v: View, s: ClusterState, f: Feature)
    ensures FieldValue(v, f, Clip(Value(f, s) / Divisor(v.norm, f), v.norm.clip)) <= Value(f, s)
  {
    hide Value, Divisor, Round, Clip;
    var y := Clip(Value(f, s) / Divisor(v.norm, f), v.norm.clip);
    ClipLow(Value(f, s), Divisor(v.norm, f), v.norm.clip);
    assert Unscaled(v, f, y) <= Value(f, s);
    hide Unscaled, IsCount;
    if IsCount(f) {
      CountValue(f, s);
      RoundMonotone(Unscaled(v, f, y), Value(f, s));
    }
  }

  // ---- what every column shows ---------------------------------------------------------------------------------

  /** The element y shows the amount x, in the unit given: clipped at the top, exact below it. */
  predicate Shows(y: real, x: real, unit: real, top: real) { if x > top * unit then y == top else y * unit == x }

  /** The unit of an amount per ready replica, of which one is assumed where there is none. */
  function PerReadyUnit(n: Norm, nReady: nat): real {
    if nReady <= 1 then n.perReplica else n.perReplica * (nReady as real)
  }

  /** What the column of a feature shows of a state. */
  predicate ColumnShows(n: Norm, f: Feature, s: ClusterState, y: real) {
    match f
    case NReady => Shows(y, s.nReady as real, n.replica, n.clip)
    case NBooting => Shows(y, s.nBooting as real, n.replica, n.clip)
    case NDraining => Shows(y, s.nDraining as real, n.replica, n.clip)
    case NEffective => Shows(y, (s.nReady + s.nBooting + s.nDraining) as real, n.replica, n.clip)
    case Target => Shows(y, s.target as real, n.replica, n.clip)
    case NRunning => Shows(y, s.nRunning as real, n.concurrency, n.clip)
    case NWaiting => Shows(y, s.nWaiting as real, n.concurrency, n.clip)
    case NInflight => Shows(y, s.nInflight as real, n.concurrency, n.clip)
    case RunningPerReady => Shows(y, s.nRunning as real, PerReadyUnit(n, s.nReady), n.clip)
    case WaitingPerReady => Shows(y, s.nWaiting as real, PerReadyUnit(n, s.nReady), n.clip)
    case SatMean => Shows(y, s.satMean, 1.0, n.clip)
    case SatMax => Shows(y, s.satMax, 1.0, n.clip)
    case Arrivals => Shows(y, s.arrivals as real, n.arrivals, n.clip)
    case PreemptionsTotal => Shows(y, s.preemptions as real, n.preemptions, n.clip)
  }

  lemma {:induction false} ClipShows(x: real, d: real, top: real)
    requires d > 0.0 && x >= 0.0
    ensures Shows(Clip(x / d, top), x, d, top)
  {
    var q := x / d;
    ScaleBack(x, d);
    if x > top * d {
      if q <= top { Shrink(q, top, d); }
    } else if q > top {
      assert (q - top) * d > 0.0;
    }
  }

  lemma PerReady(n: Norm, x: real, nReady: nat)
    requires x >= 0.0
    ensures Shows(Clip(x / Max(1.0, nReady as real) / n.perReplica, n.clip), x, PerReadyUnit(n, nReady), n.clip)
  {
    hide Clip, Shows;
    var m, d := Max(1.0, nReady as real), n.perReplica;
    Nested(x, m, d);
    ClipShows(x, d * m, n.clip);
    UnitIs(n, nReady, d * m);
    hide PerReadyUnit;
  }

  lemma UnitIs(n: Norm, nReady: nat, unit: real)
    requires unit == n.perReplica * Max(1.0, nReady as real)
    ensures PerReadyUnit(n, nReady) == unit
  {}

  lemma Nested(x: real, m: real, d: real)
    requires m > 0.0 && d > 0.0
    ensures d * m > 0.0 && x / m / d == x / (d * m)
  {
    var q := x / m / d;
    assert q * d == x / m;
    assert (q * d) * m == x;
    assert q * (d * m) == x;
  }

  lemma {:induction false} ElementShows(n: Norm, f: Feature, s: ClusterState)
    ensures ColumnShows(n, f, s, Clip(Value(f, s) / Divisor(n, f), n.clip))
  {
    hide Clip, Shows, PerReadyUnit;
    match f
    case RunningPerReady => PerReady(n, s.nRunning as real, s.nReady);
    case WaitingPerReady => PerReady(n, s.nWaiting as real, s.nReady);
    case _ => ClipShows(Value(f, s), Divisor(n, f), n.clip);
  }

  /** Every element of the observation: nothing before the first scrape, the scrape's feature from then on, and last
      the share of the control steps taken. */
  lemma {:induction false} ObservedColumn(v: View, hist: seq<ClusterState>, stepI: nat, k: nat, j: nat)
    requires k < v.history && j < |v.features|
    ensures var obs, w, i := Observe(v, hist, stepI), |v.features|, |hist| - v.history + k;
            && 0 <= k * w + j < |obs| - 1 == v.history * w
            && (i < 0 ==> obs[k * w + j] == 0.0)
            && (i >= 0 ==> ColumnShows(v.norm, v.features[j], hist[i], obs[k * w + j]))
            && obs[|obs| - 1] * (v.nSteps as real) == (if stepI <= v.nSteps then stepI else v.nSteps) as real
  {
    hide Observe, ColumnShows, Clip, Divisor, Value, Zeros, Row;
    var obs, w, i := Observe(v, hist, stepI), |v.features|, |hist| - v.history + k;
    ObservedRow(v, hist, stepI, k);
    assert obs[k * w + j] == obs[k * w..k * w + w][j];
    if i >= 0 { ElementShows(v.norm, v.features[j], hist[i]); } else { NothingShown(Divisor(v.norm, v.features[j]), v.norm.clip); }
    ProgressShown(v, stepI);
  }

  lemma NothingShown(d: real, top: real)
    requires d > 0.0 && top > 0.0
    ensures Clip(0.0 / d, top) == 0.0
  {}

  lemma ProgressShown(v: View, stepI: nat)
    ensures EpisodeProgress(v, stepI) * (v.nSteps as real) == (if stepI <= v.nSteps then stepI else v.nSteps) as real
  {
    AboveOne(stepI as real, v.nSteps as real);
    ScaleBack(stepI as real, v.nSteps as real);
  }

  lemma AboveOne(a: real, b: real)
    requires b > 0.0
    ensures a / b > 1.0 <==> a > b
  {
    var q := a / b;
    assert q * b == a;
    if q > 1.0 { assert (q - 1.0) * b > 0.0; } else { assert (1.0 - q) * b >= 0.0; }
  }

  /** Column j carries f and is at the ceiling. */
  predicate AtCeiling(row: seq<real>, features: seq<Feature>, top: real, f: Feature, j: nat)
    requires j < |row| == |features|
  {
    features[j] == f && row[j] >= top - 0.000001
  }

  lemma {:induction false} CeilingIs(row: seq<real>, features: seq<Feature>, top: real, f: Feature)
    requires |row| == |features|
    ensures f in Ceiling(row, features, top) <==> exists j: nat :: j < |row| && AtCeiling(row, features, top, f, j)
  {
    if features != [] {
      var n: nat := |features| - 1;
      CeilingIs(row[..n], features[..n], top, f);
      assert AtCeiling(row, features, top, f, n) <==> features[n] == f && row[n] >= top - CEILING_SLACK;
      assert forall j: nat :: j < n ==> AtCeiling(row[..n], features[..n], top, f, j) == AtCeiling(row, features, top, f, j);
      hide AtCeiling;
    }
  }

  /** Whatever the vector decoded: a scrape is marked saturated in exactly those features that have a column at the
      ceiling. */
  lemma {:induction false} SaturatedExactly(v: View, obs: seq<real>, k: nat, f: Feature)
    requires |obs| == v.history * |v.features| + 1 && k < v.history
    ensures 0 <= k * |v.features| <= k * |v.features| + |v.features| <= |obs|
    ensures var d, w := Decode(v, obs), |v.features|;
            && d.Decoded? && |d.scrapes| == v.history
            && (f in d.scrapes[k].saturated
                <==> var row := obs[k * w..k * w + w];
                     exists j: nat :: j < w && AtCeiling(row, v.features, v.norm.clip, f, j))
  {
    hide Decode, Field;
    DecodedAt(v, obs, k);
    var row := obs[k * |v.features|..k * |v.features| + |v.features|];
    CeilingIs(row, v.features, v.norm.clip, f);
  }

  // ---- the two loops -----------------------------------------------------------------------------------------------

  lemma {:induction false} PaddingIsZeros(v: View, hist: seq<ClusterState>, n: nat)
    requires n <= v.history && n + |hist| <= v.history
    ensures Flatten(Lags(v, hist, n)) == Zeros(n * |v.features|)
  {
    if n > 0 {
      PaddingIsZeros(v, hist, n - 1);
      assert Lag(v, hist, n - 1) == Zeros(|v.features|);
      hide Lag;
      assert Lags(v, hist, n)[..n - 1] == Lags(v, hist, n - 1);
      MoreZeros(n - 1, |v.features|);
    } else {
      assert Zeros(0) == [];
    }
  }

  lemma MoreZeros(n: nat, w: nat)
    ensures n * w >= 0 && (n + 1) * w >= 0 && Zeros((n + 1) * w) == Zeros(n * w) + Zeros(w)
  {
    assert (n + 1) * w == n * w + w;
  }

  /** Extend the vector by the features of one scrape. */
  method AppendFeatures(vec: seq<real>, features: seq<Feature>, s: ClusterState) returns (out: seq<real>)
    ensures out == vec + Row(features, s)
  {
    out := vec;
    for j := 0 to |features|
      invariant out == vec + Row(features, s)[..j]
    {
      out := out + [Value(features[j], s)];
    }
  }

  /** Assemble the raw observation from the last scrapes, oldest first. */
  method BuildVector(v: View, hist: seq<ClusterState>) returns (vec: seq<real>)
    ensures vec == Build(v, hist)
  {
    hide Value, Zeros, Flatten;
    var start := if |hist| <= v.history then 0 else |hist| - v.history;
    var window := hist[start..];
    var pad := v.history - |window|;
    vec := Zeros(pad * |v.features|);
    PaddingIsEmpty(v, hist, pad);
    for i := 0 to |window|
      invariant vec == Flatten(Lags(v, hist, pad + i))
    {
      assert window[i] == hist[|hist| - v.history + (pad + i)];
      assert Row(v.features, window[i]) == Lag(v, hist, pad + i);
      vec := AppendFeatures(vec, v.features, window[i]);
      LagsGrow(v, hist, pad + i);
    }
  }

  lemma LagsGrow(v: View, hist: seq<ClusterState>, n: nat)
    requires n < v.history
    ensures Flatten(Lags(v, hist, n + 1)) == Flatten(Lags(v, hist, n)) + Lag(v, hist, n)
  {
    hide Lag;
    assert Lags(v, hist, n + 1)[..n] == Lags(v, hist, n);
  }

  lemma PaddingIsEmpty(v: View, hist: seq<ClusterState>, pad: nat)
    requires pad == if |hist| <= v.history then v.history - |hist| else 0
    ensures Flatten(Lags(v, hist, pad)) == Zeros(pad * |v.features|)
  {
    if |hist| <= v.history { PaddingIsZeros(v, hist, pad); } else { assert Zeros(0) == []; }
  }

  /** Decode an observation, lag by lag. */
  method DecodeVector(v: View, obs: seq<real>) returns (d: Decoded)
    ensures d == Decode(v, obs)
  {
    if |obs| != v.history * |v.features| + 1 { return WrongShape; }
    var progress := obs[|obs| - 1];
    var scrapes := [];
    for lag := 0 to v.history
      invariant |scrapes| == lag && forall k :: 0 <= k < lag ==> scrapes[k] == ScrapeAt(v, obs, k)
    {
      scrapes := scrapes + [ScrapeAt(v, obs, lag)];
    }
    var stepI := StepIndex(v, progress);
    d := Decoded(scrapes, StepTime(v, stepI), progress, stepI);
  }
}
