/** Rebuilding arrival times from per-minute counts, and binning them back. */
module Arrivals {
  import S = Sorting

  const MINUTE: real := 60.0

  // ---- sorting --------------------------------------------------------------------------------------------------

  predicate Sorted(s: seq<real>) { forall i, j :: 0 <= i < j < |s| ==> s[i] <= s[j] }

  const AT_MOST: (real, real) -> bool := (a: real, b: real) => a <= b

  function Sort(s: seq<real>): (r: seq<real>)
    ensures Sorted(r) && |r| == |s| && multiset(r) == multiset(s)
  {
    S.SortSorts(AT_MOST, s);
    S.Sort(AT_MOST, s)
  }

  // ---- binning ----------------------------------------------------------------------------------------------------

  /** x falls in the bin [lo, hi), or [lo, hi] for the last bin. */
  predicate InBin(x: real, lo: real, hi: real, last: bool) { lo <= x && (x < hi || (last && x == hi)) }

  function CountIn(ts: seq<real>, lo: real, hi: real, last: bool): nat {
    if ts == [] then 0 else (if InBin(ts[0], lo, hi, last) then 1 else 0) + CountIn(ts[1..], lo, hi, last)
  }

  function Edge(k: int, width: real): real { k as real * width }

  function Bins(horizon: real, width: real): (n: nat)
    requires width > 0.0
    ensures n >= 1
  {
    var c: int := -((-(horizon / width)).Floor);
    if c > 1 then c else 1
  }

  /** The histogram over equal bins that cover the horizon. */
  function BinCounts(ts: seq<real>, horizon: real, width: real): (cs: seq<nat>)
    requires width > 0.0
    ensures |cs| == Bins(horizon, width)
  {
    var n := Bins(horizon, width);
    seq(n, k requires 0 <= k < n => CountIn(ts, Edge(k, width), Edge(k + 1, width), k == n - 1))
  }

  lemma {:induction false} CountAppend(a: seq<real>, b: seq<real>, lo: real, hi: real, last: bool)
    ensures CountIn(a + b, lo, hi, last) == CountIn(a, lo, hi, last) + CountIn(b, lo, hi, last)
  {
    if a == [] { assert a + b == b; } else {
      assert (a + b)[1..] == a[1..] + b;
      CountAppend(a[1..], b, lo, hi, last);
    }
  }

  lemma {:induction false} CountInsert(x: real, s: seq<real>, lo: real, hi: real, last: bool)
    ensures CountIn(S.Insert(AT_MOST, x, s), lo, hi, last) == CountIn([x] + s, lo, hi, last)
  {
    assert ([x] + s)[1..] == s;
    if s != [] && x > s[0] {
      CountInsert(x, s[1..], lo, hi, last);
      assert ([x] + s[1..])[1..] == s[1..];
      assert S.Insert(AT_MOST, x, s)[1..] == S.Insert(AT_MOST, x, s[1..]);
    }
  }

  /** Sorting does not change a histogram. */
  lemma {:induction false} CountSort(s: seq<real>, lo: real, hi: real, last: bool)
    ensures CountIn(Sort(s), lo, hi, last) == CountIn(s, lo, hi, last)
  {
    if s != [] {
      CountSort(s[1..], lo, hi, last);
      CountInsert(s[0], Sort(s[1..]), lo, hi, last);
      assert ([s[0]] + Sort(s[1..]))[1..] == Sort(s[1..]);
    }
  }

  lemma {:induction false} CountAll(s: seq<real>, lo: real, hi: real, last: bool)
    requires forall i :: 0 <= i < |s| ==> InBin(s[i], lo, hi, last)
    ensures CountIn(s, lo, hi, last) == |s|
  {
    if s != [] { CountAll(s[1..], lo, hi, last); }
  }

  lemma {:induction false} CountNone(s: seq<real>, lo: real, hi: real, last: bool)
    requires forall i :: 0 <= i < |s| ==> !InBin(s[i], lo, hi, last)
    ensures CountIn(s, lo, hi, last) == 0
  {
    if s != [] { CountNone(s[1..], lo, hi, last); }
  }

  // ---- binning loses nothing -------------------------------------------------------------------------------------------

  lemma {:induction false} CountSplit(ts: seq<real>, a: real, b: real, c: real, last: bool)
    requires a <= b <= c
    ensures CountIn(ts, a, b, false) + CountIn(ts, b, c, last) == CountIn(ts, a, c, last)
  {
    if ts != [] { CountSplit(ts[1..], a, b, c, last); }
  }

  function Total(counts: seq<nat>): nat {
    if counts == [] then 0 else Total(counts[..|counts| - 1]) + counts[|counts| - 1]
  }

  /** The first m bins hold what falls before their last edge. */
  lemma {:induction false} FirstBins(ts: seq<real>, horizon: real, width: real, m: nat)
    requires width > 0.0 && m <= Bins(horizon, width)
    ensures Total(BinCounts(ts, horizon, width)[..m]) == CountIn(ts, 0.0, Edge(m, width), m == Bins(horizon, width))
  {
    hide Bins, Edge, CountIn, BinCounts;
    var n, cs := Bins(horizon, width), BinCounts(ts, horizon, width);
    if m > 0 {
      FirstBins(ts, horizon, width, m - 1);
      assert cs[..m][..m - 1] == cs[..m - 1] && cs[..m][m - 1] == cs[m - 1];
      OneBin(ts, horizon, width, m - 1);
      EdgesRise(m - 1, width);
      CountSplit(ts, 0.0, Edge(m - 1, width), Edge(m, width), m == n);
    } else {
      NothingBelow(ts, width);
    }
  }

  lemma OneBin(ts: seq<real>, horizon: real, width: real, k: nat)
    requires width > 0.0 && k < Bins(horizon, width)
    ensures BinCounts(ts, horizon, width)[k]
            == CountIn(ts, Edge(k, width), Edge(k + 1, width), k == Bins(horizon, width) - 1)
  {
    hide Bins, Edge, CountIn;
  }

  lemma NothingBelow(ts: seq<real>, width: real)
    ensures CountIn(ts, 0.0, Edge(0, width), false) == 0
  {
    CountNone(ts, 0.0, 0.0, false);
  }

  lemma EdgesRise(k: nat, width: real)
    requires width > 0.0
    ensures 0.0 <= Edge(k, width) < Edge(k + 1, width)
  {
    assert (k as real) * width >= 0.0;
    assert ((k + 1) as real) * width == (k as real) * width + width;
  }

  /** The bins reach to the horizon, and are as few as that takes, one at least. */
  lemma {:induction false} BinsReach(horizon: real, width: real)
    requires width > 0.0
    ensures var n := Bins(horizon, width);
            horizon <= Edge(n, width) && (n > 1 ==> Edge(n - 1, width) < horizon)
  {
    var q, n := horizon / width, Bins(horizon, width);
    assert q * width == horizon;
    assert q <= n as real && (n > 1 ==> (n - 1) as real < q);
    hide Bins;
    EdgeBy(n, q, width);
    EdgeBy(n - 1, q, width);
  }

  lemma EdgeBy(k: int, q: real, width: real)
    requires width > 0.0
    ensures (q <= k as real ==> q * width <= Edge(k, width)) && (k as real < q ==> Edge(k, width) < q * width)
  {
    var x := k as real;
    if x < q { assert (q - x) * width > 0.0; } else { assert (x - q) * width >= 0.0; }
  }

  /** Every arrival from zero up to the horizon, the horizon included, is in exactly one bin. */
  lemma {:induction false} BinningConserves(ts: seq<real>, horizon: real, width: real)
    requires width > 0.0 && forall i :: 0 <= i < |ts| ==> 0.0 <= ts[i] <= horizon
    ensures Total(BinCounts(ts, horizon, width)) == |ts|
  {
    var n, cs := Bins(horizon, width), BinCounts(ts, horizon, width);
    BinsReach(horizon, width);
    FirstBins(ts, horizon, width, n);
    assert cs[..n] == cs;
    hide Bins, Edge;
    CountAll(ts, 0.0, Edge(n, width), true);
  }

  // ---- arrivals that match a count vector -----------------------------------------------------------------------------

  /** All of ts falls before minute n, and minute k holds as many as were counted. */
  ghost predicate Matches(ts: seq<real>, counts: seq<nat>) {
    && (forall i :: 0 <= i < |ts| ==> 0.0 <= ts[i] < Edge(|counts|, MINUTE))
    && (forall k :: 0 <= k < |counts| ==> CountIn(ts, Edge(k, MINUTE), Edge(k + 1, MINUTE), false) == counts[k])
  }

  /** Every time lies in minute m. */
  ghost predicate WithinMinute(block: seq<real>, m: nat) {
    forall i :: 0 <= i < |block| ==> Edge(m, MINUTE) <= block[i] < Edge(m + 1, MINUTE)
  }

  lemma EdgeOrder(a: int, b: int)
    ensures a <= b ==> Edge(a, MINUTE) <= Edge(b, MINUTE)
  {}

  /** Another minute's arrivals extend the match by that minute's count. */
  lemma {:induction false} MatchMinute(ts: seq<real>, counts: seq<nat>, block: seq<real>)
    requires Matches(ts, counts) && WithinMinute(block, |counts|)
    ensures Matches(ts + block, counts + [|block|])
  {
    var n, cs := |counts|, counts + [|block|];
    forall k | 0 <= k < |cs|
      ensures CountIn(ts + block, Edge(k, MINUTE), Edge(k + 1, MINUTE), false) == cs[k]
    {
      CountAppend(ts, block, Edge(k, MINUTE), Edge(k + 1, MINUTE), false);
      EdgeOrder(k + 1, n);
      if k < n {
        CountNone(block, Edge(k, MINUTE), Edge(k + 1, MINUTE), false);
      } else {
        CountNone(ts, Edge(k, MINUTE), Edge(k + 1, MINUTE), false);
        CountAll(block, Edge(k, MINUTE), Edge(k + 1, MINUTE), false);
      }
    }
    EdgeOrder(0, n);
    EdgeOrder(n, n + 1);
  }

  lemma MinuteBins(n: nat)
    requires n >= 1
    ensures Bins(Edge(n, MINUTE), MINUTE) == n
  {
    var i: int := n;
    assert Edge(i, MINUTE) / MINUTE == i as real;
    assert (-(i as real)).Floor == -i;
  }

  lemma {:induction false} LastBinOpen(ts: seq<real>, lo: real, hi: real)
    requires forall i :: 0 <= i < |ts| ==> ts[i] < hi
    ensures CountIn(ts, lo, hi, true) == CountIn(ts, lo, hi, false)
  {
    if ts != [] { LastBinOpen(ts[1..], lo, hi); }
  }

  /** Binning sorted arrivals by the minute recovers the counts they match. */
  lemma {:induction false} BinningRecovers(ts: seq<real>, counts: seq<nat>)
    requires Matches(ts, counts) && counts != []
    ensures BinCounts(Sort(ts), Edge(|counts|, MINUTE), MINUTE) == counts
  {
    var n := |counts|;
    MinuteBins(n);
    hide Bins;
    forall k | 0 <= k < n
      ensures CountIn(Sort(ts), Edge(k, MINUTE), Edge(k + 1, MINUTE), k == n - 1) == counts[k]
    {
      CountSort(ts, Edge(k, MINUTE), Edge(k + 1, MINUTE), k == n - 1);
      if k == n - 1 { LastBinOpen(ts, Edge(k, MINUTE), Edge(k + 1, MINUTE)); }
    }
  }

  // ---- the expression-style arms ---------------------------------------------------------------------------------------

  /** The j-th arrival of minute m lies offset(m, j) seconds into it. */
  function Placed(counts: seq<nat>, offset: (nat, nat) -> real): seq<real> {
    if counts == [] then []
    else
      var m := |counts| - 1;
      Placed(counts[..m], offset) + seq(counts[m], j requires 0 <= j < counts[m] => Edge(m, MINUTE) + offset(m, j))
  }

  function CountOf(counts: seq<nat>, m: nat): nat { if m < |counts| then counts[m] else 1 }

  /** Where the j-th arrival of minute m comes among all arrivals. */
  function Rank(counts: seq<nat>, m: nat, j: nat): nat { (if m <= |counts| then Total(counts[..m]) else 0) + j }

  /** Independent uniform draws, u(i) for the i-th arrival. */
  function PlaceUniform(counts: seq<nat>, u: nat -> real): seq<real> {
    Sort(Placed(counts, (m: nat, j: nat) => u(Rank(counts, m, j)) * MINUTE))
  }

  /** Even spacing within a minute. */
  function Even(counts: seq<nat>): (nat, nat) -> real {
    (m: nat, j: nat) =>
      if CountOf(counts, m) == 0 then 0.0 else (j as real + 0.5) * MINUTE / (CountOf(counts, m) as real)
  }

  /** Evenly spaced within each minute. */
  function PlaceDeterministic(counts: seq<nat>): seq<real> { Sort(Placed(counts, Even(counts))) }

  ghost predicate OffsetsFit(counts: seq<nat>, offset: (nat, nat) -> real) {
    forall m: nat, j: nat :: m < |counts| && j < counts[m] ==> 0.0 <= offset(m, j) < MINUTE
  }

  lemma {:induction false} PlacedMatches(counts: seq<nat>, offset: (nat, nat) -> real)
    requires OffsetsFit(counts, offset)
    ensures Matches(Placed(counts, offset), counts)
  {
    if counts != [] {
      var m := |counts| - 1;
      assert OffsetsFit(counts[..m], offset) by {
        forall a: nat, j: nat | a < m && j < counts[..m][a] ensures 0.0 <= offset(a, j) < MINUTE {
          assert counts[a] == counts[..m][a];
        }
      }
      PlacedMatches(counts[..m], offset);
      var block := seq(counts[m], j requires 0 <= j < counts[m] => Edge(m, MINUTE) + offset(m, j));
      assert Edge(m + 1, MINUTE) == Edge(m, MINUTE) + MINUTE;
      MatchMinute(Placed(counts[..m], offset), counts[..m], block);
      assert counts == counts[..m] + [|block|];
    }
  }

  /** Uniform draws: sorted, and the counts come back from a histogram. */
  lemma {:induction false} UniformRoundTrip(counts: seq<nat>, u: nat -> real)
    requires counts != [] && forall i :: 0.0 <= u(i) < 1.0
    ensures Sorted(PlaceUniform(counts, u))
    ensures BinCounts(PlaceUniform(counts, u), Edge(|counts|, MINUTE), MINUTE) == counts
  {
    var offset := (m: nat, j: nat) => u(Rank(counts, m, j)) * MINUTE;
    forall m: nat, j: nat | m < |counts| && j < counts[m] ensures 0.0 <= offset(m, j) < MINUTE {
      assert 0.0 <= u(Rank(counts, m, j)) < 1.0;
    }
    hide Sort, Placed, BinCounts, Rank;
    PlacedMatches(counts, offset);
    BinningRecovers(Placed(counts, offset), counts);
  }

  lemma EvenOffset(j: nat, c: nat)
    requires j < c
    ensures 0.0 <= (j as real + 0.5) * MINUTE / (c as real) < MINUTE
  {
    var x := (j as real + 0.5) * MINUTE;
    assert x < c as real * MINUTE;
    Quotient(x, c as real);
  }

  lemma Quotient(x: real, c: real)
    requires c > 0.0 && 0.0 <= x < c * MINUTE
    ensures 0.0 <= x / c < MINUTE
  {}

  lemma EvenFits(counts: seq<nat>)
    ensures OffsetsFit(counts, Even(counts))
  {
    forall m: nat, j: nat | m < |counts| && j < counts[m] ensures 0.0 <= Even(counts)(m, j) < MINUTE {
      EvenOffset(j, counts[m]);
    }
  }

  /** Even spacing: sorted, and the counts come back from a histogram. */
  lemma {:induction false} DeterministicRoundTrip(counts: seq<nat>)
    requires counts != []
    ensures Sorted(PlaceDeterministic(counts))
    ensures BinCounts(PlaceDeterministic(counts), Edge(|counts|, MINUTE), MINUTE) == counts
  {
    EvenFits(counts);
    hide Sort, Placed, BinCounts, Even;
    PlacedMatches(counts, Even(counts));
    BinningRecovers(Placed(counts, Even(counts)), counts);
  }

  // ---- where the arrivals are -----------------------------------------------------------------------------------------

  /** The j-th arrival of minute m comes after all those of earlier minutes. */
  lemma {:induction false} PlacedAt(counts: seq<nat>, offset: (nat, nat) -> real, m: nat, j: nat)
    requires m < |counts| && j < counts[m]
    ensures |Placed(counts, offset)| == Total(counts) > Total(counts[..m]) + j
    ensures Placed(counts, offset)[Total(counts[..m]) + j] == MINUTE * (m as real) + offset(m, j)
  {
    var n := |counts| - 1;
    PlacedSize(counts[..n], offset);
    if m < n {
      PlacedAt(counts[..n], offset, m, j);
      assert counts[..n][..m] == counts[..m];
    }
  }

  lemma {:induction false} PlacedSize(counts: seq<nat>, offset: (nat, nat) -> real)
    ensures |Placed(counts, offset)| == Total(counts)
  {
    if counts != [] { PlacedSize(counts[..|counts| - 1], offset); }
  }

  /** The draw of the j-th arrival of minute m is in place. */
  predicate Drawn(counts: seq<nat>, u: nat -> real, raw: seq<real>, m: nat, j: nat)
    requires m < |counts|
  {
    var i := Total(counts[..m]) + j;
    i < |raw| && raw[i] == MINUTE * (m as real) + MINUTE * u(i)
  }

  /** Uniform placement is a permutation of its draws in arrival order, each in the minute it was counted in. */
  lemma {:induction false} UniformPositions(counts: seq<nat>, u: nat -> real) returns (raw: seq<real>)
    ensures multiset(PlaceUniform(counts, u)) == multiset(raw) && |raw| == Total(counts)
    ensures forall m: nat, j: nat :: m < |counts| && j < counts[m] ==> Drawn(counts, u, raw, m, j)
  {
    var offset := (m: nat, j: nat) => u(Rank(counts, m, j)) * MINUTE;
    raw := Placed(counts, offset);
    PlacedSize(counts, offset);
    forall m: nat, j: nat | m < |counts| && j < counts[m] ensures Drawn(counts, u, raw, m, j) {
      PlacedAt(counts, offset, m, j);
      assert Rank(counts, m, j) == Total(counts[..m]) + j;
    }
  }

  lemma {:induction false} SortSorted(s: seq<real>)
    requires Sorted(s)
    ensures S.Sort(AT_MOST, s) == s
  {
    if s != [] { SortSorted(s[1..]); }
  }

  /** Times of one minute after those of earlier ones. */
  lemma SortedAppend(a: seq<real>, b: seq<real>, edge: real)
    requires Sorted(a) && Sorted(b)
    requires (forall i :: 0 <= i < |a| ==> a[i] <= edge) && forall i :: 0 <= i < |b| ==> edge <= b[i]
    ensures Sorted(a + b)
  {}

  ghost predicate Rising(counts: seq<nat>, offset: (nat, nat) -> real) {
    forall m: nat, i: nat, j: nat :: m < |counts| && i < j < counts[m] ==> offset(m, i) <= offset(m, j)
  }

  /** Placed in order within each minute, the arrivals are in order. */
  lemma {:induction false} PlacedSorted(counts: seq<nat>, offset: (nat, nat) -> real)
    requires OffsetsFit(counts, offset) && Rising(counts, offset)
    ensures Sorted(Placed(counts, offset))
  {
    if counts != [] {
      var m := |counts| - 1;
      assert OffsetsFit(counts[..m], offset) && Rising(counts[..m], offset) by { Shorter(counts, offset); }
      PlacedSorted(counts[..m], offset);
      PlacedMatches(counts[..m], offset);
      var block := seq(counts[m], j requires 0 <= j < counts[m] => Edge(m, MINUTE) + offset(m, j));
      SortedAppend(Placed(counts[..m], offset), block, Edge(m, MINUTE));
    }
  }

  lemma Shorter(counts: seq<nat>, offset: (nat, nat) -> real)
    requires counts != [] && OffsetsFit(counts, offset) && Rising(counts, offset)
    ensures OffsetsFit(counts[..|counts| - 1], offset) && Rising(counts[..|counts| - 1], offset)
  {
    assert forall a: nat :: a < |counts| - 1 ==> counts[..|counts| - 1][a] == counts[a];
  }

  /** Even placement, arrival by arrival: the j-th of c in minute m comes at the middle of the j-th of c equal parts of
      that minute. */
  lemma {:induction false} DeterministicPositions(counts: seq<nat>, m: nat, j: nat)
    requires m < |counts| && j < counts[m]
    ensures |PlaceDeterministic(counts)| == Total(counts) > Total(counts[..m]) + j
    ensures PlaceDeterministic(counts)[Total(counts[..m]) + j]
            == MINUTE * (m as real) + (j as real + 0.5) * MINUTE / (counts[m] as real)
  {
    EvenFits(counts);
    EvenRising(counts);
    assert Even(counts)(m, j) == (j as real + 0.5) * MINUTE / (counts[m] as real);
    hide Placed, Total, Even, OffsetsFit, Rising;
    PlacedAt(counts, Even(counts), m, j);
    PlacedSorted(counts, Even(counts));
    SortSorted(Placed(counts, Even(counts)));
  }

  lemma EvenRising(counts: seq<nat>)
    ensures Rising(counts, Even(counts))
  {
    forall m: nat, i: nat, k: nat | m < |counts| && i < k < counts[m] ensures Even(counts)(m, i) <= Even(counts)(m, k) {
      EvenRises(i, k, counts[m]);
    }
  }

  lemma EvenRises(i: nat, k: nat, c: nat)
    requires i < k < c
    ensures (i as real + 0.5) * MINUTE / (c as real) <= (k as real + 0.5) * MINUTE / (c as real)
  {
    Divided((i as real + 0.5) * MINUTE, (k as real + 0.5) * MINUTE, c as real);
  }

  lemma Divided(x: real, y: real, c: real)
    requires x <= y && c > 0.0
    ensures x / c <= y / c
  {}

  // ---- the bursty arm ----------------------------------------------------------------------------------------------------

  /** Epoch k repeated sizes[k] times. */
  function Expanded(epochs: seq<real>, sizes: seq<nat>): (out: seq<real>)
    requires |epochs| == |sizes|
    ensures |out| == Total(sizes)
  {
    if sizes == [] then []
    else
      var k := |sizes| - 1;
      Expanded(epochs[..k], sizes[..k]) + seq(sizes[k], _ => epochs[k])
  }

  lemma {:induction false} ExpandedFits(epochs: seq<real>, sizes: seq<nat>)
    requires |epochs| == |sizes| && forall i :: 0 <= i < |epochs| ==> 0.0 <= epochs[i] < MINUTE
    ensures forall i :: 0 <= i < |Expanded(epochs, sizes)| ==> 0.0 <= Expanded(epochs, sizes)[i] < MINUTE
  {
    if sizes != [] { ExpandedFits(epochs[..|sizes| - 1], sizes[..|sizes| - 1]); }
  }

  /** Batches that follow the draws from `start` on, in order: each is its draw, except that the last one takes only
      what is left of the count c. */
  ghost predicate Batched(c: nat, draws: nat -> nat, start: nat, sizes: seq<nat>) {
    && Total(sizes) == c && (forall i :: 0 <= i < |sizes| ==> 1 <= sizes[i] <= draws(start + i))
    && (forall i :: 0 <= i < |sizes| - 1 ==> sizes[i] == draws(start + i))
  }

  /** Split a minute's count into batches. `draws` are the batch sizes the generator hands out, in order; whatever
      is left of a chunk once the count is used up is discarded. */
  method SplitBatches(c: nat, mean: real, draws: nat -> nat, start: nat) returns (sizes: seq<nat>, used: nat)
    requires mean > 0.0 && forall i :: draws(i) >= 1
    ensures Batched(c, draws, start, sizes) && used >= start + |sizes|
    ensures c > 0 ==> sizes != []
  {
    sizes, used := [], start;
    var remaining: int := c;
    while remaining > 0
      invariant 0 <= remaining <= c && Batched(c - remaining, draws, start, sizes)
      invariant remaining > 0 ==> used == start + |sizes| && Uncut(draws, start, sizes)
      invariant used >= start + |sizes|
    {
      var whole := (remaining as real / mean).Floor;
      var need := if whole + 2 > 4 then whole + 2 else 4;
      var i := 0;
      ghost var before := remaining;
      while i < need && remaining > 0
        invariant 0 <= i <= need && 0 <= remaining <= before && used + i == start + |sizes|
        invariant Batched(c - remaining, draws, start, sizes) && (remaining > 0 ==> Uncut(draws, start, sizes))
        invariant i > 0 ==> remaining < before
      {
        var s := if draws(used + i) <= remaining then draws(used + i) else remaining;
        BatchMore(c - remaining, draws, start, sizes, s);
        sizes := sizes + [s];
        remaining := remaining - s;
        i := i + 1;
      }
      used := used + need;
    }
  }

  /** So far every batch is its draw. */
  ghost predicate Uncut(draws: nat -> nat, start: nat, sizes: seq<nat>) {
    forall i :: 0 <= i < |sizes| ==> sizes[i] == draws(start + i)
  }

  lemma BatchMore(c: nat, draws: nat -> nat, start: nat, sizes: seq<nat>, s: nat)
    requires Batched(c, draws, start, sizes) && Uncut(draws, start, sizes) && 1 <= s <= draws(start + |sizes|)
    ensures Batched(c + s, draws, start, sizes + [s])
    ensures s == draws(start + |sizes|) ==> Uncut(draws, start, sizes + [s])
  {
    assert (sizes + [s])[..|sizes|] == sizes;
  }

  /** Sorted draws, scaled to the minute. */
  function Epochs(u: nat -> real, start: nat, n: nat): (es: seq<real>)
    ensures |es| == n
  {
    Scale(Sort(seq(n, i requires 0 <= i < n => u(start + i))))
  }

  function Scale(s: seq<real>): (r: seq<real>)
    ensures |r| == |s| && forall i :: 0 <= i < |s| ==> r[i] == s[i] * MINUTE
  {
    seq(|s|, i requires 0 <= i < |s| => s[i] * MINUTE)
  }

  lemma {:induction false} EpochsFit(u: nat -> real, start: nat, n: nat)
    requires forall i :: 0.0 <= u(i) < 1.0
    ensures forall i :: 0 <= i < n ==> 0.0 <= Epochs(u, start, n)[i] < MINUTE
  {
    var raw := seq(n, i requires 0 <= i < n => u(start + i));
    S.SameMembers(Sort(raw), raw);
    forall i | 0 <= i < n ensures 0.0 <= Sort(raw)[i] < 1.0 {
      assert Sort(raw)[i] in Sort(raw);
      var k :| 0 <= k < n && raw[k] == Sort(raw)[i];
    }
  }

  /** The block holds, batch after batch, sizes[k] arrivals at the k-th epoch of minute m. */
  ghost predicate InBatches(block: seq<real>, m: nat, sizes: seq<nat>, epochs: seq<real>)
    requires |epochs| == |sizes|
  {
    forall k: nat, j: nat :: k < |sizes| && j < sizes[k] ==> InBatch(block, m, sizes, epochs, k, j)
  }

  predicate InBatch(block: seq<real>, m: nat, sizes: seq<nat>, epochs: seq<real>, k: nat, j: nat)
    requires |epochs| == |sizes| && k < |sizes|
  {
    var i := Total(sizes[..k]) + j;
    i < |block| && block[i] == MINUTE * (m as real) + epochs[k]
  }

  lemma {:induction false} ExpandedAt(epochs: seq<real>, sizes: seq<nat>, k: nat, j: nat)
    requires |epochs| == |sizes| && k < |sizes| && j < sizes[k]
    ensures Total(sizes[..k]) + j < Total(sizes) && Expanded(epochs, sizes)[Total(sizes[..k]) + j] == epochs[k]
  {
    var n := |sizes| - 1;
    if k < n {
      ExpandedAt(epochs[..n], sizes[..n], k, j);
      assert sizes[..n][..k] == sizes[..k];
    }
  }

  lemma {:induction false} BatchAt(epochs: seq<real>, sizes: seq<nat>, m: nat, k: nat, j: nat)
    requires |epochs| == |sizes| && k < |sizes| && j < sizes[k]
    ensures InBatch(Shifted(Expanded(epochs, sizes), m), m, sizes, epochs, k, j)
  {
    hide Expanded, Total;
    ExpandedAt(epochs, sizes, k, j);
  }

  lemma {:induction false} BatchesOf(epochs: seq<real>, sizes: seq<nat>, m: nat)
    requires |epochs| == |sizes|
    ensures InBatches(Shifted(Expanded(epochs, sizes), m), m, sizes, epochs)
  {
    hide Expanded, Total, InBatch, Shifted;
    forall k: nat, j: nat | k < |sizes| && j < sizes[k]
      ensures InBatch(Shifted(Expanded(epochs, sizes), m), m, sizes, epochs, k, j)
    {
      BatchAt(epochs, sizes, m, k, j);
    }
  }

  /** The arrivals of one minute: one epoch per batch, every arrival of a batch at that epoch. */
  method BurstyMinute(c: nat, m: nat, mean: real, u: nat -> real, draws: nat -> nat, nextU: nat, nextDraw: nat)
    returns (block: seq<real>, nextU': nat, nextDraw': nat, ghost sizes: seq<nat>)
    requires mean > 0.0 && (forall i :: 0.0 <= u(i) < 1.0) && (forall i :: draws(i) >= 1)
    ensures |block| == c && WithinMinute(block, m)
    ensures Batched(c, draws, nextDraw, sizes) && InBatches(block, m, sizes, Epochs(u, nextU, |sizes|))
    ensures nextU' == nextU + |sizes| && nextDraw' >= nextDraw + |sizes|
  {
    var batches, used := SplitBatches(c, mean, draws, nextDraw);
    var epochs := Epochs(u, nextU, |batches|);
    EpochsFit(u, nextU, |batches|);
    ExpandedFits(epochs, batches);
    BatchesOf(epochs, batches, m);
    hide Expanded, Epochs, Total, InBatches;
    block := Shifted(Expanded(epochs, batches), m);
    assert Edge(m + 1, MINUTE) == Edge(m, MINUTE) + MINUTE;
    nextU', nextDraw', sizes := nextU + |batches|, used, batches;
  }

  function Joined(blocks: seq<seq<real>>): seq<real> {
    if blocks == [] then [] else Joined(blocks[..|blocks| - 1]) + blocks[|blocks| - 1]
  }

  function Sizes(batches: seq<seq<nat>>): nat {
    if batches == [] then 0 else Sizes(batches[..|batches| - 1]) + |batches[|batches| - 1]|
  }

  /** A block of c arrivals in batches that follow some of the draws, at as many epochs of minute m as there are
      batches, drawn after those of the earlier batches. */
  ghost predicate Burst(c: nat, u: nat -> real, draws: nat -> nat, block: seq<real>, earlier: seq<seq<nat>>,
                        sizes: seq<nat>, m: nat) {
    && |block| == c && (exists d :: Batched(c, draws, d, sizes))
    && InBatches(block, m, sizes, Epochs(u, Sizes(earlier), |sizes|))
  }

  /** One block a minute. */
  ghost predicate Bursts(counts: seq<nat>, u: nat -> real, draws: nat -> nat, blocks: seq<seq<real>>,
                         batches: seq<seq<nat>>) {
    && |blocks| == |batches| == |counts|
    && forall m :: 0 <= m < |counts| ==> Burst(counts[m], u, draws, blocks[m], batches[..m], batches[m], m)
  }

  lemma {:induction false} BurstsMore(counts: seq<nat>, u: nat -> real, draws: nat -> nat, blocks: seq<seq<real>>,
                                      batches: seq<seq<nat>>, block: seq<real>, sizes: seq<nat>)
    requires |blocks| < |counts| && Bursts(counts[..|blocks|], u, draws, blocks, batches)
    requires Burst(counts[|blocks|], u, draws, block, batches, sizes, |blocks|)
    ensures Bursts(counts[..|blocks| + 1], u, draws, blocks + [block], batches + [sizes])
    ensures Joined(blocks + [block]) == Joined(blocks) + block && Sizes(batches + [sizes]) == Sizes(batches) + |sizes|
  {
    assert (blocks + [block])[..|blocks|] == blocks && (batches + [sizes])[..|batches|] == batches;
    hide Burst;
    forall m | 0 <= m < |blocks| + 1
      ensures Burst(counts[m], u, draws, (blocks + [block])[m], (batches + [sizes])[..m], (batches + [sizes])[m], m)
    {
      assert (batches + [sizes])[..m] == batches[..m];
      if m < |blocks| { assert counts[..|blocks|][m] == counts[m]; }
    }
  }

  lemma EmptyBurst(u: nat -> real, draws: nat -> nat, earlier: seq<seq<nat>>, m: nat)
    ensures Burst(0, u, draws, [], earlier, [], m)
  {
    assert Batched(0, draws, 0, []);
  }

  /** Whatever the draws: the arrivals are those of one burst a minute, in order, and the counts come back from a
      histogram. */
  method PlaceBursty(counts: seq<nat>, mean: real, u: nat -> real, draws: nat -> nat)
    returns (ts: seq<real>, ghost blocks: seq<seq<real>>, ghost batches: seq<seq<nat>>)
    requires mean > 0.0 && (forall i :: 0.0 <= u(i) < 1.0) && (forall i :: draws(i) >= 1)
    ensures Sorted(ts) && |ts| == Total(counts)
    ensures multiset(ts) == multiset(Joined(blocks)) && Bursts(counts, u, draws, blocks, batches)
    ensures counts != [] ==> BinCounts(ts, Edge(|counts|, MINUTE), MINUTE) == counts
  {
    hide BinCounts, Matches, WithinMinute, Sort, Burst, Bursts, Batched, InBatches, Epochs, Sizes, Total, Joined;
    var out := new real[Total(counts)];
    var pos: nat, nextU: nat, nextDraw: nat := 0, 0, 0;
    blocks, batches := [], [];
    assert counts[..|counts|] == counts;
    NothingYet(u, draws);
    assert out[..0] == [] && counts[..0] == [];
    for m := 0 to |counts|
      invariant pos == Total(counts[..m]) <= out.Length && nextU == Sizes(batches)
      invariant Matches(out[..pos], counts[..m])
      invariant |blocks| == |batches| == m && out[..pos] == Joined(blocks) && Bursts(counts[..m], u, draws, blocks, batches)
    {
      TotalGrows(counts, m);
      ghost var before := out[..pos];
      ghost var block, sizes := [], [];
      if counts[m] > 0 {
        var placed;
        placed, nextU, nextDraw, sizes := BurstyMinute(counts[m], m, mean, u, draws, nextU, nextDraw);
        Fill(out, pos, placed);
        block := placed;
        IsBurst(counts[m], u, draws, block, batches, sizes, m);
      } else {
        EmptyBurst(u, draws, batches, m);
        assert before + [] == before;
      }
      AnotherMinute(before, counts, m, block);
      BurstsMore(counts, u, draws, blocks, batches, block, sizes);
      blocks, batches := blocks + [block], batches + [sizes];
      pos := pos + counts[m];
    }
    ts := Sort(out[..pos]);
    if counts != [] { BinningRecovers(out[..pos], counts); }
  }

  lemma IsBurst(c: nat, u: nat -> real, draws: nat -> nat, block: seq<real>, earlier: seq<seq<nat>>, sizes: seq<nat>,
                m: nat)
    requires |block| == c && (exists d :: Batched(c, draws, d, sizes))
    requires InBatches(block, m, sizes, Epochs(u, Sizes(earlier), |sizes|))
    ensures Burst(c, u, draws, block, earlier, sizes, m)
  {}

  lemma NothingYet(u: nat -> real, draws: nat -> nat)
    ensures Matches([], []) && Bursts([], u, draws, [], []) && Joined([]) == [] && Sizes([]) == 0 && Total([]) == 0
  {}

  lemma AnotherMinute(ts: seq<real>, counts: seq<nat>, m: nat, block: seq<real>)
    requires m < |counts| && Matches(ts, counts[..m]) && |block| == counts[m]
    requires block == [] || WithinMinute(block, m)
    ensures Matches(ts + block, counts[..m + 1])
  {
    assert WithinMinute(block, m);
    hide Matches, WithinMinute;
    MatchMinute(ts, counts[..m], block);
    assert counts[..m + 1] == counts[..m] + [|block|];
  }

  lemma TotalGrows(counts: seq<nat>, m: nat)
    requires m < |counts|
    ensures Total(counts[..m + 1]) == Total(counts[..m]) + counts[m] <= Total(counts)
  {
    assert counts[..m + 1][..m] == counts[..m];
    TotalPrefix(counts, m + 1);
  }

  lemma {:induction false} TotalPrefix(counts: seq<nat>, m: nat)
    requires m <= |counts|
    ensures Total(counts[..m]) <= Total(counts)
  {
    if m < |counts| {
      TotalPrefix(counts[..|counts| - 1], m);
      assert counts[..|counts| - 1][..m] == counts[..m];
    } else {
      assert counts[..m] == counts;
    }
  }

  /** The offsets of minute m as times. */
  function Shifted(offsets: seq<real>, m: nat): (r: seq<real>)
    ensures |r| == |offsets| && forall i :: 0 <= i < |r| ==> r[i] == Edge(m, MINUTE) + offsets[i]
  {
    seq(|offsets|, i requires 0 <= i < |offsets| => Edge(m, MINUTE) + offsets[i])
  }

  /** Write a block into the buffer. */
  method Fill(out: array<real>, pos: nat, block: seq<real>)
    requires pos + |block| <= out.Length
    modifies out
    ensures out[..pos + |block|] == old(out[..pos]) + block
  {
    for i := 0 to |block|
      invariant out[..pos + i] == old(out[..pos]) + block[..i]
    {
      out[pos + i] := block[i];
    }
  }
}
