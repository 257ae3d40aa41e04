/** Scoring: which requests an interval decides, which of them violate their service level, and what that
    costs. */
module CostModel {
  import opened Requests

  /** Service-level targets. `hard` is the deadline for requests that have not finished. */
  datatype Slo = LlmSlo(ttft: real, tbt: real, hard: real) | ServiceSlo(latency: real, queueDelay: real, hard: real)

  datatype Reason = Ttft | Tbt | Latency | QueueDelay | PendingHard

  datatype WeightSettings = WeightSettings(slo: real, resource: real, churn: real)
  {
    predicate Valid() { slo >= 0.0 && resource >= 0.0 && churn >= 0.0 }
  }

  type Weights = w: WeightSettings | w.Valid() witness WeightSettings(0.0, 0.0, 0.0)

  // ---- one request ------------------------------------------------------------------------------------------

  function MeanTbt(r: Req): Option<real> { if r.nTbt == 0 then None else Some(r.sumTbt / (r.nTbt as real)) }

  /** Why a finished request violates its targets, if it does. */
  function ViolatesCompleted(slo: Slo, r: Req): Option<Reason> {
    match slo
    case LlmSlo(ttft, tbt, _) =>
      if r.tFirst.Some? && r.tFirst.value - r.tArrival > ttft then Some(Ttft)
      else if MeanTbt(r).Some? && MeanTbt(r).value > tbt then Some(Tbt)
      else None
    case ServiceSlo(latency, queueDelay, _) =>
      if r.tDone.Some? && r.tDone.value - r.tArrival > latency then Some(Latency)
      else if r.tAdmit.Some? && r.tAdmit.value - r.tArrival > queueDelay then Some(QueueDelay)
      else None
  }

  /** A request still in the system at t has missed its hard deadline. */
  predicate ViolatesPending(slo: Slo, r: Req, t: real) {
    && r.tArrival <= t
    && (slo.LlmSlo? ==> r.tFirst.None?)
    && t - r.tArrival > slo.hard
  }

  /** What the window (tPrev, tNow] decides about a request: nothing, or whether and why it violates. */
  function Outcome(slo: Slo, r: Req, tPrev: real, tNow: real, scored: set<int>, pending: bool): Option<Option<Reason>> {
    if r.seqNo in scored then None
    else if r.tDone.Some? then
      if tPrev < r.tDone.value <= tNow then Some(ViolatesCompleted(slo, r)) else None
    else if pending && ViolatesPending(slo, r, tNow) then Some(Some(PendingHard))
    else None
  }

  // ---- one window ---------------------------------------------------------------------------------------------

  datatype Window = Window(tPrev: real, tNow: real, scored: set<int>, pending: bool)

  predicate Decides(slo: Slo, w: Window, r: Req) { Outcome(slo, r, w.tPrev, w.tNow, w.scored, w.pending).Some? }

  predicate Violates(slo: Slo, w: Window, r: Req) {
    Decides(slo, w, r) && Outcome(slo, r, w.tPrev, w.tNow, w.scored, w.pending).value.Some?
  }

  predicate ViolatesFor(slo: Slo, w: Window, r: Req, why: Reason) {
    Outcome(slo, r, w.tPrev, w.tNow, w.scored, w.pending) == Some(Some(why))
  }

  /** Number of requests that satisfy f. */
  function Tally(f: Req -> bool, rs: seq<Req>): nat {
    if rs == [] then 0 else Tally(f, rs[..|rs| - 1]) + (if f(rs[|rs| - 1]) then 1 else 0)
  }

  /** Sequence numbers of the requests that satisfy f, in order. */
  function Select(f: Req -> bool, rs: seq<Req>): seq<int> {
    if rs == [] then []
    else Select(f, rs[..|rs| - 1]) + (if f(rs[|rs| - 1]) then [rs[|rs| - 1].seqNo] else [])
  }

  function Newly(slo: Slo, w: Window, rs: seq<Req>): seq<int> { Select(r => Decides(slo, w, r), rs) }

  function Violations(slo: Slo, w: Window, rs: seq<Req>): nat { Tally(r => Violates(slo, w, r), rs) }

  function ReasonCount(slo: Slo, w: Window, rs: seq<Req>, why: Reason): nat {
    Tally(r => ViolatesFor(slo, w, r, why), rs)
  }

  predicate Unfinished(scored: set<int>, r: Req) { !r.Done() && r.seqNo !in scored }

  /** Requests that never completed and were never scored. */
  function CountUnfinished(rs: seq<Req>, scored: set<int>): nat { Tally(r => Unfinished(scored, r), rs) }

  function Count(reasons: map<Reason, nat>, why: Reason): nat { if why in reasons then reasons[why] else 0 }

  /** Score one window. */
  method ScoreWindow(slo: Slo, requests: seq<Req>, tPrev: real, tNow: real, scored: set<int>, scorePending: bool)
    returns (nViol: nat, newly: seq<int>, reasons: map<Reason, nat>)
    ensures var w := Window(tPrev, tNow, scored, scorePending);
            && nViol == Violations(slo, w, requests) && newly == Newly(slo, w, requests)
            && forall why :: Count(reasons, why) == ReasonCount(slo, w, requests, why)
  {
    ghost var w := Window(tPrev, tNow, scored, scorePending);
    nViol, newly, reasons := 0, [], map[];
    for i := 0 to |requests|
      invariant nViol == Violations(slo, w, requests[..i])
      invariant newly == Newly(slo, w, requests[..i])
      invariant forall why :: Count(reasons, why) == ReasonCount(slo, w, requests[..i], why)
    {
      var r := requests[i];
      assert requests[..i + 1][..i] == requests[..i] && requests[..i + 1][i] == r;
      if r.seqNo in scored {
      } else if r.tDone.Some? && tPrev < r.tDone.value <= tNow {
        var why := ViolatesCompleted(slo, r);
        newly := newly + [r.seqNo];
        if why.Some? {
          nViol := nViol + 1;
          reasons := reasons[why.value := Count(reasons, why.value) + 1];
        }
      } else if r.tDone.None? && scorePending && ViolatesPending(slo, r, tNow) {
        newly := newly + [r.seqNo];
        nViol := nViol + 1;
        reasons := reasons[PendingHard := Count(reasons, PendingHard) + 1];
      }
    }
    assert requests[..|requests|] == requests;
  }

  // ---- the decomposition ----------------------------------------------------------------------------------------

  datatype Costs = Costs(slo: real, resource: real, churn: real, sloDrain: real, resourceDrain: real,
                         sloUnfinished: real, total: real)

  const NO_COSTS: Costs := Costs(0.0, 0.0, 0.0, 0.0, 0.0, 0.0, 0.0)

  function Decompose(w: Weights, violations: nat, replicaSeconds: real, churn: nat, violationsDrain: nat,
                     replicaSecondsDrain: real, unfinished: nat): Costs {
    var a, b, c := w.slo * (violations as real), w.resource * replicaSeconds, w.churn * (churn as real);
    var d, e, f := w.slo * (violationsDrain as real), w.resource * replicaSecondsDrain, w.slo * (unfinished as real);
    Costs(a, b, c, d, e, f, a + b + c + d + e + f)
  }

  function AddCosts(a: Costs, b: Costs): Costs {
    Costs(a.slo + b.slo, a.resource + b.resource, a.churn + b.churn, a.sloDrain + b.sloDrain,
          a.resourceDrain + b.resourceDrain, a.sloUnfinished + b.sloUnfinished, a.total + b.total)
  }

  // ---- tallies ------------------------------------------------------------------------------------------------------

  /** Pointwise accounting: h counts what f counts plus what g counts. */
  lemma {:induction false} TallySplit(f: Req -> bool, g: Req -> bool, h: Req -> bool, a: seq<Req>, b: seq<Req>)
    requires |a| == |b|
    requires forall i :: 0 <= i < |a| ==> !(f(a[i]) && g(b[i])) && (h(b[i]) <==> f(a[i]) || g(b[i]))
    ensures Tally(h, b) == Tally(f, a) + Tally(g, b)
  {
    if a != [] { TallySplit(f, g, h, a[..|a| - 1], b[..|b| - 1]); }
  }

  lemma {:induction false} SelectMembers(f: Req -> bool, rs: seq<Req>)
    ensures forall n :: n in Select(f, rs) <==> exists i :: 0 <= i < |rs| && f(rs[i]) && rs[i].seqNo == n
    ensures |Select(f, rs)| == Tally(f, rs)
  {
    if rs != [] {
      var k := |rs| - 1;
      SelectMembers(f, rs[..k]);
      forall n ensures n in Select(f, rs) <==> exists i :: 0 <= i < |rs| && f(rs[i]) && rs[i].seqNo == n {
        if n in Select(f, rs[..k]) {
          var i :| 0 <= i < k && f(rs[..k][i]) && rs[..k][i].seqNo == n;
          assert f(rs[i]);
        }
        if i :| 0 <= i < |rs| && f(rs[i]) && rs[i].seqNo == n {
          if i < k { assert f(rs[..k][i]) && rs[..k][i].seqNo == n; }
        }
      }
    }
  }

}
