/** Requests, service clocks and the per-replica state shared by every service model. */
module Requests {

  /** The event loop's tolerance, in seconds. */
  const EPS: real := 0.000000001

  datatype Option<+T> = None | Some(value: T)

  /** A service clock: the wall time of the next event, or infinity. */
  datatype Clock = At(t: real) | Never

  /** c is due at t when it lies at most EPS in the future. */
  predicate Due(c: Clock, t: real) { c.At? && c.t <= t + EPS }

  function MinClock(a: Clock, b: Clock): Clock {
    if a.Never? then b else if b.Never? then a else if b.t < a.t then b else a
  }

  /** The next representable instant after t. `gap` stands for the spacing of the clock's number format;
      any function will do, and the result is always in the strict future. */
  function NextAfter(gap: real -> real, t: real): (later: real)
    ensures later > t
  {
    t + (if gap(t) > 0.0 then gap(t) else 1.0)
  }

  /** The value of one request. The first four fields are written once by the workload source,
      the rest are its runtime state. */
  datatype Req = Req(
    seqNo: int, tArrival: real, demand: real, size: real,
    tAdmit: Option<real>, tFirst: Option<real>, tDone: Option<real>, progress: real,
    nPreempt: nat, maxTbt: real, sumTbt: real, nTbt: nat, tLast: Option<real>)
  {
    predicate Done() { tDone.Some? }
  }

  /** The descriptor of a request: what the workload source handed out. */
  function Desc(r: Req): Req {
    Req(r.seqNo, r.tArrival, r.demand, r.size, None, None, None, 0.0, 0, 0.0, 0.0, 0, None)
  }

  predicate Fresh(r: Req) { Desc(r) == r }

  /** The order in which the event loop dispatches requests. */
  predicate Before(a: Req, b: Req) {
    a.tArrival < b.tArrival || (a.tArrival == b.tArrival && a.seqNo < b.seqNo)
  }

  ghost predicate Increasing(rs: seq<Req>) {
    forall i, j :: 0 <= i < j < |rs| ==> Before(rs[i], rs[j])
  }

  /** Record one increment of visible output at time t. */
  function MarkOutput(r: Req, t: real): Req {
    if r.tFirst.None? then r.(tFirst := Some(t), tLast := Some(t))
    else
      var gap := t - (if r.tLast.Some? then r.tLast.value else t);
      r.(maxTbt := if gap > r.maxTbt then gap else r.maxTbt, sumTbt := r.sumTbt + gap,
         nTbt := r.nTbt + 1, tLast := Some(t))
  }

  /** Output after the first adds the time since the last to the sum, counts it, and keeps the larger gap. */
  lemma OutputGap(r: Req, t: real)
    requires r.tFirst.Some? && r.tLast.Some?
    ensures var s, gap := MarkOutput(r, t), t - r.tLast.value;
            && s.sumTbt == r.sumTbt + gap && s.nTbt == r.nTbt + 1 && s.tLast == Some(t) && s.tFirst == r.tFirst
            && s.maxTbt >= gap && s.maxTbt >= r.maxTbt && (s.maxTbt == gap || s.maxTbt == r.maxTbt)
  {}

  /** Stamp the first admission time. */
  function Admit(r: Req, t: real): Req { if r.tAdmit.None? then r.(tAdmit := Some(t)) else r }

  /** The state of one replica's engine. `running` and `slot` are the batch and the waiting queue;
      `fin` lists the requests that completed here, which the program reaches through the trace. */
  datatype Engine = Engine(
    running: seq<Req>, slot: seq<Req>, accepting: bool, next: Clock,
    nPreempt: nat, nSuccess: nat, work: real, lastT: Option<real>, fin: seq<Req>)
  {
    predicate HasWork() { running != [] || slot != [] }
    /** Requests in dispatch order: the batch, then the queue. */
    function Line(): seq<Req> { running + slot }
    /** Everything ever dispatched to this replica. */
    function Held(): seq<Req> { fin + running + slot }
    predicate Has(r: Req) { r in fin || r in running || r in slot }
  }

  const NewEngine: Engine := Engine([], [], true, Never, 0, 0, 0.0, None, [])

  function PushBack(e: Engine, r: Req): Engine { e.(slot := e.slot + [r]) }

  // ---- sequences of requests ---------------------------------------------------------------

  function Descs(rs: seq<Req>): (ds: seq<Req>)
    ensures |ds| == |rs| && forall i :: 0 <= i < |rs| ==> ds[i] == Desc(rs[i])
  {
    seq(|rs|, i requires 0 <= i < |rs| => Desc(rs[i]))
  }

  lemma DescsAppend(a: seq<Req>, b: seq<Req>)
    ensures Descs(a + b) == Descs(a) + Descs(b)
  {}

  /** Two lists with the same descriptors dispatch in the same order. */
  lemma IncreasingDescs(a: seq<Req>, b: seq<Req>)
    requires Descs(a) == Descs(b) && Increasing(a)
    ensures Increasing(b)
  {
    forall i, j | 0 <= i < j < |b| ensures Before(b[i], b[j]) {
      assert Desc(a[i]) == Descs(a)[i] == Descs(b)[i] == Desc(b[i]);
      assert Desc(a[j]) == Descs(a)[j] == Descs(b)[j] == Desc(b[j]);
      assert Before(a[i], a[j]);
    }
  }

  function Pending(rs: seq<Req>): (out: seq<Req>)
    ensures forall r :: r in out <==> r in rs && !r.Done()
    ensures |out| <= |rs|
  {
    if rs == [] then [] else if rs[0].Done() then Pending(rs[1..]) else [rs[0]] + Pending(rs[1..])
  }

  function Completed(rs: seq<Req>): (out: seq<Req>)
    ensures forall r :: r in out <==> r in rs && r.Done()
  {
    if rs == [] then [] else if rs[0].Done() then [rs[0]] + Completed(rs[1..]) else Completed(rs[1..])
  }

  lemma PendingIncreasing(rs: seq<Req>, tail: seq<Req>)
    requires Increasing(rs + tail)
    ensures Increasing(Pending(rs) + tail)
  {
    if rs != [] {
      var s := rs + tail;
      assert s[1..] == rs[1..] + tail;
      assert Increasing(rs[1..] + tail) by {
        forall i, j | 0 <= i < j < |s[1..]| ensures Before(s[1..][i], s[1..][j]) {
          assert Before(s[i + 1], s[j + 1]);
        }
      }
      PendingIncreasing(rs[1..], tail);
      if !rs[0].Done() {
        var out := Pending(rs[1..]) + tail;
        forall x | x in out ensures Before(rs[0], x) {
          assert x in s[1..];
          var k :| 0 <= k < |s[1..]| && s[1..][k] == x;
          assert Before(s[0], s[k + 1]);
        }
        assert Pending(rs) + tail == [rs[0]] + out;
      }
    }
  }

  lemma SplitDescs(rs: seq<Req>)
    ensures multiset(Descs(Completed(rs))) + multiset(Descs(Pending(rs))) == multiset(Descs(rs))
  {
    if rs != [] {
      SplitDescs(rs[1..]);
      assert rs == [rs[0]] + rs[1..];
      DescsAppend([rs[0]], rs[1..]);
      DescsAppend([rs[0]], Completed(rs[1..]));
      DescsAppend([rs[0]], Pending(rs[1..]));
    }
  }

  function Progress(r: Req): real { r.progress }

  // ---- sums over requests -------------------------------------------------------------------

  function Sum(f: Req -> real, rs: seq<Req>): real {
    if rs == [] then 0.0 else f(rs[0]) + Sum(f, rs[1..])
  }

  function Count(f: Req -> nat, rs: seq<Req>): nat {
    if rs == [] then 0 else f(rs[0]) + Count(f, rs[1..])
  }

  lemma SumAppend(f: Req -> real, a: seq<Req>, b: seq<Req>)
    ensures Sum(f, a + b) == Sum(f, a) + Sum(f, b)
  {
    if a == [] {
      assert a + b == b;
    } else {
      assert (a + b)[1..] == a[1..] + b;
      SumAppend(f, a[1..], b);
    }
  }

  lemma CountAppend(f: Req -> nat, a: seq<Req>, b: seq<Req>)
    ensures Count(f, a + b) == Count(f, a) + Count(f, b)
  {
    if a == [] {
      assert a + b == b;
    } else {
      assert (a + b)[1..] == a[1..] + b;
      CountAppend(f, a[1..], b);
    }
  }

  /** Replacing one element by one of equal weight. */
  lemma SumSwap(f: Req -> real, a: seq<Req>, x: Req, y: Req, b: seq<Req>)
    requires f(x) == f(y)
    ensures Sum(f, a + [x] + b) == Sum(f, a + [y] + b)
  {
    SumAppend(f, a + [x], b);
    SumAppend(f, a + [y], b);
    SumAppend(f, a, [x]);
    SumAppend(f, a, [y]);
  }

  lemma SumSplit(f: Req -> real, rs: seq<Req>)
    ensures Sum(f, Completed(rs)) + Sum(f, Pending(rs)) == Sum(f, rs)
  {
    if rs != [] {
      SumSplit(f, rs[1..]);
      SumAppend(f, [rs[0]], Completed(rs[1..]));
      SumAppend(f, [rs[0]], Pending(rs[1..]));
    }
  }

  lemma CountSplit(f: Req -> nat, rs: seq<Req>)
    ensures Count(f, Completed(rs)) + Count(f, Pending(rs)) == Count(f, rs)
  {
    if rs != [] {
      CountSplit(f, rs[1..]);
      CountAppend(f, [rs[0]], Completed(rs[1..]));
      CountAppend(f, [rs[0]], Pending(rs[1..]));
    }
  }

  function Times(d: real, n: nat): real { d * (n as real) }

  lemma TimesSucc(d: real, n: nat)
    ensures Times(d, n + 1) == Times(d, n) + d
  {
    assert (n + 1) as real == n as real + 1.0;
  }

  /** Pointwise change of a sum: g(b[i]) == f(a[i]) + d everywhere. */
  lemma {:induction false} SumShift(f: Req -> real, a: seq<Req>, b: seq<Req>, d: real)
    requires |a| == |b| && forall i :: 0 <= i < |a| ==> f(b[i]) == f(a[i]) + d
    ensures Sum(f, b) == Sum(f, a) + Times(d, |a|)
  {
    if a != [] {
      SumShift(f, a[1..], b[1..], d);
      TimesSucc(d, |a| - 1);
    }
  }

  // ---- facts every engine keeps ---------------------------------------------------------------

  /** First admissions follow dispatch order. */
  ghost predicate AdmitMonotone(e: Engine) {
    forall a, b :: e.Has(a) && e.Has(b) && Before(a, b) && b.tAdmit.Some? ==>
      a.tAdmit.Some? && a.tAdmit.value <= b.tAdmit.value
  }

  /** Completions and admissions are stamped at or before `now`; only completed requests are done. */
  ghost predicate Stamped(e: Engine, now: real) {
    && (forall r :: r in e.fin ==> r.tDone.Some? && r.tDone.value <= now)
    && (forall r :: r in e.running ==> !r.Done())
    && (forall r :: r in e.slot ==> !r.Done())
    && (forall r :: e.Has(r) && r.tAdmit.Some? ==> r.tAdmit.value <= now)
    && (forall r :: r in e.fin ==> r.tAdmit.Some?)
    && (forall r :: r in e.running ==> r.tAdmit.Some?)
  }

  /** A batch in service has its next event strictly in the future. */
  ghost predicate ClockAhead(e: Engine, now: real) {
    e.running != [] ==> e.next.At? && e.next.t > now
  }

  // ---- retiring the finished part of a batch ----------------------------------------------------

  lemma HeadFirst(e: Engine, a: Req)
    requires e.slot != [] && Increasing(e.Line()) && a in e.slot[1..]
    ensures Before(e.slot[0], a)
  {
    var k :| 0 <= k < |e.slot[1..]| && e.slot[1..][k] == a;
    assert Before(e.Line()[|e.running|], e.Line()[|e.running| + 1 + k]);
  }

  /** e' is e after its batch was rewritten to `stepped` and the finished requests left it. */
  ghost predicate Retires(e: Engine, e': Engine, stepped: seq<Req>) {
    && Descs(stepped) == Descs(e.running)
    && (forall i :: 0 <= i < |stepped| ==> stepped[i].tAdmit == e.running[i].tAdmit)
    && e'.running == Pending(stepped) && e'.fin == e.fin + Completed(stepped) && e'.slot == e.slot
  }

  lemma HeldDescs(e: Engine)
    ensures multiset(Descs(e.Held())) ==
            multiset(Descs(e.fin)) + multiset(Descs(e.running)) + multiset(Descs(e.slot))
  {
    DescsAppend(e.fin, e.running);
    DescsAppend(e.fin + e.running, e.slot);
  }

  /** Cutting the line differently forgets nobody. */
  lemma RecutConserves(e: Engine, e': Engine)
    requires e'.fin == e.fin && Descs(e'.Line()) == Descs(e.Line())
    ensures multiset(Descs(e'.Held())) == multiset(Descs(e.Held()))
  {
    assert e.Held() == e.fin + e.Line() && e'.Held() == e'.fin + e'.Line();
    DescsAppend(e.fin, e.Line());
    DescsAppend(e'.fin, e'.Line());
  }

  lemma RetireConserves(e: Engine, e': Engine, stepped: seq<Req>)
    requires Retires(e, e', stepped)
    ensures multiset(Descs(e'.Held())) == multiset(Descs(e.Held()))
  {
    HeldDescs(e);
    HeldDescs(e');
    SplitDescs(stepped);
    DescsAppend(e.fin, Completed(stepped));
  }

  lemma RetireOrdered(e: Engine, e': Engine, stepped: seq<Req>)
    requires Retires(e, e', stepped) && Increasing(e.Line()) && AdmitMonotone(e)
    ensures Increasing(e'.Line()) && AdmitMonotone(e')
  {
    DescsAppend(e.running, e.slot);
    DescsAppend(stepped, e.slot);
    IncreasingDescs(e.Line(), stepped + e.slot);
    PendingIncreasing(stepped, e.slot);
    forall a, b | e'.Has(a) && e'.Has(b) && Before(a, b) && b.tAdmit.Some?
      ensures a.tAdmit.Some? && a.tAdmit.value <= b.tAdmit.value
    {
      var a0 := RetireSource(e, e', stepped, a);
      var b0 := RetireSource(e, e', stepped, b);
      assert Before(a0, b0);
    }
  }

  /** What the request x was before its batch was stepped. */
  lemma RetireSource(e: Engine, e': Engine, stepped: seq<Req>, x: Req) returns (x0: Req)
    requires Retires(e, e', stepped) && e'.Has(x)
    ensures e.Has(x0) && Desc(x0) == Desc(x) && x0.tAdmit == x.tAdmit
    ensures x0 == x || (x in stepped && x0 in e.running)
  {
    if x in stepped {
      var i :| 0 <= i < |stepped| && stepped[i] == x;
      x0 := e.running[i];
      assert Descs(stepped)[i] == Descs(e.running)[i];
    } else {
      x0 := x;
    }
  }

  lemma RetireSum(f: Req -> real, e: Engine, e': Engine, stepped: seq<Req>)
    requires Retires(e, e', stepped)
    ensures Sum(f, e'.Held()) - Sum(f, e.Held()) == Sum(f, stepped) - Sum(f, e.running)
  {
    SumHeld(f, e);
    SumHeld(f, e');
    SumAppend(f, e.fin, Completed(stepped));
    SumSplit(f, stepped);
  }

  lemma SumHeldLine(f: Req -> real, e: Engine)
    ensures Sum(f, e.Held()) == Sum(f, e.fin) + Sum(f, e.Line())
  {
    assert e.Held() == e.fin + e.Line();
    SumAppend(f, e.fin, e.Line());
  }

  lemma SumHeld(f: Req -> real, e: Engine)
    ensures Sum(f, e.Held()) == Sum(f, e.fin) + Sum(f, e.running) + Sum(f, e.slot)
  {
    SumAppend(f, e.fin, e.running);
    SumAppend(f, e.fin + e.running, e.slot);
  }

  // ---- promoting the queue head into the batch ----------------------------------------------------

  /** e' is e after the queue head entered the batch at t as h. */
  ghost predicate Promotes(e: Engine, e': Engine, h: Req, t: real) {
    && e.slot != [] && e'.slot == e.slot[1..] && e'.fin == e.fin && e'.running == e.running + [h]
    && Desc(h) == Desc(e.slot[0]) && h.tAdmit == Admit(e.slot[0], t).tAdmit && h.tDone == e.slot[0].tDone
    && h.progress == e.slot[0].progress
  }

  lemma PromoteLine(e: Engine, e': Engine, h: Req, t: real)
    requires Promotes(e, e', h, t)
    ensures e.Line() == e.running + [e.slot[0]] + e.slot[1..]
    ensures e'.Line() == e.running + [h] + e.slot[1..]
    ensures Descs(e'.Line()) == Descs(e.Line())
  {
    assert e.slot == [e.slot[0]] + e.slot[1..];
  }

  /** Stamping the head keeps admissions in dispatch order: nobody behind it was ever admitted. */
  lemma PromoteOrdered(e: Engine, e': Engine, h: Req, t: real)
    requires Promotes(e, e', h, t) && Increasing(e.Line()) && AdmitMonotone(e) && Stamped(e, t)
    ensures Increasing(e'.Line()) && AdmitMonotone(e') && Stamped(e', t)
  {
    PromoteLine(e, e', h, t);
    IncreasingDescs(e.Line(), e'.Line());
    forall x | e'.Has(x) ensures e.Has(x) || x == h {}
    assert e.Has(e.slot[0]);
    forall a, b | e'.Has(a) && e'.Has(b) && Before(a, b) && b.tAdmit.Some?
      ensures a.tAdmit.Some? && a.tAdmit.value <= b.tAdmit.value
    {
      PromotePair(e, e', h, t, a, b);
    }
    forall r | e'.Has(r) && r.tAdmit.Some? ensures r.tAdmit.value <= t {
      if r != h { assert e.Has(r); }
    }
  }

  lemma PromotePair(e: Engine, e': Engine, h: Req, t: real, a: Req, b: Req)
    requires Promotes(e, e', h, t) && Increasing(e.Line()) && AdmitMonotone(e) && Stamped(e, t)
    requires e'.Has(a) && e'.Has(b) && Before(a, b) && b.tAdmit.Some?
    ensures a.tAdmit.Some? && a.tAdmit.value <= b.tAdmit.value
  {
    var h0 := e.slot[0];
    assert e.Has(h0);
    if b == h && a != h {
      assert e.Has(a) && Before(a, h0);
      if a in e.slot[1..] { HeadFirst(e, a); }
    } else if a == h && b != h {
      assert e.Has(b) && Before(h0, b);
    } else {
      assert a != h ==> e.Has(a);
      assert b != h ==> e.Has(b);
    }
  }

  lemma PromoteSum(e: Engine, e': Engine, h: Req, t: real)
    requires Promotes(e, e', h, t)
    ensures Sum(Progress, e'.Line()) == Sum(Progress, e.Line())
  {
    PromoteLine(e, e', h, t);
    SumSwap(Progress, e.running, e.slot[0], h, e.slot[1..]);
  }
}
