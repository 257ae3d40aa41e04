/** The two replica engines as objects that update their batch, their queue and the requests in place. */
module EngineObjects {
  import opened Requests
  import L = LlmServing
  import opened Numbers
  import R = RequestService

  /** A request: four descriptive fields, the rest written by the engine that holds it. */
  class Request {
    const seqNo: int
    const tArrival: real
    const demand: real
    const size: real
    var tAdmit: Option<real>
    var tFirst: Option<real>
    var tDone: Option<real>
    var progress: real
    var nPreempt: nat
    var maxTbt: real
    var sumTbt: real
    var nTbt: nat
    var tLast: Option<real>

    constructor (seqNo: int, tArrival: real, demand: real, size: real)
      ensures V() == Req(seqNo, tArrival, demand, size, None, None, None, 0.0, 0, 0.0, 0.0, 0, None)
    {
      this.seqNo, this.tArrival, this.demand, this.size := seqNo, tArrival, demand, size;
      tAdmit, tFirst, tDone, progress := None, None, None, 0.0;
      nPreempt, maxTbt, sumTbt, nTbt, tLast := 0, 0.0, 0.0, 0, None;
    }

    function V(): Req
      reads this
    {
      Req(seqNo, tArrival, demand, size, tAdmit, tFirst, tDone, progress, nPreempt, maxTbt, sumTbt, nTbt, tLast)
    }

    /** Record one increment of visible output. */
    method Output(t: real)
      modifies this
      ensures V() == MarkOutput(old(V()), t)
    {
      if tFirst.None? {
        tFirst, tLast := Some(t), Some(t);
      } else {
        var gap := t - (if tLast.Some? then tLast.value else t);
        if gap > maxTbt { maxTbt := gap; }
        sumTbt, nTbt, tLast := sumTbt + gap, nTbt + 1, Some(t);
      }
    }

    method StampAdmission(t: real)
      modifies this
      ensures V() == Admit(old(V()), t)
    {
      if tAdmit.None? { tAdmit := Some(t); }
    }

    method CountPreemption()
      modifies this
      ensures V() == old(V()).(nPreempt := old(nPreempt) + 1)
    {
      nPreempt := nPreempt + 1;
    }

    /** One decoded token. */
    method Token(t: real)
      modifies this
      ensures V() == L.Token(old(V()), t)
    {
      Output(t);
      progress := progress + 1.0;
      if progress >= demand { tDone := Some(t); }
    }

    /** Service starts: the first visible output. */
    method Begin(t: real)
      modifies this
      ensures V() == R.Begin(old(V()), t)
    {
      StampAdmission(t);
      Output(t);
    }

    /** Service received between two events. */
    method Deliver(d: real, t: real)
      modifies this
      ensures V() == R.Deliver(old(V()), d, t)
    {
      progress := progress + d;
      if progress >= demand - R.Tol(V()) { tDone := Some(t); }
    }
  }

  // ---- sequences of requests --------------------------------------------------------------------------------------

  function Views(rs: seq<Request>): (out: seq<Req>)
    reads rs
    ensures |out| == |rs| && forall i :: 0 <= i < |rs| ==> out[i] == rs[i].V()
  {
    seq(|rs|, i requires 0 <= i < |rs| reads rs => rs[i].V())
  }

  ghost predicate Distinct(rs: seq<Request>) { forall i, j :: 0 <= i < j < |rs| ==> rs[i] != rs[j] }

  lemma {:induction false} PendingJoin(a: seq<Req>, b: seq<Req>)
    ensures Pending(a + b) == Pending(a) + Pending(b)
  {
    if a == [] { assert a + b == b; } else {
      assert (a + b)[1..] == a[1..] + b;
      PendingJoin(a[1..], b);
      assert Pending(a + b) == (if a[0].Done() then [] else [a[0]]) + Pending(a[1..] + b);
    }
  }

  lemma {:induction false} CompletedJoin(a: seq<Req>, b: seq<Req>)
    ensures Completed(a + b) == Completed(a) + Completed(b)
  {
    if a == [] { assert a + b == b; } else {
      assert (a + b)[1..] == a[1..] + b;
      CompletedJoin(a[1..], b);
      assert Completed(a + b) == (if a[0].Done() then [a[0]] else []) + Completed(a[1..] + b);
    }
  }

  lemma PendingLast(rs: seq<Req>, r: Req)
    ensures Pending(rs + [r]) == Pending(rs) + (if r.Done() then [] else [r])
    ensures Completed(rs + [r]) == Completed(rs) + (if r.Done() then [r] else [])
  {
    PendingJoin(rs, [r]);
    CompletedJoin(rs, [r]);
    assert [r][1..] == [];
  }

  lemma ViewsAppend(rs: seq<Request>, r: Request)
    ensures Views(rs + [r]) == Views(rs) + [r.V()]
  {}

  lemma PrependViews(r: Request, rs: seq<Request>)
    ensures Views([r] + rs) == [r.V()] + Views(rs)
  {}

  lemma PrefixViews(rs: seq<Request>, n: nat)
    requires n < |rs|
    ensures Views(rs[..n]) == Views(rs)[..n] && Views(rs)[n] == rs[n].V()
  {}

  /** The unfinished, or the finished, requests of a batch. */
  function Those(rs: seq<Request>, finished: bool): seq<Request>
    reads rs
  {
    if rs == [] then []
    else
      var n := |rs| - 1;
      Those(rs[..n], finished) + (if rs[n].tDone.Some? == finished then [rs[n]] else [])
  }

  lemma {:induction false} ThoseViews(rs: seq<Request>)
    ensures Views(Those(rs, false)) == Pending(Views(rs)) && Views(Those(rs, true)) == Completed(Views(rs))
  {
    if rs != [] {
      var n := |rs| - 1;
      ThoseViews(rs[..n]);
      hide Views;
      assert rs == rs[..n] + [rs[n]];
      ViewsAppend(rs[..n], rs[n]);
      PendingLast(Views(rs[..n]), rs[n].V());
      ViewsAppend(Those(rs[..n], rs[n].tDone.Some?), rs[n]);
    }
  }

  lemma {:induction false} ThoseSplit(rs: seq<Request>)
    ensures multiset(Those(rs, false)) + multiset(Those(rs, true)) == multiset(rs)
  {
    if rs != [] {
      var n := |rs| - 1;
      ThoseSplit(rs[..n]);
      ThoseLast(rs);
      hide Those;
      assert rs == rs[..n] + [rs[n]];
      assert multiset(rs) == multiset(rs[..n]) + multiset{rs[n]};
    }
  }

  lemma ThoseLast(rs: seq<Request>)
    requires rs != []
    ensures var n := |rs| - 1;
            var (a, b) := if rs[n].tDone.Some? then (multiset{}, multiset{rs[n]}) else (multiset{rs[n]}, multiset{});
            && multiset(Those(rs, false)) == multiset(Those(rs[..n], false)) + a
            && multiset(Those(rs, true)) == multiset(Those(rs[..n], true)) + b
  {}

  /** Take the finished requests out of a batch. */
  method Partition(rs: seq<Request>) returns (left: seq<Request>, finished: seq<Request>)
    ensures left == Those(rs, false) && finished == Those(rs, true)
  {
    left, finished := [], [];
    for i := 0 to |rs|
      invariant left == Those(rs[..i], false) && finished == Those(rs[..i], true)
    {
      assert rs[..i + 1][..i] == rs[..i];
      if rs[i].tDone.Some? { finished := finished + [rs[i]]; } else { left := left + [rs[i]]; }
    }
    assert rs[..|rs|] == rs;
  }

  lemma {:induction false} DistinctMultiset(a: seq<Request>, b: seq<Request>)
    requires Distinct(a) && multiset(a) == multiset(b)
    ensures Distinct(b)
  {
    forall i, j | 0 <= i < j < |b| ensures b[i] != b[j] {
      if b[i] == b[j] { Twice(b, i, j); Once(a, b[i]); }
    }
  }

  lemma Twice(b: seq<Request>, i: nat, j: nat)
    requires i < j < |b| && b[i] == b[j]
    ensures multiset(b)[b[i]] >= 2
  {
    assert b == b[..i] + [b[i]] + b[i + 1..j] + [b[j]] + b[j + 1..];
  }

  lemma {:induction false} Once(a: seq<Request>, r: Request)
    requires Distinct(a)
    ensures multiset(a)[r] <= 1
  {
    if a != [] {
      assert a == a[..|a| - 1] + [a[|a| - 1]];
      Once(a[..|a| - 1], r);
      if r == a[|a| - 1] { assert r !in a[..|a| - 1]; }
    }
  }

  // ---- continuous batching -----------------------------------------------------------------------------------------

  class LlmReplicaEngine {
    const p: L.LlmModel
    var running: seq<Request>
    var slot: seq<Request>
    var accepting: bool
    var next: Clock
    var nPreempt: nat
    var nSuccess: nat
    var work: real
    /** Requests that completed here; the program keeps them in the trace. */
    ghost var fin: seq<Request>

    constructor (p: L.LlmModel)
      ensures Valid() && View() == NewEngine && this.p == p
    {
      this.p := p;
      running, slot, fin := [], [], [];
      accepting, next, nPreempt, nSuccess, work := true, Never, 0, 0, 0.0;
    }

    /** No request is held twice. */
    ghost predicate Valid()
      reads this
    {
      Distinct(running + slot + fin)
    }

    ghost function View(): Engine
      reads this, running, slot, fin
    {
      Engine(Views(running), Views(slot), accepting, next, nPreempt, nSuccess, work, None, Views(fin))
    }

    function KvUsed(): real
      reads this, running
    {
      Sum(L.Footprint, Views(running))
    }

    predicate CanAdmit(r: Request)
      reads this, running, r
    {
      accepting && |running| < p.maxSeqs && KvUsed() + r.size + r.progress <= p.kvBudget
    }

    /** Move the queue head into the batch. */
    method AdmitHead(t: real)
      requires Valid() && slot != []
      modifies this`running, this`slot, slot[0]
      ensures Valid() && fin == old(fin) && running + slot == old(running + slot) && slot == old(slot)[1..]
      ensures View() == L.AdmitHead(old(View()), t)
    {
      hide Admit;
      var r := slot[0];
      assert (running + slot + fin)[|running|] == r;
      NotTwice(running, slot, fin);
      slot := slot[1..];
      r.StampAdmission(t);
      running := running + [r];
      assert running + slot == old(running + slot);
    }

    /** Admit as many waiting sequences as the budget allows. */
    method TryAdmit(t: real) returns (spent: real)
      requires Valid()
      modifies this`running, this`slot, slot
      ensures Valid() && fin == old(fin) && running + slot == old(running + slot)
      ensures (View(), spent) == L.TryAdmit(p, old(View()), t)
    {
      hide L.TryAdmit, L.AdmitHead, Distinct, Views;
      spent := 0.0;
      ghost var k := 0;
      while slot != [] && CanAdmit(slot[0])
        invariant Valid() && fin == old(fin) && running + slot == old(running + slot)
        invariant 0 <= k <= |old(slot)| && slot == old(slot)[k..]
        invariant Adds(L.TryAdmit(p, View(), t), spent, L.TryAdmit(p, old(View()), t))
        decreases |slot|
      {
        TryAdmitMore(p, View(), t, spent, L.TryAdmit(p, old(View()), t));
        spent := spent + (slot[0].size + slot[0].progress) / p.prefillTps;
        assert slot[0] == old(slot)[k];
        AdmitHead(t);
        k := k + 1;
      }
      TryAdmitStops(p, View(), t);
    }

    /** Send the most recently admitted sequence back to the head of the queue. */
    method Evict()
      requires Valid() && running != []
      modifies this`running, this`slot, this`nPreempt, running[|running| - 1]
      ensures Valid() && fin == old(fin) && running + slot == old(running + slot)
      ensures running == old(running)[..|old(running)| - 1]
      ensures View() == L.Evict(old(View()))
    {
      hide Distinct, Views;
      var n := |running| - 1;
      var victim := running[n];
      NotTwice(running, slot, fin);
      PrefixViews(running, n);
      victim.CountPreemption();
      SameViews(running[..n]);
      SameViews(slot);
      SameViews(fin);
      PrependViews(victim, slot);
      running := running[..n];
      nPreempt := nPreempt + 1;
      slot := [victim] + slot;
      assert running + slot == old(running + slot);
    }

    /** Recompute-style preemption: evict until the KV budget holds. */
    method PreemptIfNeeded()
      requires Valid()
      modifies this`running, this`slot, this`nPreempt, running
      ensures Valid() && fin == old(fin) && running + slot == old(running + slot)
      ensures View() == L.Preempt(p, old(View()))
    {
      hide L.Preempt, L.Evict, Distinct, Views;
      while |running| > 1 && KvUsed() > p.kvBudget
        invariant Valid() && fin == old(fin) && running + slot == old(running + slot)
        invariant |running| <= |old(running)| && running == old(running)[..|running|]
        invariant L.Preempt(p, View()) == L.Preempt(p, old(View()))
        decreases |running|
      {
        PreemptMore(p, View());
        assert running[|running| - 1] == old(running)[|running| - 1];
        Evict();
      }
      PreemptStops(p, View());
    }

    /** One token for every running sequence. */
    method DecodeBatch(t: real)
      requires Valid()
      modifies running
      ensures Valid() && View() == old(View()).(running := L.Tokens(old(View()).running, t))
    {
      hide L.Tokens;
      NotTwice(running, slot, fin);
      DecodeAll(running, t);
      assert Views(slot) == old(Views(slot)) && Views(fin) == old(Views(fin));
    }

    /** The finished requests leave the batch. */
    method Retire()
      requires Valid()
      modifies this`running, this`fin, this`nSuccess
      ensures Valid() && forall r :: r in running ==> r in old(running)
      ensures var e := old(View());
              View() == e.(running := Pending(e.running), fin := e.fin + Completed(e.running),
                           nSuccess := e.nSuccess + |Completed(e.running)|)
    {
      hide Pending, Completed, Distinct, Views, Those;
      var left, finished := Partition(running);
      SameViews(running);
      SameViews(slot);
      SameViews(fin);
      ThoseViews(running);
      ThoseSplit(running);
      ThoseIn(running);
      StillDistinct(running, slot, fin, left, finished);
      ViewsJoin(fin, finished);
      ViewsSize(finished);
      label Sorted:
      nSuccess := nSuccess + |finished|;
      running := left;
      fin := fin + finished;
      SameViews@Sorted(left);
      SameViews@Sorted(slot);
      SameViews@Sorted(fin);
    }

    /** One scheduler step: a token for every running sequence, then the finished ones leave. */
    method ServiceStep(t: real)
      requires Valid()
      modifies this, running
      ensures Valid() && slot == old(slot) && View() == L.ServiceStep(p, old(View()), t)
      ensures forall r :: r in running ==> r in old(running)
    {
      hide L.Tokens, Pending, Completed, Distinct, L.StepTime, Views;
      var nb := |running|;
      DecodeBatch(t);
      SetWork(work + nb as real);
      Retire();
      SetNext(At(t + (if running == [] then 0.0 else L.StepTime(p, |running|))));
    }

    method SetNext(c: Clock)
      modifies this`next
      ensures View() == old(View()).(next := c)
    {
      label Before:
      next := c;
      SameViews@Before(running);
      SameViews@Before(slot);
      SameViews@Before(fin);
    }

    method SetWork(w: real)
      modifies this`work
      ensures View() == old(View()).(work := w)
    {
      label Before:
      work := w;
      SameViews@Before(running);
      SameViews@Before(slot);
      SameViews@Before(fin);
    }

    /** Prefill blocks the decode clock. */
    method ChargePrefill(spent: real, t: real)
      modifies this`next
      ensures View() == old(View()).(next := L.Charge(old(next), spent, t))
    {
      if spent > 0.0 && next.At? { SetNext(At((if next.t > t then next.t else t) + spent)); }
    }

    method SetClock(t: real)
      modifies this`next
      ensures View() == L.Rearm(p, old(View()), t)
    {
      hide L.StepTime;
      if running != [] && (next.Never? || next.t <= t + EPS) { SetNext(At(t + L.StepTime(p, |running|))); }
    }

    /** Admit what the budget allows, charge prefill, preempt, set the decode clock. */
    method OnTick(t: real)
      requires Valid()
      modifies this, running, slot
      ensures Valid() && running + slot == old(running + slot) && fin == old(fin)
      ensures View() == L.OnTick(p, old(View()), t)
    {
      hide L.TryAdmit, L.Preempt, L.Charge, L.Rearm, Views, Distinct;
      var spent := TryAdmit(t);
      ChargePrefill(spent, t);
      PartOf(running, slot, old(running), old(slot));
      PreemptIfNeeded();
      SetClock(t);
    }
  }

  lemma {:induction false} StillDistinct(running: seq<Request>, slot: seq<Request>, fin: seq<Request>,
                                         left: seq<Request>, finished: seq<Request>)
    requires Distinct(running + slot + fin) && multiset(left) + multiset(finished) == multiset(running)
    ensures Distinct(left + slot + (fin + finished))
  {
    DistinctMultiset(running + slot + fin, left + slot + (fin + finished));
  }

  lemma PartOf(a: seq<Request>, b: seq<Request>, c: seq<Request>, d: seq<Request>)
    requires a + b == c + d
    ensures forall i :: 0 <= i < |a| ==> a[i] in c || a[i] in d
  {
    forall i | 0 <= i < |a| ensures a[i] in c || a[i] in d { assert (a + b)[i] == a[i]; }
  }

  /** Requests that were not touched look the same. */
  twostate lemma SameViews(rs: seq<Request>)
    requires forall i :: 0 <= i < |rs| ==> unchanged(rs[i])
    ensures Views(rs) == old(Views(rs))
  {}

  lemma ViewsSize(rs: seq<Request>)
    ensures |Views(rs)| == |rs|
  {}

  lemma {:induction false} ThoseIn(rs: seq<Request>)
    ensures forall r :: r in Those(rs, false) ==> r in rs
  {
    if rs != [] { ThoseIn(rs[..|rs| - 1]); }
  }

  lemma ViewsJoin(a: seq<Request>, b: seq<Request>)
    ensures Views(a + b) == Views(a) + Views(b)
  {}

  // ---- bounded-concurrency service -----------------------------------------------------------------------------------

  class RequestServiceEngine {
    const p: R.RsModel
    var running: seq<Request>
    var slot: seq<Request>
    var accepting: bool
    var next: Clock
    var nSuccess: nat
    var serviceSeconds: real
    var lastT: Option<real>
    /** Requests that completed here; the program keeps them in the trace. */
    ghost var fin: seq<Request>

    constructor (p: R.RsModel)
      ensures Valid() && View() == NewEngine && this.p == p
    {
      this.p := p;
      running, slot, fin := [], [], [];
      accepting, next, nSuccess, serviceSeconds, lastT := true, Never, 0, 0.0, None;
    }

    /** No request is held twice. */
    ghost predicate Valid()
      reads this
    {
      Distinct(running + slot + fin)
    }

    ghost function View(): Engine
      reads this, running, slot, fin
    {
      Engine(Views(running), Views(slot), accepting, next, 0, nSuccess, serviceSeconds, lastT, Views(fin))
    }

    predicate CanAdmit()
      reads this
    {
      accepting && |running| < p.maxConc
    }

    /** Deliver d seconds of service to every running request. */
    method DeliverBatch(d: real, t: real)
      requires Valid()
      modifies running, this`serviceSeconds
      ensures Valid()
      ensures var e := old(View());
              View() == e.(running := R.DeliverAll(e.running, d, t), work := e.work + Times(d, |e.running|))
    {
      hide R.DeliverAll, Times;
      NotTwice(running, slot, fin);
      ServeBatch(running, d, t);
      SameViews(slot);
      SameViews(fin);
      hide Views;
      ViewsSize(running);
      AddSeconds(d);
    }

    /** Account for d seconds of service to every running request. */
    method AddSeconds(d: real)
      modifies this`serviceSeconds
      ensures View() == old(View()).(work := old(serviceSeconds) + Times(d, |running|))
    {
      hide Times, Views;
      TimesNone(d);
      for i := 0 to |running|
        invariant serviceSeconds == old(serviceSeconds) + Times(d, i)
      {
        TimesSucc(d, i);
        serviceSeconds := serviceSeconds + d;
      }
      SameViews(running);
      SameViews(slot);
      SameViews(fin);
    }

    /** The finished requests leave the batch. */
    method Retire()
      requires Valid()
      modifies this`running, this`fin, this`nSuccess
      ensures Valid() && forall r :: r in running ==> r in old(running)
      ensures var e := old(View());
              View() == e.(running := Pending(e.running), fin := e.fin + Completed(e.running),
                           nSuccess := e.nSuccess + |Completed(e.running)|)
    {
      hide Pending, Completed, Distinct, Views, Those;
      var left, finished := Partition(running);
      SameViews(running);
      SameViews(slot);
      SameViews(fin);
      ThoseViews(running);
      ThoseSplit(running);
      ThoseIn(running);
      StillDistinct(running, slot, fin, left, finished);
      ViewsJoin(fin, finished);
      ViewsSize(finished);
      label Sorted:
      nSuccess := nSuccess + |finished|;
      running := left;
      fin := fin + finished;
      SameViews@Sorted(left);
      SameViews@Sorted(slot);
      SameViews@Sorted(fin);
    }

    method SetLast(t: real)
      modifies this`lastT
      ensures View() == old(View()).(lastT := Some(t))
    {
      label Before:
      lastT := Some(t);
      SameViews@Before(running);
      SameViews@Before(slot);
      SameViews@Before(fin);
    }

    method SetNext(c: Clock)
      modifies this`next
      ensures View() == old(View()).(next := c)
    {
      label Before:
      next := c;
      SameViews@Before(running);
      SameViews@Before(slot);
      SameViews@Before(fin);
    }

    /** Integrate the service delivered since the last event and retire what it completes. */
    method Advance(t: real)
      requires Valid()
      modifies this, running
      ensures Valid() && slot == old(slot) && forall r :: r in running ==> r in old(running)
      ensures View() == R.Advance(p, old(View()), t)
    {
      hide Views, Distinct, Pending, Completed, R.DeliverAll, Times, R.Rate;
      ViewsSize(running);
      var last := lastT;
      SetLast(t);
      if last.None? || t - last.value <= 0.0 || running == [] { return; }
      ghost var e := View();
      var d := (t - last.value) * R.Rate(p, |running|);
      assert d == R.Delivered(p, old(View()), t);
      hide R.Delivered;
      DeliverBatch(d, t);
      Retire();
    }

    /** Point the clock at the first completion. */
    method Reschedule(t: real)
      modifies this`next
      ensures View() == R.Reschedule(p, old(View()), t)
    {
      hide R.MinLeft, R.Rate, Views;
      ViewsSize(running);
      if running == [] {
        SetNext(Never);
      } else {
        var rate := R.Rate(p, |running|);
        var rem := MinRemaining();
        if rate <= 0.0 {
          SetNext(Never);
        } else {
          var nxt := t + rem / rate;
          SetNext(At(if nxt > t then nxt else NextAfter(p.gap, t)));
        }
      }
    }

    /** The least service any running request still needs. */
    method MinRemaining() returns (m: real)
      requires running != []
      ensures m == R.MinLeft(Views(running))
    {
      hide R.LeftOver;
      var i := |running| - 1;
      m := R.LeftOver(running[i].V());
      assert Views(running)[i..] == [running[i].V()];
      while i > 0
        invariant 0 <= i < |running| && m == R.MinLeft(Views(running)[i..])
      {
        i := i - 1;
        assert Views(running)[i..][1..] == Views(running)[i + 1..];
        m := Min(R.LeftOver(running[i].V()), m);
      }
      assert Views(running)[0..] == Views(running);
    }

    /** Move the queue head into service. */
    method AdmitHead(t: real)
      requires Valid() && slot != []
      modifies this`running, this`slot, slot[0]
      ensures Valid() && fin == old(fin) && running + slot == old(running + slot) && slot == old(slot)[1..]
      ensures View() == R.AdmitHead(old(View()), t)
    {
      hide R.Begin;
      var r := slot[0];
      assert (running + slot + fin)[|running|] == r;
      NotTwice(running, slot, fin);
      slot := slot[1..];
      r.Begin(t);
      running := running + [r];
      assert running + slot == old(running + slot);
    }

    /** Fill the free slots from the front of the queue. */
    method AdmitAll(t: real)
      requires Valid()
      modifies this`running, this`slot, slot
      ensures Valid() && fin == old(fin) && running + slot == old(running + slot)
      ensures View() == R.AdmitAll(p, old(View()), t)
    {
      hide R.AdmitAll, R.AdmitHead, Distinct, Views;
      ghost var k := 0;
      while slot != [] && CanAdmit()
        invariant Valid() && fin == old(fin) && running + slot == old(running + slot)
        invariant 0 <= k <= |old(slot)| && slot == old(slot)[k..]
        invariant R.AdmitAll(p, View(), t) == R.AdmitAll(p, old(View()), t)
        decreases |slot|
      {
        ViewsSize(running);
        ViewsSize(slot);
        AdmitAllMore(p, View(), t);
        assert slot[0] == old(slot)[k];
        AdmitHead(t);
        k := k + 1;
      }
      ViewsSize(running);
      ViewsSize(slot);
      AdmitAllStops(p, View(), t);
    }

    method ServiceStep(t: real)
      requires Valid()
      modifies this, running
      ensures Valid() && slot == old(slot) && View() == R.ServiceStep(p, old(View()), t)
    {
      hide R.Advance, R.Reschedule, Views, Distinct;
      Advance(t);
      Reschedule(t);
    }

    /** Integrate, admit, reschedule. */
    method OnTick(t: real)
      requires Valid()
      modifies this, running, slot
      ensures Valid() && View() == R.OnTick(p, old(View()), t)
    {
      hide R.Advance, R.AdmitAll, R.Reschedule, Views, Distinct;
      Advance(t);
      AdmitAll(t);
      Reschedule(t);
    }
  }

  lemma TimesNone(d: real)
    ensures Times(d, 0) == 0.0
  {}

  lemma AdmitAllMore(p: R.RsModel, e: Engine, t: real)
    requires e.slot != [] && R.CanAdmit(p, e)
    ensures R.AdmitAll(p, e, t) == R.AdmitAll(p, R.AdmitHead(e, t), t)
  {}

  lemma AdmitAllStops(p: R.RsModel, e: Engine, t: real)
    requires e.slot == [] || !R.CanAdmit(p, e)
    ensures R.AdmitAll(p, e, t) == e
  {}

  /** Deliver the same amount of service to every request of a batch. */
  method ServeBatch(rs: seq<Request>, d: real, t: real)
    requires Distinct(rs)
    modifies rs
    ensures Views(rs) == R.DeliverAll(old(Views(rs)), d, t)
  {
    hide R.Deliver;
    for i := 0 to |rs|
      invariant forall k :: 0 <= k < i ==> rs[k].V() == R.Deliver(old(rs[k].V()), d, t)
      invariant forall k :: i <= k < |rs| ==> rs[k].V() == old(rs[k].V())
    {
      rs[i].Deliver(d, t);
    }
  }

  /** Decode one token for every request of a batch. */
  method DecodeAll(rs: seq<Request>, t: real)
    requires Distinct(rs)
    modifies rs
    ensures Views(rs) == L.Tokens(old(Views(rs)), t)
  {
    hide L.Token;
    for i := 0 to |rs|
      invariant forall k :: 0 <= k < i ==> rs[k].V() == L.Token(old(rs[k].V()), t)
      invariant forall k :: i <= k < |rs| ==> rs[k].V() == old(rs[k].V())
    {
      rs[i].Token(t);
    }
  }

  /** `whole` is `rest` with `spent` more seconds of prefill. */
  ghost predicate Adds(rest: (Engine, real), spent: real, whole: (Engine, real)) {
    whole == (rest.0, spent + rest.1)
  }

  lemma TryAdmitMore(p: L.LlmModel, e: Engine, t: real, spent: real, whole: (Engine, real))
    requires e.slot != [] && L.CanAdmit(p, e, e.slot[0]) && Adds(L.TryAdmit(p, e, t), spent, whole)
    ensures Adds(L.TryAdmit(p, L.AdmitHead(e, t), t), spent + (e.slot[0].size + e.slot[0].progress) / p.prefillTps, whole)
  {
    hide L.CanAdmit, L.AdmitHead;
  }

  lemma TryAdmitStops(p: L.LlmModel, e: Engine, t: real)
    requires e.slot == [] || !L.CanAdmit(p, e, e.slot[0])
    ensures L.TryAdmit(p, e, t) == (e, 0.0)
  {}

  lemma PreemptMore(p: L.LlmModel, e: Engine)
    requires L.OverBudget(p, e)
    ensures L.Preempt(p, e) == L.Preempt(p, L.Evict(e))
  {}

  lemma PreemptStops(p: L.LlmModel, e: Engine)
    requires !L.OverBudget(p, e)
    ensures L.Preempt(p, e) == e
  {}

  /** What distinctness of the whole gives for its parts. */
  lemma NotTwice(a: seq<Request>, b: seq<Request>, c: seq<Request>)
    requires Distinct(a + b + c)
    ensures forall i, j :: 0 <= i < |a| && 0 <= j < |b| ==> a[i] != b[j]
    ensures forall i, j :: 0 <= i < |a| && 0 <= j < |c| ==> a[i] != c[j]
    ensures forall i, j :: 0 <= i < |b| && 0 <= j < |c| ==> b[i] != c[j]
    ensures Distinct(a) && Distinct(b) && Distinct(c)
  {
    var s := a + b + c;
    assert forall i :: 0 <= i < |a| ==> s[i] == a[i];
    assert forall i :: 0 <= i < |b| ==> s[|a| + i] == b[i];
    assert forall i :: 0 <= i < |c| ==> s[|a| + |b| + i] == c[i];
  }
}
