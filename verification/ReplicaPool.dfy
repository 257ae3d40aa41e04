/** Replica lifecycle and billing: booting, serving, draining, released. */
module ReplicaPool {
  import opened Requests

  datatype Rep = Rep(rid: nat, tRequested: real, tReady: real, draining: bool,
                     tReleased: Option<real>, eng: Engine)
  {
    predicate Alive() { tReleased.None? }
    predicate Active() { Alive() && !draining }
    /** Ready to run its physics; draining replicas included. */
    predicate Serving(t: real) { Alive() && tReady <= t + EPS }
    predicate Accepting(t: real) { Serving(t) && !draining }
    predicate Booting(t: real) { Alive() && tReady > t + EPS }
    function Drain(): Rep { this.(draining := true, eng := eng.(accepting := false)) }
    function Revive(): Rep { this.(draining := false, eng := eng.(accepting := true)) }
  }

  /** k0 is the number of replicas requested at reset. */
  datatype PoolSettings = PoolSettings(k0: int, kMin: int, kMax: int, coldStart: real,
                                       sequential: bool, allowHypothetical: bool)
  {
    predicate Valid() { 1 <= kMin <= kMax && coldStart >= 0.0 }
    /** Replicas that exist from the start. */
    function Founders(): int { if k0 > kMin then k0 else kMin }
  }

  type PoolConfig = c: PoolSettings | c.Valid() witness PoolSettings(1, 1, 1, 0.0, true, false)

  datatype Pool = Pool(t: real, reps: seq<Rep>, retired: seq<Rep>, target: int, hypothetical: bool,
                       replicaSeconds: real, nextRid: nat, tLastBill: real)

  // ---- operations -----------------------------------------------------------------------------

  /** The latest ready time still in the future, or t itself. */
  function LastPending(reps: seq<Rep>, t: real): (m: real)
    ensures m >= t
    ensures forall r :: r in reps && r.Alive() ==> r.tReady <= m
    ensures m == t || exists r :: r in reps && r.Alive() && r.tReady == m
  {
    if reps == [] then t
    else
      var m := LastPending(reps[1..], t);
      if reps[0].Alive() && reps[0].tReady > t && reps[0].tReady > m then reps[0].tReady else m
  }

  function ReadyTime(c: PoolConfig, p: Pool, readyNow: bool): real {
    if readyNow then p.t
    else if !c.sequential then p.t + c.coldStart
    else LastPending(p.reps, p.t) + c.coldStart
  }

  function Start(c: PoolConfig, p: Pool, readyNow: bool): Pool {
    p.(reps := p.reps + [Rep(p.nextRid, p.t, ReadyTime(c, p, readyNow), false, None, NewEngine)],
       nextRid := p.nextRid + 1)
  }

  function StartMany(c: PoolConfig, p: Pool, n: nat): Pool
    decreases n
  {
    if n == 0 then p else StartMany(c, Start(c, p, true), n - 1)
  }

  function Reset(c: PoolConfig): Pool {
    var p := StartMany(c, Pool(0.0, [], [], 0, false, 0.0, 0, 0.0), c.Founders());
    p.(target := |p.reps|)
  }

  function CountActive(reps: seq<Rep>): nat {
    if reps == [] then 0 else (if reps[0].Active() then 1 else 0) + CountActive(reps[1..])
  }

  /** The first draining replica, if any. */
  function FirstDraining(reps: seq<Rep>): (i: nat)
    ensures i <= |reps|
    ensures i < |reps| ==> reps[i].Alive() && reps[i].draining
    ensures forall j :: 0 <= j < i ==> !(reps[j].Alive() && reps[j].draining)
  {
    if reps == [] then 0
    else if reps[0].Alive() && reps[0].draining then 0
    else 1 + FirstDraining(reps[1..])
  }

  /** Cancel a scale-down if one is in flight, else boot a replica. */
  function AddOne(c: PoolConfig, p: Pool): Pool {
    var i := FirstDraining(p.reps);
    if i < |p.reps| then p.(reps := p.reps[i := p.reps[i].Revive()]) else Start(c, p, false)
  }

  function AddMany(c: PoolConfig, p: Pool, n: nat): Pool
    decreases n
  {
    if n == 0 then p else AddMany(c, AddOne(c, p), n - 1)
  }

  /** The scale-down order: later ready time, then larger id. */
  predicate Newer(a: Rep, b: Rep) { a.tReady > b.tReady || (a.tReady == b.tReady && a.rid > b.rid) }

  /** The newest active replica. */
  function Newest(reps: seq<Rep>): (i: nat)
    requires CountActive(reps) > 0
    ensures i < |reps| && reps[i].Active()
    ensures forall j :: 0 <= j < |reps| && reps[j].Active() ==> !Newer(reps[j], reps[i])
  {
    if CountActive(reps[1..]) == 0 then
      NoneActive(reps[1..]);
      0
    else
      var k := Newest(reps[1..]);
      if reps[0].Active() && Newer(reps[0], reps[1..][k]) then 0 else k + 1
  }

  lemma NoneActive(reps: seq<Rep>)
    requires CountActive(reps) == 0
    ensures forall j :: 0 <= j < |reps| ==> !reps[j].Active()
  {
    if reps != [] { NoneActive(reps[1..]); }
  }

  /** Drain the n newest active replicas. */
  function DrainNewest(reps: seq<Rep>, n: nat): seq<Rep>
    requires n <= CountActive(reps)
    decreases n
  {
    if n == 0 then reps
    else
      var i := Newest(reps);
      CountUpdate(reps, i, reps[i].Drain());
      DrainNewest(reps[i := reps[i].Drain()], n - 1)
  }

  lemma CountUpdate(reps: seq<Rep>, i: nat, r: Rep)
    requires i < |reps|
    ensures CountActive(reps[i := r]) ==
            CountActive(reps) - (if reps[i].Active() then 1 else 0) + (if r.Active() then 1 else 0)
  {
    if i > 0 {
      CountUpdate(reps[1..], i - 1, r);
      assert reps[i := r][1..] == reps[1..][i - 1 := r];
    }
  }

  function Clamp(c: PoolConfig, k: int): int {
    var lifted := if k > c.kMin then k else c.kMin;
    if lifted > c.kMax && !c.allowHypothetical then c.kMax else lifted
  }

  /** A target within the range is left alone; below it becomes k_min, and above it k_max unless targets beyond it are
      allowed. */
  lemma ClampIs(c: PoolConfig, k: int)
    requires c.Valid()
    ensures k <= c.kMin ==> Clamp(c, k) == c.kMin
    ensures c.kMin <= k <= c.kMax || (k > c.kMax && c.allowHypothetical) ==> Clamp(c, k) == k
    ensures k > c.kMax && !c.allowHypothetical ==> Clamp(c, k) == c.kMax
  {}

  /** Request k replicas. */
  function SetTarget(c: PoolConfig, p: Pool, k: int): Pool {
    var k' := Clamp(c, k);
    var q := p.(hypothetical := p.hypothetical || k' > c.kMax);
    var n := CountActive(q.reps);
    if k' == p.target then q
    else if k' > p.target then ScaleUp(c, q, k' - n).(target := k')
    else ScaleDown(q, n - k').(target := k')
  }

  function ScaleUp(c: PoolConfig, p: Pool, n: int): Pool { if n > 0 then AddMany(c, p, n) else p }

  function ScaleDown(p: Pool, n: int): Pool {
    var m := CountActive(p.reps);
    p.(reps := DrainNewest(p.reps, if n < 0 then 0 else if n > m then m else n))
  }

  predicate Releasable(r: Rep) { r.draining && !r.eng.HasWork() }

  function Kept(reps: seq<Rep>): (out: seq<Rep>)
    ensures forall r :: r in out <==> r in reps && !Releasable(r)
  {
    if reps == [] then [] else if Releasable(reps[0]) then Kept(reps[1..]) else [reps[0]] + Kept(reps[1..])
  }

  function Released(reps: seq<Rep>, t: real): (out: seq<Rep>)
    ensures forall r :: r in out ==> r.tReleased == Some(t) && exists r0 :: r0 in reps && Releasable(r0) && r == r0.(tReleased := Some(t))
  {
    if reps == [] then []
    else if Releasable(reps[0]) then [reps[0].(tReleased := Some(t))] + Released(reps[1..], t)
    else Released(reps[1..], t)
  }

  /** Release drained replicas that hold no work. */
  function Reap(p: Pool, t: real): Pool {
    p.(reps := Kept(p.reps), retired := p.retired + Released(p.reps, t))
  }

  /** Every replica that exists costs. */
  function Bill(p: Pool, t: real): Pool {
    var dt := t - p.tLastBill;
    if dt <= 0.0 then p
    else p.(replicaSeconds := p.replicaSeconds + Times(dt, |p.reps|), tLastBill := t)
  }

  /** Bill up to t and move the pool's clock there. */
  function MoveTo(p: Pool, t: real): Pool { Bill(p, t).(t := t) }

  // ---- what the pool keeps ------------------------------------------------------------------------

  /** Replica-seconds of the live replicas at t, by lifetime. */
  function LiveSeconds(reps: seq<Rep>, t: real): real {
    if reps == [] then 0.0 else (t - reps[0].tRequested) + LiveSeconds(reps[1..], t)
  }

  /** Replica-seconds of the retired replicas, by lifetime. */
  function RetiredSeconds(reps: seq<Rep>): real {
    if reps == [] then 0.0
    else (if reps[0].tReleased.Some? then reps[0].tReleased.value - reps[0].tRequested else 0.0)
         + RetiredSeconds(reps[1..])
  }

  /** A later replica has a larger id and, under sequential bring-up, boots a full cold start later. */
  predicate Follows(c: PoolConfig, a: Rep, b: Rep) {
    && a.rid < b.rid
    && (c.sequential && b.rid >= c.Founders() ==> b.tReady >= a.tReady + c.coldStart)
  }

  ghost predicate InOrder(c: PoolConfig, reps: seq<Rep>) {
    forall i, j :: 0 <= i < j < |reps| ==> Follows(c, reps[i], reps[j])
  }

  ghost predicate LiveOk(c: PoolConfig, r: Rep, t: real, nextRid: nat) {
    && r.Alive() && r.rid < nextRid && 0.0 <= r.tRequested <= t && 0.0 <= r.tReady
    && r.tRequested <= r.tReady && r.eng.accepting == !r.draining
    && (r.rid < c.kMin ==> !r.draining && r.tReady == 0.0)
  }

  ghost predicate RetiredOk(p: Pool) {
    forall r :: r in p.retired ==>
      && r.tReleased.Some? && 0.0 <= r.tRequested <= r.tReleased.value <= p.t
      && r.draining && !r.eng.HasWork()
  }

  /** Everything but the promise about the target, which is suspended while a rescale is under way. */
  ghost predicate ScaleInv(c: PoolConfig, p: Pool) {
    && (forall r :: r in p.reps ==> LiveOk(c, r, p.t, p.nextRid))
    && InOrder(c, p.reps)
    && c.kMin <= |p.reps| && (forall i :: 0 <= i < c.kMin ==> p.reps[i].rid == i)
    && p.nextRid >= c.Founders() && RetiredOk(p)
    && p.tLastBill == p.t && p.t >= 0.0
    && p.replicaSeconds == LiveSeconds(p.reps, p.t) + RetiredSeconds(p.retired)
  }

  /** The active replicas are what was asked for, within the configured range. */
  ghost predicate PoolInv(c: PoolConfig, p: Pool) {
    && ScaleInv(c, p)
    && CountActive(p.reps) == p.target && c.kMin <= p.target
    && (!c.allowHypothetical && c.k0 <= c.kMax ==> p.target <= c.kMax)
  }

  /** What scaling does to the replicas that exist: flags only; whatever is new is empty and accepting. */
  ghost predicate Rescales(before: seq<Rep>, after: seq<Rep>) {
    && |before| <= |after|
    && (forall i :: 0 <= i < |before| ==>
          after[i] == before[i].(draining := after[i].draining, eng := before[i].eng.(accepting := !after[i].draining)))
    && (forall i :: |before| <= i < |after| ==>
          after[i].eng == NewEngine && after[i].Active())
  }

  // ---- sums over replicas --------------------------------------------------------------------------

  lemma {:induction false} CountAppend(a: seq<Rep>, r: Rep)
    ensures CountActive(a + [r]) == CountActive(a) + (if r.Active() then 1 else 0)
  {
    if a == [] { assert [] + [r] == [r]; }
    else {
      assert (a + [r])[1..] == a[1..] + [r];
      CountAppend(a[1..], r);
    }
  }

  lemma {:induction false} LiveAppend(a: seq<Rep>, r: Rep, t: real)
    ensures LiveSeconds(a + [r], t) == LiveSeconds(a, t) + (t - r.tRequested)
  {
    if a == [] { assert [] + [r] == [r]; }
    else {
      assert (a + [r])[1..] == a[1..] + [r];
      LiveAppend(a[1..], r, t);
    }
  }

  lemma {:induction false} RetiredAppend(a: seq<Rep>, b: seq<Rep>)
    ensures RetiredSeconds(a + b) == RetiredSeconds(a) + RetiredSeconds(b)
  {
    if a == [] { assert a + b == b; }
    else {
      assert (a + b)[1..] == a[1..] + b;
      RetiredAppend(a[1..], b);
    }
  }

  /** Lifetimes depend on the request times alone. */
  lemma {:induction false} LiveEqual(a: seq<Rep>, b: seq<Rep>, t: real)
    requires |a| == |b| && forall i :: 0 <= i < |a| ==> a[i].tRequested == b[i].tRequested
    ensures LiveSeconds(a, t) == LiveSeconds(b, t)
  {
    if a != [] { LiveEqual(a[1..], b[1..], t); }
  }

  /** A slice of time costs its length once per replica. */
  lemma {:induction false} LiveSlice(reps: seq<Rep>, t: real, u: real)
    ensures LiveSeconds(reps, u) == LiveSeconds(reps, t) + Times(u - t, |reps|)
  {
    if reps != [] {
      LiveSlice(reps[1..], t, u);
      TimesSucc(u - t, |reps| - 1);
    }
  }

  lemma {:induction false} ReapSeconds(reps: seq<Rep>, t: real)
    ensures LiveSeconds(Kept(reps), t) + RetiredSeconds(Released(reps, t)) == LiveSeconds(reps, t)
  {
    if reps != [] {
      ReapSeconds(reps[1..], t);
      if Releasable(reps[0]) {
        assert Released(reps, t)[1..] == Released(reps[1..], t);
      } else {
        assert Kept(reps)[1..] == Kept(reps[1..]);
      }
    }
  }

  lemma {:induction false} ReapCount(reps: seq<Rep>)
    ensures CountActive(Kept(reps)) == CountActive(reps)
  {
    if reps != [] {
      ReapCount(reps[1..]);
      if !Releasable(reps[0]) { assert Kept(reps)[1..] == Kept(reps[1..]); }
    }
  }

  lemma {:induction false} ReapOrder(c: PoolConfig, reps: seq<Rep>)
    requires InOrder(c, reps)
    ensures InOrder(c, Kept(reps))
  {
    if reps != [] {
      assert InOrder(c, reps[1..]) by {
        forall i, j | 0 <= i < j < |reps[1..]| ensures Follows(c, reps[1..][i], reps[1..][j]) {
          assert Follows(c, reps[i + 1], reps[j + 1]);
        }
      }
      ReapOrder(c, reps[1..]);
      var rest := Kept(reps[1..]);
      forall x | x in rest ensures Follows(c, reps[0], x) {
        var k :| 0 <= k < |reps[1..]| && reps[1..][k] == x;
        assert Follows(c, reps[0], reps[k + 1]);
      }
    }
  }

  /** Replicas that are not draining keep their place at the front. */
  lemma {:induction false} ReapFront(reps: seq<Rep>, k: nat)
    requires k <= |reps| && forall i :: 0 <= i < k ==> !reps[i].draining
    ensures k <= |Kept(reps)| && Kept(reps)[..k] == reps[..k]
  {
    if k > 0 {
      forall i | 0 <= i < k - 1 ensures !reps[1..][i].draining { assert reps[1..][i] == reps[i + 1]; }
      ReapFront(reps[1..], k - 1);
      assert Kept(reps) == [reps[0]] + Kept(reps[1..]);
      assert reps[..k] == [reps[0]] + reps[1..][..k - 1];
    }
  }

  // ---- billing -----------------------------------------------------------------------------------------

  lemma LiveLater(c: PoolConfig, r: Rep, t: real, u: real, n: nat, n': nat)
    requires LiveOk(c, r, t, n) && t <= u && n <= n'
    ensures LiveOk(c, r, u, n')
  {}

  /** Billing by time slices equals billing by lifetimes. */
  lemma {:induction false} MoveKeeps(c: PoolConfig, p: Pool, t: real)
    requires PoolInv(c, p) && t >= p.t
    ensures PoolInv(c, MoveTo(p, t))
  {
    hide Times, InOrder, LiveOk;
    LiveSlice(p.reps, p.t, t);
    forall r | r in p.reps ensures LiveOk(c, r, t, p.nextRid) { LiveLater(c, r, p.t, t, p.nextRid, p.nextRid); }
  }

  /** Releasing a replica moves its lifetime from the live sum to the retired one. */
  lemma {:induction false} ReapKeeps(c: PoolConfig, p: Pool)
    requires PoolInv(c, p)
    ensures PoolInv(c, Reap(p, p.t))
  {
    var q := Reap(p, p.t);
    ReapSeconds(p.reps, p.t);
    RetiredAppend(p.retired, Released(p.reps, p.t));
    ReapCount(p.reps);
    ReapOrder(c, p.reps);
    forall i | 0 <= i < c.kMin ensures !p.reps[i].draining { assert LiveOk(c, p.reps[i], p.t, p.nextRid); }
    ReapFront(p.reps, c.kMin);
    forall i | 0 <= i < c.kMin ensures q.reps[i].rid == i { assert Kept(p.reps)[..c.kMin][i] == p.reps[..c.kMin][i]; }
    forall r | r in q.retired
      ensures r.tReleased.Some? && 0.0 <= r.tRequested <= r.tReleased.value <= p.t && r.draining && !r.eng.HasWork()
    {
      if r !in p.retired {
        var r0 :| r0 in p.reps && Releasable(r0) && r == r0.(tReleased := Some(p.t));
        assert LiveOk(c, r0, p.t, p.nextRid);
      }
    }
  }

  // ---- scaling ----------------------------------------------------------------------------------------------

  /** A cold start boots a full cold start after everything pending. */
  lemma {:induction false} StartKeeps(c: PoolConfig, p: Pool)
    requires ScaleInv(c, p)
    ensures ScaleInv(c, Start(c, p, false)) && Rescales(p.reps, Start(c, p, false).reps)
    ensures CountActive(Start(c, p, false).reps) == CountActive(p.reps) + 1
  {
    var q := Start(c, p, false);
    var r := q.reps[|p.reps|];
    CountAppend(p.reps, r);
    LiveAppend(p.reps, r, p.t);
    forall x | x in q.reps ensures LiveOk(c, x, p.t, q.nextRid) {
      if x != r { LiveLater(c, x, p.t, p.t, p.nextRid, q.nextRid); }
    }
    forall i, j | 0 <= i < j < |q.reps| ensures Follows(c, q.reps[i], q.reps[j]) {
      if j == |p.reps| {
        assert p.reps[i] in p.reps && LiveOk(c, p.reps[i], p.t, p.nextRid);
      } else {
        assert Follows(c, p.reps[i], p.reps[j]);
      }
    }
    forall i | 0 <= i < |p.reps| ensures p.reps[i].eng == p.reps[i].eng.(accepting := !p.reps[i].draining) {
      assert LiveOk(c, p.reps[i], p.t, p.nextRid);
    }
  }

  lemma {:induction false} ReviveKeeps(c: PoolConfig, p: Pool, i: nat)
    requires ScaleInv(c, p) && i < |p.reps| && p.reps[i].Alive() && p.reps[i].draining
    ensures var q := p.(reps := p.reps[i := p.reps[i].Revive()]);
            ScaleInv(c, q) && Rescales(p.reps, q.reps) && CountActive(q.reps) == CountActive(p.reps) + 1
  {
    FlipKeeps(c, p, i, p.reps[i].Revive());
  }

  /** Changing the draining flag of one replica that is not a founder. */
  lemma {:induction false} FlipKeeps(c: PoolConfig, p: Pool, i: nat, r: Rep)
    requires ScaleInv(c, p) && i < |p.reps|
    requires r == p.reps[i].Revive() || (r == p.reps[i].Drain() && p.reps[i].rid >= c.kMin)
    ensures var q := p.(reps := p.reps[i := r]);
            && ScaleInv(c, q) && Rescales(p.reps, q.reps)
            && CountActive(q.reps) == CountActive(p.reps) - (if p.reps[i].Active() then 1 else 0)
                                      + (if r.Active() then 1 else 0)
  {
    hide CountActive, LiveSeconds, RetiredSeconds;
    var q := p.(reps := p.reps[i := r]);
    CountUpdate(p.reps, i, r);
    LiveEqual(p.reps, q.reps, p.t);
    assert LiveOk(c, p.reps[i], p.t, p.nextRid);
    forall j, k | 0 <= j < k < |q.reps| ensures Follows(c, q.reps[j], q.reps[k]) {
      assert Follows(c, p.reps[j], p.reps[k]);
    }
    forall j | 0 <= j < |p.reps| ensures p.reps[j].eng == p.reps[j].eng.(accepting := !p.reps[j].draining) {
      assert LiveOk(c, p.reps[j], p.t, p.nextRid);
    }
  }

  /** Nothing that was not draining before is draining now. */
  ghost predicate NoNewDrain(before: seq<Rep>, after: seq<Rep>) {
    |before| <= |after| && forall i :: 0 <= i < |before| && after[i].draining ==> before[i].draining
  }

  lemma RescalesUp(a: seq<Rep>, b: seq<Rep>, c: seq<Rep>)
    requires Rescales(a, b) && NoNewDrain(a, b) && Rescales(b, c) && NoNewDrain(b, c)
    ensures Rescales(a, c) && NoNewDrain(a, c)
  {}

  lemma RescalesDown(a: seq<Rep>, b: seq<Rep>, c: seq<Rep>)
    requires |a| == |b| && Rescales(a, b) && Rescales(b, c)
    ensures Rescales(a, c)
  {}

  lemma {:induction false} AddOneKeeps(c: PoolConfig, p: Pool)
    requires ScaleInv(c, p)
    ensures var q := AddOne(c, p);
            && ScaleInv(c, q) && Rescales(p.reps, q.reps) && NoNewDrain(p.reps, q.reps)
            && CountActive(q.reps) == CountActive(p.reps) + 1
  {
    var i := FirstDraining(p.reps);
    if i < |p.reps| {
      ReviveKeeps(c, p, i);
    } else {
      StartKeeps(c, p);
    }
  }

  /** Scaling up revives before it boots, one replica at a time, and never drains. */
  lemma {:induction false} AddKeeps(c: PoolConfig, p: Pool, n: nat)
    requires ScaleInv(c, p)
    ensures var q := AddMany(c, p, n);
            && ScaleInv(c, q) && Rescales(p.reps, q.reps) && NoNewDrain(p.reps, q.reps)
            && CountActive(q.reps) == CountActive(p.reps) + n
            && q.t == p.t && q.retired == p.retired && q.hypothetical == p.hypothetical
    decreases n
  {
    hide ScaleInv, Rescales, NoNewDrain;
    SameScale(c, p);
    if n > 0 {
      AddOneKeeps(c, p);
      AddKeeps(c, AddOne(c, p), n - 1);
      RescalesUp(p.reps, AddOne(c, p).reps, AddMany(c, p, n).reps);
    }
  }

  lemma SameScale(c: PoolConfig, p: Pool)
    requires ScaleInv(c, p)
    ensures Rescales(p.reps, p.reps) && NoNewDrain(p.reps, p.reps)
  {
    forall j | 0 <= j < |p.reps| ensures p.reps[j].eng == p.reps[j].eng.(accepting := !p.reps[j].draining) {
      assert LiveOk(c, p.reps[j], p.t, p.nextRid);
    }
  }

  lemma {:induction false} CountPrefix(reps: seq<Rep>, m: nat)
    requires m <= |reps| && forall j :: m <= j < |reps| ==> !reps[j].Active()
    ensures CountActive(reps) <= m
  {
    if reps != [] {
      if m == 0 {
        forall j | 0 <= j < |reps[1..]| ensures !reps[1..][j].Active() { assert reps[1..][j] == reps[j + 1]; }
        CountPrefix(reps[1..], 0);
      } else {
        forall j | m - 1 <= j < |reps[1..]| ensures !reps[1..][j].Active() { assert reps[1..][j] == reps[j + 1]; }
        CountPrefix(reps[1..], m - 1);
      }
    }
  }

  /** While more than k_min replicas are active, the newest of them is not a founder. */
  lemma {:induction false} NewestIsNoFounder(c: PoolConfig, p: Pool)
    requires ScaleInv(c, p) && CountActive(p.reps) > c.kMin
    ensures p.reps[Newest(p.reps)].rid >= c.kMin
  {
    var i := Newest(p.reps);
    if p.reps[i].rid < c.kMin {
      forall j | c.kMin <= j < |p.reps| ensures !p.reps[j].Active() {
        assert Follows(c, p.reps[c.kMin - 1], p.reps[j]);
        assert LiveOk(c, p.reps[i], p.t, p.nextRid) && LiveOk(c, p.reps[j], p.t, p.nextRid);
        assert p.reps[j].rid > p.reps[i].rid;
        assert Newer(p.reps[j], p.reps[i]);
      }
      CountPrefix(p.reps, c.kMin);
    }
  }

  /** Exactly the n newest of the active replicas were drained. */
  ghost predicate DrainsNewest(before: seq<Rep>, after: seq<Rep>, n: nat) {
    && |after| == |before| && CountActive(after) + n == CountActive(before)
    && (forall i :: 0 <= i < |before| ==>
          after[i] == before[i] || (before[i].Active() && after[i] == before[i].Drain()))
    && (forall i, j :: 0 <= i < |before| && 0 <= j < |before|
                       && before[i].Active() && !after[i].Active() && after[j].Active()
          ==> before[j].tReady < before[i].tReady
              || (before[j].tReady == before[i].tReady && before[j].rid <= before[i].rid))
  }

  /** Scale-down drains exactly the newest replicas and never a founder. */
  lemma {:induction false} DrainKeeps(c: PoolConfig, p: Pool, n: nat)
    requires ScaleInv(c, p) && CountActive(p.reps) >= c.kMin + n
    ensures var q := p.(reps := DrainNewest(p.reps, n));
            && ScaleInv(c, q) && Rescales(p.reps, q.reps) && DrainsNewest(p.reps, q.reps, n)
    decreases n
  {
    hide ScaleInv, Rescales, DrainsNewest, NoNewDrain;
    if n == 0 {
      SameScale(c, p);
      DrainNothing(p.reps);
    } else {
      var i := Newest(p.reps);
      var q := p.(reps := p.reps[i := p.reps[i].Drain()]);
      NewestIsNoFounder(c, p);
      FlipKeeps(c, p, i, p.reps[i].Drain());
      DrainKeeps(c, q, n - 1);
      RescalesDown(p.reps, q.reps, DrainNewest(q.reps, n - 1));
      DrainStep(p.reps, i, DrainNewest(q.reps, n - 1), n);
    }
  }

  lemma DrainNothing(reps: seq<Rep>)
    ensures DrainsNewest(reps, reps, 0)
  {}

  lemma {:induction false} DrainStep(before: seq<Rep>, i: nat, after: seq<Rep>, n: nat)
    requires n >= 1 && CountActive(before) > 0 && i == Newest(before)
    requires DrainsNewest(before[i := before[i].Drain()], after, n - 1)
    ensures DrainsNewest(before, after, n)
  {
    CountUpdate(before, i, before[i].Drain());
    var mid := before[i := before[i].Drain()];
    forall a, b | 0 <= a < |before| && 0 <= b < |before|
                  && before[a].Active() && !after[a].Active() && after[b].Active()
      ensures !Newer(before[b], before[a])
    {
      assert after[b] == mid[b];
      if a != i { assert mid[a].Active(); }
    }
  }

  lemma {:induction false} ScaleUpKeeps(c: PoolConfig, p: Pool, n: nat, k: int, h: bool)
    requires ScaleInv(c, p)
    ensures var q := ScaleUp(c, p.(hypothetical := h), n).(target := k);
            && ScaleInv(c, q) && Rescales(p.reps, q.reps) && NoNewDrain(p.reps, q.reps)
            && CountActive(q.reps) == CountActive(p.reps) + n && q.t == p.t && q.retired == p.retired
  {
    SameScale(c, p);
    Relabel(c, p, p.target, h);
    hide ScaleInv, Rescales, NoNewDrain;
    AddKeeps(c, p.(hypothetical := h), n);
    Relabel(c, AddMany(c, p.(hypothetical := h), n), k, h);
  }

  lemma {:induction false} ScaleDownKeeps(c: PoolConfig, p: Pool, n: nat, k: int, h: bool)
    requires ScaleInv(c, p) && CountActive(p.reps) >= c.kMin + n
    ensures var q := ScaleDown(p.(hypothetical := h), n).(target := k);
            && ScaleInv(c, q) && Rescales(p.reps, q.reps) && DrainsNewest(p.reps, q.reps, n)
            && q.t == p.t && q.retired == p.retired
  {
    Relabel(c, p, p.target, h);
    hide ScaleInv, Rescales;
    DrainKeeps(c, p.(hypothetical := h), n);
    Relabel(c, p.(hypothetical := h, reps := DrainNewest(p.reps, n)), k, h);
  }

  /** Every target request keeps the pool invariant; the clamped target is what becomes active. A scale-down
      drains exactly the newest replicas, a scale-up drains nothing. */
  lemma {:induction false} SetTargetKeeps(c: PoolConfig, p: Pool, k: int)
    requires PoolInv(c, p)
    ensures var q := SetTarget(c, p, k);
            && PoolInv(c, q) && Rescales(p.reps, q.reps) && q.target == Clamp(c, k)
            && q.t == p.t && q.retired == p.retired
            && (q.target >= p.target ==> NoNewDrain(p.reps, q.reps))
            && (q.target < p.target ==> DrainsNewest(p.reps, q.reps, p.target - q.target))
  {
    hide ScaleInv, Rescales, NoNewDrain, ScaleUp, ScaleDown, DrainsNewest, CountActive;
    var k' := Clamp(c, k);
    var h := p.hypothetical || k' > c.kMax;
    if k' == p.target {
      SameScale(c, p);
      Relabel(c, p, p.target, h);
    } else if k' > p.target {
      ScaleUpKeeps(c, p, k' - p.target, k', h);
    } else {
      ScaleDownKeeps(c, p, p.target - k', k', h);
      DrainedCount(p.reps, ScaleDown(p.(hypothetical := h), p.target - k').reps, p.target - k');
    }
  }

  lemma {:induction false} AllActive(reps: seq<Rep>)
    requires forall r :: r in reps ==> r.Active()
    ensures CountActive(reps) == |reps|
  {
    if reps != [] { AllActive(reps[1..]); }
  }

  lemma AddOneSize(c: PoolConfig, p: Pool)
    requires ScaleInv(c, p)
    ensures |AddOne(c, p).reps| <= |p.reps| || |AddOne(c, p).reps| <= CountActive(p.reps) + 1
  {
    if FirstDraining(p.reps) == |p.reps| {
      forall r | r in p.reps ensures r.Active() { assert LiveOk(c, r, p.t, p.nextRid); }
      AllActive(p.reps);
    }
  }

  /** A scale-up boots only what reviving cannot provide. */
  lemma {:induction false} AddSize(c: PoolConfig, p: Pool, n: nat)
    requires ScaleInv(c, p)
    ensures |AddMany(c, p, n).reps| <= |p.reps| || |AddMany(c, p, n).reps| <= CountActive(p.reps) + n
    decreases n
  {
    hide ScaleInv, Rescales, NoNewDrain, CountActive, AddOne;
    if n > 0 {
      AddOneKeeps(c, p);
      AddOneSize(c, p);
      AddSize(c, AddOne(c, p), n - 1);
    }
  }

  /** After a target request at least the clamped target exists, and no more than that or what existed before. */
  lemma {:induction false} SetTargetSize(c: PoolConfig, p: Pool, k: int)
    requires PoolInv(c, p)
    ensures var n := |SetTarget(c, p, k).reps|;
            Clamp(c, k) <= n && (n <= |p.reps| || n <= Clamp(c, k))
  {
    hide ScaleInv, Rescales, NoNewDrain, AddMany, DrainNewest, CountActive;
    var k', q := Clamp(c, k), SetTarget(c, p, k);
    SetTargetKeeps(c, p, k);
    CountPrefix(q.reps, |q.reps|);
    if k' > p.target {
      var h := p.hypothetical || k' > c.kMax;
      Relabel(c, p, p.target, h);
      AddSize(c, p.(hypothetical := h), k' - p.target);
    }
  }

  lemma {:induction false} AddUnbilled(c: PoolConfig, p: Pool, n: nat)
    ensures AddMany(c, p, n).replicaSeconds == p.replicaSeconds
    decreases n
  {
    if n > 0 { AddUnbilled(c, AddOne(c, p), n - 1); }
  }

  /** A control action bills nothing. */
  lemma {:induction false} SetTargetUnbilled(c: PoolConfig, p: Pool, k: int)
    ensures SetTarget(c, p, k).replicaSeconds == p.replicaSeconds
  {
    hide AddMany, CountActive, DrainNewest;
    var k' := Clamp(c, k);
    var n := k' - CountActive(p.reps);
    if k' > p.target && n > 0 { AddUnbilled(c, p.(hypothetical := p.hypothetical || k' > c.kMax), n); }
  }

  lemma DrainedCount(before: seq<Rep>, after: seq<Rep>, n: nat)
    requires DrainsNewest(before, after, n)
    ensures CountActive(after) + n == CountActive(before)
  {}

  lemma Relabel(c: PoolConfig, p: Pool, k: int, h: bool)
    requires ScaleInv(c, p)
    ensures ScaleInv(c, p.(target := k, hypothetical := h))
  {}

  lemma {:induction false} StartManyFounders(c: PoolConfig, p: Pool, n: nat)
    requires p.t == 0.0 && p.nextRid == |p.reps|
    requires forall i :: 0 <= i < |p.reps| ==> p.reps[i] == Rep(i, 0.0, 0.0, false, None, NewEngine)
    ensures var q := StartMany(c, p, n);
            && |q.reps| == q.nextRid == |p.reps| + n
            && q.(reps := p.reps, nextRid := p.nextRid) == p
            && forall i :: 0 <= i < |q.reps| ==> q.reps[i] == Rep(i, 0.0, 0.0, false, None, NewEngine)
    decreases n
  {
    if n > 0 { StartManyFounders(c, Start(c, p, true), n - 1); }
  }

  lemma {:induction false} FoundersCount(reps: seq<Rep>)
    requires forall r :: r in reps ==> r.Active() && r.tRequested == 0.0
    ensures CountActive(reps) == |reps| && LiveSeconds(reps, 0.0) == 0.0
  {
    if reps != [] { FoundersCount(reps[1..]); }
  }

  lemma {:induction false} ResetKeeps(c: PoolConfig)
    ensures PoolInv(c, Reset(c)) && Reset(c).t == 0.0 && Reset(c).retired == [] && Reset(c).replicaSeconds == 0.0
    ensures |Reset(c).reps| == Reset(c).target == c.Founders()
    ensures forall r :: r in Reset(c).reps ==> r.eng == NewEngine && r.Active() && r.tReady == 0.0
  {
    StartManyFounders(c, Pool(0.0, [], [], 0, false, 0.0, 0, 0.0), c.Founders());
    FoundersCount(Reset(c).reps);
  }

  // ---- bring-up ------------------------------------------------------------------------------------------------

  lemma {:induction false} LastPendingAppend(reps: seq<Rep>, r: Rep, t: real)
    requires r.Alive()
    ensures LastPending(reps + [r], t) ==
            (if r.tReady > LastPending(reps, t) then r.tReady else LastPending(reps, t))
  {
    if reps == [] {
      assert [] + [r] == [r] && LastPending([r][1..], t) == t;
    } else {
      assert (reps + [r])[1..] == reps[1..] + [r];
      LastPendingAppend(reps[1..], r, t);
    }
  }

  ghost predicate NoneDraining(reps: seq<Rep>) { forall r :: r in reps ==> !(r.Alive() && r.draining) }

  /** Ready time of the n-th boot (from 0) requested now. */
  function BootTime(c: PoolConfig, p: Pool, n: nat): real {
    if c.sequential then LastPending(p.reps, p.t) + Times(c.coldStart, n + 1) else p.t + c.coldStart
  }

  lemma {:induction false} BootShift(c: PoolConfig, p: Pool, n: nat)
    requires NoneDraining(p.reps)
    ensures AddOne(c, p) == Start(c, p, false) && NoneDraining(AddOne(c, p).reps)
    ensures AddOne(c, p).reps[|p.reps|].tReady == BootTime(c, p, 0)
    ensures BootTime(c, AddOne(c, p), n) == BootTime(c, p, n + 1)
  {
    TimesOne(c.coldStart);
    TimesSucc(c.coldStart, n + 1);
    LastPendingAppend(p.reps, Start(c, p, false).reps[|p.reps|], p.t);
  }

  lemma {:induction false} BootsAppend(c: PoolConfig, p: Pool, n: nat)
    requires NoneDraining(p.reps)
    ensures |AddMany(c, p, n).reps| == |p.reps| + n && p.reps <= AddMany(c, p, n).reps
    decreases n
  {
    if n > 0 {
      BootShift(c, p, 0);
      BootsAppend(c, AddOne(c, p), n - 1);
    }
  }

  lemma {:induction false} BootTimeAt(c: PoolConfig, p: Pool, n: nat, i: nat)
    requires NoneDraining(p.reps) && i < n
    ensures |AddMany(c, p, n).reps| == |p.reps| + n
    ensures AddMany(c, p, n).reps[|p.reps| + i].tReady == BootTime(c, p, i)
    decreases n
  {
    hide BootTime, NoneDraining, AddOne;
    var q := AddOne(c, p);
    BootsAppend(c, p, n);
    if i == 0 {
      BootShift(c, p, 0);
      BootsAppend(c, q, n - 1);
    } else {
      BootShift(c, p, i - 1);
      BootsAppend(c, p, 1);
      BootTimeAt(c, q, n - 1, i - 1);
      assert |q.reps| + (i - 1) == |p.reps| + i;
    }
  }

  /** With no scale-down to cancel, n boots requested at t come up one cold start apart under sequential
      bring-up, behind whatever is pending, and all together under parallel bring-up. */
  lemma {:induction false} BootTimes(c: PoolConfig, p: Pool, n: nat)
    requires NoneDraining(p.reps)
    ensures var q := AddMany(c, p, n);
            && |q.reps| == |p.reps| + n && p.reps <= q.reps
            && forall i :: 0 <= i < n ==> q.reps[|p.reps| + i].tReady == BootTime(c, p, i)
  {
    BootsAppend(c, p, n);
    hide BootTime, NoneDraining, AddMany;
    forall i | 0 <= i < n ensures AddMany(c, p, n).reps[|p.reps| + i].tReady == BootTime(c, p, i) {
      BootTimeAt(c, p, n, i);
    }
  }

  lemma TimesOne(d: real)
    ensures Times(d, 0) == 0.0 && Times(d, 1) == d
  {}

  lemma BootTimeOrder(c: PoolConfig, p: Pool, i: nat)
    ensures BootTime(c.(sequential := false), p, i) <= BootTime(c.(sequential := true), p, i)
  {
    TimesMonotone(c.coldStart, i);
  }

  /** Replica for replica, the pool a was ready no later than the pool b. */
  ghost predicate NoLater(a: seq<Rep>, b: seq<Rep>) {
    |a| == |b| && forall i :: 0 <= i < |a| ==> a[i].tReady <= b[i].tReady
  }

  lemma {:induction false} ReadyAt(c: PoolConfig, p: Pool, n: nat, i: nat)
    requires NoneDraining(p.reps) && i < |p.reps| + n
    ensures |AddMany(c, p, n).reps| == |p.reps| + n
    ensures AddMany(c, p, n).reps[i].tReady
            == if i < |p.reps| then p.reps[i].tReady else BootTime(c, p, i - |p.reps|)
  {
    hide AddMany, NoneDraining, BootTime;
    BootsAppend(c, p, n);
    if i < |p.reps| {
      assert AddMany(c, p, n).reps[i] == p.reps[i];
    } else {
      BootTimeAt(c, p, n, i - |p.reps|);
    }
  }

  lemma {:induction false} ParallelBoots(c: PoolConfig, p: Pool, n: nat)
    requires NoneDraining(p.reps)
    ensures NoLater(AddMany(c.(sequential := false), p, n).reps, AddMany(c.(sequential := true), p, n).reps)
  {
    hide AddMany, NoneDraining, BootTime;
    BootsAppend(c.(sequential := false), p, n);
    BootsAppend(c.(sequential := true), p, n);
    forall i | 0 <= i < |p.reps| + n
      ensures AddMany(c.(sequential := false), p, n).reps[i].tReady
              <= AddMany(c.(sequential := true), p, n).reps[i].tReady
    {
      ReadyAt(c.(sequential := false), p, n, i);
      ReadyAt(c.(sequential := true), p, n, i);
      if i >= |p.reps| { BootTimeOrder(c, p, i - |p.reps|); }
    }
  }

  /** Parallel bring-up from the same pool is never later, whatever is booting or draining. */
  lemma {:induction false} ParallelNeverLater(c: PoolConfig, p: Pool, n: nat)
    ensures NoLater(AddMany(c.(sequential := false), p, n).reps, AddMany(c.(sequential := true), p, n).reps)
    decreases n
  {
    if n > 0 && FirstDraining(p.reps) < |p.reps| {
      var q := AddOne(c.(sequential := false), p);
      assert q == AddOne(c.(sequential := true), p);
      ParallelNeverLater(c, q, n - 1);
    } else {
      if n > 0 { ParallelBoots(c, p, n); }
    }
  }

  lemma TimesMonotone(d: real, i: nat)
    requires d >= 0.0
    ensures Times(d, i + 1) >= d
  {
    assert Times(d, i + 1) == d + d * (i as real);
  }

  // ---- work on the engines --------------------------------------------------------------------------------------

  /** Only engines changed, and none of them its admission flag. */
  ghost predicate SameLifecycle(a: seq<Rep>, b: seq<Rep>) {
    |a| == |b| && forall i :: 0 <= i < |a| ==>
      b[i].(eng := a[i].eng) == a[i] && b[i].eng.accepting == a[i].eng.accepting
  }

  lemma {:induction false} CountEqual(a: seq<Rep>, b: seq<Rep>)
    requires SameLifecycle(a, b)
    ensures CountActive(a) == CountActive(b)
  {
    if a != [] {
      assert b[0].(eng := a[0].eng) == a[0];
      CountEqual(a[1..], b[1..]);
    }
  }

  /** Service leaves lifecycle and billing alone. */
  lemma {:induction false} EnginesIrrelevant(c: PoolConfig, p: Pool, reps: seq<Rep>)
    requires PoolInv(c, p) && SameLifecycle(p.reps, reps)
    ensures PoolInv(c, p.(reps := reps))
  {
    CountEqual(p.reps, reps);
    forall i | 0 <= i < |reps| ensures reps[i].tRequested == p.reps[i].tRequested {
      assert reps[i].(eng := p.reps[i].eng) == p.reps[i];
    }
    LiveEqual(p.reps, reps, p.t);
    forall r | r in reps ensures LiveOk(c, r, p.t, p.nextRid) {
      var i :| 0 <= i < |reps| && reps[i] == r;
      assert reps[i].(eng := p.reps[i].eng) == p.reps[i] && LiveOk(c, p.reps[i], p.t, p.nextRid);
    }
    forall i, j | 0 <= i < j < |reps| ensures Follows(c, reps[i], reps[j]) {
      assert Follows(c, p.reps[i], p.reps[j]);
      assert reps[i].(eng := p.reps[i].eng) == p.reps[i] && reps[j].(eng := p.reps[j].eng) == p.reps[j];
    }
    forall i | 0 <= i < c.kMin ensures reps[i].rid == i {
      assert reps[i].(eng := p.reps[i].eng) == p.reps[i];
    }
  }

  /** The first founder accepts dispatch at every instant. */
  lemma FounderAccepts(c: PoolConfig, p: Pool)
    requires PoolInv(c, p)
    ensures |p.reps| > 0 && p.reps[0].Accepting(p.t)
  {
    assert LiveOk(c, p.reps[0], p.t, p.nextRid);
  }

  // ---- what a scale-up cancels ---------------------------------------------------------------------------------

  /** From p to q some drains were cancelled, in pool order, and replicas added: what still drains is unchanged, and so
      is all of p from there on. */
  ghost predicate RevivesInOrder(p: seq<Rep>, q: seq<Rep>) {
    && |p| <= |q| && (forall i :: 0 <= i < |p| ==> q[i] == p[i] || (p[i].draining && q[i] == p[i].Revive()))
    && forall i, j :: 0 <= i <= j < |p| && q[i].Alive() && q[i].draining ==> q[j] == p[j]
  }

  lemma RevivesOn(p: seq<Rep>, q: seq<Rep>, r: seq<Rep>)
    requires RevivesInOrder(p, q) && RevivesInOrder(q, r)
    ensures RevivesInOrder(p, r)
  {
    forall i, j | 0 <= i <= j < |p| && r[i].Alive() && r[i].draining ensures r[j] == p[j] {
      assert r[i] == q[i];
    }
  }

  /** A scale-up cancels drains first, those of the replicas first in the pool first, and boots only where none is
      left. */
  lemma {:induction false} AddsInOrder(c: PoolConfig, p: Pool, n: nat)
    ensures var q := AddMany(c, p, n);
            && RevivesInOrder(p.reps, q.reps)
            && (|q.reps| > |p.reps| ==> forall i :: 0 <= i < |q.reps| ==> !(q.reps[i].Alive() && q.reps[i].draining))
    decreases n
  {
    if n > 0 {
      var p1 := AddOne(c, p);
      FirstRevived(c, p);
      AddsInOrder(c, p1, n - 1);
      RevivesOn(p.reps, p1.reps, AddMany(c, p1, n - 1).reps);
      hide AddOne, RevivesInOrder;
      NoneLeft(c, p, n);
    }
  }

  lemma FirstRevived(c: PoolConfig, p: Pool)
    ensures RevivesInOrder(p.reps, AddOne(c, p).reps)
  {
    var i := FirstDraining(p.reps);
    if i < |p.reps| { assert p.reps[i].draining; }
  }

  ghost predicate NoDrain(reps: seq<Rep>) { forall i :: 0 <= i < |reps| ==> !(reps[i].Alive() && reps[i].draining) }

  lemma {:induction false} NoneLeft(c: PoolConfig, p: Pool, n: nat)
    ensures |AddMany(c, p, n).reps| > |p.reps| || NoDrain(p.reps) ==> NoDrain(AddMany(c, p, n).reps)
    decreases n
  {
    if n > 0 {
      OneMore(c, p);
      NoneLeft(c, AddOne(c, p), n - 1);
      hide AddOne, NoDrain;
    }
  }

  lemma OneMore(c: PoolConfig, p: Pool)
    ensures |AddOne(c, p).reps| > |p.reps| || NoDrain(p.reps) ==> NoDrain(AddOne(c, p).reps)
    ensures |AddOne(c, p).reps| >= |p.reps|
  {}

  /** A pool is marked hypothetical by the first request that is granted beyond k_max, and stays so. */
  lemma HypotheticalIs(c: PoolConfig, p: Pool, k: int)
    ensures SetTarget(c, p, k).hypothetical <==> p.hypothetical || (k > c.kMax && c.allowHypothetical)
  {
    var n := CountActive(p.reps);
    var k' := Clamp(c, k);
    if k' > p.target && k' > n { AddsUnmarked(c, p.(hypothetical := p.hypothetical || k' > c.kMax), k' - n); }
  }

  lemma {:induction false} AddsUnmarked(c: PoolConfig, p: Pool, n: nat)
    ensures AddMany(c, p, n).hypothetical == p.hypothetical
    decreases n
  {
    if n > 0 { AddsUnmarked(c, AddOne(c, p), n - 1); }
  }
}
