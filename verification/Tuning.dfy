/** Choosing tuning episodes: round robin over regimes, so that each is represented. */
module Tuning {
  import S = Sorting

  /** Regimes are identified by number, in their sort order. */
  type Regime = nat

  /** Indices of the entries of a regime, in order. */
  function Members(entries: seq<Regime>, k: Regime): (ix: seq<nat>)
    ensures forall j :: 0 <= j < |ix| ==> ix[j] < |entries| && entries[ix[j]] == k
    ensures forall i, j :: 0 <= i < j < |ix| ==> ix[i] < ix[j]
    ensures forall i :: 0 <= i < |entries| && entries[i] == k ==> i in ix
  {
    if entries == [] then []
    else
      var n := |entries| - 1;
      var ix := Members(entries[..n], k);
      if entries[n] == k then ix + [n] else ix
  }

  predicate Distinct(s: seq<nat>) { forall i, j :: 0 <= i < j < |s| ==> s[i] != s[j] }

  predicate Increasing(s: seq<nat>) { forall i, j :: 0 <= i < j < |s| ==> s[i] < s[j] }

  const AT_MOST: (nat, nat) -> bool := (a: nat, b: nat) => a <= b

  /** The values that occur, each once. */
  function Values(entries: seq<Regime>): (vs: seq<nat>)
    ensures Distinct(vs) && forall x :: x in vs <==> x in entries
  {
    if entries == [] then []
    else
      var n := |entries| - 1;
      var vs := Values(entries[..n]);
      assert entries == entries[..n] + [entries[n]];
      if entries[n] in vs then vs else vs + [entries[n]]
  }

  /** Sorting distinct numbers puts them in strictly ascending order. */
  function Ascending(s: seq<nat>): (out: seq<nat>)
    requires Distinct(s)
    ensures Increasing(out) && |out| == |s| && forall y :: y in out <==> y in s
  {
    var out := S.Sort(AT_MOST, s);
    S.SortSorts(AT_MOST, s);
    S.SameMembers(out, s);
    DistinctIncreasing(s, out);
    out
  }

  lemma {:induction false} DistinctIncreasing(s: seq<nat>, out: seq<nat>)
    requires Distinct(s) && multiset(out) == multiset(s) && S.Sorted(AT_MOST, out)
    ensures Increasing(out)
  {
    forall i, j | 0 <= i < j < |out| ensures out[i] < out[j] {
      assert AT_MOST(out[i], out[j]);
      if out[i] == out[j] {
        assert out == out[..i] + [out[i]] + out[i + 1..j] + [out[j]] + out[j + 1..];
        assert multiset(out)[out[i]] >= 2;
        Once(s, out[i]);
      }
    }
  }

  lemma {:induction false} Once(s: seq<nat>, x: nat)
    requires Distinct(s)
    ensures multiset(s)[x] <= 1
  {
    if s != [] {
      Once(s[1..], x);
      assert s == [s[0]] + s[1..];
      if x == s[0] { assert x !in s[1..]; }
    }
  }

  /** The regimes present, sorted. */
  function Keys(entries: seq<Regime>): (keys: seq<nat>)
    ensures Increasing(keys) && forall x :: x in keys <==> x in entries
  {
    Ascending(Values(entries))
  }

  // ---- how much has been taken -------------------------------------------------------------------------------------

  /** How many entries of its own regime come before entry x. */
  function Rank(entries: seq<Regime>, x: nat): nat
    requires x < |entries|
  {
    |Members(entries[..x], entries[x])|
  }

  /** Entry x has been taken after r full rounds, with the regimes in `served` served once more. */
  predicate Chosen(entries: seq<Regime>, r: nat, served: seq<nat>, x: nat) {
    x < |entries| && Rank(entries, x) < (if entries[x] in served then r + 1 else r)
  }

  /** out lists exactly what has been taken so far, without repetition. */
  ghost predicate Taken(entries: seq<Regime>, r: nat, served: seq<nat>, out: seq<nat>) {
    Distinct(out) && forall x: nat :: x in out <==> Chosen(entries, r, served, x)
  }

  /** The rank of an entry is its place among the members of its regime. */
  lemma {:induction false} RankIsPlace(entries: seq<Regime>, k: Regime, q: nat, x: nat)
    ensures q < |Members(entries, k)| && Members(entries, k)[q] == x
            <==> x < |entries| && entries[x] == k && Rank(entries, x) == q
  {
    if entries != [] {
      RankIsPlace(entries[..|entries| - 1], k, q, x);
      hide Rank;
      LastPlace(entries, k, q, x);
    }
  }

  lemma LastPlace(entries: seq<Regime>, k: Regime, q: nat, x: nat)
    requires entries != []
    requires var before := entries[..|entries| - 1];
             q < |Members(before, k)| && Members(before, k)[q] == x <==> x < |before| && before[x] == k && Rank(before, x) == q
    ensures q < |Members(entries, k)| && Members(entries, k)[q] == x
            <==> x < |entries| && entries[x] == k && Rank(entries, x) == q
  {
    var n := |entries| - 1;
    if x < n {
      RankBelow(entries, x);
      hide Rank;
    } else {
      assert q < |Members(entries[..n], k)| ==> Members(entries[..n], k)[q] < n;
    }
  }

  lemma RankBelow(entries: seq<Regime>, x: nat)
    requires x + 1 < |entries|
    ensures Rank(entries[..|entries| - 1], x) == Rank(entries, x)
  {
    assert entries[..|entries| - 1][..x] == entries[..x];
  }

  /** Serving the next regime of a round adds its next entry, or nothing when it is exhausted. */
  lemma {:induction false} ServeNext(entries: seq<Regime>, keys: seq<nat>, r: nat, j: nat, out: seq<nat>)
    requires Increasing(keys) && j < |keys| && Taken(entries, r, keys[..j], out)
    ensures var ix := Members(entries, keys[j]);
            Taken(entries, r, keys[..j + 1], if r < |ix| then out + [ix[r]] else out)
  {
    var ix := Members(entries, keys[j]);
    assert keys[..j + 1] == keys[..j] + [keys[j]];
    assert keys[j] !in keys[..j];
    hide Rank, Members;
    forall x: nat ensures Chosen(entries, r, keys[..j + 1], x)
                          <==> Chosen(entries, r, keys[..j], x) || (r < |ix| && x == ix[r])
    {
      RankIsPlace(entries, keys[j], r, x);
    }
    if r < |ix| {
      RankIsPlace(entries, keys[j], r, ix[r]);
      assert !Chosen(entries, r, keys[..j], ix[r]);
      hide Chosen;
      assert ix[r] !in out;
    }
  }

  /** A round that served every regime is a full round. */
  lemma {:induction false} RoundDone(entries: seq<Regime>, keys: seq<nat>, r: nat, out: seq<nat>)
    requires Taken(entries, r, keys, out) && forall x :: x in entries ==> x in keys
    ensures Taken(entries, r + 1, [], out)
  {
    hide Rank, Members;
    forall x: nat ensures Chosen(entries, r, keys, x) <==> Chosen(entries, r + 1, [], x) {
      if x < |entries| {
        var k := entries[x];
        assert k in entries;
      }
    }
  }

  /** If no regime has an entry left for round r, everything has been taken. */
  lemma {:induction false} AllTaken(entries: seq<Regime>, keys: seq<nat>, r: nat, out: seq<nat>)
    requires Taken(entries, r, [], out) && forall x :: x in entries ==> x in keys
    requires forall j :: 0 <= j < |keys| ==> |Members(entries, keys[j])| <= r
    ensures |out| >= |entries|
  {
    hide Members;
    forall x: nat | x < |entries| ensures x in out {
      assert entries[x] in entries;
      var j :| 0 <= j < |keys| && keys[j] == entries[x];
      RankIsPlace(entries, keys[j], Rank(entries, x), x);
      assert Chosen(entries, r, [], x);
    }
    Covers(out, |entries|);
  }

  lemma {:induction false} Covers(out: seq<nat>, n: nat)
    requires forall x: nat :: x < n ==> x in out
    ensures |out| >= n
  {
    if n > 0 {
      var last: nat := n - 1;
      assert last in out;
      var i :| 0 <= i < |out| && out[i] == last;
      var rest := out[..i] + out[i + 1..];
      forall x: nat | x < n - 1 ensures x in rest {
        assert x in out;
        var k :| 0 <= k < |out| && out[k] == x;
        if k < i { assert rest[k] == x; } else { assert rest[k - 1] == x; }
      }
      Covers(rest, n - 1);
    }
  }

  lemma {:induction false} NothingTaken(entries: seq<Regime>)
    ensures Taken(entries, 0, [], [])
  {}

  // ---- the selection --------------------------------------------------------------------------------------------------

  /** All the indices, when there are few enough. */
  function Everything(n: nat): (s: seq<nat>)
    ensures |s| == n && Increasing(s) && forall x: nat :: x in s <==> x < n
  {
    if n == 0 then [] else
      var s := Everything(n - 1);
      assert forall i :: 0 <= i < |s| ==> s[i] in s;
      s + [n - 1]
  }

  /** One round: the next entry of every regime in turn, until n are picked. */
  method Round(entries: seq<Regime>, keys: seq<nat>, r: nat, n: nat, picked: seq<nat>)
    returns (out: seq<nat>, progressed: bool, ghost j: nat)
    requires Increasing(keys) && |picked| < n && Taken(entries, r, [], picked)
    ensures j <= |keys| && Taken(entries, r, keys[..j], out) && |picked| <= |out| <= n
    ensures |out| < n ==> j == |keys|
    ensures progressed ==> |out| > |picked|
    ensures !progressed ==> out == picked && j == |keys| && forall i :: 0 <= i < j ==> |Members(entries, keys[i])| <= r
  {
    hide Taken, Chosen, Members, Increasing;
    out, progressed := picked, false;
    var k := 0;
    assert keys[..0] == [];
    while k < |keys| && |out| < n
      invariant k <= |keys| && |picked| <= |out| <= n && Taken(entries, r, keys[..k], out)
      invariant progressed ==> |out| > |picked|
      invariant !progressed ==> out == picked && forall i :: 0 <= i < k ==> |Members(entries, keys[i])| <= r
    {
      var ix := Members(entries, keys[k]);
      ServeNext(entries, keys, r, k, out);
      if r < |ix| {
        out := out + [ix[r]];
        progressed := true;
      }
      k := k + 1;
    }
    j := k;
  }

  /** The entries of a regime among those picked, in order. */
  function Picked(entries: seq<Regime>, out: seq<nat>, k: Regime): (ix: seq<nat>)
    ensures forall x: nat :: x in ix <==> x in out && x < |entries| && entries[x] == k
    ensures Increasing(out) ==> Increasing(ix)
  {
    if out == [] then []
    else
      var n := |out| - 1;
      var ix := Picked(entries, out[..n], k);
      assert forall i :: 0 <= i < |ix| ==> ix[i] in ix;
      if out[n] < |entries| && entries[out[n]] == k then ix + [out[n]] else ix
  }

  /** Entries of a regime that have been taken. */
  function Quota(entries: seq<Regime>, r: nat, served: seq<nat>, k: Regime): nat {
    var size, q := |Members(entries, k)|, if k in served then r + 1 else r;
    if q <= size then q else size
  }

  lemma {:induction false} ChosenIsQuota(entries: seq<Regime>, r: nat, served: seq<nat>, k: Regime, i: nat)
    requires i < |Members(entries, k)|
    ensures Chosen(entries, r, served, Members(entries, k)[i]) <==> i < Quota(entries, r, served, k)
  {
    RankIsPlace(entries, k, i, Members(entries, k)[i]);
  }

  /** Ascending lists with the same members are equal. */
  lemma {:induction false} SameAscending(a: seq<nat>, b: seq<nat>)
    requires Increasing(a) && Increasing(b) && forall x: nat :: x in a <==> x in b
    ensures a == b
  {
    if a != [] { assert a[0] in b; }
    if b != [] {
      assert b[0] in a;
      var m, n := |a| - 1, |b| - 1;
      assert a[m] in b && b[n] in a;
      forall x: nat ensures x in a[..m] <==> x in b[..n] {
        assert x in a <==> x in a[..m] || x == a[m];
        assert x in b <==> x in b[..n] || x == b[n];
      }
      SameAscending(a[..m], b[..n]);
    }
  }

  /** What is picked of a regime is the start of its list, as long as its quota. */
  lemma {:induction false} PickedIsQuota(entries: seq<Regime>, r: nat, served: seq<nat>, out: seq<nat>, k: Regime)
    requires Increasing(out) && forall x: nat :: x in out <==> Chosen(entries, r, served, x)
    ensures Picked(entries, out, k) == Members(entries, k)[..Quota(entries, r, served, k)]
  {
    var ix, q := Members(entries, k), Quota(entries, r, served, k);
    forall x: nat ensures x in Picked(entries, out, k) <==> x in ix[..q] {
      if x < |entries| && entries[x] == k {
        assert x in ix;
        var i :| 0 <= i < |ix| && ix[i] == x;
        ChosenIsQuota(entries, r, served, k, i);
        hide Chosen, Quota, Members;
        if x in ix[..q] {
          var j :| 0 <= j < q && ix[..q][j] == x;
          assert j == i;
        }
        if i < q { assert ix[..q][i] == x; }
      }
    }
    hide Chosen, Members;
    SameAscending(Picked(entries, out, k), ix[..q]);
  }

  /** The regimes served in part of a round come before all others that occur. */
  ghost predicate Leading(entries: seq<Regime>, served: seq<nat>) {
    forall a: nat, b: nat :: a < b && a in entries && b in served ==> a in served
  }

  /** Each regime contributes a prefix of its list; unless every entry of a regime is picked, no other gets more than
      one entry more, and no later one gets more at all. */
  ghost predicate Balanced(entries: seq<Regime>, out: seq<nat>) {
    && (forall k :: Picked(entries, out, k) <= Members(entries, k))
    && (forall a, b :: |Picked(entries, out, a)| <= |Picked(entries, out, b)| + 1
                       || Picked(entries, out, b) == Members(entries, b))
    && (forall a, b :: a < b ==> |Picked(entries, out, a)| >= |Picked(entries, out, b)|
                                 || Picked(entries, out, a) == Members(entries, a))
  }

  /** Full rounds, and part of one more, pick in balance. */
  lemma {:induction false} Fair(entries: seq<Regime>, r: nat, served: seq<nat>, out: seq<nat>)
    requires Increasing(out) && forall x: nat :: x in out <==> Chosen(entries, r, served, x)
    requires Leading(entries, served)
    ensures Balanced(entries, out)
  {
    hide Chosen, Picked, Members, Increasing;
    forall k ensures Picked(entries, out, k) <= Members(entries, k) { PickedIsQuota(entries, r, served, out, k); }
    forall a, b
      ensures |Picked(entries, out, a)| <= |Picked(entries, out, b)| + 1
              || Picked(entries, out, b) == Members(entries, b)
    {
      PickedIsQuota(entries, r, served, out, a);
      PickedIsQuota(entries, r, served, out, b);
    }
    forall a, b | a < b
      ensures |Picked(entries, out, a)| >= |Picked(entries, out, b)| || Picked(entries, out, a) == Members(entries, a)
    {
      PickedIsQuota(entries, r, served, out, a);
      PickedIsQuota(entries, r, served, out, b);
      if a !in entries { NoMembers(entries, a); }
    }
  }

  lemma NoMembers(entries: seq<Regime>, k: Regime)
    requires k !in entries
    ensures Members(entries, k) == []
  {}

  /** The regimes at the start of the list are leading. */
  lemma FirstLead(entries: seq<Regime>, keys: seq<nat>, j: nat)
    requires Increasing(keys) && j <= |keys| && forall x :: x in entries ==> x in keys
    ensures Leading(entries, keys[..j])
  {
    forall a: nat, b: nat | a < b && a in entries && b in keys[..j] ensures a in keys[..j] {
      var k :| 0 <= k < j && keys[k] == b;
      assert a in keys;
      var i :| 0 <= i < |keys| && keys[i] == a;
      assert keys[..j][i] == a;
    }
  }

  lemma {:induction false} MembersSize(entries: seq<Regime>, k: Regime)
    ensures |Members(entries, k)| <= |entries|
  {
    if entries != [] { MembersSize(entries[..|entries| - 1], k); }
  }

  /** After as many rounds as there are entries everything is taken. */
  lemma {:induction false} EnoughRounds(entries: seq<Regime>, x: nat)
    ensures Chosen(entries, |entries|, [], x) <==> x < |entries|
  {
    if x < |entries| { MembersSize(entries[..x], entries[x]); }
  }

  /** Round robin over the regimes. The result is n distinct indices in order, or all of them if there are no more
      than n; each regime contributes its first entries, no regime falls behind another by more than one unless it is
      exhausted; and the whole is some number of full rounds, plus one more entry of the first regimes. */
  method Select(entries: seq<Regime>, n: nat) returns (out: seq<nat>, ghost rounds: nat, ghost served: seq<nat>)
    ensures Increasing(out) && |out| == (if |entries| <= n then |entries| else n)
    ensures Balanced(entries, out) && Leading(entries, served)
    ensures forall x: nat :: x in out <==> Chosen(entries, rounds, served, x)
  {
    hide Chosen, Members, Balanced, Increasing, Taken, Distinct, Ascending, Picked;
    if |entries| <= n {
      out, rounds, served := Everything(|entries|), |entries|, [];
      forall x: nat ensures x in out <==> Chosen(entries, rounds, served, x) { EnoughRounds(entries, x); }
      Fair(entries, rounds, served, out);
      return;
    }
    var keys := Keys(entries);
    var picked: seq<nat>;
    picked, rounds, served := PickRounds(entries, keys, n);
    SortTaken(entries, rounds, served, picked);
    out := Ascending(picked);
    Fair(entries, rounds, served, out);
  }

  lemma SortTaken(entries: seq<Regime>, r: nat, served: seq<nat>, picked: seq<nat>)
    requires Taken(entries, r, served, picked)
    ensures Distinct(picked) && Increasing(Ascending(picked)) && |Ascending(picked)| == |picked|
    ensures forall x: nat :: x in Ascending(picked) <==> Chosen(entries, r, served, x)
  {
    hide Chosen;
  }

  /** Rounds until n are picked. */
  method PickRounds(entries: seq<Regime>, keys: seq<nat>, n: nat)
    returns (picked: seq<nat>, ghost rounds: nat, ghost served: seq<nat>)
    requires |entries| > n && Increasing(keys) && forall x :: x in entries ==> x in keys
    ensures |picked| == n && Taken(entries, rounds, served, picked) && Leading(entries, served)
  {
    hide Taken, Increasing;
    rounds, served, picked := 0, [], [];
    var r := 0;
    NothingTaken(entries);
    while |picked| < n
      invariant |picked| <= n && Taken(entries, rounds, served, picked)
      invariant (|picked| < n ==> rounds == r && served == []) && Leading(entries, served)
      decreases n - |picked|
    {
      ghost var before := picked;
      var progressed;
      ghost var j;
      picked, progressed, j := Round(entries, keys, r, n, picked);
      if !progressed {
        AllTaken(entries, keys, r, before);
        break;
      }
      rounds, served := r, keys[..j];
      FirstLead(entries, keys, j);
      if |picked| < n {
        assert keys[..j] == keys;
        RoundDone(entries, keys, r, picked);
        rounds, served := r + 1, [];
      }
      r := r + 1;
    }
  }
}
