/** Handing out the requests of an episode, sorted by arrival. */
module Workload {
  import opened Requests
  import S = Sorting

  const NOT_AFTER: (Req, Req) -> bool := (a: Req, b: Req) => !Before(b, a)

  /** The requests in the order of arrival, ties by sequence number. */
  function Build(rs: seq<Req>): (out: seq<Req>)
    ensures |out| == |rs| && multiset(out) == multiset(rs)
  {
    S.Sort(NOT_AFTER, rs)
  }

  ghost predicate DistinctSeq(rs: seq<Req>) { forall i, j :: 0 <= i < j < |rs| ==> rs[i].seqNo != rs[j].seqNo }

  /** A permutation of requests with distinct numbers has distinct numbers. */
  lemma {:induction false} DistinctKept(a: seq<Req>, b: seq<Req>)
    requires DistinctSeq(a) && multiset(b) == multiset(a)
    ensures DistinctSeq(b)
  {
    forall i, j | 0 <= i < j < |b| ensures b[i].seqNo != b[j].seqNo {
      S.SameMembers(a, b);
      assert b[i] in a && b[j] in a;
      if b[i].seqNo == b[j].seqNo {
        assert b[i] == b[j];
        assert b == b[..i] + [b[i]] + b[i + 1..j] + [b[j]] + b[j + 1..];
        assert multiset(b)[b[i]] >= 2;
        Once(a, b[i]);
      }
    }
  }

  lemma {:induction false} Once(rs: seq<Req>, r: Req)
    requires DistinctSeq(rs)
    ensures multiset(rs)[r] <= 1
  {
    if rs != [] {
      Once(rs[1..], r);
      assert rs == [rs[0]] + rs[1..];
      if r == rs[0] {
        forall k | 0 <= k < |rs[1..]| ensures rs[1..][k] != r { assert rs[0].seqNo != rs[k + 1].seqNo; }
        assert r !in rs[1..];
      }
    }
  }

  /** With distinct sequence numbers the result is in dispatch order, and holds the same requests. */
  lemma {:induction false} BuildOrdered(rs: seq<Req>)
    requires DistinctSeq(rs)
    ensures Increasing(Build(rs)) && multiset(Build(rs)) == multiset(rs)
  {
    S.SortSorts(NOT_AFTER, rs);
    DistinctKept(rs, Build(rs));
    var out := Build(rs);
    forall i, j | 0 <= i < j < |out| ensures Before(out[i], out[j]) {
      assert NOT_AFTER(out[i], out[j]);
    }
  }

  /** The numbers are 0, 1, 2, ... in some order, and requests arrive in the order of their numbers. */
  ghost predicate NumberedByArrival(rs: seq<Req>) {
    && (forall r :: r in rs ==> 0 <= r.seqNo < |rs|)
    && (forall a, b :: a in rs && b in rs && a.seqNo < b.seqNo ==> a.tArrival <= b.tArrival)
  }

  /** Sequence numbers are kept, not renumbered: every request's number is its arrival rank if and only if the
      requests came numbered that way. */
  lemma {:induction false} RankedExactly(rs: seq<Req>)
    requires DistinctSeq(rs)
    ensures (forall i :: 0 <= i < |rs| ==> Build(rs)[i].seqNo == i) <==> NumberedByArrival(rs)
  {
    var out := Build(rs);
    BuildOrdered(rs);
    S.SameMembers(rs, out);
    hide Build;
    if NumberedByArrival(rs) {
      forall i, j | 0 <= i < j < |out| ensures out[i].seqNo < out[j].seqNo {
        assert Before(out[i], out[j]) && out[i] in rs && out[j] in rs;
      }
      Consecutive(out);
    }
    if forall i :: 0 <= i < |rs| ==> out[i].seqNo == i {
      forall a, b | a in rs && b in rs && a.seqNo < b.seqNo ensures a.tArrival <= b.tArrival {
        var i :| 0 <= i < |out| && out[i] == a;
        var j :| 0 <= j < |out| && out[j] == b;
        assert Before(out[i], out[j]);
      }
    }
  }

  /** n increasing numbers below n are 0 up to n - 1. */
  lemma {:induction false} Consecutive(rs: seq<Req>)
    requires forall i, j :: 0 <= i < j < |rs| ==> rs[i].seqNo < rs[j].seqNo
    requires forall i :: 0 <= i < |rs| ==> 0 <= rs[i].seqNo < |rs|
    ensures forall i :: 0 <= i < |rs| ==> rs[i].seqNo == i
  {
    forall i | 0 <= i < |rs| ensures rs[i].seqNo == i {
      AtLeastIndex(rs, i);
      AtMostIndex(rs, i);
    }
  }

  lemma {:induction false} AtLeastIndex(rs: seq<Req>, i: nat)
    requires i < |rs| && rs[0].seqNo >= 0
    requires forall i, j :: 0 <= i < j < |rs| ==> rs[i].seqNo < rs[j].seqNo
    ensures rs[i].seqNo >= i
  {
    if i > 0 { AtLeastIndex(rs, i - 1); }
  }

  lemma {:induction false} AtMostIndex(rs: seq<Req>, i: nat)
    requires i < |rs| && rs[|rs| - 1].seqNo < |rs|
    requires forall i, j :: 0 <= i < j < |rs| ==> rs[i].seqNo < rs[j].seqNo
    ensures rs[i].seqNo <= i
    decreases |rs| - i
  {
    if i < |rs| - 1 { AtMostIndex(rs, i + 1); }
  }
}
