/** Index maps over lane arrays: gathering by an index sequence, the
    identity map, involutions, and why gathering by an involution only
    rearranges the contents. */
module Perm {

  /** Every entry of p names a position of a sequence of length n. */
  predicate InRange(p: seq<nat>, n: nat)
  {
    forall i :: 0 <= i < |p| ==> p[i] < n
  }

  /** Position i of the result holds s[p[i]]. */
  function Gather<T>(s: seq<T>, p: seq<nat>): (r: seq<T>)
    requires InRange(p, |s|)
    ensures |r| == |p|
  {
    seq(|p|, i requires 0 <= i < |p| => s[p[i]])
  }

  /** The lane ids 0 .. n-1. */
  function Iota(n: nat): (r: seq<nat>)
    ensures |r| == n && InRange(r, n)
    ensures forall i :: 0 <= i < n ==> r[i] == i
  {
    seq(n, i => i)
  }

  function Zip<A, B>(a: seq<A>, b: seq<B>): (r: seq<(A, B)>)
    requires |a| == |b|
    ensures |r| == |a|
    ensures forall i :: 0 <= i < |a| ==> r[i].0 == a[i] && r[i].1 == b[i]
  {
    seq(|a|, i requires 0 <= i < |a| => (a[i], b[i]))
  }

  /** p maps positions of a length-|p| sequence to positions and undoes itself. */
  predicate IsInvolution(p: seq<nat>)
  {
    InRange(p, |p|) && forall i :: 0 <= i < |p| ==> p[p[i]] == i
  }

  lemma GatherIota<T>(s: seq<T>)
    ensures Gather(s, Iota(|s|)) == s
  {
  }

  /** Gathering twice is gathering once by the composed index map. */
  lemma GatherGather<T>(s: seq<T>, p: seq<nat>, q: seq<nat>)
    requires InRange(p, |s|) && InRange(q, |p|)
    ensures InRange(Gather(p, q), |s|)
    ensures Gather(Gather(s, p), q) == Gather(s, Gather(p, q))
  {
  }

  lemma ZipGather<A, B>(a: seq<A>, b: seq<B>, p: seq<nat>)
    requires |a| == |b| && InRange(p, |a|)
    ensures Zip(Gather(a, p), Gather(b, p)) == Gather(Zip(a, b), p)
  {
  }

  /** The first k positions and their images already hold their gathered
      value; every other position still holds its own. */
  function PartlyGathered<T>(s: seq<T>, p: seq<nat>, k: nat): (r: seq<T>)
    requires |p| == |s| && IsInvolution(p)
    ensures |r| == |s|
  {
    seq(|s|, i requires 0 <= i < |s| => if i < k || p[i] < k then s[p[i]] else s[i])
  }

  lemma {:induction false} PartlyGatheredMultiset<T>(s: seq<T>, p: seq<nat>, k: nat)
    requires |p| == |s| && IsInvolution(p) && k <= |s|
    ensures multiset(PartlyGathered(s, p, k)) == multiset(s)
  {
    if k == 0 {
      assert PartlyGathered(s, p, 0) == s;
    } else {
      PartlyGatheredMultiset(s, p, k - 1);
      var prev, next := PartlyGathered(s, p, k - 1), PartlyGathered(s, p, k);
      var j := k - 1;
      if p[j] < j || p[j] == j {
        assert next == prev;
      } else {
        assert next == prev[j := prev[p[j]]][p[j] := prev[j]];
      }
    }
  }

  /** Gathering by an involution permutes the contents. */
  lemma InvolutionMultiset<T>(s: seq<T>, p: seq<nat>)
    requires |p| == |s| && IsInvolution(p)
    ensures multiset(Gather(s, p)) == multiset(s)
  {
    PartlyGatheredMultiset(s, p, |s|);
    assert PartlyGathered(s, p, |s|) == Gather(s, p);
  }
}
