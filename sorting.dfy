/** The main theorem: for every power-of-two warp size up to 64 and every
    comparator that is a strict weak order, the schedule of `bitonic_sort`
    leaves the keys sorted.  The proof maps keys to booleans by a threshold
    (`AtLeast`), which commutes with every step, and appeals to the 0-1 case. */
module Sorting {
  import opened Bits
  import opened Order
  import opened Perm
  import opened Network
  import opened ZeroOne

  /** Thresholding one lane: the lane that keeps the larger key keeps the
      larger boolean, the lane that keeps the smaller key the smaller. */
  lemma LaneThreshold<K(!new)>(cmp: (K, K) -> bool, t: K, k: K, k1: K, dir: bool)
    requires StrictWeakOrder(cmp)
    ensures var kept := if cmp(if dir then k else k1, if dir then k1 else k) then k1 else k;
            var a, a1 := !cmp(k, t), !cmp(k1, t);
            !cmp(kept, t) == (if BoolLess(if dir then a else a1, if dir then a1 else a) then a1 else a)
  {
    if cmp(k, k1) && cmp(k1, t) {
      assert cmp(k, t);
    }
    if cmp(k1, k) && cmp(k, t) {
      assert cmp(k1, t);
    }
    if cmp(k, t) {
      NegativeTransitive(cmp, k, k1, t);
    }
    if cmp(k1, t) {
      NegativeTransitive(cmp, k1, k, t);
    }
  }

  /** Thresholding commutes with one step. */
  lemma StepThreshold<K(!new)>(cmp: (K, K) -> bool, t: K, keys: seq<K>, st: Step)
    requires StrictWeakOrder(cmp)
    ensures AtLeast(cmp, t, StepKeys(keys, st, cmp)) == StepKeys(AtLeast(cmp, t, keys), st, BoolLess)
  {
    var a := AtLeast(cmp, t, keys);
    var l, r := AtLeast(cmp, t, StepKeys(keys, st, cmp)), StepKeys(a, st, BoolLess);
    forall x | 0 <= x < |keys| ensures l[x] == r[x] {
      if Active(st, |keys|) {
        var p := Partner(x, st.mask, |keys|);
        LaneThreshold(cmp, t, keys[x], keys[p], Dir(st.rule, x));
      }
    }
  }

  /** Thresholding commutes with a run of steps. */
  lemma {:induction false} RunThreshold<K(!new)>(cmp: (K, K) -> bool, t: K, keys: seq<K>, steps: seq<Step>)
    requires StrictWeakOrder(cmp)
    ensures AtLeast(cmp, t, RunKeys(keys, steps, cmp)) == RunKeys(AtLeast(cmp, t, keys), steps, BoolLess)
    decreases |steps|
  {
    if steps != [] {
      StepThreshold(cmp, t, keys, steps[0]);
      RunThreshold(cmp, t, StepKeys(keys, steps[0], cmp), steps[1..]);
    }
  }

  /** A power of two up to 64 is 2^n with n <= 6. */
  lemma SmallWarp(w: nat)
    requires IsPow2(w) && w <= 64
    ensures Log2(w) <= 6 && Pow2(Log2(w)) == w
  {
    if Log2(w) > 6 {
      Pow2Mono(6, Log2(w));
      Pow2Values();
    }
  }

  /** The schedule sorts the keys of every warp of a power-of-two size up
      to 64 under a strict weak order. */
  lemma ScheduleSorts<K(!new)>(cmp: (K, K) -> bool, keys: seq<K>)
    requires StrictWeakOrder(cmp) && IsPow2(|keys|) && |keys| <= 64
    ensures SortedBy(cmp, RunKeys(keys, Schedule, cmp))
  {
    var out := RunKeys(keys, Schedule, cmp);
    SmallWarp(|keys|);
    forall t | true ensures SortedBy(BoolLess, AtLeast(cmp, t, out)) {
      RunThreshold(cmp, t, keys, Schedule);
      ZeroOneSorted(AtLeast(cmp, t, keys), Log2(|keys|));
    }
    SortedFromThresholds(cmp, out);
  }

  /** With the comparator's converse the same schedule sorts descending:
      the direction is fixed by the comparator alone. */
  lemma ConverseSortsDescending<K(!new)>(cmp: (K, K) -> bool, keys: seq<K>)
    requires StrictWeakOrder(cmp) && IsPow2(|keys|) && |keys| <= 64
    ensures var out := RunKeys(keys, Schedule, Converse(cmp));
            forall i, j :: 0 <= i < j < |out| ==> !cmp(out[i], out[j])
  {
    ConverseIsStrictWeakOrder(cmp);
    ScheduleSorts(Converse(cmp), keys);
    SortedByConverse(cmp, RunKeys(keys, Schedule, Converse(cmp)));
  }

  /** What the key-value sorts promise of the schedule: the (key, value)
      pairs are rearranged, never created or lost, and the keys come out
      sorted. */
  lemma SchedulePairs<K(!new), V>(cmp: (K, K) -> bool, keys: seq<K>, vals: seq<V>)
    requires |vals| == |keys|
    ensures multiset(Zip(RunKeys(keys, Schedule, cmp), RunVals(keys, vals, Schedule, cmp))) == multiset(Zip(keys, vals))
    ensures StrictWeakOrder(cmp) && IsPow2(|keys|) && |keys| <= 64 ==> SortedBy(cmp, RunKeys(keys, Schedule, cmp))
  {
    ScheduleWellFormed();
    RunPairsMultiset(keys, vals, Schedule, cmp);
    if StrictWeakOrder(cmp) && IsPow2(|keys|) && |keys| <= 64 {
      ScheduleSorts(cmp, keys);
    }
  }
}
