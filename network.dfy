/** The warp as one value: the keys (and values) of lanes 0 .. W-1, W the
    length of the sequence.  One exchange step `swap<warp>(mask, dir)` maps a
    snapshot of all lanes to the next snapshot; `bitonic_sort` is a fixed
    schedule of 21 such steps. */
module Network {
  import opened Bits
  import opened Perm

  /** How a lane derives its `dir` flag from its id. */
  datatype DirRule =
    | BitsDiffer(hi: nat, lo: nat)   // get_bit(id, hi) != get_bit(id, lo)
    | BitSet(b: nat)                 // get_bit(id, b) != 0

  /** One call `swap<warp>(kv..., mask, dir(id), compare_function)`. */
  datatype Step = Step(warp: nat, mask: nat, rule: DirRule)

  /** The unrolled schedule of `bitonic_sort`, in program order. */
  const Schedule: seq<Step> := [
    Step(2, 1, BitsDiffer(1, 0)),
    Step(4, 2, BitsDiffer(2, 1)),
    Step(4, 1, BitsDiffer(2, 0)),
    Step(8, 4, BitsDiffer(3, 2)),
    Step(8, 2, BitsDiffer(3, 1)),
    Step(8, 1, BitsDiffer(3, 0)),
    Step(16, 8, BitsDiffer(4, 3)),
    Step(16, 4, BitsDiffer(4, 2)),
    Step(16, 2, BitsDiffer(4, 1)),
    Step(16, 1, BitsDiffer(4, 0)),
    Step(32, 16, BitsDiffer(5, 4)),
    Step(32, 8, BitsDiffer(5, 3)),
    Step(32, 4, BitsDiffer(5, 2)),
    Step(32, 2, BitsDiffer(5, 1)),
    Step(32, 1, BitsDiffer(5, 0)),
    Step(32, 32, BitSet(5)),
    Step(16, 16, BitSet(4)),
    Step(8, 8, BitSet(3)),
    Step(4, 4, BitSet(2)),
    Step(2, 2, BitSet(1)),
    Step(0, 1, BitSet(0))
  ]

  function Dir(rule: DirRule, id: nat): bool
  {
    match rule
    case BitsDiffer(hi, lo) => Bit(id, hi) != Bit(id, lo)
    case BitSet(b) => Bit(id, b) != 0
  }

  /** The enable_if guard: the step does something only when WarpSize > warp. */
  predicate Active(st: Step, w: nat)
  {
    w > st.warp
  }

  /** The lane `warp_shuffle_xor(_, mask, w)` reads for lane x: x XOR mask,
      or x itself when that lane lies outside the logical warp. */
  function Partner(x: nat, mask: nat, w: nat): (r: nat)
    requires x < w
    ensures r < w
  {
    if Xor(x, mask) < w then Xor(x, mask) else x
  }

  /** The `swap` flag of lane x: compare_function(dir ? k : k1, dir ? k1 : k). */
  function Swaps<K>(keys: seq<K>, x: nat, st: Step, cmp: (K, K) -> bool): bool
    requires x < |keys|
  {
    var k := keys[x];
    var k1 := keys[Partner(x, st.mask, |keys|)];
    var dir := Dir(st.rule, x);
    cmp(if dir then k else k1, if dir then k1 else k)
  }

  /** The lane whose pre-step key and value lane x holds after the step. */
  function Src<K>(keys: seq<K>, x: nat, st: Step, cmp: (K, K) -> bool): (r: nat)
    requires x < |keys|
    ensures r < |keys|
  {
    if Active(st, |keys|) && Swaps(keys, x, st, cmp) then Partner(x, st.mask, |keys|) else x
  }

  function StepPerm<K>(keys: seq<K>, st: Step, cmp: (K, K) -> bool): (r: seq<nat>)
    ensures |r| == |keys| && InRange(r, |keys|)
  {
    seq(|keys|, x requires 0 <= x < |keys| => Src(keys, x, st, cmp))
  }

  /** One step on the keys (both swap overloads move the key the same way). */
  function StepKeys<K>(keys: seq<K>, st: Step, cmp: (K, K) -> bool): (r: seq<K>)
    ensures |r| == |keys|
    ensures !Active(st, |keys|) ==> r == keys
    ensures forall x :: 0 <= x < |keys| ==>
              r[x] == (if Active(st, |keys|) && Swaps(keys, x, st, cmp)
                       then keys[Partner(x, st.mask, |keys|)] else keys[x])
  {
    Gather(keys, StepPerm(keys, st, cmp))
  }

  /** One step on the values: a value moves exactly when its lane's key does,
      and to where that key goes. */
  function StepVals<K, V>(keys: seq<K>, vals: seq<V>, st: Step, cmp: (K, K) -> bool): (r: seq<V>)
    requires |vals| == |keys|
    ensures |r| == |vals|
    ensures !Active(st, |keys|) ==> r == vals
    ensures forall x :: 0 <= x < |keys| ==>
              r[x] == (if Active(st, |keys|) && Swaps(keys, x, st, cmp)
                       then vals[Partner(x, st.mask, |keys|)] else vals[x])
  {
    Gather(vals, StepPerm(keys, st, cmp))
  }

  /** The keys after running a list of steps. */
  function RunKeys<K>(keys: seq<K>, steps: seq<Step>, cmp: (K, K) -> bool): (r: seq<K>)
    ensures |r| == |keys|
    decreases |steps|
  {
    if steps == [] then keys else RunKeys(StepKeys(keys, steps[0], cmp), steps[1..], cmp)
  }

  /** The values after running a list of steps. */
  function RunVals<K, V>(keys: seq<K>, vals: seq<V>, steps: seq<Step>, cmp: (K, K) -> bool): (r: seq<V>)
    requires |vals| == |keys|
    ensures |r| == |vals|
    decreases |steps|
  {
    if steps == [] then vals
    else RunVals(StepKeys(keys, steps[0], cmp), StepVals(keys, vals, steps[0], cmp), steps[1..], cmp)
  }

  /** The scheduled steps pair lanes `id` and `id XOR mask` whose `dir`
      flags differ: mask is 2^lo and lo is the bit their flags test,
      against a higher bit or against 0. */
  predicate WellFormed(st: Step)
  {
    match st.rule
    case BitsDiffer(hi, lo) => st.mask == Pow2(lo) && lo < hi
    case BitSet(b) => st.mask == Pow2(b)
  }

  lemma ScheduleWellFormed()
    ensures forall i :: 0 <= i < |Schedule| ==> WellFormed(Schedule[i])
  {
  }

  /** Partners receive complementary directions, so they take the same
      swap decision: lane x takes its partner's key exactly when the partner
      takes x's.  No property of the comparator is needed for this. */
  lemma StepPermInvolution<K>(keys: seq<K>, st: Step, cmp: (K, K) -> bool)
    requires WellFormed(st)
    ensures IsInvolution(StepPerm(keys, st, cmp))
  {
    var w, p := |keys|, StepPerm(keys, st, cmp);
    var j := match st.rule case BitsDiffer(_, lo) => lo case BitSet(b) => b;
    forall x | 0 <= x < w ensures p[p[x]] == x {
      FlipBit(x, j);
      var y := Xor(x, st.mask);
      if y < w {
        assert Partner(y, st.mask, w) == x;
        assert Dir(st.rule, y) == !Dir(st.rule, x) by {
          if st.rule.BitsDiffer? {
            assert Shr(y, st.rule.hi) == Shr(x, st.rule.hi);
          }
        }
        assert Swaps(keys, y, st, cmp) == Swaps(keys, x, st, cmp);
      }
    }
  }

  predicate AllWellFormed(steps: seq<Step>)
  {
    forall i :: 0 <= i < |steps| ==> WellFormed(steps[i])
  }

  /** A run moves every payload by the permutation it applies to the lane ids. */
  lemma {:induction false} RunValsGather<K, V>(keys: seq<K>, vals: seq<V>, steps: seq<Step>, cmp: (K, K) -> bool)
    requires |vals| == |keys|
    ensures InRange(RunVals(keys, Iota(|keys|), steps, cmp), |keys|)
    ensures RunVals(keys, vals, steps, cmp) == Gather(vals, RunVals(keys, Iota(|keys|), steps, cmp))
    decreases |steps|
  {
    var ids := Iota(|keys|);
    if steps == [] {
      GatherIota(vals);
    } else {
      var k1, p := StepKeys(keys, steps[0], cmp), StepPerm(keys, steps[0], cmp);
      assert StepVals(keys, ids, steps[0], cmp) == p;
      RunValsGather(k1, Gather(vals, p), steps[1..], cmp);
      RunValsGather(k1, p, steps[1..], cmp);
      GatherGather(vals, p, RunVals(k1, Iota(|keys|), steps[1..], cmp));
    }
  }

  /** The keys move as they would if they were their own payload. */
  lemma {:induction false} RunKeysAsVals<K>(keys: seq<K>, steps: seq<Step>, cmp: (K, K) -> bool)
    ensures RunVals(keys, keys, steps, cmp) == RunKeys(keys, steps, cmp)
    decreases |steps|
  {
    if steps != [] {
      RunKeysAsVals(StepKeys(keys, steps[0], cmp), steps[1..], cmp);
    }
  }

  /** A run of well-formed steps permutes any payload. */
  lemma {:induction false} RunValsMultiset<K, V>(keys: seq<K>, vals: seq<V>, steps: seq<Step>, cmp: (K, K) -> bool)
    requires |vals| == |keys| && AllWellFormed(steps)
    ensures multiset(RunVals(keys, vals, steps, cmp)) == multiset(vals)
    decreases |steps|
  {
    if steps != [] {
      StepPermInvolution(keys, steps[0], cmp);
      InvolutionMultiset(vals, StepPerm(keys, steps[0], cmp));
      RunValsMultiset(StepKeys(keys, steps[0], cmp), StepVals(keys, vals, steps[0], cmp), steps[1..], cmp);
    }
  }

  /** A run of well-formed steps permutes the keys. */
  lemma RunKeysMultiset<K>(keys: seq<K>, steps: seq<Step>, cmp: (K, K) -> bool)
    requires AllWellFormed(steps)
    ensures multiset(RunKeys(keys, steps, cmp)) == multiset(keys)
  {
    RunKeysAsVals(keys, steps, cmp);
    RunValsMultiset(keys, keys, steps, cmp);
  }

  /** Keys and values move together: a run permutes the (key, value) pairs. */
  lemma {:induction false} RunPairsMultiset<K, V>(keys: seq<K>, vals: seq<V>, steps: seq<Step>, cmp: (K, K) -> bool)
    requires |vals| == |keys| && AllWellFormed(steps)
    ensures multiset(Zip(RunKeys(keys, steps, cmp), RunVals(keys, vals, steps, cmp))) == multiset(Zip(keys, vals))
  {
    var ids := RunVals(keys, Iota(|keys|), steps, cmp);
    RunValsGather(keys, vals, steps, cmp);
    RunValsGather(keys, keys, steps, cmp);
    RunKeysAsVals(keys, steps, cmp);
    RunValsGather(keys, Zip(keys, vals), steps, cmp);
    ZipGather(keys, vals, ids);
    RunValsMultiset(keys, Zip(keys, vals), steps, cmp);
  }

  /** Stage s of the building phase from mask 2^(t-1) down to mask 1:
      logical warp 2^s, lanes compare bit s of their id against bit lo. */
  function BuildCascade(s: nat, t: nat): (r: seq<Step>)
    ensures |r| == t
    ensures forall i :: 0 <= i < t ==> r[i] == Step(Pow2(s), Pow2(t - 1 - i), BitsDiffer(s, t - 1 - i))
  {
    if t == 0 then [] else [Step(Pow2(s), Pow2(t - 1), BitsDiffer(s, t - 1))] + BuildCascade(s, t - 1)
  }

  /** The building phase: stages 1 .. k, stage s with s steps. */
  function Build(k: nat): seq<Step>
  {
    if k == 0 then [] else Build(k - 1) + BuildCascade(k, k)
  }

  /** The final merge from mask 2^(t-1) down to mask 1: lanes compare bit
      lo alone; the last step (mask 1) is guarded by warp 0. */
  function FinalCascade(t: nat): (r: seq<Step>)
    ensures |r| == t
    ensures forall i :: 0 <= i < t ==>
      r[i] == Step(if t - 1 - i == 0 then 0 else Pow2(t - 1 - i), Pow2(t - 1 - i), BitSet(t - 1 - i))
  {
    if t == 0 then []
    else [Step(if t - 1 == 0 then 0 else Pow2(t - 1), Pow2(t - 1), BitSet(t - 1))] + FinalCascade(t - 1)
  }

  /** The literal schedule is the building phase for a 32-lane half
      followed by the final 64-lane merge. */
  lemma ScheduleStages()
    ensures Schedule == Build(5) + FinalCascade(6)
  {
    Pow2Values();
    StagePrefix(1, 0, 1);
    StagePrefix(2, 1, 3);
    StagePrefix(3, 3, 6);
    StagePrefix(4, 6, 10);
    StagePrefix(5, 10, 15);
    assert FinalCascade(6) == Schedule[15..];
  }

  lemma Pow2Values()
    ensures Pow2(0) == 1 && Pow2(1) == 2 && Pow2(2) == 4 && Pow2(3) == 8 && Pow2(4) == 16 && Pow2(5) == 32
  {
    assert Pow2(1) == 2 * Pow2(0);
    assert Pow2(2) == 2 * Pow2(1);
    assert Pow2(3) == 2 * Pow2(2);
    assert Pow2(4) == 2 * Pow2(3);
    assert Pow2(5) == 2 * Pow2(4);
  }

  /** Stage k of the building phase occupies Schedule[lo .. hi]. */
  lemma StagePrefix(k: nat, lo: nat, hi: nat)
    requires 1 <= k <= 5 && lo + k == hi <= |Schedule|
    requires Build(k - 1) == Schedule[..lo]
    requires BuildCascade(k, k) == Schedule[lo..hi]
    ensures Build(k) == Schedule[..hi]
  {
    assert Schedule[..hi] == Schedule[..lo] + Schedule[lo..hi];
  }

  lemma {:induction false} RunKeysAppend<K>(keys: seq<K>, a: seq<Step>, b: seq<Step>, cmp: (K, K) -> bool)
    ensures RunKeys(keys, a + b, cmp) == RunKeys(RunKeys(keys, a, cmp), b, cmp)
    decreases |a|
  {
    if a == [] {
      assert a + b == b;
    } else {
      assert (a + b)[0] == a[0] && (a + b)[1..] == a[1..] + b;
      RunKeysAppend(StepKeys(keys, a[0], cmp), a[1..], b, cmp);
    }
  }

  lemma {:induction false} RunValsAppend<K, V>(keys: seq<K>, vals: seq<V>, a: seq<Step>, b: seq<Step>, cmp: (K, K) -> bool)
    requires |vals| == |keys|
    ensures RunVals(keys, vals, a + b, cmp) == RunVals(RunKeys(keys, a, cmp), RunVals(keys, vals, a, cmp), b, cmp)
    decreases |a|
  {
    if a == [] {
      assert a + b == b;
    } else {
      assert (a + b)[0] == a[0] && (a + b)[1..] == a[1..] + b;
      RunValsAppend(StepKeys(keys, a[0], cmp), StepVals(keys, vals, a[0], cmp), a[1..], b, cmp);
    }
  }

  /** Steps whose guard fails leave the warp as it is. */
  lemma {:induction false} RunKeysInactive<K>(keys: seq<K>, steps: seq<Step>, cmp: (K, K) -> bool)
    requires forall i :: 0 <= i < |steps| ==> !Active(steps[i], |keys|)
    ensures RunKeys(keys, steps, cmp) == keys
    decreases |steps|
  {
    if steps != [] {
      assert !Active(steps[0], |keys|);
      RunKeysInactive(keys, steps[1..], cmp);
    }
  }

  lemma {:induction false} RunValsInactive<K, V>(keys: seq<K>, vals: seq<V>, steps: seq<Step>, cmp: (K, K) -> bool)
    requires |vals| == |keys|
    requires forall i :: 0 <= i < |steps| ==> !Active(steps[i], |keys|)
    ensures RunVals(keys, vals, steps, cmp) == vals
    decreases |steps|
  {
    if steps != [] {
      assert !Active(steps[0], |keys|);
      RunValsInactive(keys, vals, steps[1..], cmp);
    }
  }

  /** In a warp of 2^n lanes, n = m + 1, the building stages n and above do nothing. */
  lemma {:induction false} BuildSkip<K>(keys: seq<K>, k: nat, m: nat, n: nat, cmp: (K, K) -> bool)
    requires |keys| == Pow2(n) && n == m + 1 && m <= k
    ensures RunKeys(keys, Build(k), cmp) == RunKeys(keys, Build(m), cmp)
  {
    if k > m {
      BuildSkip(keys, k - 1, m, n, cmp);
      RunKeysAppend(keys, Build(k - 1), BuildCascade(k, k), cmp);
      CascadeInactive(k, n);
      RunKeysInactive(RunKeys(keys, Build(k - 1), cmp), BuildCascade(k, k), cmp);
    }
  }

  /** Stage s >= n has warp 2^s >= 2^n: none of its steps is active. */
  lemma CascadeInactive(s: nat, n: nat)
    requires n <= s
    ensures forall i :: 0 <= i < |BuildCascade(s, s)| ==> !Active(BuildCascade(s, s)[i], Pow2(n))
  {
    if n < s { Pow2Mono(n, s); }
  }

  /** In a warp of 2^n lanes, n >= 1, the final steps with masks 2^n and
      above do nothing. */
  lemma {:induction false} FinalSkip<K>(keys: seq<K>, t: nat, n: nat, cmp: (K, K) -> bool)
    requires |keys| == Pow2(n) && 1 <= n <= t
    ensures RunKeys(keys, FinalCascade(t), cmp) == RunKeys(keys, FinalCascade(n), cmp)
  {
    if t > n {
      var f := FinalCascade(t);
      if n < t - 1 { Pow2Mono(n, t - 1); }
      assert !Active(f[0], |keys|);
      assert f[1..] == FinalCascade(t - 1);
      FinalSkip(keys, t - 1, n, cmp);
    }
  }

  /** How many of the steps pass their guard in a warp of w lanes. */
  function ActiveCount(steps: seq<Step>, w: nat): nat
  {
    if steps == [] then 0 else (if Active(steps[0], w) then 1 else 0) + ActiveCount(steps[1..], w)
  }

  /** 0 + 1 + .. + m. */
  function Triangle(m: nat): nat
  {
    if m == 0 then 0 else Triangle(m - 1) + m
  }

  lemma {:induction false} TriangleFormula(m: nat)
    ensures 2 * Triangle(m) == m * (m + 1)
  {
    if m > 0 {
      TriangleFormula(m - 1);
    }
  }

  lemma {:induction false} ActiveCountAppend(a: seq<Step>, b: seq<Step>, w: nat)
    ensures ActiveCount(a + b, w) == ActiveCount(a, w) + ActiveCount(b, w)
    decreases |a|
  {
    if a == [] {
      assert a + b == b;
    } else {
      assert (a + b)[0] == a[0] && (a + b)[1..] == a[1..] + b;
      ActiveCountAppend(a[1..], b, w);
    }
  }

  /** A building stage runs all of its steps or none. */
  lemma {:induction false} CascadeCount(s: nat, t: nat, w: nat)
    ensures ActiveCount(BuildCascade(s, t), w) == if w > Pow2(s) then t else 0
  {
    if t > 0 {
      var c := BuildCascade(s, t);
      assert c[1..] == BuildCascade(s, t - 1);
      CascadeCount(s, t - 1, w);
    }
  }

  /** In a warp of 2^n lanes the building stages 1 .. n-1 are active. */
  lemma {:induction false} BuildCount(k: nat, n: nat)
    ensures ActiveCount(Build(k), Pow2(n)) == Triangle(if k < n then k else if n == 0 then 0 else n - 1)
  {
    if k > 0 {
      BuildCount(k - 1, n);
      ActiveCountAppend(Build(k - 1), BuildCascade(k, k), Pow2(n));
      CascadeCount(k, k, Pow2(n));
      if k < n { Pow2Mono(k, n); }
      if n < k { Pow2Mono(n, k); }
    }
  }

  /** In a warp of 2^n lanes the final steps with masks 2^j, j < n, are
      active, and the last one (guarded by warp 0) always is. */
  lemma {:induction false} FinalCount(t: nat, n: nat)
    ensures ActiveCount(FinalCascade(t), Pow2(n)) == if t <= n then t else if n == 0 then 1 else n
  {
    if t > 0 {
      var c := FinalCascade(t);
      assert c[1..] == FinalCascade(t - 1);
      FinalCount(t - 1, n);
      if t - 1 < n { Pow2Mono(t - 1, n); }
      if n < t - 1 { Pow2Mono(n, t - 1); }
    }
  }

  /** A warp of 2^n lanes, n <= 6, runs n(n+1)/2 of the 21 steps; a
      single-lane warp still runs the last one, whose partner is itself. */
  lemma ScheduleActiveCount(n: nat)
    requires n <= 6
    ensures 2 * ActiveCount(Schedule, Pow2(n)) == if n == 0 then 2 else n * (n + 1)
  {
    ScheduleStages();
    PhasesCount(n, 5, 6);
    TriangleFormula(n);
  }

  /** Building stages 1 .. k and a final merge from mask 2^(t-1), for a
      warp of 2^n lanes with n <= k + 1 and 1, n <= t. */
  lemma PhasesCount(n: nat, k: nat, t: nat)
    requires n <= k + 1 && n <= t && 1 <= t
    ensures ActiveCount(Build(k) + FinalCascade(t), Pow2(n)) == if n == 0 then 1 else Triangle(n)
  {
    ActiveCountAppend(Build(k), FinalCascade(t), Pow2(n));
    BuildCount(k, n);
    FinalCount(t, n);
  }
}
