/** A concrete warp of four lanes with integer keys under `<` and string
    values, traced through the three steps that pass their guard. */
module Scenario {
  import opened Bits
  import opened Network

  function IntLess(a: int, b: int): bool
  {
    a < b
  }

  /** Keys [3, 1, 4, 2] with values ["c", "a", "d", "b"] come out as
      [1, 2, 3, 4] with ["a", "b", "c", "d"]: each value stays with its key. */
  lemma FourLanes(k0: seq<int>, v0: seq<string>)
    requires k0 == [3, 1, 4, 2] && v0 == ["c", "a", "d", "b"]
    ensures RunKeys(k0, Schedule, IntLess) == [1, 2, 3, 4]
    ensures RunVals(k0, v0, Schedule, IntLess) == ["a", "b", "c", "d"]
  {
    var a, b, c, d := Schedule[..1], Schedule[1..19], Schedule[19..20], Schedule[20..];
    assert Schedule == a + b + c + d;
    FirstStep();
    MergeSteps();
    Pow2Values();
    RunKeysInactive([1, 3, 4, 2], b, IntLess);
    RunValsInactive([1, 3, 4, 2], ["a", "c", "d", "b"], b, IntLess);
    Chain(k0, v0, a, b, c, d, [1, 3, 4, 2], ["a", "c", "d", "b"], [1, 3, 4, 2], ["a", "c", "d", "b"],
          [1, 2, 4, 3], ["a", "b", "d", "c"], [1, 2, 3, 4], ["a", "b", "c", "d"], IntLess);
  }

  /** Four runs of steps one after the other. */
  lemma Chain<K, V>(k0: seq<K>, v0: seq<V>, a: seq<Step>, b: seq<Step>, c: seq<Step>, d: seq<Step>,
                    k1: seq<K>, v1: seq<V>, k2: seq<K>, v2: seq<V>, k3: seq<K>, v3: seq<V>,
                    k4: seq<K>, v4: seq<V>, cmp: (K, K) -> bool)
    requires |v0| == |k0| && |v1| == |k1| && |v2| == |k2| && |v3| == |k3|
    requires RunKeys(k0, a, cmp) == k1 && RunVals(k0, v0, a, cmp) == v1
    requires RunKeys(k1, b, cmp) == k2 && RunVals(k1, v1, b, cmp) == v2
    requires RunKeys(k2, c, cmp) == k3 && RunVals(k2, v2, c, cmp) == v3
    requires RunKeys(k3, d, cmp) == k4 && RunVals(k3, v3, d, cmp) == v4
    ensures RunKeys(k0, a + b + c + d, cmp) == k4 && RunVals(k0, v0, a + b + c + d, cmp) == v4
  {
    RunKeysAppend(k0, a + b + c, d, cmp);
    RunKeysAppend(k0, a + b, c, cmp);
    RunKeysAppend(k0, a, b, cmp);
    RunValsAppend(k0, v0, a + b + c, d, cmp);
    RunValsAppend(k0, v0, a + b, c, cmp);
    RunValsAppend(k0, v0, a, b, cmp);
  }

  /** Stage 1 (warp 2, mask 1): lanes 0, 1 ascend and lanes 2, 3 descend. */
  lemma FirstStep()
    ensures StepKeys([3, 1, 4, 2], Schedule[0], IntLess) == [1, 3, 4, 2]
    ensures StepVals([3, 1, 4, 2], ["c", "a", "d", "b"], Schedule[0], IntLess) == ["a", "c", "d", "b"]
  {
    assert Schedule[0] == Step(2, 1, BitsDiffer(1, 0));
    Pow2Values();
    StageOne(Schedule[0]);
  }

  lemma StageOne(st: Step)
    requires st == Step(2, 1, BitsDiffer(1, 0))
    ensures StepKeys([3, 1, 4, 2], st, IntLess) == [1, 3, 4, 2]
    ensures StepVals([3, 1, 4, 2], ["c", "a", "d", "b"], st, IntLess) == ["a", "c", "d", "b"]
  {
    assert Xor(0, 1) == 1 && Xor(1, 1) == 0 && Xor(2, 1) == 3 && Xor(3, 1) == 2;
    assert Bit(0, 1) == 0 && Bit(1, 1) == 0 && Bit(2, 1) == 1 && Bit(3, 1) == 1;
  }

  /** The final merge at mask 2: lanes 0, 2 and 1, 3 exchange. */
  lemma MergeSteps()
    ensures StepKeys([1, 3, 4, 2], Schedule[19], IntLess) == [1, 2, 4, 3]
    ensures StepVals([1, 3, 4, 2], ["a", "c", "d", "b"], Schedule[19], IntLess) == ["a", "b", "d", "c"]
    ensures StepKeys([1, 2, 4, 3], Schedule[20], IntLess) == [1, 2, 3, 4]
    ensures StepVals([1, 2, 4, 3], ["a", "b", "d", "c"], Schedule[20], IntLess) == ["a", "b", "c", "d"]
  {
    assert Schedule[19] == Step(2, 2, BitSet(1)) && Schedule[20] == Step(0, 1, BitSet(0));
    Pow2Values();
    MaskTwo(Schedule[19]);
    MaskOne(Schedule[20]);
  }

  lemma MaskTwo(st: Step)
    requires st == Step(2, 2, BitSet(1))
    ensures StepKeys([1, 3, 4, 2], st, IntLess) == [1, 2, 4, 3]
    ensures StepVals([1, 3, 4, 2], ["a", "c", "d", "b"], st, IntLess) == ["a", "b", "d", "c"]
  {
    assert Xor(0, 2) == 2 && Xor(1, 2) == 3 && Xor(2, 2) == 0 && Xor(3, 2) == 1;
  }

  lemma MaskOne(st: Step)
    requires st == Step(0, 1, BitSet(0))
    ensures StepKeys([1, 2, 4, 3], st, IntLess) == [1, 2, 3, 4]
    ensures StepVals([1, 2, 4, 3], ["a", "b", "d", "c"], st, IntLess) == ["a", "b", "c", "d"]
  {
    assert Xor(0, 1) == 1 && Xor(1, 1) == 0 && Xor(2, 1) == 3 && Xor(3, 1) == 2;
  }
}
