/** The class `warp_sort_shuffle<Key, WarpSize, Value>`.  A thread's
    `Key&`/`Value&` register of lane x is element x of an array holding the
    whole logical warp; one call of a method stands for all WarpSize lanes
    executing it in lockstep.  Each exchange step first takes a snapshot of
    the warp (every `warp_shuffle_xor` reads the value from before the
    step) and then lets each lane update its own register. */
module WarpSort {
  import opened Bits
  import opened Order
  import opened Perm
  import opened Network
  import opened Sorting

  /** `storage_type`, the empty shared-memory storage of this algorithm. */
  datatype Storage = EmptyStorage

  class WarpSortShuffle<K(!new), V> {
    const warpSize: nat

    /** The static_assert of the class: WarpSize is a power of two. */
    constructor (w: nat)
      requires IsPow2(w)
      ensures warpSize == w && IsPow2(warpSize)
    {
      warpSize := w;
    }

    /** The two key-only `swap<warp>` overloads: a no-op unless
        WarpSize > warp, otherwise the exchange of one step. */
    method SwapKeys(keys: array<K>, st: Step, cmp: (K, K) -> bool)
      requires keys.Length == warpSize
      modifies keys
      ensures keys[..] == StepKeys(old(keys[..]), st, cmp)
    {
      if warpSize > st.warp {
        var k := keys[..];
        ghost var nk := StepKeys(k, st, cmp);
        for x := 0 to keys.Length
          invariant forall y :: 0 <= y < x ==> keys[y] == nk[y]
          invariant forall y :: x <= y < keys.Length ==> keys[y] == k[y]
        {
          var k1 := k[Partner(x, st.mask, warpSize)];
          var dir := Dir(st.rule, x);
          var swap := cmp(if dir then k[x] else k1, if dir then k1 else k[x]);
          assert nk[x] == if swap then k1 else k[x];
          if swap {
            keys[x] := k1;
          }
        }
        assert keys[..] == nk;
      }
    }

    /** The two key-value `swap<warp>` overloads: the value moves exactly
        when the key does. */
    method SwapPairs<W>(keys: array<K>, vals: array<W>, st: Step, cmp: (K, K) -> bool)
      requires keys.Length == warpSize && vals.Length == warpSize
      requires keys as object != vals as object
      modifies keys, vals
      ensures keys[..] == StepKeys(old(keys[..]), st, cmp)
      ensures vals[..] == StepVals(old(keys[..]), old(vals[..]), st, cmp)
    {
      if warpSize > st.warp {
        var k, v := keys[..], vals[..];
        ghost var nk, nv := StepKeys(k, st, cmp), StepVals(k, v, st, cmp);
        for x := 0 to keys.Length
          invariant forall y :: 0 <= y < x ==> keys[y] == nk[y]
          invariant forall y :: x <= y < keys.Length ==> keys[y] == k[y]
          invariant forall y :: 0 <= y < x ==> vals[y] == nv[y]
          invariant forall y :: x <= y < vals.Length ==> vals[y] == v[y]
        {
          var p := Partner(x, st.mask, warpSize);
          var k1, v1 := k[p], v[p];
          var dir := Dir(st.rule, x);
          var swap := cmp(if dir then k[x] else k1, if dir then k1 else k[x]);
          assert nk[x] == (if swap then k1 else k[x]) && nv[x] == (if swap then v1 else v[x]);
          if swap {
            keys[x] := k1;
            vals[x] := v1;
          }
        }
        assert keys[..] == nk;
        assert vals[..] == nv;
      }
    }

    /** `bitonic_sort(compare_function, key)`: the 21 steps in program order. */
    method BitonicSortKeys(keys: array<K>, cmp: (K, K) -> bool)
      requires keys.Length == warpSize
      modifies keys
      ensures keys[..] == RunKeys(old(keys[..]), Schedule, cmp)
    {
      ghost var k0 := keys[..];
      for i := 0 to |Schedule|
        invariant keys[..] == RunKeys(k0, Schedule[..i], cmp)
      {
        ghost var before := keys[..];
        SwapKeys(keys, Schedule[i], cmp);
        RunKeysAppend(k0, Schedule[..i], [Schedule[i]], cmp);
        assert Schedule[..i + 1] == Schedule[..i] + [Schedule[i]];
        assert RunKeys(before, [Schedule[i]], cmp) == StepKeys(before, Schedule[i], cmp);
      }
      assert Schedule[..|Schedule|] == Schedule;
    }

    /** `bitonic_sort(compare_function, key, value)`. */
    method BitonicSortPairs<W>(keys: array<K>, vals: array<W>, cmp: (K, K) -> bool)
      requires keys.Length == warpSize && vals.Length == warpSize
      requires keys as object != vals as object
      modifies keys, vals
      ensures keys[..] == RunKeys(old(keys[..]), Schedule, cmp)
      ensures vals[..] == RunVals(old(keys[..]), old(vals[..]), Schedule, cmp)
    {
      ghost var k0, v0 := keys[..], vals[..];
      for i := 0 to |Schedule|
        invariant keys[..] == RunKeys(k0, Schedule[..i], cmp)
        invariant vals[..] == RunVals(k0, v0, Schedule[..i], cmp)
      {
        ghost var kb, vb := keys[..], vals[..];
        SwapPairs(keys, vals, Schedule[i], cmp);
        RunKeysAppend(k0, Schedule[..i], [Schedule[i]], cmp);
        RunValsAppend(k0, v0, Schedule[..i], [Schedule[i]], cmp);
        assert Schedule[..i + 1] == Schedule[..i] + [Schedule[i]];
        assert RunKeys(kb, [Schedule[i]], cmp) == StepKeys(kb, Schedule[i], cmp);
        assert RunVals(kb, vb, [Schedule[i]], cmp) == StepVals(kb, vb, Schedule[i], cmp);
      }
      assert Schedule[..|Schedule|] == Schedule;
    }

    /** `sort(thread_value, compare_function)`: sort by key only. */
    method SortKeys(keys: array<K>, cmp: (K, K) -> bool)
      requires keys.Length == warpSize && IsPow2(warpSize)
      modifies keys
      ensures keys[..] == RunKeys(old(keys[..]), Schedule, cmp)
      ensures multiset(keys[..]) == multiset(old(keys[..]))
      ensures StrictWeakOrder(cmp) && warpSize <= 64 ==> SortedBy(cmp, keys[..])
    {
      BitonicSortKeys(keys, cmp);
      ScheduleWellFormed();
      RunKeysMultiset(old(keys[..]), Schedule, cmp);
      if StrictWeakOrder(cmp) && warpSize <= 64 {
        ScheduleSorts(cmp, old(keys[..]));
      }
    }

    /** `sort(thread_value, storage, compare_function)`: the storage is
        unused and the call forwards to `SortKeys`. */
    method SortKeysWithStorage(keys: array<K>, storage: Storage, cmp: (K, K) -> bool)
      requires keys.Length == warpSize && IsPow2(warpSize)
      modifies keys
      ensures keys[..] == RunKeys(old(keys[..]), Schedule, cmp)
      ensures multiset(keys[..]) == multiset(old(keys[..]))
      ensures StrictWeakOrder(cmp) && warpSize <= 64 ==> SortedBy(cmp, keys[..])
    {
      SortKeys(keys, cmp);
    }

    /** `sort(thread_key, thread_value, compare_function)` for a value of at
        most `sizeof(int)` bytes: the values travel with the keys. */
    method SortPairsSmall(keys: array<K>, vals: array<V>, cmp: (K, K) -> bool)
      requires keys.Length == warpSize && vals.Length == warpSize && IsPow2(warpSize)
      requires keys as object != vals as object
      modifies keys, vals
      ensures keys[..] == RunKeys(old(keys[..]), Schedule, cmp)
      ensures vals[..] == RunVals(old(keys[..]), old(vals[..]), Schedule, cmp)
      ensures multiset(Zip(keys[..], vals[..])) == multiset(Zip(old(keys[..]), old(vals[..])))
      ensures StrictWeakOrder(cmp) && warpSize <= 64 ==> SortedBy(cmp, keys[..])
    {
      BitonicSortPairs(keys, vals, cmp);
      SchedulePairs(cmp, old(keys[..]), old(vals[..]));
    }

    /** `sort(thread_key, thread_value, compare_function)` for a larger
        value: the lane ids travel with the keys instead, and each lane
        then fetches its value from the lane whose id it holds. */
    method SortPairsLarge(keys: array<K>, vals: array<V>, cmp: (K, K) -> bool)
      requires keys.Length == warpSize && vals.Length == warpSize && IsPow2(warpSize)
      requires keys as object != vals as object
      modifies keys, vals
      ensures keys[..] == RunKeys(old(keys[..]), Schedule, cmp)
      ensures vals[..] == RunVals(old(keys[..]), old(vals[..]), Schedule, cmp)
      ensures multiset(Zip(keys[..], vals[..])) == multiset(Zip(old(keys[..]), old(vals[..])))
      ensures StrictWeakOrder(cmp) && warpSize <= 64 ==> SortedBy(cmp, keys[..])
    {
      ghost var k0, v0 := keys[..], vals[..];
      var ids := LaneIds();
      BitonicSortPairs(keys, ids, cmp);
      ghost var p := ids[..];
      RunValsGather(k0, v0, Schedule, cmp);
      assert p == RunVals(k0, Iota(|k0|), Schedule, cmp);
      assert forall x :: 0 <= x < ids.Length ==> ids[x] < warpSize by {
        forall x | 0 <= x < ids.Length ensures ids[x] < warpSize {
          assert ids[x] == p[x];
        }
      }
      Fetch(vals, ids);
      assert vals[..] == RunVals(k0, v0, Schedule, cmp);
      SchedulePairs(cmp, k0, v0);
    }

    /** `logical_lane_id<WarpSize>()` in every lane. */
    method LaneIds() returns (ids: array<nat>)
      ensures fresh(ids) && ids[..] == Iota(warpSize)
    {
      ids := new nat[warpSize];
      for x := 0 to warpSize
        invariant forall y :: 0 <= y < x ==> ids[y] == y
      {
        ids[x] := x;
      }
    }

    /** `warp_shuffle(thread_value, v, WarpSize)` in every lane: lane x
        receives the value of lane v = ids[x]. */
    method Fetch(vals: array<V>, ids: array<nat>)
      requires vals.Length == warpSize && ids.Length == warpSize
      requires forall x :: 0 <= x < ids.Length ==> ids[x] < warpSize
      requires vals as object != ids as object
      modifies vals
      ensures InRange(ids[..], warpSize) && vals[..] == Gather(old(vals[..]), ids[..])
    {
      assert InRange(ids[..], warpSize) by {
        forall i | 0 <= i < ids.Length ensures ids[..][i] < warpSize {
          assert ids[..][i] == ids[i];
        }
      }
      var v := vals[..];
      for x := 0 to ids.Length
        invariant forall y :: 0 <= y < x ==> vals[y] == v[ids[y]]
        invariant forall y :: x <= y < vals.Length ==> vals[y] == v[y]
      {
        vals[x] := v[ids[x]];
      }
      assert vals[..] == Gather(v, ids[..]);
    }

    /** The two key-value `sort` overloads, selected by the size of the
        value type (`largeValue` is `sizeof(Value) > sizeof(int)`): both
        give the same keys and values. */
    method SortPairs(keys: array<K>, vals: array<V>, cmp: (K, K) -> bool, largeValue: bool)
      requires keys.Length == warpSize && vals.Length == warpSize && IsPow2(warpSize)
      requires keys as object != vals as object
      modifies keys, vals
      ensures keys[..] == RunKeys(old(keys[..]), Schedule, cmp)
      ensures vals[..] == RunVals(old(keys[..]), old(vals[..]), Schedule, cmp)
      ensures multiset(Zip(keys[..], vals[..])) == multiset(Zip(old(keys[..]), old(vals[..])))
      ensures StrictWeakOrder(cmp) && warpSize <= 64 ==> SortedBy(cmp, keys[..])
    {
      if largeValue {
        SortPairsLarge(keys, vals, cmp);
      } else {
        SortPairsSmall(keys, vals, cmp);
      }
    }

    /** `sort(thread_key, thread_value, storage, compare_function)`, with
        the forwarding call in the argument order of the overload it means
        (see `Overloads` for the call as written). */
    method SortPairsWithStorage(keys: array<K>, vals: array<V>, storage: Storage, cmp: (K, K) -> bool,
                                largeValue: bool)
      requires keys.Length == warpSize && vals.Length == warpSize && IsPow2(warpSize)
      requires keys as object != vals as object
      modifies keys, vals
      ensures keys[..] == RunKeys(old(keys[..]), Schedule, cmp)
      ensures vals[..] == RunVals(old(keys[..]), old(vals[..]), Schedule, cmp)
      ensures multiset(Zip(keys[..], vals[..])) == multiset(Zip(old(keys[..]), old(vals[..])))
      ensures StrictWeakOrder(cmp) && warpSize <= 64 ==> SortedBy(cmp, keys[..])
    {
      SortPairs(keys, vals, cmp, largeValue);
    }
  }
}
