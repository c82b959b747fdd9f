# Warp sort by lane shuffles

A Dafny model of rocPRIM's `warp_sort_shuffle<Key, WarpSize, Value>`. This class sorts one key per lane, with an optional value per lane, across a logical warp of `WarpSize` lanes. It runs a bitonic sorting network whose compare-exchange steps use `warp_shuffle_xor` only, with no shared memory.

The model is in two layers.

- **Functional.** The warp is a sequence (`Network`). One `swap<warp>(kv..., mask, dir, compare_function)` call is a `Step`. It maps a snapshot of all lanes to the next snapshot. In `StepKeys`/`StepVals`, lane `x` takes the key (and value) of lane `x XOR mask` exactly when `compare_function(dir ? k : k1, dir ? k1 : k)` holds. A step does nothing unless `WarpSize > warp`. `bitonic_sort` is the literal 21-step `Schedule`.
- **Imperative.** `WarpSort.WarpSortShuffle` has one method per member function of the class. It works in place on arrays that hold the warp's registers, and each method is proved against the functional layer. Every exchange step first copies the warp, because all lanes read their partner's register before any lane writes. Then a loop updates lane by lane.

What is proved:

- **Permutation, for any comparator.** Each step is a permutation of the lanes, because partners get complementary `dir` flags and so take the same decision. The keys, the values and the (key, value) pairs are therefore preserved as multisets.
- **Sorting.** For every power-of-two `WarpSize` up to 64 and every comparator that is a strict weak order, the keys come out sorted.
  - The proof reduces to booleans by thresholds, an instance of the 0-1 principle (`Sorting`).
  - The 0-1 case carries a stage invariant through the schedule (`ZeroOne`).
- **Large values.** The large-value path sorts lane ids and then gathers the values. It yields exactly the keys and values of the direct path.
- **Step count.** `WarpSize` = 2^n runs n(n+1)/2 exchange steps.

Lane-id arithmetic (`get_bit`, XOR) lives in `Bits`, comparators in `Order`, and permutations of sequences in `Perm`.

## Model

| member | source | states |
|---|---|---|
| WarpSort.WarpSortShuffle.constructor | rocprim/include/rocprim/warp/detail/warp_sort_shuffle.hpp:135 | the class exists only for a power-of-two WarpSize |
| Network.Partner | rocprim/include/rocprim/warp/detail/warp_sort_shuffle.hpp:62 | the lane read by the xor shuffle always lies inside the logical warp |
| WarpSort.WarpSortShuffle.SwapKeys | rocprim/include/rocprim/warp/detail/warp_sort_shuffle.hpp:72-94 | the warp after the key-only swap overloads is StepKeys of the warp before: unchanged unless WarpSize > warp, else each lane keeps its key or takes its partner's as the comparator decides |
| WarpSort.WarpSortShuffle.SwapPairs | rocprim/include/rocprim/warp/detail/warp_sort_shuffle.hpp:45-70 | same for the key-value overloads; a value moves exactly when its key does, from the same partner lane |
| Network.StepPermInvolution | rocprim/include/rocprim/warp/detail/warp_sort_shuffle.hpp:57-70 | for every comparator, the lane each lane reads from after a step is an involution: partners take the same swap decision because their dir flags are complementary |
| Network.ScheduleWellFormed | rocprim/include/rocprim/warp/detail/warp_sort_shuffle.hpp:106-131 | every scheduled mask is 2^lo, and lo is the bit the dir flag compares (against a higher bit, or alone) |
| Network.ScheduleStages | rocprim/include/rocprim/warp/detail/warp_sort_shuffle.hpp:106-131 | the 21 steps are building stages 1..5 (stage s: warp 2^s, masks 2^(s-1)..1, dir = bit s != bit lo) followed by the final merge (masks 32..1, dir = bit lo) |
| WarpSort.WarpSortShuffle.BitonicSortKeys | rocprim/include/rocprim/warp/detail/warp_sort_shuffle.hpp:96-132 | the keys after bitonic_sort on keys alone are RunKeys of the schedule |
| WarpSort.WarpSortShuffle.BitonicSortPairs | rocprim/include/rocprim/warp/detail/warp_sort_shuffle.hpp:96-132 | the keys and values after bitonic_sort on key-value pairs are RunKeys and RunVals of the schedule |
| Network.RunKeysMultiset | rocprim/include/rocprim/warp/detail/warp_sort_shuffle.hpp:96-132 | the schedule permutes the keys (multiset preserved) for every comparator |
| Network.RunValsMultiset | rocprim/include/rocprim/warp/detail/warp_sort_shuffle.hpp:96-132 | the schedule permutes any payload carried with the keys |
| Network.RunPairsMultiset | rocprim/include/rocprim/warp/detail/warp_sort_shuffle.hpp:45-70 | keys and values move together: the multiset of (key, value) pairs is preserved |
| Network.RunValsGather | rocprim/include/rocprim/warp/detail/warp_sort_shuffle.hpp:165-175 | the values after a run are the original values gathered through the lane ids carried by the same run, and those ids lie inside the warp |
| Network.ScheduleActiveCount | rocprim/include/rocprim/warp/detail/warp_sort_shuffle.hpp:45-47 | for WarpSize = 2^n, 1 <= n <= 6, exactly n(n+1)/2 steps pass their enable_if guard; for WarpSize = 1 one step does (the last, warp 0) |
| Network.BuildSkip | rocprim/include/rocprim/warp/detail/warp_sort_shuffle.hpp:106-125 | in a warp of 2^n lanes the building stages n and above change nothing |
| Network.FinalSkip | rocprim/include/rocprim/warp/detail/warp_sort_shuffle.hpp:126-131 | in a warp of 2^n lanes the final steps with masks 2^n and above change nothing |
| ZeroOne.InvNextStage | rocprim/include/rocprim/warp/detail/warp_sort_shuffle.hpp:106-125 | neighbouring blocks of 2^s lanes sorted in opposite directions form bitonic blocks of 2^(s+1) |
| ZeroOne.StepInv | rocprim/include/rocprim/warp/detail/warp_sort_shuffle.hpp:106-131 | on booleans, one active step of a stage at mask 2^j turns bitonic blocks of 2^(j+1) into bitonic blocks of 2^j that are in order with each other |
| ZeroOne.BuildInv | rocprim/include/rocprim/warp/detail/warp_sort_shuffle.hpp:106-125 | after building stages 1..k, k < n, every block of 2^k lanes is sorted, ascending or descending by bit k of the lane id |
| ZeroOne.FinalCascadeInv | rocprim/include/rocprim/warp/detail/warp_sort_shuffle.hpp:126-131 | the final merge sorts a warp whose halves are sorted in opposite directions |
| ZeroOne.ZeroOneSorted | rocprim/include/rocprim/warp/detail/warp_sort_shuffle.hpp:96-132 | the schedule sorts every boolean warp of 2^n lanes, n <= 6, ascending |
| Sorting.StepThreshold | rocprim/include/rocprim/warp/detail/warp_sort_shuffle.hpp:64-69 | under a strict weak order, thresholding the keys commutes with one exchange step |
| Sorting.ScheduleSorts | rocprim/include/rocprim/warp/detail/warp_sort_shuffle.hpp:96-135 | for a strict weak order and a power-of-two WarpSize <= 64, the keys come out sorted: no later lane's key compares below an earlier lane's |
| Sorting.SchedulePairs | rocprim/include/rocprim/warp/detail/warp_sort_shuffle.hpp:156-175 | for every comparator the schedule rearranges the (key, value) pairs without creating or losing any; for a strict weak order and a power-of-two WarpSize <= 64 the keys also come out sorted |
| Sorting.ConverseSortsDescending | rocprim/include/rocprim/warp/detail/warp_sort_shuffle.hpp:139-145 | with the converse comparator the same schedule sorts descending |
| WarpSort.WarpSortShuffle.SortKeys | rocprim/include/rocprim/warp/detail/warp_sort_shuffle.hpp:139-145 | key-only sort: the keys are RunKeys of the schedule, a permutation of the input, and sorted for a strict weak order and WarpSize <= 64 |
| WarpSort.WarpSortShuffle.SortKeysWithStorage | rocprim/include/rocprim/warp/detail/warp_sort_shuffle.hpp:147-154 | the storage is ignored; same result as SortKeys |
| WarpSort.WarpSortShuffle.SortPairsSmall | rocprim/include/rocprim/warp/detail/warp_sort_shuffle.hpp:156-163 | key-value sort for small values: keys and values are RunKeys/RunVals of the schedule, the (key, value) pairs are permuted, and the keys are sorted |
| WarpSort.WarpSortShuffle.LaneIds | rocprim/include/rocprim/warp/detail/warp_sort_shuffle.hpp:172 | every lane's proxy starts as its own logical lane id |
| WarpSort.WarpSortShuffle.Fetch | rocprim/include/rocprim/warp/detail/warp_sort_shuffle.hpp:174 | each lane receives the value of the lane whose id its proxy holds |
| WarpSort.WarpSortShuffle.SortPairsLarge | rocprim/include/rocprim/warp/detail/warp_sort_shuffle.hpp:165-175 | key-value sort for large values (sort the lane ids, then gather): exactly the keys and values of the small-value path |
| WarpSort.WarpSortShuffle.SortPairs | rocprim/include/rocprim/warp/detail/warp_sort_shuffle.hpp:156-175 | both sizeof-selected key-value overloads give the same keys and values |
| WarpSort.WarpSortShuffle.SortPairsWithStorage | rocprim/include/rocprim/warp/detail/warp_sort_shuffle.hpp:177-184 | the key-value storage overload, with its forwarding call corrected: same result as SortPairs |
| Overloads.KeyStorageForwardResolves | rocprim/include/rocprim/warp/detail/warp_sort_shuffle.hpp:153 | the key-only storage overload's forwarding call selects the key-only sort |
| Overloads.KeyValueStorageForwardUnresolved | rocprim/include/rocprim/warp/detail/warp_sort_shuffle.hpp:183 | the key-value storage overload's forwarding call, as written, matches no overload |
| Overloads.KeyValueStorageForwardIntendedResolves | rocprim/include/rocprim/warp/detail/warp_sort_shuffle.hpp:177-184 | with the arguments in declaration order, the call selects the key-value sort |
| Scenario.FourLanes | rocprim/include/rocprim/warp/detail/warp_sort_shuffle.hpp:156-163 | four lanes with keys 3,1,4,2 and values c,a,d,b under `<` end as 1,2,3,4 with a,b,c,d |

## Left out

- Lockstep execution and the shuffle intrinsics. `warp_shuffle_xor` and `warp_shuffle` are modelled by what they return: the register of lane `x XOR mask` (the lane itself when that lies outside the logical warp), and the register of a given lane. Each step reads a snapshot of the whole warp, so barriers, divergence and lane masks are not modelled.
- `logical_lane_id<WarpSize>()` is the array index of the lane.
- `get_bit(id, b)` is `(id / 2^b) % 2`. That helper is not part of this model.
- The comparator is a total pure Dafny function. Its strict weak order is a hypothesis of the sortedness results only. Floating-point keys and comparators with side effects are not modelled.
- The `sizeof(Value) <= sizeof(int)` dispatch is the boolean `largeValue` of `SortPairs`. Type sizes are not modelled.
- `storage_type` is the one-value datatype `Storage`.
- The 21 unrolled `swap` calls of `bitonic_sort` are the entries of `Schedule`, run by a loop. The order and the arguments are the same.
- The `static_assert` limiting the parameter pack to one or two elements is modelled by having two methods, one for keys and one for key-value pairs.
- Stability is not modelled. The source gives no tie-order guarantee.
- WarpSize above 64 is not modelled. The source allows it, but the schedule then leaves lanes unmerged, and nothing is proved for it.
- WarpSort.WarpSortShuffle.SortKeys, SortKeysWithStorage, SortPairsSmall, SortPairsLarge, SortPairs and SortPairsWithStorage state sortedness only for WarpSize <= 64 and a strict weak order. The source states no bound, but its network covers only 64 lanes.
- The documented round count, log2(W)(log2(W)+1)/2, holds for W >= 2. The code also runs one step when W = 1: `swap<0>` with mask 1, whose partner is the lane itself. The model follows the code.
- Overload resolution (`Overloads`) treats Key, Value, `storage_type` and the comparator type as distinct types. Implicit conversions are not modelled.

## Findings

| source | as written | input that shows it | evidently intended | confidence | as-written member | corrected member |
|---|---|---|---|---|---|---|
| rocprim/include/rocprim/warp/detail/warp_sort_shuffle.hpp:183 | the key-value storage overload forwards its arguments as comparator, key, value; no `sort` overload takes the comparator first | any instantiation of `sort(thread_key, thread_value, storage, compare_function)` with distinct Key, Value and comparator types | forward as key, value, comparator to the key-value `sort` | not executed; the model shows no viable overload for the call as written | Overloads.KeyValueStorageForwardUnresolved | WarpSort.WarpSortShuffle.SortPairsWithStorage |
