/** Comparators: the strict weak order the warp sort assumes of its
    `compare_function`, sortedness under such a comparator, and the
    threshold maps that reduce a comparator sort to a sort of booleans. */
module Order {

  /** Irreflexive, transitive, and incomparability is transitive. */
  ghost predicate StrictWeakOrder<K(!new)>(cmp: (K, K) -> bool)
  {
    && (forall a :: !cmp(a, a))
    && (forall a, b, c :: cmp(a, b) && cmp(b, c) ==> cmp(a, c))
    && (forall a, b, c ::
          !cmp(a, b) && !cmp(b, a) && !cmp(b, c) && !cmp(c, b) ==> !cmp(a, c) && !cmp(c, a))
  }

  /** Read in index order, no later element compares below an earlier one. */
  ghost predicate SortedBy<K>(cmp: (K, K) -> bool, s: seq<K>)
  {
    forall i, j :: 0 <= i < j < |s| ==> !cmp(s[j], s[i])
  }

  /** A strict weak order splits every pair it orders around any third element. */
  lemma NegativeTransitive<K(!new)>(cmp: (K, K) -> bool, a: K, b: K, c: K)
    requires StrictWeakOrder(cmp)
    requires cmp(a, c)
    ensures cmp(a, b) || cmp(b, c)
  {
  }

  /** The comparator with its arguments exchanged. */
  function Converse<K(!new)>(cmp: (K, K) -> bool): (r: (K, K) -> bool)
    ensures forall a, b :: r(a, b) == cmp(b, a)
  {
    (a, b) => cmp(b, a)
  }

  lemma ConverseIsStrictWeakOrder<K(!new)>(cmp: (K, K) -> bool)
    requires StrictWeakOrder(cmp)
    ensures StrictWeakOrder(Converse(cmp))
  {
  }

  /** Sorted under the converse comparator is sorted descending under cmp. */
  lemma SortedByConverse<K(!new)>(cmp: (K, K) -> bool, s: seq<K>)
    requires SortedBy(Converse(cmp), s)
    ensures forall i, j :: 0 <= i < j < |s| ==> !cmp(s[i], s[j])
  {
    forall i, j | 0 <= i < j < |s| ensures !cmp(s[i], s[j]) {
      assert !Converse(cmp)(s[j], s[i]);
    }
  }

  /** false before true. */
  function BoolLess(a: bool, b: bool): bool
  {
    !a && b
  }

  lemma BoolLessIsStrictWeakOrder()
    ensures StrictWeakOrder(BoolLess)
  {
  }

  /** The threshold map at t: true for the keys that do not compare below t. */
  function AtLeast<K>(cmp: (K, K) -> bool, t: K, s: seq<K>): (r: seq<bool>)
    ensures |r| == |s|
    ensures forall i :: 0 <= i < |s| ==> (r[i] <==> !cmp(s[i], t))
  {
    seq(|s|, i requires 0 <= i < |s| => !cmp(s[i], t))
  }

  /** The 0-1 principle's last step: a sequence is sorted when every one of
      its threshold images is sorted (false before true). */
  lemma SortedFromThresholds<K>(cmp: (K, K) -> bool, s: seq<K>)
    requires forall a :: !cmp(a, a)
    requires forall t :: SortedBy(BoolLess, AtLeast(cmp, t, s))
    ensures SortedBy(cmp, s)
  {
    forall i, j | 0 <= i < j < |s| ensures !cmp(s[j], s[i]) {
      var b := AtLeast(cmp, s[i], s);
      assert !BoolLess(b[j], b[i]);
      assert b[i];
    }
  }
}
