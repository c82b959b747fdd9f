/** The schedule sorts every boolean warp of width 2^n, n <= 6.
    Blocks of lanes are the lanes sharing `Shr(id, t)` (aligned runs of
    2^t lanes).  A 0-1 run is bitonic when it has no alternating
    subsequence of length four (it reads 0*1*0* or 1*0*1*). */
module ZeroOne {
  import opened Bits
  import opened Order
  import opened Network

  /** u before v in the order that a block with direction bit d wants. */
  predicate Ord(u: bool, v: bool, d: nat)
  {
    if d == 1 then (v ==> u) else (u ==> v)
  }

  predicate Alt(a: bool, b: bool, c: bool, d: bool)
  {
    a != b && b != c && c != d
  }

  /** Stage s in progress at granularity 2^t: inside every block of 2^s
      lanes, lanes in different sub-blocks of 2^t are already in the block's
      order (ascending when bit s of the id is 0, descending otherwise), and
      every sub-block of 2^t lanes is bitonic. */
  ghost predicate Inv(b: seq<bool>, s: nat, t: nat)
  {
    OrderedAcross(b, s, t) && BitonicBlocks(b, t)
  }

  ghost predicate OrderedAcross(b: seq<bool>, s: nat, t: nat)
  {
    forall x, y :: 0 <= x < y < |b| && Shr(x, s) == Shr(y, s) && Shr(x, t) != Shr(y, t) ==>
      OrdAt(b, s, x, y)
  }

  ghost predicate BitonicBlocks(b: seq<bool>, t: nat)
  {
    forall x, y, z, w :: 0 <= x < y < z < w < |b| && Shr(x, t) == Shr(w, t) ==>
      !AltAt(b, x, y, z, w)
  }

  /** Lanes x and y in the order of the block of 2^s containing x. */
  predicate OrdAt(b: seq<bool>, s: nat, x: nat, y: nat)
    requires x < |b| && y < |b|
  {
    Ord(b[x], b[y], Bit(x, s))
  }

  /** Lanes x, y, z, w alternate. */
  predicate AltAt(b: seq<bool>, x: nat, y: nat, z: nat, w: nat)
    requires x < |b| && y < |b| && z < |b| && w < |b|
  {
    Alt(b[x], b[y], b[z], b[w])
  }

  /** Before any stage every block of one lane is trivially sorted. */
  lemma InvStart(b: seq<bool>)
    ensures Inv(b, 0, 0)
  {
  }

  /** A whole warp of 2^n lanes, finished at stage n, is sorted ascending. */
  lemma InvDone(b: seq<bool>, n: nat)
    requires |b| == Pow2(n) && Inv(b, n, 0)
    ensures SortedBy(BoolLess, b)
  {
    forall x, y | 0 <= x < y < |b| ensures !BoolLess(b[y], b[x]) {
      ShrZero(x, n);
      ShrZero(y, n);
      assert Ord(b[x], b[y], Bit(x, n));
    }
  }

  /** Two neighbouring blocks of 2^s lanes sorted in opposite directions
      (ascending, then descending) form a bitonic block of 2^(s+1). */
  lemma InvNextStage(b: seq<bool>, s: nat)
    requires Inv(b, s, 0)
    ensures Inv(b, s + 1, s + 1)
  {
    forall x, y, z, w | 0 <= x < y < z < w < |b| && Shr(x, s + 1) == Shr(w, s + 1)
      ensures !Alt(b[x], b[y], b[z], b[w])
    {
      ShrMono(x, y, s); ShrMono(y, z, s); ShrMono(z, w, s);
      assert Shr(x, s) / 2 == Shr(w, s) / 2;
      var ex, ey, ez, ew := Bit(x, s), Bit(y, s), Bit(z, s), Bit(w, s);
      if ex == ey { SameBlockOrdered(b, s, x, y); }
      if ey == ez { SameBlockOrdered(b, s, y, z); }
      if ez == ew { SameBlockOrdered(b, s, z, w); }
      AscThenDescNoAlt(b[x], b[y], b[z], b[w], ex, ey, ez, ew);
    }
  }

  lemma SameBlockOrdered(b: seq<bool>, s: nat, u: nat, v: nat)
    requires Inv(b, s, 0) && u < v < |b| && Shr(u, s) == Shr(v, s)
    ensures Ord(b[u], b[v], Bit(u, s))
  {
  }

  /** Up to one ascending run (direction bit 0) followed by one descending
      run (direction bit 1) has no alternating subsequence of four. */
  lemma AscThenDescNoAlt(b0: bool, b1: bool, b2: bool, b3: bool, e0: nat, e1: nat, e2: nat, e3: nat)
    requires e0 <= e1 <= e2 <= e3 <= 1
    requires e0 == e1 ==> Ord(b0, b1, e0)
    requires e1 == e2 ==> Ord(b1, b2, e1)
    requires e2 == e3 ==> Ord(b2, b3, e2)
    ensures !Alt(b0, b1, b2, b3)
  {
  }

  /** Eight lanes a0 < .. < a3 < c0 < .. < c3 of one bitonic block: the
      four-lane patterns the half-cleaner argument needs are not alternating. */
  predicate Cleanable(a0: bool, a1: bool, a2: bool, a3: bool, c0: bool, c1: bool, c2: bool, c3: bool)
  {
    && !Alt(a0, a1, a2, a3) && !Alt(c0, c1, c2, c3)
    && !Alt(a0, a1, a2, c3) && !Alt(a0, a3, c0, c1)
    && !Alt(a0, a1, c2, c3) && !Alt(a2, a3, c0, c1)
  }

  /** The half-cleaner on eight such lanes: pairwise minima and pairwise
      maxima are bitonic. */
  lemma HalfCleanBitonic(a0: bool, a1: bool, a2: bool, a3: bool, c0: bool, c1: bool, c2: bool, c3: bool)
    requires Cleanable(a0, a1, a2, a3, c0, c1, c2, c3)
    ensures !Alt(a0 && c0, a1 && c1, a2 && c2, a3 && c3)
    ensures !Alt(a0 || c0, a1 || c1, a2 || c2, a3 || c3)
  {
  }

  lemma OrderedAt(b: seq<bool>, s: nat, t: nat, x: nat, y: nat)
    requires OrderedAcross(b, s, t)
    requires x < y < |b| && Shr(x, s) == Shr(y, s) && Shr(x, t) != Shr(y, t)
    ensures Ord(b[x], b[y], Bit(x, s))
  {
    assert OrdAt(b, s, x, y);
  }

  lemma BitonicAt(b: seq<bool>, t: nat, x: nat, y: nat, z: nat, w: nat)
    requires BitonicBlocks(b, t)
    requires x < y < z < w < |b| && Shr(x, t) == Shr(w, t)
    ensures !Alt(b[x], b[y], b[z], b[w])
  {
    assert !AltAt(b, x, y, z, w);
  }

  /** An active step on booleans: a lane whose direction is set keeps the
      larger of its own and its partner's bit, any other lane the smaller. */
  lemma BoolLane(b: seq<bool>, st: Step, x: nat)
    requires Active(st, |b|) && x < |b|
    ensures StepKeys(b, st, BoolLess)[x] == if Dir(st.rule, x) then b[x] || b[Partner(x, st.mask, |b|)] else b[x] && b[Partner(x, st.mask, |b|)]
  {
  }

  /** Lane x XOR 2^j of a warp of 2^n lanes, j < n: inside the warp, in the
      same block of 2^(j+1) and of 2^s lanes, in the neighbouring block of 2^j. */
  lemma LanePartner(x: nat, j: nat, s: nat, n: nat)
    requires x < Pow2(n) && j < n && j < s
    ensures && Xor(x, Pow2(j)) < Pow2(n) && Partner(x, Pow2(j), Pow2(n)) == Xor(x, Pow2(j))
      && Xor(x, Pow2(j)) == (if Bit(x, j) == 0 then x + Pow2(j) else x - Pow2(j))
      && Shr(Xor(x, Pow2(j)), j) == (if Bit(x, j) == 0 then Shr(x, j) + 1 else Shr(x, j) - 1)
      && Shr(Xor(x, Pow2(j)), j + 1) == Shr(x, j + 1) && Shr(Xor(x, Pow2(j)), s) == Shr(x, s)
  {
    FlipBit(x, j);
    XorPow2(x, j);
    var y := Xor(x, Pow2(j));
    assert Shr(y, n) == Shr(x, n);
    ShrZero(x, n);
    ShrZero(y, n);
  }

  /** The common hypotheses of one active step of stage s at mask 2^j. */
  ghost predicate StageStep(b: seq<bool>, st: Step, s: nat, j: nat, n: nat)
  {
    && |b| == Pow2(n) && j < s && j < n && st.mask == Pow2(j) && Active(st, |b|)
    && (forall x :: 0 <= x < |b| ==> Dir(st.rule, x) == (Bit(x, s) != Bit(x, j)))
  }

  /** One active step of stage s at mask 2^j halves the granularity of
      the stage invariant. */
  lemma StepInv(b: seq<bool>, st: Step, s: nat, j: nat, n: nat)
    requires StageStep(b, st, s, j, n) && Inv(b, s, j + 1)
    ensures Inv(StepKeys(b, st, BoolLess), s, j)
  {
    var o := StepKeys(b, st, BoolLess);
    forall x, y | 0 <= x < y < |o| && Shr(x, s) == Shr(y, s) && Shr(x, j) != Shr(y, j)
      ensures OrdAt(o, s, x, y)
    {
      StepOrdered(b, st, s, j, n, x, y);
    }
    forall x, y, z, w | 0 <= x < y < z < w < |o| && Shr(x, j) == Shr(w, j)
      ensures !AltAt(o, x, y, z, w)
    {
      StepBitonic(b, st, s, j, n, x, y, z, w);
    }
  }

  /** Pairwise minima or maxima keep an order that holds between all members. */
  lemma OrdCombine(a0: bool, a1: bool, c0: bool, c1: bool, d: nat, da: bool, dc: bool)
    requires Ord(a0, c0, d) && Ord(a0, c1, d) && Ord(a1, c0, d) && Ord(a1, c1, d)
    ensures Ord(if da then a0 || a1 else a0 && a1, if dc then c0 || c1 else c0 && c1, d)
  {
  }

  /** After the step, lanes in different blocks of 2^j are in order. */
  lemma StepOrdered(b: seq<bool>, st: Step, s: nat, j: nat, n: nat, x: nat, y: nat)
    requires StageStep(b, st, s, j, n) && Inv(b, s, j + 1)
    requires x < y < |b| && Shr(x, s) == Shr(y, s) && Shr(x, j) != Shr(y, j)
    ensures Ord(StepKeys(b, st, BoolLess)[x], StepKeys(b, st, BoolLess)[y], Bit(x, s))
  {
    ShrMono(x, y, j + 1);
    if Shr(x, j + 1) != Shr(y, j + 1) {
      StepOrderedApart(b, st, s, j, n, x, y);
    } else {
      StepOrderedSiblings(b, st, s, j, n, x, y);
    }
  }

  /** x and y lie in different blocks of 2^(j+1): so do their partners. */
  lemma StepOrderedApart(b: seq<bool>, st: Step, s: nat, j: nat, n: nat, x: nat, y: nat)
    requires StageStep(b, st, s, j, n) && OrderedAcross(b, s, j + 1)
    requires x < y < |b| && Shr(x, s) == Shr(y, s) && Shr(x, j + 1) != Shr(y, j + 1)
    ensures Ord(StepKeys(b, st, BoolLess)[x], StepKeys(b, st, BoolLess)[y], Bit(x, s))
  {
    ApartLanes(x, y, j, s, n);
    var px, py := Xor(x, Pow2(j)), Xor(y, Pow2(j));
    ApartOrd(b, s, j, x, y, px, py);
    ApartCombine(b, st, x, y, px, py, Bit(x, s));
  }

  /** u < v in one block of 2^s but in different blocks of 2^(j+1). */
  predicate ApartPair(u: nat, v: nat, s: nat, j: nat)
  {
    u < v && Shr(u, s) == Shr(v, s) && Shr(u, j + 1) != Shr(v, j + 1)
  }

  /** Lanes x < y in different blocks of 2^(j+1) of one block of 2^s, and
      their partners at mask 2^j: every lane of the pair {x, px} precedes
      every lane of {y, py} in the same way. */
  lemma ApartLanes(x: nat, y: nat, j: nat, s: nat, n: nat)
    requires x < y < Pow2(n) && j < n && j < s && Shr(x, s) == Shr(y, s) && Shr(x, j + 1) != Shr(y, j + 1)
    ensures Xor(x, Pow2(j)) < Pow2(n) && Xor(y, Pow2(j)) < Pow2(n)
    ensures Partner(x, Pow2(j), Pow2(n)) == Xor(x, Pow2(j)) && Partner(y, Pow2(j), Pow2(n)) == Xor(y, Pow2(j))
    ensures ApartPair(x, y, s, j) && ApartPair(x, Xor(y, Pow2(j)), s, j)
    ensures ApartPair(Xor(x, Pow2(j)), y, s, j) && ApartPair(Xor(x, Pow2(j)), Xor(y, Pow2(j)), s, j)
    ensures Bit(Xor(x, Pow2(j)), s) == Bit(x, s)
  {
    LanePartner(x, j, s, n);
    LanePartner(y, j, s, n);
    var px, py := Xor(x, Pow2(j)), Xor(y, Pow2(j));
    ShrMono(x, y, j + 1);
    BlockOrder(x, py, j + 1);
    BlockOrder(px, y, j + 1);
    BlockOrder(px, py, j + 1);
  }

  /** Lanes of an earlier block come first. */
  lemma BlockOrder(u: nat, v: nat, t: nat)
    requires Shr(u, t) < Shr(v, t)
    ensures u < v
  {
    if v <= u {
      ShrMono(v, u, t);
    }
  }

  lemma ApartOrd(b: seq<bool>, s: nat, j: nat, x: nat, y: nat, px: nat, py: nat)
    requires OrderedAcross(b, s, j + 1) && y < |b| && py < |b|
    requires ApartPair(x, y, s, j) && ApartPair(x, py, s, j) && ApartPair(px, y, s, j) && ApartPair(px, py, s, j)
    requires Bit(px, s) == Bit(x, s)
    ensures Ord(b[x], b[y], Bit(x, s)) && Ord(b[x], b[py], Bit(x, s))
    ensures Ord(b[px], b[y], Bit(x, s)) && Ord(b[px], b[py], Bit(x, s))
  {
    OrderedAt(b, s, j + 1, x, y);
    OrderedAt(b, s, j + 1, x, py);
    OrderedAt(b, s, j + 1, px, y);
    OrderedAt(b, s, j + 1, px, py);
  }

  /** If both lanes of one pair precede both lanes of the other, so does
      whatever the step keeps in x and in y. */
  lemma ApartCombine(b: seq<bool>, st: Step, x: nat, y: nat, px: nat, py: nat, d: nat)
    requires Active(st, |b|) && x < |b| && y < |b| && px < |b| && py < |b|
    requires Partner(x, st.mask, |b|) == px && Partner(y, st.mask, |b|) == py
    requires Ord(b[x], b[y], d) && Ord(b[x], b[py], d) && Ord(b[px], b[y], d) && Ord(b[px], b[py], d)
    ensures Ord(StepKeys(b, st, BoolLess)[x], StepKeys(b, st, BoolLess)[y], d)
  {
    BoolLane(b, st, x);
    BoolLane(b, st, y);
    OrdCombine(b[x], b[px], b[y], b[py], d, Dir(st.rule, x), Dir(st.rule, y));
  }

  /** x in the lower and y in the upper half of one block of 2^(j+1). */
  lemma StepOrderedSiblings(b: seq<bool>, st: Step, s: nat, j: nat, n: nat, x: nat, y: nat)
    requires StageStep(b, st, s, j, n) && BitonicBlocks(b, j + 1)
    requires x < y < |b| && Shr(x, s) == Shr(y, s) && Shr(x, j) != Shr(y, j)
    requires Shr(x, j + 1) == Shr(y, j + 1)
    ensures Ord(StepKeys(b, st, BoolLess)[x], StepKeys(b, st, BoolLess)[y], Bit(x, s))
  {
    var g := Pow2(j);
    SiblingLanes(x, y, j, s, n);
    SiblingsBits(b, j, n, x, y, Bit(x, s));
    BoolLane(b, st, x);
    BoolLane(b, st, y);
  }

  lemma SiblingsBits(b: seq<bool>, j: nat, n: nat, x: nat, y: nat, d: nat)
    requires |b| == Pow2(n) && BitonicBlocks(b, j + 1) && d <= 1
    requires x < y < |b| && y >= Pow2(j) && y - Pow2(j) < x + Pow2(j) && x + Pow2(j) < |b|
    requires Shr(x + Pow2(j), j + 1) == Shr(x, j + 1) && Shr(y - Pow2(j), j + 1) == Shr(x, j + 1)
    requires Shr(y, j + 1) == Shr(x, j + 1)
    ensures Ord(if d != 0 then b[x] || b[x + Pow2(j)] else b[x] && b[x + Pow2(j)],
                if d != 1 then b[y] || b[y - Pow2(j)] else b[y] && b[y - Pow2(j)], d)
  {
    var px, py := x + Pow2(j), y - Pow2(j);
    if x < py {
      BitonicAt(b, j + 1, x, py, px, y);
    } else if py < x {
      BitonicAt(b, j + 1, py, x, y, px);
    }
    SiblingsOrd(b[x], b[px], b[y], b[py], d, x < py, py < x);
  }

  /** Lanes x < y in the two halves of one block of 2^(j+1) and their partners. */
  lemma SiblingLanes(x: nat, y: nat, j: nat, s: nat, n: nat)
    requires x < y < Pow2(n) && j < n && j < s
    requires Shr(x, j) != Shr(y, j) && Shr(x, j + 1) == Shr(y, j + 1)
    ensures Bit(x, j) == 0 && Bit(y, j) == 1 && y >= Pow2(j)
    ensures Partner(x, Pow2(j), Pow2(n)) == x + Pow2(j) && Partner(y, Pow2(j), Pow2(n)) == y - Pow2(j)
    ensures Shr(x + Pow2(j), j + 1) == Shr(x, j + 1) && Shr(y - Pow2(j), j + 1) == Shr(x, j + 1)
    ensures y - Pow2(j) < x + Pow2(j)
  {
    var g := Pow2(j);
    LanePartner(x, j, s, n);
    LanePartner(y, j, s, n);
    ShrMono(x, y, j);
    assert Bit(x, j) == 0 && Bit(y, j) == 1;
    if y - g >= x + g { ShrMono(x + g, y - g, j); }
  }

  /** The half-cleaner's minimum side stays below its maximum side:
      lanes x < y of halves L and U with partners x + g and y - g. */
  lemma SiblingsOrd(bx: bool, bpx: bool, b1: bool, bpy: bool, d: nat, before: bool, after: bool)
    requires d <= 1
    requires before ==> !Alt(bx, bpy, bpx, b1)
    requires after ==> !Alt(bpy, bx, b1, bpx)
    requires !before && !after ==> bx == bpy && bpx == b1
    ensures Ord(if d != 0 then bx || bpx else bx && bpx, if d != 1 then b1 || bpy else b1 && bpy, d)
  {
  }

  /** Four lanes x < y < z < w of one block of 2^j and their partners. */
  lemma BlockLanes(x: nat, y: nat, z: nat, w: nat, j: nat, s: nat, n: nat)
    requires x < y < z < w < Pow2(n) && j < n && j < s && Shr(x, j) == Shr(w, j)
    ensures Bit(y, j) == Bit(x, j) && Bit(z, j) == Bit(x, j) && Bit(w, j) == Bit(x, j)
    ensures Bit(y, s) == Bit(x, s) && Bit(z, s) == Bit(x, s) && Bit(w, s) == Bit(x, s)
    ensures Shr(y, j + 1) == Shr(x, j + 1) && Shr(z, j + 1) == Shr(x, j + 1) && Shr(w, j + 1) == Shr(x, j + 1)
    ensures Bit(x, j) == 0 ==>
      && Partner(x, Pow2(j), Pow2(n)) == x + Pow2(j) && Partner(y, Pow2(j), Pow2(n)) == y + Pow2(j)
      && Partner(z, Pow2(j), Pow2(n)) == z + Pow2(j) && Partner(w, Pow2(j), Pow2(n)) == w + Pow2(j)
      && w < x + Pow2(j) && w + Pow2(j) < Pow2(n)
      && Shr(x + Pow2(j), j + 1) == Shr(x, j + 1) && Shr(w + Pow2(j), j + 1) == Shr(x, j + 1)
    ensures Bit(x, j) == 1 ==>
      && x >= Pow2(j)
      && Partner(x, Pow2(j), Pow2(n)) == x - Pow2(j) && Partner(y, Pow2(j), Pow2(n)) == y - Pow2(j)
      && Partner(z, Pow2(j), Pow2(n)) == z - Pow2(j) && Partner(w, Pow2(j), Pow2(n)) == w - Pow2(j)
      && w - Pow2(j) < x
      && Shr(x - Pow2(j), j + 1) == Shr(x, j + 1) && Shr(w - Pow2(j), j + 1) == Shr(x, j + 1)
  {
    BlockShared(x, y, z, w, j, s);
    BlockEnds(x, w, j, s, n);
    LanePartner(y, j, s, n);
    LanePartner(z, j, s, n);
  }

  /** Lanes of one block of 2^j share their bits j and s and their block of 2^(j+1). */
  lemma BlockShared(x: nat, y: nat, z: nat, w: nat, j: nat, s: nat)
    requires x < y < z < w && j < s && Shr(x, j) == Shr(w, j)
    ensures Bit(y, j) == Bit(x, j) && Bit(z, j) == Bit(x, j) && Bit(w, j) == Bit(x, j)
    ensures Bit(y, s) == Bit(x, s) && Bit(z, s) == Bit(x, s) && Bit(w, s) == Bit(x, s)
    ensures Shr(y, j + 1) == Shr(x, j + 1) && Shr(z, j + 1) == Shr(x, j + 1) && Shr(w, j + 1) == Shr(x, j + 1)
  {
    ShrBetween(x, y, w, j);
    ShrBetween(x, z, w, j);
    ShrAbove(x, y, j, s); ShrAbove(x, z, j, s); ShrAbove(x, w, j, s);
  }

  /** The first and last lane x <= w of one block of 2^j and their partners. */
  lemma BlockEnds(x: nat, w: nat, j: nat, s: nat, n: nat)
    requires x <= w < Pow2(n) && j < n && j < s && Shr(x, j) == Shr(w, j)
    ensures Bit(x, j) == 0 ==>
      && Partner(x, Pow2(j), Pow2(n)) == x + Pow2(j) && Partner(w, Pow2(j), Pow2(n)) == w + Pow2(j)
      && w < x + Pow2(j) && w + Pow2(j) < Pow2(n)
      && Shr(x + Pow2(j), j + 1) == Shr(x, j + 1) && Shr(w + Pow2(j), j + 1) == Shr(x, j + 1)
    ensures Bit(x, j) == 1 ==>
      && x >= Pow2(j)
      && Partner(x, Pow2(j), Pow2(n)) == x - Pow2(j) && Partner(w, Pow2(j), Pow2(n)) == w - Pow2(j)
      && w - Pow2(j) < x
      && Shr(x - Pow2(j), j + 1) == Shr(x, j + 1) && Shr(w - Pow2(j), j + 1) == Shr(x, j + 1)
  {
    if Bit(x, j) == 0 {
      BlockEndsLower(x, w, j, s, n);
    } else {
      BlockEndsUpper(x, w, j, s, n);
    }
  }

  /** The block lies in the lower half of its block of 2^(j+1). */
  lemma BlockEndsLower(x: nat, w: nat, j: nat, s: nat, n: nat)
    requires x <= w < Pow2(n) && j < n && j < s && Shr(x, j) == Shr(w, j) && Bit(x, j) == 0
    ensures Partner(x, Pow2(j), Pow2(n)) == x + Pow2(j) && Partner(w, Pow2(j), Pow2(n)) == w + Pow2(j)
    ensures w < x + Pow2(j) && w + Pow2(j) < Pow2(n)
    ensures Shr(x + Pow2(j), j + 1) == Shr(x, j + 1) && Shr(w + Pow2(j), j + 1) == Shr(x, j + 1)
  {
    LanePartner(x, j, s, n);
    LanePartner(w, j, s, n);
    BlockOrder(w, x + Pow2(j), j);
  }

  /** The block lies in the upper half of its block of 2^(j+1). */
  lemma BlockEndsUpper(x: nat, w: nat, j: nat, s: nat, n: nat)
    requires x <= w < Pow2(n) && j < n && j < s && Shr(x, j) == Shr(w, j) && Bit(x, j) != 0
    ensures x >= Pow2(j)
    ensures Partner(x, Pow2(j), Pow2(n)) == x - Pow2(j) && Partner(w, Pow2(j), Pow2(n)) == w - Pow2(j)
    ensures w - Pow2(j) < x
    ensures Shr(x - Pow2(j), j + 1) == Shr(x, j + 1) && Shr(w - Pow2(j), j + 1) == Shr(x, j + 1)
  {
    LanePartner(x, j, s, n);
    LanePartner(w, j, s, n);
    BlockOrder(w - Pow2(j), x, j);
  }

  /** The half-cleaner inside one bitonic block of 2^t: lanes x < y < z < w
      of its lower half against their partners x' < y' < z' < w' in its
      upper half. */
  lemma HalfCleanLanes(b: seq<bool>, t: nat, x: nat, y: nat, z: nat, w: nat,
                       x': nat, y': nat, z': nat, w': nat)
    requires BitonicBlocks(b, t)
    requires x < y < z < w < x' < y' < z' < w' < |b| && Shr(x, t) == Shr(w', t)
    ensures Cleanable(b[x], b[y], b[z], b[w], b[x'], b[y'], b[z'], b[w'])
  {
    HalfCleanOuter(b, t, x, y, z, w, x', y', z', w');
    HalfCleanInner(b, t, x, y, z, w, x', y', z', w');
  }

  lemma HalfCleanOuter(b: seq<bool>, t: nat, x: nat, y: nat, z: nat, w: nat,
                       x': nat, y': nat, z': nat, w': nat)
    requires BitonicBlocks(b, t)
    requires x < y < z < w < x' < y' < z' < w' < |b| && Shr(x, t) == Shr(w', t)
    ensures !Alt(b[x], b[y], b[z], b[w']) && !Alt(b[x], b[y], b[z'], b[w'])
    ensures !Alt(b[x], b[y], b[z], b[w])
  {
    BitonicAt(b, t, x, y, z, w');
    BitonicAt(b, t, x, y, z', w');
    ShrBetween(x, w, w', t);
    BitonicAt(b, t, x, y, z, w);
  }

  lemma HalfCleanInner(b: seq<bool>, t: nat, x: nat, y: nat, z: nat, w: nat,
                       x': nat, y': nat, z': nat, w': nat)
    requires BitonicBlocks(b, t)
    requires x < y < z < w < x' < y' < z' < w' < |b| && Shr(x, t) == Shr(w', t)
    ensures !Alt(b[x'], b[y'], b[z'], b[w']) && !Alt(b[x], b[w], b[x'], b[y'])
    ensures !Alt(b[z], b[w], b[x'], b[y'])
  {
    ShrBetween(x, x', w', t);
    BitonicAt(b, t, x', y', z', w');
    ShrBetween(x, y', w', t);
    BitonicAt(b, t, x, w, x', y');
    ShrBetween(x, z, w', t);
    BitonicAt(b, t, z, w, x', y');
  }

  /** After the step, every block of 2^j lanes is bitonic. */
  lemma StepBitonic(b: seq<bool>, st: Step, s: nat, j: nat, n: nat, x: nat, y: nat, z: nat, w: nat)
    requires |b| == Pow2(n) && j < s && j < n && st.mask == Pow2(j) && Active(st, |b|)
    requires BitonicBlocks(b, j + 1)
    requires Dir(st.rule, x) == (Bit(x, s) != Bit(x, j)) && Dir(st.rule, y) == (Bit(y, s) != Bit(y, j))
    requires Dir(st.rule, z) == (Bit(z, s) != Bit(z, j)) && Dir(st.rule, w) == (Bit(w, s) != Bit(w, j))
    requires x < y < z < w < |b| && Shr(x, j) == Shr(w, j)
    ensures !Alt(StepKeys(b, st, BoolLess)[x], StepKeys(b, st, BoolLess)[y], StepKeys(b, st, BoolLess)[z], StepKeys(b, st, BoolLess)[w])
  {
    BlockLanes(x, y, z, w, j, s, n);
    var g := Pow2(j);
    var up := Bit(x, j) == 0;
    var px := if up then x + g else x - g;
    var py := if up then y + g else y - g;
    var pz := if up then z + g else z - g;
    var pw := if up then w + g else w - g;
    HalfCleanPaired(b, j, x, y, z, w, px, py, pz, pw, up);
    PairedLanes(b, st, x, y, z, w, px, py, pz, pw, Dir(st.rule, x), up);
  }

  /** The half-cleaner facts for four lanes of one block of 2^j and their partners. */
  lemma HalfCleanPaired(b: seq<bool>, j: nat, x: nat, y: nat, z: nat, w: nat,
                        px: nat, py: nat, pz: nat, pw: nat, up: bool)
    requires BitonicBlocks(b, j + 1) && x < y < z < w < |b|
    requires up ==> px == x + Pow2(j) && py == y + Pow2(j) && pz == z + Pow2(j) && pw == w + Pow2(j)
    requires up ==> w < x + Pow2(j) && w + Pow2(j) < |b|
    requires up ==> Shr(x + Pow2(j), j + 1) == Shr(x, j + 1) && Shr(w + Pow2(j), j + 1) == Shr(x, j + 1)
    requires !up ==> x >= Pow2(j) && px == x - Pow2(j) && py == y - Pow2(j) && pz == z - Pow2(j) && pw == w - Pow2(j)
    requires !up ==> w - Pow2(j) < x
    requires !up ==> Shr(x - Pow2(j), j + 1) == Shr(x, j + 1) && Shr(w - Pow2(j), j + 1) == Shr(x, j + 1)
    requires Shr(w, j + 1) == Shr(x, j + 1)
    ensures if up then Cleanable(b[x], b[y], b[z], b[w], b[px], b[py], b[pz], b[pw])
      else Cleanable(b[px], b[py], b[pz], b[pw], b[x], b[y], b[z], b[w])
  {
    if up {
      HalfCleanUpper(b, j, px, py, pz, pw, x, y, z, w);
    } else {
      HalfCleanUpper(b, j, x, y, z, w, px, py, pz, pw);
    }
  }

  /** Lanes px < .. < pw of the lower half of a block of 2^(j+1) against
      their partners x = px + 2^j, and so on, in its upper half. */
  lemma HalfCleanUpper(b: seq<bool>, j: nat, x: nat, y: nat, z: nat, w: nat,
                       px: nat, py: nat, pz: nat, pw: nat)
    requires BitonicBlocks(b, j + 1) && x < y < z < w < |b|
    requires px + Pow2(j) == x && py + Pow2(j) == y && pz + Pow2(j) == z && pw + Pow2(j) == w
    requires pw < x
    requires Shr(px, j + 1) == Shr(x, j + 1) && Shr(pw, j + 1) == Shr(x, j + 1)
    requires Shr(w, j + 1) == Shr(x, j + 1)
    ensures Cleanable(b[px], b[py], b[pz], b[pw], b[x], b[y], b[z], b[w])
  {
    HalfCleanLanes(b, j + 1, px, py, pz, pw, x, y, z, w);
  }

  /** Four lanes that share a direction, combined with their partners. */
  lemma PairedLanes(b: seq<bool>, st: Step, x: nat, y: nat, z: nat, w: nat,
                    px: nat, py: nat, pz: nat, pw: nat, d: bool, up: bool)
    requires Active(st, |b|) && x < |b| && y < |b| && z < |b| && w < |b|
    requires Partner(x, st.mask, |b|) == px && Partner(y, st.mask, |b|) == py
    requires Partner(z, st.mask, |b|) == pz && Partner(w, st.mask, |b|) == pw
    requires Dir(st.rule, x) == d && Dir(st.rule, y) == d && Dir(st.rule, z) == d && Dir(st.rule, w) == d
    requires px < |b| && py < |b| && pz < |b| && pw < |b|
    requires if up then Cleanable(b[x], b[y], b[z], b[w], b[px], b[py], b[pz], b[pw])
      else Cleanable(b[px], b[py], b[pz], b[pw], b[x], b[y], b[z], b[w])
    ensures !Alt(StepKeys(b, st, BoolLess)[x], StepKeys(b, st, BoolLess)[y], StepKeys(b, st, BoolLess)[z], StepKeys(b, st, BoolLess)[w])
  {
    var o := StepKeys(b, st, BoolLess);
    if up {
      HalfCleanBitonic(b[x], b[y], b[z], b[w], b[px], b[py], b[pz], b[pw]);
    } else {
      HalfCleanBitonic(b[px], b[py], b[pz], b[pw], b[x], b[y], b[z], b[w]);
    }
    BoolLane(b, st, x); BoolLane(b, st, y);
    BoolLane(b, st, z); BoolLane(b, st, w);
    CombineAlt(o[x], o[y], o[z], o[w], b[x], b[y], b[z], b[w], b[px], b[py], b[pz], b[pw], d);
  }

  lemma CombineAlt(o0: bool, o1: bool, o2: bool, o3: bool, a0: bool, a1: bool, a2: bool, a3: bool,
                   c0: bool, c1: bool, c2: bool, c3: bool, d: bool)
    requires o0 == (if d then a0 || c0 else a0 && c0) && o1 == (if d then a1 || c1 else a1 && c1)
    requires o2 == (if d then a2 || c2 else a2 && c2) && o3 == (if d then a3 || c3 else a3 && c3)
    requires !Alt(a0 && c0, a1 && c1, a2 && c2, a3 && c3)
    requires !Alt(a0 || c0, a1 || c1, a2 || c2, a3 || c3)
    ensures !Alt(o0, o1, o2, o3)
  {
  }

  /** Stage s, 1 <= s < n, run from granularity 2^t down to single lanes. */
  lemma {:induction false} BuildCascadeInv(b: seq<bool>, s: nat, t: nat, n: nat)
    requires |b| == Pow2(n) && 1 <= s < n && t <= s && Inv(b, s, t)
    ensures Inv(RunKeys(b, BuildCascade(s, t), BoolLess), s, 0)
    decreases t
  {
    if t > 0 {
      var j := t - 1;
      var st := Step(Pow2(s), Pow2(j), BitsDiffer(s, j));
      BuildStageStep(b, s, j, n);
      StepInv(b, st, s, j, n);
      var c := BuildCascade(s, t);
      assert c[0] == st && c[1..] == BuildCascade(s, j);
      BuildCascadeInv(StepKeys(b, st, BoolLess), s, j, n);
    }
  }

  /** A step of building stage s < n is active on a warp of 2^n lanes. */
  lemma BuildStageStep(b: seq<bool>, s: nat, j: nat, n: nat)
    requires |b| == Pow2(n) && s < n && j < s
    ensures StageStep(b, Step(Pow2(s), Pow2(j), BitsDiffer(s, j)), s, j, n)
  {
    Pow2Mono(s, n);
  }

  /** After the building stages 1 .. k, k < n, stage k is complete. */
  lemma {:induction false} BuildInv(b: seq<bool>, k: nat, n: nat)
    requires |b| == Pow2(n) && k < n
    ensures Inv(RunKeys(b, Build(k), BoolLess), k, 0)
  {
    if k == 0 {
      InvStart(b);
    } else {
      BuildInv(b, k - 1, n);
      var c := RunKeys(b, Build(k - 1), BoolLess);
      InvNextStage(c, k - 1);
      BuildCascadeInv(c, k, k, n);
      RunKeysAppend(b, Build(k - 1), BuildCascade(k, k), BoolLess);
    }
  }

  /** The final merge of a warp of 2^n lanes from granularity 2^t down. */
  lemma {:induction false} FinalCascadeInv(b: seq<bool>, t: nat, n: nat)
    requires |b| == Pow2(n) && t <= n && Inv(b, n, t)
    ensures Inv(RunKeys(b, FinalCascade(t), BoolLess), n, 0)
    decreases t
  {
    if t > 0 {
      var j := t - 1;
      var st := Step(if j == 0 then 0 else Pow2(j), Pow2(j), BitSet(j));
      Pow2Mono(j, n);
      forall x | 0 <= x < |b| ensures Dir(st.rule, x) == (Bit(x, n) != Bit(x, j)) {
        ShrZero(x, n);
      }
      assert StageStep(b, st, n, j, n);
      StepInv(b, st, n, j, n);
      var c := FinalCascade(t);
      assert c[0] == st && c[1..] == FinalCascade(j);
      FinalCascadeInv(StepKeys(b, st, BoolLess), j, n);
    }
  }

  /** The 0-1 case of the main theorem: the schedule sorts every boolean
      warp of 2^n lanes, n <= 6, ascending. */
  lemma ZeroOneSorted(b: seq<bool>, n: nat)
    requires |b| == Pow2(n) && n <= 6
    ensures SortedBy(BoolLess, RunKeys(b, Schedule, BoolLess))
  {
    if n > 0 {
      ScheduleStages();
      RunKeysAppend(b, Build(5), FinalCascade(6), BoolLess);
      PhasesSorted(b, n - 1, n, 5, 6);
    }
  }

  /** The building phase runs stages 1 .. m, the final merge stage
      n = m + 1; the later stages of either phase do nothing. */
  lemma PhasesSorted(b: seq<bool>, m: nat, n: nat, k: nat, t: nat)
    requires |b| == Pow2(n) && n == m + 1 && m <= k && n <= t
    ensures SortedBy(BoolLess, RunKeys(RunKeys(b, Build(k), BoolLess), FinalCascade(t), BoolLess))
  {
    var c := RunKeys(b, Build(m), BoolLess);
    BuildSkip(b, k, m, n, BoolLess);
    FinalSkip(c, t, n, BoolLess);
    BuildInv(b, m, n);
    MergeSorted(c, m, n);
  }

  /** Stage m complete, the final merge sorts the whole warp of 2^(m+1) lanes. */
  lemma MergeSorted(c: seq<bool>, m: nat, n: nat)
    requires |c| == Pow2(n) && n == m + 1 && Inv(c, m, 0)
    ensures SortedBy(BoolLess, RunKeys(c, FinalCascade(n), BoolLess))
  {
    InvNextStage(c, m);
    FinalCascadeInv(c, n, n);
    InvDone(RunKeys(c, FinalCascade(n), BoolLess), n);
  }
}
