// What core_list_init hands to the benchmark: where its header and sentinel end up, and which seeds give every
// item its own idx (benchmarks/coremark/core_list_join.c).

module InitOrder {
  import opened Words
  import opened Cells
  import opened SortSpec
  import opened FindLoop
  import opened BenchList
  import opened Restoration
  import opened ListInit
  import CoreMain

  lemma SixBits(a: nat)
    ensures Low(a, 6) == a % 0x40
  {
    FourBits(a, 2);
    TwoBits(a / 0x10, 0);
    var q, r, u := a / 0x10 / 4, a / 0x10 % 4, a % 0x10;
    assert a / 0x10 == 4 * q + r;
    assert a == 0x40 * q + (0x10 * r + u);
    QuotientUnique(0x40, q, 0x10 * r + u);
  }

  lemma {:induction false} ZeroLow(k: nat)
    ensures Low(0, k) == 0
  {
    if k > 0 {
      ZeroLow(k - 1);
    }
  }

  // the pattern of a mixed item
  lemma PatBytes(seed: U16, p: nat)
    ensures var pat := Xor(p, seed, 16);
            pat % 0x100 == Xor(p, seed, 8) && pat / 0x100 == Xor(p / 0x100, seed / 0x100, 8)
  {
    XorParts(p, seed, 8, 8);
    ByteParts(p);
    ByteParts(seed);
    ByteParts(Xor(p, seed, 16));
  }

  lemma OrBytes(h: nat, pat: nat)
    ensures var x := Or(h * 0x100, pat, 14); x % 0x100 == pat % 0x100 && x / 0x100 == Or(h, pat / 0x100, 6)
  {
    OrParts(h * 0x100, pat, 8, 6);
    ByteParts(pat);
    ByteParts(h * 0x100);
    ByteParts(Or(h * 0x100, pat, 14));
    OrNone(h * 0x100, pat, 8);
  }

  // The idx of a mixed item at a position p, and its two bytes
  function MixedAt(seed: U16, p: nat): S16 { MixedIdx(p + 1, Xor(p, seed, 16)) }

  lemma MixedParts(seed: U16, p: nat)
    ensures var x := MixedAt(seed, p);
            x % 0x100 == Xor(p, seed, 8) && x / 0x100 == Or((p + 1) % 8, Xor(p / 0x100, seed / 0x100, 8), 6)
  {
    var h, pat := (p + 1) % 8, Xor(p, seed, 16);
    PatBytes(seed, p);
    OrBytes(h, pat);
    assert MixedAt(seed, p) == Or(h * 0x100, pat, 14);
  }

  /** The idx of a mixed item: its low byte mixes position and seed; every eighth item gets no more than the two mixed,
      and all others get more than a byte. */
  lemma MixedBytes(seed: U16, p: nat)
    ensures var x := MixedAt(seed, p);
            x % 0x100 == Xor(p, seed, 8) && if p % 8 == 7 then x == Xor(p, seed, 14) else x >= 0x100
  {
    MixedParts(seed, p);
    if p % 8 == 7 {
      MixedEighth(seed, p);
    } else {
      MixedOther(seed, p);
    }
  }

  lemma MixedEighth(seed: U16, p: nat)
    requires p % 8 == 7
    ensures MixedAt(seed, p) == Xor(p, seed, 14)
  {
    var pat := Xor(p, seed, 16);
    assert (p + 1) % 8 * 0x100 == 0;
    ZeroLow(14);
    OrNone(0, pat, 14);
    XorParts(p, seed, 14, 2);
  }

  lemma MixedOther(seed: U16, p: nat)
    requires p % 8 != 7
    ensures MixedAt(seed, p) >= 0x100
  {
    var h, x := (p + 1) % 8, MixedAt(seed, p);
    MixedParts(seed, p);
    OrZero(h, Xor(p / 0x100, seed / 0x100, 8), 6);
    SixBits(h);
    NotEighth(p);
    OverAByte(x);
  }

  lemma NotEighth(p: nat)
    requires p % 8 != 7
    ensures (p + 1) % 8 % 0x40 != 0
  {
  }

  lemma OverAByte(x: nat)
    ensures x / 0x100 != 0 <==> x >= 0x100
  {
  }

  // ---- Which lists have ties

  /** A mixed item gets an idx of the first fifth. */
  ghost predicate Collides(size: nat, seed: U16) {
    exists p :: size / 5 <= p < size - 2 && CollidesAt(size, seed, p)
  }

  predicate CollidesAt(size: nat, seed: U16, p: nat) { p % 8 == 7 && Xor(p, seed, 14) < size / 5 }

  // The most cells of a block whose mixed items can all get their own idx: with more, a low byte comes twice.
  const LONGEST: nat := 322

  function InitIdx(size: nat, seed: U16, p: nat): S16
    requires size >= 3 && p < size - 1
  {
    InitItem(size, seed, p).idx
  }

  // The first fifth, the mixed items and the sentinel
  lemma FirstIdx(size: nat, seed: U16, p: nat)
    requires 3 <= size <= LONGEST && p < size / 5
    ensures p < size - 2 && InitIdx(size, seed, p) == p
  {
  }

  predicate Mixed(size: nat, p: nat) { 0 < p < size - 2 && size / 5 <= p }

  lemma MixedIs(size: nat, seed: U16, p: nat)
    requires 3 <= size && Mixed(size, p)
    ensures InitIdx(size, seed, p) == MixedAt(seed, p) < 0x4000
  {
  }

  lemma MixedCollides(size: nat, seed: U16, p: nat)
    requires 3 <= size <= LONGEST && Mixed(size, p)
    ensures InitIdx(size, seed, p) < size / 5 <==> CollidesAt(size, seed, p)
  {
    MixedIs(size, seed, p);
    MixedBytes(seed, p);
  }

  lemma {:induction false} XorLow(a: nat, b: nat, s: nat, k: nat)
    requires Low(a, k) == Low(b, k)
    ensures Xor(a, s, k) == Xor(b, s, k)
  {
    if k > 0 {
      XorLow(a / 2, b / 2, s / 2, k - 1);
    }
  }

  lemma MixedDiffer(size: nat, seed: U16, i: nat, j: nat)
    requires 3 <= size <= LONGEST && i < j && Mixed(size, i) && Mixed(size, j)
    ensures InitIdx(size, seed, i) != InitIdx(size, seed, j)
  {
    MixedIs(size, seed, i);
    MixedIs(size, seed, j);
    MixedBytes(seed, i);
    MixedBytes(seed, j);
    if Xor(i, seed, 8) == Xor(j, seed, 8) {
      XorInjective(i, j, seed, 8);
      ByteParts(i);
      ByteParts(j);
      ByteDiffers(i, j);
    }
  }

  lemma ByteDiffers(i: nat, j: nat)
    requires i < j < i + 0x100
    ensures i % 0x100 != j % 0x100
  {
  }

  lemma DifferentIdx(size: nat, seed: U16, i: nat, j: nat)
    requires 3 <= size <= LONGEST && i < j < size - 1 && !Collides(size, seed)
    ensures InitIdx(size, seed, i) != InitIdx(size, seed, j)
  {
    if j < size / 5 {
      FirstIdx(size, seed, i);
      FirstIdx(size, seed, j);
    } else if j == size - 2 {
      if Mixed(size, i) {
        MixedIs(size, seed, i);
      } else if i < size / 5 {
        FirstIdx(size, seed, i);
      }
    } else if Mixed(size, i) {
      MixedDiffer(size, seed, i, j);
    } else {
      HeadDiffers(size, seed, i, j);
    }
  }

  // the header, or an item of the first fifth, and a mixed one
  lemma HeadDiffers(size: nat, seed: U16, i: nat, j: nat)
    requires 3 <= size <= LONGEST && i < j && !Mixed(size, i) && Mixed(size, j) && !Collides(size, seed)
    ensures InitIdx(size, seed, i) != InitIdx(size, seed, j)
  {
    MixedCollides(size, seed, j);
    assert !CollidesAt(size, seed, j);
    if i < size / 5 {
      FirstIdx(size, seed, i);
    } else {
      MixedIs(size, seed, j);
      MixedBytes(seed, j);
      assert i == 0 && size < 5 && j == 1;
    }
  }

  // In a longer block, two mixed items 256 apart get the same idx:
  lemma WrapTie(seed: U16, p: nat)
    requires p % 2 == 0 && p / 0x100 % 2 == 0
    ensures MixedAt(seed, p) == MixedAt(seed, p + 0x100)
  {
    var x, y := MixedAt(seed, p), MixedAt(seed, p + 0x100);
    MixedParts(seed, p);
    MixedParts(seed, p + 0x100);
    FurtherOn(p);
    SameLowByte(seed, p);
    OddOr((p + 1) % 8, p / 0x100, seed / 0x100);
    SameBytes(x, y);
  }

  lemma SameLowByte(seed: U16, p: nat)
    ensures Xor(p, seed, 8) == Xor(p + 0x100, seed, 8)
  {
    ByteParts(p);
    ByteParts(p + 0x100);
    FurtherOn(p);
    XorLow(p, p + 0x100, seed, 8);
  }

  lemma FurtherOn(p: nat)
    ensures (p + 0x100) % 0x100 == p % 0x100 && (p + 0x100) / 0x100 == p / 0x100 + 1
    ensures (p + 0x100 + 1) % 8 == (p + 1) % 8 && (p % 2 == 0 ==> (p + 1) % 8 % 2 == 1)
  {
    QuotientUnique(0x100, p / 0x100 + 1, p % 0x100);
    QuotientUnique(8, (p + 1) / 8 + 0x20, (p + 1) % 8);
    OddEighth(p + 1);
  }

  lemma OddEighth(a: nat)
    ensures a % 8 % 2 == a % 2
  {
    var q, r := a / 8, a % 8;
    assert a == 8 * q + r;
    QuotientUnique(2, 4 * q + r / 2, r % 2);
  }

  lemma SameBytes(x: nat, y: nat)
    requires x % 0x100 == y % 0x100 && x / 0x100 == y / 0x100
    ensures x == y
  {
  }

  lemma OddOr(h: nat, q: nat, t: nat)
    requires h % 2 == 1 && q % 2 == 0
    ensures Or(h, Xor(q, t, 8), 6) == Or(h, Xor(q + 1, t, 8), 6)
  {
    XorHead(q, t, 8);
    XorHead(q + 1, t, 8);
    assert (q + 1) / 2 == q / 2;
  }

  // the first of these
  function Wrapping(size: nat): (p: nat) {
    var n := size / 5;
    if n < 0xff then n + n % 2 else (n + 0x1ff) / 0x200 * 0x200
  }

  lemma WrappingPlace(size: nat)
    requires size > LONGEST
    ensures var p := Wrapping(size); Mixed(size, p) && Mixed(size, p + 0x100) && p % 2 == 0 && p / 0x100 % 2 == 0
  {
    var n, p := size / 5, Wrapping(size);
    if n < 0xff {
      assert p < 0x100;
    } else {
      var k: nat := (n + 0x1ff) / 0x200;
      EvenPlace(k);
      assert p == 0x200 * k && n <= p <= n + 0x1ff;
    }
  }

  lemma EvenPlace(k: nat)
    ensures 0x200 * k % 2 == 0 && 0x200 * k / 0x100 % 2 == 0
  {
    QuotientUnique(0x100, 2 * k, 0);
    QuotientUnique(2, 0x100 * k, 0);
  }

  /** All idx are different exactly if the block has at most 322 cells and none of its mixed items collides with the
      first fifth. */
  lemma TiesExactly(size: nat, seed: U16)
    requires size >= 3
    ensures NoTies(InitItems(size, seed)) <==> size <= LONGEST && !Collides(size, seed)
  {
    var items := InitItems(size, seed);
    if size > LONGEST {
      var p := Wrapping(size);
      WrappingPlace(size);
      WrapTie(seed, p);
      MixedIs(size, seed, p);
      MixedIs(size, seed, p + 0x100);
      assert items[p].idx == items[p + 0x100].idx;
    } else if Collides(size, seed) {
      var p :| size / 5 <= p < size - 2 && CollidesAt(size, seed, p);
      TieAt(size, seed, p);
      var i := Xor(p, seed, 14);
      assert items[i].idx == items[p].idx;
    } else {
      forall i, j | 0 <= i < j < |items|
        ensures items[i].idx != items[j].idx
      {
        DifferentIdx(size, seed, i, j);
      }
    }
  }

  lemma TieAt(size: nat, seed: U16, p: nat)
    requires 3 <= size <= LONGEST && Mixed(size, p) && CollidesAt(size, seed, p)
    ensures var i := Xor(p, seed, 14); i < p && InitIdx(size, seed, i) == InitIdx(size, seed, p)
  {
    FirstIdx(size, seed, Xor(p, seed, 14));
    MixedIs(size, seed, p);
    MixedBytes(seed, p);
  }

  // Sorting keeps the ties.
  lemma SortedTies(items: seq<Item>, t: seq<nat>, last: seq<Item>)
    requires BackSorted(items, t, last)
    ensures NoTies(last) <==> NoTies(items)
  {
    if NoTies(last) {
      forall i, j | 0 <= i < j < |items|
        ensures items[i].idx != items[j].idx
      {
        PermutesOnto(t, |items|, i);
        PermutesOnto(t, |items|, j);
        var x :| 0 <= x < |t| && t[x] == i;
        var y :| 0 <= y < |t| && t[y] == j;
        assert last[x].idx == items[i].idx && last[y].idx == items[j].idx;
      }
    }
  }

  /** The list that core_list_init returns is one that `iterate` can work on, exactly if nothing collides. */
  lemma InitIsFresh(size: nat, seed: U16, t: seq<nat>, last: seq<Item>)
    requires size >= 3 && BackSorted(InitItems(size, seed), t, last)
    ensures CoreMain.Fresh(last) <==> size <= LONGEST && !Collides(size, seed)
  {
    var items := InitItems(size, seed);
    TiesExactly(size, seed);
    SortedTies(items, t, last);
    BackSortedByIdx(items, t, last);
    IncreasingIsUntied(last);
    InitIntactLast(size, seed, t, last);
  }

  lemma InitIntactLast(size: nat, seed: U16, t: seq<nat>, last: seq<Item>)
    requires size >= 3 && BackSorted(InitItems(size, seed), t, last)
    ensures forall k {:trigger CoreMain.Intact(last, k)} :: 0 <= k < |last| ==> CoreMain.Intact(last, k)
  {
    forall k | 0 <= k < |last|
      ensures CoreMain.Intact(last, k)
    {
      assert last[k] == AllRebuilt(InitItems(size, seed))[t[k]];
    }
  }

  /** Every call, whatever it looks for and its kernels compute, restores the initialised list exactly if the block has
      at most 322 cells and nothing collides. */
  lemma InitIsRestored(size: nat, seed: U16, t: seq<nat>, last: seq<Item>)
    requires size >= 3 && BackSorted(InitItems(size, seed), t, last)
    ensures (forall c: Call, idx: S16, n: nat :: IsCall(c, last, idx, n) ==> OrderAfter(c) == Identity(size - 1))
       <==> size <= LONGEST && !Collides(size, seed)
  {
    InitIsFresh(size, seed, t, last);
    InitIntactLast(size, seed, t, last);
    BackSortedByIdx(InitItems(size, seed), t, last);
    AlwaysRestored(last);
  }

  // The item before, or behind, all others ends up first, or last.
  lemma FirstStays(o: Order, v: View, t: seq<nat>, x: nat)
    requires Permutes(t, |v|) && Sorted(o, v, t, 0, |t|) && x < |v|
    requires forall y :: 0 <= y < |v| && y != x ==> Before(o, v, x, y)
    ensures t[0] == x
  {
    PermutesOnto(t, |v|, x);
    var i :| 0 <= i < |t| && t[i] == x;
    var y := t[0];
    assert y == x || Before(o, v, x, y);
  }

  lemma LastStays(o: Order, v: View, t: seq<nat>, x: nat)
    requires Permutes(t, |v|) && Sorted(o, v, t, 0, |t|) && x < |v|
    requires forall y :: 0 <= y < |v| && y != x ==> Before(o, v, y, x)
    ensures t[|t| - 1] == x
  {
    PermutesOnto(t, |v|, x);
    var i :| 0 <= i < |t| && t[i] == x;
    var y := t[|t| - 1];
    assert y == x || Before(o, v, y, x);
  }

  lemma IdxInRange(size: nat, seed: U16, p: nat)
    requires 3 <= size && p < size - 1
    ensures InitItem(size, seed, p).idx <= 0x7fff && (size / 5 <= 0x8000 ==> InitItem(size, seed, p).idx >= 0)
  {
  }

  /** The sentinel stays last, whatever the other items get, because the sort is stable; and for the same reason the
      header stays first, unless the first fifth is so long that its idx leave the 16-bit range. */
  lemma EndsStay(size: nat, seed: U16, t: seq<nat>, last: seq<Item>)
    requires 3 <= size && BackSorted(InitItems(size, seed), t, last)
    ensures |last| == size - 1 && t[size - 2] == size - 2 && last[size - 2] == Sentinel()
    ensures t[0] == 0 <==> size / 5 <= 0x8000
    ensures t[0] == 0 ==> last[0] == Header()
  {
    var items := AllRebuilt(InitItems(size, seed));
    forall p | 0 <= p < size - 1
      ensures items[p].idx <= 0x7fff && (size / 5 <= 0x8000 ==> items[p].idx >= 0)
    {
      IdxInRange(size, seed, p);
    }
    LastStays(ByIdxRebuild, items, t, size - 2);
    if size / 5 <= 0x8000 {
      FirstStays(ByIdxRebuild, items, t, 0);
    } else {
      NegativeFirst(size, seed, t);
    }
  }

  // the item with the idx -0x8000 comes before the header
  lemma NegativeFirst(size: nat, seed: U16, t: seq<nat>)
    requires size / 5 > 0x8000 && Permutes(t, size - 1)
    requires Sorted(ByIdxRebuild, AllRebuilt(InitItems(size, seed)), t, 0, |t|)
    ensures t[0] != 0
  {
    var items := AllRebuilt(InitItems(size, seed));
    PermutesOnto(t, size - 1, 0x8000);
    var i :| 0 <= i < |t| && t[i] == 0x8000;
    assert items[0x8000].idx == ToS16(0x8000) == -0x8000;
    assert i > 0 ==> Before(ByIdxRebuild, items, t[0], t[i]);
  }

  /** All cells and data fit the block, 16 bytes for each list_head at most and 4 for its data. */
  lemma BytesFit(blksize: nat, headSize: nat)
    requires SizeOf(blksize) >= 0 && headSize <= 16
    ensures SizeOf(blksize) * (headSize + 4) + 40 <= blksize
  {
    var size, n := SizeOf(blksize), headSize + 4;
    assert size * n <= size * 20 by {
      assert size * (20 - n) >= 0;
    }
  }

  /** Seed 0, that of CoreMark's performance run, makes no ties in a block that is short enough; */
  lemma SeedZero(size: nat)
    requires size >= 3
    ensures NoTies(InitItems(size, 0)) <==> size <= LONGEST
  {
    TiesExactly(size, 0);
    if size <= LONGEST {
      forall p | size / 5 <= p < size - 2
        ensures !CollidesAt(size, 0, p)
      {
        XorNothing(p, 14);
        SmallLow(p, 14);
      }
    }
  }

  lemma {:induction false} SmallLow(a: nat, k: nat)
    requires a < Pow2(k) || (k == 14 && a < 0x4000)
    ensures Low(a, k) == a
  {
    if k == 14 {
      assert Pow2(14) == 0x4000 by { assert Pow2(4) == 16; assert Pow2(8) == 256; assert Pow2(12) == 0x1000; }
    }
    if k > 0 {
      SmallLow(a / 2, k - 1);
    }
  }

  /** seed 6 does, in a block of 666 bytes. */
  lemma SeedSix()
    ensures SizeOf(666) == 31 && Collides(31, 6)
  {
    assert Xor(7, 6, 14) == 1 + 2 * Xor(3, 3, 13);
    XorSelf(3, 13);
    assert CollidesAt(31, 6, 7);
  }

  // ---- A list that is not restored

  // No item has the data byte 0 unless the seed's lowest three bits are 0.
  lemma DataNotZero(size: nat, seed: U16, p: nat)
    requires size >= 3 && p < size - 1 && seed % 8 != 0
    ensures InitItem(size, seed, p).data16.lo != 0
  {
    if 0 < p < size - 2 {
      var i: nat := size - 3 - p;
      if DataOf(seed, i).lo == 0 {
        SeedDiffers(seed, i);
      }
    }
  }

  lemma SeedDiffers(seed: U16, i: nat)
    requires seed % 8 != 0 && i % 8 == 0
    ensures Xor(seed, i, 4) != 0
  {
    if Xor(seed, i, 4) == 0 {
      XorZero(seed, i, 4);
      FourBits(seed, 0);
      FourBits(i, 0);
      EighthOf(seed);
      EighthOf(i);
    }
  }

  lemma EighthOf(a: nat)
    ensures a % 8 == if a % 0x10 < 8 then a % 0x10 else a % 0x10 - 8
  {
    var q, r := a / 0x10, a % 0x10;
    assert a == 0x10 * q + r;
    if r < 8 {
      QuotientUnique(8, 2 * q, r);
    } else {
      QuotientUnique(8, 2 * q + 1, r - 8);
    }
  }

  lemma {:induction false} XorZero(a: nat, b: nat, k: nat)
    requires Xor(a, b, k) == 0
    ensures Low(a, k) == Low(b, k)
  {
    if k > 0 {
      XorZero(a / 2, b / 2, k - 1);
    }
  }

  lemma ZeroNotFound(size: nat, seed: U16)
    requires size >= 3 && seed % 8 != 0
    ensures NoneFound(InitItems(size, seed), 1)
  {
    var items := InitItems(size, seed);
    forall k | 0 <= k < |items|
      ensures items[k].data16.lo != 0 % 0x100
    {
      DataNotZero(size, seed, k);
    }
    assert NotFound(items, 0);
  }

  // What no item has it has not after the sort either.
  lemma SortedNotFound(items: seq<Item>, t: seq<nat>, last: seq<Item>, n: nat)
    requires BackSorted(items, t, last) && NoneFound(items, n) && NoneFound(AllRebuilt(items), n)
    ensures NoneFound(last, n)
  {
    forall i | 0 <= i < n
      ensures NotFound(last, i)
    {
      assert NotFound(AllRebuilt(items), i);
      forall k | 0 <= k < |last|
        ensures last[k].data16.lo != i % 0x100
      {
        assert last[k] == AllRebuilt(items)[t[k]];
      }
    }
  }

  lemma InitIntact(size: nat, seed: U16)
    requires size >= 3
    ensures AllRebuilt(InitItems(size, seed)) == InitItems(size, seed)
  {
  }

  /** With ties, an odd number of finds that look for data and find none loses the order of the initialised list. */
  lemma TiesLost(size: nat, seed: U16, t: seq<nat>, last: seq<Item>, c: Call, n: nat)
    requires size >= 3 && BackSorted(InitItems(size, seed), t, last) && IsCall(c, last, -1, n)
    requires Odd(n) && NoneFound(InitItems(size, seed), n) && (size > LONGEST || Collides(size, seed))
    ensures OrderAfter(c) != Identity(size - 1)
  {
    var items := InitItems(size, seed);
    TiesExactly(size, seed);
    SortedTies(items, t, last);
    BackSortedByIdx(items, t, last);
    InitIntact(size, seed);
    SortedNotFound(items, t, last, n);
    MissesRestore(c, last, -1, n);
  }

  /** A concrete one: seed 6 and a block of 666 bytes make a list that one find for data loses. */
  lemma SixLost(seed: U16) returns (t: seq<nat>, last: seq<Item>, c: Call)
    requires seed == 6
    ensures BackSorted(InitItems(SizeOf(666), seed), t, last) && IsCall(c, last, -1, 1)
    ensures OrderAfter(c) != Identity(SizeOf(666) - 1)
  {
    var size: nat := SizeOf(666);
    SeedSix();
    t, last := SortExists(InitItems(size, seed));
    FindStepsPlaces(last, -1, 1);
    c := CallExists(last, -1, 1, Adverse(FindSteps(last, -1, 1).items, 0));
    ZeroNotFound(size, seed);
    TiesLost(size, seed, t, last, c, 1);
  }

  lemma SortExists(items: seq<Item>) returns (t: seq<nat>, last: seq<Item>)
    ensures BackSorted(items, t, last)
  {
    t := StableOrder(ByIdxRebuild, AllRebuilt(items));
    last := Rearranged(AllRebuilt(items), t);
  }
}
