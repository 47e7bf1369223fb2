// Which calls of core_bench_list bring a list back, and which lists every call brings back
// (benchmarks/coremark/core_list_join.c).

module Restoration {
  import opened Cells
  import opened SortSpec
  import opened ListOps
  import opened FindLoop
  import opened BenchList

  // ---- After the fact: the order that the sort back finds

  /** Whether the item at position x of the list after the find loop comes before the one at position y when the list
      is sorted back: after a sort by data it is their computed values that decide. */
  ghost predicate MidBefore(c: Call, idx: S16, x: nat, y: nat) { if idx > 0 then Before(ByData, c.v, x, y) else x < y }

  // What the sort back does to the items that end up at i and j: they are those at x and y after the find loop.
  lemma CallOrder(c: Call, items: seq<Item>, idx: S16, n: nat, i: nat, j: nat)
    requires IsCall(c, items, idx, n) && i < j < |items|
    ensures c.t[i] < |items| && c.t[j] < |items|
    ensures var x, y, f := c.u[c.t[i]], c.u[c.t[j]], c.f.order;
            && x < |items| && y < |items| && x != y && OrderAfter(c)[i] == f[x] && OrderAfter(c)[j] == f[y]
            && items[f[x]].idx <= items[f[y]].idx && (items[f[x]].idx == items[f[y]].idx ==> MidBefore(c, idx, x, y))
  {
    CallPermutes(c, items, idx, n);
    var x, y := c.u[c.t[i]], c.u[c.t[j]];
    assert Before(ByIdxRebuild, AllRebuilt(c.mid), c.t[i], c.t[j]);
    assert c.last[i].idx == c.mid[c.t[i]].idx && c.last[j].idx == c.mid[c.t[j]].idx;
    if idx > 0 && c.t[i] < c.t[j] {
      assert Before(ByData, c.v, x, y);
    }
  }

  /** Items of equal idx are in the order of the list again when it is sorted back. */
  ghost predicate TiesKept(c: Call, items: seq<Item>, idx: S16)
    requires Permutes(c.f.order, |items|)
  {
    forall x, y :: 0 <= x < |items| && 0 <= y < |items| ==> TieKept(c, items, idx, x, y)
  }

  ghost predicate TieKept(c: Call, items: seq<Item>, idx: S16, x: nat, y: nat)
    requires Permutes(c.f.order, |items|) && x < |items| && y < |items|
  {
    var a, b := c.f.order[x], c.f.order[y];
    a < b && items[a].idx == items[b].idx ==> MidBefore(c, idx, x, y)
  }

  lemma RestoredKeeps(c: Call, items: seq<Item>, idx: S16, n: nat, x: nat, y: nat)
    requires IsCall(c, items, idx, n) && x < |items| && y < |items| && Permutes(c.f.order, |items|)
    requires Permutes(OrderAfter(c), |items|) && OrderAfter(c) == Identity(|items|)
    ensures TieKept(c, items, idx, x, y)
  {
    var a, b := c.f.order[x], c.f.order[y];
    if a < b {
      CallOrder(c, items, idx, n, a, b);
    }
  }

  lemma KeptIncreases(c: Call, items: seq<Item>, idx: S16, n: nat, i: nat, j: nat)
    requires IsCall(c, items, idx, n) && IdxSorted(items) && i < j < |items| && TiesKept(c, items, idx)
    ensures |OrderAfter(c)| == |items| && OrderAfter(c)[i] < OrderAfter(c)[j]
  {
    CallOrder(c, items, idx, n, i, j);
    assert TieKept(c, items, idx, c.u[c.t[j]], c.u[c.t[i]]);
  }

  /** A call restores a list sorted by idx exactly if what it does before it sorts back - find, and sort by data if
      the idx to find is positive - leaves the items of equal idx in order. */
  lemma RestoresExactly(c: Call, items: seq<Item>, idx: S16, n: nat)
    requires IsCall(c, items, idx, n) && IdxSorted(items) && |items| >= 2
    ensures OrderAfter(c) == Identity(|items|) <==> TiesKept(c, items, idx)
  {
    CallPermutes(c, items, idx, n);
    if OrderAfter(c) == Identity(|items|) {
      forall x, y | 0 <= x < |items| && 0 <= y < |items|
        ensures TieKept(c, items, idx, x, y)
      {
        RestoredKeeps(c, items, idx, n, x, y);
      }
    }
    if TiesKept(c, items, idx) {
      forall i, j | 0 <= i < j < |items|
        ensures OrderAfter(c)[i] < OrderAfter(c)[j]
      {
        KeptIncreases(c, items, idx, n, i, j);
      }
      IncreasingIdentity(OrderAfter(c));
    }
  }

  // ---- There are such calls, whatever the kernels compute

  // The values an item can have for the sort by data: any, if its kernel computes it
  function MinKey(d: Data16): nat { if d.Cached() || d.Flag() >= 2 then d.Key() else 0 }
  function MaxKey(d: Data16): nat { if d.Cached() || d.Flag() >= 2 then d.Key() else 0x7f }

  lemma KeyBounds(before: Data16, after: Data16)
    requires DataStep(ByData, before, after) && after.Cached()
    ensures MinKey(before) <= after.Key() <= MaxKey(before)
  {
  }

  predicate KeyPossible(it: Item, key: nat) { MinKey(it.data16) <= key <= MaxKey(it.data16) }

  ghost predicate KeysPossible(items: seq<Item>, keys: seq<nat>) {
    |keys| == |items| && forall i :: 0 <= i < |items| ==> KeyPossible(items[i], keys[i])
  }

  function WithKey(d: Data16, key: nat): Data16 { if d.Cached() then d else d.Cache(key % 0x80) }

  lemma WithKeyIs(d: Data16, key: nat)
    requires MinKey(d) <= key <= MaxKey(d)
    ensures var e := WithKey(d, key); e.Cached() && e.Key() == key && DataStep(ByData, d, e)
  {
  }

  // The items with these values computed
  function WithKeys(items: seq<Item>, keys: seq<nat>): (v: seq<Item>)
    requires |keys| == |items|
    ensures |v| == |items|
    ensures forall i :: 0 <= i < |v| ==> v[i] == Item(WithKey(items[i].data16, keys[i]), items[i].idx)
  {
    seq(|items|, i requires 0 <= i < |items| => Item(WithKey(items[i].data16, keys[i]), items[i].idx))
  }

  lemma KeyedSort(items: seq<Item>, keys: seq<nat>) returns (v: seq<Item>, u: seq<nat>)
    requires KeysPossible(items, keys)
    ensures |v| == |items| && Permutes(u, |v|) && DataSorted(items, v, u, Rearranged(v, u))
    ensures forall i :: 0 <= i < |v| ==> v[i].data16.Key() == keys[i]
  {
    v := WithKeys(items, keys);
    forall i | 0 <= i < |v|
      ensures v[i].data16.Cached() && v[i].data16.Key() == keys[i] && DataStep(ByData, items[i].data16, v[i].data16)
    {
      assert KeyPossible(items[i], keys[i]);
      WithKeyIs(items[i].data16, keys[i]);
    }
    u := StableOrder(ByData, v);
  }

  /** For any values that the kernels can compute there is a call in which they do. */
  lemma CallExists(items: seq<Item>, idx: S16, n: nat, keys: seq<nat>) returns (c: Call)
    requires |items| >= 2 && KeysPossible(FindSteps(items, idx, n).items, keys)
    ensures IsCall(c, items, idx, n) && (idx > 0 ==> |c.v| == |keys|)
    ensures idx > 0 ==> forall i :: 0 <= i < |keys| ==> c.v[i].data16.Key() == keys[i]
  {
    var f := FindSteps(items, idx, n);
    FindStepsPlaces(items, idx, n);
    var v, u := f.items, Identity(|items|);
    if idx > 0 {
      v, u := KeyedSort(f.items, keys);
    }
    var mid := if idx > 0 then Rearranged(v, u) else v;
    var t := StableOrder(ByIdxRebuild, AllRebuilt(mid));
    c := Call(f, v, u, mid, t, Rearranged(AllRebuilt(mid), t));
  }

  // ---- Beforehand: which calls restore a list

  /** The item at x will come before the one at y when the list is sorted back, whatever the kernels compute. */
  ghost predicate SurelyBefore(items: seq<Item>, idx: S16, x: nat, y: nat)
    requires x < |items| && y < |items|
  {
    if idx <= 0 then x < y else
      var least, most := MinKey(items[y].data16), MaxKey(items[x].data16);
      most < least || (most == least && x < y)
  }

  /** The find loop leaves the items of equal idx so that their order comes back. */
  ghost predicate SurelyKept(items: seq<Item>, idx: S16, n: nat) {
    var f := FindSteps(items, idx, n);
    |f.order| == |f.items| == |items| &&
    forall x, y :: 0 <= x < |items| && 0 <= y < |items| ==> TieSurelyKept(items, f, idx, x, y)
  }

  ghost predicate TieSurelyKept(items: seq<Item>, f: Finds, idx: S16, x: nat, y: nat)
    requires |f.order| == |f.items| && x < |f.items| && y < |f.items|
  {
    var a, b := f.order[x], f.order[y];
    a < b < |items| && items[a].idx == items[b].idx ==> SurelyBefore(f.items, idx, x, y)
  }

  // a sort by data has computed every value
  lemma MidKey(c: Call, items: seq<Item>, idx: S16, n: nat, x: nat)
    requires IsCall(c, items, idx, n) && idx > 0 && |items| >= 2 && x < |items|
    ensures |c.v| == |c.f.items| == |items| && KeyPossible(c.f.items[x], c.v[x].data16.Key())
  {
    FindStepsPlaces(items, idx, n);
    PermutesOnto(c.u, |items|, x);
    var i :| 0 <= i < |c.u| && c.u[i] == x;
    assert Settled(ByData, c.v[c.u[i]].data16);
    KeyBounds(c.f.items[x].data16, c.v[x].data16);
  }

  lemma SurelyIsKept(c: Call, items: seq<Item>, idx: S16, n: nat, x: nat, y: nat)
    requires IsCall(c, items, idx, n) && |items| >= 2 && SurelyKept(items, idx, n) && x < |items| && y < |items|
    ensures TieKept(c, items, idx, x, y)
  {
    assert TieSurelyKept(items, c.f, idx, x, y);
    if idx > 0 {
      MidKey(c, items, idx, n, x);
      MidKey(c, items, idx, n, y);
    }
  }

  // the values that make it hardest for x to come before y
  ghost function Adverse(items: seq<Item>, x: nat): (keys: seq<nat>)
    ensures KeysPossible(items, keys)
    ensures forall i :: 0 <= i < |items| ==>
              keys[i] == if i == x then MaxKey(items[i].data16) else MinKey(items[i].data16)
  {
    seq(|items|, i requires 0 <= i < |items| => if i == x then MaxKey(items[i].data16) else MinKey(items[i].data16))
  }

  lemma KeptIsSure(items: seq<Item>, idx: S16, n: nat, x: nat, y: nat) returns (c: Call)
    requires |items| >= 2 && x < |items| && y < |items|
    ensures IsCall(c, items, idx, n) && Permutes(c.f.order, |items|) && |c.f.items| == |items|
    ensures TieKept(c, items, idx, x, y) ==> TieSurelyKept(items, c.f, idx, x, y)
  {
    FindStepsPlaces(items, idx, n);
    c := CallExists(items, idx, n, Adverse(FindSteps(items, idx, n).items, x));
  }

  /** Every call with this finder_idx and this number of rounds restores a list sorted by idx, whatever its kernels
      compute, exactly if the find loop leaves its ties so. */
  lemma EveryCallRestores(items: seq<Item>, idx: S16, n: nat)
    requires IdxSorted(items) && |items| >= 2
    ensures (forall c: Call :: IsCall(c, items, idx, n) ==> OrderAfter(c) == Identity(|items|))
       <==> SurelyKept(items, idx, n)
  {
    FindStepsPlaces(items, idx, n);
    if forall c: Call :: IsCall(c, items, idx, n) ==> OrderAfter(c) == Identity(|items|) {
      forall x, y | 0 <= x < |items| && 0 <= y < |items|
        ensures TieSurelyKept(items, FindSteps(items, idx, n), idx, x, y)
      {
        var c := KeptIsSure(items, idx, n, x, y);
        RestoresExactly(c, items, idx, n);
        assert TieKept(c, items, idx, x, y);
      }
    }
    if SurelyKept(items, idx, n) {
      forall c: Call | IsCall(c, items, idx, n)
        ensures OrderAfter(c) == Identity(|items|)
      {
        SurelyKeepsTies(c, items, idx, n);
        RestoresExactly(c, items, idx, n);
      }
    }
  }

  lemma SurelyKeepsTies(c: Call, items: seq<Item>, idx: S16, n: nat)
    requires IsCall(c, items, idx, n) && |items| >= 2 && SurelyKept(items, idx, n)
    ensures TiesKept(c, items, idx)
  {
    forall x, y | 0 <= x < |items| && 0 <= y < |items|
      ensures TieKept(c, items, idx, x, y)
    {
      SurelyIsKept(c, items, idx, n, x, y);
    }
  }

  // ---- A single round

  // How two items that the single round of a call leaves in the list's reverse order can keep their order: the
  // earlier one is the predecessor of the found item, and was pulled forward.
  lemma OneRoundOrder(items: seq<Item>, idx: S16, x: nat, y: nat)
    requires |items| >= 2 && x < y < |items|
    ensures var f, k := FindSteps(items, idx, 1), FindIndex(items, Wanted(0, idx));
            && |f.order| == |items|
            && (f.order[x] < f.order[y]
              <==> x == 1 && k < |items| - 1 && f.order[x] == k - 1 && k <= f.order[y] < |items| - 1)
  {
    var f := FirstFinds(items, idx);
    assert FindSteps(items, idx, 1) == NextFinds(f, 0) by {
      assert FindSteps(items, idx, 0) == f;
    }
    var op := RoundOp(f, 0);
    ApplyIsMove(op, f.order);
    assert NextFinds(f, 0).order == Apply(op, f.order);
    assert Apply(op, f.order)[x] == f.order[Source(op, |items|, x)]
      && Apply(op, f.order)[y] == f.order[Source(op, |items|, y)];
  }

  /** The only items of equal idx are the found item, not the last one, and its predecessor. */
  ghost predicate OnlyTie(items: seq<Item>, k: nat) {
    forall i, j :: 0 <= i < j < |items| && items[i].idx == items[j].idx ==> i == k - 1 && j == k && k < |items| - 1
  }

  lemma RestoredTie(c: Call, items: seq<Item>, idx: S16, i: nat, j: nat)
    requires IsCall(c, items, idx, 1) && idx <= 0 && i < j < |items| && items[i].idx == items[j].idx
    requires TiesKept(c, items, idx)
    ensures var k := FindIndex(items, Wanted(0, idx)); k < |items| - 1 && i == k - 1 && k <= j
  {
    var f := c.f.order;
    PermutesOnto(f, |items|, i);
    PermutesOnto(f, |items|, j);
    var x :| 0 <= x < |items| && f[x] == i;
    var y :| 0 <= y < |items| && f[y] == j;
    assert TieKept(c, items, idx, x, y);
    OneRoundOrder(items, idx, x, y);
  }

  // the found item's predecessor is second after the round, behind the last item of the list
  lemma OneRoundFront(items: seq<Item>, idx: S16, x: nat, y: nat)
    requires x < y < |items|
    ensures var f, k := FindSteps(items, idx, 1), FindIndex(items, Wanted(0, idx));
            |f.order| == |items| && !(0 < k < |items| - 1 && f.order[x] == k && f.order[y] == k - 1)
  {
    var k := FindIndex(items, Wanted(0, idx));
    OneRoundOrder(items, idx, 0, 1);
    OneRoundOrder(items, idx, x, y);
    FindStepsPlaces(items, idx, 1);
  }

  /** After a single round of finds and no sort by data, a list sorted by idx is restored exactly if all idx are
      different, but for one pair that the found item forms with its predecessor. */
  lemma OneRoundRestores(c: Call, items: seq<Item>, idx: S16)
    requires IsCall(c, items, idx, 1) && idx <= 0 && IdxSorted(items) && |items| >= 2
    ensures OrderAfter(c) == Identity(|items|) <==> OnlyTie(items, FindIndex(items, Wanted(0, idx)))
  {
    RestoresExactly(c, items, idx, 1);
    CallPermutes(c, items, idx, 1);
    var k := FindIndex(items, Wanted(0, idx));
    if TiesKept(c, items, idx) {
      KeptOnlyTie(c, items, idx, k);
    }
    if OnlyTie(items, k) {
      OnlyTieKept(c, items, idx, k);
    }
  }

  lemma KeptOnlyTie(c: Call, items: seq<Item>, idx: S16, k: nat)
    requires IsCall(c, items, idx, 1) && idx <= 0 && k == FindIndex(items, Wanted(0, idx)) && TiesKept(c, items, idx)
    requires IdxSorted(items)
    ensures OnlyTie(items, k)
  {
    forall i, j | 0 <= i < j < |items| && items[i].idx == items[j].idx
      ensures i == k - 1 && j == k && k < |items| - 1
    {
      RestoredTie(c, items, idx, i, j);
      if j > k {
        assert items[k].idx == items[j].idx;
        RestoredTie(c, items, idx, k, j);
      }
    }
  }

  lemma OnlyTieKept(c: Call, items: seq<Item>, idx: S16, k: nat)
    requires IsCall(c, items, idx, 1) && idx <= 0 && k == FindIndex(items, Wanted(0, idx)) && OnlyTie(items, k)
    ensures TiesKept(c, items, idx)
  {
    forall x, y | 0 <= x < |items| && 0 <= y < |items|
      ensures TieKept(c, items, idx, x, y)
    {
      if y < x {
        OneRoundFront(items, idx, y, x);
      }
    }
  }

  // ---- Lists that every call restores

  ghost predicate NoTies(items: seq<Item>) {
    forall i, j :: 0 <= i < j < |items| ==> items[i].idx != items[j].idx
  }

  lemma IncreasingIsUntied(last: seq<Item>)
    requires IdxSorted(last)
    ensures NoTies(last) <==> IdxIncreasing(last)
  {
    forall i, j | 0 <= i < j < |last|
      ensures Below(last, i, j) <==> last[i].idx != last[j].idx
    {
      assert last[i].idx <= last[j].idx;
    }
    if NoTies(last) {
      forall i, j | 0 <= i < j < |last|
        ensures Below(last, i, j)
      {
        assert last[i].idx != last[j].idx;
      }
    }
    if IdxIncreasing(last) {
      forall i, j | 0 <= i < j < |last|
        ensures last[i].idx != last[j].idx
      {
        assert Below(last, i, j);
      }
    }
  }

  // With idx 0 looked for once, the found item's predecessor has another idx, so any tie is lost.
  lemma TieIsLost(c: Call, items: seq<Item>)
    requires IsCall(c, items, 0, 1) && IdxSorted(items) && |items| >= 2
    ensures OrderAfter(c) == Identity(|items|) <==> NoTies(items)
  {
    OneRoundRestores(c, items, 0);
    var k := FindIndex(items, Wanted(0, 0));
    assert 0 < k < |items| ==> items[k - 1].idx != items[k].idx;
  }

  /** The lists sorted by idx that every call restores - whatever it looks for and as often as it does, and whatever its
      kernels compute - are exactly those in which all idx are different. */
  lemma AlwaysRestored(items: seq<Item>)
    requires IdxSorted(items) && |items| >= 2
    ensures (forall c: Call, idx: S16, n: nat :: IsCall(c, items, idx, n) ==> OrderAfter(c) == Identity(|items|))
       <==> IdxIncreasing(items)
  {
    IncreasingIsUntied(items);
    if IdxIncreasing(items) {
      forall c: Call, idx: S16, n: nat | IsCall(c, items, idx, n)
        ensures OrderAfter(c) == Identity(|items|)
      {
        CallRestores(c, items, idx, n);
      }
    }
    if forall c: Call, idx: S16, n: nat :: IsCall(c, items, idx, n) ==> OrderAfter(c) == Identity(|items|) {
      FindStepsPlaces(items, 0, 1);
      var c := CallExists(items, 0, 1, Adverse(FindSteps(items, 0, 1).items, 0));
      TieIsLost(c, items);
    }
  }

  // ---- Finds that all miss

  /** None of n rounds that look for data finds any. */
  ghost predicate NoneFound(items: seq<Item>, n: nat) { forall i :: 0 <= i < n ==> NotFound(items, i) }

  predicate NotFound(items: seq<Item>, i: nat) {
    forall k :: 0 <= k < |items| ==> items[k].data16.lo != i % 0x100
  }

  lemma ReversedTwice<T>(s: seq<T>)
    ensures Reversed(Reversed(s)) == s
  {
  }

  // The state after rounds that found nothing, an odd number of them or an even one
  predicate Missed(f: Finds, items: seq<Item>, odd: bool) {
    if odd then f.items == Reversed(items) && f.order == Reversed(Identity(|items|))
    else f.items == items && f.order == Identity(|items|)
  }

  predicate Odd(n: nat) { n > 0 && !Odd(n - 1) }

  lemma {:induction false} MissesReverse(items: seq<Item>, idx: S16, n: nat)
    requires idx < 0 && |items| >= 2 && NoneFound(items, n)
    ensures var f := FindSteps(items, idx, n); f.idx == idx && Missed(f, items, Odd(n))
  {
    if n > 0 {
      MissesReverse(items, idx, n - 1);
      assert FindSteps(items, idx, n) == NextFinds(FindSteps(items, idx, n - 1), n - 1);
      assert NotFound(items, n - 1);
      MissNext(items, FindSteps(items, idx, n - 1), idx, n - 1, Odd(n - 1));
    } else {
      assert FindSteps(items, idx, 0) == FirstFinds(items, idx);
    }
  }

  lemma NotFoundBackwards(items: seq<Item>, idx: S16, i: nat)
    requires idx < 0 && NotFound(items, i)
    ensures FindIndex(items, Wanted(i, idx)) == |items| == FindIndex(Reversed(items), Wanted(i, idx))
  {
    forall k | 0 <= k < |items|
      ensures !Matches(items[k], Wanted(i, idx)) && !Matches(Reversed(items)[k], Wanted(i, idx))
    {
      assert Reversed(items)[k] == items[|items| - 1 - k];
    }
    FindIndexUnique(items, Wanted(i, idx), |items|);
    FindIndexUnique(Reversed(items), Wanted(i, idx), |items|);
  }

  lemma MissNext(items: seq<Item>, f: Finds, idx: S16, i: nat, odd: bool)
    requires idx < 0 && |items| >= 2 && NotFound(items, i) && f.idx == idx && Missed(f, items, odd)
    ensures var g := NextFinds(f, i); g.idx == idx && Missed(g, items, !odd)
  {
    NotFoundBackwards(items, idx, i);
    ReversedTwice(items);
    ReversedTwice(Identity(|items|));
    var g := NextFinds(f, i);
    assert g.items == Reversed(f.items) && g.order == Reversed(f.order);
  }

  lemma MissedTie(c: Call, items: seq<Item>, idx: S16, i: nat, j: nat)
    requires idx < 0 && Permutes(c.f.order, |items|) && Missed(c.f, items, true)
    requires TiesKept(c, items, idx) && i < j < |items|
    ensures items[i].idx != items[j].idx
  {
    var x, y := |items| - 1 - i, |items| - 1 - j;
    assert c.f.order[x] == i && c.f.order[y] == j;
    assert TieKept(c, items, idx, x, y);
  }

  lemma EvenKeeps(c: Call, items: seq<Item>, idx: S16)
    requires idx < 0 && Permutes(c.f.order, |items|) && (NoTies(items) || Missed(c.f, items, false))
    ensures TiesKept(c, items, idx)
  {
    forall x, y | 0 <= x < |items| && 0 <= y < |items|
      ensures TieKept(c, items, idx, x, y)
    {
    }
  }

  /** A call whose finds all miss restores a list sorted by idx exactly if their number is even or all idx differ. */
  lemma MissesRestore(c: Call, items: seq<Item>, idx: S16, n: nat)
    requires IsCall(c, items, idx, n) && IdxSorted(items) && |items| >= 2 && idx < 0 && NoneFound(items, n)
    ensures OrderAfter(c) == Identity(|items|) <==> !Odd(n) || NoTies(items)
  {
    RestoresExactly(c, items, idx, n);
    MissesReverse(items, idx, n);
    if TiesKept(c, items, idx) && Odd(n) {
      forall i, j | 0 <= i < j < |items|
        ensures items[i].idx != items[j].idx
      {
        MissedTie(c, items, idx, i, j);
      }
    }
    if !Odd(n) || NoTies(items) {
      EvenKeeps(c, items, idx);
    }
  }
}
