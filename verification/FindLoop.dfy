// The find loop of core_bench_list (benchmarks/coremark/core_list_join.c).

module FindLoop {
  import opened Words
  import opened Cells
  import opened ListOps
  import opened Loops
  import opened SortSpec

  // ---- What the loop computes, on values

  /** What a round does to the list: reverse it, and after a hit pull the successor of the found item (at
      position `at` of the reversed list) forward. */
  datatype Op = Miss | Hit(at: nat)

  predicate Applies(op: Op, n: nat) { op.Hit? ==> op.at < n }

  function Apply<T>(op: Op, s: seq<T>): (r: seq<T>)
    requires Applies(op, |s|)
    ensures |r| == |s|
  {
    match op
    case Miss => Reversed(s)
    case Hit(at) => PullForward(Reversed(s), at)
  }

  /** The loop so far: the items in list order, where each stood at the start, the idx looked for next, and the
      counters. */
  datatype Finds = Finds(items: seq<Item>, order: seq<nat>, idx: S16, retval: U16, found: nat, missed: nat)

  function Wanted(i: nat, idx: S16): Item { Item(Data16(0, i % 0x100), idx) }

  function NextIdx(idx: S16): S16 { if idx >= 0 then ToS16(idx + 1) else idx }

  // The round's operation on a list with these items
  function FindOp(items: seq<Item>, wanted: Item): (op: Op)
    ensures Applies(op, |items|)
  {
    var k := FindIndex(items, wanted);
    if k == |items| then Miss else Hit(|items| - 1 - k)
  }

  // and the bit it adds to the result: bit 8 of the second item after a miss, bit 9 of an odd found item
  function FindBit(items: seq<Item>, wanted: Item): U16
    requires |items| >= 2
  {
    var k := FindIndex(items, wanted);
    if k == |items| then items[|items| - 2].data16.hi % 2
    else if items[k].data16.lo % 2 == 1 then items[k].data16.hi / 2 % 2 else 0
  }

  function Advance(f: Finds, op: Op, bit: U16): (g: Finds)
    requires Applies(op, |f.items|) && |f.order| == |f.items|
    ensures |g.items| == |g.order| == |f.items|
  {
    Finds(Apply(op, f.items), Apply(op, f.order), NextIdx(f.idx), ToU16(f.retval + bit),
          if op.Hit? then f.found + 1 else f.found, if op.Hit? then f.missed else f.missed + 1)
  }

  // One round: round i looks for data i (mod 256), or for the running idx.
  function NextFinds(f: Finds, i: nat): (g: Finds)
    ensures |g.items| == |f.items| && |g.order| == |f.order|
  {
    if |f.items| < 2 || |f.order| != |f.items| then f
      else Advance(f, FindOp(f.items, Wanted(i, f.idx)), FindBit(f.items, Wanted(i, f.idx)))
  }

  // Where the element at position i of a list of n comes from
  function Source(op: Op, n: nat, i: nat): (p: int)
    requires Applies(op, n) && i < n
    ensures 0 <= p < n
  {
    n - 1 - if op.Hit? then Pulled(n, op.at, i) else i
  }

  ghost predicate MovedBy<T>(op: Op, s: seq<T>, r: seq<T>) {
    Applies(op, |s|) && |r| == |s| && forall i {:trigger Source(op, |s|, i)} :: 0 <= i < |s| ==>
      r[i] == s[Source(op, |s|, i)]
  }

  // the operation of round i
  function RoundOp(f: Finds, i: nat): (op: Op)
    ensures Applies(op, |f.items|)
  {
    FindOp(f.items, Wanted(i, f.idx))
  }

  function FirstFinds(items: seq<Item>, idx: S16): Finds { Finds(items, Identity(|items|), idx, 0, 0, 0) }

  /** The state after n rounds. */
  function FindSteps(items: seq<Item>, idx: S16, n: nat): Finds {
    Iterate(NextFinds, FirstFinds(items, idx), n)
  }

  function Rounds(seed3: S16): nat { if seed3 > 0 then seed3 else 0 }

  // `info` as the loop leaves it
  function LastWanted(n: nat, idx: S16): Item { Wanted(if n == 0 then 0 else n - 1, idx) }

  // ---- Rounds on the heap

  // the search, and the operation it leads to
  method FindCount(list: ListHead, wanted: Item, ghost s: seq<ListHead>, ghost infos: seq<ListData>)
    returns (found: ListHead?, ghost k: nat)
    requires IsList(list, s) && |s| >= 3 && Has(s, infos)
    ensures k == FindIndex(Values(infos), wanted) && found == if k < |s| then s[k] else null
    ensures FindOp(Values(infos), wanted) == if k < |s| then Hit(|s| - 1 - k) else Miss
  {
    found := CoreListFind(list, wanted, s, infos);
    k := FindIndex(Values(infos), wanted);
  }

  method CountBit(list: ListHead, found: ListHead?, ghost wanted: Item, ghost s: seq<ListHead>,
                  ghost infos: seq<ListData>, ghost k: nat)
    returns (bit: U16)
    requires IsList(list, Reversed(s)) && |s| >= 3 && Has(s, infos)
    requires k == FindIndex(Values(infos), wanted) && found == if k < |s| then s[k] else null
    ensures bit == FindBit(Values(infos), wanted)
  {
    bit := 0;
    if found == null {
      assert list == Reversed(s)[0] && list.next == Reversed(s)[1] == s[|s| - 2];
      assert s[|s| - 2].info == infos[|s| - 2];
      bit := list.next.info.data16.hi % 2;
    } else {
      assert found.info == infos[k];
      if found.info.data16.lo % 2 == 1 {
        bit := found.info.data16.hi / 2 % 2;
      }
    }
  }

  // the list operations of a round
  method Turn(list0: ListHead, found: ListHead?, ghost wanted: Item, ghost s: seq<ListHead>, ghost infos: seq<ListData>,
              ghost cells: set<ListHead>, ghost k: nat, ghost op: Op)
    returns (list: ListHead, bit: U16)
    requires IsList(list0, s) && |s| >= 3 && Owned(s, cells) && Has(s, infos)
    requires k == FindIndex(Values(infos), wanted) && found == if k < |s| then s[k] else null
    requires op == if k < |s| then Hit(|s| - 1 - k) else Miss
    modifies cells`next
    ensures bit == FindBit(old(Values(infos)), wanted)
    ensures IsList(list, Apply(op, s))
  {
    list := CoreListReverse(list0, s, cells);
    bit := CountBit(list, found, wanted, s, infos, k);
    ghost var r := Reversed(s);
    CacheFound(list, found, r, cells, op);
    ApplyIs(op, s, r);
  }

  lemma ApplyIs<T>(op: Op, s: seq<T>, r: seq<T>)
    requires Applies(op, |s|) && r == Reversed(s)
    ensures Apply(op, s) == if op.Hit? then PullForward(r, op.at) else r
  {
  }

  method CacheFound(list: ListHead, found: ListHead?, ghost r: seq<ListHead>, ghost cells: set<ListHead>, ghost op: Op)
    requires IsList(list, r) && Owned(r, cells) && Applies(op, |r|)
    requires found == if op.Hit? then r[op.at] else null
    modifies cells`next
    ensures IsList(list, if op.Hit? then PullForward(r, op.at) else r)
  {
    if found != null {
      CacheNext(list, found, r, op.at, cells);
    }
  }

  /** The list of the loop: its cells are those of `s`, in some order, and its items are `items`. */
  ghost predicate Holds(list: ListHead, s: seq<ListHead>, cells: set<ListHead>, cur: seq<ListHead>,
                        infos: seq<ListData>, items: seq<Item>)
    reads cur, infos
  {
    IsList(list, cur) && |cur| == |s| && multiset(cur) == multiset(s) && Owned(cur, cells) && Has(cur, infos)
      && Values(infos) == items
  }

  method FindRound(list0: ListHead, wanted: Item, ghost s: seq<ListHead>, ghost cells: set<ListHead>,
                   ghost cur0: seq<ListHead>, ghost infos0: seq<ListData>, ghost items: seq<Item>)
    returns (list: ListHead, hit: bool, bit: U16, ghost cur: seq<ListHead>, ghost infos: seq<ListData>)
    requires |s| >= 3 && Holds(list0, s, cells, cur0, infos0, items)
    modifies cells`next
    ensures var op := FindOp(items, wanted); hit == op.Hit? && Holds(list, s, cells, cur, infos, Apply(op, items))
    ensures bit == FindBit(items, wanted) && MovedBy(FindOp(items, wanted), cur0, cur)
  {
    var found;
    ghost var k;
    found, k := FindCount(list0, wanted, cur0, infos0);
    ghost var op := FindOp(items, wanted);
    hit := found != null;
    list, bit := Turn(list0, found, wanted, cur0, infos0, cells, k, op);
    cur, infos := Apply(op, cur0), Apply(op, infos0);
    ApplyMoves(op, cur0, infos0, cells);
    ApplyMultiset(op, cur0);
    ApplyIsMove(op, cur0);
  }

  lemma ApplyIsMove<T>(op: Op, s: seq<T>)
    requires Applies(op, |s|)
    ensures MovedBy(op, s, Apply(op, s))
  {
  }

  lemma MovedHas(op: Op, s: seq<ListHead>, infos: seq<ListData>, cells: set<ListHead>, r: seq<ListHead>,
                 ri: seq<ListData>)
    requires MovedBy(op, s, r) && MovedBy(op, infos, ri) && Has(s, infos) && Owned(s, cells)
    ensures Has(r, ri) && Owned(r, cells) && MovedBy(op, Values(infos), Values(ri))
  {
    forall k | 0 <= k < |r|
      ensures r[k].info == ri[k] && r[k] in cells
    {
      var p := Source(op, |s|, k);
      assert s[p].info == infos[p];
    }
  }

  lemma MovedIsApply<T>(op: Op, s: seq<T>, r: seq<T>)
    requires MovedBy(op, s, r)
    ensures r == Apply(op, s)
  {
    var a := Apply(op, s);
    ApplyIsMove(op, s);
    forall k | 0 <= k < |s|
      ensures r[k] == a[k]
    {
      assert a[k] == s[Source(op, |s|, k)];
    }
  }

  // An operation moves cells, data cells and items alike.
  lemma ApplyMoves(op: Op, s: seq<ListHead>, infos: seq<ListData>, cells: set<ListHead>)
    requires Applies(op, |s|) && Has(s, infos) && Owned(s, cells)
    ensures Has(Apply(op, s), Apply(op, infos)) && Owned(Apply(op, s), cells)
    ensures Values(Apply(op, infos)) == Apply(op, Values(infos))
  {
    ApplyIsMove(op, s);
    ApplyIsMove(op, infos);
    MovedHas(op, s, infos, cells, Apply(op, s), Apply(op, infos));
    MovedIsApply(op, Values(infos), Values(Apply(op, infos)));
  }

  lemma ApplyMultiset<T>(op: Op, s: seq<T>)
    requires Applies(op, |s|)
    ensures multiset(Apply(op, s)) == multiset(s)
  {
    ReversedMultiset(s);
    if op.Hit? {
      PullMultiset(Reversed(s), op.at);
    }
  }

  lemma {:induction false} ReversedMultiset<T>(s: seq<T>)
    ensures multiset(Reversed(s)) == multiset(s)
  {
    if s != [] {
      ReversedMultiset(s[1..]);
      assert Reversed(s) == Reversed(s[1..]) + [s[0]];
      assert s == [s[0]] + s[1..];
    }
  }

  lemma PullMultiset<T>(s: seq<T>, j: nat)
    requires j < |s|
    ensures multiset(PullForward(s, j)) == multiset(s)
  {
    if j + 1 < |s| {
      assert PullForward(s, j) == [s[0]] + [s[j + 1]] + s[1..j + 1] + s[j + 2..];
      assert s == [s[0]] + s[1..j + 1] + [s[j + 1]] + s[j + 2..];
    } else {
      assert PullForward(s, j) == s;
    }
  }

  // How the variables of a round follow from its operation
  ghost predicate Counted(f: Finds, i: nat, hit: bool, info: Item, retval: U16, g: Finds) {
    && info == LastWanted(i + 1, g.idx) && retval == g.retval
    && g.found == (if hit then f.found + 1 else f.found) && g.missed == if hit then f.missed else f.missed + 1
  }

  lemma NextFindsIs(f: Finds, i: nat, wanted: Item, op: Op, bit: U16, g: Finds)
    requires |f.order| == |f.items| >= 2 && wanted == Wanted(i, f.idx) && g == NextFinds(f, i)
    requires op == FindOp(f.items, wanted) && bit == FindBit(f.items, wanted)
    ensures g.items == Apply(op, f.items) && op == RoundOp(f, i)
    ensures Counted(f, i, op.Hit?, wanted.(idx := NextIdx(f.idx)), ToU16(f.retval + bit), g)
  {
  }

  /** The list `cur` is `s` in the order `order`. */
  ghost predicate Places<T>(s: seq<T>, order: seq<nat>, cur: seq<T>) {
    Permutes(order, |s|) && cur == Rearranged(s, order)
  }

  lemma ApplyPlaces<T>(op: Op, s: seq<T>, order: seq<nat>, cur: seq<T>, next: seq<T>)
    requires Places(s, order, cur) && MovedBy(op, cur, next)
    ensures Places(s, Apply(op, order), next)
  {
    var r := Apply(op, order);
    forall i | 0 <= i < |s|
      ensures r[i] == order[Source(op, |s|, i)] && next[i] == s[r[i]]
    {
      var p := Source(op, |s|, i);
      assert next[i] == cur[p];
    }
    assert Distinct(r) by {
      forall i, j | 0 <= i < j < |s|
        ensures r[i] != r[j]
      {
        assert Source(op, |s|, i) != Source(op, |s|, j);
      }
    }
    assert next == Rearranged(s, r);
  }

  lemma {:induction false} FindStepsPlaces(items: seq<Item>, idx: S16, n: nat)
    requires |items| >= 2
    ensures var f := FindSteps(items, idx, n); |f.items| == |items| && Places(items, f.order, f.items)
  {
    if n > 0 {
      FindStepsPlaces(items, idx, n - 1);
      var f := FindSteps(items, idx, n - 1);
      var op := RoundOp(f, n - 1);
      ApplyIsMove(op, f.items);
      ApplyPlaces(op, items, f.order, f.items, Apply(op, f.items));
      assert FindSteps(items, idx, n) == NextFinds(f, n - 1);
    }
  }

  // ---- What the rounds look for and find

  /** The idx that round i looks for: it counts up from the first one; past 0x7fff it becomes negative, and stays so. */
  function LookedFor(idx: S16, i: nat): S16 { if idx < 0 then idx else if idx + i <= 0x7fff then idx + i else -0x8000 }

  /** Round i finds an item of these: by idx, or by the low byte of its data if the idx is negative. */
  ghost predicate Present(items: seq<Item>, idx: S16, i: nat) {
    exists k :: 0 <= k < |items| && if LookedFor(idx, i) >= 0 then items[k].idx == LookedFor(idx, i)
                                    else items[k].data16.Word() % 0x100 == i % 0x100
  }

  ghost function PresentCount(items: seq<Item>, idx: S16, n: nat): nat {
    if n == 0 then 0 else PresentCount(items, idx, n - 1) + if Present(items, idx, n - 1) then 1 else 0
  }

  lemma LowOfWord(d: Data16)
    ensures d.Word() % 0x100 == d.lo && d.Word() / 0x100 == d.hi
  {
    QuotientUnique(0x100, d.hi, d.lo);
  }

  // A rearrangement holds what the items hold.
  lemma FindsPresent(items: seq<Item>, order: seq<nat>, cur: seq<Item>, idx: S16, i: nat)
    requires Places(items, order, cur)
    ensures FindIndex(cur, Wanted(i, LookedFor(idx, i))) < |cur| <==> Present(items, idx, i)
  {
    var wanted := Wanted(i, LookedFor(idx, i));
    forall k | 0 <= k < |items|
      ensures items[k].data16.Word() % 0x100 == items[k].data16.lo
    {
      LowOfWord(items[k].data16);
    }
    var k := FindIndex(cur, wanted);
    if k < |cur| {
      assert Matches(items[order[k]], wanted);
    }
    if Present(items, idx, i) {
      var x :| 0 <= x < |items| && if LookedFor(idx, i) >= 0 then items[x].idx == LookedFor(idx, i)
                                   else items[x].data16.Word() % 0x100 == i % 0x100;
      PermutesOnto(order, |items|, x);
      var j :| 0 <= j < |order| && order[j] == x;
      assert Matches(cur[j], wanted);
    }
  }

  lemma NextLooked(idx: S16, i: nat)
    ensures NextIdx(LookedFor(idx, i)) == LookedFor(idx, i + 1)
  {
  }

  // the counters of a round
  lemma RoundCounts(f: Finds, i: nat)
    requires |f.order| == |f.items| >= 2
    ensures var g, hit := NextFinds(f, i), FindIndex(f.items, Wanted(i, f.idx)) < |f.items|;
            && g.idx == NextIdx(f.idx) && g.found == f.found + (if hit then 1 else 0)
            && g.missed == f.missed + if hit then 0 else 1
  {
  }

  lemma RoundFinds(items: seq<Item>, f: Finds, g: Finds, idx: S16, i: nat)
    requires |f.order| == |f.items| >= 2 && Places(items, f.order, f.items)
    requires f.idx == LookedFor(idx, i) && g == NextFinds(f, i)
    ensures g.idx == LookedFor(idx, i + 1) && g.found + g.missed == f.found + f.missed + 1
    ensures g.found == f.found + if Present(items, idx, i) then 1 else 0
  {
    RoundCounts(f, i);
    FindsPresent(items, f.order, f.items, idx, i);
    NextLooked(idx, i);
  }

  // where n rounds have come to
  ghost predicate CountedFinds(items: seq<Item>, f: Finds, idx: S16, n: nat) {
    && Places(items, f.order, f.items)
    && f.idx == LookedFor(idx, n) && f.found == PresentCount(items, idx, n) && f.found + f.missed == n
  }

  lemma CountedNext(items: seq<Item>, f: Finds, g: Finds, op: Op, idx: S16, n: nat)
    requires |items| >= 2 && CountedFinds(items, f, idx, n) && g == NextFinds(f, n) && op == RoundOp(f, n)
    ensures CountedFinds(items, g, idx, n + 1)
  {
    RoundFinds(items, f, g, idx, n);
    ApplyIsMove(op, f.items);
    ApplyPlaces(op, items, f.order, f.items, Apply(op, f.items));
  }

  lemma FindStepsNext(items: seq<Item>, idx: S16, n: nat)
    ensures FindSteps(items, idx, n + 1) == NextFinds(FindSteps(items, idx, n), n)
  {
  }

  lemma CountedFirst(items: seq<Item>, idx: S16)
    ensures CountedFinds(items, FindSteps(items, idx, 0), idx, 0)
  {
    assert FindSteps(items, idx, 0) == FirstFinds(items, idx);
  }

  /** After n rounds, the idx has run on by one a round, and a round counts as found exactly if there is an item of what
      it looked for. */
  lemma FindsCounted(items: seq<Item>, idx: S16, n: nat)
    requires |items| >= 2
    ensures var f := FindSteps(items, idx, n);
            f.idx == LookedFor(idx, n) && f.found == PresentCount(items, idx, n) && f.found + f.missed == n
  {
    var f := FindSteps(items, idx, 0);
    CountedFirst(items, idx);
    for i := 0 to n
      invariant f == FindSteps(items, idx, i) && CountedFinds(items, f, idx, i)
    {
      var g := NextFinds(f, i);
      FindStepsNext(items, idx, i);
      CountedNext(items, f, g, RoundOp(f, i), idx, i);
      f := g;
    }
  }

  /** The bit that a round adds: bit 8 of the second item of the reversed list if nothing was found, otherwise bit 9 of
      the found item if that is odd. */
  lemma FindBitMeans(items: seq<Item>, wanted: Item)
    requires |items| >= 2
    ensures var k, second := FindIndex(items, wanted), Reversed(items)[1];
            FindBit(items, wanted) == if k == |items| then second.data16.Word() / 0x100 % 2
                                      else if items[k].data16.Word() % 2 == 1 then items[k].data16.Word() / 0x200 % 2
                                      else 0
  {
    var k := FindIndex(items, wanted);
    var d := if k == |items| then Reversed(items)[1].data16 else items[k].data16;
    LowOfWord(d);
    WordBits(d);
  }

  lemma WordBits(d: Data16)
    ensures d.Word() % 2 == d.lo % 2 && d.Word() / 0x200 == d.hi / 2
  {
    var h, l, q, r := d.hi / 2, d.hi % 2, d.lo / 2, d.lo % 2;
    assert d.hi == 2 * h + l && d.lo == 2 * q + r;
    QuotientUnique(2, 0x80 * d.hi + q, r);
    QuotientUnique(0x200, h, 0x100 * l + d.lo);
  }

  // The rounds that added their bit
  function OnesCount(items: seq<Item>, idx: S16, n: nat): (r: nat)
    requires |items| >= 2
    ensures r <= n
  {
    if n == 0 then 0 else
      var f := FindSteps(items, idx, n - 1);
      OnesCount(items, idx, n - 1) + if |f.items| >= 2 && FindBit(f.items, Wanted(n - 1, f.idx)) == 1 then 1 else 0
  }

  lemma RoundAdds(f: Finds, i: nat)
    requires |f.order| == |f.items| >= 2 && f.retval < 0xffff
    ensures NextFinds(f, i).retval == f.retval + if FindBit(f.items, Wanted(i, f.idx)) == 1 then 1 else 0
  {
    var bit := FindBit(f.items, Wanted(i, f.idx));
    SmallU16(f.retval + bit);
  }

  lemma SmallU16(x: int)
    requires 0 <= x < 0x1_0000
    ensures ToU16(x) == x
  {
  }

  /** The result so far counts these rounds; it does not overflow, as there are at most 0x7fff of them. */
  lemma RetvalCounts(items: seq<Item>, idx: S16, n: nat)
    requires |items| >= 2 && n <= 0x7fff
    ensures FindSteps(items, idx, n).retval == OnesCount(items, idx, n)
  {
    var f := FindSteps(items, idx, 0);
    assert f == FirstFinds(items, idx);
    for i := 0 to n
      invariant f == FindSteps(items, idx, i) && f.retval == OnesCount(items, idx, i)
    {
      var g := NextFinds(f, i);
      FindStepsPlaces(items, idx, i);
      FindStepsNext(items, idx, i);
      RoundAdds(f, i);
      OnesNext(items, f, idx, i);
      f := g;
    }
  }

  lemma OnesNext(items: seq<Item>, f: Finds, idx: S16, i: nat)
    requires |items| >= 2 && f == FindSteps(items, idx, i) && |f.items| >= 2
    ensures OnesCount(items, idx, i + 1)
         == OnesCount(items, idx, i) + if FindBit(f.items, Wanted(i, f.idx)) == 1 then 1 else 0
  {
  }

  // The orders a sequence goes through alongside a loop
  ghost predicate Moves<T>(moves: seq<seq<T>>, h: seq<Finds>, s: seq<T>) {
    && |moves| == |h| > 0 && moves[0] == s
    && forall k {:trigger moves[k + 1]} :: 0 <= k < |h| - 1 ==> MovedBy(RoundOp(h[k], k), moves[k], moves[k + 1])
  }

  lemma MovesSnoc<T>(moves: seq<seq<T>>, h: seq<Finds>, s: seq<T>, f: Finds, cur: seq<T>)
    requires Moves(moves, h, s) && MovedBy(RoundOp(h[|h| - 1], |h| - 1), moves[|h| - 1], cur)
    ensures Moves(moves + [cur], h + [f], s)
  {
    var m, g := moves + [cur], h + [f];
    forall k | 0 <= k < |g| - 1
      ensures MovedBy(RoundOp(g[k], k), m[k], m[k + 1])
    {
      if k + 1 < |h| {
        assert MovedBy(RoundOp(h[k], k), moves[k], moves[k + 1]);
      }
    }
  }

  lemma {:induction false} MovesPlaces<T>(moves: seq<seq<T>>, h: seq<Finds>, items: seq<Item>, idx: S16, s: seq<T>,
                                          n: nat)
    requires History(h, NextFinds, FirstFinds(items, idx)) && Moves(moves, h, s) && n < |h| && |items| == |s| >= 2
    ensures |h[n].items| == |s| && Places(s, h[n].order, moves[n])
  {
    if n > 0 {
      MovesPlaces(moves, h, items, idx, s, n - 1);
      var k := n - 1;
      assert h[k + 1] == NextFinds(h[k], k) && MovedBy(RoundOp(h[k], k), moves[k], moves[k + 1]);
      ApplyPlaces(RoundOp(h[k], k), s, h[k].order, moves[k], moves[k + 1]);
    }
  }

  // one round with its bookkeeping
  method NextRound(list0: ListHead, info0: Item, retval0: U16, i: S16, ghost s: seq<ListHead>,
                   ghost cells: set<ListHead>, ghost cur0: seq<ListHead>, ghost infos0: seq<ListData>, ghost f: Finds)
    returns (list: ListHead, info: Item, retval: U16, hit: bool, ghost cur: seq<ListHead>, ghost infos: seq<ListData>,
             ghost g: Finds)
    requires |f.order| == |f.items| == |s| >= 3 && i >= 0
    requires Holds(list0, s, cells, cur0, infos0, f.items) && info0.idx == f.idx && retval0 == f.retval
    modifies cells`next
    ensures g == NextFinds(f, i) && Holds(list, s, cells, cur, infos, g.items) && MovedBy(RoundOp(f, i), cur0, cur)
    ensures Counted(f, i, hit, info, retval, g)
  {
    info := info0.(data16 := Data16(0, i % 0x100));
    var bit;
    list, hit, bit, cur, infos := FindRound(list0, info, s, cells, cur0, infos0, f.items);
    g := NextFinds(f, i);
    NextFindsIs(f, i, info, FindOp(f.items, info), bit, g);
    retval := ToU16(retval0 + bit);
    info := info.(idx := NextIdx(info.idx));
  }

  /** The find loop: the list is rearranged and the counters are those of FindSteps. */
  method RunFinds(list0: ListHead, seed3: S16, finder_idx: S16, ghost s: seq<ListHead>, ghost infos0: seq<ListData>,
                  ghost cells: set<ListHead>)
    returns (list: ListHead, info: Item, retval: U16, found: nat, missed: nat, ghost cur: seq<ListHead>,
             ghost infos: seq<ListData>, ghost f: Finds)
    requires |s| >= 3 && Holds(list0, s, cells, s, infos0, Values(infos0))
    modifies cells`next
    ensures f == FindSteps(old(Values(infos0)), finder_idx, Rounds(seed3))
    ensures info == LastWanted(Rounds(seed3), f.idx) && retval == f.retval && found == f.found && missed == f.missed
    ensures found == PresentCount(old(Values(infos0)), finder_idx, Rounds(seed3)) && found + missed == Rounds(seed3)
    ensures Holds(list, s, cells, cur, infos, f.items) && Places(s, f.order, cur)
  {
    ghost var items := Values(infos0);
    FindsCounted(items, finder_idx, Rounds(seed3));
    ghost var h, moves;
    list, info, retval, found, missed, cur, infos, f, h, moves := RunRounds(list0, seed3, finder_idx, s, infos0, cells);
    HistorySteps(h, NextFinds, FirstFinds(items, finder_idx), Rounds(seed3));
    MovesPlaces(moves, h, items, finder_idx, s, Rounds(seed3));
  }

  method RunRounds(list0: ListHead, seed3: S16, finder_idx: S16, ghost s: seq<ListHead>, ghost infos0: seq<ListData>,
                   ghost cells: set<ListHead>)
    returns (list: ListHead, info: Item, retval: U16, found: nat, missed: nat, ghost cur: seq<ListHead>,
             ghost infos: seq<ListData>, ghost f: Finds, ghost h: seq<Finds>, ghost moves: seq<seq<ListHead>>)
    requires |s| >= 3 && Holds(list0, s, cells, s, infos0, Values(infos0))
    modifies cells`next
    ensures History(h, NextFinds, FirstFinds(old(Values(infos0)), finder_idx)) && |h| == Rounds(seed3) + 1
    ensures f == h[Rounds(seed3)]
    ensures Moves(moves, h, s) && cur == moves[Rounds(seed3)]
    ensures info == LastWanted(Rounds(seed3), f.idx) && retval == f.retval && found == f.found && missed == f.missed
    ensures Holds(list, s, cells, cur, infos, f.items)
  {
    list, retval, found, missed, cur, infos := list0, 0, 0, 0, s, infos0;
    info := Item(Data16(0, 0), finder_idx);
    f := FirstFinds(Values(infos0), finder_idx);
    h, moves := [f], [s];
    ghost var start := f;
    var i: S16 := 0;
    while i < seed3
      invariant 0 <= i <= Rounds(seed3) && |h| == i + 1 && f == h[i] && |f.items| == |s|
      invariant History(h, NextFinds, start)
      invariant info == LastWanted(i, f.idx) && retval == f.retval && found == f.found && missed == f.missed
      invariant Holds(list, s, cells, cur, infos, f.items) && |f.order| == |s|
      invariant Moves(moves, h, s) && cur == moves[i]
    {
      var hit;
      list, info, retval, hit, cur, infos, f := NextRound(list, info, retval, i, s, cells, cur, infos, f);
      HistorySnoc(h, NextFinds, start, f);
      MovesSnoc(moves, h, s, f, cur);
      h, moves := h + [f], moves + [cur];
      if hit {
        found := found + 1;
      } else {
        missed := missed + 1;
      }
      i := i + 1;
    }
    assert i == Rounds(seed3);
  }
}
