// core_list_init: the list is laid out in a block of memory, indexed and sorted
// (benchmarks/coremark/core_list_join.c).

module ListInit {
  import opened Words
  import opened Cells
  import opened SortSpec
  import opened Comparators
  import opened ListOps
  import opened FindLoop
  import opened BenchList

  // ---- The items of the list before it is sorted

  /** Item i of the initialization loop: a pattern and the number of an algorithm, in both bytes. */
  function DataOf(seed: U16, i: nat): (d: Data16)
    ensures d.lo == d.hi < 0x80
  {
    assert Pow2(4) == 16;
    var dat := Xor(seed, i, 4) * 8 + i % 8;
    Data16(dat, dat)
  }

  /** The idx given to the cell at position p: the first fifth in order, the others mixed. */
  function IdxOf(size: nat, seed: U16, p: nat): S16 {
    if p < size / 5 then ToS16(p) else MixedIdx(p + 1, Xor(p, seed, 16))
  }

  function MixedIdx(i: nat, pat: nat): (r: S16)
    ensures 0 <= r < 0x4000
  {
    assert Pow2(14) == 0x4000 by { assert Pow2(4) == 16; assert Pow2(8) == 256; assert Pow2(12) == 0x1000; }
    Or(i % 8 * 0x100, pat, 14)
  }

  function Header(): Item { Item(Data16(0x80, 0x80), 0) }
  function Sentinel(): Item { Item(Data16(0xff, 0xff), 0x7fff) }

  /** Every new cell goes in behind the header, so the item made last comes first. */
  function InitItem(size: nat, seed: U16, p: nat): Item
    requires size >= 3 && p < size - 1
  {
    if p == 0 then Header()
    else if p == size - 2 then Sentinel()
    else Item(DataOf(seed, size - 3 - p), IdxOf(size, seed, p))
  }

  function InitItems(size: nat, seed: U16): (items: seq<Item>)
    requires size >= 3
    ensures |items| == size - 1 && forall p :: 0 <= p < size - 1 ==> items[p] == InitItem(size, seed, p)
  {
    seq(size - 1, p requires 0 <= p < size - 1 => InitItem(size, seed, p))
  }

  /** What the item made i-th holds: the number of a kernel, its input, and the same in both bytes. */
  predicate MadeAs(d: Data16, seed: U16, i: nat) {
    && d.hi == d.lo < 0x80 && d.Word() % 8 == i % 8
    && d.Word() / 8 % 0x10 == Xor(seed, i, 4)
  }

  lemma DataMade(seed: U16, i: nat)
    ensures MadeAs(DataOf(seed, i), seed, i)
  {
    var d := DataOf(seed, i);
    assert Pow2(4) == 16;
    WordFields(d);
    QuotientUnique(8, Xor(seed, i, 4), i % 8);
    NoHighBits(Xor(seed, i, 4));
  }

  lemma NoHighBits(x: nat)
    requires x < 0x10
    ensures x % 0x10 == x
  {
  }

  /** Of eight items made one after the other, each kernel number comes once. */
  lemma EightKernels(i: nat, number: nat) returns (k: nat)
    requires number < 8
    ensures i <= k < i + 8 && k % 8 == number && forall j :: i <= j < i + 8 && j % 8 == number ==> j == k
  {
    var q, r := i / 8, i % 8;
    assert i == 8 * q + r;
    if number >= r {
      k := 8 * q + number;
      QuotientUnique(8, q, number);
    } else {
      k := 8 * (q + 1) + number;
      QuotientUnique(8, q + 1, number);
    }
    forall j | i <= j < i + 8 && j % 8 == number
      ensures j == k
    {
      SameEight(j, k);
    }
  }

  lemma SameEight(j: nat, k: nat)
    requires j % 8 == k % 8 && -8 < j - k < 8
    ensures j == k
  {
  }

  // ---- The block of memory

  // 16 bytes for a list_head (8 with 32-bit pointers) and 4 for its list_data
  function SizeOf(blksize: nat): int { blksize / 20 - 2 }

  /** The list_head cells and, behind them, the list_data cells of the block, and the next free one of each. */
  class Pool {
    const heads: seq<ListHead>
    const datas: seq<ListData>
    var memblock: nat
    var datablock: nat

    constructor (heads: seq<ListHead>, datas: seq<ListData>)
      ensures this.heads == heads && this.datas == datas && memblock == datablock == 0
    {
      this.heads := heads;
      this.datas := datas;
      memblock, datablock := 0, 0;
    }

    predicate Full()
      reads this
    {
      memblock + 1 >= |heads| || datablock + 1 >= |datas|
    }
  }

  /** core_list_insert_new: a cell from the pool goes in behind `point`, with a copy of `info`; one cell of the
      pool always stays unused. */
  method CoreListInsertNew(point: ListHead, info: Item, pool: Pool) returns (newitem: ListHead?)
    requires pool.memblock < |pool.heads| && pool.datablock < |pool.datas| && point != pool.heads[pool.memblock]
    modifies pool, point`next, pool.heads[pool.memblock], pool.datas[pool.datablock]
    ensures old(pool.Full()) ==>
              && newitem == null && unchanged(pool) && unchanged(point)
              && unchanged(pool.heads[old(pool.memblock)]) && unchanged(pool.datas[old(pool.datablock)])
    ensures !old(pool.Full()) ==>
              && newitem == pool.heads[old(pool.memblock)] && newitem.info == pool.datas[old(pool.datablock)]
              && newitem.info.Value() == info && newitem.next == old(point.next) && point.next == newitem
              && pool.memblock == old(pool.memblock) + 1 && pool.datablock == old(pool.datablock) + 1
  {
    if pool.memblock + 1 >= |pool.heads| {
      return null;
    }
    if pool.datablock + 1 >= |pool.datas| {
      return null;
    }
    newitem := pool.heads[pool.memblock];
    pool.memblock := pool.memblock + 1;
    newitem.next := point.next;
    point.next := newitem;
    newitem.info := pool.datas[pool.datablock];
    pool.datablock := pool.datablock + 1;
    newitem.info.data16 := info.data16;
    newitem.info.idx := info.idx;
  }

  // ---- The layout

  // The first m cells in list order: the header, then the others, the last one made first
  function LaidOut<T>(a: seq<T>, m: nat): (s: seq<T>)
    requires 1 <= m <= |a|
    ensures |s| == m && forall p :: 0 <= p < m ==> s[p] == a[if p == 0 then 0 else m - p]
  {
    seq(m, p requires 0 <= p < m => a[if p == 0 then 0 else m - p])
  }

  /** The pool has given out m cells, which form a list with these items. */
  ghost predicate Laid(pool: Pool, m: nat, items: seq<Item>)
    reads pool, pool.heads, pool.datas
  {
    && 1 <= m < |pool.heads| == |pool.datas| && Distinct(pool.heads) && Distinct(pool.datas)
    && pool.memblock == pool.datablock == m
    && IsList(pool.heads[0], LaidOut(pool.heads, m))
    && Has(LaidOut(pool.heads, m), LaidOut(pool.datas, m))
    && Values(LaidOut(pool.datas, m)) == items
  }

  // the items with one more behind the first
  function Behind<T>(items: seq<T>, x: T): (r: seq<T>)
    requires items != []
    ensures |r| == |items| + 1 && forall p :: 0 <= p < |r| ==>
            r[p] == if p == 0 then items[0] else if p == 1 then x else items[p - 1]
  {
    [items[0], x] + items[1..]
  }

  method InsertBehind(info: Item, pool: Pool, ghost m: nat, ghost items: seq<Item>)
    requires Laid(pool, m, items)
    modifies pool, pool.heads[..], pool.datas[..]
    ensures m + 1 < |pool.heads| ==> Laid(pool, m + 1, Behind(items, info))
    ensures m + 1 == |pool.heads| ==> Laid(pool, m, items)
  {
    ghost var s, d := LaidOut(pool.heads, m), LaidOut(pool.datas, m);
    assert s[0].next == if m == 1 then null else s[1];
    var newitem := CoreListInsertNew(pool.heads[0], info, pool);
    if m + 1 < |pool.heads| {
      ghost var r, rd := LaidOut(pool.heads, m + 1), LaidOut(pool.datas, m + 1);
      forall p | 0 <= p < |r|
        ensures r[p].next == (if p + 1 < |r| then r[p + 1] else null) && r[p].info == rd[p]
        ensures rd[p].Value() == Behind(items, info)[p]
      {
        if p > 1 {
          assert r[p] == s[p - 1] && rd[p] == d[p - 1] && d[p - 1].Value() == items[p - 1];
          assert s[p - 1].next == if p < m then s[p] else null;
        } else if p == 0 {
          assert d[0].Value() == items[0] && s[0].info == d[0];
        }
      }
    }
  }

  // The items while the list is filled, all of them with the sentinel's idx but the header
  function RawItem(seed: U16, m: nat, p: nat): Item
    requires 2 <= m && p < m
  {
    if p == 0 then Header() else if p == m - 1 then Sentinel() else Item(DataOf(seed, m - 2 - p), 0x7fff)
  }

  /** The items of m cells of which those before position i are indexed. */
  function Indexed(size: nat, seed: U16, m: nat, i: nat): (items: seq<Item>)
    requires 2 <= m
    ensures |items| == m && forall p :: 0 <= p < m ==> items[p] == IndexedItem(size, seed, m, i, p)
  {
    seq(m, p requires 0 <= p < m => IndexedItem(size, seed, m, i, p))
  }

  function IndexedItem(size: nat, seed: U16, m: nat, i: nat, p: nat): Item
    requires 2 <= m && p < m
  {
    var raw := RawItem(seed, m, p);
    if 1 <= p < i && p < m - 1 then raw.(idx := IdxOf(size, seed, p)) else raw
  }

  // the header and the sentinel
  method Begin(pool: Pool, size: nat, seed: U16)
    requires |pool.heads| == |pool.datas| == size >= 3 && Distinct(pool.heads) && Distinct(pool.datas)
    modifies pool, pool.heads[..], pool.datas[..]
    ensures Laid(pool, 2, Indexed(size, seed, 2, 1))
  {
    var list := pool.heads[0];
    list.next := null;
    list.info := pool.datas[0];
    list.info.idx := 0;
    list.info.data16 := Data16(0x80, 0x80);
    pool.memblock := 1;
    pool.datablock := 1;
    assert Laid(pool, 1, [Header()]);
    InsertBehind(Sentinel(), pool, 1, [Header()]);
    assert Behind([Header()], Sentinel()) == Indexed(size, seed, 2, 1);
  }

  lemma NextRaw(size: nat, seed: U16, i: nat)
    requires 2 + i + 1 < size
    ensures Behind(Indexed(size, seed, 2 + i, 1), Item(DataOf(seed, i), 0x7fff)) == Indexed(size, seed, 2 + i + 1, 1)
  {
  }

  /** Fill the block: header, sentinel, and one item after the other until the pool has only one cell left. */
  method Fill(pool: Pool, size: nat, seed: U16)
    requires |pool.heads| == |pool.datas| == size >= 3 && Distinct(pool.heads) && Distinct(pool.datas)
    modifies pool, pool.heads[..], pool.datas[..]
    ensures Laid(pool, size - 1, Indexed(size, seed, size - 1, 1))
  {
    Begin(pool, size, seed);
    ghost var m := 2;
    var i := 0;
    while i < size
      invariant 0 <= i <= size && m == if 2 + i < size then 2 + i else size - 1
      invariant Laid(pool, m, Indexed(size, seed, m, 1))
    {
      InsertBehind(Item(DataOf(seed, i), 0x7fff), pool, m, Indexed(size, seed, m, 1));
      if m + 1 < size {
        NextRaw(size, seed, i);
        m := m + 1;
      }
      i := i + 1;
    }
  }

  // a new idx for the cell at position p of the list
  method SetIdx(finder: ListHead, idx: S16, pool: Pool, ghost m: nat, ghost p: nat, ghost items: seq<Item>)
    requires Laid(pool, m, items) && p < m && finder == LaidOut(pool.heads, m)[p]
    modifies pool.datas[..]
    ensures Laid(pool, m, items[p := items[p].(idx := idx)])
  {
    ghost var s, d := LaidOut(pool.heads, m), LaidOut(pool.datas, m);
    assert finder.info == d[p];
    finder.info.idx := idx;
    forall k | 0 <= k < m
      ensures d[k].Value() == items[p := items[p].(idx := idx)][k]
    {
    }
  }

  // the body of the indexing loop
  method IndexStep(finder: ListHead, i: nat, pool: Pool, size: nat, seed: U16)
    requires size >= 3 && 1 <= i < size - 2 && Laid(pool, size - 1, Indexed(size, seed, size - 1, i))
    requires finder == LaidOut(pool.heads, size - 1)[i]
    modifies pool.datas[..]
    ensures Laid(pool, size - 1, Indexed(size, seed, size - 1, i + 1))
  {
    ghost var items := Indexed(size, seed, size - 1, i);
    if i < size / 5 {
      SetIdx(finder, ToS16(i), pool, size - 1, i, items);
    } else {
      var pat := Xor(i, seed, 16);
      SetIdx(finder, MixedIdx(i + 1, pat), pool, size - 1, i, items);
    }
    assert items[i := items[i].(idx := IdxOf(size, seed, i))] == Indexed(size, seed, size - 1, i + 1);
  }

  /** Index the list between header and sentinel. */
  method Index(pool: Pool, size: nat, seed: U16)
    requires size >= 3 && Laid(pool, size - 1, Indexed(size, seed, size - 1, 1))
    modifies pool.datas[..]
    ensures Laid(pool, size - 1, InitItems(size, seed))
  {
    ghost var m := size - 1;
    ghost var s := LaidOut(pool.heads, m);
    assert s[0].next == s[1];
    assert s[1].next == if 2 < m then s[2] else null;
    var finder := pool.heads[0].next;
    var i := 1;
    while finder.next != null
      invariant 1 <= i < m && finder == s[i] && finder.next == if i + 1 < m then s[i + 1] else null
      invariant Laid(pool, m, Indexed(size, seed, m, i))
      decreases m - i
    {
      IndexStep(finder, i, pool, size, seed);
      finder := finder.next;
      i := i + 1;
      assert s[i].next == if i + 1 < m then s[i + 1] else null;
    }
    assert Indexed(size, seed, m, i) == InitItems(size, seed);
  }

  /** So the cells of the list are the first cells of the pool, each of them once. */
  lemma LaidOutCells<T>(a: seq<T>, m: nat, t: seq<nat>)
    requires 1 <= m <= |a| && Distinct(a) && Permutes(t, m)
    ensures multiset(Rearranged(LaidOut(a, m), t)) == multiset(a[..m])
  {
    var s := LaidOut(a, m);
    assert s == [a[0]] + Reversed(a[1..m]) by {
      forall p | 0 <= p < m
        ensures s[p] == ([a[0]] + Reversed(a[1..m]))[p]
      {
      }
    }
    ReversedMultiset(a[1..m]);
    assert a[..m] == [a[0]] + a[1..m];
    RearrangedMultiset(s, t);
  }

  /** A block for `size` cells of each kind is filled, indexed and sorted; `t` is the order of the sort. */
  method InitBlock(pool: Pool, size: nat, seed: U16)
    returns (list: ListHead, ghost s: seq<ListHead>, ghost infos: seq<ListData>, ghost t: seq<nat>)
    requires 3 <= size == |pool.heads| == |pool.datas| && size < 0x8000_0000
    requires Distinct(pool.heads) && Distinct(pool.datas)
    modifies pool, pool.heads[..], pool.datas[..]
    ensures IsList(list, s) && Has(s, infos) && |s| == |infos| == size - 1 && Permutes(t, |s|)
    ensures s == Rearranged(LaidOut(pool.heads, |s|), t) && infos == Rearranged(LaidOut(pool.datas, |s|), t)
    ensures BackSorted(InitItems(size, seed), t, Values(infos))
  {
    Fill(pool, size, seed);
    Index(pool, size, seed);
    ghost var s0, infos0 := LaidOut(pool.heads, size - 1), LaidOut(pool.datas, size - 1);
    ghost var cells, datas := (set h | h in pool.heads), (set d | d in pool.datas);
    list, t := Sort(pool.heads[0], CmpIdx, null, s0, infos0, multiset(s0), cells, datas);
    s, infos := Rearranged(s0, t), Rearranged(infos0, t);
    RunByIdx(InitItems(size, seed), Values(infos0), t);
  }

  /** The data that the initialised list holds: header and sentinel come first in the block, and then the items in the
      order in which they were made. */
  ghost predicate Made(datas: seq<ListData>, size: nat, seed: U16)
    requires 3 <= size <= |datas|
    reads datas
  {
    && datas[0].data16.Word() == 0x8080 && datas[0].idx == 0
    && datas[1].data16.Word() == 0xffff && datas[1].idx == 0x7fff
    && forall i :: 0 <= i < size - 3 ==> MadeIn(datas, seed, i)
  }

  ghost predicate MadeIn(datas: seq<ListData>, seed: U16, i: nat)
    reads datas
  {
    i + 2 < |datas| && MadeAs(datas[i + 2].data16, seed, i)
  }

  lemma InitMade(pool: Pool, size: nat, seed: U16, infos: seq<ListData>, t: seq<nat>)
    requires 3 <= size <= |pool.datas| && |infos| == size - 1 && Permutes(t, size - 1)
    requires infos == Rearranged(LaidOut(pool.datas, size - 1), t)
    requires BackSorted(InitItems(size, seed), t, Values(infos))
    ensures Made(pool.datas, size, seed)
  {
    DataAt(pool, size, seed, infos, t, 0);
    DataAt(pool, size, seed, infos, t, size - 2);
    forall i | 0 <= i < size - 3
      ensures MadeIn(pool.datas, seed, i)
    {
      DataAt(pool, size, seed, infos, t, size - 3 - i);
      DataMade(seed, i);
    }
  }

  // the data cell at position p of the list before it is sorted
  lemma DataAt(pool: Pool, size: nat, seed: U16, infos: seq<ListData>, t: seq<nat>, p: nat)
    requires 3 <= size <= |pool.datas| && |infos| == size - 1 && Permutes(t, size - 1) && p < size - 1
    requires infos == Rearranged(LaidOut(pool.datas, size - 1), t)
    requires BackSorted(InitItems(size, seed), t, Values(infos))
    ensures var d, item := pool.datas[if p == 0 then 0 else size - 1 - p], InitItem(size, seed, p);
            d.data16 == item.data16.Rebuilt() && d.idx == item.idx
  {
    PermutesOnto(t, size - 1, p);
    var j :| 0 <= j < |t| && t[j] == p;
    assert infos[j] == LaidOut(pool.datas, size - 1)[p];
    assert Values(infos)[j] == AllRebuilt(InitItems(size, seed))[p];
  }

  /** core_list_init: a list sorted by idx, of all cells of the block but one of each kind. */
  method CoreListInit(blksize: nat, pool: Pool, seed: U16)
    returns (list: ListHead, ghost s: seq<ListHead>, ghost infos: seq<ListData>, ghost t: seq<nat>)
    requires 3 <= SizeOf(blksize) == |pool.heads| == |pool.datas| && SizeOf(blksize) < 0x8000_0000
    requires Distinct(pool.heads) && Distinct(pool.datas)
    modifies pool, pool.heads[..], pool.datas[..]
    ensures IsList(list, s) && Has(s, infos) && |s| == |infos| == SizeOf(blksize) - 1 && Permutes(t, |s|)
    ensures s == Rearranged(LaidOut(pool.heads, |s|), t) && infos == Rearranged(LaidOut(pool.datas, |s|), t)
    ensures BackSorted(InitItems(SizeOf(blksize), seed), t, Values(infos))
    ensures Made(pool.datas, SizeOf(blksize), seed)
  {
    list, s, infos, t := InitBlock(pool, SizeOf(blksize), seed);
    InitMade(pool, SizeOf(blksize), seed, infos, t);
  }
}
