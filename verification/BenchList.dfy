// core_bench_list: find, sort by data, remove, undo and sort back (benchmarks/coremark/core_list_join.c).

module BenchList {
  import opened Words
  import opened Cells
  import opened SortSpec
  import opened Comparators
  import opened ListOps
  import opened MergeSort
  import opened Loops
  import opened FindLoop
  import Crc

  // ---- What a call returns, on values

  // The CRC of the same value, `times` times over
  function CrcTimes(value: U16, times: nat, crc: U16): U16 {
    Iterate((c: U16, i: nat) => Crc.Crc16(value, c) as U16, crc, times)
  }

  /** How many cells follow from the one the final search finds, in the list without its second item; a failed
      search counts from the second cell. */
  function TailLength(mid: seq<Item>, wanted: Item): (n: nat)
    requires |mid| >= 3
    ensures 1 <= n < |mid|
  {
    var rest := Without(mid, 1);
    var k := FindIndex(rest, wanted);
    |rest| - if k == |rest| then 1 else k
  }

  /** In terms of that list: the cells from the first one that matches on, or all but its head if none does. */
  lemma TailLengthMeans(mid: seq<Item>, wanted: Item, k: nat)
    requires |mid| >= 3 && k < |mid| - 1
    ensures var rest := [mid[0]] + mid[2..];
            && ((forall i :: 0 <= i < |rest| ==> !Matches(rest[i], wanted)) ==>
                  TailLength(mid, wanted) == |rest[1..]|)
            && (Matches(rest[k], wanted) && (forall i :: 0 <= i < k ==> !Matches(rest[i], wanted)) ==>
                  TailLength(mid, wanted) == |rest[k..]|)
  {
    var rest := [mid[0]] + mid[2..];
    assert Without(mid, 1) == rest;
    if forall i :: 0 <= i < |rest| ==> !Matches(rest[i], wanted) {
      FindIndexUnique(rest, wanted, |rest|);
    }
    if Matches(rest[k], wanted) && forall i :: 0 <= i < k ==> !Matches(rest[i], wanted) {
      FindIndexUnique(rest, wanted, k);
    }
  }

  /** The value `r0` after the CRCs of the two heads: that of `mid`, once per cell from the found one on, and
      `head`, once per cell after the first. */
  function TailValue(mid: seq<Item>, head: Data16, wanted: Item, r0: U16): U16
    requires |mid| >= 3
  {
    CrcTimes(head.Word(), |mid| - 1, CrcTimes(mid[0].data16.Word(), TailLength(mid, wanted), r0))
  }

  // What the find loop returns
  function FindValue(f: Finds): U16 { FoundValue(f.retval, f.found, f.missed) }

  function FoundValue(retval: U16, found: nat, missed: nat): U16 { ToU16(retval + found * 4 - missed) }

  /** The value returned after n rounds of finds that ended in `f`, with the items then sorted to `mid` and
      later sorted back to a list whose first item holds `head`. */
  function Result(f: Finds, n: nat, mid: seq<Item>, head: Data16): U16
    requires |mid| >= 3
  {
    TailValue(mid, head, LastWanted(n, f.idx), FindValue(f))
  }

  /** The finds return their ones, and four for each found less one for each missed. */
  lemma FindValueCounts(items: seq<Item>, idx: S16, n: nat, f: Finds)
    requires |items| >= 2 && n <= 0x7fff && f == FindSteps(items, idx, n)
    ensures PresentCount(items, idx, n) <= n
    ensures FindValue(f) == ValueOf(OnesCount(items, idx, n), PresentCount(items, idx, n), n)
  {
    FindsCounted(items, idx, n);
    RetvalCounts(items, idx, n);
    FoundValueIs(f, OnesCount(items, idx, n), PresentCount(items, idx, n), n);
  }

  function ValueOf(ones: nat, hits: nat, n: nat): U16 { ToU16(ones + 4 * hits - (n - hits)) }

  lemma FoundValueIs(f: Finds, ones: nat, hits: nat, n: nat)
    requires f.retval == ones && f.found == hits && f.found + f.missed == n
    ensures hits <= n && FindValue(f) == ValueOf(ones, hits, n)
  {
    assert f.retval + f.found * 4 - f.missed == ones + 4 * hits - (n - hits);
  }

  function WordOf(value: nat): Crc.Word { Crc.ToBits(value, 16) }

  lemma Crc16Bits(value: nat, crc: nat)
    ensures WordOf(Crc.Crc16(value, crc)) == Crc.Fold(WordOf(value), WordOf(crc))
  {
    Crc.BitsRoundTrip(Crc.Fold(WordOf(value), WordOf(crc)));
  }

  /** A value so many times over is the CRC of that many words. */
  lemma CrcTimesIsCrc(value: U16, times: nat, crc: U16)
    ensures WordOf(CrcTimes(value, times, crc)) == Crc.CrcWords(seq(times, i => WordOf(value)), WordOf(crc))
  {
    var next := (c: U16, i: nat) => Crc.Crc16(value, c) as U16;
    for i := 0 to times
      invariant WordOf(CrcTimes(value, i, crc)) == Crc.CrcWords(seq(i, x => WordOf(value)), WordOf(crc))
    {
      var before, words := seq(i, x => WordOf(value)), seq(i + 1, x => WordOf(value));
      assert words[..i] == before && words[i] == WordOf(value);
      Crc16Bits(value, CrcTimes(value, i, crc));
    }
  }

  // ---- The parts of the call

  // The CRC of the head's data, added once for every cell from `finder` to the end
  method CrcFrom(list: ListHead, finder0: ListHead?, retval0: U16, ghost s: seq<ListHead>,
                 ghost from: nat) returns (retval: U16)
    requires IsList(list, s) && from <= |s| && finder0 == if from < |s| then s[from] else null
    ensures retval == CrcTimes(list.info.data16.Word(), |s| - from, retval0)
  {
    var finder := finder0;
    retval := retval0;
    ghost var k := from;
    while finder != null
      invariant from <= k <= |s| && finder == if k < |s| then s[k] else null
      invariant retval == CrcTimes(list.info.data16.Word(), k - from, retval0)
      decreases |s| - k
    {
      retval := Crc.Crc16Of(list.info.data16.Word(), retval);
      finder := finder.next;
      k := k + 1;
    }
  }

  lemma RemovedInfos(s: seq<ListHead>, infos: seq<ListData>)
    requires |s| == |infos| >= 3
    requires s[1].info == infos[2] && s[2].info == infos[1]
    requires forall k :: 0 <= k < |s| && k != 1 && k != 2 ==> s[k].info == infos[k]
    ensures Has(Without(s, 2), Without(infos, 1))
    ensures Values(Without(infos, 1)) == Without(Values(infos), 1)
  {
    forall k | 0 <= k < |s| - 1
      ensures Without(s, 2)[k].info == Without(infos, 1)[k]
    {
      assert s[if k < 2 then k else k + 1].info == infos[if k < 1 then k else k + 1];
    }
  }

  // the search and the CRC between removal and undo
  method MiddleCrc(list: ListHead, info: Item, retval0: U16, ghost w: seq<ListHead>, ghost wi: seq<ListData>,
                   ghost items: seq<Item>)
    returns (retval: U16)
    requires IsList(list, w) && |w| >= 2 && Has(w, wi)
    requires |items| == |w| + 1 && Values(wi) == Without(items, 1)
    ensures retval == CrcTimes(items[0].data16.Word(), TailLength(items, info), retval0)
  {
    var finder := CoreListFind(list, info, w, wi);
    ghost var k := FindIndex(Values(wi), info);
    assert w[0].next == w[1];
    if finder == null {
      finder := list.next;
      k := 1;
    }
    assert w[0].info == wi[0] && Values(wi)[0] == items[0];
    retval := CrcFrom(list, finder, retval0, w, k);
  }

  /** Remove the second item, add the CRC of the head once per cell from the found one on, undo the removal. */
  method RemoveAndUndo(list: ListHead, info: Item, retval0: U16, ghost s: seq<ListHead>, ghost infos: seq<ListData>,
                       ghost cells: set<ListHead>)
    returns (retval: U16)
    requires IsList(list, s) && |s| >= 3 && Owned(s, cells) && Has(s, infos)
    modifies cells`next, cells`info
    ensures IsList(list, s) && Has(s, infos)
    ensures retval == CrcTimes(old(Values(infos))[0].data16.Word(), TailLength(old(Values(infos)), info), retval0)
  {
    ghost var items := Values(infos);
    assert list.next == s[1] && s[0].next == s[1];
    var remover := CoreListRemove(list.next, list, s, 1, cells);
    ghost var w := Without(s, 2);
    RemovedInfos(s, infos);
    retval := MiddleCrc(list, info, retval0, w, Without(infos, 1), items);
    assert w[1] == s[1] && w[0].next == w[1];
    var undone := CoreListUndoRemove(remover, list.next, list, s, 1, cells);
  }

  lemma RearrangedMultiset<T>(s: seq<T>, t: seq<nat>)
    requires Distinct(s) && Permutes(t, |s|) && Distinct(Rearranged(s, t))
    ensures multiset(Rearranged(s, t)) == multiset(s)
  {
    var r := Rearranged(s, t);
    forall x
      ensures multiset(r)[x] == multiset(s)[x]
    {
      DistinctCount(s, x);
      DistinctCount(r, x);
      assert x in multiset(s) <==> x in s;
      assert x in multiset(r) <==> x in r;
      if x in s {
        var k :| 0 <= k < |s| && s[k] == x;
        PermutesOnto(t, |s|, k);
        var i :| 0 <= i < |t| && t[i] == k;
        assert r[i] == x;
      }
    }
  }

  lemma HasRearranged(s: seq<ListHead>, infos: seq<ListData>, t: seq<nat>)
    requires Has(s, infos) && Within(t, |s|)
    ensures Has(Rearranged(s, t), Rearranged(infos, t))
    ensures Values(Rearranged(infos, t)) == Rearranged(Values(infos), t)
  {
    var r, ri := Rearranged(s, t), Rearranged(infos, t);
    forall k | 0 <= k < |r|
      ensures r[k].info == ri[k]
    {
      assert s[t[k]].info == infos[t[k]];
    }
  }

  /** The list, as it is handed from one step of the call to the next: it has the cells of `all`, its cells
      are `s`, their data cells `infos`. */
  ghost predicate Listed(list: ListHead, s: seq<ListHead>, infos: seq<ListData>, all: multiset<ListHead>,
                         cells: set<ListHead>, datas: set<ListData>)
    reads s
  {
    && IsList(list, s) && multiset(s) == all && Owned(s, cells) && Has(s, infos)
    && forall k :: 0 <= k < |infos| ==> infos[k] in datas
  }

  /** core_list_mergesort, on a list of the call. */
  method Sort(list: ListHead, cmp: Cmp, res: CoreResults?, ghost s: seq<ListHead>, ghost infos: seq<ListData>,
              ghost all: multiset<ListHead>, ghost cells: set<ListHead>, ghost datas: set<ListData>)
    returns (r: ListHead, ghost t: seq<nat>)
    requires cmp.CmpComplex? ==> res != null
    requires Listed(list, s, infos, all, cells, datas) && 0 < |s| < 0x8000_0000
    modifies cells`next, datas`data16, if res == null then {} else {res}
    ensures Permutes(t, |s|) && Listed(r, Rearranged(s, t), Rearranged(infos, t), all, cells, datas)
    ensures Values(Rearranged(infos, t)) == Rearranged(Values(infos), t)
    ensures Evolves(OrderOf(cmp, res == null), old(Values(infos)), Values(infos))
    ensures Run(OrderOf(cmp, res == null), Values(infos), t, 0, |t|)
    ensures Kept(res)
    ensures cmp.CmpComplex? ==> RanOnce(old(res.runs), old(CachedOf(infos)), res.runs, CachedOf(infos))
  {
    assert Infos(s) == infos;
    r, t := CoreListMergesort(list, cmp, res, s, cells, datas);
    assert Has(s, infos);
    HasRearranged(s, infos, t);
    RearrangedMultiset(s, t);
  }

  // ---- The list after the call

  predicate Below(items: seq<Item>, i: nat, j: nat)
    requires i < |items| && j < |items|
  {
    items[i].idx < items[j].idx
  }

  ghost predicate IdxIncreasing(items: seq<Item>) {
    forall i, j {:trigger Below(items, i, j)} :: 0 <= i < j < |items| ==> Below(items, i, j)
  }

  ghost predicate IdxSorted(items: seq<Item>) {
    forall i, j :: 0 <= i < j < |items| ==> items[i].idx <= items[j].idx
  }

  /** The lists (s, infos) and (r, rinfos) pair the same cells with the same data cells. */
  ghost predicate Paired(s: seq<ListHead>, infos: seq<ListData>, r: seq<ListHead>, rinfos: seq<ListData>) {
    && |s| == |infos| && |r| == |rinfos|
    && forall k :: 0 <= k < |s| ==> PairAt(s[k], infos[k], r, rinfos)
  }

  ghost predicate PairAt(n: ListHead, d: ListData, r: seq<ListHead>, rinfos: seq<ListData>)
    requires |r| == |rinfos|
  {
    exists j :: 0 <= j < |r| && r[j] == n && rinfos[j] == d
  }

  lemma PairedLists(s: seq<ListHead>, infos: seq<ListData>, r: seq<ListHead>, rinfos: seq<ListData>)
    requires multiset(s) == multiset(r) && Has(s, infos) && Has(r, rinfos)
    ensures Paired(s, infos, r, rinfos)
  {
    forall k | 0 <= k < |s|
      ensures PairAt(s[k], infos[k], r, rinfos)
    {
      assert s[k] in multiset(r);
      var j :| 0 <= j < |r| && r[j] == s[k];
      assert s[k].info == infos[k] && r[j].info == rinfos[j];
    }
  }

  lemma HasPaired(s: seq<ListHead>, infos: seq<ListData>, r: seq<ListHead>, rinfos: seq<ListData>)
    requires Paired(s, infos, r, rinfos) && Has(r, rinfos)
    ensures Has(s, infos)
  {
    forall k | 0 <= k < |s|
      ensures s[k].info == infos[k]
    {
      assert PairAt(s[k], infos[k], r, rinfos);
      var j :| 0 <= j < |r| && r[j] == s[k] && rinfos[j] == infos[k];
      assert r[j].info == rinfos[j];
    }
  }

  // A fact about every data cell of one list holds for the other.
  lemma PairedData(s: seq<ListHead>, infos: seq<ListData>, r: seq<ListHead>, rinfos: seq<ListData>,
                   k: nat) returns (j: nat)
    requires Paired(s, infos, r, rinfos) && k < |s|
    ensures j < |rinfos| && rinfos[j] == infos[k]
  {
    assert PairAt(s[k], infos[k], r, rinfos);
    j :| 0 <= j < |r| && r[j] == s[k] && rinfos[j] == infos[k];
  }

  // The data of the data cells, as it was at some point
  ghost function Snapshot(datas: set<ListData>): (was: map<ListData, Data16>)
    reads datas
    ensures was.Keys == datas && forall d :: d in datas ==> was[d] == d.data16
  {
    map d | d in datas :: d.data16
  }

  ghost predicate Recorded(was: map<ListData, Data16>, infos: seq<ListData>, items: seq<Item>) {
    |items| == |infos| && forall k :: 0 <= k < |infos| ==> infos[k] in was && items[k].data16 == was[infos[k]]
  }

  // What a sort keeps of the data cells of one list it keeps of those of the other,
  lemma PairedHigh(o: Order, was: map<ListData, Data16>, before: seq<Item>, s: seq<ListHead>, infos: seq<ListData>,
                   r: seq<ListHead>, rinfos: seq<ListData>)
    requires Paired(s, infos, r, rinfos) && Recorded(was, rinfos, before) && Evolves(o, before, Values(rinfos))
    ensures forall k :: 0 <= k < |infos| ==> infos[k] in was && infos[k].data16.hi == was[infos[k]].hi
  {
    ghost var after := Values(rinfos);
    forall k | 0 <= k < |infos|
      ensures infos[k] in was && infos[k].data16.hi == was[infos[k]].hi
    {
      var j := PairedData(s, infos, r, rinfos, k);
      assert DataStep(o, before[j].data16, after[j].data16);
    }
  }

  // and what they have all become.
  lemma PairedRebuilt(was: map<ListData, Data16>, before: seq<Item>, s: seq<ListHead>, infos: seq<ListData>,
                      r: seq<ListHead>, rinfos: seq<ListData>)
    requires Paired(s, infos, r, rinfos) && Recorded(was, rinfos, before) && Values(rinfos) == AllRebuilt(before)
    ensures forall k :: 0 <= k < |infos| ==> infos[k] in was && infos[k].data16 == was[infos[k]].Rebuilt()
  {
    ghost var after := Values(rinfos);
    forall k | 0 <= k < |infos|
      ensures infos[k] in was && infos[k].data16 == was[infos[k]].Rebuilt()
    {
      var j := PairedData(s, infos, r, rinfos, k);
      assert after[j] == AllRebuilt(before)[j];
    }
  }

  /** `last` is `mid` with all data rebuilt, stably sorted by idx into the order `t`. */
  ghost predicate BackSorted(mid: seq<Item>, t: seq<nat>, last: seq<Item>) {
    Permutes(t, |mid|) && last == Rearranged(AllRebuilt(mid), t) && Sorted(ByIdxRebuild, AllRebuilt(mid), t, 0, |t|)
  }

  lemma BackSortedByIdx(mid: seq<Item>, t: seq<nat>, last: seq<Item>)
    requires BackSorted(mid, t, last)
    ensures IdxSorted(last)
  {
    forall i, j | 0 <= i < j < |last|
      ensures last[i].idx <= last[j].idx
    {
      assert Before(ByIdxRebuild, AllRebuilt(mid), t[i], t[j]);
    }
  }

  lemma RunByIdx(u: View, v: View, t: seq<nat>)
    requires Permutes(t, |v|) && |v| >= 2 && Run(ByIdxRebuild, v, t, 0, |t|) && Evolves(ByIdxRebuild, u, v)
    ensures v == AllRebuilt(u) && BackSorted(u, t, Rearranged(v, t))
  {
    forall n | 0 <= n < |v|
      ensures v[n] == AllRebuilt(u)[n]
    {
      PermutesOnto(t, |v|, n);
      var i :| 0 <= i < |t| && t[i] == n;
      assert Settled(ByIdxRebuild, v[t[i]].data16);
      assert DataStep(ByIdxRebuild, u[n].data16, v[n].data16);
    }
  }

  /** The items with every low data byte replaced by its backup. */
  function AllRebuilt(items: seq<Item>): (r: seq<Item>)
    ensures |r| == |items| && forall i :: 0 <= i < |items| ==> r[i] == Item(items[i].data16.Rebuilt(), items[i].idx)
  {
    seq(|items|, i requires 0 <= i < |items| => Item(items[i].data16.Rebuilt(), items[i].idx))
  }

  // ---- The call

  /** `mid` is `items` stably sorted by the 7-bit keys, every one of them computed: `v` are the items after the
      sort in their old order, `t` the new order. */
  ghost predicate DataSorted(items: seq<Item>, v: seq<Item>, t: seq<nat>, mid: seq<Item>) {
    && Evolves(ByData, items, v) && Permutes(t, |v|) && Run(ByData, v, t, 0, |t|)
    && mid == Rearranged(v, t)
  }

  ghost function Uncached(infos: seq<ListData>): set<ListData>
    reads infos
  {
    set d | d in infos && !d.data16.Cached()
  }

  lemma AllCached(infos: seq<ListData>, t: seq<nat>)
    requires Permutes(t, |infos|) && |infos| >= 2 && Run(ByData, Values(infos), t, 0, |t|)
    ensures Uncached(infos) == {}
  {
    ghost var v := Values(infos);
    forall d | d in infos
      ensures d.data16.Cached()
    {
      var n :| 0 <= n < |infos| && infos[n] == d;
      PermutesOnto(t, |infos|, n);
      var i :| 0 <= i < |t| && t[i] == n;
      assert Settled(ByData, v[t[i]].data16);
    }
  }

  // The newly cached items, when all are cached now
  lemma NewlyCached(infos: seq<ListData>, cached0: set<ListData>, uncached0: set<ListData>)
    requires Uncached(infos) == {}
    requires forall d :: d in infos ==> (d in cached0 <==> d !in uncached0)
    requires forall d :: d in cached0 || d in uncached0 ==> d in infos
    ensures CachedOf(infos) - cached0 == uncached0
  {
    forall d | d in infos
      ensures d.data16.Cached()
    {
      assert d !in Uncached(infos);
    }
  }

  method SortByData(list0: ListHead, res: CoreResults, ghost s: seq<ListHead>, ghost infos0: seq<ListData>,
                    ghost cur0: seq<ListHead>, ghost curInfos0: seq<ListData>, ghost cells: set<ListHead>,
                    ghost datas: set<ListData>)
    returns (list: ListHead, ghost cur: seq<ListHead>, ghost infos: seq<ListData>, ghost v: seq<Item>,
             ghost t: seq<nat>)
    requires Listed(list0, cur0, curInfos0, multiset(s), cells, datas) && 3 <= |cur0| < 0x8000_0000
    requires Has(s, infos0)
    modifies cells`next, datas`data16, res
    ensures Listed(list, cur, infos, multiset(s), cells, datas) && |cur| == |cur0| && Has(s, infos0)
    ensures Permutes(t, |cur0|) && cur == Rearranged(cur0, t)
    ensures DataSorted(old(Values(curInfos0)), v, t, Values(infos))
    ensures forall k :: 0 <= k < |s| ==> infos0[k].data16.hi == old(infos0[k].data16.hi)
    ensures Kept(res) && res.runs == old(res.runs) + multiset(old(Uncached(curInfos0)))
  {
    PairedLists(s, infos0, cur0, curInfos0);
    ghost var before, was, cached0, uncached0 := Values(curInfos0), Snapshot(datas), CachedOf(curInfos0),
      Uncached(curInfos0);
    list, t := Sort(list0, CmpComplex, res, cur0, curInfos0, multiset(s), cells, datas);
    cur, infos, v := Rearranged(cur0, t), Rearranged(curInfos0, t), Values(curInfos0);
    AllCached(curInfos0, t);
    NewlyCached(curInfos0, cached0, uncached0);
    PairedHigh(ByData, was, before, s, infos0, cur0, curInfos0);
  }

  /** Sort back by idx, which also rebuilds the data of every item. */
  method SortByIdx(list0: ListHead, ghost s: seq<ListHead>, ghost infos0: seq<ListData>, ghost cur0: seq<ListHead>,
                   ghost curInfos0: seq<ListData>, ghost cells: set<ListHead>, ghost datas: set<ListData>)
    returns (list: ListHead, ghost cur: seq<ListHead>, ghost infos: seq<ListData>, ghost t: seq<nat>)
    requires Listed(list0, cur0, curInfos0, multiset(s), cells, datas) && 3 <= |cur0| < 0x8000_0000
    requires Has(s, infos0)
    modifies cells`next, datas`data16
    ensures Listed(list, cur, infos, multiset(s), cells, datas) && |cur| == |cur0| && Has(s, infos0)
    ensures Permutes(t, |cur0|) && cur == Rearranged(cur0, t) && BackSorted(old(Values(curInfos0)), t, Values(infos))
    ensures forall k :: 0 <= k < |s| ==> infos0[k].data16 == old(infos0[k].data16).Rebuilt()
  {
    PairedLists(s, infos0, cur0, curInfos0);
    ghost var before, was := Values(curInfos0), Snapshot(datas);
    list, t := Sort(list0, CmpIdx, null, cur0, curInfos0, multiset(s), cells, datas);
    cur, infos := Rearranged(cur0, t), Rearranged(curInfos0, t);
    RunByIdx(before, Values(curInfos0), t);
    PairedRebuilt(was, before, s, infos0, cur0, curInfos0);
  }

  // the sort back, and the CRC of the head once per cell behind it
  method SortAndCrc(list0: ListHead, retval0: U16, ghost s: seq<ListHead>, ghost infos0: seq<ListData>,
                    ghost cur0: seq<ListHead>, ghost curInfos0: seq<ListData>, ghost cells: set<ListHead>,
                    ghost datas: set<ListData>)
    returns (list: ListHead, retval: U16, ghost cur: seq<ListHead>, ghost infos: seq<ListData>, ghost t: seq<nat>,
             ghost head: Data16)
    requires Listed(list0, cur0, curInfos0, multiset(s), cells, datas) && 3 <= |cur0| < 0x8000_0000
    requires Has(s, infos0)
    modifies cells`next, datas`data16
    ensures Listed(list, cur, infos, multiset(s), cells, datas) && |cur| == |cur0| && Has(s, infos0)
    ensures Permutes(t, |cur0|) && cur == Rearranged(cur0, t) && BackSorted(old(Values(curInfos0)), t, Values(infos))
    ensures forall k :: 0 <= k < |s| ==> infos0[k].data16 == old(infos0[k].data16).Rebuilt()
    ensures head == Values(infos)[0].data16 && retval == CrcTimes(head.Word(), |cur0| - 1, retval0)
  {
    list, cur, infos, t := SortByIdx(list0, s, infos0, cur0, curInfos0, cells, datas);
    head := infos[0].data16;
    retval := RestCrc(list, retval0, cur, infos, head, |cur0|);
  }

  /** Remove, undo and sort back by idx, with the CRCs of the head on the way. */
  method SortBack(list0: ListHead, info: Item, retval0: U16, ghost s: seq<ListHead>, ghost infos0: seq<ListData>,
                  ghost cur0: seq<ListHead>, ghost curInfos0: seq<ListData>, ghost cells: set<ListHead>,
                  ghost datas: set<ListData>)
    returns (list: ListHead, retval: U16, ghost cur: seq<ListHead>, ghost infos: seq<ListData>, ghost t: seq<nat>)
    requires Listed(list0, cur0, curInfos0, multiset(s), cells, datas) && 3 <= |cur0| < 0x8000_0000
    requires Has(s, infos0)
    modifies cells`next, cells`info, datas`data16
    ensures Listed(list, cur, infos, multiset(s), cells, datas) && |cur| == |cur0| && Has(s, infos0)
    ensures Permutes(t, |cur0|) && cur == Rearranged(cur0, t) && BackSorted(old(Values(curInfos0)), t, Values(infos))
    ensures forall k :: 0 <= k < |s| ==> infos0[k].data16 == old(infos0[k].data16).Rebuilt()
    ensures retval == TailValue(old(Values(curInfos0)), Values(infos)[0].data16, info, retval0)
  {
    ghost var mid, head := Values(curInfos0), *;
    PairedLists(s, infos0, cur0, curInfos0);
    var retval1 := RemoveAndUndo(list0, info, retval0, cur0, curInfos0, cells);
    assert Values(curInfos0) == mid;
    HasPaired(s, infos0, cur0, curInfos0);
    list, retval, cur, infos, t, head := SortAndCrc(list0, retval1, s, infos0, cur0, curInfos0, cells, datas);
    TailIs(mid, head, info, retval0, retval1, retval);
  }

  lemma TailIs(mid: seq<Item>, head: Data16, info: Item, retval0: U16, retval1: U16, retval: U16)
    requires |mid| >= 3 && retval1 == CrcTimes(mid[0].data16.Word(), TailLength(mid, info), retval0)
    requires retval == CrcTimes(head.Word(), |mid| - 1, retval1)
    ensures retval == TailValue(mid, head, info, retval0)
  {
  }

  // the CRC of the head, once per cell behind it
  method RestCrc(list: ListHead, retval0: U16, ghost cur: seq<ListHead>, ghost infos: seq<ListData>,
                 ghost head: Data16, ghost n: nat)
    returns (retval: U16)
    requires IsList(list, cur) && |cur| == n >= 2 && Has(cur, infos) && head == infos[0].data16
    ensures retval == CrcTimes(head.Word(), n - 1, retval0)
  {
    assert cur[0].info == infos[0] && cur[0].next == cur[1];
    retval := CrcFrom(list, list.next, retval0, cur, 1);
  }

  // ---- A whole call

  /** The values a call goes through: the state `f` after the find loop; the items `v` in the same order but with
      the data the sort by data has computed, the order `u` of that sort and its result `mid`; and the order `t`
      and result `last` of the sort back. */
  datatype Call = Call(f: Finds, v: seq<Item>, u: seq<nat>, mid: seq<Item>, t: seq<nat>, last: seq<Item>)

  /** A call on a list with these items that does n rounds of finds. */
  ghost predicate IsCall(c: Call, items: seq<Item>, idx: S16, n: nat) {
    IsFront(items, idx, n, c.f, c.v, c.u, c.mid) && BackSorted(c.mid, c.t, c.last)
  }

  // the find loop and the sort by data
  ghost predicate IsFront(items: seq<Item>, idx: S16, n: nat, f: Finds, v: seq<Item>, u: seq<nat>, mid: seq<Item>) {
    && f == FindSteps(items, idx, n) && Permutes(f.order, |items|) && Permutes(u, |items|) && |mid| == |items|
    && SortedMid(idx, f.items, v, u, mid)
  }

  // Only a positive finder_idx sorts by data.
  ghost predicate SortedMid(idx: S16, items: seq<Item>, v: seq<Item>, u: seq<nat>, mid: seq<Item>) {
    if idx > 0 then DataSorted(items, v, u, mid) else v == mid == items && u == Identity(|items|)
  }

  /** Where each item of the list after the call stood before it. */
  ghost function OrderAfter(c: Call): (p: seq<nat>)
    requires Within(c.u, |c.f.order|) && Within(c.t, |c.u|)
  {
    Rearranged(Rearranged(c.f.order, c.u), c.t)
  }

  lemma ComposePermutes(p: seq<nat>, q: seq<nat>, n: nat)
    requires Permutes(p, n) && Permutes(q, n)
    ensures Permutes(Rearranged(p, q), n)
  {
  }

  /** A call only permutes the items and rebuilds their data. */
  lemma CallPermutes(c: Call, items: seq<Item>, idx: S16, n: nat)
    requires IsCall(c, items, idx, n)
    requires |items| >= 2
    ensures Permutes(OrderAfter(c), |items|) && c.last == AllRebuilt(Rearranged(items, OrderAfter(c)))
  {
    FindStepsPlaces(items, idx, n);
    ComposePermutes(c.f.order, c.u, |items|);
    ComposePermutes(Rearranged(c.f.order, c.u), c.t, |items|);
    var p := OrderAfter(c);
    forall i | 0 <= i < |items|
      ensures c.last[i] == AllRebuilt(Rearranged(items, p))[i]
    {
      var y := c.t[i];
      var x := c.u[y];
      assert c.last[i] == AllRebuilt(c.mid)[y] && c.f.items[x] == items[c.f.order[x]];
      assert idx > 0 ==> DataStep(ByData, c.f.items[x].data16, c.v[x].data16);
    }
  }

  // A permutation that is increasing changes nothing.
  lemma {:induction false} IncreasingAtLeast(p: seq<nat>, k: nat)
    requires k < |p| && forall i, j :: 0 <= i < j < |p| ==> p[i] < p[j]
    ensures p[k] >= k
  {
    if k > 0 {
      IncreasingAtLeast(p, k - 1);
      assert p[k - 1] < p[k];
    }
  }

  lemma {:induction false} IncreasingAtMost(p: seq<nat>, k: nat)
    requires Permutes(p, |p|) && k < |p| && forall i, j :: 0 <= i < j < |p| ==> p[i] < p[j]
    ensures p[k] <= k
    decreases |p| - k
  {
    if k + 1 < |p| {
      IncreasingAtMost(p, k + 1);
      assert p[k] < p[k + 1];
    }
  }

  lemma IncreasingIdentity(p: seq<nat>)
    requires Permutes(p, |p|) && forall i, j :: 0 <= i < j < |p| ==> p[i] < p[j]
    ensures p == Identity(|p|)
  {
    forall k | 0 <= k < |p|
      ensures p[k] == k
    {
      IncreasingAtLeast(p, k);
      IncreasingAtMost(p, k);
    }
  }

  lemma IncreasingIdx(items: seq<Item>, a: nat, b: nat)
    requires IdxIncreasing(items) && a < |items| && b < |items| && a != b && items[a].idx <= items[b].idx
    ensures a < b
  {
    var lo, hi := if a < b then a else b, if a < b then b else a;
    assert Below(items, lo, hi);
  }

  /** A list with increasing idx is restored by every call, whatever its finds hit and its kernels compute. */
  lemma CallRestores(c: Call, items: seq<Item>, idx: S16, n: nat)
    requires IsCall(c, items, idx, n) && IdxIncreasing(items) && |items| >= 2
    ensures OrderAfter(c) == Identity(|items|) && c.last == AllRebuilt(items)
  {
    CallPermutes(c, items, idx, n);
    BackSortedByIdx(c.mid, c.t, c.last);
    var p := OrderAfter(c);
    forall i, j | 0 <= i < j < |p|
      ensures p[i] < p[j]
    {
      assert c.last[i].idx <= c.last[j].idx && p[i] != p[j];
      IncreasingIdx(items, p[i], p[j]);
    }
    IncreasingIdentity(p);
    assert Rearranged(items, p) == items;
  }

  // ---- The call on the heap

  lemma SameUncached(s: seq<ListHead>, infos: seq<ListData>, r: seq<ListHead>, rinfos: seq<ListData>)
    requires multiset(s) == multiset(r) && Has(s, infos) && Has(r, rinfos)
    ensures Uncached(rinfos) == Uncached(infos)
  {
    PairedLists(s, infos, r, rinfos);
    PairedLists(r, rinfos, s, infos);
    forall d | d in infos
      ensures d in rinfos
    {
      var k :| 0 <= k < |infos| && infos[k] == d;
      var j := PairedData(s, infos, r, rinfos, k);
    }
    forall d | d in rinfos
      ensures d in infos
    {
      var k :| 0 <= k < |rinfos| && rinfos[k] == d;
      var j := PairedData(r, rinfos, s, infos, k);
    }
  }

  lemma HoldsListed(list: ListHead, s: seq<ListHead>, infos0: seq<ListData>, cur: seq<ListHead>, infos: seq<ListData>,
                    items: seq<Item>, cells: set<ListHead>, datas: set<ListData>)
    requires Holds(list, s, cells, cur, infos, items) && Has(s, infos0)
    requires forall k :: 0 <= k < |infos0| ==> infos0[k] in datas
    ensures Listed(list, cur, infos, multiset(s), cells, datas) && Uncached(infos) == Uncached(infos0)
  {
    PairedLists(cur, infos, s, infos0);
    forall k | 0 <= k < |infos|
      ensures infos[k] in datas
    {
      var j := PairedData(cur, infos, s, infos0, k);
    }
    SameUncached(s, infos0, cur, infos);
  }

  // the find loop
  method FindPart(res: CoreResults, finder_idx: S16, ghost s: seq<ListHead>, ghost infos0: seq<ListData>,
                  ghost cells: set<ListHead>, ghost datas: set<ListData>)
    returns (list: ListHead, info: Item, retval: U16, ghost cur: seq<ListHead>, ghost infos: seq<ListData>,
             ghost f: Finds)
    requires Listed(res.list, s, infos0, multiset(s), cells, datas) && |s| >= 3
    modifies cells`next
    ensures Listed(list, cur, infos, multiset(s), cells, datas) && Uncached(infos) == old(Uncached(infos0))
    ensures Has(s, infos0)
    ensures f == FindSteps(old(Values(infos0)), finder_idx, Rounds(res.seed3)) && f.items == Values(infos)
    ensures Places(s, f.order, cur)
    ensures info == LastWanted(Rounds(res.seed3), f.idx) && retval == FindValue(f)
  {
    var found, missed;
    list, info, retval, found, missed, cur, infos, f := RunFinds(res.list, res.seed3, finder_idx, s, infos0, cells);
    retval := FoundValue(retval, found, missed);
    HoldsListed(list, s, infos0, cur, infos, f.items, cells, datas);
  }

  // the sort by data, for a positive finder_idx
  method DataPart(list0: ListHead, res: CoreResults, finder_idx: S16, ghost s: seq<ListHead>,
                  ghost infos0: seq<ListData>, ghost cur0: seq<ListHead>, ghost curInfos0: seq<ListData>,
                  ghost cells: set<ListHead>, ghost datas: set<ListData>)
    returns (list: ListHead, ghost cur: seq<ListHead>, ghost infos: seq<ListData>, ghost v: seq<Item>,
             ghost u: seq<nat>)
    requires Listed(list0, cur0, curInfos0, multiset(s), cells, datas) && 3 <= |cur0| < 0x8000_0000
    requires Has(s, infos0)
    modifies cells`next, datas`data16, res
    ensures Listed(list, cur, infos, multiset(s), cells, datas) && |cur| == |cur0| && Has(s, infos0)
    ensures Permutes(u, |cur0|) && cur == Rearranged(cur0, u)
    ensures SortedMid(finder_idx, old(Values(curInfos0)), v, u, Values(infos))
    ensures forall k :: 0 <= k < |s| ==> infos0[k].data16.hi == old(infos0[k].data16.hi)
    ensures Kept(res)
    ensures res.runs == if finder_idx > 0 then old(res.runs) + multiset(old(Uncached(curInfos0))) else old(res.runs)
    ensures finder_idx <= 0 ==> res.crc == old(res.crc)
  {
    if finder_idx > 0 {
      list, cur, infos, v, u := SortByData(list0, res, s, infos0, cur0, curInfos0, cells, datas);
    } else {
      list, cur, infos, v, u := list0, cur0, curInfos0, Values(curInfos0), Identity(|cur0|);
      assert Rearranged(cur0, u) == cur0;
    }
  }

  function CallValue(c: Call, n: nat): U16
    requires |c.mid| >= 3 && |c.last| >= 1
  {
    Result(c.f, n, c.mid, c.last[0].data16)
  }

  method FrontPart(res: CoreResults, finder_idx: S16, ghost s: seq<ListHead>, ghost infos0: seq<ListData>,
                   ghost cells: set<ListHead>, ghost datas: set<ListData>)
    returns (list: ListHead, info: Item, retval: U16, ghost cur: seq<ListHead>, ghost infos: seq<ListData>,
             ghost f: Finds, ghost v: seq<Item>, ghost u: seq<nat>)
    requires Listed(res.list, s, infos0, multiset(s), cells, datas) && 3 <= |s| < 0x8000_0000
    modifies cells`next, datas`data16, res
    ensures Listed(list, cur, infos, multiset(s), cells, datas) && |cur| == |s| && Has(s, infos0)
    ensures IsFront(old(Values(infos0)), finder_idx, Rounds(old(res.seed3)), f, v, u, Values(infos))
    ensures cur == Rearranged(Rearranged(s, f.order), u)
    ensures info == LastWanted(Rounds(old(res.seed3)), f.idx) && retval == FindValue(f)
    ensures forall k :: 0 <= k < |s| ==> infos0[k].data16.hi == old(infos0[k].data16.hi)
    ensures Kept(res)
    ensures res.runs == if finder_idx > 0 then old(res.runs) + multiset(old(Uncached(infos0))) else old(res.runs)
    ensures finder_idx <= 0 ==> res.crc == old(res.crc)
  {
    list, info, retval, cur, infos, f := FindPart(res, finder_idx, s, infos0, cells, datas);
    list, cur, infos, v, u := DataPart(list, res, finder_idx, s, infos0, cur, infos, cells, datas);
  }

  lemma CallValueIs(c: Call, n: nat, info: Item, retval0: U16, retval: U16)
    requires |c.mid| >= 3 && |c.last| >= 1 && info == LastWanted(n, c.f.idx)
    requires retval0 == FindValue(c.f) && retval == TailValue(c.mid, c.last[0].data16, info, retval0)
    ensures retval == CallValue(c, n)
  {
  }

  lemma OrdersCompose<T>(s: seq<T>, c: Call)
    requires Permutes(c.f.order, |s|) && Permutes(c.u, |s|) && Permutes(c.t, |s|)
    ensures Within(OrderAfter(c), |s|)
    ensures Rearranged(Rearranged(Rearranged(s, c.f.order), c.u), c.t) == Rearranged(s, OrderAfter(c))
  {
  }

  /** core_bench_list: the list comes back in the order and with the data that IsCall describes. */
  method CoreBenchList(res: CoreResults, finder_idx: S16, ghost s: seq<ListHead>, ghost infos0: seq<ListData>,
                       ghost cells: set<ListHead>, ghost datas: set<ListData>)
    returns (retval: U16, ghost list: ListHead, ghost cur: seq<ListHead>, ghost infos: seq<ListData>, ghost c: Call)
    requires Listed(res.list, s, infos0, multiset(s), cells, datas) && 3 <= |s| < 0x8000_0000
    modifies cells`next, cells`info, datas`data16, res
    ensures IsCall(c, old(Values(infos0)), finder_idx, Rounds(old(res.seed3)))
    ensures retval == CallValue(c, Rounds(old(res.seed3)))
    ensures Listed(list, cur, infos, multiset(s), cells, datas) && Values(infos) == c.last && Has(s, infos0)
    ensures |s| == |c.mid| && cur == Rearranged(s, OrderAfter(c))
    ensures forall k :: 0 <= k < |s| ==> infos0[k].data16 == old(infos0[k].data16).Rebuilt()
    ensures Kept(res)
    ensures res.runs == if finder_idx > 0 then old(res.runs) + multiset(old(Uncached(infos0))) else old(res.runs)
    ensures finder_idx <= 0 ==> res.crc == old(res.crc)
  {
    var list1, info;
    ghost var seed3 := res.seed3;
    ghost var retval0, cur1, infos1, f, v, u, t;
    list1, info, retval, cur1, infos1, f, v, u := FrontPart(res, finder_idx, s, infos0, cells, datas);
    ghost var mid := Values(infos1);
    retval0 := retval;
    list1, retval, cur, infos, t := SortBack(list1, info, retval, s, infos0, cur1, infos1, cells, datas);
    c := Call(f, v, u, mid, t, Values(infos));
    CallValueIs(c, Rounds(seed3), info, retval0, retval);
    OrdersCompose(s, c);
    list := list1;
  }
}
