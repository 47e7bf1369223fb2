// From core_list_init to the end of iterate: the whole life of a list (benchmarks/coremark/core_list_join.c,
// core_main.c).

module CoreRun {
  import opened Words
  import opened Cells
  import opened SortSpec
  import opened Comparators
  import opened FindLoop
  import opened BenchList
  import opened ListInit
  import opened InitOrder
  import opened CoreMain

  /** core_list_init, ready for iterate. */
  method InitFresh(blksize: nat, pool: Pool, seed: U16, ghost cells: set<ListHead>, ghost datas: set<ListData>)
    returns (list: ListHead, ghost s: seq<ListHead>, ghost infos: seq<ListData>, ghost items: seq<Item>)
    requires 4 <= SizeOf(blksize) == |pool.heads| == |pool.datas| && Distinct(pool.heads) && Distinct(pool.datas)
    requires SizeOf(blksize) <= LONGEST && !Collides(SizeOf(blksize), seed)
    requires cells == (set h | h in pool.heads) && datas == set d | d in pool.datas
    modifies pool, pool.heads[..], pool.datas[..]
    ensures Ready(list, s, infos, cells, datas, items) && Fresh(items) && |s| == SizeOf(blksize) - 1
    ensures exists t :: BackSorted(InitItems(SizeOf(blksize), seed), t, items)
  {
    ghost var t;
    list, s, infos, t := CoreListInit(blksize, pool, seed);
    items := Values(infos);
    InitIsFresh(SizeOf(blksize), seed, t, items);
    RearrangedIn(pool.heads, t, s);
    RearrangedIn(pool.datas, t, infos);
    ReadyFrom(list, s, infos, pool.heads, pool.datas, cells, datas);
  }

  lemma ReadyFrom(list: ListHead, s: seq<ListHead>, infos: seq<ListData>, heads: seq<ListHead>, all: seq<ListData>,
                  cells: set<ListHead>, datas: set<ListData>)
    requires IsList(list, s) && Has(s, infos) && 3 <= |s| < 0x8000_0000
    requires cells == (set h | h in heads) && datas == set d | d in all
    requires (forall k :: 0 <= k < |s| ==> s[k] in heads) && forall k :: 0 <= k < |infos| ==> infos[k] in all
    ensures Ready(list, s, infos, cells, datas, Values(infos))
  {
  }

  // What is laid out and rearranged comes from the pool.
  lemma RearrangedIn<T>(a: seq<T>, t: seq<nat>, s: seq<T>)
    requires 1 <= |s| <= |a| && Within(t, |s|) && s == Rearranged(LaidOut(a, |s|), t)
    ensures forall k :: 0 <= k < |s| ==> s[k] in a
  {
    forall k | 0 <= k < |s|
      ensures s[k] in a
    {
      var p := t[k];
      assert s[k] == LaidOut(a, |s|)[p] == a[if p == 0 then 0 else |s| - p];
    }
  }

  /** A list is initialised and goes through any number of turns, of any number of finds: if its block has at most
      322 cells and nothing collides, it is the list that it was, cell by cell and item by item, and res->list
      is its head. */
  method InitAndIterate(blksize: nat, pool: Pool, seed: U16, seed3: S16, iterations: nat)
    returns (res: CoreResults, ghost s: seq<ListHead>, ghost infos: seq<ListData>, ghost items: seq<Item>,
             ghost turns: seq<CoreMain.Turn>)
    requires 4 <= SizeOf(blksize) == |pool.heads| == |pool.datas| && Distinct(pool.heads) && Distinct(pool.datas)
    requires SizeOf(blksize) <= LONGEST && !Collides(SizeOf(blksize), seed)
    modifies pool, pool.heads[..], pool.datas[..]
    ensures |s| == SizeOf(blksize) - 1 && Fresh(items)
    ensures exists t :: BackSorted(InitItems(SizeOf(blksize), seed), t, items)
    ensures IsList(res.list, s) && Has(s, infos) && Values(infos) == items
    ensures fresh(res) && res.seed3 == seed3 && |turns| == iterations
    ensures IsRun(turns, TurnOn(items, Rounds(seed3)), res.crc, res.crclist)
    ensures res.runs == Copies(Waiting(infos, items), iterations)
  {
    ghost var cells, datas := (set h | h in pool.heads), (set d | d in pool.datas);
    var list;
    list, s, infos, items := InitFresh(blksize, pool, seed, cells, datas);
    res := new CoreResults(seed3, iterations, list);
    turns := CoreMain.Iterate(res, s, infos, cells, datas, items);
  }
}
