// iterate: the repeated calls of core_bench_list on one list (benchmarks/coremark/core_main.c).

module CoreMain {
  import opened Words
  import opened Cells
  import opened Comparators
  import opened FindLoop
  import opened BenchList
  import Crc

  /** The list `iterate` starts from: in the order of increasing idx, every low data byte equal to its backup. */
  ghost predicate Fresh(items: seq<Item>) {
    IdxIncreasing(items) && forall k {:trigger Intact(items, k)} :: 0 <= k < |items| ==> Intact(items, k)
  }

  predicate Intact(items: seq<Item>, k: nat)
    requires k < |items|
  {
    items[k].data16.lo == items[k].data16.hi
  }

  lemma FreshRebuilt(items: seq<Item>)
    requires Fresh(items)
    ensures AllRebuilt(items) == items
  {
    forall k | 0 <= k < |items|
      ensures AllRebuilt(items)[k] == items[k]
    {
      assert Intact(items, k);
    }
  }

  /** The list `iterate` works on, with its items. */
  ghost predicate Ready(list: ListHead, s: seq<ListHead>, infos: seq<ListData>, cells: set<ListHead>,
                        datas: set<ListData>, items: seq<Item>)
    reads s, infos
  {
    Listed(list, s, infos, multiset(s), cells, datas) && 3 <= |s| == |items| < 0x8000_0000 && Values(infos) == items
  }

  /** What the call that looks for data instead of idx returns: nothing it does depends on a kernel. */
  function PlainValue(items: seq<Item>, n: nat): U16
    requires |items| >= 3
  {
    var f := FindSteps(items, -1, n);
    if |f.items| < 3 then 0 else Result(f, n, f.items, items[0].data16)
  }

  lemma PlainCall(c: Call, items: seq<Item>, n: nat)
    requires |items| >= 3 && Fresh(items) && IsCall(c, items, -1, n)
    ensures CallValue(c, n) == PlainValue(items, n)
  {
    CallRestores(c, items, -1, n);
    FreshRebuilt(items);
  }

  /** One turn of the loop: the values of the call that sorts by data, res->crc after its kernels, and res->crc
      at the end. */
  datatype Turn = Turn(byData: Call, kernels: U16, crc: U16)

  ghost predicate IsTurn(t: Turn, items: seq<Item>, n: nat)
    requires |items| >= 3
  {
    && IsCall(t.byData, items, 1, n) && |t.byData.mid| == |t.byData.last| == |items|
    && t.crc == Crc.Crc16(PlainValue(items, n), Crc.Crc16(CallValue(t.byData, n), t.kernels))
  }

  lemma TurnMade(t: Turn, items: seq<Item>, n: nat, first: U16, second: U16, crc1: nat)
    requires |items| >= 3 && IsCall(t.byData, items, 1, n) && |t.byData.mid| == |t.byData.last| == |items|
    requires first == CallValue(t.byData, n) && second == PlainValue(items, n)
    requires crc1 == Crc.Crc16(first, t.kernels) && t.crc == Crc.Crc16(second, crc1)
    ensures IsTurn(t, items, n)
  {
  }

  /** The data cells whose items wait for a kernel. */
  ghost function Waiting(infos: seq<ListData>, items: seq<Item>): set<ListData>
    requires |items| == |infos|
  {
    set k | 0 <= k < |infos| && !items[k].data16.Cached() :: infos[k]
  }

  lemma UncachedWait(infos: seq<ListData>)
    ensures Uncached(infos) == Waiting(infos, Values(infos))
  {
    forall d | d in infos
      ensures exists k :: 0 <= k < |infos| && infos[k] == d && Values(infos)[k].data16 == d.data16
    {
      var k :| 0 <= k < |infos| && infos[k] == d;
      assert Values(infos)[k].data16 == d.data16;
    }
  }

  /** A call on a fresh list leaves it exactly as it was. */
  method CallOnce(res: CoreResults, finder_idx: S16, ghost s: seq<ListHead>, ghost infos: seq<ListData>,
                  ghost cells: set<ListHead>, ghost datas: set<ListData>, ghost items: seq<Item>)
    returns (retval: U16, ghost c: Call)
    requires Ready(res.list, s, infos, cells, datas, items) && Fresh(items)
    modifies cells`next, cells`info, datas`data16, res
    ensures Ready(res.list, s, infos, cells, datas, items)
    ensures IsCall(c, items, finder_idx, Rounds(res.seed3)) && |c.mid| == |c.last| == |s|
    ensures retval == CallValue(c, Rounds(res.seed3))
    ensures Kept(res)
    ensures res.runs == if finder_idx > 0 then old(res.runs) + multiset(Waiting(infos, items)) else old(res.runs)
    ensures finder_idx <= 0 ==> res.crc == old(res.crc)
  {
    ghost var n := Rounds(res.seed3);
    ghost var list, cur, curInfos;
    UncachedWait(infos);
    retval, list, cur, curInfos, c := CoreBenchList(res, finder_idx, s, infos, cells, datas);
    CallRestores(c, items, finder_idx, n);
    FreshRebuilt(items);
    assert cur == s;
  }

  // a call's result enters the CRC of the run
  method AddCrc(res: CoreResults, crc: U16)
    modifies res`crc
    ensures res.crc == Crc.Crc16(crc, old(res.crc))
  {
    res.crc := Crc.Crc16Of(crc, res.crc);
  }

  method TurnOnce(res: CoreResults, ghost s: seq<ListHead>, ghost infos: seq<ListData>, ghost cells: set<ListHead>,
                  ghost datas: set<ListData>, ghost items: seq<Item>)
    returns (ghost t: Turn)
    requires Ready(res.list, s, infos, cells, datas, items) && Fresh(items)
    modifies cells`next, cells`info, datas`data16, res
    ensures Ready(res.list, s, infos, cells, datas, items)
    ensures IsTurn(t, items, Rounds(res.seed3)) && res.crc == t.crc
    ensures Kept(res) && res.runs == old(res.runs) + multiset(Waiting(infos, items))
  {
    ghost var n := Rounds(res.seed3);
    ghost var byData, plain;
    var first, second;
    first, byData := CallOnce(res, 1, s, infos, cells, datas, items);
    ghost var kernels := res.crc;
    AddCrc(res, first);
    ghost var crc1 := res.crc;
    second, plain := CallOnce(res, -1, s, infos, cells, datas, items);
    PlainCall(plain, items, n);
    AddCrc(res, second);
    t := Turn(byData, kernels, res.crc);
    TurnMade(t, items, n, first, second, crc1);
  }

  ghost function TurnOn(items: seq<Item>, n: nat): Turn -> bool
    requires |items| >= 3
  {
    t => IsTurn(t, items, n)
  }

  /** The turns of a run, and the CRCs they leave. */
  ghost predicate IsRun(turns: seq<Turn>, turn: Turn -> bool, crc: U16, crclist: U16) {
    && (forall k :: 0 <= k < |turns| ==> turn(turns[k]))
    && crc == (if turns == [] then 0 else turns[|turns| - 1].crc)
    && crclist == if turns == [] then 0 else turns[0].crc
  }

  lemma RunSnoc(turns: seq<Turn>, turn: Turn -> bool, crc: U16, crclist: U16, t: Turn)
    requires IsRun(turns, turn, crc, crclist) && turn(t)
    ensures IsRun(turns + [t], turn, t.crc, if turns == [] then t.crc else crclist)
  {
  }

  /** Every element of `waiting`, `times` times. */
  ghost function Copies<T>(waiting: set<T>, times: nat): (m: multiset<T>)
  {
    if times == 0 then multiset{} else Copies(waiting, times - 1) + multiset(waiting)
  }

  lemma OneMoreCopy<T>(runs0: multiset<T>, waiting: set<T>, times: nat, runs: multiset<T>, more: multiset<T>)
    requires runs == runs0 + Copies(waiting, times) && more == runs + multiset(waiting)
    ensures more == runs0 + Copies(waiting, times + 1)
  {
  }

  lemma {:induction false} CopiesCount<T>(waiting: set<T>, times: nat, d: T)
    ensures Copies(waiting, times)[d] == if d in waiting then times else 0
  {
    if times > 0 {
      CopiesCount(waiting, times - 1, d);
    }
  }

  // the first turn's CRC is kept
  method FirstCrc(res: CoreResults, i: nat)
    modifies res`crclist
    ensures res.crclist == if i == 0 then res.crc else old(res.crclist)
  {
    if i == 0 {
      res.crclist := res.crc;
    }
  }

  // the body of the loop
  method OneMore(res: CoreResults, i: nat, ghost s: seq<ListHead>, ghost infos: seq<ListData>,
                 ghost cells: set<ListHead>, ghost datas: set<ListData>, ghost items: seq<Item>, ghost n: nat,
                 ghost turn: Turn -> bool)
    returns (ghost t: Turn)
    requires Ready(res.list, s, infos, cells, datas, items) && Fresh(items)
    requires n == Rounds(res.seed3) && forall t :: IsTurn(t, items, n) ==> turn(t)
    modifies cells`next, cells`info, datas`data16, res
    ensures Ready(res.list, s, infos, cells, datas, items)
    ensures (res.list, res.seed3, res.iterations) == old((res.list, res.seed3, res.iterations))
    ensures turn(t) && res.crc == t.crc && res.crclist == if i == 0 then t.crc else old(res.crclist)
    ensures res.runs == old(res.runs) + multiset(Waiting(infos, items))
  {
    t := TurnOnce(res, s, infos, cells, datas, items);
    FirstCrc(res, i);
  }

  // the loop with i turns behind it
  ghost predicate RanTurns(turns: seq<Turn>, turn: Turn -> bool, runs: multiset<ListData>, waiting: set<ListData>,
                           runs0: multiset<ListData>, crc: U16, crclist: U16) {
    IsRun(turns, turn, crc, crclist) && runs == runs0 + Copies(waiting, |turns|)
  }

  // one turn more
  method NextTurn(res: CoreResults, i: nat, ghost s: seq<ListHead>, ghost infos: seq<ListData>,
                  ghost cells: set<ListHead>, ghost datas: set<ListData>, ghost items: seq<Item>, ghost n: nat,
                  ghost turn: Turn -> bool, ghost turns0: seq<Turn>, ghost runs0: multiset<ListData>)
    returns (ghost turns: seq<Turn>)
    requires Ready(res.list, s, infos, cells, datas, items) && Fresh(items) && |turns0| == i
    requires n == Rounds(res.seed3) && forall t :: IsTurn(t, items, n) ==> turn(t)
    requires RanTurns(turns0, turn, res.runs, Waiting(infos, items), runs0, res.crc, res.crclist)
    modifies cells`next, cells`info, datas`data16, res
    ensures Ready(res.list, s, infos, cells, datas, items) && |turns| == i + 1
    ensures (res.list, res.seed3, res.iterations) == old((res.list, res.seed3, res.iterations))
    ensures RanTurns(turns, turn, res.runs, Waiting(infos, items), runs0, res.crc, res.crclist)
  {
    ghost var crc0, crclist0, before := res.crc, res.crclist, res.runs;
    ghost var t := OneMore(res, i, s, infos, cells, datas, items, n, turn);
    RunSnoc(turns0, turn, crc0, crclist0, t);
    OneMoreCopy(runs0, Waiting(infos, items), i, before, res.runs);
    turns := turns0 + [t];
  }

  // the loop
  method RunTurns(res: CoreResults, ghost s: seq<ListHead>, ghost infos: seq<ListData>, ghost cells: set<ListHead>,
                  ghost datas: set<ListData>, ghost items: seq<Item>, ghost n: nat, ghost turn: Turn -> bool)
    returns (ghost turns: seq<Turn>)
    requires Ready(res.list, s, infos, cells, datas, items) && Fresh(items) && res.crc == res.crclist == 0
    requires n == Rounds(res.seed3) && forall t :: IsTurn(t, items, n) ==> turn(t)
    modifies cells`next, cells`info, datas`data16, res
    ensures Ready(res.list, s, infos, cells, datas, items)
    ensures (res.list, res.seed3, res.iterations) == old((res.list, res.seed3, res.iterations))
    ensures |turns| == res.iterations && IsRun(turns, turn, res.crc, res.crclist)
    ensures res.runs == old(res.runs) + Copies(Waiting(infos, items), res.iterations)
  {
    var iterations := res.iterations;
    turns := [];
    var i := 0;
    while i < iterations
      invariant 0 <= i <= iterations && |turns| == i
      invariant Ready(res.list, s, infos, cells, datas, items)
      invariant (res.list, res.seed3, res.iterations) == old((res.list, res.seed3, res.iterations))
      invariant RanTurns(turns, turn, res.runs, Waiting(infos, items), old(res.runs), res.crc, res.crclist)
    {
      turns := NextTurn(res, i, s, infos, cells, datas, items, n, turn, turns, old(res.runs));
      i := i + 1;
    }
  }

  /** iterate: any number of turns leaves the list, its items and res->list as they were; the kernel of every
      item runs once per turn. */
  method Iterate(res: CoreResults, ghost s: seq<ListHead>, ghost infos: seq<ListData>, ghost cells: set<ListHead>,
                 ghost datas: set<ListData>, ghost items: seq<Item>)
    returns (ghost turns: seq<Turn>)
    requires Ready(res.list, s, infos, cells, datas, items) && Fresh(items)
    modifies cells`next, cells`info, datas`data16, res
    ensures Ready(res.list, s, infos, cells, datas, items)
    ensures (res.list, res.seed3, res.iterations) == old((res.list, res.seed3, res.iterations))
    ensures |turns| == res.iterations && IsRun(turns, TurnOn(items, Rounds(res.seed3)), res.crc, res.crclist)
    ensures res.runs == old(res.runs) + Copies(Waiting(infos, items), res.iterations)
  {
    res.crc := 0;
    res.crclist := 0;
    res.crcmatrix := 0;
    res.crcstate := 0;
    turns := RunTurns(res, s, infos, cells, datas, items, Rounds(res.seed3), TurnOn(items, Rounds(res.seed3)));
  }
}
