// The comparators of the list kernel and the value they compute on first use
// (benchmarks/coremark/core_list_join.c).

module Comparators {
  import opened Words
  import opened Cells
  import opened SortSpec
  import Crc

  /** core_results: the inputs and outputs the list kernel shares between calls. */
  class CoreResults {
    var seed3: S16
    var iterations: nat
    var list: ListHead
    var crc: U16
    var crclist: U16
    var crcmatrix: U16
    var crcstate: U16
    // how often the kernel of each item has run
    ghost var runs: multiset<ListData>

    constructor (seed3: S16, iterations: nat, list: ListHead)
      ensures this.seed3 == seed3 && this.iterations == iterations && this.list == list && runs == multiset{}
    {
      this.seed3 := seed3;
      this.iterations := iterations;
      this.list := list;
      crc, crclist, crcmatrix, crcstate := 0, 0, 0, 0;
      runs := multiset{};
    }
  }

  datatype Cmp = CmpComplex | CmpIdx | CmpBy(cmp: Comparison)

  function OrderOf(cmp: Cmp, noResults: bool): Order {
    match cmp
    case CmpComplex => ByData
    case CmpIdx => if noResults then ByIdxRebuild else ByIdx
    case CmpBy(c) => By(c)
  }

  /** A kernel that has run: on what and with what result. Items of no kernel's kind stand for themselves. */
  datatype Kernel = StateKernel(step: int, crc: U16, result: U16)
    | MatrixKernel(seed: int, crc: U16, result: U16) | OwnData(result: U16)

  // The state-machine and matrix kernels: any 16-bit result, and nothing of the list is touched.
  method BenchState(step: S16, crc: U16) returns (r: U16, ghost kernel: Kernel)
    requires 0x22 <= step <= 0xff
    ensures kernel == StateKernel(step, crc, r)
  {
    r := *;
    kernel := StateKernel(step, crc, r);
  }

  method BenchMatrix(seed: S16, crc: U16) returns (r: U16, ghost kernel: Kernel)
    ensures kernel == MatrixKernel(seed, crc, r)
  {
    r := *;
    kernel := MatrixKernel(seed, crc, r);
  }

  /** The kernel that an item selects, with res->crc at hand. */
  predicate Selects(d: Data16, crc: U16, kernel: Kernel) {
    match d.Flag()
    case 0 => kernel == StateKernel(d.Step(), crc, kernel.result)
    case 1 => kernel == MatrixKernel(d.Input(), crc, kernel.result)
    case _ => kernel == OwnData(d.Word())
  }

  /** Which that is, by the bits of the word: kernel 0 scans, with a step of at least 0x22, kernel 1 multiplies, and all
      others give the word itself. */
  lemma SelectsMeans(d: Data16, crc: U16, kernel: Kernel)
    requires Selects(d, crc, kernel)
    ensures var number, input := d.Word() % 8, d.Word() / 8 % 0x10; var doubled := input + 0x10 * input;
            && (number == 0 ==> kernel == StateKernel(if doubled < 0x22 then 0x22 else doubled, crc, kernel.result))
            && (number == 1 ==> kernel == MatrixKernel(doubled, crc, kernel.result))
            && (number >= 2 ==> kernel == OwnData(d.Word()))
  {
    WordFields(d);
  }

  ghost function CachedOf(datas: seq<ListData>): set<ListData>
    reads datas`data16
  {
    set d | d in datas && d.data16.Cached()
  }

  /** Between two states in which c0 and then c1 were the cached items, the kernel of each newly cached item
      ran exactly once and no other kernel ran. */
  ghost predicate RanOnce<T>(runs0: multiset<T>, c0: set<T>, runs1: multiset<T>, c1: set<T>) {
    c0 <= c1 && runs1 == runs0 + multiset(c1 - c0)
  }

  lemma RanOnceTransitive<T>(runs0: multiset<T>, c0: set<T>, runs1: multiset<T>, c1: set<T>, runs2: multiset<T>,
                             c2: set<T>)
    requires RanOnce(runs0, c0, runs1, c1) && RanOnce(runs1, c1, runs2, c2)
    ensures RanOnce(runs0, c0, runs2, c2)
  {
    assert multiset(c2 - c0) == multiset(c1 - c0) + multiset(c2 - c1);
  }

  // the switch over the algorithms
  method RunKernel(data: Data16, res: CoreResults) returns (value: U16, ghost kernel: Kernel)
    modifies res`crcstate, res`crcmatrix
    ensures Selects(data, res.crc, kernel) && value == kernel.result && (kernel.OwnData? ==> value % 0x80 == data.Key())
    ensures kernel.OwnData? <==> data.Flag() >= 2
    ensures res.crcstate == if kernel.StateKernel? && old(res.crcstate) == 0 then value else old(res.crcstate)
    ensures res.crcmatrix == if kernel.MatrixKernel? && old(res.crcmatrix) == 0 then value else old(res.crcmatrix)
  {
    var flag := data.Flag();
    var dtype: S16 := data.Input();
    if flag == 0 {
      if dtype < 0x22 {
        dtype := 0x22;
      }
      value, kernel := BenchState(dtype, res.crc);
      if res.crcstate == 0 {
        res.crcstate := value;
      }
    } else if flag == 1 {
      value, kernel := BenchMatrix(dtype, res.crc);
      if res.crcmatrix == 0 {
        res.crcmatrix := value;
      }
    } else {
      value := data.Word();
      kernel := OwnData(value);
      LowBits(data);
    }
  }

  // computing the low seven bits of an item's own data changes none of them
  lemma CacheStep(before: Data16, kernel: Kernel)
    requires !before.Cached() && (before.Flag() >= 2 ==> kernel.result % 0x80 == before.Key())
    ensures DataStep(ByData, before, before.Cache(kernel.result)) && before.Cache(kernel.result).Cached()
  {
  }

  /** calc_func: the cached value of an item, computed and cached on first use. */
  method CalcFunc(pdata: ListData, res: CoreResults, ghost datas: seq<ListData>)
    returns (retval: S16, ghost kernel: Kernel)
    requires pdata in datas
    modifies pdata`data16, res`crc, res`crcstate, res`crcmatrix, res`runs
    ensures retval == pdata.data16.Key()
    ensures DataStep(ByData, old(pdata.data16), pdata.data16) && pdata.data16.Cached()
    ensures RanOnce(old(res.runs), old(CachedOf(datas)), res.runs, CachedOf(datas))
    ensures old(pdata.data16.Cached()) ==>
              && unchanged(pdata) && unchanged(res)
    ensures !old(pdata.data16.Cached()) ==>
              && Selects(old(pdata.data16), old(res.crc), kernel)
              && pdata.data16 == old(pdata.data16).Cache(kernel.result)
              && res.crc == Crc.Crc16(kernel.result, old(res.crc))
              && res.crcstate == (if kernel.StateKernel? && old(res.crcstate) == 0 then kernel.result
                else old(res.crcstate))
              && res.crcmatrix == (if kernel.MatrixKernel? && old(res.crcmatrix) == 0 then kernel.result
                else old(res.crcmatrix))
  {
    kernel := OwnData(0);
    var data := pdata.data16;
    if data.Cached() {
      return data.Key(), kernel;
    }
    var value;
    value, kernel := RunKernel(data, res);
    CacheStep(data, kernel);
    var crc := Crc.Crc16Of(value, res.crc);
    res.crc := crc;
    retval := value % 0x80;
    pdata.data16 := data.Cache(value);
    res.runs := res.runs + multiset{pdata};
    assert CachedOf(datas) - old(CachedOf(datas)) == {pdata};
  }

  /** cmp_complex, cmp_idx or another comparator, as the source selects them by function pointer. */
  method Compare(cmp: Cmp, a: ListData, b: ListData, res: CoreResults?, ghost datas: seq<ListData>) returns (c: S32)
    requires cmp.CmpComplex? ==> res != null
    requires a in datas && b in datas
    modifies a`data16, b`data16, if res == null then {} else {res}
    ensures var o := OrderOf(cmp, res == null);
            && DataStep(o, old(a.data16), a.data16) && Settled(o, a.data16)
            && DataStep(o, old(b.data16), b.data16) && Settled(o, b.data16)
            && (c <= 0 <==> Leq(o, a.Value(), b.Value()))
    ensures Kept(res)
    ensures cmp.CmpComplex? ==> RanOnce(old(res.runs), old(CachedOf(datas)), res.runs, CachedOf(datas))
  {
    match cmp
    case CmpComplex =>
      c := CmpComplexOf(a, b, res, datas);
    case CmpIdx =>
      if res == null {
        a.data16 := a.data16.Rebuilt();
        b.data16 := b.data16.Rebuilt();
      }
      c := a.idx - b.idx;
    case CmpBy(compare) =>
      c := compare(a.Value(), b.Value());
  }

  method CmpComplexOf(a: ListData, b: ListData, res: CoreResults, ghost datas: seq<ListData>) returns (c: S32)
    requires a in datas && b in datas
    modifies a`data16, b`data16, res`crc, res`crcstate, res`crcmatrix, res`runs
    ensures DataStep(ByData, old(a.data16), a.data16) && a.data16.Cached()
    ensures DataStep(ByData, old(b.data16), b.data16) && b.data16.Cached()
    ensures c == a.data16.Key() - b.data16.Key()
    ensures RanOnce(old(res.runs), old(CachedOf(datas)), res.runs, CachedOf(datas))
  {
    var val1, _ := CalcFunc(a, res, datas);
    ghost var runs1, c1 := res.runs, CachedOf(datas);
    var val2, _ := CalcFunc(b, res, datas);
    RanOnceTransitive(old(res.runs), old(CachedOf(datas)), runs1, c1, res.runs, CachedOf(datas));
    c := val1 - val2;
  }

  // What the sort leaves alone in the results block
  ghost function Inputs(res: CoreResults): (ListHead, S16, nat, U16)
    reads res
  {
    (res.list, res.seed3, res.iterations, res.crclist)
  }

  twostate predicate Kept(res: CoreResults?)
    reads res
  {
    res != null ==> Inputs(res) == old(Inputs(res))
  }
}
