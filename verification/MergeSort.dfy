// core_list_mergesort: the in-place, bottom-up merge sort over `next` pointers
// (benchmarks/coremark/core_list_join.c).

module MergeSort {
  import opened Words
  import opened Cells
  import opened SortSpec
  import opened Comparators

  /** The list a sort was called on: its cells and their data cells in input order. `rank` gives the position
      of a cell in `orig`; cells are named by that position, with -1 for the null pointer. */
  datatype Input = Input(orig: seq<ListHead>, infos: seq<ListData>, rank: map<ListHead, int>, datas: set<ListData>) {
    ghost predicate Ok() {
      && |infos| == |orig|
      && (forall k :: 0 <= k < |orig| ==> orig[k] in rank && rank[orig[k]] == k)
      && (forall k :: 0 <= k < |orig| ==> infos[k] in datas)
    }

    ghost function At(k: int): ListHead? {
      if 0 <= k < |orig| then orig[k] else null
    }

    /** The pointers in the heap: `nx` gives the successors, and no cell has changed its data cell. */
    ghost predicate Linked(nx: seq<int>)
      reads rank.Keys`next, rank.Keys`info
      requires Ok()
    {
      && |nx| == |orig|
      && (forall k {:trigger infos[k]} :: 0 <= k < |orig| ==> orig[k].info == infos[k])
      && (forall k {:trigger nx[k]} :: 0 <= k < |orig| ==> orig[k].next == At(nx[k]))
    }
  }

  /** The state some comparisons started from: the items, the cached ones among them, the kernel runs, and the
      part of the results block a sort leaves alone. */
  datatype Start = Start(items: seq<Item>, cached: set<ListData>, runs: multiset<ListData>,
                         inputs: (ListHead, S16, nat, U16)) {
    /** What the comparisons have done to the items and to the results block since then. */
    ghost predicate Progress(o: Order, infos: seq<ListData>, res: CoreResults?)
      reads infos, res
    {
      && Evolves(o, items, Values(infos))
      && (res != null ==> Inputs(res) == inputs)
      && (o.ByData? ==> res != null && RanOnce(runs, cached, res.runs, CachedOf(infos)))
    }
  }

  // `list` and `tail` point to the two ends of what has been merged so far
  ghost predicate Ends(inp: Input, list: ListHead?, tail: ListHead?, out: seq<nat>) {
    if out == [] then list == null && tail == null else list == inp.At(out[0]) && tail == inp.At(out[|out| - 1])
  }

  // the next cell is linked behind the last one, or becomes the first
  method Append(list: ListHead?, tail: ListHead?, e: ListHead, ghost inp: Input, ghost nx0: seq<int>,
                ghost out: seq<nat>, ghost k: nat)
    returns (l: ListHead?, t: ListHead?, ghost nx: seq<int>)
    requires inp.Ok() && inp.Linked(nx0) && Ends(inp, list, tail, out) && Within(out, |inp.orig|)
    requires k < |inp.orig| && e == inp.orig[k]
    modifies inp.rank.Keys`next
    ensures Values(inp.infos) == old(Values(inp.infos)) && CachedOf(inp.infos) == old(CachedOf(inp.infos))
    ensures nx == (if out == [] then nx0 else nx0[out[|out| - 1] := k])
    ensures inp.Linked(nx) && Ends(inp, l, t, out + [k])
  {
    nx := nx0;
    l := list;
    if tail != null {
      tail.next := e;
      nx := nx0[out[|out| - 1] := k];
    } else {
      l := e;
    }
    t := e;
  }

  // a comparison, seen from the whole list
  method CompareOnce(cmp: Cmp, res: CoreResults?, ghost o: Order, p: ListData, q: ListData, ghost inp: Input,
                     ghost nx: seq<int>, ghost x: nat, ghost y: nat)
    returns (c: S32)
    requires o == OrderOf(cmp, res == null) && (cmp.CmpComplex? ==> res != null)
    requires inp.Ok() && inp.Linked(nx) && x < |inp.orig| && y < |inp.orig| && p == inp.infos[x] && q == inp.infos[y]
    modifies inp.datas`data16, if res == null then {} else {res}
    ensures var v := Values(inp.infos);
            && Evolves(o, old(Values(inp.infos)), v)
            && Settled(o, v[x].data16) && Settled(o, v[y].data16)
            && (c <= 0 <==> Leq(o, v[x], v[y]))
    ensures Kept(res) && inp.Linked(nx)
    ensures cmp.CmpComplex? ==> RanOnce(old(res.runs), old(CachedOf(inp.infos)), res.runs, CachedOf(inp.infos))
  {
    c := Compare(cmp, p, q, res, inp.infos);
  }

  method CompareCells(cmp: Cmp, res: CoreResults?, ghost o: Order, p: ListHead, q: ListHead, ghost inp: Input,
                      ghost st: Start, ghost nx: seq<int>, ghost x: nat, ghost y: nat)
    returns (c: S32)
    requires o == OrderOf(cmp, res == null) && (cmp.CmpComplex? ==> res != null)
    requires inp.Ok() && inp.Linked(nx) && st.Progress(o, inp.infos, res)
    requires x < |inp.orig| && y < |inp.orig| && p == inp.orig[x] && q == inp.orig[y]
    modifies inp.datas`data16, if res == null then {} else {res}
    ensures inp.Linked(nx) && st.Progress(o, inp.infos, res)
    ensures var v := Values(inp.infos);
            && Evolves(o, old(Values(inp.infos)), v)
            && Settled(o, v[x].data16) && Settled(o, v[y].data16)
            && (c <= 0 <==> Leq(o, v[x], v[y]))
  {
    assert p.info == inp.infos[x] && q.info == inp.infos[y];
    ghost var v, cached := Values(inp.infos), CachedOf(inp.infos);
    ghost var runs := if res == null then multiset{} else res.runs;
    c := CompareOnce(cmp, res, o, p.info, q.info, inp, nx, x, y);
    EvolvesTransitive(o, st.items, v, Values(inp.infos));
    if o.ByData? {
      RanOnceTransitive(st.runs, st.cached, runs, cached, res.runs, CachedOf(inp.infos));
    }
  }

  /** Which cell comes next in a merge. */
  method Choose(cmp: Cmp, res: CoreResults?, ghost o: Order, p0: ListHead?, q0: ListHead?, psize0: S32, qsize0: S32,
                ghost inp: Input, ghost st: Start, ghost nx: seq<int>, ghost s: seq<nat>, ghost a: nat, ghost b: nat,
                ghost c: nat, ghost i: nat, ghost j: nat, ghost out: seq<nat>)
    returns (e: ListHead, p: ListHead?, q: ListHead?, psize: S32, qsize: S32, ghost fromP: bool)
    requires o == OrderOf(cmp, res == null) && (cmp.CmpComplex? ==> res != null)
    requires inp.Ok() && inp.Linked(nx) && st.Progress(o, inp.infos, res) && Within(s, |nx|)
    requires Merging(o, Values(inp.infos), s, a, b, c, i, j, out)
    requires psize0 == b - i && (psize0 > 0 || (qsize0 > 0 && q0 != null))
    requires i < b ==> p0 == inp.At(s[i])
    requires if j < c then q0 == inp.At(s[j]) && qsize0 > 0 else qsize0 == 0 || q0 == null
    modifies inp.datas`data16, if res == null then {} else {res}
    ensures inp.Linked(nx)
    ensures if fromP then
              i < b && e == inp.At(s[i]) && p == inp.At(nx[s[i]]) && q == q0 && psize == psize0 - 1 && qsize == qsize0
            else
              j < c && e == inp.At(s[j]) && q == inp.At(nx[s[j]]) && p == p0 && qsize == qsize0 - 1 && psize == psize0
    ensures if fromP then Merging(o, Values(inp.infos), s, a, b, c, i + 1, j, out + [s[i]])
            else Merging(o, Values(inp.infos), s, a, b, c, i, j + 1, out + [s[j]])
    ensures st.Progress(o, inp.infos, res)
  {
    assert (i < b ==> inp.At(s[i]).next == inp.At(nx[s[i]])) && (j < c ==> inp.At(s[j]).next == inp.At(nx[s[j]]));
    p, q, psize, qsize, fromP := p0, q0, psize0, qsize0, true;
    if psize == 0 {
      TakeQ(o, Values(inp.infos), s, a, b, c, i, j, out);
      e, q, qsize, fromP := q, q.next, qsize - 1, false;
    } else if qsize == 0 || q == null {
      TakeP(o, Values(inp.infos), s, a, b, c, i, j, out);
      e, p, psize := p, p.next, psize - 1;
    } else {
      ghost var v := Values(inp.infos);
      var r := CompareCells(cmp, res, o, p, q, inp, st, nx, s[i], s[j]);
      MergeEvolves(o, v, Values(inp.infos), s, a, b, c, i, j, out);
      if r <= 0 {
        TakeP(o, Values(inp.infos), s, a, b, c, i, j, out);
        e, p, psize := p, p.next, psize - 1;
      } else {
        TakeQ(o, Values(inp.infos), s, a, b, c, i, j, out);
        e, q, qsize, fromP := q, q.next, qsize - 1, false;
      }
    }
  }

  /** One round of the merge loop: the chosen cell is appended. */
  method MergeStep(cmp: Cmp, res: CoreResults?, ghost o: Order, list0: ListHead?, tail0: ListHead?, p0: ListHead?,
                   q0: ListHead?, psize0: S32, qsize0: S32, ghost inp: Input, ghost st: Start, ghost nx0: seq<int>,
                   ghost s: seq<nat>, ghost a: nat, ghost b: nat, ghost c: nat, ghost i0: nat, ghost j0: nat,
                   ghost out0: seq<nat>, ghost first: seq<nat>)
    returns (list: ListHead?, tail: ListHead?, p: ListHead?, q: ListHead?, psize: S32, qsize: S32, ghost nx: seq<int>,
             ghost i: nat, ghost j: nat, ghost out: seq<nat>)
    requires o == OrderOf(cmp, res == null) && (cmp.CmpComplex? ==> res != null)
    requires inp.Ok() && inp.Linked(nx0) && st.Progress(o, inp.infos, res) && Threaded(nx0, out0, s, i0, b, j0)
    requires Ends(inp, list0, tail0, out0)
    requires Merging(o, Values(inp.infos), s, a, b, c, i0, j0, out0)
    requires (i0 < b ==> p0 == inp.At(s[i0])) && q0 == (if j0 < |s| then inp.At(s[j0]) else null)
    requires psize0 == b - i0 && (psize0 > 0 || (qsize0 > 0 && q0 != null))
    requires (if j0 < c then qsize0 > 0 else qsize0 == 0 || q0 == null) && first <= out0
    modifies inp.rank.Keys`next, inp.datas`data16, if res == null then {} else {res}
    ensures inp.Linked(nx) && Threaded(nx, out, s, i, b, j) && Ends(inp, list, tail, out)
    ensures (i < b ==> p == inp.At(s[i])) && q == (if j < |s| then inp.At(s[j]) else null)
    ensures Merging(o, Values(inp.infos), s, a, b, c, i, j, out)
    ensures (i == i0 + 1 && j == j0) || (i == i0 && j == j0 + 1)
    ensures psize == b - i && qsize == qsize0 - (j - j0)
    ensures first <= out
    ensures st.Progress(o, inp.infos, res)
  {
    var e: ListHead;
    ghost var fromP;
    e, p, q, psize, qsize, fromP := Choose(cmp, res, o, p0, q0, psize0, qsize0, inp, st, nx0, s, a, b, c, i0, j0, out0);
    ghost var k := if fromP then i0 else j0;
    ThreadNext(nx0, out0, s, i0, b, j0);
    list, tail, nx := Append(list0, tail0, e, inp, nx0, out0, s[k]);
    ThreadStep(nx0, out0, s, i0, b, j0, k, nx);
    out, i, j := out0 + [s[k]], if fromP then i0 + 1 else i0, if fromP then j0 else j0 + 1;
  }

  /** One merge: the `psize` cells from p with the first `qsize` cells (or fewer, at the end) from q. */
  method Merge(cmp: Cmp, res: CoreResults?, ghost o: Order, list0: ListHead?, tail0: ListHead?, p0: ListHead,
               q0: ListHead?, psize0: S32, qsize0: S32, ghost inp: Input, ghost st: Start, ghost nx0: seq<int>,
               ghost s: seq<nat>, ghost a: nat, ghost b: nat, ghost c: nat, ghost out0: seq<nat>)
    returns (list: ListHead?, tail: ListHead?, q: ListHead?, ghost nx: seq<int>, ghost out: seq<nat>)
    requires o == OrderOf(cmp, res == null) && (cmp.CmpComplex? ==> res != null)
    requires inp.Ok() && inp.Linked(nx0) && st.Progress(o, inp.infos, res) && Threaded(nx0, out0, s, a, b, b)
    requires Ends(inp, list0, tail0, out0)
    requires Merging(o, Values(inp.infos), s, a, b, c, a, b, out0)
    requires p0 == inp.At(s[a]) && q0 == (if b < |s| then inp.At(s[b]) else null)
    requires psize0 == b - a && qsize0 > 0 && c - b <= qsize0 && (c - b == qsize0 || c == |s|)
    modifies inp.rank.Keys`next, inp.datas`data16, if res == null then {} else {res}
    ensures inp.Linked(nx) && Threaded(nx, out, s, b, b, c) && Ends(inp, list, tail, out)
    ensures Merging(o, Values(inp.infos), s, a, b, c, b, c, out)
    ensures q == (if c < |s| then inp.At(s[c]) else null)
    ensures out0 <= out
    ensures st.Progress(o, inp.infos, res)
  {
    ghost var i: nat, j: nat := a, b;
    list, tail, q, out, nx := list0, tail0, q0, out0, nx0;
    var p: ListHead? := p0;
    var psize: S32, qsize: S32 := psize0, qsize0;
    while psize > 0 || (qsize > 0 && q != null)
      invariant i <= b <= j <= c <= |s| && psize == b - i && qsize == qsize0 - (j - b)
      invariant inp.Linked(nx) && Threaded(nx, out, s, i, b, j) && Ends(inp, list, tail, out)
      invariant (i < b ==> p == inp.At(s[i])) && q == (if j < |s| then inp.At(s[j]) else null)
      invariant Merging(o, Values(inp.infos), s, a, b, c, i, j, out)
      invariant out0 <= out
      invariant st.Progress(o, inp.infos, res)
      decreases c - j, b - i
    {
      list, tail, p, q, psize, qsize, nx, i, j, out :=
        MergeStep(cmp, res, o, list, tail, p, q, psize, qsize, inp, st, nx, s, a, b, c, i, j, out, out0);
    }
    assert i == b && j == c;
  }

  // The same merge, also seen from an earlier start
  method MergeSince(cmp: Cmp, res: CoreResults?, ghost o: Order, list0: ListHead?, tail0: ListHead?, p0: ListHead,
                    q0: ListHead?, psize0: S32, qsize0: S32, ghost inp: Input, ghost st: Start, ghost nx0: seq<int>,
                    ghost s: seq<nat>, ghost a: nat, ghost b: nat, ghost c: nat, ghost out0: seq<nat>)
    returns (list: ListHead?, tail: ListHead?, q: ListHead?, ghost nx: seq<int>, ghost out: seq<nat>)
    requires o == OrderOf(cmp, res == null) && (cmp.CmpComplex? ==> res != null)
    requires inp.Ok() && inp.Linked(nx0) && st.Progress(o, inp.infos, res) && Threaded(nx0, out0, s, a, b, b)
    requires Ends(inp, list0, tail0, out0)
    requires Merging(o, Values(inp.infos), s, a, b, c, a, b, out0)
    requires p0 == inp.At(s[a]) && q0 == (if b < |s| then inp.At(s[b]) else null)
    requires psize0 == b - a && qsize0 > 0 && c - b <= qsize0 && (c - b == qsize0 || c == |s|)
    modifies inp.rank.Keys`next, inp.datas`data16, if res == null then {} else {res}
    ensures inp.Linked(nx) && Threaded(nx, out, s, b, b, c) && Ends(inp, list, tail, out)
    ensures Evolves(o, old(Values(inp.infos)), Values(inp.infos))
    ensures Merging(o, Values(inp.infos), s, a, b, c, b, c, out)
    ensures q == (if c < |s| then inp.At(s[c]) else null)
    ensures out0 <= out
    ensures st.Progress(o, inp.infos, res)
  {
    ghost var runs := if res == null then st.runs else res.runs;
    ghost var here := Start(Values(inp.infos), CachedOf(inp.infos), runs, st.inputs);
    list, tail, q, nx, out :=
      Merge(cmp, res, o, list0, tail0, p0, q0, psize0, qsize0, inp, here, nx0, s, a, b, c, out0);
    EvolvesTransitive(o, st.items, here.items, Values(inp.infos));
    if o.ByData? {
      RanOnceTransitive(st.runs, st.cached, here.runs, here.cached, res.runs, CachedOf(inp.infos));
    }
  }

  // the start of the next run, and how many cells there are before it
  method StepAlong(p: ListHead, insize: S32, ghost inp: Input, ghost nx: seq<int>, ghost s: seq<nat>, ghost a: nat)
    returns (q: ListHead?, psize: S32)
    requires inp.Ok() && inp.Linked(nx) && a < |s| && insize > 0 && p == inp.At(s[a]) && Within(s, |nx|)
    requires forall y {:trigger nx[s[y]]} :: a <= y < |s| ==> nx[s[y]] == if y + 1 < |s| then s[y + 1] else -1
    ensures psize == Upto(a, insize, |s|) - a
    ensures q == if a + psize < |s| then inp.At(s[a + psize]) else null
  {
    q := p;
    psize := 0;
    var i: S32 := 0;
    while i < insize
      invariant 0 <= i == psize <= insize && a + psize < |s| && q == inp.At(s[a + psize])
    {
      psize := psize + 1;
      assert nx[s[a + i]] == if a + i + 1 < |s| then s[a + i + 1] else -1;
      q := q.next;
      if q == null {
        break;
      }
      i := i + 1;
    }
  }

  // Two neighbouring runs are taken off the list and merged.
  method MergeRuns(cmp: Cmp, res: CoreResults?, ghost o: Order, list0: ListHead?, tail0: ListHead?, p0: ListHead,
                   insize: S32, ghost inp: Input, ghost st: Start, ghost nx0: seq<int>, ghost s: seq<nat>,
                   ghost out0: seq<nat>, ghost b: nat, ghost c: nat)
    returns (list: ListHead?, tail: ListHead?, p: ListHead?, ghost nx: seq<int>, ghost out: seq<nat>)
    requires o == OrderOf(cmp, res == null) && (cmp.CmpComplex? ==> res != null)
    requires inp.Ok() && inp.Linked(nx0) && st.Progress(o, inp.infos, res) && insize > 0
    requires BetweenMerges(o, Values(inp.infos), nx0, s, out0, insize) && |out0| < |s|
    requires Ends(inp, list0, tail0, out0) && p0 == inp.At(s[|out0|])
    requires b == Upto(|out0|, insize, |s|) && c == Upto(b, insize, |s|)
    modifies inp.rank.Keys`next, inp.datas`data16, if res == null then {} else {res}
    ensures inp.Linked(nx) && st.Progress(o, inp.infos, res)
    ensures Threaded(nx, out, s, b, b, c) && Ends(inp, list, tail, out)
    ensures Evolves(o, old(Values(inp.infos)), Values(inp.infos))
    ensures Merging(o, Values(inp.infos), s, |out0|, b, c, b, c, out)
    ensures p == (if c < |s| then inp.At(s[c]) else null)
    ensures out0 <= out
  {
    ghost var a := |out0|;
    var q, psize := StepAlong(p0, insize, inp, nx0, s, a);
    var qsize := insize;
    NextMerge(o, Values(inp.infos), nx0, s, out0, insize);
    list, tail, p, nx, out :=
      MergeSince(cmp, res, o, list0, tail0, p0, q, psize, qsize, inp, st, nx0, s, a, b, c, out0);
  }

  /** One round of a pass: take two neighbouring runs off the list and merge them. */
  method MergeNext(cmp: Cmp, res: CoreResults?, ghost o: Order, list0: ListHead?, tail0: ListHead?, p0: ListHead,
                   insize: S32, ghost inp: Input, ghost st: Start, ghost nx0: seq<int>, ghost s: seq<nat>,
                   ghost out0: seq<nat>)
    returns (list: ListHead?, tail: ListHead?, p: ListHead?, ghost nx: seq<int>, ghost out: seq<nat>)
    requires o == OrderOf(cmp, res == null) && (cmp.CmpComplex? ==> res != null)
    requires inp.Ok() && inp.Linked(nx0) && st.Progress(o, inp.infos, res) && insize > 0
    requires BetweenMerges(o, Values(inp.infos), nx0, s, out0, insize) && |out0| < |s|
    requires Ends(inp, list0, tail0, out0) && p0 == inp.At(s[|out0|])
    modifies inp.rank.Keys`next, inp.datas`data16, if res == null then {} else {res}
    ensures inp.Linked(nx) && st.Progress(o, inp.infos, res)
    ensures BetweenMerges(o, Values(inp.infos), nx, s, out, insize)
    ensures |out| == Upto(Upto(|out0|, insize, |s|), insize, |s|) > |out0|
    ensures Ends(inp, list, tail, out) && p == (if |out| < |s| then inp.At(s[|out|]) else null)
  {
    ghost var b := Upto(|out0|, insize, |s|);
    ghost var c := Upto(b, insize, |s|);
    ghost var v := Values(inp.infos);
    list, tail, p, nx, out := MergeRuns(cmp, res, o, list0, tail0, p0, insize, inp, st, nx0, s, out0, b, c);
    AfterMerge(o, v, Values(inp.infos), nx0, nx, s, out0, insize, out);
  }

  // the merges of a pass, one after the other along the list
  method PassMerges(cmp: Cmp, res: CoreResults?, ghost o: Order, list0: ListHead, insize: S32, ghost inp: Input,
                    ghost st: Start, ghost nx0: seq<int>, ghost s: seq<nat>)
    returns (list: ListHead?, tail: ListHead?, nmerges: S32, ghost nx: seq<int>, ghost t: seq<nat>)
    requires o == OrderOf(cmp, res == null) && (cmp.CmpComplex? ==> res != null)
    requires inp.Ok() && inp.Linked(nx0) && st.Progress(o, inp.infos, res) && 0 < |s| < 0x8000_0000 && insize > 0
    requires BetweenMerges(o, Values(inp.infos), nx0, s, [], insize) && list0 == inp.At(s[0])
    modifies inp.rank.Keys`next, inp.datas`data16, if res == null then {} else {res}
    ensures inp.Linked(nx) && st.Progress(o, inp.infos, res)
    ensures BetweenMerges(o, Values(inp.infos), nx, s, t, insize) && Ends(inp, list, tail, t) && |t| == |s|
    ensures nmerges <= 1 <==> |s| <= 2 * insize
  {
    var p: ListHead? := list0;
    list, tail, nmerges, nx, t := null, null, 0, nx0, [];
    while p != null
      invariant inp.Linked(nx) && st.Progress(o, inp.infos, res)
      invariant BetweenMerges(o, Values(inp.infos), nx, s, t, insize)
      invariant Ends(inp, list, tail, t) && p == (if |t| < |s| then inp.At(s[|t|]) else null)
      invariant 0 <= nmerges <= |t| && (nmerges == 0 <==> t == [])
      invariant nmerges == 1 ==> |t| == Upto(Upto(0, insize, |s|), insize, |s|)
      invariant nmerges > 1 ==> |s| > 2 * insize
      decreases |s| - |t|
    {
      nmerges := nmerges + 1;
      list, tail, p, nx, t := MergeNext(cmp, res, o, list, tail, p, insize, inp, st, nx, s, t);
    }
  }

  /** One pass: merge neighbouring runs of `insize` items all along the list. */
  method SortPass(cmp: Cmp, res: CoreResults?, ghost o: Order, list0: ListHead, insize: S32, ghost inp: Input,
                  ghost st: Start, ghost nx0: seq<int>, ghost s: seq<nat>)
    returns (list: ListHead, nmerges: S32, ghost nx: seq<int>, ghost t: seq<nat>)
    requires o == OrderOf(cmp, res == null) && (cmp.CmpComplex? ==> res != null)
    requires inp.Ok() && inp.Linked(nx0) && st.Progress(o, inp.infos, res) && 0 < |s| < 0x8000_0000 && insize > 0
    requires IsThread(nx0, s) && Blocks(o, Values(inp.infos), s, 0, insize) && list0 == inp.At(s[0])
    modifies inp.rank.Keys`next, inp.datas`data16, if res == null then {} else {res}
    ensures inp.Linked(nx) && st.Progress(o, inp.infos, res)
    ensures |t| == |s| && IsThread(nx, t) && Blocks(o, Values(inp.infos), t, 0, 2 * insize) && list == inp.At(t[0])
    ensures nmerges <= 1 <==> |s| <= 2 * insize
  {
    var first: ListHead?, tail: ListHead?;
    PassStart(o, Values(inp.infos), nx0, s, insize);
    first, tail, nmerges, nx, t := PassMerges(cmp, res, o, list0, insize, inp, st, nx0, s);
    list := first;
    nx := EndList(res, o, list, tail, inp, st, nx, s, t, insize);
  }

  // the merged list ends behind its last cell
  method EndList(res: CoreResults?, ghost o: Order, ghost list: ListHead?, tail: ListHead?, ghost inp: Input,
                 ghost st: Start, ghost nx0: seq<int>, ghost s: seq<nat>, ghost t: seq<nat>, ghost insize: nat)
    returns (ghost nx: seq<int>)
    requires inp.Ok() && inp.Linked(nx0) && st.Progress(o, inp.infos, res) && insize > 0
    requires BetweenMerges(o, Values(inp.infos), nx0, s, t, insize) && Ends(inp, list, tail, t) && |t| == |s| > 0
    modifies inp.rank.Keys`next
    ensures inp.Linked(nx) && st.Progress(o, inp.infos, res)
    ensures IsThread(nx, t) && Blocks(o, Values(inp.infos), t, 0, 2 * insize)
  {
    PassEnd(o, Values(inp.infos), nx0, s, t, insize, nx0[t[|t| - 1] := -1]);
    tail.next := null;
    nx := nx0[t[|t| - 1] := -1];
  }

  lemma OneBlock(o: Order, v: View, t: seq<nat>, n: nat)
    requires 0 < |t| <= n && Blocks(o, v, t, 0, n)
    ensures Run(o, v, t, 0, |t|)
  {
  }

  // A pass, and whether it was the last one; if not, the next one takes runs of twice the size.
  method NextPass(cmp: Cmp, res: CoreResults?, ghost o: Order, list0: ListHead, insize: S32, ghost inp: Input,
                  ghost st: Start, ghost nx0: seq<int>, ghost s: seq<nat>)
    returns (list: ListHead, last: bool, doubled: S32, ghost nx: seq<int>, ghost t: seq<nat>)
    requires o == OrderOf(cmp, res == null) && (cmp.CmpComplex? ==> res != null)
    requires inp.Ok() && inp.Linked(nx0) && st.Progress(o, inp.infos, res) && 0 < |s| < 0x8000_0000 && insize > 0
    requires IsThread(nx0, s) && Blocks(o, Values(inp.infos), s, 0, insize) && list0 == inp.At(s[0])
    modifies inp.rank.Keys`next, inp.datas`data16, if res == null then {} else {res}
    ensures inp.Linked(nx) && st.Progress(o, inp.infos, res)
    ensures |t| == |s| && IsThread(nx, t) && list == inp.At(t[0])
    ensures last ==> Run(o, Values(inp.infos), t, 0, |t|)
    ensures !last ==> insize < doubled < |t| && Blocks(o, Values(inp.infos), t, 0, doubled)
  {
    var nmerges: S32;
    list, nmerges, nx, t := SortPass(cmp, res, o, list0, insize, inp, st, nx0, s);
    last, doubled := nmerges <= 1, 0;
    if last {
      OneBlock(o, Values(inp.infos), t, 2 * insize);
    } else {
      doubled := insize * 2;
    }
  }

  /** The loop over the passes. */
  method SortPasses(cmp: Cmp, res: CoreResults?, ghost o: Order, list0: ListHead, ghost inp: Input, ghost st: Start,
                    ghost nx0: seq<int>, ghost s0: seq<nat>)
    returns (list: ListHead, ghost nx: seq<int>, ghost t: seq<nat>)
    requires o == OrderOf(cmp, res == null) && (cmp.CmpComplex? ==> res != null)
    requires inp.Ok() && inp.Linked(nx0) && st.Progress(o, inp.infos, res) && 0 < |s0| < 0x8000_0000
    requires IsThread(nx0, s0) && Blocks(o, Values(inp.infos), s0, 0, 1) && list0 == inp.At(s0[0])
    modifies inp.rank.Keys`next, inp.datas`data16, if res == null then {} else {res}
    ensures inp.Linked(nx) && st.Progress(o, inp.infos, res)
    ensures |t| == |s0| && IsThread(nx, t) && Run(o, Values(inp.infos), t, 0, |t|) && list == inp.At(t[0])
  {
    list, nx, t := list0, nx0, s0;
    var insize: S32, last := 1, false;
    while !last
      invariant inp.Linked(nx) && st.Progress(o, inp.infos, res)
      invariant |t| == |s0| && IsThread(nx, t) && list == inp.At(t[0])
      invariant if last then Run(o, Values(inp.infos), t, 0, |t|)
                else insize > 0 && Blocks(o, Values(inp.infos), t, 0, insize)
      decreases if last then 0 else if insize < |s0| then 1 + |s0| - insize else 1
    {
      list, last, insize, nx, t := NextPass(cmp, res, o, list, insize, inp, st, nx, t);
    }
  }

  // ---- The sort, in terms of the heap

  ghost function Successors(n: nat): (nx: seq<int>)
    ensures |nx| == n && forall i {:trigger nx[i]} :: 0 <= i < n ==> nx[i] == if i + 1 < n then i + 1 else -1
  {
    seq(n, i => if i + 1 < n then i + 1 else -1)
  }

  ghost function InputOf(s: seq<ListHead>, datas: set<ListData>): (inp: Input)
    requires Distinct(s)
    requires forall k :: 0 <= k < |s| ==> s[k].info in datas
    reads s
    ensures inp.orig == s && inp.infos == Infos(s) && inp.datas == datas && inp.Ok()
    ensures forall n :: n in inp.rank.Keys ==> n in s
  {
    Input(s, Infos(s), map k | 0 <= k < |s| :: s[k] := k, datas)
  }

  lemma IdentityThread(n: nat)
    ensures IsThread(Successors(n), Identity(n))
  {
  }

  lemma LinkedInput(list: ListHead, s: seq<ListHead>, datas: set<ListData>)
    requires IsList(list, s) && s != []
    requires forall k :: 0 <= k < |s| ==> s[k].info in datas
    ensures InputOf(s, datas).Linked(Successors(|s|))
    ensures IsThread(Successors(|s|), Identity(|s|)) && list == InputOf(s, datas).At(Identity(|s|)[0])
  {
    var inp, nx := InputOf(s, datas), Successors(|s|);
    IdentityThread(|s|);
    forall k {:trigger nx[k]} | 0 <= k < |s|
      ensures s[k].next == inp.At(nx[k])
    {
      assert k + 1 < |s| ==> s[k].next == s[k + 1];
    }
  }

  lemma ListFromThread(inp: Input, list: ListHead, nx: seq<int>, t: seq<nat>)
    requires inp.Ok() && inp.Linked(nx) && IsThread(nx, t) && t != [] && list == inp.At(t[0])
    ensures IsList(list, Rearranged(inp.orig, t))
  {
    var r := Rearranged(inp.orig, t);
    forall i, j | 0 <= i < j < |r|
      ensures r[i] != r[j]
    {
      assert inp.rank[inp.orig[t[i]]] == t[i] && inp.rank[inp.orig[t[j]]] == t[j];
    }
    forall i | 0 <= i < |r|
      ensures r[i].next == if i + 1 < |r| then r[i + 1] else null
    {
      assert nx[t[i]] == if i + 1 < |t| then t[i + 1] else -1;
    }
  }

  /** core_list_mergesort: a non-empty list is relinked into a stably sorted one. `t` is the new order. */
  method CoreListMergesort(list: ListHead, cmp: Cmp, res: CoreResults?, ghost s: seq<ListHead>,
                           ghost cells: set<ListHead>, ghost datas: set<ListData>)
    returns (r: ListHead, ghost t: seq<nat>)
    requires cmp.CmpComplex? ==> res != null
    requires IsList(list, s) && 0 < |s| < 0x8000_0000
    requires forall k :: 0 <= k < |s| ==> s[k] in cells && s[k].info in datas
    modifies cells`next, datas`data16, if res == null then {} else {res}
    ensures Permutes(t, |s|) && IsList(r, Rearranged(s, t))
    ensures Infos(s) == old(Infos(s))
    ensures Evolves(OrderOf(cmp, res == null), old(Values(Infos(s))), Values(Infos(s)))
    ensures Run(OrderOf(cmp, res == null), Values(Infos(s)), t, 0, |t|)
    ensures Kept(res)
    ensures cmp.CmpComplex? ==> RanOnce(old(res.runs), old(CachedOf(Infos(s))), res.runs, CachedOf(Infos(s)))
  {
    ghost var o, inp := OrderOf(cmp, res == null), InputOf(s, datas);
    ghost var st := Start(Values(inp.infos), CachedOf(inp.infos), if res == null then multiset{} else res.runs,
                          if res == null then (list, 0, 0, 0) else Inputs(res));
    LinkedInput(list, s, datas);
    SingletonBlocks(o, Values(inp.infos), Identity(|s|), 0);
    ghost var nx;
    r, nx, t := SortPasses(cmp, res, o, list, inp, st, Successors(|s|), Identity(|s|));
    ListFromThread(inp, r, nx, t);
    InfosKept(inp, nx);
  }

  lemma InfosKept(inp: Input, nx: seq<int>)
    requires inp.Ok() && inp.Linked(nx)
    ensures Infos(inp.orig) == inp.infos
  {
    assert forall k :: 0 <= k < |inp.orig| ==> inp.infos[k] == inp.orig[k].info;
  }
}
