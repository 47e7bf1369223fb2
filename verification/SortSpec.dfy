// What core_list_mergesort establishes, on values: runs, blocks of runs, and stable sorting under a
// comparator that rewrites the items it looks at.
//
// An item is named by its position in the input list, so a rearrangement of the list is a sequence of
// positions, and the state of all items is a sequence indexed by position.

module SortSpec {
  import opened Cells

  /** A comparator that leaves the items alone: not positive for items in order. Any that compares by a total preorder
      will do. */
  type Comparison = cmp: (Item, Item) -> S32 | TotalPreorder(cmp) witness (a: Item, b: Item) => 0

  ghost predicate TotalPreorder(cmp: (Item, Item) -> S32) {
    && (forall a, b :: cmp(a, b) <= 0 || cmp(b, a) <= 0)
    && (forall a, b, c :: cmp(a, b) <= 0 && cmp(b, c) <= 0 ==> cmp(a, c) <= 0)
  }

  // The three ways the kernel calls the sort - cmp_complex, cmp_idx, and cmp_idx without a results block - and any
  // other comparator
  datatype Order = ByData | ByIdx | ByIdxRebuild | By(cmp: Comparison)

  /** Whether items that a comparison has touched are in order. */
  predicate Leq(o: Order, x: Item, y: Item) {
    match o
    case ByData => x.data16.Key() <= y.data16.Key()
    case By(cmp) => cmp(x, y) <= 0
    case _ => x.idx <= y.idx
  }

  lemma LeqTotal(o: Order, x: Item, y: Item)
    ensures Leq(o, x, y) || Leq(o, y, x)
  {
    if o.By? {
      assert TotalPreorder(o.cmp);
    }
  }

  lemma LeqTransitive(o: Order, x: Item, y: Item, z: Item)
    requires Leq(o, x, y) && Leq(o, y, z)
    ensures Leq(o, x, z)
  {
    if o.By? {
      assert TotalPreorder(o.cmp);
    }
  }

  /** An item that comparisons leave alone from now on. */
  predicate Settled(o: Order, d: Data16) {
    match o
    case ByData => d.Cached()
    case ByIdxRebuild => d.lo == d.hi
    case _ => true
  }

  /** What any number of comparisons may do to the data of one item. */
  predicate DataStep(o: Order, before: Data16, after: Data16) {
    || after == before
    || (&& !Settled(o, before)
        && Settled(o, after)
        && after.hi == before.hi
        && (o.ByData? && before.Flag() >= 2 ==> after.Key() == before.Key()))
  }

  // ---- A snapshot of the items, and how comparisons change it

  type View = seq<Item>

  ghost predicate Evolves(o: Order, v: View, w: View) {
    && |v| == |w|
    && forall n :: 0 <= n < |v| ==> DataStep(o, v[n].data16, w[n].data16) && w[n].idx == v[n].idx
  }

  ghost predicate In(s: seq<nat>, v: View) {
    forall i :: 0 <= i < |s| ==> s[i] < |v|
  }

  /** `t` names every item of a list of `n` exactly once. */
  ghost predicate Permutes(t: seq<nat>, n: nat) {
    && |t| == n
    && Distinct(t)
    && forall i :: 0 <= i < n ==> t[i] < n
  }

  ghost predicate Within(s: seq<nat>, n: nat) {
    forall i :: 0 <= i < |s| ==> s[i] < n
  }

  // The list `s` in the order `t`
  function Rearranged<T>(s: seq<T>, t: seq<nat>): (r: seq<T>)
    requires Within(t, |s|)
    ensures |r| == |t| && forall i :: 0 <= i < |t| ==> r[i] == s[t[i]]
  {
    seq(|t|, i requires 0 <= i < |t| => s[t[i]])
  }

  function Identity(n: nat): (t: seq<nat>)
    ensures |t| == n && forall i :: 0 <= i < n ==> t[i] == i
  {
    seq(n, i => i)
  }

  // The remaining predicates speak of the stretch s[lo..hi] by its bounds.

  ghost predicate AllSettled(o: Order, v: View, s: seq<nat>, lo: nat, hi: nat)
    requires hi <= |s|
  {
    forall i :: lo <= i < hi ==> s[i] < |v| && Settled(o, v[s[i]].data16)
  }

  /** The order of a stable sort: ties by the position in the input. */
  ghost predicate Before(o: Order, v: View, a: nat, b: nat) {
    && a < |v| && b < |v|
    && Leq(o, v[a], v[b]) && (a < b || !Leq(o, v[b], v[a]))
  }

  lemma BeforeTransitive(o: Order, v: View, a: nat, b: nat, c: nat)
    requires Before(o, v, a, b) && Before(o, v, b, c)
    ensures Before(o, v, a, c)
  {
    var x, y, z := v[a], v[b], v[c];
    LeqTransitive(o, x, y, z);
    if Leq(o, z, x) {
      LeqTransitive(o, z, x, y);
      LeqTransitive(o, y, z, x);
    }
  }

  ghost predicate Sorted(o: Order, v: View, s: seq<nat>, lo: nat, hi: nat)
    requires hi <= |s|
  {
    forall i, j :: lo <= i < j < hi ==> Before(o, v, s[i], s[j])
  }

  /** A sorted stretch; if it has at least two items, every one of them has been compared. */
  ghost predicate Run(o: Order, v: View, s: seq<nat>, lo: nat, hi: nat)
    requires hi <= |s|
  {
    && Sorted(o, v, s, lo, hi)
    && (hi - lo >= 2 ==> AllSettled(o, v, s, lo, hi))
  }

  /** Everything in s[lo..mid] comes from an earlier part of the input than everything in s[mid..hi]. */
  ghost predicate Earlier(s: seq<nat>, lo: nat, mid: nat, hi: nat)
    requires hi <= |s|
  {
    forall i, j :: lo <= i < mid <= j < hi ==> s[i] < s[j]
  }

  /** The invariant of the passes: from `lo` on, consecutive runs of `n` items, each from an earlier part of
      the input than what follows; only the last one may be shorter. */
  ghost predicate Blocks(o: Order, v: View, s: seq<nat>, lo: nat, n: nat)
    requires n > 0
    decreases |s| - lo
  {
    lo < |s| ==>
      var hi := if |s| - lo <= n then |s| else lo + n;
      Run(o, v, s, lo, hi) && Earlier(s, lo, hi, |s|) && Blocks(o, v, s, hi, n)
  }

  // ---- Runs survive comparisons elsewhere

  lemma EvolvesTransitive(o: Order, u: View, v: View, w: View)
    requires Evolves(o, u, v) && Evolves(o, v, w)
    ensures Evolves(o, u, w)
  {
  }

  lemma SettledEvolves(o: Order, v: View, w: View, s: seq<nat>, lo: nat, hi: nat)
    requires hi <= |s| && AllSettled(o, v, s, lo, hi) && Evolves(o, v, w)
    ensures AllSettled(o, w, s, lo, hi)
    ensures forall i :: lo <= i < hi ==> w[s[i]] == v[s[i]]
  {
  }

  lemma RunEvolves(o: Order, v: View, w: View, s: seq<nat>, lo: nat, hi: nat)
    requires hi <= |s| && Evolves(o, v, w) && Run(o, v, s, lo, hi)
    ensures Run(o, w, s, lo, hi)
  {
    if hi - lo >= 2 {
      SettledEvolves(o, v, w, s, lo, hi);
    }
  }

  lemma {:induction false} BlocksEvolve(o: Order, v: View, w: View, s: seq<nat>, lo: nat, n: nat)
    requires n > 0 && Evolves(o, v, w) && Blocks(o, v, s, lo, n)
    ensures Blocks(o, w, s, lo, n)
    decreases |s| - lo
  {
    if lo < |s| {
      var hi := if |s| - lo <= n then |s| else lo + n;
      RunEvolves(o, v, w, s, lo, hi);
      BlocksEvolve(o, v, w, s, hi, n);
    }
  }

  // ---- Building blocks of runs from the back

  /** s[lo..] is made of whole blocks of `n` items. */
  ghost predicate Full(s: seq<nat>, lo: nat, n: nat)
    requires n > 0
    decreases |s| - lo
  {
    lo == |s| || (lo + n <= |s| && Full(s, lo + n, n))
  }

  lemma {:induction false} FullAppend(s: seq<nat>, t: seq<nat>, lo: nat, n: nat)
    requires n > 0 && Full(s, lo, n) && |t| == |s| + n
    ensures Full(t, lo, n)
    decreases |s| - lo
  {
    if lo < |s| {
      FullAppend(s, t, lo + n, n);
    } else {
      assert Full(t, lo + n, n);
    }
  }

  lemma {:induction false} BlocksAppend(o: Order, v: View, s: seq<nat>, t: seq<nat>, lo: nat, n: nat)
    requires n > 0 && Full(s, lo, n) && |s| <= |t| <= |s| + n && t[..|s|] == s
    requires Blocks(o, v, s, lo, n) && Run(o, v, t, |s|, |t|) && Earlier(t, lo, |s|, |t|)
    ensures Blocks(o, v, t, lo, n)
    decreases |s| - lo
  {
    if lo < |s| {
      RunPrefix(o, v, s, t, lo, lo + n);
      EarlierPrefix(s, t, lo, lo + n);
      BlocksAppend(o, v, s, t, lo + n, n);
    }
  }

  lemma RunPrefix(o: Order, v: View, s: seq<nat>, t: seq<nat>, lo: nat, hi: nat)
    requires hi <= |s| <= |t| && t[..|s|] == s && Run(o, v, s, lo, hi)
    ensures Run(o, v, t, lo, hi)
  {
    assert forall i :: 0 <= i < |s| ==> t[i] == s[i];
  }

  lemma EarlierPrefix(s: seq<nat>, t: seq<nat>, lo: nat, mid: nat)
    requires lo <= mid <= |s| <= |t| && t[..|s|] == s
    requires Earlier(s, lo, mid, |s|) && Earlier(t, lo, |s|, |t|)
    ensures Earlier(t, lo, mid, |t|) && Earlier(t, mid, |s|, |t|)
  {
    forall i, j | lo <= i < mid <= j < |t|
      ensures t[i] < t[j]
    {
      assert t[i] == s[i];
      if j < |s| {
        assert t[j] == s[j];
      }
    }
  }

  // The input in its own order is made of runs of one item.
  lemma {:induction false} SingletonBlocks(o: Order, v: View, s: seq<nat>, lo: nat)
    requires forall i :: 0 <= i < |s| ==> s[i] == i
    ensures Blocks(o, v, s, lo, 1)
    decreases |s| - lo
  {
    if lo < |s| {
      SingletonBlocks(o, v, s, lo + 1);
      assert Run(o, v, s, lo, lo + 1) && Earlier(s, lo, lo + 1, |s|);
    }
  }

  // ---- One merge

  // Bounds of a merge of s[a..b] and s[b..c], of which s[a..i] and s[b..j] are already in `out`
  ghost predicate Bounds(s: seq<nat>, a: nat, b: nat, c: nat, i: nat, j: nat, out: seq<nat>) {
    a <= i <= b <= j <= c <= |s| && a < b && |out| == i + j - b
  }

  // The merged part out[a..] is sorted, below everything left, and was compared if two items are merged.
  ghost predicate MergedSorted(o: Order, v: View, s: seq<nat>, a: nat, b: nat, c: nat, i: nat, j: nat, out: seq<nat>)
    requires Bounds(s, a, b, c, i, j, out)
  {
    && Run(o, v, s, a, b) && Run(o, v, s, b, c) && Sorted(o, v, out, a, |out|)
    && (forall x, y :: a <= x < |out| && (i <= y < b || j <= y < c) ==> Before(o, v, out[x], s[y]))
    && (|out| > a && c - a >= 2 ==> AllSettled(o, v, s, a, c) && AllSettled(o, v, out, a, |out|))
  }

  // The merge takes from the stretch s[a..c] of the input and loses nothing.
  ghost predicate MergedParts(s: seq<nat>, a: nat, b: nat, c: nat, i: nat, j: nat, out: seq<nat>)
    requires Bounds(s, a, b, c, i, j, out)
  {
    && Earlier(s, a, b, |s|) && Earlier(s, b, c, |s|) && Earlier(out, 0, a, |out|)
    && (forall x, y :: 0 <= x < a <= y < |s| ==> out[x] < s[y])
    && (forall x, y :: 0 <= x < |out| && c <= y < |s| ==> out[x] < s[y])
    && (forall y :: 0 <= y < i || b <= y < j ==> s[y] in out)
  }

  /** Part-way through the merge of the runs s[a..b] and s[b..c]: everything before `a` and the merged part
      are in `out`, s[i..b] and s[j..] are left. */
  ghost predicate Merging(o: Order, v: View, s: seq<nat>, a: nat, b: nat, c: nat, i: nat, j: nat, out: seq<nat>) {
    && Bounds(s, a, b, c, i, j, out) && In(s, v) && In(out, v)
    && MergedSorted(o, v, s, a, b, c, i, j, out)
    && MergedParts(s, a, b, c, i, j, out)
  }

  lemma MergeStart(o: Order, v: View, s: seq<nat>, a: nat, b: nat, c: nat, out: seq<nat>)
    requires a < b <= c <= |s| && |out| == a && In(s, v) && In(out, v)
    requires Run(o, v, s, a, b) && Run(o, v, s, b, c)
    requires Earlier(s, a, b, |s|) && Earlier(s, b, c, |s|)
    requires forall x, y :: 0 <= x < a <= y < |s| ==> out[x] < s[y]
    requires forall y :: 0 <= y < a ==> s[y] in out
    ensures Merging(o, v, s, a, b, c, a, b, out)
  {
  }

  lemma MergeEnd(o: Order, v: View, s: seq<nat>, a: nat, b: nat, c: nat, out: seq<nat>)
    requires Merging(o, v, s, a, b, c, b, c, out)
    ensures |out| == c && In(out, v) && Run(o, v, out, a, c) && Earlier(out, 0, a, c)
    ensures forall x, y :: 0 <= x < c <= y < |s| ==> out[x] < s[y]
    ensures forall y :: 0 <= y < c ==> s[y] in out
  {
  }

  /** A comparison of the heads keeps the merge going, and afterwards everything in it is settled. */
  lemma MergeEvolves(o: Order, v: View, w: View, s: seq<nat>, a: nat, b: nat, c: nat, i: nat, j: nat, out: seq<nat>)
    requires Merging(o, v, s, a, b, c, i, j, out) && Evolves(o, v, w) && i < b && j < c
    requires Settled(o, w[s[i]].data16) && Settled(o, w[s[j]].data16)
    ensures Merging(o, w, s, a, b, c, i, j, out)
    ensures AllSettled(o, w, s, a, c)
  {
    RunEvolves(o, v, w, s, a, b);
    RunEvolves(o, v, w, s, b, c);
    if |out| > a {
      SettledEvolves(o, v, w, s, a, c);
      SettledEvolves(o, v, w, out, a, |out|);
      assert Sorted(o, w, out, a, |out|);
    }
  }

  lemma TakeP(o: Order, v: View, s: seq<nat>, a: nat, b: nat, c: nat, i: nat, j: nat, out: seq<nat>)
    requires Merging(o, v, s, a, b, c, i, j, out) && i < b
    requires j < c ==> AllSettled(o, v, s, a, c) && Leq(o, v[s[i]], v[s[j]])
    ensures Merging(o, v, s, a, b, c, i + 1, j, out + [s[i]])
  {
    forall y | i < y < b || j <= y < c
      ensures Before(o, v, s[i], s[y])
    {
      if y > j {
        BeforeTransitive(o, v, s[i], s[j], s[y]);
      }
    }
    TakeSorted(o, v, s, a, b, c, i, j, out, i);
    TakeParts(s, a, b, c, i, j, out, i);
  }

  lemma TakeQ(o: Order, v: View, s: seq<nat>, a: nat, b: nat, c: nat, i: nat, j: nat, out: seq<nat>)
    requires Merging(o, v, s, a, b, c, i, j, out) && j < c
    requires i < b ==> AllSettled(o, v, s, a, c) && !Leq(o, v[s[i]], v[s[j]])
    ensures Merging(o, v, s, a, b, c, i, j + 1, out + [s[j]])
  {
    forall y | i <= y < b || j < y < c
      ensures Before(o, v, s[j], s[y])
    {
      if i <= y < b {
        LeqTotal(o, v[s[i]], v[s[j]]);
      }
      if i < y < b {
        BeforeTransitive(o, v, s[j], s[i], s[y]);
      }
    }
    TakeSorted(o, v, s, a, b, c, i, j, out, j);
    TakeParts(s, a, b, c, i, j, out, j);
  }

  lemma TakeSorted(o: Order, v: View, s: seq<nat>, a: nat, b: nat, c: nat, i: nat, j: nat, out: seq<nat>, k: nat)
    requires Bounds(s, a, b, c, i, j, out) && MergedSorted(o, v, s, a, b, c, i, j, out)
    requires ((k == i && i < b) || (k == j && j < c))
    requires i < b && j < c ==> AllSettled(o, v, s, a, c)
    requires forall y :: (i <= y < b || j <= y < c) && y != k ==> Before(o, v, s[k], s[y])
    ensures k == i < b ==> MergedSorted(o, v, s, a, b, c, i + 1, j, out + [s[i]])
    ensures k == j < c ==> MergedSorted(o, v, s, a, b, c, i, j + 1, out + [s[j]])
  {
    var t := out + [s[k]];
    assert t[|out|] == s[k] && forall x :: 0 <= x < |out| ==> t[x] == out[x];
    assert Sorted(o, v, t, a, |t|);
  }

  lemma TakeParts(s: seq<nat>, a: nat, b: nat, c: nat, i: nat, j: nat, out: seq<nat>, k: nat)
    requires Bounds(s, a, b, c, i, j, out) && MergedParts(s, a, b, c, i, j, out)
    requires ((k == i && i < b) || (k == j && j < c))
    ensures k == i < b ==> MergedParts(s, a, b, c, i + 1, j, out + [s[i]])
    ensures k == j < c ==> MergedParts(s, a, b, c, i, j + 1, out + [s[j]])
  {
    var t := out + [s[k]];
    assert t[|out|] == s[k] && forall x :: 0 <= x < |out| ==> t[x] == out[x];
    assert Earlier(t, 0, a, |t|);
  }

  // ---- Links, as positions: nx[k] is the successor of cell k, -1 for none

  // In a pass over the list `s`, the cells of `out`, s[i..b] and s[j..] are different cells.
  ghost predicate Parts(n: nat, out: seq<nat>, s: seq<nat>, i: nat, b: nat, j: nat) {
    && i <= b <= j <= |s|
    && Within(out, n) && Within(s, n)
    && Distinct(out) && Distinct(s)
    && (forall x, y :: 0 <= x < |out| && (i <= y < b || j <= y < |s|) ==> out[x] != s[y])
  }

  /** The links in the middle of a pass over the list `s`: `out` is linked, s[i..b] is linked, and s[j..] is
      linked and ends the list. */
  ghost predicate Threaded(nx: seq<int>, out: seq<nat>, s: seq<nat>, i: nat, b: nat, j: nat) {
    && Parts(|nx|, out, s, i, b, j)
    && (forall x {:trigger nx[out[x]]} :: 0 <= x < |out| - 1 ==> nx[out[x]] == out[x + 1])
    && (forall y {:trigger nx[s[y]]} :: i <= y < b - 1 ==> nx[s[y]] == s[y + 1])
    && (forall y {:trigger nx[s[y]]} :: j <= y < |s| - 1 ==> nx[s[y]] == s[y + 1])
    && (j < |s| ==> nx[s[|s| - 1]] == -1)
  }

  /** `s` lists every cell once and `nx` threads it, with nothing after its last cell. */
  ghost predicate IsThread(nx: seq<int>, s: seq<nat>) {
    && Permutes(s, |nx|)
    && (forall y {:trigger nx[s[y]]} :: 0 <= y < |s| - 1 ==> nx[s[y]] == s[y + 1])
    && (s != [] ==> nx[s[|s| - 1]] == -1)
  }

  // Between two merges of a pass: s[a..] is still a list, `out` holds the cells before it.
  ghost predicate BetweenMerges(o: Order, v: View, nx: seq<int>, s: seq<nat>, out: seq<nat>, n: nat)
    requires n > 0
  {
    && |out| <= |s| == |v| == |nx|
    && Threaded(nx, out, s, |out|, |out|, |out|)
    && Blocks(o, v, out, 0, 2 * n) && Blocks(o, v, s, |out|, n)
    && (|out| < |s| ==> Full(out, 0, 2 * n))
    && (forall x, y :: 0 <= x < |out| <= y < |s| ==> out[x] < s[y])
    && (forall y :: 0 <= y < |out| ==> s[y] in out)
  }

  lemma PassStart(o: Order, v: View, nx: seq<int>, s: seq<nat>, n: nat)
    requires n > 0 && |v| == |nx| && IsThread(nx, s) && Blocks(o, v, s, 0, n)
    ensures BetweenMerges(o, v, nx, s, [], n)
  {
  }

  // The bounds of the next merge
  function Upto(a: nat, n: nat, size: nat): (b: nat)
    requires a <= size
    ensures a <= b <= size
  {
    if size - a <= n then size else a + n
  }

  lemma NextMerge(o: Order, v: View, nx: seq<int>, s: seq<nat>, out: seq<nat>, n: nat)
    requires n > 0 && BetweenMerges(o, v, nx, s, out, n) && |out| < |s|
    ensures var a := |out|; var b := Upto(a, n, |s|); var c := Upto(b, n, |s|);
            && Merging(o, v, s, a, b, c, a, b, out) && Threaded(nx, out, s, a, b, b)
  {
    var a := |out|;
    var b := Upto(a, n, |s|);
    var c := Upto(b, n, |s|);
    assert Run(o, v, s, a, b) && Earlier(s, a, b, |s|) && Blocks(o, v, s, b, n);
    assert Run(o, v, s, b, c) && Earlier(s, b, c, |s|);
    MergeStart(o, v, s, a, b, c, out);
  }

  lemma MergedBlock(o: Order, v: View, w: View, out: seq<nat>, n: nat, next: seq<nat>, last: bool)
    requires n > 0 && Evolves(o, v, w) && Blocks(o, v, out, 0, 2 * n) && Full(out, 0, 2 * n)
    requires out <= next && |next| <= |out| + 2 * n && (!last ==> |next| == |out| + 2 * n)
    requires Run(o, w, next, |out|, |next|) && Earlier(next, 0, |out|, |next|)
    ensures Blocks(o, w, next, 0, 2 * n) && (!last ==> Full(next, 0, 2 * n))
  {
    BlocksEvolve(o, v, w, out, 0, 2 * n);
    BlocksAppend(o, w, out, next, 0, 2 * n);
    if !last {
      FullAppend(out, next, 0, 2 * n);
    }
  }

  lemma RestBlocks(o: Order, v: View, w: View, s: seq<nat>, a: nat, n: nat)
    requires n > 0 && Evolves(o, v, w) && a < |s| && Blocks(o, v, s, a, n)
    ensures Blocks(o, w, s, Upto(Upto(a, n, |s|), n, |s|), n)
  {
    var b := Upto(a, n, |s|);
    var c := Upto(b, n, |s|);
    assert Blocks(o, v, s, b, n);
    assert Blocks(o, v, s, c, n);
    BlocksEvolve(o, v, w, s, c, n);
  }

  lemma AfterMerge(o: Order, v: View, w: View, nx: seq<int>, ny: seq<int>, s: seq<nat>, out: seq<nat>, n: nat,
                   next: seq<nat>)
    requires n > 0 && BetweenMerges(o, v, nx, s, out, n) && |out| < |s| && Evolves(o, v, w) && out <= next
    requires |ny| == |nx|
    requires var a := |out|; var b := Upto(a, n, |s|); var c := Upto(b, n, |s|);
             Merging(o, w, s, a, b, c, b, c, next) && Threaded(ny, next, s, b, b, c)
    ensures BetweenMerges(o, w, ny, s, next, n)
    ensures |next| == Upto(Upto(|out|, n, |s|), n, |s|) > |out|
  {
    var a := |out|;
    var b := Upto(a, n, |s|);
    var c := Upto(b, n, |s|);
    MergeEnd(o, w, s, a, b, c, next);
    MergedBlock(o, v, w, out, n, next, c == |s|);
    RestBlocks(o, v, w, s, a, n);
    ThreadedBetween(ny, next, s, b, c);
  }

  lemma PassEnd(o: Order, v: View, nx: seq<int>, s: seq<nat>, out: seq<nat>, n: nat, ny: seq<int>)
    requires n > 0 && BetweenMerges(o, v, nx, s, out, n) && |out| == |s| > 0
    requires ny == nx[out[|out| - 1] := -1]
    ensures IsThread(ny, out) && Blocks(o, v, out, 0, 2 * n)
  {
  }

  lemma ThreadedBetween(nx: seq<int>, out: seq<nat>, s: seq<nat>, b: nat, c: nat)
    requires Threaded(nx, out, s, b, b, c)
    ensures Threaded(nx, out, s, c, c, c)
  {
  }

  lemma ThreadNext(nx: seq<int>, out: seq<nat>, s: seq<nat>, i: nat, b: nat, j: nat)
    requires Threaded(nx, out, s, i, b, j)
    ensures i + 1 < b ==> nx[s[i]] == s[i + 1]
    ensures j < |s| ==> nx[s[j]] == if j + 1 < |s| then s[j + 1] else -1
  {
  }

  lemma PartsStep(n: nat, out: seq<nat>, s: seq<nat>, i: nat, b: nat, j: nat, k: nat)
    requires Parts(n, out, s, i, b, j) && ((k == i && i < b) || (k == j && j < |s|))
    ensures k == i < b ==> Parts(n, out + [s[i]], s, i + 1, b, j)
    ensures k == j < |s| ==> Parts(n, out + [s[j]], s, i, b, j + 1)
  {
    var t := out + [s[k]];
    assert t[|out|] == s[k] && forall x :: 0 <= x < |out| ==> t[x] == out[x];
  }

  /** Appending the next cell of either stretch rewrites one link: that of the last cell of `out`. */
  lemma ThreadStep(nx: seq<int>, out: seq<nat>, s: seq<nat>, i: nat, b: nat, j: nat, k: nat, ny: seq<int>)
    requires Threaded(nx, out, s, i, b, j) && ((k == i && i < b) || (k == j && j < |s|))
    requires ny == if out == [] then nx else nx[out[|out| - 1] := s[k]]
    ensures k == i < b ==> Threaded(ny, out + [s[i]], s, i + 1, b, j)
    ensures k == j < |s| ==> Threaded(ny, out + [s[j]], s, i, b, j + 1)
  {
    PartsStep(|nx|, out, s, i, b, j, k);
    var t := out + [s[k]];
    assert t[|out|] == s[k] && forall x :: 0 <= x < |out| ==> t[x] == out[x];
  }

  // ---- There is only one stable sort

  /** A permutation of n positions reaches every position: Dirichlet's principle, by removing the largest. */
  lemma {:induction false} PermutesOnto(t: seq<nat>, n: nat, x: nat)
    requires Permutes(t, n) && x < n
    ensures x in t
  {
    if n - 1 !in t {
      assert false by {
        NoRoom(t, n - 1);
      }
    }
    if x != n - 1 {
      var k :| 0 <= k < n && t[k] == n - 1;
      var r := t[..k] + t[k + 1..];
      assert forall i :: 0 <= i < |r| ==> r[i] == if i < k then t[i] else t[i + 1];
      PermutesOnto(r, n - 1, x);
      assert forall y :: y in r ==> y in t;
    }
  }

  // There are no |t| distinct numbers below m < |t|.
  lemma {:induction false} NoRoom(t: seq<nat>, m: nat)
    requires Distinct(t) && m < |t| && forall i :: 0 <= i < |t| ==> t[i] < m
    ensures false
  {
    assert t[0] < m;
    if m > 0 {
      if m - 1 in t {
        var k :| 0 <= k < |t| && t[k] == m - 1;
        var r := t[..k] + t[k + 1..];
        assert forall i :: 0 <= i < |r| ==> r[i] == if i < k then t[i] else t[i + 1];
        NoRoom(r, m - 1);
      } else {
        NoRoom(t[1..], m - 1);
      }
    }
  }

  /** Two stable sorts of the same items put them in the same order. */
  lemma SortUnique(o: Order, v: View, t: seq<nat>, u: seq<nat>)
    requires Permutes(t, |v|) && Permutes(u, |v|)
    requires Sorted(o, v, t, 0, |t|) && Sorted(o, v, u, 0, |u|)
    ensures t == u
  {
    SamePrefix(o, v, t, u, |v|);
    assert t[..|v|] == t && u[..|v|] == u;
  }

  lemma {:induction false} SamePrefix(o: Order, v: View, t: seq<nat>, u: seq<nat>, k: nat)
    requires Permutes(t, |v|) && Permutes(u, |v|) && k <= |v|
    requires Sorted(o, v, t, 0, |t|) && Sorted(o, v, u, 0, |u|)
    ensures t[..k] == u[..k]
  {
    if k > 0 {
      SamePrefix(o, v, t, u, k - 1);
      assert forall i :: 0 <= i < k - 1 ==> t[i] == u[i] by {
        assert forall i :: 0 <= i < k - 1 ==> t[..k - 1][i] == t[i] && u[..k - 1][i] == u[i];
      }
      PermutesOnto(u, |v|, t[k - 1]);
      PermutesOnto(t, |v|, u[k - 1]);
      var p :| 0 <= p < |u| && u[p] == t[k - 1];
      var q :| 0 <= q < |t| && t[q] == u[k - 1];
      assert p >= k - 1 && q >= k - 1;
      var x, y := t[k - 1], u[k - 1];
      assert p > k - 1 ==> Before(o, v, y, x);
      assert q > k - 1 ==> Before(o, v, x, y);
      assert t[..k] == t[..k - 1] + [t[k - 1]] && u[..k] == u[..k - 1] + [u[k - 1]];
    }
  }

  // ---- There is a stable order

  // How many of the sorted items in `t` come before item x
  lemma Place(o: Order, v: View, t: seq<nat>, x: nat) returns (k: nat)
    requires x < |v| && Within(t, x) && Sorted(o, v, t, 0, |t|)
    ensures k <= |t| && (forall i :: 0 <= i < k ==> Before(o, v, t[i], x))
    ensures forall i :: k <= i < |t| ==> Before(o, v, x, t[i])
  {
    k := 0;
    while k < |t| && Leq(o, v[t[k]], v[x])
      invariant k <= |t| && forall i :: 0 <= i < k ==> Before(o, v, t[i], x)
    {
      k := k + 1;
    }
    if k < |t| {
      LeqTotal(o, v[t[k]], v[x]);
      forall i | k <= i < |t|
        ensures Before(o, v, x, t[i])
      {
        if k < i {
          BeforeTransitive(o, v, x, t[k], t[i]);
        }
      }
    }
  }

  lemma Inserted(o: Order, v: View, t: seq<nat>, x: nat, k: nat, r: seq<nat>)
    requires x < |v| && Permutes(t, x) && Sorted(o, v, t, 0, |t|) && k <= |t|
    requires (forall i :: 0 <= i < k ==> Before(o, v, t[i], x)) && forall i :: k <= i < |t| ==> Before(o, v, x, t[i])
    requires r == t[..k] + [x] + t[k..]
    ensures Permutes(r, x + 1) && Sorted(o, v, r, 0, |r|)
  {
    assert forall i :: 0 <= i < |r| ==> r[i] == if i < k then t[i] else if i == k then x else t[i - 1];
  }

  // the first n items in a stable order
  lemma {:induction false} PrefixOrder(o: Order, v: View, n: nat) returns (t: seq<nat>)
    requires n <= |v|
    ensures Permutes(t, n) && Sorted(o, v, t, 0, |t|)
  {
    t := [];
    if n > 0 {
      var s := PrefixOrder(o, v, n - 1);
      var k := Place(o, v, s, n - 1);
      t := s[..k] + [n - 1] + s[k..];
      Inserted(o, v, s, n - 1, k, t);
    }
  }

  /** Any items have a stable order, and by SortUnique only one. */
  lemma StableOrder(o: Order, v: View) returns (t: seq<nat>)
    ensures Permutes(t, |v|) && Sorted(o, v, t, 0, |t|)
  {
    t := PrefixOrder(o, v, |v|);
  }
}
