// The basic operations of the list kernel (benchmarks/coremark/core_list_join.c): find, reverse, remove and
// its undo, and the step that caches a found item's successor at the front.

module ListOps {
  import opened Cells

  // ---- Their effect on sequences

  function Reversed<T>(s: seq<T>): (r: seq<T>)
    ensures |r| == |s| && forall i :: 0 <= i < |s| ==> r[i] == s[|s| - 1 - i]
  {
    seq(|s|, i requires 0 <= i < |s| => s[|s| - 1 - i])
  }

  /** The element after position j moves to the second place; the first one stays. */
  function PullForward<T>(s: seq<T>, j: nat): (r: seq<T>)
    requires j < |s|
    ensures |r| == |s|
    ensures forall i :: 0 <= i < |s| ==> r[i] == s[Pulled(|s|, j, i)]
  {
    seq(|s|, i requires 0 <= i < |s| => s[Pulled(|s|, j, i)])
  }

  function Pulled(n: nat, j: nat, i: nat): nat {
    if j + 1 < n && i == 1 then j + 1 else if 2 <= i <= j + 1 < n then i - 1 else i
  }

  function Without<T>(s: seq<T>, k: nat): (r: seq<T>)
    requires k < |s|
    ensures |r| == |s| - 1
    ensures forall i :: 0 <= i < |r| ==> r[i] == if i < k then s[i] else s[i + 1]
  {
    seq(|s| - 1, i requires 0 <= i < |s| - 1 => if i < k then s[i] else s[i + 1])
  }

  /** core_list_find compares by idx, or by the low data byte when the wanted idx is negative. */
  predicate Matches(it: Item, wanted: Item) {
    if wanted.idx >= 0 then it.idx == wanted.idx else wanted.data16 == Data16(0, it.data16.lo)
  }

  function FindFrom(items: seq<Item>, wanted: Item, i: nat): (k: nat)
    requires i <= |items|
    ensures i <= k <= |items| && forall x :: i <= x < k ==> !Matches(items[x], wanted)
    ensures k < |items| ==> Matches(items[k], wanted)
    decreases |items| - i
  {
    if i == |items| || Matches(items[i], wanted) then i else FindFrom(items, wanted, i + 1)
  }

  function FindIndex(items: seq<Item>, wanted: Item): (k: nat)
    ensures k <= |items| && forall i :: 0 <= i < k ==> !Matches(items[i], wanted)
    ensures k < |items| ==> Matches(items[k], wanted)
  {
    FindFrom(items, wanted, 0)
  }

  lemma FindIndexUnique(items: seq<Item>, wanted: Item, k: nat)
    requires k <= |items| && forall i :: 0 <= i < k ==> !Matches(items[i], wanted)
    requires k < |items| ==> Matches(items[k], wanted)
    ensures k == FindIndex(items, wanted)
  {
    assert FindIndex(items, wanted) <= |items|;
  }

  // ---- The operations

  ghost predicate Owned(s: seq<ListHead>, cells: set<ListHead>) {
    forall i :: 0 <= i < |s| ==> s[i] in cells
  }

  method CoreListFind(list0: ListHead?, wanted: Item, ghost s: seq<ListHead>,
                      ghost infos: seq<ListData>) returns (list: ListHead?)
    requires IsList(list0, s) && Has(s, infos)
    ensures var k := FindIndex(Values(infos), wanted);
            list == if k < |s| then s[k] else null
  {
    list := list0;
    ghost var k := 0;
    if wanted.idx >= 0 {
      while list != null && list.info.idx != wanted.idx
        invariant 0 <= k <= |s| && list == (if k < |s| then s[k] else null)
        invariant forall i :: 0 <= i < k ==> s[i].info.idx != wanted.idx
        decreases |s| - k
      {
        list := list.next;
        k := k + 1;
      }
    } else {
      while list != null && Data16(0, list.info.data16.lo) != wanted.data16
        invariant 0 <= k <= |s| && list == (if k < |s| then s[k] else null)
        invariant forall i :: 0 <= i < k ==> Data16(0, s[i].info.data16.lo) != wanted.data16
        decreases |s| - k
      {
        list := list.next;
        k := k + 1;
      }
    }
    FindIndexUnique(Values(infos), wanted, k);
  }

  method CoreListReverse(list0: ListHead?, ghost s: seq<ListHead>, ghost cells: set<ListHead>) returns (next: ListHead?)
    requires IsList(list0, s) && Owned(s, cells)
    modifies cells`next
    ensures IsList(next, Reversed(s))
  {
    next := null;
    var list := list0;
    ghost var k := 0;
    while list != null
      invariant 0 <= k <= |s|
      invariant list == (if k < |s| then s[k] else null) && next == (if k > 0 then s[k - 1] else null)
      invariant forall y {:trigger s[y].next} :: k <= y < |s| ==> s[y].next == if y + 1 < |s| then s[y + 1] else null
      invariant forall y {:trigger s[y].next} :: 0 <= y < k ==> s[y].next == if y > 0 then s[y - 1] else null
      decreases |s| - k
    {
      var tmp := list.next;
      list.next := next;
      next := list;
      list := tmp;
      k := k + 1;
    }
    ghost var r := Reversed(s);
    forall i | 0 <= i < |r|
      ensures r[i].next == if i + 1 < |r| then r[i + 1] else null
    {
      assert r[i] == s[|s| - 1 - i];
    }
  }

  lemma PullDistinct<T>(s: seq<T>, j: nat)
    requires Distinct(s) && j < |s|
    ensures Distinct(PullForward(s, j))
  {
  }

  /** The successor of a found cell moves behind the head of the list. */
  method CacheNext(list: ListHead, found: ListHead, ghost s: seq<ListHead>, ghost j: nat, ghost cells: set<ListHead>)
    requires IsList(list, s) && Owned(s, cells) && j < |s| && found == s[j]
    modifies cells`next
    ensures IsList(list, PullForward(s, j))
  {
    assert s[j].next == if j + 1 < |s| then s[j + 1] else null;
    if found.next != null {
      var finder := found.next;
      assert finder.next == if j + 2 < |s| then s[j + 2] else null;
      assert list.next == s[1];
      found.next := finder.next;
      finder.next := list.next;
      list.next := finder;
    }
    ghost var r := PullForward(s, j);
    PullDistinct(s, j);
    forall i | 0 <= i < |r|
      ensures r[i].next == if i + 1 < |r| then r[i + 1] else null
    {
    }
  }

  method CoreListRemove(item: ListHead, ghost list: ListHead?, ghost s: seq<ListHead>, ghost k: nat,
                        ghost cells: set<ListHead>)
    returns (ret: ListHead)
    requires IsList(list, s) && Owned(s, cells) && k + 1 < |s| && item == s[k]
    modifies cells`next, cells`info
    ensures ret == s[k + 1] && IsList(list, Without(s, k + 1)) && ret.next == null
    ensures s[k].info == old(s[k + 1].info) && s[k + 1].info == old(s[k].info)
    ensures forall n :: n in cells && n != s[k] && n != s[k + 1] ==> n.info == old(n.info)
  {
    assert s[k].next == s[k + 1];
    ret := item.next;
    var tmp := item.info;
    item.info := ret.info;
    ret.info := tmp;
    assert s[k + 1].next == if k + 2 < |s| then s[k + 2] else null;
    item.next := item.next.next;
    ret.next := null;
    ghost var r := Without(s, k + 1);
    forall i | 0 <= i < |r|
      ensures r[i].next == if i + 1 < |r| then r[i + 1] else null
    {
    }
  }

  method CoreListUndoRemove(removed: ListHead, modified: ListHead, ghost list: ListHead?, ghost s: seq<ListHead>,
                            ghost k: nat, ghost cells: set<ListHead>)
    returns (r: ListHead)
    requires Distinct(s) && Owned(s, cells) && k + 1 < |s| && IsList(list, Without(s, k + 1))
    requires removed == s[k + 1] && modified == s[k]
    modifies cells`next, cells`info
    ensures IsList(list, s)
    ensures s[k].info == old(s[k + 1].info) && s[k + 1].info == old(s[k].info)
    ensures forall n :: n in cells && n != s[k] && n != s[k + 1] ==> n.info == old(n.info)
  {
    ghost var w := Without(s, k + 1);
    assert forall i {:trigger s[i]} :: 0 <= i < |s| && i != k + 1 ==> s[i] == w[if i <= k then i else i - 1];
    assert w[k].next == if k + 1 < |w| then w[k + 1] else null;
    var tmp := removed.info;
    removed.info := modified.info;
    modified.info := tmp;
    removed.next := modified.next;
    modified.next := removed;
    forall i | 0 <= i < |s|
      ensures s[i].next == if i + 1 < |s| then s[i + 1] else null
    {
      if i != k && i != k + 1 {
        var x := if i < k then i else i - 1;
        assert w[x].next == if x + 1 < |w| then w[x + 1] else null;
      }
    }
    r := removed;
  }
}
