// The data of CoreMark's linked-list kernel (benchmarks/coremark/coremark.h, core_list_join.c).

module Cells {
  import opened Words

  type S16 = x: int | -0x8000 <= x < 0x8000
  type S32 = x: int | -0x8000_0000 <= x < 0x8000_0000

  /** The 16-bit `data16` by its two bytes: `hi` is the backup of the original data; bit 7 of `lo` says that
      the low 7 bits hold a computed value, otherwise bits 0-2 select a kernel and bits 3-6 are its input. */
  datatype Data16 = Data16(hi: U8, lo: U8) {
    function Word(): U16 { 0x100 * hi + lo }
    predicate Cached() { lo >= 0x80 }
    function Key(): (k: U8)
      ensures k < 0x80
    {
      if Cached() then lo - 0x80 else lo
    }
    function Flag(): U8 { lo % 8 }
    // the input of the kernel: bits 3-6 replicated to a byte
    function Input(): U8 { (lo / 8) % 0x10 * 0x11 }
    // and what it is as a step of the scanner
    function Step(): U8 { if Input() < 0x22 then 0x22 else Input() }
    // the low 7 bits of a computed value, marked as cached
    function Cache(value: U16): (d: Data16)
      ensures d.Cached() && d.Key() == value % 0x80 && d.hi == hi
    {
      Data16(hi, 0x80 + value % 0x80)
    }
    // what cmp_idx writes back when it has no results block: the low byte rebuilt from the backup
    function Rebuilt(): Data16 { Data16(hi, hi) }
  }

  lemma LowBits(d: Data16)
    ensures d.Word() % 0x80 == d.Key()
  {
    var q := 2 * d.hi + if d.Cached() then 1 else 0;
    assert d.Word() == 0x80 * q + d.Key();
  }

  /** The fields of the 16-bit word: the number of the kernel, its four bits of input, and the mark of a computed
      value. The input is replicated to a byte. */
  lemma WordFields(d: Data16)
    ensures d.Word() / 0x100 == d.hi && d.Word() % 0x100 == d.lo
    ensures d.Flag() == d.Word() % 8 && d.Input() % 0x10 == d.Input() / 0x10 == d.Word() / 8 % 0x10
    ensures d.Cached() <==> d.Word() / 0x80 % 2 == 1
    ensures d.Rebuilt().Word() == 0x101 * (d.Word() / 0x100)
  {
    var input := d.lo / 8 % 0x10;
    QuotientUnique(0x100, d.hi, d.lo);
    QuotientUnique(8, 0x20 * d.hi + d.lo / 8, d.lo % 8);
    LowNibble(0x20 * d.hi, d.lo / 8);
    QuotientUnique(0x10, input, input);
    var bit := if d.Cached() then 1 else 0;
    QuotientUnique(0x80, 2 * d.hi + bit, d.Key());
    QuotientUnique(2, d.hi, bit);
  }

  lemma LowNibble(a: nat, b: nat)
    requires a % 0x10 == 0
    ensures (a + b) % 0x10 == b % 0x10
  {
    var p, q, r := a / 0x10, b / 0x10, b % 0x10;
    assert a + b == 0x10 * (p + q) + r;
    QuotientUnique(0x10, p + q, r);
  }

  // The cast of an integer to ee_s16
  function ToS16(x: int): S16 { (x + 0x8000) % 0x1_0000 - 0x8000 }

  function ToU16(x: int): U16 { x % 0x1_0000 }

  /** What a list cell's `info` points at, as a value. */
  datatype Item = Item(data16: Data16, idx: S16)

  class ListData {
    var data16: Data16
    var idx: S16

    constructor (data16: Data16, idx: S16)
      ensures this.data16 == data16 && this.idx == idx
    {
      this.data16 := data16;
      this.idx := idx;
    }

    function Value(): Item
      reads this
    {
      Item(data16, idx)
    }
  }

  class ListHead {
    var next: ListHead?
    var info: ListData

    constructor (info: ListData)
      ensures this.info == info && next == null
    {
      this.info := info;
      next := null;
    }

    function Value(): Item
      reads this, info
    {
      info.Value()
    }
  }

  // ---- Sequences of distinct cells

  ghost predicate Distinct<T>(s: seq<T>) {
    forall i, j :: 0 <= i < j < |s| ==> s[i] != s[j]
  }

  lemma {:induction false} DistinctCount<T>(s: seq<T>, x: T)
    requires Distinct(s)
    ensures multiset(s)[x] <= 1
  {
    if s != [] {
      assert s == [s[0]] + s[1..];
      DistinctCount(s[1..], x);
    }
  }

  // ---- Linked shapes

  ghost predicate Chain(s: seq<ListHead>)
    reads s`next
  {
    forall i {:trigger s[i].next} :: 0 <= i < |s| - 1 ==> s[i].next == s[i + 1]
  }

  /** `head` starts a null-terminated list whose cells are exactly `s`, in this order. */
  ghost predicate IsList(head: ListHead?, s: seq<ListHead>)
    reads s`next
  {
    && Distinct(s)
    && Chain(s)
    && if s == [] then head == null else head == s[0] && s[|s| - 1].next == null
  }

  /** The data cells of a list, in list order. */
  ghost function Infos(s: seq<ListHead>): (infos: seq<ListData>)
    reads s
    ensures |infos| == |s| && forall i :: 0 <= i < |s| ==> infos[i] == s[i].info
  {
    seq(|s|, i requires 0 <= i < |s| reads s => s[i].info)
  }

  /** The data cells of the list `s` are `infos`. */
  ghost predicate Has(s: seq<ListHead>, infos: seq<ListData>)
    reads s`info
  {
    |infos| == |s| && forall k {:trigger infos[k]} {:trigger s[k].info} :: 0 <= k < |s| ==> s[k].info == infos[k]
  }

  /** Their items. */
  ghost function Values(infos: seq<ListData>): (items: seq<Item>)
    reads infos
    ensures |items| == |infos| && forall i :: 0 <= i < |infos| ==> items[i] == infos[i].Value()
  {
    seq(|infos|, i requires 0 <= i < |infos| reads infos => infos[i].Value())
  }
}
