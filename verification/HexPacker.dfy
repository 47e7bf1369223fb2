// The word packers of the hex images (fpga/scripts/generate_coe.py, fpga/scripts/merge_hex_for_mem_subsys.py).

module HexPacker {
  import opened Words

  // ---- Integers of any width, as sequences of bits in two's complement

  function Bit(a: int, k: nat): bool
    decreases k
  {
    if k == 0 then a % 2 == 1 else Bit(a / 2, k - 1)
  }

  // how far from 0 and -1, of which all bits are the same
  function Magnitude(a: int): nat { if a >= 0 then a else -1 - a }

  function IntOr(a: int, b: int): int
    decreases Magnitude(a) + Magnitude(b)
  {
    if Magnitude(a) == Magnitude(b) == 0 then if a == b == 0 then 0 else -1
    else (if a % 2 == 1 || b % 2 == 1 then 1 else 0) + 2 * IntOr(a / 2, b / 2)
  }

  function ShiftLeft(a: int, n: nat): int { if n == 0 then a else 2 * ShiftLeft(a, n - 1) }

  lemma SameBits(a: int, k: nat)
    requires Magnitude(a) == 0
    ensures Bit(a, k) == (a == -1)
  {
    if k > 0 {
      SameBits(a / 2, k - 1);
    }
  }

  lemma HeadAndTail(x: bool, r: int)
    ensures var a := (if x then 1 else 0) + 2 * r; a % 2 == (if x then 1 else 0) && a / 2 == r
  {
  }

  lemma {:induction false} OrBit(a: int, b: int, k: nat)
    ensures Bit(IntOr(a, b), k) == (Bit(a, k) || Bit(b, k))
    decreases k
  {
    if Magnitude(a) == Magnitude(b) == 0 {
      SameBits(a, k);
      SameBits(b, k);
      SameBits(IntOr(a, b), k);
    } else {
      HeadAndTail(a % 2 == 1 || b % 2 == 1, IntOr(a / 2, b / 2));
      if k > 0 {
        OrBit(a / 2, b / 2, k - 1);
      }
    }
  }

  lemma {:induction false} ShiftBit(a: int, n: nat, k: nat)
    ensures Bit(ShiftLeft(a, n), k) == (k >= n && Bit(a, k - n))
    decreases n
  {
    if n > 0 {
      HeadAndTail(false, ShiftLeft(a, n - 1));
      if k > 0 {
        ShiftBit(a, n - 1, k - 1);
      }
    }
  }

  /** The bits are the number. */
  lemma {:induction false} BitsUnique(a: int, b: int)
    requires forall k: nat :: Bit(a, k) == Bit(b, k)
    ensures a == b
    decreases Magnitude(a) + Magnitude(b)
  {
    assert Bit(a, 0) == Bit(b, 0);
    if Magnitude(a) + Magnitude(b) > 0 {
      forall k: nat
        ensures Bit(a / 2, k) == Bit(b / 2, k)
      {
        assert Bit(a, k + 1) == Bit(b, k + 1);
      }
      BitsUnique(a / 2, b / 2);
    }
  }

  // ---- Words by their lanes

  type Lanes = p: seq<int> | |p| == 4 witness [0, 0, 0, 0]

  /** What is ORed into a word, the first lane not shifted, each of the others by eight bits more. */
  function Packed(p: Lanes): int {
    IntOr(IntOr(IntOr(ShiftLeft(p[0], 0), ShiftLeft(p[1], 8)), ShiftLeft(p[2], 16)), ShiftLeft(p[3], 24))
  }

  predicate LaneBit(x: int, lane: nat, k: nat) { k >= 8 * lane && Bit(x, k - 8 * lane) }

  // A bit is set if it is in one of the lanes, which larger numbers share with the next ones.
  lemma PackedBit(p: Lanes, k: nat)
    ensures Bit(Packed(p), k)
            == (LaneBit(p[0], 0, k) || LaneBit(p[1], 1, k) || LaneBit(p[2], 2, k) || LaneBit(p[3], 3, k))
  {
    var a, b, c, d := ShiftLeft(p[0], 0), ShiftLeft(p[1], 8), ShiftLeft(p[2], 16), ShiftLeft(p[3], 24);
    OrBit(a, b, k);
    OrBit(IntOr(a, b), c, k);
    OrBit(IntOr(IntOr(a, b), c), d, k);
    ShiftBit(p[0], 0, k);
    ShiftBit(p[1], 8, k);
    ShiftBit(p[2], 16, k);
    ShiftBit(p[3], 24, k);
  }

  lemma {:induction false} ZeroBit(k: nat)
    ensures !Bit(0, k)
  {
    if k > 0 {
      ZeroBit(k - 1);
    }
  }

  /** A number ORed into a free lane. */
  lemma PutLane(p: Lanes, lane: nat, x: int)
    requires lane < 4 && p[lane] == 0
    ensures IntOr(Packed(p), ShiftLeft(x, 8 * lane)) == Packed(p[lane := x])
  {
    var word, shifted := Packed(p), ShiftLeft(x, 8 * lane);
    forall k: nat
      ensures Bit(IntOr(word, shifted), k) == Bit(Packed(p[lane := x]), k)
    {
      OrBit(word, shifted, k);
      ShiftBit(x, 8 * lane, k);
      PackedBit(p, k);
      PackedBit(p[lane := x], k);
      if k >= 8 * lane {
        ZeroBit(k - 8 * lane);
      }
    }
    BitsUnique(IntOr(word, shifted), Packed(p[lane := x]));
  }

  lemma NothingPacked()
    ensures Packed([0, 0, 0, 0]) == 0
  {
    forall k: nat
      ensures Bit(Packed([0, 0, 0, 0]), k) == Bit(0, k)
    {
      PackedBit([0, 0, 0, 0], k);
      forall i: nat
        ensures !Bit(0, i)
      {
        ZeroBit(i);
      }
    }
    BitsUnique(Packed([0, 0, 0, 0]), 0);
  }

  lemma {:induction false} OrZeroInt(b: int)
    ensures IntOr(0, b) == b
    decreases Magnitude(b)
  {
    if Magnitude(b) > 0 {
      OrZeroInt(b / 2);
    }
  }

  // Below the shifted bits an `or` is a sum.
  lemma {:induction false} OrIsSum(a: nat, b: int, n: nat)
    requires a < Pow2(n)
    ensures IntOr(a, ShiftLeft(b, n)) == a + ShiftLeft(b, n)
  {
    if n == 0 {
      OrZeroInt(b);
    } else {
      OrIsSum(a / 2, b, n - 1);
      HeadAndTail(false, ShiftLeft(b, n - 1));
      if a == 0 && ShiftLeft(b, n) == 0 {
        assert IntOr(0, 0) == 0;
      }
    }
  }

  lemma {:induction false} ShiftIsProduct(a: int, n: nat)
    ensures ShiftLeft(a, n) == a * Pow2(n)
  {
    if n > 0 {
      ShiftIsProduct(a, n - 1);
    }
  }

  lemma OneMoreByte(a: nat, power: nat, b: nat)
    requires a < power && b <= 0xff
    ensures a + power * b < 0x100 * power
  {
    assert power * (0xff - b) >= 0;
    assert power * 0xff == power * b + power * (0xff - b);
  }

  // a byte ORed in above n bits
  lemma AddByte(a: nat, n: nat, power: nat, b: U8)
    requires a < power == Pow2(n)
    ensures IntOr(a, ShiftLeft(b, n)) == a + power * b < 0x100 * power
  {
    OrIsSum(a, b, n);
    ShiftIsProduct(b, n);
    OneMoreByte(a, power, b);
  }

  lemma Powers()
    ensures Pow2(8) == 0x100 && Pow2(16) == 0x1_0000 && Pow2(24) == 0x100_0000
  {
    assert Pow2(4) == 16;
    assert Pow2(12) == 0x1000;
    assert Pow2(20) == 0x10_0000;
  }

  /** Bytes are packed into the word that has them in little-endian order. */
  lemma BytesPacked(p: seq<U8>)
    requires |p| == 4
    ensures Packed(p) == FromLe32(p)
  {
    var a: nat, b: nat, c: nat := p[0], p[1], p[2];
    Powers();
    AddByte(a, 8, 0x100, p[1]);
    AddByte(a + 0x100 * b, 16, 0x1_0000, p[2]);
    AddByte(a + 0x100 * b + 0x1_0000 * c, 24, 0x100_0000, p[3]);
  }

  // ---- What is packed, key by key

  ghost predicate KeysOf(keys: seq<int>, bytes: map<int, int>) {
    (forall i, j :: 0 <= i < j < |keys| ==> keys[i] != keys[j]) && forall a :: a in bytes <==> a in keys
  }

  lemma KeyIn(keys: seq<int>, bytes: map<int, int>, k: nat)
    requires KeysOf(keys, bytes) && k < |keys|
    ensures keys[k] in bytes
  {
    assert keys[k] in keys;
  }

  /** The value at an address, 0 where there is none. */
  function ValueAt(bytes: map<int, int>, a: int): int { if a in bytes then bytes[a] else 0 }

  // the value at an address, if it is one of the first k keys
  function ValueSoFar(bytes: map<int, int>, keys: seq<int>, k: nat, a: int): int
    requires k <= |keys|
  {
    if a in keys[..k] then ValueAt(bytes, a) else 0
  }

  // The lanes of a word at these addresses from `first` on
  function LanesSoFar(bytes: map<int, int>, keys: seq<int>, k: nat, first: int): (p: Lanes)
    requires k <= |keys|
    ensures forall lane :: 0 <= lane < 4 ==> p[lane] == ValueSoFar(bytes, keys, k, first + lane)
  {
    [ValueSoFar(bytes, keys, k, first), ValueSoFar(bytes, keys, k, first + 1), ValueSoFar(bytes, keys, k, first + 2),
     ValueSoFar(bytes, keys, k, first + 3)]
  }

  function LanesAt(bytes: map<int, int>, first: int): (p: Lanes)
    ensures forall lane :: 0 <= lane < 4 ==> p[lane] == ValueAt(bytes, first + lane)
  {
    [ValueAt(bytes, first), ValueAt(bytes, first + 1), ValueAt(bytes, first + 2), ValueAt(bytes, first + 3)]
  }

  lemma NextKey(bytes: map<int, int>, keys: seq<int>, k: nat, a: int)
    requires KeysOf(keys, bytes) && k < |keys|
    ensures ValueSoFar(bytes, keys, k, keys[k]) == 0 && ValueSoFar(bytes, keys, k + 1, keys[k]) == bytes[keys[k]]
    ensures a != keys[k] ==> ValueSoFar(bytes, keys, k + 1, a) == ValueSoFar(bytes, keys, k, a)
  {
    KeyIn(keys, bytes, k);
    assert keys[..k + 1] == keys[..k] + [keys[k]];
  }

  // One key more changes one lane of one word.
  lemma NextLanes(bytes: map<int, int>, keys: seq<int>, k: nat, first: int)
    requires KeysOf(keys, bytes) && k < |keys|
    ensures var p, q := LanesSoFar(bytes, keys, k, first), LanesSoFar(bytes, keys, k + 1, first);
            var lane := keys[k] - first;
            if 0 <= lane < 4 then p[lane] == 0 && q == p[lane := bytes[keys[k]]] else q == p
  {
    NextKey(bytes, keys, k, first);
    NextKey(bytes, keys, k, first + 1);
    NextKey(bytes, keys, k, first + 2);
    NextKey(bytes, keys, k, first + 3);
  }

  lemma AllKeys(bytes: map<int, int>, keys: seq<int>, first: int)
    requires KeysOf(keys, bytes)
    ensures LanesSoFar(bytes, keys, |keys|, first) == LanesAt(bytes, first)
  {
    assert keys[..|keys|] == keys;
  }

  // ---- generate_coe.py

  predicate Rebased(bytes: map<int, int>, baseAddr: int, allow: bool) {
    allow && exists a :: a in bytes && a >= baseAddr
  }

  /** It takes a single address at the base, or above it; none below it will do. */
  lemma RebaseMeans(bytes: map<int, int>, baseAddr: int, above: nat)
    ensures baseAddr + above in bytes ==> Rebased(bytes, baseAddr, true)
    ensures (forall a :: a in bytes ==> a < baseAddr) ==> !Rebased(bytes, baseAddr, true)
    ensures !Rebased(bytes, baseAddr, false)
  {
  }

  // Only the low byte of a value is used.
  function LowBytes(bytes: map<int, int>): (low: map<int, int>)
    ensures low.Keys == bytes.Keys && forall a :: a in bytes ==> low[a] == bytes[a] % 0x100
  {
    map a | a in bytes :: bytes[a] % 0x100
  }

  // the words after the first k keys
  ghost predicate PackedWords(words: seq<int>, bytes: map<int, int>, keys: seq<int>, k: nat, offset: int)
    requires k <= |keys|
  {
    forall w :: 0 <= w < |words| ==> words[w] == Packed(LanesSoFar(bytes, keys, k, 4 * w + offset))
  }

  // An address is in one word only.
  lemma WordOf(a: int, w: int)
    ensures 0 <= a - 4 * w < 4 <==> w == a / 4
    ensures w == a / 4 ==> a - 4 * w == a % 4
  {
  }

  // the words with a value ORed into the lane of an address, if it is in one of them
  function WithByte(words: seq<int>, eff: int, value: int): (next: seq<int>)
    ensures |next| == |words|
  {
    if 0 <= eff && eff / 4 < |words| then words[eff / 4 := IntOr(words[eff / 4], ShiftLeft(value, 8 * (eff % 4)))]
      else words
  }

  lemma WordNext(words: seq<int>, bytes: map<int, int>, keys: seq<int>, k: nat, offset: int, w: nat)
    requires KeysOf(keys, bytes) && k < |keys| && keys[k] in bytes && w < |words|
    requires words[w] == Packed(LanesSoFar(bytes, keys, k, 4 * w + offset))
    ensures WithByte(words, keys[k] - offset, bytes[keys[k]])[w]
            == Packed(LanesSoFar(bytes, keys, k + 1, 4 * w + offset))
  {
    var e := keys[k] - offset;
    NextLanes(bytes, keys, k, 4 * w + offset);
    WordOf(e, w);
    if w == e / 4 {
      PutLane(LanesSoFar(bytes, keys, k, 4 * w + offset), e % 4, bytes[keys[k]]);
    }
  }

  lemma PackedNext(words: seq<int>, bytes: map<int, int>, keys: seq<int>, k: nat, offset: int, eff: int, value: int)
    requires KeysOf(keys, bytes) && k < |keys| && PackedWords(words, bytes, keys, k, offset)
    requires keys[k] in bytes && eff == keys[k] - offset && value == bytes[keys[k]]
    ensures PackedWords(WithByte(words, eff, value), bytes, keys, k + 1, offset)
  {
    forall w | 0 <= w < |words|
      ensures WithByte(words, eff, value)[w] == Packed(LanesSoFar(bytes, keys, k + 1, 4 * w + offset))
    {
      WordNext(words, bytes, keys, k, offset, w);
    }
  }

  lemma AnyKey(bytes: map<int, int>, keys: seq<int>, baseAddr: int)
    requires KeysOf(keys, bytes)
    ensures (exists a :: a in bytes && a >= baseAddr) <==> exists j :: 0 <= j < |keys| && keys[j] >= baseAddr
  {
    if a :| a in bytes && a >= baseAddr {
      assert a in keys;
    }
    if j :| 0 <= j < |keys| && keys[j] >= baseAddr {
      assert keys[j] in bytes;
    }
  }

  lemma LowLanes(bytes: map<int, int>, first: int)
    ensures Packed(LanesAt(LowBytes(bytes), first)) == FromLe32(LowLanesAt(bytes, first))
  {
    var p, q := LanesAt(LowBytes(bytes), first), LowLanesAt(bytes, first);
    forall lane | 0 <= lane < 4
      ensures p[lane] == q[lane]
    {
      LowValue(bytes, first + lane);
    }
    assert p == q;
    BytesPacked(q);
  }

  lemma LowValue(bytes: map<int, int>, a: int)
    ensures ValueAt(LowBytes(bytes), a) == ValueAt(bytes, a) % 0x100
  {
  }

  /** The low bytes at four addresses */
  function LowLanesAt(bytes: map<int, int>, first: int): (p: seq<U8>)
    ensures |p| == 4 && forall lane :: 0 <= lane < 4 ==> p[lane] == ValueAt(bytes, first + lane) % 0x100
  {
    [ValueAt(bytes, first) % 0x100, ValueAt(bytes, first + 1) % 0x100, ValueAt(bytes, first + 2) % 0x100,
     ValueAt(bytes, first + 3) % 0x100]
  }

  method PutByte(words: seq<int>, eff: int, value: int) returns (next: seq<int>)
    ensures next == WithByte(words, eff, value)
  {
    next := words;
    if eff >= 0 {
      var wordIdx, lane := eff / 4, eff % 4;
      if wordIdx < |words| {
        next := words[wordIdx := IntOr(words[wordIdx], ShiftLeft(value, 8 * lane))];
      }
    }
  }

  lemma NoKeys(bytes: map<int, int>, keys: seq<int>, first: int)
    ensures Packed(LanesSoFar(bytes, keys, 0, first)) == 0
  {
    NothingPacked();
    assert LanesSoFar(bytes, keys, 0, first) == [0, 0, 0, 0];
  }

  lemma NoWords(words: seq<int>, bytes: map<int, int>, keys: seq<int>, offset: int)
    requires forall w :: 0 <= w < |words| ==> words[w] == 0
    ensures PackedWords(words, bytes, keys, 0, offset)
  {
    forall w | 0 <= w < |words|
      ensures words[w] == Packed(LanesSoFar(bytes, keys, 0, 4 * w + offset))
    {
      NoKeys(bytes, keys, 4 * w + offset);
    }
  }

  lemma LowKeys(keys: seq<int>, bytes: map<int, int>)
    requires KeysOf(keys, bytes)
    ensures KeysOf(keys, LowBytes(bytes))
  {
    forall a
      ensures a in LowBytes(bytes) <==> a in keys
    {
      assert a in LowBytes(bytes) <==> a in bytes;
    }
  }

  lemma LowNext(words: seq<int>, bytes: map<int, int>, keys: seq<int>, k: nat, offset: int, eff: int)
    requires KeysOf(keys, bytes) && k < |keys| && PackedWords(words, LowBytes(bytes), keys, k, offset)
    requires eff == keys[k] - offset
    ensures keys[k] in bytes
    ensures PackedWords(WithByte(words, eff, bytes[keys[k]] % 0x100), LowBytes(bytes), keys, k + 1, offset)
  {
    KeyIn(keys, bytes, k);
    LowKeys(keys, bytes);
    var value := bytes[keys[k]] % 0x100;
    assert LowBytes(bytes)[keys[k]] == value;
    PackedNext(words, LowBytes(bytes), keys, k, offset, eff, value);
  }

  /** Bytes are used as they are. */
  lemma BytesKept(bytes: map<int, int>, first: int)
    requires forall a :: a in bytes ==> 0 <= bytes[a] < 0x100
    ensures LowLanesAt(bytes, first) == LanesAt(bytes, first)
  {
    forall lane | 0 <= lane < 4
      ensures LowLanesAt(bytes, first)[lane] == LanesAt(bytes, first)[lane]
    {
      SmallRemainder(ValueAt(bytes, first + lane));
    }
  }

  lemma SmallRemainder(x: int)
    requires 0 <= x < 0x100
    ensures x % 0x100 == x
  {
  }

  // the loop over the addresses
  method PackWords(bytes: map<int, int>, keys: seq<int>, depth: nat, baseAddr: int,
                   rebase: bool) returns (words: seq<int>)
    requires KeysOf(keys, bytes)
    ensures |words| == depth && PackedWords(words, LowBytes(bytes), keys, |keys|, if rebase then baseAddr else 0)
  {
    words := seq(depth, i => 0);
    ghost var offset, low := if rebase then baseAddr else 0, LowBytes(bytes);
    NoWords(words, low, keys, offset);
    var k := 0;
    while k < |keys|
      invariant 0 <= k <= |keys| && |words| == depth && PackedWords(words, low, keys, k, offset)
    {
      var addr := keys[k];
      var eff := if rebase then addr - baseAddr else addr;
      LowNext(words, bytes, keys, k, offset, eff);
      words := PutByte(words, eff, bytes[addr] % 0x100);
      k := k + 1;
    }
  }

  // whether the base address is used
  method UsesBase(bytes: map<int, int>, keys: seq<int>, baseAddr: int, allow: bool) returns (rebase: bool)
    requires KeysOf(keys, bytes)
    ensures rebase == Rebased(bytes, baseAddr, allow)
  {
    var any := false;
    for i := 0 to |keys|
      invariant any <==> exists j :: 0 <= j < i && keys[j] >= baseAddr
    {
      any := any || keys[i] >= baseAddr;
    }
    AnyKey(bytes, keys, baseAddr);
    rebase := allow && any;
  }

  /** byte_map_to_words, with the keys in any order: every word has the low bytes of its four addresses in little-endian
      order, less the base address if that is used. */
  method ByteMapToWords(bytes: map<int, int>, keys: seq<int>, depth: nat, baseAddr: int,
                        allow: bool) returns (words: seq<int>)
    requires KeysOf(keys, bytes)
    ensures |words| == depth
    ensures var offset := if Rebased(bytes, baseAddr, allow) then baseAddr else 0;
            forall w :: 0 <= w < depth ==> words[w] == FromLe32(LowLanesAt(bytes, 4 * w + offset))
  {
    var rebase := UsesBase(bytes, keys, baseAddr, allow);
    words := PackWords(bytes, keys, depth, baseAddr, rebase);
    PackedLow(words, bytes, keys, if rebase then baseAddr else 0);
  }

  lemma PackedLow(words: seq<int>, bytes: map<int, int>, keys: seq<int>, offset: int)
    requires KeysOf(keys, bytes) && PackedWords(words, LowBytes(bytes), keys, |keys|, offset)
    ensures forall w :: 0 <= w < |words| ==> words[w] == FromLe32(LowLanesAt(bytes, 4 * w + offset))
  {
    forall w | 0 <= w < |words|
      ensures words[w] == FromLe32(LowLanesAt(bytes, 4 * w + offset))
    {
      LowKeys(keys, bytes);
      AllKeys(LowBytes(bytes), keys, 4 * w + offset);
      LowLanes(bytes, 4 * w + offset);
    }
  }

  // ---- merge_hex_for_mem_subsys.py

  /** The value after the merge: data wins over instructions. */
  function MergedAt(inst: map<int, int>, data: map<int, int>, a: int): int {
    if a in data then data[a] else ValueAt(inst, a)
  }

  /** Where both have a value it is that of the data, elsewhere the one there is. */
  lemma DataWins(inst: map<int, int>, data: map<int, int>, a: int)
    ensures a in data ==> MergedAt(inst, data, a) == ValueAt(data, a)
    ensures a !in data ==> MergedAt(inst, data, a) == ValueAt(inst, a)
    ensures MergedAt(inst, data, a) == ValueAt(inst + data, a)
  {
  }

  function MergedLanes(inst: map<int, int>, data: map<int, int>, first: int): (p: Lanes)
    ensures forall lane :: 0 <= lane < 4 ==> p[lane] == MergedAt(inst, data, first + lane)
  {
    [MergedAt(inst, data, first), MergedAt(inst, data, first + 1), MergedAt(inst, data, first + 2),
      MergedAt(inst, data, first + 3)]
  }

  // the dictionary is keyed by the address of each word
  function WordIn(dict: map<int, int>, w: int): int { ValueAt(dict, 4 * w) }

  // the dictionary of words after the first k keys
  ghost predicate PackedDict(dict: map<int, int>, bytes: map<int, int>, keys: seq<int>, k: nat)
    requires k <= |keys|
  {
    forall w {:trigger WordIn(dict, w)} :: WordIn(dict, w) == Packed(LanesSoFar(bytes, keys, k, 4 * w))
  }

  lemma PackedDictNext(dict: map<int, int>, bytes: map<int, int>, keys: seq<int>, k: nat)
    requires KeysOf(keys, bytes) && k < |keys| && PackedDict(dict, bytes, keys, k)
    ensures var a := keys[k]; var word := WordIn(dict, a / 4);
            PackedDict(dict[4 * (a / 4) := IntOr(word, ShiftLeft(bytes[a], 8 * (a % 4)))], bytes, keys, k + 1)
  {
    var a := keys[k];
    var next := dict[4 * (a / 4) := IntOr(WordIn(dict, a / 4), ShiftLeft(bytes[a], 8 * (a % 4)))];
    forall w {:trigger WordIn(next, w)}
      ensures WordIn(next, w) == Packed(LanesSoFar(bytes, keys, k + 1, 4 * w))
    {
      NextLanes(bytes, keys, k, 4 * w);
      WordOf(a, w);
      assert WordIn(dict, w) == Packed(LanesSoFar(bytes, keys, k, 4 * w));
      if w == a / 4 {
        PutLane(LanesSoFar(bytes, keys, k, 4 * w), a % 4, bytes[a]);
      }
    }
  }

  // the lines of the output, 0 for words without bytes
  method WordsOf(dict: map<int, int>, count: int) returns (words: seq<int>)
    ensures |words| == if count < 0 then 0 else count
    ensures forall w :: 0 <= w < |words| ==> words[w] == WordIn(dict, w)
  {
    words := [];
    var idx: nat := 0;
    while idx < count
      invariant |words| == idx && (idx <= count || idx == 0)
      invariant forall w :: 0 <= w < idx ==> words[w] == WordIn(dict, w)
    {
      words := words + [WordIn(dict, idx)];
      idx := idx + 1;
    }
  }

  /** The highest word with a byte; 0 without any. */
  ghost predicate Highest(maxIdx: int, keys: seq<int>, k: nat)
    requires k <= |keys|
  {
    && (k == 0 ==> maxIdx == 0)
    && (forall i :: 0 <= i < k ==> keys[i] / 4 <= maxIdx)
    && (k > 0 ==> exists i :: 0 <= i < k && keys[i] / 4 == maxIdx)
  }

  // the dictionary of all bytes, and the highest word in it
  method PackAll(bytes: map<int, int>, keys: seq<int>) returns (dict: map<int, int>, maxIdx: int)
    requires KeysOf(keys, bytes)
    ensures PackedDict(dict, bytes, keys, |keys|) && Highest(maxIdx, keys, |keys|)
  {
    dict, maxIdx := map[], 0;
    forall w {:trigger WordIn(dict, w)}
      ensures WordIn(dict, w) == Packed(LanesSoFar(bytes, keys, 0, 4 * w))
    {
      NoKeys(bytes, keys, 4 * w);
    }
    var k := 0;
    while k < |keys|
      invariant 0 <= k <= |keys| && PackedDict(dict, bytes, keys, k) && Highest(maxIdx, keys, k)
    {
      var addr := keys[k];
      KeyIn(keys, bytes, k);
      PackedDictNext(dict, bytes, keys, k);
      var wordAddr := 4 * (addr / 4);
      dict := dict[wordAddr := IntOr(ValueAt(dict, wordAddr), ShiftLeft(bytes[addr], 8 * (addr % 4)))];
      maxIdx := if k == 0 || addr / 4 > maxIdx then addr / 4 else maxIdx;
      k := k + 1;
    }
  }

  /** The words that are written: as many as the highest address needs, at most the size of the memory, each one what
      its merged values are packed into. Where these are bytes, BytesPacked says which word that is. */
  method MergeWords(inst: map<int, int>, data: map<int, int>, keys: seq<int>, ramWords: int)
    returns (words: seq<int>, ghost maxIdx: int)
    requires KeysOf(keys, inst + data)
    ensures forall w :: 0 <= w < |words| ==> words[w] == Packed(MergedLanes(inst, data, 4 * w))
    ensures Highest(maxIdx, keys, |keys|)
    ensures |words| == var n := 1 + if maxIdx < ramWords - 1 then maxIdx else ramWords - 1; if n < 0 then 0 else n
  {
    var bytes := inst + data;
    var dict, highest := PackAll(bytes, keys);
    maxIdx := highest;
    words := WordsOf(dict, 1 + if highest < ramWords - 1 then highest else ramWords - 1);
    forall w | 0 <= w < |words|
      ensures words[w] == Packed(MergedLanes(inst, data, 4 * w))
    {
      assert WordIn(dict, w) == Packed(LanesSoFar(bytes, keys, |keys|, 4 * w));
      AllKeys(bytes, keys, 4 * w);
      assert LanesAt(bytes, 4 * w) == MergedLanes(inst, data, 4 * w);
    }
  }
}
