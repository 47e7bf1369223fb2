// The 16-bit CRC of CoreMark (benchmarks/coremark/core_util.c).
//
// A machine word is the sequence of its bits, least significant first, so a shift to the right drops the first bit.
// `Step` is what a turn of the bit loop does to the register, and the loops of the source are proved to fold it over
// the message bits. The fold is then proved to be the remainder of a division by x^16 + x^15 + x^2 + 1, and to detect
// what a CRC with this generator is there to detect.

module Crc {
  import opened Sequences
  import Numbers = Words

  type Bits = seq<bool>
  type Word = b: Bits | |b| == 16 witness seq(16, i => false)
  type Byte = b: Bits | |b| == 8 witness seq(8, i => false)

  // ---- Bits and numbers

  function ToBits(n: nat, width: nat): (bits: Bits)
    ensures |bits| == width
  {
    if width == 0 then [] else [n % 2 == 1] + ToBits(n / 2, width - 1)
  }

  function ToNat(bits: Bits): nat {
    if bits == [] then 0 else (if bits[0] then 1 else 0) + 2 * ToNat(bits[1..])
  }

  /** Reading `width` bits of a number and back keeps it modulo 2^width: the cast to an unsigned C type. */
  lemma {:induction false} NatRoundTrip(n: nat, width: nat)
    ensures ToNat(ToBits(n, width)) == n % Numbers.Pow2(width)
  {
    if width > 0 {
      NatRoundTrip(n / 2, width - 1);
      assert ToBits(n, width)[1..] == ToBits(n / 2, width - 1);
      HalfRemainder(n, Numbers.Pow2(width - 1));
    }
  }

  lemma HalfRemainder(n: nat, p: nat)
    requires p > 0
    ensures n % (2 * p) == n % 2 + 2 * (n / 2 % p)
  {
    var q, r := n / 2 / p, n / 2 % p;
    assert n / 2 == p * q + r;
    assert n == (2 * p) * q + (n % 2 + 2 * r);
    Numbers.QuotientUnique(2 * p, q, n % 2 + 2 * r);
  }

  lemma {:induction false} BitsRoundTrip(bits: Bits)
    ensures ToNat(bits) < Numbers.Pow2(|bits|)
    ensures ToBits(ToNat(bits), |bits|) == bits
  {
    if bits != [] {
      BitsRoundTrip(bits[1..]);
    }
  }

  // ---- Bitwise operators

  function XorBits(a: Bits, b: Bits): (x: Bits)
    requires |a| == |b|
    ensures |x| == |a|
    ensures forall i :: 0 <= i < |a| ==> x[i] == (a[i] != b[i])
  {
    seq(|a|, i requires 0 <= i < |a| => a[i] != b[i])
  }

  /** The same operator as on numbers. */
  lemma {:induction false} XorIsXor(a: nat, b: nat, width: nat)
    ensures XorBits(ToBits(a, width), ToBits(b, width)) == ToBits(Numbers.Xor(a, b, width), width)
  {
    if width > 0 {
      var x, y := ToBits(a, width), ToBits(b, width);
      XorIsXor(a / 2, b / 2, width - 1);
      Numbers.XorHead(a, b, width);
      assert XorBits(x, y) == [x[0] != y[0]] + XorBits(x[1..], y[1..]);
    }
  }

  function Zeros(n: nat): (z: Bits)
    ensures |z| == n
    ensures forall i :: 0 <= i < n ==> !z[i]
  {
    seq(n, i => false)
  }

  function ShiftRight(a: Bits): (r: Bits)
    requires a != []
    ensures |r| == |a|
  {
    a[1..] + [false]
  }

  // 0x4002, the constant of the source, and 0xA001, the reflected generator
  function FlipMask(): Word { seq(16, i => i == 1 || i == 14) }
  function Poly(): Word { [true] + Zeros(12) + [true, false, true] }

  function NibbleAt(w: Bits, k: nat): nat
    requires k + 4 <= |w|
  {
    (if w[k] then 1 else 0) + (if w[k + 1] then 2 else 0) + (if w[k + 2] then 4 else 0) + (if w[k + 3] then 8 else 0)
  }

  lemma Nibble(w: Bits, k: nat)
    requires k + 4 <= |w|
    ensures ToNat(w[k..]) == NibbleAt(w, k) + 16 * ToNat(w[k + 4..])
  {
    forall i | k <= i < k + 4
      ensures ToNat(w[i..]) == (if w[i] then 1 else 0) + 2 * ToNat(w[i + 1..])
    {
      assert w[i..][1..] == w[i + 1..];
    }
  }

  lemma Hex(w: Word)
    ensures ToNat(w) == NibbleAt(w, 0) + 0x10 * NibbleAt(w, 4) + 0x100 * NibbleAt(w, 8) + 0x1000 * NibbleAt(w, 12)
  {
    Nibble(w, 0);
    Nibble(w, 4);
    Nibble(w, 8);
    Nibble(w, 12);
    assert w[0..] == w && ToNat(w[16..]) == 0;
  }

  lemma Constants()
    ensures ToNat(FlipMask()) == 0x4002 && ToNat(Poly()) == 0xA001
  {
    Hex(FlipMask());
    Hex(Poly());
  }

  // ---- The register

  function Mask(feedback: bool): Word { if feedback then Poly() else Zeros(16) }

  function Step(bit: bool, crc: Word): Word { XorBits(ShiftRight(crc), Mask(bit != crc[0])) }

  function Fold(bits: Bits, crc: Word): Word {
    if bits == [] then crc else Fold(bits[1..], Step(bits[0], crc))
  }

  function CrcWords(words: seq<Word>, crc: Word): Word {
    if words == [] then crc else Fold(words[|words| - 1], CrcWords(words[..|words| - 1], crc))
  }

  // The same on numbers, for callers that count: the CRC of a 16-bit value.
  function Crc16(value: nat, crc: nat): (r: nat)
    ensures r < 0x1_0000
  {
    var w := Fold(ToBits(value, 16), ToBits(crc, 16));
    BitsRoundTrip(w);
    assert Numbers.Pow2(16)
      == 0x1_0000 by { assert Numbers.Pow2(4) == 16; assert Numbers.Pow2(8) == 256; assert Numbers.Pow2(12) == 4096; }
    ToNat(w)
  }

  function Crc32(value: nat, crc: nat): nat { Crc16(value / 0x1_0000, Crc16(value, crc)) }

  // ---- The loops of the source

  // the part of a turn that the register takes part in
  method BitStep(bit: bool, crc: Word) returns (r: Word)
    ensures r == Step(bit, crc)
  {
    r := crc;
    var x16 := bit != r[0];
    var carry := false;
    if x16 {
      r := XorBits(r, FlipMask());
      carry := true;
    }
    r := ShiftRight(r);
    if carry {
      r := r[15 := true];
    } else {
      r := r[15 := false];
    }
  }

  method Crcu8(data: Byte, crc: Word) returns (r: Word)
    ensures r == Fold(data, crc) == Remainder(Dividend(data, crc))
  {
    FoldIsRemainder(data, crc);
    r := crc;
    var d: Byte := data;
    var i := 0;
    while i < 8
      invariant 0 <= i <= 8
      invariant d[..8 - i] == data[i..]
      invariant Fold(data[i..], r) == Fold(data, crc)
    {
      assert d[0] == d[..8 - i][0] == data[i] && data[i..][1..] == data[i + 1..];
      r := BitStep(d[0], r);
      d := ShiftRight(d);
      assert d[..8 - (i + 1)] == data[i + 1..];
      i := i + 1;
    }
    assert data[8..] == [];
    assert data[0..] == data;
  }

  method Crcu16(newval: Word, crc: Word) returns (r: Word)
    ensures r == Fold(newval, crc) == Remainder(Dividend(newval, crc))
  {
    FoldIsRemainder(newval, crc);
    FoldConcat(newval[..8], newval[8..], crc);
    assert newval[..8] + newval[8..] == newval;
    r := Crcu8(newval[..8], crc);
    r := Crcu8(newval[8..], r);
  }

  // crc16 of a number: the casts around crcu16
  method Crc16Of(value: nat, crc: nat) returns (r: nat)
    ensures r == Crc16(value, crc)
  {
    var w := Crcu16(ToBits(value, 16), ToBits(crc, 16));
    r := ToNat(w);
  }

  method Crcu32(newval: nat, crc: nat) returns (r: nat)
    ensures r == Crc32(newval, crc)
  {
    r := Crc16Of(newval, crc);
    r := Crc16Of(newval / 0x1_0000, r);
  }

  lemma {:induction false} FoldConcat(a: Bits, b: Bits, crc: Word)
    ensures Fold(a + b, crc) == Fold(b, Fold(a, crc))
  {
    if a == [] {
      assert a + b == b;
    } else {
      assert (a + b)[1..] == a[1..] + b;
      FoldConcat(a[1..], b, Step(a[0], crc));
    }
  }

  /** Chaining crcu16 over words is one fold over all their bits. */
  lemma {:induction false} WordsAreBits(words: seq<Word>, crc: Word)
    ensures CrcWords(words, crc) == Fold(Concat(words), crc)
  {
    if words != [] {
      var init, last := words[..|words| - 1], words[|words| - 1];
      WordsAreBits(init, crc);
      FoldConcat(Concat(init), last, crc);
    }
  }

  // ---- Remainders
  //
  // A polynomial with coefficients 0 and 1 is the sequence of its coefficients, highest power first.

  /** x^16 + x^15 + x^2 + 1 */
  function Generator(): (g: Bits)
    ensures |g| == 17
  {
    [true, true] + Zeros(12) + [true, false, true]
  }

  // The generator times a coefficient and x^n
  function Lead(bit: bool, n: nat): (r: Bits)
    ensures |r| == n + 17 && r[0] == bit
  {
    (if bit then Generator() else Zeros(17)) + Zeros(n)
  }

  /** The product of q and the generator. */
  function Times(q: Bits): (r: Bits)
    ensures |r| == |q| + 16
  {
    if q == [] then Zeros(16) else XorBits(Lead(q[0], |q| - 1), [false] + Times(q[1..]))
  }

  /** q is the quotient and r the remainder of s: a polynomial is its quotient times the generator plus a remainder of
      a lower degree than the generator's. */
  predicate Divides(s: Bits, q: Bits, r: Bits)
    { |r| == 16 && |s| == |q| + 16 && s == XorBits(Times(q), Zeros(|q|) + r) }

  // A division step: the generator is subtracted if the leading coefficient is 1, which then is dropped.
  function Reduced(s: Bits): (r: Bits)
    requires |s| > 16
    ensures |r| == |s| - 1
  {
    XorBits(s, Lead(s[0], |s| - 17))[1..]
  }

  /** Long division. */
  function Remainder(s: Bits): (r: Word)
    requires |s| >= 16
    decreases |s|
  {
    if |s| == 16 then s else Remainder(Reduced(s))
  }

  function Quotient(s: Bits): (q: Bits)
    requires |s| >= 16
    ensures |q| == |s| - 16
    decreases |s|
  {
    if |s| == 16 then [] else [s[0]] + Quotient(Reduced(s))
  }

  lemma XorTail(s: Bits, lead: Bits, t: Bits)
    requires |s| == |lead| == |t| + 1
    ensures s == XorBits(lead, [false] + t) <==> s[0] == lead[0] && XorBits(s, lead)[1..] == t
  {
    var u := [false] + t;
    assert u[1..] == t;
    assert s == XorBits(lead, u) <==> XorBits(s, lead) == u by {
      if s == XorBits(lead, u) {
        assert XorBits(s, lead) == u;
      }
      if XorBits(s, lead) == u {
        assert forall i :: 0 <= i < |s| ==> u[i] == (s[i] != lead[i]);
        assert s == XorBits(lead, u);
      }
    }
    assert XorBits(s, lead) == [XorBits(s, lead)[0]] + XorBits(s, lead)[1..];
  }

  lemma TimesNext(q: Bits, r: Bits)
    requires |r| == 16 && q != []
    ensures XorBits(Times(q), Zeros(|q|) + r)
            == XorBits(Lead(q[0], |q| - 1), [false] + XorBits(Times(q[1..]), Zeros(|q| - 1) + r))
  {
    var t, z := Times(q[1..]), Zeros(|q| - 1) + r;
    ZerosNext(|q| - 1);
    Regroup([false], Zeros(|q| - 1), r);
    XorAssociates(Lead(q[0], |q| - 1), [false] + t, [false] + z);
    XorBehind(t, z);
  }

  lemma ZerosNext(n: nat)
    ensures Zeros(n + 1) == [false] + Zeros(n)
  {
  }

  lemma XorBehind(a: Bits, b: Bits)
    requires |a| == |b|
    ensures XorBits([false] + a, [false] + b) == [false] + XorBits(a, b)
  {
  }

  lemma XorAssociates(a: Bits, b: Bits, c: Bits)
    requires |a| == |b| == |c|
    ensures XorBits(XorBits(a, b), c) == XorBits(a, XorBits(b, c))
  {
  }

  // A division with the leading coefficient in its quotient is one of what the step leaves, and the other way round.
  lemma DividesNext(s: Bits, q: Bits, r: Bits)
    requires |r| == 16 && |s| == |q| + 16 && q != []
    ensures Divides(s, q, r) <==> q[0] == s[0] && Divides(Reduced(s), q[1..], r)
  {
    TimesNext(q, r);
    XorTail(s, Lead(q[0], |q| - 1), XorBits(Times(q[1..]), Zeros(|q| - 1) + r));
  }

  /** Long division finds a quotient and a remainder, */
  lemma {:induction false} DivisionWorks(s: Bits)
    requires |s| >= 16
    ensures Divides(s, Quotient(s), Remainder(s))
    decreases |s|
  {
    if |s| > 16 {
      DivisionWorks(Reduced(s));
      DividesNext(s, Quotient(s), Remainder(s));
    }
  }

  /** and there are no others. */
  lemma {:induction false} DivisionUnique(s: Bits, q: Bits, r: Bits)
    requires |s| >= 16 && Divides(s, q, r)
    ensures q == Quotient(s) && r == Remainder(s)
    decreases |s|
  {
    if |s| > 16 {
      DividesNext(s, q, r);
      DivisionUnique(Reduced(s), q[1..], r);
    }
  }

  // The message followed by sixteen zeros, with the register added in front
  function Dividend(message: Bits, crc: Word): (s: Bits)
    ensures |s| == |message| + 16
  {
    XorBits(message + Zeros(16), crc + Zeros(|message|))
  }

  lemma DividendNext(message: Bits, crc: Word)
    requires message != []
    ensures Reduced(Dividend(message, crc)) == Dividend(message[1..], Step(message[0], crc))
  {
  }

  /** The CRC of a message is the remainder of message * x^16 + crc * x^|message|. */
  lemma {:induction false} FoldIsRemainder(message: Bits, crc: Word)
    ensures Fold(message, crc) == Remainder(Dividend(message, crc))
  {
    if message == [] {
      assert Dividend(message, crc) == crc;
    } else {
      DividendNext(message, crc);
      FoldIsRemainder(message[1..], Step(message[0], crc));
    }
  }

  /** So a register is the CRC exactly if it is what a division by the generator leaves. */
  lemma CrcIsRemainder(message: Bits, crc: Word, r: Word)
    ensures Fold(message, crc) == r <==> exists q :: Divides(Dividend(message, crc), q, r)
  {
    var s := Dividend(message, crc);
    FoldIsRemainder(message, crc);
    DivisionWorks(s);
    forall q | Divides(s, q, r)
      ensures Fold(message, crc) == r
    {
      DivisionUnique(s, q, r);
    }
  }

  lemma {:induction false} BitsSplit(n: nat, low: nat, high: nat)
    ensures ToBits(n, low + high) == ToBits(n, low) + ToBits(Numbers.High(n, low), high)
  {
    if low > 0 {
      BitsSplit(n / 2, low - 1, high);
      assert ToBits(n, low) == [n % 2 == 1] + ToBits(n / 2, low - 1);
      Regroup([n % 2 == 1], ToBits(n / 2, low - 1), ToBits(Numbers.High(n, low), high));
    } else {
      assert ToBits(n, 0) + ToBits(n, high) == ToBits(n, high);
    }
  }

  lemma HighHalf(n: nat)
    ensures Numbers.High(n, 16) == n / 0x1_0000
  {
    Numbers.FourBits(n, 12);
    Numbers.FourBits(n / 0x10, 8);
    Numbers.ByteParts(n / 0x10 / 0x10);
    var q, r := n / 0x1_0000, n % 0x1_0000;
    assert n / 0x10 / 0x10 / 0x100 == n / 0x1_0000;
  }

  /** crcu32 folds the 32 bits of its value in order, low one first. */
  lemma Crc32IsFold(value: nat, crc: nat)
    ensures ToBits(Crc32(value, crc), 16) == Fold(ToBits(value, 32), ToBits(crc, 16))
  {
    var low, high := ToBits(value, 16), ToBits(value / 0x1_0000, 16);
    BitsSplit(value, 16, 16);
    HighHalf(value);
    FoldConcat(low, high, ToBits(crc, 16));
    BitsRoundTrip(Fold(low, ToBits(crc, 16)));
    BitsRoundTrip(Fold(high, Fold(low, ToBits(crc, 16))));
  }

  // ---- Linearity

  lemma StepLinear(p: bool, q: bool, c: Word, d: Word)
    ensures Step(p != q, XorBits(c, d)) == XorBits(Step(p, c), Step(q, d))
  {
  }

  /** XOR-ing two messages of one length XORs their CRCs. */
  lemma {:induction false} FoldLinear(a: Bits, b: Bits, c: Word, d: Word)
    requires |a| == |b|
    ensures Fold(XorBits(a, b), XorBits(c, d)) == XorBits(Fold(a, c), Fold(b, d))
  {
    if a != [] {
      StepLinear(a[0], b[0], c, d);
      assert XorBits(a, b)[1..] == XorBits(a[1..], b[1..]);
      FoldLinear(a[1..], b[1..], Step(a[0], c), Step(b[0], d));
    }
  }

  // bits as a number, and the operator on both
  lemma ToNatXor(x: Bits, y: Bits)
    requires |x| == |y|
    ensures ToNat(XorBits(x, y)) == Numbers.Xor(ToNat(x), ToNat(y), |x|)
  {
    var r := Numbers.Xor(ToNat(x), ToNat(y), |x|);
    BitsRoundTrip(x);
    BitsRoundTrip(y);
    XorIsXor(ToNat(x), ToNat(y), |x|);
    NatRoundTrip(r, |x|);
    SmallRemainder(r, Numbers.Pow2(|x|));
  }

  lemma SmallRemainder(n: nat, p: nat)
    requires n < p
    ensures n % p == n
  {
  }

  /** The same on numbers, as the callers use it: crc16 is linear in value and register together. */
  lemma Crc16Linear(a: nat, b: nat, c: nat, d: nat)
    ensures Crc16(Numbers.Xor(a, b, 16), Numbers.Xor(c, d, 16)) == Numbers.Xor(Crc16(a, c), Crc16(b, d), 16)
  {
    var x, y := Fold(ToBits(a, 16), ToBits(c, 16)), Fold(ToBits(b, 16), ToBits(d, 16));
    XorIsXor(a, b, 16);
    XorIsXor(c, d, 16);
    FoldLinear(ToBits(a, 16), ToBits(b, 16), ToBits(c, 16), ToBits(d, 16));
    ToNatXor(x, y);
  }

  /** crc16 reads the low 16 bits of its arguments, as their casts do. */
  lemma Crc16Casts(value: nat, crc: nat)
    ensures Crc16(value, crc) == Crc16(value % Numbers.Pow2(16), crc % Numbers.Pow2(16))
  {
    CastBits(value, 16);
    CastBits(crc, 16);
  }

  lemma CastBits(n: nat, width: nat)
    ensures ToBits(n % Numbers.Pow2(width), width) == ToBits(n, width)
  {
    NatRoundTrip(n, width);
    BitsRoundTrip(ToBits(n, width));
  }

  // ---- Injectivity

  // The top bit of the new register is the feedback, so a step can be undone.
  lemma StepInjective(bit: bool, c: Word, d: Word)
    requires Step(bit, c) == Step(bit, d)
    ensures c == d
  {
    var x, y := Step(bit, c), Step(bit, d);
    assert x[15] == (bit != c[0]) && y[15] == (bit != d[0]);
    forall i | 1 <= i < 16
      ensures c[i] == d[i]
    {
      assert ShiftRight(c)[i - 1] == c[i] && ShiftRight(d)[i - 1] == d[i];
      assert x[i - 1] == y[i - 1];
    }
  }

  /** For one message, distinct starting registers end distinct: no suffix can hide an earlier difference. */
  lemma {:induction false} FoldInjective(bits: Bits, c: Word, d: Word)
    requires Fold(bits, c) == Fold(bits, d)
    ensures c == d
  {
    if bits != [] {
      FoldInjective(bits[1..], Step(bits[0], c), Step(bits[0], d));
      StepInjective(bits[0], c, d);
    }
  }

  // ---- Error detection

  // Started on the message itself, padded with zeros, the register never feeds back and ends empty.
  lemma {:induction false} SelfVanishes(bits: Bits, crc: Word)
    requires |bits| <= 16 && crc == bits + Zeros(16 - |bits|)
    ensures Fold(bits, crc) == Zeros(16)
  {
    if bits != [] {
      assert Step(bits[0], crc) == bits[1..] + Zeros(16 - (|bits| - 1));
      SelfVanishes(bits[1..], Step(bits[0], crc));
    }
  }

  /** A non-zero burst of at most 16 bits never leaves the zero register at zero. */
  lemma ShortBurst(burst: Bits, k: nat)
    requires k < |burst| <= 16 && burst[k]
    ensures Fold(burst, Zeros(16)) != Zeros(16)
  {
    var self: Word := burst + Zeros(16 - |burst|);
    SelfVanishes(burst, self);
    assert self[k] && self != Zeros(16);
    if Fold(burst, Zeros(16)) == Zeros(16) {
      FoldInjective(burst, Zeros(16), self);
    }
  }

  lemma WindowDetected(a: Bits, b: Bits, crc: Word)
    requires |a| == |b| <= 16 && a != b
    ensures Fold(a, crc) != Fold(b, crc)
  {
    var k :| 0 <= k < |a| && a[k] != b[k];
    ShortBurst(XorBits(a, b), k);
    FoldLinear(a, b, crc, crc);
    assert XorBits(crc, crc) == Zeros(16);
    if Fold(a, crc) == Fold(b, crc) {
      XorSelf(Fold(a, crc));
    }
  }

  lemma XorSelf(w: Word)
    ensures XorBits(w, w) == Zeros(16)
  {
  }

  /** Two messages that differ, and only inside one window of at most 16 bits, have different CRCs. */
  lemma BurstDetected(pre: Bits, a: Bits, b: Bits, post: Bits, crc: Word)
    requires |a| == |b| <= 16 && a != b
    ensures Fold(pre + a + post, crc) != Fold(pre + b + post, crc)
  {
    FoldSandwich(pre, a, post, crc);
    FoldSandwich(pre, b, post, crc);
    var c := Fold(pre, crc);
    WindowDetected(a, b, c);
    if Fold(post, Fold(a, c)) == Fold(post, Fold(b, c)) {
      FoldInjective(post, Fold(a, c), Fold(b, c));
    }
  }

  lemma FoldSandwich(pre: Bits, a: Bits, post: Bits, crc: Word)
    ensures Fold(pre + a + post, crc) == Fold(post, Fold(a, Fold(pre, crc)))
  {
    FoldConcat(pre + a, post, crc);
    FoldConcat(pre, a, crc);
  }

  /** Equal-length streams of 16-bit values that differ in exactly one value have different CRCs. */
  lemma WordErrorDetected(pre: seq<Word>, v: Word, w: Word, post: seq<Word>, crc: Word)
    requires v != w
    ensures CrcWords(pre + [v] + post, crc) != CrcWords(pre + [w] + post, crc)
  {
    forall x: Word
      ensures CrcWords(pre + [x] + post, crc) == Fold(Concat(pre) + x + Concat(post), crc)
    {
      WordsAreBits(pre + [x] + post, crc);
      ConcatAppend(pre + [x], post);
      ConcatAppend(pre, [x]);
      ConcatOne(x);
    }
    BurstDetected(Concat(pre), v, w, Concat(post), crc);
  }

  // ---- Parity

  function Parity(bits: Bits): bool {
    if bits == [] then false else bits[0] != Parity(bits[1..])
  }

  lemma {:induction false} ParityXor(a: Bits, b: Bits)
    requires |a| == |b|
    ensures Parity(XorBits(a, b)) == (Parity(a) != Parity(b))
  {
    if a != [] {
      assert XorBits(a, b)[1..] == XorBits(a[1..], b[1..]);
      ParityXor(a[1..], b[1..]);
    }
  }

  lemma {:induction false} ParityAppendZero(a: Bits)
    ensures Parity(a + [false]) == Parity(a)
  {
    if a != [] {
      assert (a + [false])[1..] == a[1..] + [false];
      ParityAppendZero(a[1..]);
    }
  }

  lemma {:induction false} ParityZeros(n: nat)
    ensures !Parity(Zeros(n))
  {
    if n > 0 {
      assert Zeros(n)[1..] == Zeros(n - 1);
      ParityZeros(n - 1);
    }
  }

  // The generator has three terms below x^16, an odd number.
  lemma ParityPoly()
    ensures Parity(Poly())
  {
    var low, high := [true] + Zeros(12), [true, false, true];
    assert Poly() == low + high;
    ParityConcat(low, high);
    ParityConcat([true], Zeros(12));
    ParityZeros(12);
    assert !Parity(high) by { assert high[1..] == [false, true]; }
  }

  lemma {:induction false} ParityConcat(a: Bits, b: Bits)
    ensures Parity(a + b) == (Parity(a) != Parity(b))
  {
    if a == [] {
      assert a + b == b;
    } else {
      assert (a + b)[1..] == a[1..] + b;
      ParityConcat(a[1..], b);
    }
  }

  lemma StepParity(bit: bool, crc: Word)
    ensures Parity(Step(bit, crc)) == (Parity(crc) != bit)
  {
    ParityXor(ShiftRight(crc), Mask(bit != crc[0]));
    ParityAppendZero(crc[1..]);
    ParityZeros(16);
    ParityPoly();
  }

  /** x + 1 divides the generator, so the register carries the parity of everything it has consumed. */
  lemma {:induction false} FoldParity(bits: Bits, crc: Word)
    ensures Parity(Fold(bits, crc)) == (Parity(crc) != Parity(bits))
  {
    if bits != [] {
      StepParity(bits[0], crc);
      FoldParity(bits[1..], Step(bits[0], crc));
    }
  }

  /** Every error with an odd number of flipped bits changes the CRC, however far apart the bits are. */
  lemma OddErrorDetected(message: Bits, error: Bits, crc: Word)
    requires |message| == |error| && Parity(error)
    ensures Fold(XorBits(message, error), crc) != Fold(message, crc)
  {
    ParityXor(message, error);
    FoldParity(message, crc);
    FoldParity(XorBits(message, error), crc);
  }
}
