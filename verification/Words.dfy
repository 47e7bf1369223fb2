// Unsigned machine words, and bitwise operators on them, bit by bit.

module Words {

  type U8 = x: int | 0 <= x < 0x100
  type U16 = x: int | 0 <= x < 0x1_0000
  type U32 = x: int | 0 <= x < 0x1_0000_0000

  function Pow2(n: nat): (p: nat)
    ensures p > 0
  {
    if n == 0 then 1 else 2 * Pow2(n - 1)
  }

  // the low k bits of a ^ b and of a | b
  function Xor(a: nat, b: nat, k: nat): (r: nat)
    ensures r < Pow2(k)
  {
    if k == 0 then 0 else (a % 2 + b % 2) % 2 + 2 * Xor(a / 2, b / 2, k - 1)
  }

  function Or(a: nat, b: nat, k: nat): (r: nat)
    ensures r < Pow2(k)
  {
    if k == 0 then 0 else (if a % 2 == 0 && b % 2 == 0 then 0 else 1) + 2 * Or(a / 2, b / 2, k - 1)
  }

  // a shifted right by k bits, and its low k bits
  function High(a: nat, k: nat): nat { if k == 0 then a else High(a / 2, k - 1) }

  function Low(a: nat, k: nat): nat { if k == 0 then 0 else a % 2 + 2 * Low(a / 2, k - 1) }

  lemma TwoBits(a: nat, k: nat)
    ensures High(a, k + 2) == High(a / 4, k) && Low(a, k + 2) == a % 4 + 4 * Low(a / 4, k)
  {
    assert High(a, k + 2) == High(a / 2, k + 1) && Low(a, k + 2) == a % 2 + 2 * Low(a / 2, k + 1);
    assert High(a / 2, k + 1) == High(a / 2 / 2, k) && Low(a / 2, k + 1) == a / 2 % 2 + 2 * Low(a / 2 / 2, k);
    assert a / 2 / 2 == a / 4;
  }

  lemma FourBits(a: nat, k: nat)
    ensures High(a, k + 4) == High(a / 0x10, k) && Low(a, k + 4) == a % 0x10 + 0x10 * Low(a / 0x10, k)
  {
    TwoBits(a, k + 2);
    TwoBits(a / 4, k);
    assert a / 4 / 4 == a / 0x10;
  }

  lemma ByteParts(a: nat)
    ensures High(a, 8) == a / 0x100 && Low(a, 8) == a % 0x100
  {
    FourBits(a, 4);
    FourBits(a / 0x10, 0);
    assert a / 0x10 / 0x10 == a / 0x100;
  }

  lemma {:induction false} XorParts(a: nat, b: nat, k: nat, m: nat)
    ensures High(Xor(a, b, k + m), k) == Xor(High(a, k), High(b, k), m)
    ensures Low(Xor(a, b, k + m), k) == Xor(a, b, k)
  {
    if k > 0 {
      XorParts(a / 2, b / 2, k - 1, m);
      assert Xor(a, b, k + m) / 2 == Xor(a / 2, b / 2, k - 1 + m);
    }
  }

  lemma {:induction false} OrParts(a: nat, b: nat, k: nat, m: nat)
    ensures High(Or(a, b, k + m), k) == Or(High(a, k), High(b, k), m)
    ensures Low(Or(a, b, k + m), k) == Or(a, b, k)
  {
    if k > 0 {
      OrParts(a / 2, b / 2, k - 1, m);
      assert Or(a, b, k + m) / 2 == Or(a / 2, b / 2, k - 1 + m);
    }
  }

  lemma {:induction false} OrNone(a: nat, b: nat, k: nat)
    requires Low(a, k) == 0
    ensures Or(a, b, k) == Low(b, k)
  {
    if k > 0 {
      OrNone(a / 2, b / 2, k - 1);
    }
  }

  lemma {:induction false} XorNone(b: nat, k: nat)
    ensures Xor(0, b, k) == Low(b, k)
  {
    if k > 0 {
      XorNone(b / 2, k - 1);
    }
  }

  lemma BitCancels(x: nat, y: nat, z: nat, p: nat, q: nat)
    requires x < 2 && y < 2 && z < 2 && (x + z) % 2 + 2 * p == (y + z) % 2 + 2 * q
    ensures x == y && p == q
  {
  }

  /** x ^ s determines x. */
  lemma {:induction false} XorInjective(a: nat, b: nat, s: nat, k: nat)
    requires Xor(a, s, k) == Xor(b, s, k)
    ensures Low(a, k) == Low(b, k)
  {
    if k > 0 {
      BitCancels(a % 2, b % 2, s % 2, Xor(a / 2, s / 2, k - 1), Xor(b / 2, s / 2, k - 1));
      XorInjective(a / 2, b / 2, s / 2, k - 1);
    }
  }

  // An `or` is 0 only of zeros.
  lemma {:induction false} OrZero(a: nat, b: nat, k: nat)
    ensures Or(a, b, k) == 0 <==> Low(a, k) == 0 && Low(b, k) == 0
  {
    if k > 0 {
      OrZero(a / 2, b / 2, k - 1);
    }
  }

  lemma {:induction false} XorNothing(a: nat, k: nat)
    ensures Xor(a, 0, k) == Low(a, k)
  {
    if k > 0 {
      XorNothing(a / 2, k - 1);
    }
  }

  lemma {:induction false} XorSelf(a: nat, k: nat)
    ensures Xor(a, a, k) == 0
  {
    if k > 0 {
      XorSelf(a / 2, k - 1);
    }
  }

  lemma {:induction false} XorCommutes(a: nat, b: nat, k: nat)
    ensures Xor(a, b, k) == Xor(b, a, k)
  {
    if k > 0 {
      XorCommutes(a / 2, b / 2, k - 1);
    }
  }

  lemma SmallByte(x: nat)
    requires x < 0x100
    ensures x % 0x100 == x
  {
  }

  lemma LowByte(a: nat)
    requires a < 0x100
    ensures Low(a, 8) == a
  {
    ByteParts(a);
    SmallByte(a);
  }

  function XorByte(a: U8, b: U8): U8 {
    assert Pow2(8) == 0x100 by { assert Pow2(4) == 16; }
    Xor(a, b, 8)
  }

  lemma XorByteInjective(a: U8, b: U8, s: U8)
    requires XorByte(a, s) == XorByte(b, s) || XorByte(s, a) == XorByte(s, b)
    ensures a == b
  {
    XorCommutes(a, s, 8);
    XorCommutes(b, s, 8);
    XorInjective(a, b, s, 8);
    LowByte(a);
    LowByte(b);
  }

  /** Xor with the same byte twice changes nothing; with two different ones it always does. */
  lemma XorTwice(b: U8, s: U8, u: U8)
    ensures XorByte(XorByte(b, s), u) == b <==> s == u
  {
    XorSame(b, s, 8);
    LowByte(b);
    if XorByte(XorByte(b, s), u) == b {
      XorByteInjective(s, u, XorByte(b, s));
    }
  }

  lemma {:induction false} XorSame(a: nat, s: nat, k: nat)
    ensures Xor(Xor(a, s, k), s, k) == Low(a, k)
  {
    if k > 0 {
      XorSame(a / 2, s / 2, k - 1);
      XorHead(a, s, k);
      XorHead(Xor(a, s, k), s, k);
      BitTwice(a % 2, s % 2);
    }
  }

  // the lowest bit of an `xor`, and the others
  lemma XorHead(a: nat, s: nat, k: nat)
    requires k > 0
    ensures Xor(a, s, k) % 2 == (a % 2 + s % 2) % 2 && Xor(a, s, k) / 2 == Xor(a / 2, s / 2, k - 1)
    ensures Xor(a, s, k) == (a % 2 + s % 2) % 2 + 2 * Xor(a / 2, s / 2, k - 1)
  {
  }

  lemma BitTwice(x: nat, y: nat)
    requires x < 2 && y < 2
    ensures ((x + y) % 2 + y) % 2 == x
  {
  }

  // ---- Division

  lemma AwayFromZero(n: int, d: int)
    requires n >= 0 && d != 0
    ensures n * d >= n || n * d <= -n
  {
    if d > 0 {
      assert n * (d - 1) >= 0;
    } else {
      assert n * (-d - 1) >= 0;
    }
  }

  /** Quotient and remainder are unique. */
  lemma QuotientUnique(n: nat, q: nat, r: nat)
    requires r < n
    ensures (n * q + r) % n == r && (n * q + r) / n == q
  {
    var a: int := n * q + r;
    var d: int := a / n - q;
    assert a == n * (a / n) + a % n;
    assert n * d + a % n == r;
    if d != 0 {
      AwayFromZero(n, d);
    }
  }

  // ---- Little-endian words

  function Le32(v: U32): (bytes: seq<U8>)
    ensures |bytes| == 4
  {
    [v % 0x100, v / 0x100 % 0x100, v / 0x1_0000 % 0x100, v / 0x100_0000]
  }

  function FromLe32(bytes: seq<U8>): U32
    requires |bytes| == 4
  {
    var a: int, b: int, c: int, d: int := bytes[0], bytes[1], bytes[2], bytes[3];
    a + 0x100 * b + 0x1_0000 * c + 0x100_0000 * d
  }

  lemma Le32RoundTrip(v: U32)
    ensures FromLe32(Le32(v)) == v
  {
    assert v / 0x1_0000 == v / 0x100 / 0x100 && v / 0x100_0000 == v / 0x1_0000 / 0x100;
  }
}
