// The texts of the hex images beyond what the writer makes of them (fpga/scripts/build_benchmark_image.py,
// fpga/scripts/generate_coe.py).

module HexText {
  import opened Words
  import opened Sequences
  import opened Loops
  import opened HexImage

  // ---- What the texts look like, and what else is read

  predicate UpperDigit(c: char) { '0' <= c <= '9' || 'A' <= c <= 'F' }

  /** Digits are upper-case, and leading zeros there are only up to the least width. */
  lemma {:induction false} HexShape(n: nat, width: nat)
    ensures var s := Hex(n, width);
            && (forall i :: 0 <= i < |s| ==> UpperDigit(s[i]))
            && (|s| > width && |s| > 1 ==> s[0] != '0')
    decreases n, width
  {
    assert forall d :: 0 <= d < 16 ==> UpperDigit(DIGITS[d]) && (DIGITS[d] == '0' <==> d == 0);
    if !(n < 16 && width <= 1) {
      HexShape(n / 16, if width == 0 then 0 else width - 1);
    }
  }

  lemma {:induction false} StripsLeft(space: string, s: string)
    requires (forall i :: 0 <= i < |space| ==> Space(space[i])) && s != [] && !Space(s[0])
    ensures StripLeft(space + s) == s
  {
    if space == [] {
      assert space + s == s;
    } else {
      assert (space + s)[1..] == space[1..] + s;
      StripsLeft(space[1..], s);
    }
  }

  lemma {:induction false} StripsRight(s: string, space: string)
    requires (forall i :: 0 <= i < |space| ==> Space(space[i])) && s != [] && !Space(s[|s| - 1])
    ensures StripRight(s + space) == s
  {
    if space == [] {
      assert s + space == s;
    } else {
      assert (s + space)[..|s + space| - 1] == s + space[..|space| - 1];
      StripsRight(s, space[..|space| - 1]);
    }
  }

  lemma Stripped(before: string, s: string, after: string)
    requires (forall i :: 0 <= i < |before| ==> Space(before[i])) && forall i :: 0 <= i < |after| ==> Space(after[i])
    requires s != [] && !Space(s[0]) && !Space(s[|s| - 1])
    ensures Strip(before + s + after) == s
  {
    assert before + s + after == before + (s + after);
    StripsLeft(before, s + after);
    StripsRight(s, after);
  }

  predicate SignText(s: string, minus: bool) { |s| <= 1 && if minus then s == ['-'] else s == [] || s == ['+'] }

  // 0x, with an underscore behind it or without
  predicate PrefixText(s: string) {
    s == [] || (2 <= |s| <= 3 && s[0] == '0' && (s[1] == 'x' || s[1] == 'X') && (|s| == 3 ==> s[2] == '_'))
  }

  lemma SignedIs(sign: string, minus: bool, rest: string)
    requires SignText(sign, minus) && rest != [] && rest[0] != '-' && rest[0] != '+'
    ensures Signed(sign + rest) == (if minus then -1 else 1, rest)
  {
    if sign == [] {
      assert sign + rest == rest;
    } else {
      assert (sign + rest)[0] == sign[0] && (sign + rest)[1..] == rest;
    }
  }

  lemma PrefixedIs(prefix: string, digits: string)
    requires Plain(digits) && PrefixText(prefix)
    ensures Unprefixed(prefix + digits) == digits && prefix + digits != []
    ensures (prefix + digits)[0] != '-' && (prefix + digits)[0] != '+' && !Space((prefix + digits)[0])
  {
    var s := prefix + digits;
    assert DigitValue(digits[0]) >= 0;
    if prefix == [] {
      PlainUnsigned(digits);
      assert s == digits;
    } else {
      assert s[0] == '0' && s[1] == prefix[1] && s[|prefix|..] == digits && (|prefix| == 3 ==> s[2] == '_');
      assert |prefix| == 2 ==> s[2] == digits[0];
    }
  }

  lemma ToIntIs(s: string, text: string, sign: int, rest: string, n: nat)
    requires Strip(s) == text && Signed(text) == (sign, rest) && FromHex(Unprefixed(rest)) == n
    ensures ToInt(s) == Num(sign * n)
  {
  }

  lemma LastDigit(head: string, digits: string)
    requires Plain(digits)
    ensures head + digits != [] && !Space((head + digits)[|head + digits| - 1])
  {
    assert (head + digits)[|head + digits| - 1] == digits[|digits| - 1] && DigitValue(digits[|digits| - 1]) >= 0;
  }

  lemma FirstIsText(sign: string, minus: bool, rest: string)
    requires SignText(sign, minus) && rest != [] && !Space(rest[0])
    ensures !Space((sign + rest)[0])
  {
    if sign == [] {
      assert sign + rest == rest;
    } else {
      assert (sign + rest)[0] == sign[0];
    }
  }

  /** White space around a number does not matter, a minus negates it, and a prefix may stand before its digits. */
  lemma FormsRead(digits: string, sign: string, minus: bool, prefix: string, before: string, after: string)
    requires Plain(digits) && SignText(sign, minus) && PrefixText(prefix)
    requires (forall i :: 0 <= i < |before| ==> Space(before[i])) && forall i :: 0 <= i < |after| ==> Space(after[i])
    ensures FromHex(digits) >= 0
    ensures ToInt(before + (sign + (prefix + digits)) + after)
         == Num((if minus then -1 else 1) * FromHex(digits))
  {
    var s := sign + (prefix + digits);
    PlainValue(digits);
    SignedText(digits, sign, minus, prefix, s);
    Stripped(before, s, after);
    ToIntIs(before + s + after, s, if minus then -1 else 1, prefix + digits, FromHex(digits));
  }

  // the text of a number has no white space at its ends
  lemma SignedText(digits: string, sign: string, minus: bool, prefix: string, s: string)
    requires Plain(digits) && SignText(sign, minus) && PrefixText(prefix) && s == sign + (prefix + digits)
    ensures s != [] && !Space(s[0]) && !Space(s[|s| - 1])
    ensures Signed(s) == (if minus then -1 else 1, prefix + digits) && Unprefixed(prefix + digits) == digits
  {
    var rest := prefix + digits;
    PrefixedIs(prefix, digits);
    SignedIs(sign, minus, rest);
    FirstIsText(sign, minus, rest);
    LastDigit(sign + prefix, digits);
    Regroup(sign, prefix, digits);
  }

  lemma UnderscoreDigit(a: string, c: char)
    requires Plain(a) && DigitValue(c) >= 0
    ensures FromHex(a + ['_'] + [c]) == FromHex(a + [c])
  {
    var init := a + ['_'];
    var t := init + [c];
    assert t[..|t| - 1] == init && init[..|init| - 1] == a;
    FromHexSnoc(a, c);
    PlainValue(a);
  }

  /** An underscore between two digits does not matter. */
  lemma {:induction false} UnderscoreReads(a: string, b: string)
    requires Plain(a) && Plain(b)
    ensures FromHex(a + ['_'] + b) == FromHex(a + b)
  {
    var init, c := b[..|b| - 1], b[|b| - 1];
    assert b == init + [c] && DigitValue(c) >= 0;
    if init == [] {
      assert b == [c];
      UnderscoreDigit(a, c);
    } else {
      assert DigitValue(b[|b| - 2]) >= 0;
      UnderscoreReads(a, init);
      Regroup(a + ['_'], init, [c]);
      Regroup(a, init, [c]);
      FromHexMore(a + ['_'] + init, c);
      FromHexMore(a + init, c);
    }
  }

  // ---- Tokens of several bytes

  // The bytes as a number, first one highest
  function BigEndian(bytes: seq<int>): int {
    if bytes == [] then 0 else 0x100 * BigEndian(bytes[..|bytes| - 1]) + bytes[|bytes| - 1]
  }

  function PutAll(p: Parsed, bytes: seq<int>): Parsed {
    if bytes == [] then p else Put(PutAll(p, bytes[..|bytes| - 1]), Num(bytes[|bytes| - 1]))
  }

  lemma PairValue(token: string, n: nat)
    requires Plain(token) && 2 * n + 2 <= |token|
    ensures var a, b := DigitValue(token[2 * n]), DigitValue(token[2 * n + 1]);
            a >= 0 && b >= 0 && FromHex(PairAt(token, n)) == 16 * a + b && ToInt(PairAt(token, n)) == Num(16 * a + b)
  {
    var pair := PairAt(token, n);
    assert pair[0] == token[2 * n] && pair[1] == token[2 * n + 1] && DigitValue(pair[0]) >= 0;
    assert pair[..1][..0] == [];
    assert FromHex(pair[..1]) == DigitValue(pair[0]);
    PlainToInt(pair);
  }

  // two digits more
  lemma TwoDigits(s: string, n: nat)
    requires Plain(s) && 2 * n + 2 <= |s|
    ensures var before := if n == 0 then 0 else FromHex(s[..2 * n]);
            FromHex(s[..2 * (n + 1)]) == 0x100 * before + FromHex(PairAt(s, n))
  {
    var none, one, c, d := s[..2 * n], s[..2 * n + 1], s[2 * n], s[2 * n + 1];
    PairValue(s, n);
    assert one == none + [c] && s[..2 * (n + 1)] == one + [d];
    if n == 0 {
      assert none == [] && one == [c] && [c][..0] == [];
    } else {
      FromHexSnoc(none, c);
    }
    FromHexSnoc(one, d);
  }

  // the bytes of the first n pairs
  ghost predicate ReadAs(p: Parsed, token: string, n: nat, bytes: seq<int>)
    requires 2 * n <= |token|
  {
    && |bytes| == n && (forall i :: 0 <= i < n ==> 0 <= bytes[i] < 0x100)
    && BigEndian(bytes) == (if n == 0 then 0 else FromHex(token[..2 * n])) && Pairs(p, token, n) == PutAll(p, bytes)
  }

  lemma BigEndianNext(bytes: seq<int>, more: int)
    ensures BigEndian(bytes + [more]) == 0x100 * BigEndian(bytes) + more
  {
    assert (bytes + [more])[..|bytes|] == bytes;
  }

  lemma PutNext(p: Parsed, bytes: seq<int>, more: int)
    ensures PutAll(p, bytes + [more]) == Put(PutAll(p, bytes), Num(more))
  {
    assert (bytes + [more])[..|bytes|] == bytes;
  }

  lemma ReadNext(p: Parsed, token: string, n: nat, bytes: seq<int>, more: int)
    requires Plain(token) && 2 * n + 2 <= |token| && ReadAs(p, token, n, bytes) && more == FromHex(PairAt(token, n))
    ensures ReadAs(p, token, n + 1, bytes + [more])
  {
    PairValue(token, n);
    TwoDigits(token, n);
    PairsNext(p, token, n, Pairs(p, token, n));
    BigEndianNext(bytes, more);
    PutNext(p, bytes, more);
  }

  lemma PairsRead(p: Parsed, token: string, n: nat) returns (bytes: seq<int>)
    requires Plain(token) && 2 * n <= |token|
    ensures ReadAs(p, token, n, bytes)
  {
    bytes := [];
    for i := 0 to n
      invariant ReadAs(p, token, i, bytes)
    {
      var more := FromHex(PairAt(token, i));
      ReadNext(p, token, i, bytes, more);
      bytes := bytes + [more];
    }
  }

  lemma {:induction false} LeadingZero(s: string)
    requires Plain(s)
    ensures Plain("0" + s) && FromHex("0" + s) == FromHex(s)
  {
    var t, init := "0" + s, s[..|s| - 1];
    assert forall i :: 1 <= i < |t| ==> t[i] == s[i - 1];
    PlainValue(s);
    assert t[..|t| - 1] == "0" + init;
    if init == [] {
      assert "0" + init == "0" && "0"[..0] == [];
    } else {
      assert init[|init| - 1] == s[|s| - 2];
      LeadingZero(init);
    }
  }

  /** A token of digits is the number that it stands for, in big-endian bytes, one for every two digits: an odd number
      of them is taken with a leading zero. */
  lemma TokenReads(p: Parsed, token: string) returns (bytes: seq<int>)
    requires Plain(token)
    ensures |bytes| == (|token| + 1) / 2 && (forall i :: 0 <= i < |bytes| ==> 0 <= bytes[i] < 0x100)
    ensures BigEndian(bytes) == FromHex(token) && VerilogToken(p, token) == PutAll(p, bytes)
  {
    var even, n := Evened(token), (|token| + 1) / 2;
    LeadingZero(token);
    EvenLength(token);
    bytes := PairsRead(p, even, n);
    assert even[..2 * n] == even;
  }

  lemma EvenLength(token: string)
    ensures |Evened(token)| == 2 * ((|token| + 1) / 2) && |Evened(token)| / 2 == (|token| + 1) / 2
  {
  }

  // How many of the first k addresses do not follow the one before them
  function Gaps(addrs: seq<nat>, k: nat): nat
    requires k <= |addrs|
  {
    if k == 0 then 0 else Gaps(addrs, k - 1) + if k == 1 || addrs[k - 1] != addrs[k - 2] + 1 then 1 else 0
  }

  /** A line per byte and one per gap. */
  lemma LinesCounted(addrs: seq<nat>, image: map<nat, U8>, k: nat, hex: Format)
    requires k <= |addrs| && forall i :: 0 <= i < |addrs| ==> addrs[i] in image
    ensures |Printed(addrs, image, k, hex)| == k + Gaps(addrs, k)
  {
    var next := PrintNext(addrs, image, hex);
    var lines := Printed(addrs, image, 0, hex);
    for i := 0 to k
      invariant lines == Iterate(next, [], i) && |lines| == i + Gaps(addrs, i)
    {
      var more := AddrLine(addrs, i, hex) + [hex(image[addrs[i]], 2)];
      assert next(lines, i) == lines + more;
      lines := next(lines, i);
    }
  }
}
