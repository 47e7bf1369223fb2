// The integer printers and the parser around the benchmarks (benchmarks/coremark/core_portme.c, core_util.c,
// benchmarks/common_ax7203/ax7203_board_runtime.c).

module Numerals {
  import opened Words
  import opened ListOps

  // ---- Numbers as digits

  // the bases in use
  predicate Base(base: nat) { base == 10 || base == 16 }

  // '0' to '9' and 'a' on
  function DigitChar(d: nat): char
    requires d < 16
  {
    if d < 10 then '0' + d as char else 'a' + (d - 10) as char
  }

  function DigitOf(c: char): (d: int)
    ensures d == -1 || 0 <= d < 36
  {
    if '0' <= c <= '9' then c as int - '0' as int else if 'a' <= c <= 'z' then 10 + c as int - 'a' as int else -1
  }

  lemma DigitRoundTrip(d: nat)
    requires d < 16
    ensures DigitOf(DigitChar(d)) == d && (DigitChar(d) == '0' <==> d == 0)
  {
  }

  /** The digits of a number, no leading zero but for 0 itself. */
  function Numeral(val: nat, base: nat): (s: string)
    requires Base(base)
    ensures s != []
  {
    if val < base then [DigitChar(val)] else Numeral(val / base, base) + [DigitChar(val % base)]
  }

  predicate Digits(s: string, base: nat) { forall i :: 0 <= i < |s| ==> 0 <= DigitOf(s[i]) < base }

  // what a string of digits stands for
  function ValueOf(s: string, base: nat): nat
    requires Digits(s, base)
  {
    if s == [] then 0 else ValueOf(s[..|s| - 1], base) * base + DigitOf(s[|s| - 1])
  }

  lemma {:induction false} NumeralValue(val: nat, base: nat)
    requires Base(base)
    ensures Digits(Numeral(val, base), base) && ValueOf(Numeral(val, base), base) == val
    ensures Numeral(val, base)[0] == '0' <==> val == 0
  {
    var s := Numeral(val, base);
    DigitRoundTrip(val % base);
    if val < base {
      DigitRoundTrip(val);
      assert s[..|s| - 1] == [];
    } else {
      NumeralValue(val / base, base);
      assert s[..|s| - 1] == Numeral(val / base, base);
      assert val == val / base * base + val % base;
      assert val / base > 0;
    }
  }

  // leading zeros do not count
  lemma {:induction false} PaddedValue(n: nat, s: string, base: nat)
    requires Base(base) && Digits(s, base)
    ensures Digits(Zeros(n) + s, base) && ValueOf(Zeros(n) + s, base) == ValueOf(s, base)
  {
    var t := Zeros(n) + s;
    assert DigitOf('0') == 0;
    if s != [] {
      PaddedValue(n, s[..|s| - 1], base);
      assert t[..|t| - 1] == Zeros(n) + s[..|s| - 1];
    } else if n > 0 {
      PaddedValue(n - 1, [], base);
      assert t[..|t| - 1] == Zeros(n - 1) + [];
    }
  }

  function Zeros(n: nat): string { seq(n, i => '0') }

  // ---- utoa

  lemma ReversedSnoc(s: string, c: char)
    ensures Reversed(s + [c]) == [c] + Reversed(s)
  {
  }

  // the digits still to come and those written backwards so far
  ghost predicate Written(val0: nat, base: nat, val: nat, tmp: string)
    requires Base(base)
  {
    if val == 0 then Reversed(tmp) == Numeral(val0, base) else Numeral(val, base) + Reversed(tmp) == Numeral(val0, base)
  }

  lemma WrittenNext(val0: nat, base: nat, val: nat, tmp: string)
    requires Base(base) && val > 0 && Written(val0, base, val, tmp)
    ensures Written(val0, base, val / base, tmp + [DigitChar(val % base)])
  {
    var c := DigitChar(val % base);
    ReversedSnoc(tmp, c);
    if val >= base {
      assert val / base > 0;
      assert Numeral(val / base, base) + [c] + Reversed(tmp) == Numeral(val / base, base) + ([c] + Reversed(tmp));
    }
  }

  // what can be left of a 32-bit number after so many divisions
  function Room(pos: nat): nat {
    if pos == 0 then 0xffff_ffff else Room(pos - 1) / 10
  }

  lemma RoomEnds()
    ensures Room(10) == 0
  {
    assert Room(4) == 429496;
    assert Room(8) == 42;
  }

  lemma {:induction false} RoomShrinks(i: nat, j: nat)
    requires i <= j
    ensures Room(j) <= Room(i)
  {
    if i < j {
      RoomShrinks(i, j - 1);
    }
  }

  // A number that is not 0 yet has been divided fewer than ten times.
  lemma FewDigits(val: nat, pos: nat)
    requires 0 < val <= Room(pos)
    ensures pos < 10
  {
    RoomEnds();
    if pos >= 10 {
      RoomShrinks(10, pos);
    }
  }

  lemma DivideRoom(val: nat, base: nat, i: nat)
    requires Base(base) && 0 < val <= Room(i)
    ensures val / base <= Room(i + 1) && val / base < val
  {
  }

  // the digits, last one first
  method DigitsInto(tmp: array<char>, val0: U32, base: nat) returns (i: nat)
    requires Base(base) && tmp.Length == 32
    modifies tmp
    ensures 1 <= i <= 10 && Reversed(tmp[..i]) == Numeral(val0, base)
  {
    i := 0;
    var val: nat := val0;
    if val == 0 {
      tmp[i] := '0';
      i := 1;
      assert tmp[..1] == ['0'];
    } else {
      assert tmp[..0] == [] && Numeral(val, base) + [] == Numeral(val, base);
      while val > 0
        invariant i <= 10 && val <= Room(i) && Written(val0, base, val, tmp[..i]) && (i == 0 ==> val == val0)
        decreases val
      {
        FewDigits(val, i);
        DivideRoom(val, base, i);
        WrittenNext(val0, base, val, tmp[..i]);
        var digit := val % base;
        tmp[i] := DigitChar(digit);
        assert tmp[..i + 1] == tmp[..i] + [DigitChar(digit)];
        i := i + 1;
        val := val / base;
      }
    }
  }

  // The digits as a sequence have no more room to take.
  lemma {:induction false} NumeralRoom(val: nat, base: nat, pos: nat)
    requires Base(base) && val <= Room(pos) && pos < 10
    ensures |Numeral(val, base)| <= 10 - pos
    decreases val
  {
    if val >= base {
      DivideRoom(val, base, pos);
      FewDigits(val / base, pos + 1);
      NumeralRoom(val / base, base, pos + 1);
    }
  }

  /** Where the zero character goes, behind the padding and the digits: the last store and the highest one. */
  function End(val: nat, base: nat, width: nat): nat
    requires Base(base)
  {
    if |Numeral(val, base)| < width then width else |Numeral(val, base)|
  }

  /** All stores stay inside: those in `tmp`, of 32 characters, end below that place, those in the buffer with it. */
  predicate StoresInside(val: nat, base: nat, width: nat, size: nat)
    requires Base(base)
  {
    End(val, base, width) <= 32 && End(val, base, width) < size
  }

  /** A buffer is long enough for every number exactly if the width is smaller than it and at most 32: for the buffers
      of 32 characters that all calls pass, up to a width of 31. */
  lemma FitsExactly(val: U32, base: nat, width: nat, size: nat)
    requires Base(base) && size > 10
    ensures StoresInside(val, base, width, size) <==> width <= 32 && width < size
  {
    NumeralRoom(val, base, 0);
  }

  /** The number in the base, with `pad` in front up to the width, ended by a zero. */
  method Utoa(val0: U32, buf: array<char>, base: nat, width: nat, pad: char)
    requires Base(base) && StoresInside(val0, base, width, buf.Length)
    modifies buf
    ensures var s, n := Numeral(val0, base), End(val0, base, width);
            n >= |s| && buf[..n] == seq(n - |s|, i => pad) + s && buf[n] == '\0'
    ensures buf[End(val0, base, width) + 1..] == old(buf[End(val0, base, width) + 1..])
  {
    var tmp := new char[32];
    var i := DigitsInto(tmp, val0, base);
    Finish(tmp, i, buf, width, pad, Numeral(val0, base));
  }

  // the padding and the reversal
  method Finish(tmp: array<char>, i0: nat, buf: array<char>, width: nat, pad: char, ghost s: string)
    requires tmp.Length == 32 && i0 <= 32 && width <= 32 && i0 < buf.Length && width < buf.Length
    requires tmp != buf && Reversed(tmp[..i0]) == s
    modifies tmp, buf
    ensures var n := if i0 < width then width else i0;
            buf[..n] == seq(n - |s|, i => pad) + s && buf[n] == '\0' && buf[n + 1..] == old(buf[n + 1..])
  {
    var i := i0;
    ghost var digits := tmp[..i0];
    while i < width
      invariant buf[..] == old(buf[..])
      invariant i0 <= i <= 32 && (i <= width || i == i0) && tmp[..i0] == digits && forall k :: i0 <= k < i ==>
                tmp[k] == pad
    {
      tmp[i] := pad;
      i := i + 1;
    }
    var j := 0;
    while j < i
      invariant 0 <= j <= i && forall k :: 0 <= k < j ==> buf[k] == tmp[i - 1 - k]
      invariant forall k :: j <= k < buf.Length ==> buf[k] == old(buf[k])
      invariant tmp[..i0] == digits && forall k :: i0 <= k < i ==> tmp[k] == pad
    {
      buf[j] := tmp[i - 1 - j];
      j := j + 1;
    }
    buf[i] := '\0';
    forall k | 0 <= k < i
      ensures buf[k] == (seq(i - |s|, x => pad) + s)[k]
    {
      if k >= i - i0 {
        assert tmp[..i0][i - 1 - k] == digits[i - 1 - k];
      }
    }
  }

  // ---- parseval

  predicate HexDigit(c: char) { '0' <= c <= '9' || 'a' <= c <= 'f' }

  // the end of the digits from p on
  function DigitsEnd(s: string, p: nat, base: nat): (e: nat)
    requires p <= |s| && Base(base)
    ensures p <= e <= |s| && (forall i :: p <= i < e ==> 0 <= DigitOf(s[i]) < base)
    ensures (e < |s| ==> !(0 <= DigitOf(s[e]) < base))
    decreases |s| - p
  {
    if p < |s| && 0 <= DigitOf(s[p]) < base then DigitsEnd(s, p + 1, base) else p
  }

  /** The value of a text: sign, prefix of a hexadecimal number, digits, and a multiplier. */
  function ParsedValue(s: string): int {
    var p := if s != [] && s[0] == '-' then 1 else 0;
    var hex := p + 1 < |s| && s[p] == '0' && s[p + 1] == 'x';
    var start, base := if hex then p + 2 else p, if hex then 16 else 10;
    var e := DigitsEnd(s, start, base);
    var n := ValueOf(s[start..e], base);
    var scaled := if e < |s| && s[e] == 'K' then n * 1024 else if e < |s| && s[e] == 'M' then n * 1024 * 1024 else n;
    if p == 1 then -scaled else scaled
  }

  /** The text ends with a zero character, at which every loop stops at the latest. */
  method Parseval(s: string) returns (retval: int)
    requires s != [] && s[|s| - 1] == '\0'
    ensures retval == ParsedValue(s)
  {
    retval := 0;
    var neg, p, hexmode := 1, 0, false;
    if s[p] == '-' {
      neg := -1;
      p := p + 1;
    }
    if s[p] == '0' && s[p + 1] == 'x' {
      hexmode := true;
      p := p + 2;
    }
    if hexmode {
      retval, p := ReadHex(s, p);
    } else {
      retval, p := ReadDecimal(s, p);
    }
    if s[p] == 'K' {
      retval := retval * 1024;
    }
    if s[p] == 'M' {
      retval := retval * 1024 * 1024;
    }
    retval := retval * neg;
  }

  lemma OneMoreDigit(s: string, p0: nat, p: nat, base: nat)
    requires Base(base) && p0 <= p < |s| && 0 <= DigitOf(s[p]) < base && Digits(s[p0..p], base)
    ensures Digits(s[p0..p + 1], base) && ValueOf(s[p0..p + 1], base) == ValueOf(s[p0..p], base) * base + DigitOf(s[p])
    ensures DigitsEnd(s, p, base) == DigitsEnd(s, p + 1, base)
  {
    assert s[p0..p + 1][..p - p0] == s[p0..p];
  }

  method ReadHex(s: string, p0: nat) returns (retval: int, p: nat)
    requires p0 < |s| && s[|s| - 1] == '\0'
    ensures p == DigitsEnd(s, p0, 16) < |s| && retval == ValueOf(s[p0..p], 16)
  {
    retval, p := 0, p0;
    while HexDigit(s[p])
      invariant p0 <= p < |s| && DigitsEnd(s, p0, 16) == DigitsEnd(s, p, 16)
      invariant Digits(s[p0..p], 16) && retval == ValueOf(s[p0..p], 16)
      decreases |s| - p
    {
      var digit := s[p] as int - '0' as int;
      if digit > 9 {
        digit := 10 + s[p] as int - 'a' as int;
      }
      OneMoreDigit(s, p0, p, 16);
      retval := retval * 16;
      retval := retval + digit;
      p := p + 1;
    }
  }

  method ReadDecimal(s: string, p0: nat) returns (retval: int, p: nat)
    requires p0 < |s| && s[|s| - 1] == '\0'
    ensures p == DigitsEnd(s, p0, 10) < |s| && retval == ValueOf(s[p0..p], 10)
  {
    retval, p := 0, p0;
    while '0' <= s[p] <= '9'
      invariant p0 <= p < |s| && DigitsEnd(s, p0, 10) == DigitsEnd(s, p, 10)
      invariant Digits(s[p0..p], 10) && retval == ValueOf(s[p0..p], 10)
      decreases |s| - p
    {
      var digit := s[p] as int - '0' as int;
      OneMoreDigit(s, p0, p, 10);
      retval := retval * 10;
      retval := retval + digit;
      p := p + 1;
    }
  }

  lemma {:induction false} DigitsEndAt(s: string, p: nat, base: nat, e: nat)
    requires p <= e < |s| && Base(base) && Digits(s[p..e], base) && !(0 <= DigitOf(s[e]) < base)
    ensures DigitsEnd(s, p, base) == e
    decreases e - p
  {
    if p < e {
      assert s[p] == s[p..e][0] && s[p + 1..e] == s[p..e][1..];
      DigitsEndAt(s, p + 1, base, e);
    }
  }

  lemma DecimalParses(d: string)
    requires d != [] && Digits(d, 10)
    ensures ParsedValue(d + "\0") == ValueOf(d, 10)
  {
    var s := d + "\0";
    assert s[0..|d|] == d && s[0] == d[0];
    assert |d| > 1 ==> s[1] == d[1];
    assert DigitOf('-') == -1 && DigitOf('x') >= 10 && DigitOf('\0') == -1;
    DigitsEndAt(s, 0, 10, |d|);
  }

  // what a letter behind the digits multiplies by
  function Scale(tail: string): nat
    requires tail != []
  {
    if tail[0] == 'K' then 0x400 else if tail[0] == 'M' then 0x10_0000 else 1
  }

  lemma SignAndPrefix(digits: string, tail: string, sign: string, prefix: string, s: string)
    requires sign in {"", "-"} && prefix in {"", "0x"} && s == sign + prefix + digits + tail && tail != []
    requires digits != [] && Digits(digits, if prefix == "" then 10 else 16) && DigitOf(tail[0]) == -1
    ensures var p := if s[0] == '-' then 1 else 0; var hex := p + 1 < |s| && s[p] == '0' && s[p + 1] == 'x';
            && p == |sign| && (hex <==> prefix == "0x") && s[|sign| + |prefix|..|s| - |tail|] == digits
            && s[|s| - |tail|] == tail[0]
  {
    var at := |sign| + |prefix|;
    assert forall i :: 0 <= i < |digits| ==> s[at + i] == digits[i];
    assert s[at + |digits|] == tail[0];
    assert DigitOf('-') == -1 && DigitOf('x') >= 16;
  }

  lemma ParsedIs(s: string, p: nat, hex: bool, e: nat, base: nat, n: nat, scale: nat)
    requires s != [] && p == (if s[0] == '-' then 1 else 0) && base == (if hex then 16 else 10)
    requires hex <==> p + 1 < |s| && s[p] == '0' && s[p + 1] == 'x'
    requires var start := if hex then p + 2 else p;
             start <= e < |s| && Digits(s[start..e], base) && DigitOf(s[e]) == -1 && n == ValueOf(s[start..e], base)
    requires scale == if s[e] == 'K' then 0x400 else if s[e] == 'M' then 0x10_0000 else 1
    ensures ParsedValue(s) == if p == 1 then -(n * scale) else n * scale
  {
    DigitsEndAt(s, if hex then p + 2 else p, base, e);
  }

  /** A sign negates, a prefix makes it hexadecimal, and a K or an M behind the digits multiplies. */
  lemma QualifiedParses(digits: string, tail: string, sign: string, prefix: string)
    requires sign in {"", "-"} && prefix in {"", "0x"} && tail in {"\0", "K\0", "M\0"} && digits != []
    requires Digits(digits, if prefix == "" then 10 else 16)
    ensures var n := ValueOf(digits, if prefix == "" then 10 else 16) * Scale(tail);
            ParsedValue(sign + prefix + digits + tail) == if sign == "-" then -n else n
  {
    var s, base := sign + prefix + digits + tail, if prefix == "" then 10 else 16;
    TailEnds(tail);
    SignAndPrefix(digits, tail, sign, prefix, s);
    ParsedIs(s, |sign|, prefix == "0x", |s| - |tail|, base, ValueOf(digits, base), Scale(tail));
  }

  lemma TailEnds(tail: string)
    requires tail in {"\0", "K\0", "M\0"}
    ensures tail != [] && DigitOf(tail[0]) == -1
  {
  }

  lemma HexParses(x: string)
    requires Digits(x, 16)
    ensures ParsedValue("0x" + x + "\0") == ValueOf(x, 16)
  {
    var t := "0x" + x + "\0";
    assert t[2..|x| + 2] == x && t[0] == '0' && t[1] == 'x' && t[|x| + 2] == '\0';
    assert DigitOf('\0') == -1;
    DigitsEndAt(t, 2, 16, |x| + 2);
  }

  /** parseval reads back what utoa writes, with leading zeros and, for a hexadecimal number, behind "0x". */
  lemma RoundTrip(val: nat, zeros: nat)
    ensures ParsedValue(Zeros(zeros) + Numeral(val, 10) + "\0") == val
    ensures ParsedValue("0x" + (Zeros(zeros) + Numeral(val, 16)) + "\0") == val
  {
    NumeralValue(val, 10);
    NumeralValue(val, 16);
    PaddedValue(zeros, Numeral(val, 10), 10);
    PaddedValue(zeros, Numeral(val, 16), 16);
    DecimalParses(Zeros(zeros) + Numeral(val, 10));
    HexParses(Zeros(zeros) + Numeral(val, 16));
  }

  // ---- board_print_u32

  /** The decimal digits, out of a buffer of ten. */
  method BoardPrintU32(val0: U32) returns (out: string)
    ensures out == Numeral(val0, 10)
  {
    var buf := new char[10];
    var pos: nat, val: nat := 0, val0;
    out := [];
    if val == 0 {
      return "0";
    }
    assert buf[..0] == [] && Numeral(val, 10) + [] == Numeral(val, 10);
    while val != 0
      invariant pos <= 10 && val <= Room(pos) && Written(val0, 10, val, buf[..pos])
      decreases val
    {
      FewDigits(val, pos);
      DivideRoom(val, 10, pos);
      WrittenNext(val0, 10, val, buf[..pos]);
      buf[pos] := DigitChar(val % 10);
      assert buf[..pos + 1] == buf[..pos] + [DigitChar(val % 10)];
      pos := pos + 1;
      val := val / 10;
    }
    ghost var all := buf[..pos];
    while pos > 0
      invariant 0 <= pos <= |all| && buf[..pos] == all[..pos] && out == Reversed(all)[..|all| - pos]
    {
      pos := pos - 1;
      out := out + [buf[pos]];
    }
    assert Reversed(all)[..|all|] == Reversed(all);
  }
}
