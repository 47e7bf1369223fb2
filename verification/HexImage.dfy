// The hex images of the benchmarks: the writer (fpga/scripts/build_benchmark_image.py), the two parsers and the
// two word packers (fpga/scripts/generate_coe.py, fpga/scripts/merge_hex_for_mem_subsys.py).

module HexImage {
  import opened Words
  import opened Sequences
  import opened Loops

  // ---- Hexadecimal numbers

  const DIGITS := "0123456789ABCDEF"

  // -1 for a character that is no digit
  function DigitValue(c: char): (v: int)
    ensures -1 <= v < 16
  {
    if '0' <= c <= '9' then c as int - '0' as int
    else if 'A' <= c <= 'F' then c as int - 'A' as int + 10
    else if 'a' <= c <= 'f' then c as int - 'a' as int + 10
    else -1
  }

  lemma DigitRoundTrip(d: nat)
    requires d < 16
    ensures DigitValue(DIGITS[d]) == d
  {
  }

  /** A number in upper-case digits, at least `width` of them. */
  function Hex(n: nat, width: nat): (s: string)
    ensures s != []
    decreases n, width
  {
    if n < 16 && width <= 1 then [DIGITS[n]]
    else Hex(n / 16, if width == 0 then 0 else width - 1) + [DIGITS[n % 16]]
  }

  /** The number that a string of digits stands for, or -1; an underscore may stand between two of them. */
  function FromHex(s: string): (n: int)
    ensures n >= -1
    decreases |s|
  {
    if s == [] then -1 else
      var init, v := s[..|s| - 1], DigitValue(s[|s| - 1]);
      if v < 0 || init == [] then v else
        var h := FromHex(if init[|init| - 1] == '_' then init[..|init| - 1] else init);
        if h < 0 then -1 else 16 * h + v
  }

  lemma {:induction false} HexDigits(n: nat, width: nat)
    ensures FromHex(Hex(n, width)) == n && |Hex(n, width)| >= width && Plain(Hex(n, width))
    decreases n, width
  {
    if n < 16 && width <= 1 {
      DigitRoundTrip(n);
      assert Hex(n, width)[..0] == [];
    } else {
      var w := if width == 0 then 0 else width - 1;
      HexDigits(n / 16, w);
      DigitRoundTrip(n % 16);
      FromHexSnoc(Hex(n / 16, w), DIGITS[n % 16]);
      Quotient16(n);
    }
  }

  lemma Quotient16(n: nat)
    ensures 16 * (n / 16) + n % 16 == n
  {
  }

  datatype Num = NaN | Num(value: int)

  // A sign, if there is one, and the text behind it
  function Signed(s: string): (r: (int, string)) {
    if s != [] && (s[0] == '-' || s[0] == '+') then (if s[0] == '-' then -1 else 1, s[1..]) else (1, s)
  }

  // behind a prefix, if there is one, which may have an underscore of its own
  function Unprefixed(s: string): string {
    if |s| >= 2 && s[0] == '0' && (s[1] == 'x' || s[1] == 'X') then
      if |s| >= 3 && s[2] == '_' then s[3..] else s[2..]
    else s
  }

  /** What the parsers take for a number in base 16. */
  function ToInt(s: string): Num {
    var (sign, rest) := Signed(Strip(s));
    var n := FromHex(Unprefixed(rest));
    if n < 0 then NaN else Num(sign * n)
  }

  /** A number in hexadecimal digits of any least width reads back as it was. */
  lemma HexRoundTrip(n: nat, width: nat)
    ensures ToInt(Hex(n, width)) == Num(n) && |Hex(n, width)| >= width
  {
    HexDigits(n, width);
    PlainToInt(Hex(n, width));
  }

  // Digits alone have no sign and no prefix.
  lemma PlainUnsigned(s: string)
    requires Plain(s)
    ensures Signed(s) == (1, s) && Unprefixed(s) == s
  {
    assert DigitValue(s[0]) >= 0 && (|s| >= 2 ==> DigitValue(s[1]) >= 0);
  }

  lemma PlainToInt(s: string)
    requires Plain(s)
    ensures ToInt(s) == if FromHex(s) < 0 then NaN else Num(FromHex(s))
  {
    PlainLine(s);
    PlainUnsigned(s);
  }

  // ---- Lines

  // what `strip`, `split` and `int` take for white space
  predicate Space(c: char) {
    || c == ' ' || '\t' <= c <= '\r' || '\U{1c}' <= c <= '\U{1f}' || c == '\U{85}' || c == '\U{a0}' || c == '\U{1680}'
    || '\U{2000}' <= c <= '\U{200a}' || c == '\U{2028}' || c == '\U{2029}' || c == '\U{202f}' || c == '\U{205f}'
    || c == '\U{3000}'
  }

  function StripLeft(s: string): string { if s != [] && Space(s[0]) then StripLeft(s[1..]) else s }
  function StripRight(s: string): string { if s != [] && Space(s[|s| - 1]) then StripRight(s[..|s| - 1]) else s }
  function Strip(s: string): string { StripRight(StripLeft(s)) }

  // the tokens between white space; `part` is the one under way
  function SplitFrom(s: string, part: string): seq<string> {
    if s == [] then if part == [] then [] else [part]
    else if Space(s[0]) then (if part == [] then [] else [part]) + SplitFrom(s[1..], [])
    else SplitFrom(s[1..], part + [s[0]])
  }

  function Split(s: string): seq<string> { SplitFrom(s, []) }

  // only digits, as the writer puts them on a line
  predicate Plain(s: string) { s != [] && forall i :: 0 <= i < |s| ==> DigitValue(s[i]) >= 0 }

  lemma {:induction false} PlainSplit(s: string, part: string)
    requires (forall i :: 0 <= i < |s| ==> !Space(s[i])) && (s != [] || part != [])
    ensures SplitFrom(s, part) == [part + s]
  {
    if s == [] {
      assert part + s == part;
    } else {
      PlainSplit(s[1..], part + [s[0]]);
      assert part + [s[0]] + s[1..] == part + s;
    }
  }

  lemma PlainLine(s: string)
    requires Plain(s)
    ensures Strip(s) == s && Split(s) == [s]
  {
    assert forall i :: 0 <= i < |s| ==> !Space(s[i]);
    PlainSplit(s, []);
    assert [] + s == s;
  }

  lemma {:induction false} PlainValue(s: string)
    requires Plain(s)
    ensures FromHex(s) >= 0
  {
    if |s| > 1 {
      var init := s[..|s| - 1];
      assert DigitValue(s[|s| - 1]) >= 0 && init[|init| - 1] == s[|s| - 2] && DigitValue(s[|s| - 2]) >= 0;
      PlainValue(init);
    } else {
      assert s[..0] == [];
    }
  }

  // one digit more
  lemma FromHexSnoc(s: string, c: char)
    requires DigitValue(c) >= 0 && Plain(s)
    ensures FromHex(s + [c]) == 16 * FromHex(s) + DigitValue(c) && Plain(s + [c])
  {
    assert DigitValue(s[|s| - 1]) >= 0;
    FromHexMore(s, c);
    PlainValue(s);
  }

  // or one behind a text that ends with a digit
  lemma FromHexMore(s: string, c: char)
    requires DigitValue(c) >= 0 && s != [] && DigitValue(s[|s| - 1]) >= 0
    ensures FromHex(s + [c]) == if FromHex(s) < 0 then -1 else 16 * FromHex(s) + DigitValue(c)
  {
    var t := s + [c];
    assert DigitValue('_') == -1 && s[|s| - 1] != '_';
    assert t[..|t| - 1] == s && t[|t| - 1] == c;
  }

  // ---- The parsers

  /** Where a parser is: the address of the next byte and the bytes so far; or an error. */
  datatype Parsed = Bad | Parsed(addr: int, bytes: map<int, int>)

  function Put(p: Parsed, n: Num): Parsed {
    if p.Bad? || n.NaN? then Bad else Parsed(p.addr + 1, p.bytes[p.addr := n.value])
  }

  function At(p: Parsed, n: Num): Parsed {
    if p.Bad? || n.NaN? then Bad else p.(addr := n.value)
  }

  // the digits of the n-th byte of a token
  function PairAt(token: string, n: nat): string
    requires 2 * n + 2 <= |token|
  {
    token[2 * n..2 * n + 2]
  }

  // its first n bytes
  function Pairs(p: Parsed, token: string, n: nat): Parsed
    requires 2 * n <= |token|
  {
    if n == 0 then p else Put(Pairs(p, token, n - 1), ToInt(PairAt(token, n - 1)))
  }

  function Evened(token: string): (t: string)
    ensures |t| % 2 == 0
  {
    if |token| % 2 != 0 then "0" + token else token
  }

  function VerilogToken(p: Parsed, token: string): Parsed { Pairs(p, Evened(token), |Evened(token)| / 2) }

  function Tokens(p: Parsed, tokens: seq<string>, each: (Parsed, string) -> Parsed): Parsed {
    if tokens == [] then p else each(Tokens(p, tokens[..|tokens| - 1], each), tokens[|tokens| - 1])
  }

  function VerilogLine(p: Parsed, raw: string): Parsed {
    var line := Strip(raw);
    if line == [] || "//" <= line || "#" <= line then p
    else if "@" <= line then At(p, ToInt(line[1..]))
    else Tokens(p, Split(line), VerilogToken)
  }

  function ByteLine(p: Parsed, raw: string): Parsed {
    var line := Strip(raw);
    if line == [] then p
    else if "@" <= line then At(p, ToInt(line[1..]))
    else Tokens(p, Split(line), ByteToken)
  }

  function Lines(lines: seq<string>, each: (Parsed, string) -> Parsed): Parsed {
    if lines == [] then Parsed(0, map[]) else each(Lines(lines[..|lines| - 1], each), lines[|lines| - 1])
  }

  lemma PairsNext(p0: Parsed, token: string, n: nat, p: Parsed)
    requires 2 * n + 2 <= |token| && p == Pairs(p0, token, n)
    ensures Put(p, ToInt(PairAt(token, n))) == Pairs(p0, token, n + 1)
  {
  }

  method PairsInto(p0: Parsed, token: string) returns (p: Parsed)
    ensures p == Pairs(p0, token, |token| / 2)
  {
    p := p0;
    for n := 0 to |token| / 2
      invariant p == Pairs(p0, token, n)
    {
      PairsNext(p0, token, n, p);
      p := Put(p, ToInt(PairAt(token, n)));
    }
  }

  method TokensInto(p0: Parsed, tokens: seq<string>) returns (p: Parsed)
    ensures p == Tokens(p0, tokens, VerilogToken)
  {
    p := p0;
    for i := 0 to |tokens|
      invariant p == Tokens(p0, tokens[..i], VerilogToken)
    {
      assert tokens[..i + 1][..i] == tokens[..i];
      p := PairsInto(p, Evened(tokens[i]));
    }
    assert tokens[..|tokens|] == tokens;
  }

  method ParseVerilogHex(lines: seq<string>) returns (p: Parsed)
    ensures p == Lines(lines, VerilogLine)
  {
    p := Parsed(0, map[]);
    for i := 0 to |lines|
      invariant p == Lines(lines[..i], VerilogLine)
    {
      assert lines[..i + 1][..i] == lines[..i];
      var line := Strip(lines[i]);
      if line == [] || "//" <= line || "#" <= line {
      } else if "@" <= line {
        p := At(p, ToInt(line[1..]));
      } else {
        p := TokensInto(p, Split(line));
      }
    }
    assert lines[..|lines|] == lines;
  }

  function ByteToken(p: Parsed, token: string): Parsed { Put(p, ToInt(token)) }

  method ParseByteHex(lines: seq<string>) returns (p: Parsed)
    ensures p == Lines(lines, ByteLine)
  {
    p := Parsed(0, map[]);
    for i := 0 to |lines|
      invariant p == Lines(lines[..i], ByteLine)
    {
      assert lines[..i + 1][..i] == lines[..i];
      var line := Strip(lines[i]);
      if line == [] {
      } else if "@" <= line {
        p := At(p, ToInt(line[1..]));
      } else {
        var tokens, start := Split(line), p;
        for j := 0 to |tokens|
          invariant p == Tokens(start, tokens[..j], ByteToken)
        {
          assert tokens[..j + 1][..j] == tokens[..j];
          p := ByteToken(p, tokens[j]);
        }
        assert tokens[..|tokens|] == tokens;
      }
    }
    assert lines[..|lines|] == lines;
  }

  // ---- The writer

  /** The keys in increasing order. */
  ghost predicate SortedKeys(addrs: seq<nat>, image: map<nat, U8>) {
    && (forall i, j :: 0 <= i < j < |addrs| ==> addrs[i] < addrs[j])
    && (forall a :: a in image <==> a in addrs)
  }

  // How numbers are formatted: by value and least number of digits. The writer uses Hex.
  type Format = (nat, nat) -> string

  // the line of an address, where one is needed
  function AddrLine(addrs: seq<nat>, k: nat, hex: Format): seq<string>
    requires k < |addrs|
  {
    if k == 0 || addrs[k] != addrs[k - 1] + 1 then ["@" + hex(addrs[k], 8)] else []
  }

  // one byte more
  function PrintNext(addrs: seq<nat>, image: map<nat, U8>, hex: Format): (seq<string>, nat) -> seq<string> {
    (lines: seq<string>, k: nat) =>
      if k < |addrs| && addrs[k] in image then lines + AddrLine(addrs, k, hex) + [hex(image[addrs[k]], 2)] else lines
  }

  /** The lines of the first k bytes. */
  function Printed(addrs: seq<nat>, image: map<nat, U8>, k: nat, hex: Format): seq<string> {
    Iterate(PrintNext(addrs, image, hex), [], k)
  }

  method WriteLines(image: map<nat, U8>, addrs: seq<nat>, hex: Format) returns (lines: seq<string>)
    requires forall i :: 0 <= i < |addrs| ==> addrs[i] in image
    ensures lines == Printed(addrs, image, |addrs|, hex)
  {
    lines := [];
    var current: int := -1;
    ghost var next := PrintNext(addrs, image, hex);
    for k := 0 to |addrs|
      invariant lines == Iterate(next, [], k) && current == if k == 0 then -1 else addrs[k - 1] + 1
    {
      var addr := addrs[k];
      ghost var before := lines;
      if current == -1 || addr != current {
        lines := lines + ["@" + hex(addr, 8)];
      }
      assert lines == before + AddrLine(addrs, k, hex);
      lines := lines + [hex(image[addr], 2)];
      current := addr + 1;
    }
  }

  /** The lines of an image; `addrs` are its sorted keys. */
  method WriteVerilogByteImage(image: map<nat, U8>, addrs: seq<nat>) returns (lines: seq<string>)
    requires SortedKeys(addrs, image) && addrs != []
    ensures lines == Printed(addrs, image, |addrs|, Hex)
  {
    lines := WriteLines(image, addrs, Hex);
  }

  // ---- What is written is read back

  /** A parser that understands the writer's two kinds of lines. */
  ghost predicate Reads(each: (Parsed, string) -> Parsed, hex: Format) {
    && (forall p: Parsed, addr: nat :: each(p, "@" + hex(addr, 8)) == At(p, Num(addr)))
    && (forall p: Parsed, value: U8 :: each(p, hex(value, 2)) == Put(p, Num(value)))
  }

  // the first k bytes
  function Restricted(addrs: seq<nat>, image: map<nat, U8>, k: nat): (m: map<int, int>)
    requires k <= |addrs| && forall i :: 0 <= i < |addrs| ==> addrs[i] in image
  {
    if k == 0 then map[] else Restricted(addrs, image, k - 1)[addrs[k - 1] := image[addrs[k - 1]] as int]
  }

  lemma {:induction false} RestrictedHolds(addrs: seq<nat>, image: map<nat, U8>, k: nat)
    requires k <= |addrs| && forall i :: 0 <= i < |addrs| ==> addrs[i] in image
    ensures forall a: int :: a in Restricted(addrs, image, k) <==> exists i :: 0 <= i < k && addrs[i] == a
    ensures forall a: nat :: a in Restricted(addrs, image, k) ==>
            a in image && Restricted(addrs, image, k)[a] == image[a]
  {
    if k > 0 {
      RestrictedHolds(addrs, image, k - 1);
    }
  }

  // A line of an address is none of the others.
  lemma AddrLineIs(hex: string, line: string)
    requires Plain(hex) && line == "@" + hex
    ensures Strip(line) == line && line[1..] == hex && line[0] == '@' && "@" <= line
  {
    assert !Space('@');
    PlainSpaces(hex);
    assert forall i :: 1 <= i < |line| ==> line[i] == hex[i - 1];
    assert forall i :: 0 <= i < |line| ==> !Space(line[i]);
  }

  lemma PlainSpaces(s: string)
    requires Plain(s)
    ensures forall i :: 0 <= i < |s| ==> !Space(s[i])
  {
  }

  lemma AddrReads(p: Parsed, addr: nat)
    ensures VerilogLine(p, "@" + Hex(addr, 8)) == At(p, Num(addr))
    ensures ByteLine(p, "@" + Hex(addr, 8)) == At(p, Num(addr))
  {
    var hex := Hex(addr, 8);
    HexDigits(addr, 8);
    HexRoundTrip(addr, 8);
    AddrLineIs(hex, "@" + hex);
  }

  lemma ByteHex(value: U8)
    ensures |Hex(value, 2)| == 2
  {
    assert Hex(value, 2) == Hex(value / 16, 1) + [DIGITS[value % 16]];
  }

  lemma OneToken(p: Parsed, token: string, each: (Parsed, string) -> Parsed)
    ensures Tokens(p, [token], each) == each(p, token)
  {
    var tokens := [token];
    assert tokens[..|tokens| - 1] == [];
  }

  lemma FirstPair(p: Parsed, token: string)
    requires |token| >= 2
    ensures Pairs(p, token, 1) == Put(p, ToInt(PairAt(token, 0)))
  {
    assert Pairs(p, token, 0) == p;
  }

  lemma OnePair(p: Parsed, token: string)
    requires |token| == 2
    ensures VerilogToken(p, token) == Put(p, ToInt(token))
  {
    FirstPair(p, token);
    assert PairAt(token, 0) == token;
    assert Evened(token) == token;
  }

  lemma ByteReads(p: Parsed, value: U8)
    ensures VerilogLine(p, Hex(value, 2)) == Put(p, Num(value)) && ByteLine(p, Hex(value, 2)) == Put(p, Num(value))
  {
    var hex := Hex(value, 2);
    HexDigits(value, 2);
    HexRoundTrip(value, 2);
    ByteHex(value);
    PlainLine(hex);
    PlainStart(hex);
    OneToken(p, hex, VerilogToken);
    OneToken(p, hex, ByteToken);
    OnePair(p, hex);
  }

  lemma PlainStart(hex: string)
    requires Plain(hex)
    ensures !("//" <= hex) && !("#" <= hex) && !("@" <= hex)
  {
    assert DigitValue(hex[0]) >= 0;
    assert "//"[0] == '/' && "#"[0] == '#' && "@"[0] == '@';
  }

  lemma VerilogReads()
    ensures Reads(VerilogLine, Hex)
  {
    var each, hex: Format := VerilogLine, Hex;
    forall p: Parsed, addr: nat
      ensures each(p, "@" + hex(addr, 8)) == At(p, Num(addr))
    {
      AddrReads(p, addr);
    }
    forall p: Parsed, value: U8
      ensures each(p, hex(value, 2)) == Put(p, Num(value))
    {
      ByteReads(p, value);
    }
  }

  lemma BytesRead()
    ensures Reads(ByteLine, Hex)
  {
    var each, hex: Format := ByteLine, Hex;
    forall p: Parsed, addr: nat
      ensures each(p, "@" + hex(addr, 8)) == At(p, Num(addr))
    {
      AddrReads(p, addr);
    }
    forall p: Parsed, value: U8
      ensures each(p, hex(value, 2)) == Put(p, Num(value))
    {
      ByteReads(p, value);
    }
  }

  lemma LinesSnoc(lines: seq<string>, line: string, each: (Parsed, string) -> Parsed)
    ensures Lines(lines + [line], each) == each(Lines(lines, each), line)
  {
    assert (lines + [line])[..|lines|] == lines;
  }

  function AddrAfter(addrs: seq<nat>, k: nat): int
    requires k <= |addrs|
  {
    if k == 0 then 0 else addrs[k - 1] + 1
  }

  // the address of the next byte is known before its line
  lemma AddrParses(addrs: seq<nat>, k: nat, lines: seq<string>, m: map<int, int>, each: (Parsed, string) -> Parsed,
                   hex: Format)
    requires Reads(each, hex) && k < |addrs| && Lines(lines, each) == Parsed(AddrAfter(addrs, k), m)
    ensures Lines(lines + AddrLine(addrs, k, hex), each) == Parsed(addrs[k], m)
  {
    if AddrLine(addrs, k, hex) != [] {
      LinesSnoc(lines, "@" + hex(addrs[k], 8), each);
    } else {
      assert lines + [] == lines;
    }
  }

  lemma ByteParses(addrs: seq<nat>, image: map<nat, U8>, n: nat, m: map<int, int>, each: (Parsed, string) -> Parsed,
                   hex: Format)
    requires Reads(each, hex) && n < |addrs| && forall i :: 0 <= i < |addrs| ==> addrs[i] in image
    requires Lines(Printed(addrs, image, n, hex), each) == Parsed(AddrAfter(addrs, n), m)
    ensures Lines(Printed(addrs, image, n + 1, hex), each)
            == Parsed(addrs[n] + 1, m[addrs[n] := image[addrs[n]] as int])
  {
    var mid, value := Printed(addrs, image, n, hex) + AddrLine(addrs, n, hex), image[addrs[n]];
    assert Printed(addrs, image, n + 1, hex) == PrintNext(addrs, image, hex)(Printed(addrs, image, n, hex), n);
    AddrParses(addrs, n, Printed(addrs, image, n, hex), m, each, hex);
    LinesSnoc(mid, hex(value, 2), each);
    assert Put(Parsed(addrs[n], m), Num(value)) == Parsed(addrs[n] + 1, m[addrs[n] := value as int]);
  }

  // what is read of the first k bytes
  ghost predicate ParsesTo(addrs: seq<nat>, image: map<nat, U8>, k: nat, each: (Parsed, string) -> Parsed, hex: Format)
    requires k <= |addrs| && forall i :: 0 <= i < |addrs| ==> addrs[i] in image
  {
    Lines(Printed(addrs, image, k, hex), each) == Parsed(AddrAfter(addrs, k), Restricted(addrs, image, k))
  }

  lemma ParsesNext(addrs: seq<nat>, image: map<nat, U8>, n: nat, each: (Parsed, string) -> Parsed, hex: Format)
    requires Reads(each, hex) && n < |addrs| && forall i :: 0 <= i < |addrs| ==> addrs[i] in image
    requires ParsesTo(addrs, image, n, each, hex)
    ensures ParsesTo(addrs, image, n + 1, each, hex)
  {
    ByteParses(addrs, image, n, Restricted(addrs, image, n), each, hex);
  }

  lemma PrintedParses(addrs: seq<nat>, image: map<nat, U8>, each: (Parsed, string) -> Parsed, hex: Format)
    requires Reads(each, hex) && forall i :: 0 <= i < |addrs| ==> addrs[i] in image
    ensures ParsesTo(addrs, image, |addrs|, each, hex)
  {
    for k := 0 to |addrs|
      invariant ParsesTo(addrs, image, k, each, hex)
    {
      ParsesNext(addrs, image, k, each, hex);
    }
  }

  /** Both parsers read a written image back: the same addresses with the same bytes. */
  lemma ImageRoundTrip(addrs: seq<nat>, image: map<nat, U8>)
    requires SortedKeys(addrs, image) && forall i :: 0 <= i < |addrs| ==> addrs[i] in image
    ensures var lines := Printed(addrs, image, |addrs|, Hex);
            && Lines(lines, VerilogLine).Parsed? && Lines(lines, VerilogLine) == Lines(lines, ByteLine)
            && (forall a: int :: a in Lines(lines, VerilogLine).bytes <==> a >= 0 && a in image)
            && (forall a: nat :: a in image ==>
              a in Lines(lines, VerilogLine).bytes && Lines(lines, VerilogLine).bytes[a] == image[a])
  {
    VerilogReads();
    BytesRead();
    PrintedParses(addrs, image, VerilogLine, Hex);
    PrintedParses(addrs, image, ByteLine, Hex);
    RestrictedHolds(addrs, image, |addrs|);
  }
}
