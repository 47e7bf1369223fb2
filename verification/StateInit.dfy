// core_init_state: the block for the scanner is filled with patterns (benchmarks/coremark/core_state.c).

module StateInit {
  import opened Words
  import opened Sequences
  import opened Cells
  import opened StateScan
  import opened StateBench

  // printable characters other than the comma
  predicate Plain(s: string) { forall i :: 0 <= i < |s| ==> '!' <= s[i] <= '~' && s[i] != ',' }

  function Ascii(s: string): (r: seq<U8>)
    requires Plain(s)
    ensures |r| == |s| && forall i :: 0 <= i < |s| ==> r[i] == s[i] as int && 0x20 < r[i] < 0x80 && r[i] != COMMA
  {
    seq(|s|, i requires 0 <= i < |s| => s[i] as int)
  }

  const INT_PATTERNS: seq<string> := ["5012", "1234", "-874", "+122"]
  const FLOAT_PATTERNS: seq<string> := ["35.54400", ".1234500", "-110.700", "+0.64400"]
  const SCIENTIFIC_PATTERNS: seq<string> := ["5.500e+3", "-.123e-2", "-87e+832", "+0.6e-12"]
  const ERROR_PATTERNS: seq<string> := ["T0.3e-1F", "-T.T++Tq", "1T3.4e4z", "34.0e-T^"]

  /** The pattern that a seed selects: of eight seeds three give an integer, two a float, two a number in
      scientific notation and one none of these. */
  function PatternText(seed: S16): (s: string)
    ensures Plain(s) && |s| == if seed % 8 <= 2 then 4 else 8
  {
    var k, kind := seed / 8 % 4, seed % 8;
    if kind <= 2 then INT_PATTERNS[k]
    else if kind <= 4 then FLOAT_PATTERNS[k]
    else if kind <= 6 then SCIENTIFIC_PATTERNS[k]
    else ERROR_PATTERNS[k]
  }

  function Pattern(seed: S16): (p: seq<U8>)
    ensures |p| == (if seed % 8 <= 2 then 4 else 8) && forall i :: 0 <= i < |p| ==> p[i] != 0 && p[i] != COMMA
  {
    Ascii(PatternText(seed))
  }

  // ---- What the patterns are to the scanner

  lemma RunFrom(w: seq<U8>, i: nat, s: State)
    requires i < |w| && Run(w[..i]) == s
    ensures Run(w[..i + 1]) == Step(s, w[i])
  {
    assert w[..i + 1][..i] == w[..i];
  }

  lemma RunFour(w: seq<U8>)
    requires |w| >= 4
    ensures Run(w[..4]) == Step(Step(Step(Step(Start, w[0]), w[1]), w[2]), w[3])
  {
    RunFrom(w, 0, Start);
    RunFrom(w, 1, Run(w[..1]));
    RunFrom(w, 2, Run(w[..2]));
    RunFrom(w, 3, Run(w[..3]));
  }

  lemma RunEight(w: seq<U8>)
    requires |w| == 8
    ensures Run(w) == Step(Step(Step(Step(Run(w[..4]), w[4]), w[5]), w[6]), w[7])
  {
    RunFrom(w, 4, Run(w[..4]));
    RunFrom(w, 5, Run(w[..5]));
    RunFrom(w, 6, Run(w[..6]));
    RunFrom(w, 7, Run(w[..7]));
    assert w[..8] == w;
  }

  /** The patterns are numbers of the kind that their table says, or not numbers - but for "-87e+832" among the
      scientific ones: the scanner takes no exponent without a decimal point. */
  lemma PatternKinds(seed: S16)
    ensures var k, kind := seed / 8 % 4, seed % 8;
            Run(Pattern(seed)) == if kind <= 2 then Int else if kind <= 4 then Float
              else if kind <= 6 && k != 2 then Scientific else Invalid
  {
    var w := Pattern(seed);
    RunFour(w);
    if seed % 8 <= 2 {
      assert w[..4] == w;
    } else {
      RunEight(w);
    }
  }

  // ---- The text

  ghost predicate Proper(pattern: S16 -> seq<U8>) {
    forall k: S16 :: pattern(k) != [] && forall i :: 0 <= i < |pattern(k)| ==> pattern(k)[i] != 0
  }

  // the increment of a 16-bit seed
  function Next16(seed: S16): S16 { if seed == 0x7fff then -0x8000 else seed + 1 }

  /** Patterns with commas behind them, as long as the next one leaves room; the one at hand is `next`. */
  ghost function Body(pattern: S16 -> seq<U8>, limit: int, total: nat, next: seq<U8>, seed: S16): (r: seq<U8>)
    requires Proper(pattern) && forall i :: 0 <= i < |next| ==> next[i] != 0
    ensures forall i :: 0 <= i < |r| ==> r[i] != 0
    ensures r != [] ==> total + |r| < limit
    decreases limit - total, if next == [] then 1 else 0
  {
    if total + |next| + 1 >= limit then [] else
      Part(next) + Body(pattern, limit, total + |Part(next)|, pattern(Next16(seed)), Next16(seed))
  }

  function Part(next: seq<U8>): seq<U8> { if next == [] then [] else next + [COMMA] }

  lemma PatternsProper()
    ensures Proper(Pattern)
  {
  }

  ghost function InitText(size: nat, seed: S16): (t: seq<U8>)
    requires size >= 1
    ensures |t| == size
  {
    PatternsProper();
    var body := Body(Pattern, size - 1, 0, [], seed);
    body + seq(size - |body|, i => 0)
  }

  /** The sixteen texts, by the seed: bits 3 and 4 choose one of four, and bits 0 to 2 the table. */
  lemma PatternTexts(seed: S16)
    ensures seed % 8 <= 2 ==> PatternText(seed) == ["5012", "1234", "-874", "+122"][seed / 8 % 4]
    ensures 3 <= seed % 8 <= 4 ==> PatternText(seed) == ["35.54400", ".1234500", "-110.700", "+0.64400"][seed / 8 % 4]
    ensures 5 <= seed % 8 <= 6 ==> PatternText(seed) == ["5.500e+3", "-.123e-2", "-87e+832", "+0.6e-12"][seed / 8 % 4]
    ensures seed % 8 == 7 ==> PatternText(seed) == ["T0.3e-1F", "-T.T++Tq", "1T3.4e4z", "34.0e-T^"][seed / 8 % 4]
  {
  }

  // The k-th seed after the first one
  function SeedAt(seed: S16, k: nat): S16 { ToS16(seed + k) }

  lemma NextSeed(seed: S16, k: nat)
    ensures Next16(SeedAt(seed, k)) == SeedAt(seed, k + 1)
  {
    var x := seed + k + 0x8000;
    var q, r := x / 0x1_0000, x % 0x1_0000;
    assert x == 0x1_0000 * q + r;
    if r == 0xffff {
      QuotientUnique(0x1_0000, q + 1, 0);
    } else {
      QuotientUnique(0x1_0000, q, r + 1);
    }
  }

  // The patterns of the seeds from the k-th to before the n-th, each with a comma
  function Patterns(pattern: S16 -> seq<U8>, at: nat -> S16, k: nat, n: nat): seq<seq<U8>>
    decreases n - k
  {
    if k >= n then [] else [pattern(at(k)) + [COMMA]] + Patterns(pattern, at, k + 1, n)
  }

  // one seed after the other
  ghost predicate Successive(at: nat -> S16) { forall k: nat :: Next16(at(k)) == at(k + 1) }

  // the body from the k-th pattern on
  lemma {:induction false} BodyIs(pattern: S16 -> seq<U8>, limit: int, total: nat, at: nat -> S16, k: nat)
    returns (n: nat)
    requires Proper(pattern) && Successive(at)
    ensures k <= n
    ensures var body := Body(pattern, limit, total, pattern(at(k)), at(k));
            body == Concat(Patterns(pattern, at, k, n)) && total + |body| + |pattern(at(n))| + 1 >= limit
    decreases limit - total
  {
    var next := pattern(at(k));
    if total + |next| + 1 >= limit {
      n := k;
    } else {
      assert Next16(at(k)) == at(k + 1) && Part(next) == next + [COMMA];
      n := BodyIs(pattern, limit, total + |Part(next)|, at, k + 1);
      ConcatFirst(Part(next), Patterns(pattern, at, k + 1, n));
    }
  }

  lemma FirstBody(pattern: S16 -> seq<U8>, limit: int, at: nat -> S16)
    requires Proper(pattern) && Successive(at) && 1 < limit
    ensures Body(pattern, limit, 0, [], at(0)) == Body(pattern, limit, 0, pattern(at(1)), at(1))
  {
    assert Next16(at(0)) == at(1);
  }

  function SeedsFrom(seed: S16): nat -> S16 { (k: nat) => SeedAt(seed, k) }

  lemma SeedsSuccessive(seed: S16)
    ensures Successive(SeedsFrom(seed)) && SeedsFrom(seed)(0) == seed
  {
    forall k: nat
      ensures Next16(SeedsFrom(seed)(k)) == SeedsFrom(seed)(k + 1)
    {
      NextSeed(seed, k);
    }
  }

  lemma BodyFilled(pattern: S16 -> seq<U8>, limit: int, at: nat -> S16, body: seq<U8>) returns (n: nat)
    requires Proper(pattern) && Successive(at) && body == Body(pattern, limit, 0, [], at(0))
    ensures n >= 1 && body == Concat(Patterns(pattern, at, 1, n)) && |body| + |pattern(at(n))| + 1 >= limit
    ensures body != [] ==> |body| < limit
  {
    if 1 >= limit {
      n := 1;
    } else {
      FirstBody(pattern, limit, at);
      n := BodyIs(pattern, limit, 0, at, 1);
    }
  }

  /** The block has the patterns of the seeds that follow the given one, each with a comma, as many as leave two bytes
      free, and then zeros. */
  lemma BlockFilled(size: nat, seed: S16) returns (n: nat, body: seq<U8>)
    requires size >= 1
    ensures n >= 1 && body == Concat(Patterns(Pattern, SeedsFrom(seed), 1, n)) && |body| <= size
    ensures InitText(size, seed) == body + seq(size - |body|, i => 0)
    ensures body != [] ==> |body| + 1 < size
    ensures |body| + |Pattern(SeedsFrom(seed)(n))| + 2 >= size
  {
    PatternsProper();
    SeedsSuccessive(seed);
    body := Body(Pattern, size - 1, 0, [], seed);
    n := BodyFilled(Pattern, size - 1, SeedsFrom(seed), body);
  }

  // a pattern and its comma
  method WriteWord(p: array<U8>, total: nat, buf: seq<U8>)
    requires total + |buf| < p.Length
    modifies p
    ensures p[..total + |buf| + 1] == old(p[..total]) + buf + [COMMA]
  {
    ghost var before := p[..total];
    var i := 0;
    while i < |buf|
      invariant 0 <= i <= |buf| && p[..total + i] == before + buf[..i]
    {
      p[total + i] := buf[i];
      assert p[..total + i + 1] == p[..total + i] + [buf[i]];
      assert before + buf[..i + 1] == before + buf[..i] + [buf[i]];
      i := i + 1;
    }
    assert buf[..i] == buf;
    p[total + i] := COMMA;
    assert p[..total + i + 1] == p[..total + i] + [COMMA];
  }

  // the zeros behind the text
  method FillZeros(p: array<U8>, total0: nat)
    requires total0 <= p.Length
    modifies p
    ensures p[..] == old(p[..total0]) + seq(p.Length - total0, i => 0)
  {
    ghost var before := p[..total0];
    var total := total0;
    while total < p.Length
      invariant total0 <= total <= p.Length && p[..total] == before + seq(total - total0, i => 0)
    {
      p[total] := 0;
      assert p[..total + 1] == p[..total] + [0];
      total := total + 1;
    }
    assert p[..] == p[..total];
  }

  // the pattern at hand, if there is one
  method WritePart(p: array<U8>, total0: nat, buf: seq<U8>) returns (total: nat)
    requires total0 + |buf| < p.Length
    modifies p
    ensures total == total0 + |Part(buf)| && total <= p.Length && p[..total] == old(p[..total0]) + Part(buf)
  {
    total := total0;
    if |buf| > 0 {
      WriteWord(p, total, buf);
      total := total + |buf| + 1;
    }
  }

  // What is still to come behind the bytes written
  ghost predicate Writing(pattern: S16 -> seq<U8>, limit: int, total: nat, buf: seq<U8>, seed: S16, body: seq<U8>) {
    && Proper(pattern) && (forall i :: 0 <= i < |buf| ==> buf[i] != 0)
    && total <= |body| && body[total..] == Body(pattern, limit, total, buf, seed)
  }

  lemma WritingNext(pattern: S16 -> seq<U8>, limit: int, total: nat, buf: seq<U8>, seed: S16, body: seq<U8>)
    requires Writing(pattern, limit, total, buf, seed, body) && total + |buf| + 1 < limit
    ensures var next := total + |Part(buf)|;
            && Writing(pattern, limit, next, pattern(Next16(seed)), Next16(seed), body) && pattern(Next16(seed)) != []
            && body[..next] == body[..total] + Part(buf)
  {
    var next := total + |Part(buf)|;
    assert body[total..][..|Part(buf)|] == Part(buf) && body[total..][|Part(buf)|..] == body[next..];
  }

  // the body of the loop over the patterns
  method WriteNext(p: array<U8>, size: nat, total0: nat, seed0: S16, buf0: seq<U8>, pattern: S16 -> seq<U8>,
                   ghost body: seq<U8>)
    returns (total: nat, seed: S16, buf: seq<U8>)
    requires size < p.Length && total0 + |buf0| + 1 < size
    requires Writing(pattern, size, total0, buf0, seed0, body) && p[..total0] == body[..total0]
    modifies p
    ensures Writing(pattern, size, total, buf, seed, body) && total <= p.Length && p[..total] == body[..total]
    ensures buf != [] && total == total0 + |Part(buf0)|
  {
    WritingNext(pattern, size, total0, buf0, seed0, body);
    total := WritePart(p, total0, buf0);
    seed := Next16(seed0);
    buf := pattern(seed);
  }

  // the loop over the patterns; `pattern` is the switch over the seed
  method WriteBody(p: array<U8>, size: nat, seed0: S16, pattern: S16 -> seq<U8>) returns (total: nat)
    requires size < p.Length && Proper(pattern)
    modifies p
    ensures total <= p.Length && p[..total] == Body(pattern, size, 0, [], seed0)
  {
    total := 0;
    var seed: S16 := seed0;
    var buf: seq<U8> := [];
    ghost var body := Body(pattern, size, 0, [], seed0);
    assert body[0..] == body;
    while total + |buf| + 1 < size
      invariant Writing(pattern, size, total, buf, seed, body) && total <= p.Length && p[..total] == body[..total]
      decreases size - total + if buf == [] then 1 else 0
    {
      total, seed, buf := WriteNext(p, size, total, seed, buf, pattern, body);
    }
    assert body[total..] == [] && body[..total] == body;
  }

  /** core_init_state: patterns up to the last two bytes at most, zeros behind them. */
  method CoreInitState(size: nat, seed: S16, p: array<U8>)
    requires 1 <= size == p.Length
    modifies p
    ensures p[..] == InitText(size, seed)
  {
    PatternsProper();
    var total := WriteBody(p, size - 1, seed, Pattern);
    FillZeros(p, total);
  }

  // The steps that the list kernel passes are multiples of 0x11.
  lemma StepMultiple(d: Data16)
    ensures d.Step() >= 0x22 && d.Step() % 0x11 == 0
  {
    QuotientUnique(0x11, d.lo / 8 % 0x10, 0);
  }

  /** All the calls that the list kernel makes on one initialised block of at least two bytes, with any seeds, stop
      inside it, in both of their scans. */
  lemma FreshBlockStays(size: nat, seed: S16, calls: seq<StateCall>, d: Data16, corruption: U8)
    requires size >= 2 && forall k :: 0 <= k < |calls| ==> exists e: Data16 :: calls[k].step == e.Step()
    ensures forall k :: 0 <= k < |calls| ==> calls[k].step > 0
    ensures var t := AfterCalls(InitText(size, seed), calls);
            Terminated(t, 0) && Terminated(Corrupted(t, d.Step(), corruption), 0)
  {
    forall k | 0 <= k < |calls|
      ensures calls[k].step > 0 && calls[k].step % 0x11 == 0
    {
      var e: Data16 :| calls[k].step == e.Step();
      StepMultiple(e);
    }
    StepMultiple(d);
    CallsStayTerminated(InitText(size, seed), calls, 0x11, d.Step(), corruption);
  }

  lemma LastIsZero(size: nat, seed: S16)
    requires size >= 1
    ensures InitText(size, seed)[size - 1] == 0
  {
  }

  /** The block need not come back, though: with 0x2c for both seeds, its last byte becomes a comma if it is touched, */
  lemma FreshBlockLost(size: nat, seed: S16, step: nat)
    requires size >= 1 && step > 0 && (size - 1) % step == 0
    ensures var t := InitText(size, seed); Corrupted(Corrupted(t, step, COMMA), step, COMMA) != t
  {
    LastIsZero(size, seed);
    ZeroLost(InitText(size, seed), step, size - 1);
  }

  /** as in a block of 647 bytes with the least step. */
  lemma LostExample(size: nat, seed: S16, step: nat)
    requires size == 647 && seed == 0x2c && step == 0x22
    ensures var t := InitText(size, seed); Corrupted(Corrupted(t, step, COMMA), step, COMMA) != t
  {
    FreshBlockLost(size, seed, step);
  }
}
