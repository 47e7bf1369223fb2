// core_bench_state: the scanner's block is scanned, corrupted, scanned again and restored
// (benchmarks/coremark/core_state.c).

module StateBench {
  import opened Words
  import opened Loops
  import opened StateScan
  import Crc

  // ---- Scanning a block

  /** The words of a text up to its first zero byte, as the scanner cuts them. */
  function Tokens(t: seq<U8>, p: nat): seq<seq<U8>>
    decreases |t| - p
  {
    if p >= |t| || t[p] == 0 then [] else [Word(t, p)] + Tokens(t, TokenEnd(t, p))
  }

  function Finals(words: seq<seq<U8>>, s: State): nat {
    if words == [] then 0 else Finals(words[..|words| - 1], s) + if Run(words[|words| - 1]) == s then 1 else 0
  }

  function Tallies(words: seq<seq<U8>>, s: State): nat {
    if words == [] then 0 else Tallies(words[..|words| - 1], s) + Tally(words[|words| - 1], s)
  }

  /** Every word is counted in exactly one state. */
  lemma {:induction false} FinalsTotal(words: seq<seq<U8>>)
    ensures Finals(words, Start) + Finals(words, Invalid) + Finals(words, S1) + Finals(words, S2) + Finals(words, Int)
            + Finals(words, Float) + Finals(words, Exponent) + Finals(words, Scientific) == |words|
  {
    if words != [] {
      FinalsTotal(words[..|words| - 1]);
    }
  }

  // the two counter arrays after these words
  ghost predicate CountWords(final: seq<nat>, final0: seq<nat>, track: seq<nat>, track0: seq<nat>,
                             words: seq<seq<U8>>) {
    && |final| == |final0| == |track| == |track0| == 8
    && forall s: State ::
         && final[Code(s)] == final0[Code(s)] + Finals(words, s)
         && track[Code(s)] == track0[Code(s)] + Tallies(words, s)
  }

  lemma CountWordsNext(final: seq<nat>, final0: seq<nat>, track: seq<nat>, track0: seq<nat>, words: seq<seq<U8>>,
                       word: seq<U8>, final1: seq<nat>, track1: seq<nat>)
    requires CountWords(final, final0, track, track0, words) && Counted(track1, track, word)
    requires |final1| == 8 && final1 == final[Code(Run(word)) := final[Code(Run(word))] + 1]
    ensures CountWords(final1, final0, track1, track0, words + [word])
  {
    assert (words + [word])[..|words|] == words;
  }

  lemma CountWordsAppend(a: seq<nat>, b: seq<nat>, c: seq<nat>, d: seq<nat>, e: seq<nat>, f: seq<nat>, v: seq<seq<U8>>,
                         w: seq<seq<U8>>)
    requires CountWords(b, a, e, d, v) && CountWords(c, b, f, e, w)
    ensures CountWords(c, a, f, d, v + w)
  {
    forall s: State
      ensures c[Code(s)] == a[Code(s)] + Finals(v + w, s) && f[Code(s)] == d[Code(s)] + Tallies(v + w, s)
    {
      SumsAppend(v, w, s);
    }
  }

  lemma {:induction false} SumsAppend(v: seq<seq<U8>>, w: seq<seq<U8>>, s: State)
    ensures Finals(v + w, s) == Finals(v, s) + Finals(w, s) && Tallies(v + w, s) == Tallies(v, s) + Tallies(w, s)
  {
    if w == [] {
      assert v + w == v;
    } else {
      assert (v + w)[..|v + w| - 1] == v + w[..|w| - 1];
      SumsAppend(v, w[..|w| - 1], s);
    }
  }

  lemma TokensNext(t: seq<U8>, done: seq<seq<U8>>, p: nat)
    requires p < |t| && t[p] != 0 && Tokens(t, 0) == done + Tokens(t, p)
    ensures Tokens(t, 0) == done + [Word(t, p)] + Tokens(t, TokenEnd(t, p))
  {
    assert done + ([Word(t, p)] + Tokens(t, TokenEnd(t, p))) == done + [Word(t, p)] + Tokens(t, TokenEnd(t, p));
  }

  // A token does not run over a zero byte.
  lemma StillTerminated(t: seq<U8>, p: nat)
    requires Terminated(t, p) && t[p] != 0
    ensures Terminated(t, TokenEnd(t, p))
  {
    var e :| p <= e < |t| && t[e] == 0;
    assert Stops(t, p, e);
  }

  // the words up to the zero byte, each of them counted by its state
  method Scan(memblock: array<U8>, finals: array<nat>, tracks: array<nat>)
    requires Terminated(memblock[..], 0) && finals.Length == tracks.Length == 8 && finals != tracks
    modifies finals, tracks
    ensures memblock[..] == old(memblock[..])
    ensures CountWords(finals[..], old(finals[..]), tracks[..], old(tracks[..]), Tokens(memblock[..], 0))
  {
    ghost var t, done: seq<seq<U8>> := memblock[..], [];
    var p := 0;
    while memblock[p] != 0
      invariant p < memblock.Length && memblock[..] == t && Terminated(t, p) && Tokens(t, 0) == done + Tokens(t, p)
      invariant CountWords(finals[..], old(finals[..]), tracks[..], old(tracks[..]), done)
      decreases memblock.Length - p
    {
      ghost var finals0, tracks0 := finals[..], tracks[..];
      StillTerminated(t, p);
      TokensNext(t, done, p);
      var q, fstate := CoreStateTransition(memblock, p, tracks);
      finals[Code(fstate)] := finals[Code(fstate)] + 1;
      CountWordsNext(finals0, old(finals[..]), tracks0, old(tracks[..]), done, Word(t, p), finals[..], tracks[..]);
      done := done + [Word(t, p)];
      p := q;
    }
    assert done + [] == done;
  }

  // ---- Corruption

  function CorruptByte(b: U8, seed: U8): U8 { if b == COMMA then b else XorByte(b, seed) }

  /** The block with every step-th byte corrupted, commas excepted. */
  function Corrupted(t: seq<U8>, step: nat, seed: U8): (r: seq<U8>)
    requires step > 0
    ensures |r| == |t| && forall i :: 0 <= i < |t| ==> r[i] == if i % step == 0 then CorruptByte(t[i], seed) else t[i]
  {
    seq(|t|, i requires 0 <= i < |t| => if i % step == 0 then CorruptByte(t[i], seed) else t[i])
  }

  // Among the positions from one multiple of step to the next only the first one is a multiple.
  lemma Stride(step: nat, k: nat, i: nat)
    requires step * k <= i < step * k + step
    ensures i % step == 0 <==> i == step * k
  {
    QuotientUnique(step, k, i - step * k);
  }

  method Corrupt(memblock: array<U8>, step: nat, seed: U8)
    requires step > 0
    modifies memblock
    ensures memblock[..] == Corrupted(old(memblock[..]), step, seed)
  {
    ghost var t, k := memblock[..], 0;
    var p := 0;
    while p < memblock.Length
      invariant p == step * k
      invariant forall i :: 0 <= i < memblock.Length ==>
                memblock[i] == if i < p then Corrupted(t, step, seed)[i] else t[i]
    {
      forall i | p <= i < p + step
        ensures i % step == 0 <==> i == p
      {
        Stride(step, k, i);
      }
      if memblock[p] != COMMA {
        memblock[p] := XorByte(memblock[p], seed);
      }
      p := p + step;
      k := k + 1;
    }
  }

  /** Corrupting with one seed and then with another restores the block exactly if no byte is touched, or the
      seeds are equal and none of them turns a touched byte into a comma. */
  lemma RestoresExactly(t: seq<U8>, step: nat, seed1: U8, seed2: U8)
    requires step > 0
    ensures Corrupted(Corrupted(t, step, seed1), step, seed2) == t
       <==> forall i :: 0 <= i < |t| && i % step == 0 && t[i] != COMMA ==>
         seed1 == seed2 && XorByte(t[i], seed1) != COMMA
  {
    var once := Corrupted(t, step, seed1);
    var twice := Corrupted(once, step, seed2);
    forall i | 0 <= i < |t|
      ensures twice[i] == t[i] <==> (i % step == 0 && t[i] != COMMA ==> seed1 == seed2 && XorByte(t[i], seed1) != COMMA)
    {
      XorTwice(t[i], seed1, seed2);
    }
    if twice == t {
      forall i | 0 <= i < |t| && i % step == 0 && t[i] != COMMA
        ensures seed1 == seed2 && XorByte(t[i], seed1) != COMMA
      {
        assert twice[i] == t[i];
      }
    }
  }

  /** With 0x2c for both seeds, a zero byte that is touched becomes a comma and stays one. */
  lemma ZeroLost(t: seq<U8>, step: nat, i: nat)
    requires step > 0 && i < |t| && i % step == 0 && t[i] == 0
    ensures Corrupted(Corrupted(t, step, COMMA), step, COMMA)[i] == COMMA
  {
    XorNone(COMMA, 8);
    LowByte(COMMA);
  }

  /** Two zero bytes at the end outlive the corruption of at most one of them. */
  lemma StaysTerminated(t: seq<U8>, step: nat, seed: U8)
    requires |t| >= 2 && t[|t| - 1] == t[|t| - 2] == 0 && step >= 2
    ensures Terminated(t, 0) && Terminated(Corrupted(t, step, seed), 0)
  {
    var r, i := Corrupted(t, step, seed), |t| - 2;
    assert t[i] == 0;
    if i % step == 0 {
      QuotientUnique(step, i / step, 1);
      assert step * (i / step) == i;
      assert r[i + 1] == 0;
    } else {
      assert r[i] == 0;
    }
  }

  // ---- Call after call on one block

  datatype StateCall = StateCall(step: nat, seed1: U8, seed2: U8)

  /** The block after these calls: each leaves it corrupted with both of its seeds. */
  function AfterCalls(t: seq<U8>, calls: seq<StateCall>): (r: seq<U8>)
    requires forall k :: 0 <= k < |calls| ==> calls[k].step > 0
    ensures |r| == |t|
  {
    if calls == [] then t else
      var before, c := AfterCalls(t, calls[..|calls| - 1]), calls[|calls| - 1];
      Corrupted(Corrupted(before, c.step, c.seed1), c.step, c.seed2)
  }

  // No corruption at multiples of n reaches a byte that is not at one.
  lemma {:induction false} OthersStay(t: seq<U8>, calls: seq<StateCall>, n: nat, i: nat)
    requires n > 0 && i < |t| && i % n != 0
    requires forall k :: 0 <= k < |calls| ==> calls[k].step > 0 && calls[k].step % n == 0
    ensures AfterCalls(t, calls)[i] == t[i]
  {
    if calls != [] {
      OthersStay(t, calls[..|calls| - 1], n, i);
      NotMultiple(n, calls[|calls| - 1].step, i);
    }
  }

  lemma NotMultiple(n: nat, step: nat, i: nat)
    requires n > 0 && step > 0 && step % n == 0 && i % n != 0
    ensures i % step != 0
  {
    if i % step == 0 {
      var a: nat, b: nat := step / n, i / step;
      assert step == n * a && i == step * b;
      assert i == n * (a * b) + 0;
      QuotientUnique(n, a * b, 0);
    }
  }

  /** However many calls a block has been through, the next one's scans stop inside it, if it came with two zero
      bytes at its end and all steps are multiples of the same number, which is not 1. */
  lemma CallsStayTerminated(t: seq<U8>, calls: seq<StateCall>, n: nat, step: nat, seed: U8)
    requires |t| >= 2 && t[|t| - 1] == t[|t| - 2] == 0 && n >= 2 && step > 0 && step % n == 0
    requires forall k :: 0 <= k < |calls| ==> calls[k].step > 0 && calls[k].step % n == 0
    ensures var r := AfterCalls(t, calls); Terminated(r, 0) && Terminated(Corrupted(r, step, seed), 0)
  {
    var i := if (|t| - 1) % n == 0 then |t| - 2 else |t| - 1;
    if i == |t| - 2 {
      QuotientUnique(n, (|t| - 1) / n - 1, n - 1);
      assert |t| - 1 == n * ((|t| - 1) / n);
      assert n * ((|t| - 1) / n - 1) + (n - 1) == i;
    }
    OthersStay(t, calls, n, i);
    NotMultiple(n, step, i);
    var r := AfterCalls(t, calls);
    assert r[i] == 0 && Corrupted(r, step, seed)[i] == 0;
  }

  // ---- The benchmark

  function StateOf(k: nat): State
    requires k < 8
  {
    [Start, Invalid, S1, S2, Int, Float, Exponent, Scientific][k]
  }

  const ZEROS: seq<nat> := [0, 0, 0, 0, 0, 0, 0, 0]

  /** The CRC over the counters of these words. */
  function CountsCrc(words: seq<seq<U8>>, crc: nat): nat { Iterate(NextCount(words), crc, 8) }

  function NextCount(words: seq<seq<U8>>): (nat, nat) -> nat {
    (crc: nat, k: nat) => if k >= 8 then crc
      else Crc.Crc32(Tallies(words, StateOf(k)), Crc.Crc32(Finals(words, StateOf(k)), crc))
  }

  /** The counters of the first n states, by number: the words that ended in it, and then its steps. */
  function CountList(words: seq<seq<U8>>, n: nat): seq<nat>
    requires n <= 8
  {
    if n == 0 then [] else
      CountList(words, n - 1) + [Finals(words, StateOf(n - 1)), Tallies(words, StateOf(n - 1))]
  }

  function ListCrc(values: seq<nat>, crc: nat): nat {
    if values == [] then crc else Crc.Crc32(values[|values| - 1], ListCrc(values[..|values| - 1], crc))
  }

  lemma ListCrcTwo(values: seq<nat>, a: nat, b: nat, crc: nat)
    ensures ListCrc(values + [a, b], crc) == Crc.Crc32(b, Crc.Crc32(a, ListCrc(values, crc)))
  {
    var one, two := values + [a], values + [a, b];
    assert two[..|two| - 1] == one && one[..|one| - 1] == values;
  }

  lemma NextCountIs(words: seq<seq<U8>>, k: nat, crc: nat, before: nat)
    requires k < 8 && before == ListCrc(CountList(words, k), crc)
    ensures NextCount(words)(before, k) == ListCrc(CountList(words, k + 1), crc)
  {
    ListCrcTwo(CountList(words, k), Finals(words, StateOf(k)), Tallies(words, StateOf(k)), crc);
  }

  /** The counters enter the CRC in this order. */
  lemma CountsCrcIs(words: seq<seq<U8>>, crc: nat)
    ensures CountsCrc(words, crc) == ListCrc(CountList(words, 8), crc)
  {
    var next, r: nat := NextCount(words), crc;
    for k := 0 to 8
      invariant r == Iterate(next, crc, k) && r == ListCrc(CountList(words, k), crc)
    {
      NextCountIs(words, k, crc, r);
      r := next(r, k);
    }
  }

  lemma CodesCover(k: nat)
    requires k < 8
    ensures Code(StateOf(k)) == k
  {
  }

  // the two counters of state i
  method CrcOfState(final: nat, track: nat, i: nat, crc0: nat, ghost words: seq<seq<U8>>,
                    ghost next: (nat, nat) -> nat) returns (crc: nat)
    requires i < 8 && final == Finals(words, StateOf(i)) && track == Tallies(words, StateOf(i))
    requires next == NextCount(words)
    ensures crc == next(crc0, i)
  {
    crc := Crc.Crcu32(final, crc0);
    crc := Crc.Crcu32(track, crc);
  }

  lemma CountsAt(finals: seq<nat>, tracks: seq<nat>, words: seq<seq<U8>>, i: nat)
    requires CountWords(finals, ZEROS, tracks, ZEROS, words) && i < 8
    ensures finals[i] == Finals(words, StateOf(i)) && tracks[i] == Tallies(words, StateOf(i))
  {
    CodesCover(i);
    var s := StateOf(i);
    assert finals[Code(s)] == ZEROS[Code(s)] + Finals(words, s)
      && tracks[Code(s)] == ZEROS[Code(s)] + Tallies(words, s);
  }

  method CrcOfCounts(finals: array<nat>, tracks: array<nat>, crc0: nat, ghost words: seq<seq<U8>>,
                     ghost next: (nat, nat) -> nat) returns (crc: nat)
    requires CountWords(finals[..], ZEROS, tracks[..], ZEROS, words) && next == NextCount(words)
    ensures crc == Iterate(next, crc0, 8)
  {
    crc := crc0;
    var i := 0;
    while i < 8
      invariant 0 <= i <= 8 && crc == Iterate(next, crc0, i)
    {
      CountsAt(finals[..], tracks[..], words, i);
      crc := CrcOfState(finals[i], tracks[i], i, crc, words, next);
      i := i + 1;
    }
  }

  // both scans, with the corruption between them
  method ScanTwice(memblock: array<U8>, seed1: U8, step: nat)
    returns (finals: array<nat>, tracks: array<nat>, ghost words: seq<seq<U8>>)
    requires step > 0 && Terminated(memblock[..], 0) && Terminated(Corrupted(memblock[..], step, seed1), 0)
    modifies memblock
    ensures var t := old(memblock[..]); var u := Corrupted(t, step, seed1);
            memblock[..] == u && words == Tokens(t, 0) + Tokens(u, 0)
    ensures CountWords(finals[..], ZEROS, tracks[..], ZEROS, words)
  {
    ghost var t := memblock[..];
    finals, tracks := new nat[8](i => 0), new nat[8](i => 0);
    assert finals[..] == ZEROS && tracks[..] == ZEROS;
    Scan(memblock, finals, tracks);
    ghost var finals1, tracks1 := finals[..], tracks[..];
    Corrupt(memblock, step, seed1);
    Scan(memblock, finals, tracks);
    words := Tokens(t, 0) + Tokens(memblock[..], 0);
    CountWordsAppend(ZEROS, finals1, finals[..], ZEROS, tracks1, tracks[..], Tokens(t, 0), Tokens(memblock[..], 0));
  }

  /** core_bench_state: the CRC is that of the words of the block as it came and of the corrupted block, and the
      block is left corrupted with both seeds. */
  method CoreBenchState(memblock: array<U8>, seed1: U8, seed2: U8, step: nat, crc0: nat) returns (crc: nat)
    requires step > 0 && Terminated(memblock[..], 0) && Terminated(Corrupted(memblock[..], step, seed1), 0)
    modifies memblock
    ensures var t := old(memblock[..]); var u := Corrupted(t, step, seed1);
            memblock[..] == Corrupted(u, step, seed2) && crc == CountsCrc(Tokens(t, 0) + Tokens(u, 0), crc0)
  {
    var finals, tracks;
    ghost var words;
    finals, tracks, words := ScanTwice(memblock, seed1, step);
    ghost var f, r := finals[..], tracks[..];
    Corrupt(memblock, step, seed2);
    assert finals[..] == f && tracks[..] == r;
    crc := CrcOfCounts(finals, tracks, crc0, words, NextCount(words));
  }
}
