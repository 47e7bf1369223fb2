// core_state_transition: the number-recognizing state machine (benchmarks/coremark/core_state.c).

module StateScan {

  import opened Words

  const COMMA: U8 := 0x2c

  datatype State = Start | Invalid | S1 | S2 | Int | Float | Exponent | Scientific

  predicate Digit(c: U8) { 0x30 <= c <= 0x39 }
  predicate Sign(c: U8) { c == 0x2b || c == 0x2d }
  predicate Dot(c: U8) { c == 0x2e }
  predicate ExpMark(c: U8) { c == 0x45 || c == 0x65 }

  // ---- The machine

  function Step(s: State, c: U8): State {
    match s
    case Start => if Digit(c) then Int else if Sign(c) then S1 else if Dot(c) then Float else Invalid
    case S1 => if Digit(c) then Int else if Dot(c) then Float else Invalid
    case Int => if Dot(c) then Float else if Digit(c) then Int else Invalid
    case Float => if ExpMark(c) then S2 else if Digit(c) then Float else Invalid
    case S2 => if Sign(c) then Exponent else Invalid
    case Exponent => if Digit(c) then Scientific else Invalid
    case Scientific => if Digit(c) then Scientific else Invalid
    case Invalid => Invalid
  }

  /** The state after a word. */
  function Run(w: seq<U8>): State {
    if w == [] then Start else Step(Run(w[..|w| - 1]), w[|w| - 1])
  }

  // ---- The grammar

  predicate Digits(w: seq<U8>) { forall i :: 0 <= i < |w| ==> Digit(w[i]) }

  // a word without its sign, if it has one
  function Unsigned(w: seq<U8>): seq<U8> { if w != [] && Sign(w[0]) then w[1..] else w }

  /** sign? digit+ */
  predicate IsInt(w: seq<U8>) { Unsigned(w) != [] && Digits(Unsigned(w)) }

  /** digit* '.' digit* */
  predicate Mantissa(w: seq<U8>) { exists d :: 0 <= d < |w| && DotAt(w, d) }

  predicate DotAt(w: seq<U8>, d: nat)
    requires d < |w|
  {
    Dot(w[d]) && Digits(w[..d]) && Digits(w[d + 1..])
  }

  /** sign? digit* '.' digit* */
  predicate IsFloat(w: seq<U8>) { Mantissa(Unsigned(w)) }

  /** a float and its exponent mark; with the sign of the exponent; with at least one digit of it */
  predicate Marked(w: seq<U8>) { w != [] && ExpMark(w[|w| - 1]) && IsFloat(w[..|w| - 1]) }
  predicate SignedMark(w: seq<U8>) { w != [] && Sign(w[|w| - 1]) && Marked(w[..|w| - 1]) }
  predicate IsScientific(w: seq<U8>) { exists e :: 0 <= e < |w| && ExponentAt(w, e) }

  // the digits of the exponent start at e
  predicate ExponentAt(w: seq<U8>, e: nat)
    requires e < |w|
  {
    SignedMark(w[..e]) && Digits(w[e..])
  }

  /** What the states mean. */
  predicate Means(s: State, w: seq<U8>) {
    match s
    case Start => w == []
    case S1 => |w| == 1 && Sign(w[0])
    case Int => IsInt(w)
    case Float => IsFloat(w)
    case S2 => Marked(w)
    case Exponent => SignedMark(w)
    case Scientific => IsScientific(w)
    case Invalid =>
      && !IsInt(w) && !IsFloat(w) && !Marked(w) && !SignedMark(w) && !IsScientific(w)
      && w != [] && !(|w| == 1 && Sign(w[0]))
  }

  // Each kind of word, by its last byte
  lemma UnsignedSnoc(w: seq<U8>, c: U8)
    ensures Unsigned(w + [c]) == if w == [] && Sign(c) then [] else Unsigned(w) + [c]
  {
  }

  lemma DigitsSnoc(w: seq<U8>, c: U8)
    ensures Digits(w + [c]) <==> Digits(w) && Digit(c)
  {
    if Digits(w + [c]) {
      forall i | 0 <= i < |w|
        ensures Digit(w[i])
      {
        assert (w + [c])[i] == w[i];
      }
      assert (w + [c])[|w|] == c;
    }
  }

  lemma IntSnoc(w: seq<U8>, c: U8)
    ensures IsInt(w + [c]) <==> Digit(c) && (IsInt(w) || w == [] || (|w| == 1 && Sign(w[0])))
  {
    UnsignedSnoc(w, c);
    DigitsSnoc(Unsigned(w), c);
  }

  lemma DotSnoc(w: seq<U8>, c: U8, d: nat)
    requires d <= |w|
    ensures DotAt(w + [c], d) <==> if d < |w| then DotAt(w, d) && Digit(c) else Dot(c) && Digits(w)
  {
    var v := w + [c];
    if d < |w| {
      assert v[..d] == w[..d] && v[d + 1..] == w[d + 1..] + [c];
      DigitsSnoc(w[d + 1..], c);
    } else {
      assert v[..d] == w && v[d + 1..] == [];
    }
  }

  lemma MantissaSnoc(w: seq<U8>, c: U8)
    ensures Mantissa(w + [c]) <==> (Mantissa(w) && Digit(c)) || (Digits(w) && Dot(c))
  {
    var v := w + [c];
    DotSnoc(w, c, |w|);
    if Mantissa(v) {
      var d :| 0 <= d < |v| && DotAt(v, d);
      DotSnoc(w, c, d);
    }
    if Mantissa(w) && Digit(c) {
      var d :| 0 <= d < |w| && DotAt(w, d);
      DotSnoc(w, c, d);
    }
  }

  lemma FloatSnoc(w: seq<U8>, c: U8)
    ensures IsFloat(w + [c])
            <==> (IsFloat(w) && Digit(c)) || (Dot(c) && (IsInt(w) || w == [] || (|w| == 1 && Sign(w[0]))))
  {
    UnsignedSnoc(w, c);
    MantissaSnoc(Unsigned(w), c);
  }

  lemma ExponentSnoc(w: seq<U8>, c: U8, e: nat)
    requires e <= |w|
    ensures ExponentAt(w + [c], e) <==> Digit(c) && if e < |w| then ExponentAt(w, e) else SignedMark(w)
  {
    var v := w + [c];
    assert v[..e] == w[..e] && v[e..] == w[e..] + [c];
    DigitsSnoc(w[e..], c);
    if e == |w| {
      assert w[..e] == w;
    }
  }

  lemma ScientificSnoc(w: seq<U8>, c: U8)
    ensures IsScientific(w + [c]) <==> Digit(c) && (IsScientific(w) || SignedMark(w))
  {
    var v := w + [c];
    ExponentSnoc(w, c, |w|);
    if IsScientific(v) {
      var e :| 0 <= e < |v| && ExponentAt(v, e);
      ExponentSnoc(w, c, e);
    }
    if Digit(c) && IsScientific(w) {
      var e :| 0 <= e < |w| && ExponentAt(w, e);
      ExponentSnoc(w, c, e);
    }
  }

  // No word is of two kinds.
  lemma {:induction false} KindsDiffer(w: seq<U8>)
    ensures IsInt(w) ==> !IsFloat(w) && !Marked(w) && !SignedMark(w) && !IsScientific(w)
    ensures IsInt(w) ==> w != [] && !(|w| == 1 && Sign(w[0]))
    ensures IsFloat(w) ==> !Marked(w) && !SignedMark(w) && !IsScientific(w) && w != [] && !(|w| == 1 && Sign(w[0]))
    ensures Marked(w) ==> !SignedMark(w) && !IsScientific(w) && |w| > 1
    ensures SignedMark(w) ==> !IsScientific(w) && |w| > 1
    ensures IsScientific(w) ==> |w| > 1
  {
    if w != [] {
      var v, c := w[..|w| - 1], w[|w| - 1];
      assert w == v + [c];
      KindsDiffer(v);
      IntSnoc(v, c);
      FloatSnoc(v, c);
      ScientificSnoc(v, c);
    }
  }

  lemma StepMeans(s: State, w: seq<U8>, c: U8)
    requires Means(s, w)
    ensures Means(Step(s, c), w + [c])
  {
    var v := w + [c];
    assert v[..|v| - 1] == w;
    KindsDiffer(w);
    KindsDiffer(v);
    IntSnoc(w, c);
    FloatSnoc(w, c);
    ScientificSnoc(w, c);
  }

  /** The machine is in a state exactly after the words that the state means. */
  lemma {:induction false} RunMeans(w: seq<U8>, s: State)
    ensures Run(w) == s <==> Means(s, w)
  {
    KindsDiffer(w);
    if w != [] {
      var v, c := w[..|w| - 1], w[|w| - 1];
      assert w == v + [c];
      RunMeans(v, Run(v));
      StepMeans(Run(v), v, c);
    }
  }

  // ---- Tokens in a text

  ghost predicate Terminated(t: seq<U8>, p: nat) { exists e :: p <= e < |t| && t[e] == 0 }

  // the word that starts at p, and has reached n
  predicate Stops(t: seq<U8>, p: nat, n: nat)
    requires p <= n <= |t|
  {
    n == |t| || t[n] == 0 || t[n] == COMMA || Run(t[p..n]) == Invalid
  }

  function WordEnd(t: seq<U8>, p: nat, n: nat): (e: nat)
    requires p <= n <= |t|
    ensures n <= e <= |t| && Stops(t, p, e) && forall k :: n <= k < e ==> !Stops(t, p, k)
    decreases |t| - n
  {
    if Stops(t, p, n) then n else WordEnd(t, p, n + 1)
  }

  function Word(t: seq<U8>, p: nat): seq<U8>
    requires p <= |t|
  {
    t[p..WordEnd(t, p, p)]
  }

  /** A word has no comma and no zero byte in it. It ends at the end of the text, before one of these, or with the byte
      that makes it no number. */
  lemma WordMeans(t: seq<U8>, p: nat)
    requires p <= |t|
    ensures var e, w := WordEnd(t, p, p), Word(t, p);
            && (forall i :: 0 <= i < |w| ==> w[i] != 0x2c && w[i] != 0)
            && (e == |t| || t[e] == 0x2c || t[e] == 0 || Means(Invalid, w))
            && (forall k :: 0 <= k < |w| ==> !Means(Invalid, w[..k]))
  {
    var e, w := WordEnd(t, p, p), Word(t, p);
    RunMeans(w, Invalid);
    forall k | 0 <= k < |w|
      ensures !Means(Invalid, w[..k]) && w[k] != 0x2c && w[k] != 0
    {
      assert !Stops(t, p, p + k);
      assert w[..k] == t[p..p + k] && w[k] == t[p + k];
      RunMeans(w[..k], Invalid);
    }
  }

  /** A valid word takes the comma behind it along; an invalid one ends with its first offending byte. */
  function TokenEnd(t: seq<U8>, p: nat): (q: nat)
    requires p < |t| && t[p] != 0
    ensures p < q <= |t|
  {
    var n := WordEnd(t, p, p);
    assert t[p..p] == [];
    if Run(t[p..n]) != Invalid && n < |t| && t[n] == COMMA then n + 1 else n
  }

  // How often a word counts for a state: the source counts when it leaves a state, and twice for a bad start
  function StepTally(from: State, to: State, s: State): nat {
    match from
    case Start => if s == Start || (s == Invalid && to == Invalid) then 1 else 0
    case Int => if s == Int && to != Int then 1 else 0
    case Float => if s == Float && to != Float then 1 else 0
    case Scientific => if s == Invalid && to == Invalid then 1 else 0
    case Invalid => 0
    case _ => if s == from then 1 else 0
  }

  function Tally(w: seq<U8>, s: State): nat {
    if w == [] then 0 else Tally(w[..|w| - 1], s) + StepTally(Run(w[..|w| - 1]), Run(w), s)
  }

  // ---- The tallies, by the grammar

  /** The word is of this kind up to k, and its next byte takes it out of it. */
  predicate LeftAt(s: State, w: seq<U8>, k: nat)
    requires k < |w|
  {
    Means(s, w[..k]) && !Means(s, w[..k + 1])
  }

  /** The byte at k, the first one or one behind a scientific number, makes it no number. */
  predicate OffendsAt(w: seq<U8>, k: nat)
    requires k < |w|
  {
    Means(Invalid, w[..k + 1]) && (k == 0 || IsScientific(w[..k]))
  }

  ghost predicate Tallied(w: seq<U8>, s: State) {
    match s
    case Start => w != []
    case Invalid => exists k :: 0 <= k < |w| && OffendsAt(w, k)
    case Scientific => false
    case _ => exists k :: 0 <= k < |w| && LeftAt(s, w, k)
  }

  // The machine never comes back to a state that it has left.
  function Rank(s: State): nat {
    match s
    case Start => 0
    case S1 => 1
    case Int => 2
    case Float => 3
    case S2 => 4
    case Exponent => 5
    case Scientific => 6
    case Invalid => 7
  }

  lemma {:induction false} RankGrows(w: seq<U8>, k: nat)
    requires k <= |w|
    ensures Rank(Run(w[..k])) <= Rank(Run(w))
    decreases |w| - k
  {
    if k < |w| {
      PrefixStep(w, k);
      RankGrows(w, k + 1);
    } else {
      assert w[..k] == w;
    }
  }

  lemma PrefixStep(w: seq<U8>, k: nat)
    requires k < |w|
    ensures Run(w[..k + 1]) == Step(Run(w[..k]), w[k])
  {
    assert w[..k + 1][..k] == w[..k];
  }

  // The same by the states of the machine
  predicate RunLeft(s: State, w: seq<U8>, k: nat)
    requires k < |w|
  {
    Run(w[..k]) == s && Run(w[..k + 1]) != s
  }

  predicate RunOffends(w: seq<U8>, k: nat)
    requires k < |w|
  {
    Run(w[..k + 1]) == Invalid && Run(w[..k]) in {Start, Scientific}
  }

  // whether the step from k counts for a state
  predicate StepCounts(w: seq<U8>, s: State, k: nat)
    requires k < |w|
  {
    match s
    case Start => k == 0
    case Invalid => RunOffends(w, k)
    case Scientific => false
    case _ => RunLeft(s, w, k)
  }

  ghost predicate RunTallied(w: seq<U8>, s: State) { exists k :: 0 <= k < |w| && StepCounts(w, s, k) }

  lemma PrefixCounts(w: seq<U8>, s: State, k: nat)
    requires k + 1 < |w|
    ensures StepCounts(w, s, k) == StepCounts(w[..|w| - 1], s, k)
  {
    var v := w[..|w| - 1];
    assert w[..k] == v[..k] && w[..k + 1] == v[..k + 1];
  }

  lemma CountedBefore(w: seq<U8>, s: State)
    requires w != [] && RunTallied(w, s)
    ensures RunTallied(w[..|w| - 1], s) || StepCounts(w, s, |w| - 1)
  {
    var k :| 0 <= k < |w| && StepCounts(w, s, k);
    if k + 1 < |w| {
      PrefixCounts(w, s, k);
    }
  }

  // A state that was counted is not counted again.
  lemma CountedOnce(w: seq<U8>, s: State)
    requires w != [] && RunTallied(w[..|w| - 1], s)
    ensures RunTallied(w, s) && !StepCounts(w, s, |w| - 1)
  {
    var v := w[..|w| - 1];
    var k :| 0 <= k < |v| && StepCounts(v, s, k);
    PrefixCounts(w, s, k);
    PrefixStep(v, k);
    StepRank(Run(v[..k]), v[k]);
    RankGrows(v, k + 1);
  }

  lemma StepRank(s: State, c: U8)
    ensures Step(s, c) == s || Rank(Step(s, c)) > Rank(s)
    ensures s == Start ==> Step(s, c) != Start
  {
  }

  // the step that a word ends with
  lemma LastTally(w: seq<U8>, s: State)
    requires w != []
    ensures StepTally(Run(w[..|w| - 1]), Run(w), s) == if StepCounts(w, s, |w| - 1) then 1 else 0
  {
    var v, k := w[..|w| - 1], |w| - 1;
    assert w[..k] == v && w[..k + 1] == w;
    StepRank(Run(v), w[k]);
    OnlyStart(v);
  }

  lemma OnlyStart(v: seq<U8>)
    ensures Run(v) == Start <==> v == []
  {
    RunMeans(v, Start);
  }

  lemma {:induction false} TallyRuns(w: seq<U8>, s: State)
    ensures Tally(w, s) == if RunTallied(w, s) then 1 else 0
  {
    if w != [] {
      TallyRuns(w[..|w| - 1], s);
      LastTally(w, s);
      if RunTallied(w, s) {
        CountedBefore(w, s);
      }
      if RunTallied(w[..|w| - 1], s) {
        CountedOnce(w, s);
      }
    }
  }

  lemma LeftIsRun(s: State, w: seq<U8>, k: nat)
    requires k < |w|
    ensures LeftAt(s, w, k) <==> RunLeft(s, w, k)
  {
    RunMeans(w[..k], s);
    RunMeans(w[..k + 1], s);
  }

  lemma OffendsIsRun(w: seq<U8>, k: nat)
    requires k < |w|
    ensures OffendsAt(w, k) <==> RunOffends(w, k)
  {
    RunMeans(w[..k + 1], Invalid);
    RunMeans(w[..k], Scientific);
    RunMeans(w[..k], Start);
  }

  lemma TalliedRuns(w: seq<U8>, s: State)
    ensures Tallied(w, s) <==> RunTallied(w, s)
  {
    if s == Start {
      assert w != [] ==> StepCounts(w, s, 0);
    }
    forall k | 0 <= k < |w|
      ensures OffendsAt(w, k) <==> RunOffends(w, k)
      ensures LeftAt(s, w, k) <==> RunLeft(s, w, k)
    {
      OffendsIsRun(w, k);
      LeftIsRun(s, w, k);
    }
    if s == Invalid {
      assert forall k :: 0 <= k < |w| ==> (StepCounts(w, s, k) <==> OffendsAt(w, k));
    } else if s != Start && s != Scientific {
      assert forall k :: 0 <= k < |w| ==> (StepCounts(w, s, k) <==> LeftAt(s, w, k));
    }
  }

  /** Each state is counted at most once for a word: the start for every word but the empty one; a sign, an integer, a
      float, an exponent mark and its sign when the word goes on to something else; and an invalid word as such only if
      its first byte offends or one behind a scientific number does. */
  lemma TallyMeans(w: seq<U8>, s: State)
    ensures Tally(w, s) == if Tallied(w, s) then 1 else 0
  {
    TallyRuns(w, s);
    TalliedRuns(w, s);
  }

  // ---- The switch

  function Code(s: State): (k: nat)
    ensures k < 8
  {
    match s
    case Start => 0
    case Invalid => 1
    case S1 => 2
    case S2 => 3
    case Int => 4
    case Float => 5
    case Exponent => 6
    case Scientific => 7
  }

  // the counters after one more step
  ghost predicate Counted(counts: seq<nat>, before: seq<nat>, w: seq<U8>) {
    |counts| == |before| == 8 && forall s: State :: counts[Code(s)] == before[Code(s)] + Tally(w, s)
  }

  // the switch
  method Transit(state0: State, c: U8, counts: array<nat>) returns (state: State)
    requires counts.Length == 8
    modifies counts
    ensures state == Step(state0, c)
    ensures forall s: State :: counts[Code(s)] == old(counts[Code(s)]) + StepTally(state0, state, s)
  {
    state := state0;
    match state0
    case Start =>
      if Digit(c) {
        state := Int;
      } else if c == 0x2b || c == 0x2d {
        state := S1;
      } else if c == 0x2e {
        state := Float;
      } else {
        state := Invalid;
        counts[1] := counts[1] + 1;
      }
      counts[0] := counts[0] + 1;
    case S1 =>
      if Digit(c) {
        state := Int;
        counts[2] := counts[2] + 1;
      } else if c == 0x2e {
        state := Float;
        counts[2] := counts[2] + 1;
      } else {
        state := Invalid;
        counts[2] := counts[2] + 1;
      }
    case Int =>
      if c == 0x2e {
        state := Float;
        counts[4] := counts[4] + 1;
      } else if !Digit(c) {
        state := Invalid;
        counts[4] := counts[4] + 1;
      }
    case Float =>
      if c == 0x45 || c == 0x65 {
        state := S2;
        counts[5] := counts[5] + 1;
      } else if !Digit(c) {
        state := Invalid;
        counts[5] := counts[5] + 1;
      }
    case S2 =>
      if c == 0x2b || c == 0x2d {
        state := Exponent;
        counts[3] := counts[3] + 1;
      } else {
        state := Invalid;
        counts[3] := counts[3] + 1;
      }
    case Exponent =>
      if Digit(c) {
        state := Scientific;
        counts[6] := counts[6] + 1;
      } else {
        state := Invalid;
        counts[6] := counts[6] + 1;
      }
    case Scientific =>
      if !Digit(c) {
        state := Invalid;
        counts[1] := counts[1] + 1;
      }
    case Invalid =>
  }

  lemma RunSnoc(t: seq<U8>, p: nat, n: nat)
    requires p <= n < |t|
    ensures Run(t[p..n + 1]) == Step(Run(t[p..n]), t[n])
  {
    assert t[p..n + 1][..n - p] == t[p..n];
  }

  lemma CountedNext(t: seq<U8>, p: nat, n: nat, before: seq<nat>, counts: seq<nat>, next: seq<nat>)
    requires p <= n < |t| && Counted(counts, before, t[p..n]) && |next| == 8
    requires forall s: State :: next[Code(s)] == counts[Code(s)] + StepTally(Run(t[p..n]), Step(Run(t[p..n]), t[n]), s)
    ensures Counted(next, before, t[p..n + 1])
  {
    RunSnoc(t, p, n);
    assert t[p..n + 1][..n - p] == t[p..n];
  }

  /** core_state_transition: the state of the next word and where the next one starts, with its steps counted. */
  method CoreStateTransition(memblock: array<U8>, instr: nat, counts: array<nat>) returns (str: nat, state: State)
    requires Terminated(memblock[..], instr) && counts.Length == 8
    modifies counts
    ensures memblock[..] == old(memblock[..])
    ensures instr < memblock.Length && state == Run(Word(memblock[..], instr))
    ensures str == if memblock[instr] != 0 then TokenEnd(memblock[..], instr) else instr
    ensures Counted(counts[..], old(counts[..]), Word(memblock[..], instr))
  {
    ghost var t := memblock[..];
    ghost var e :| instr <= e < |t| && t[e] == 0;
    str, state := instr, Start;
    assert t[instr..instr] == [];
    while memblock[str] != 0 && state != Invalid
      invariant instr <= str <= e < memblock.Length && memblock[..] == t && state == Run(t[instr..str])
      invariant WordEnd(t, instr, instr) == WordEnd(t, instr, str)
      invariant Counted(counts[..], old(counts[..]), t[instr..str])
      decreases memblock.Length - str
    {
      var next := memblock[str];
      if next == COMMA {
        str := str + 1;
        break;
      }
      ghost var tallied := counts[..];
      RunSnoc(t, instr, str);
      state := Transit(state, next, counts);
      CountedNext(t, instr, str, old(counts[..]), tallied, counts[..]);
      str := str + 1;
    }
  }
}
