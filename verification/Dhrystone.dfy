// Dhrystone's timed loop and its table of final values (benchmarks/dhrystone/dhrystone.c, dhrystone_main.c).

module Dhrystone {

  datatype Enumeration = Ident1 | Ident2 | Ident3 | Ident4 | Ident5

  const SOME_STRING := "DHRYSTONE PROGRAM, SOME STRING"
  const STRING_1 := "DHRYSTONE PROGRAM, 1'ST STRING"
  const STRING_2 := "DHRYSTONE PROGRAM, 2'ND STRING"
  const STRING_3 := "DHRYSTONE PROGRAM, 3'RD STRING"

  class Rec {
    var ptrComp: Rec?
    var discr: Enumeration
    var enumComp: Enumeration
    var intComp: int
    var strComp: string

    constructor () {
      ptrComp := null;
    }

    // structassign
    method Assign(from: Rec)
      modifies this
      ensures ptrComp == old(from.ptrComp) && discr == old(from.discr) && enumComp == old(from.enumComp)
      ensures intComp == old(from.intComp) && strComp == old(from.strComp)
    {
      ptrComp, discr, enumComp, intComp, strComp := from.ptrComp, from.discr, from.enumComp, from.intComp, from.strComp;
    }
  }

  // strcmp, as far as its sign goes
  function Greater(a: string, b: string): bool {
    if a == [] then false
    else if b == [] then true
    else if a[0] != b[0] then a[0] > b[0]
    else Greater(a[1..], b[1..])
  }

  // The first difference decides.
  lemma {:induction false} GreaterAt(a: string, b: string, i: nat)
    requires i < |a| && i < |b| && a[..i] == b[..i] && a[i] != b[i]
    ensures Greater(a, b) <==> a[i] > b[i]
  {
    if i > 0 {
      assert a[0] == a[..i][0] == b[..i][0] == b[0];
      assert a[1..][..i - 1] == a[..i][1..] == b[..i][1..] == b[1..][..i - 1];
      GreaterAt(a[1..], b[1..], i - 1);
    }
  }

  lemma SamePrefix(p: string, a: string, b: string, x: string, y: string)
    requires x == p + a && y == p + b
    ensures x[..|p|] == y[..|p|] && |x| == |p| + |a| && |y| == |p| + |b|
    ensures (a != [] ==> x[|p|] == a[0]) && (b != [] ==> y[|p|] == b[0])
  {
  }

  lemma FirstIsSmaller(a: string, b: string)
    requires a == STRING_1 && b == STRING_2
    ensures !Greater(a, b)
  {
    var p, c, d := "DHRYSTONE PROGRAM, ", "1'ST STRING", "2'ND STRING";
    SamePrefix(p, c, d, a, b);
    GreaterAt(a, b, |p|);
  }

  lemma StringsDiffer(a: string, b: string)
    requires a == STRING_1 && b == STRING_2
    ensures |a| == |b| == 30 && a[2] != b[3]
  {
  }

  method Proc7(int1: int, int2: int) returns (r: int)
    ensures r == int1 + int2 + 2
  {
    var loc := int1 + 2;
    r := int2 + loc;
  }

  predicate Func3(e: Enumeration) { e == Ident3 }

  class Globals {
    const ptrGlob: Rec
    const nextPtrGlob: Rec
    const arr1: array<int>
    const arr2: array2<int>
    var intGlob: int
    var boolGlob: bool
    var ch1Glob: char
    var ch2Glob: char

    ghost predicate Shaped()
      reads this
    {
      ptrGlob != nextPtrGlob && arr1.Length == 50 && arr2.Length0 == arr2.Length1 == 50
    }

    // both records as the loop finds and leaves them, but for the values of the second one
    ghost predicate Linked()
      reads this, ptrGlob
    {
      && Shaped() && ptrGlob.ptrComp == nextPtrGlob
      && ptrGlob.discr == Ident1 && ptrGlob.enumComp == Ident3 && ptrGlob.strComp == SOME_STRING
    }

    constructor ()
      ensures fresh(ptrGlob) && fresh(nextPtrGlob) && fresh(arr1) && fresh(arr2)
      ensures Linked() && ptrGlob.intComp == 40 && arr2[8, 7] == 10
    {
      var next := new Rec();
      var ptr := new Rec();
      var a1, a2 := new int[50], new int[50, 50];
      ptr.ptrComp := next;
      ptr.discr := Ident1;
      ptr.enumComp := Ident3;
      ptr.intComp := 40;
      ptr.strComp := SOME_STRING;
      a2[8, 7] := 10;
      ptrGlob, nextPtrGlob, arr1, arr2 := ptr, next, a1, a2;
    }

    method Proc4()
      modifies `boolGlob, `ch2Glob
      ensures boolGlob == (ch1Glob == 'A' || old(boolGlob)) && ch2Glob == 'B'
    {
      var loc := ch1Glob == 'A';
      boolGlob := loc || boolGlob;
      ch2Glob := 'B';
    }

    method Proc5()
      modifies `boolGlob, `ch1Glob
      ensures ch1Glob == 'A' && !boolGlob
    {
      ch1Glob := 'A';
      boolGlob := false;
    }

    method Func1(ch1: char, ch2: char) returns (r: Enumeration)
      modifies `ch1Glob
      ensures r == (if ch1 == ch2 then Ident2 else Ident1) && ch1Glob == if ch1 == ch2 then ch1 else old(ch1Glob)
    {
      if ch1 != ch2 {
        return Ident1;
      } else {
        ch1Glob := ch1;
        return Ident2;
      }
    }

    /** The loop goes on for ever if the two characters are equal. */
    method Func2(str1: string, str2: string) returns (r: bool)
      requires |str1| > 2 && |str2| > 3 && str1[2] != str2[3]
      modifies `ch1Glob, `intGlob
      ensures r == Greater(str1, str2) && ch1Glob == old(ch1Glob) && intGlob == if r then 10 else old(intGlob)
    {
      var intLoc := 2;
      var chLoc: char := *;
      while intLoc <= 2
        invariant 2 <= intLoc <= 3 && ch1Glob == old(ch1Glob) && intGlob == old(intGlob)
        invariant (intLoc == 3 ==> chLoc == 'A')
        decreases 3 - intLoc
      {
        var e := Func1(str1[intLoc], str2[intLoc + 1]);
        if e == Ident1 {
          chLoc := 'A';
          intLoc := intLoc + 1;
        }
      }
      if 'W' <= chLoc < 'Z' {
        intLoc := 7;
      }
      if chLoc == 'R' {
        return true;
      }
      if Greater(str1, str2) {
        intLoc := intLoc + 7;
        intGlob := intLoc;
        return true;
      }
      return false;
    }

    method Proc6(value: Enumeration) returns (r: Enumeration)
      ensures r == match value
                   case Ident1 => Ident1
                   case Ident2 => if intGlob > 100 then Ident1 else Ident4
                   case Ident3 => Ident2
                   case Ident4 => Ident4
                   case Ident5 => Ident3
    {
      r := value;
      if !Func3(value) {
        r := Ident4;
      }
      match value
      case Ident1 => r := Ident1;
      case Ident2 => r := if intGlob > 100 then Ident1 else Ident4;
      case Ident3 => r := Ident2;
      case Ident4 =>
      case Ident5 => r := Ident3;
    }

    method Proc8(int1: int, int2: int)
      requires Shaped() && -4 <= int1 <= 14
      modifies this`intGlob, arr1, arr2
      ensures intGlob == 5
      ensures var n := int1 + 5;
              && arr1[n] == arr1[n + 1] == int2 && arr1[n + 30] == n && arr2[n + 20, n] == int2
              && arr2[n, n] == arr2[n, n + 1] == n && arr2[n, n - 1] == old(arr2[n, n - 1]) + 1
    {
      var n := int1 + 5;
      arr1[n] := int2;
      arr1[n + 1] := arr1[n];
      arr1[n + 30] := n;
      var index := n;
      while index <= n + 1
        invariant n <= index <= n + 2 && arr2[n, n - 1] == old(arr2[n, n - 1])
        invariant arr1[n] == int2 && arr1[n + 1] == int2 && arr1[n + 30] == n
        invariant (index > n ==> arr2[n, n] == n) && (index > n + 1 ==> arr2[n, n + 1] == n)
      {
        arr2[n, index] := n;
        index := index + 1;
      }
      arr2[n, n - 1] := arr2[n, n - 1] + 1;
      arr2[n + 20, n] := arr1[n];
      intGlob := 5;
    }

    // what Proc_3 stores through its pointer, and in the first record
    method Proc3() returns (ptrRef: Rec?)
      modifies ptrGlob`intComp
      ensures ptrRef == ptrGlob.ptrComp && ptrGlob.intComp == 12 + intGlob
    {
      ptrRef := ptrGlob.ptrComp;
      var r := Proc7(10, intGlob);
      ptrGlob.intComp := r;
    }

    /** Called with Ptr_Glob, so that three names stand for two records. */
    method Proc1(ptr: Rec)
      requires Shaped() && ptr == ptrGlob && ptrGlob.ptrComp == nextPtrGlob
      modifies ptrGlob, nextPtrGlob
      ensures ptrGlob.ptrComp == nextPtrGlob.ptrComp == nextPtrGlob
      ensures ptrGlob.discr == nextPtrGlob.discr == old(ptrGlob.discr) && ptrGlob.enumComp == old(ptrGlob.enumComp)
      ensures ptrGlob.strComp == nextPtrGlob.strComp == old(ptrGlob.strComp)
      ensures if old(ptrGlob.discr) == Ident1 then ptrGlob.intComp == 12 + intGlob && nextPtrGlob.intComp == 18
              else ptrGlob.intComp == nextPtrGlob.intComp == 5
      ensures old(ptrGlob.discr) == Ident1 && old(ptrGlob.enumComp) == Ident3 ==> nextPtrGlob.enumComp == Ident2
    {
      var next := ptr.ptrComp;
      next.Assign(ptrGlob);
      ptr.intComp := 5;
      next.intComp := ptr.intComp;
      next.ptrComp := ptr.ptrComp;
      var ref := Proc3();
      next.ptrComp := ref;
      if next.discr == Ident1 {
        next.intComp := 6;
        var e := Proc6(ptr.enumComp);
        next.enumComp := e;
        next.ptrComp := ptrGlob.ptrComp;
        var r := Proc7(next.intComp, 10);
        next.intComp := r;
      } else {
        ptr.Assign(next);
      }
    }

    /** The loop goes on for ever unless Ch_1_Glob is 'A'. */
    method Proc2(int0: int) returns (r: int)
      requires ch1Glob == 'A'
      ensures r == int0 + 9 - intGlob
    {
      r := int0;
      var intLoc := int0 + 10;
      var again := true;
      while again
        invariant if again then intLoc == int0 + 10 else r == int0 + 9 - intGlob
        decreases if again then 1 else 0
      {
        var enumLoc := Ident2;
        if ch1Glob == 'A' {
          intLoc := intLoc - 1;
          r := intLoc - intGlob;
          enumLoc := Ident1;
        }
        again := enumLoc != Ident1;
      }
    }
  }

  datatype Locals = Locals(int1: int, int2: int, int3: int, enumLoc: Enumeration, str2: string)

  /** The table of values that the variables should have in the end, but for Arr_2_Glob[8][7]. */
  ghost predicate Table(g: Globals, l: Locals)
    reads g, g.ptrGlob, g.nextPtrGlob, g.arr1
  {
    && g.Linked() && g.intGlob == 5 && g.boolGlob && g.ch1Glob == 'A' && g.ch2Glob == 'B' && g.arr1[8] == 7
    && g.ptrGlob.intComp == 17
    && g.nextPtrGlob.ptrComp == g.ptrGlob.ptrComp && g.nextPtrGlob.discr == Ident1 && g.nextPtrGlob.enumComp == Ident2
    && g.nextPtrGlob.intComp == 18 && g.nextPtrGlob.strComp == SOME_STRING
    && l == Locals(5, 13, 7, Ident2, STRING_2)
  }

  // the body of the loop over characters
  method CharStep(g: Globals, ch: char, runIndex: int, enum0: Enumeration, str0: string, int0: int)
    returns (enumLoc: Enumeration, str2: string, int2: int)
    modifies g`ch1Glob, g`intGlob
    ensures var found := enum0 == if ch == 'C' then Ident2 else Ident1;
            && g.ch1Glob == (if ch == 'C' then 'C' else old(g.ch1Glob))
            && g.intGlob == (if found then runIndex else old(g.intGlob))
            && (enumLoc, str2, int2) == if found then (Ident1, STRING_3, runIndex) else (enum0, str0, int0)
  {
    enumLoc, str2, int2 := enum0, str0, int0;
    var e := g.Func1(ch, 'C');
    if enumLoc == e {
      enumLoc := g.Proc6(Ident1);
      str2 := STRING_3;
      int2 := runIndex;
      g.intGlob := runIndex;
    }
  }

  // the loop over characters, up to 'B'
  method CharLoop(g: Globals, runIndex: int, enum0: Enumeration, str0: string, int0: int)
    returns (enumLoc: Enumeration, str2: string, int2: int)
    requires g.ch2Glob == 'B' && enum0 == Ident2
    modifies g`ch1Glob, g`intGlob
    ensures (enumLoc, str2, int2) == (enum0, str0, int0) && g.ch1Glob == old(g.ch1Glob) && g.intGlob == old(g.intGlob)
  {
    enumLoc, str2, int2 := enum0, str0, int0;
    var ch := 'A';
    while ch <= g.ch2Glob
      invariant 'A' <= ch <= 'C' && (enumLoc, str2, int2) == (enum0, str0, int0)
      invariant g.ch1Glob == old(g.ch1Glob) && g.intGlob == old(g.intGlob)
      decreases 'C' as int - ch as int
    {
      enumLoc, str2, int2 := CharStep(g, ch, runIndex, enumLoc, str2, int2);
      ch := ch + 1 as char;
    }
  }

  // the start of a run, up to Proc_8
  method RunStart(g: Globals) returns (int1: int, int2: int, int3: int, str2: string, enumLoc: Enumeration)
    requires g.Linked()
    modifies g
    ensures int1 == int2 == 3 && int3 == 7 && str2 == STRING_2 && enumLoc == Ident2
    ensures g.ch1Glob == 'A' && g.ch2Glob == 'B' && g.boolGlob
  {
    CompareStrings(g);
    int1, int2, int3 := 2, 3, 0;
    str2 := STRING_2;
    enumLoc := Ident2;
    while int1 < int2
      invariant (int1 == 2 || (int1 == 3 && int3 == 7)) && int2 == 3
      invariant g.ch1Glob == 'A' && g.ch2Glob == 'B' && g.boolGlob
    {
      int3 := 5 * int1 - int2;
      int3 := Proc7(int1, int2);
      int1 := int1 + 1;
    }
  }

  method CompareStrings(g: Globals)
    modifies g
    ensures g.ch1Glob == 'A' && g.ch2Glob == 'B' && g.boolGlob
  {
    g.Proc5();
    g.Proc4();
    var str1, str2 := STRING_1, STRING_2;
    StringsDiffer(str1, str2);
    FirstIsSmaller(str1, str2);
    var b := g.Func2(str1, str2);
    g.boolGlob := !b;
  }

  method RunOnce(g: Globals, runIndex: int) returns (l: Locals)
    requires g.Linked()
    modifies g, g.ptrGlob, g.nextPtrGlob, g.arr1, g.arr2
    ensures Table(g, l) && g.arr2[8, 7] == old(g.arr2[8, 7]) + 1
  {
    var int1, int2, int3, str2, enumLoc := RunStart(g);
    g.Proc8(int1, int3);
    g.Proc1(g.ptrGlob);
    enumLoc, str2, int2 := CharLoop(g, runIndex, enumLoc, str2, int2);
    int2 := int2 * int1;
    int1 := int2 / int3;
    int2 := 7 * (int2 - int3) - int1;
    int1 := g.Proc2(int1);
    l := Locals(int1, int2, int3, enumLoc, str2);
  }

  /** n >= 1 runs end in the table, and count themselves in Arr_2_Glob[8][7]. */
  method TimedLoop(g: Globals, n: nat) returns (l: Locals)
    requires g.Linked() && n >= 1
    modifies g, g.ptrGlob, g.nextPtrGlob, g.arr1, g.arr2
    ensures Table(g, l) && g.arr2[8, 7] == old(g.arr2[8, 7]) + n
  {
    var runIndex := 1;
    l := Locals(0, 0, 0, Ident1, []);
    while runIndex <= n
      invariant 1 <= runIndex <= n + 1 && g.Linked() && (runIndex > 1 ==> Table(g, l))
      invariant g.arr2[8, 7] == old(g.arr2[8, 7]) + runIndex - 1
    {
      l := RunOnce(g, runIndex);
      runIndex := runIndex + 1;
    }
  }

  // Ten times as many runs for every measurement that was too short
  function RunsAfter(n: nat, tooSmall: nat): nat
    decreases tooSmall
  {
    if tooSmall == 0 then n else RunsAfter(10 * n, tooSmall - 1)
  }

  function RunsInAll(n: nat, tooSmall: nat): nat
    decreases tooSmall
  {
    if tooSmall == 0 then n else n + RunsInAll(10 * n, tooSmall - 1)
  }

  /** main: the timed loop is repeated with more runs while it was too short to measure, `tooSmall` times. */
  method Measure(g: Globals, n: nat, tooSmall: nat) returns (l: Locals, runs: nat)
    requires g.Linked() && n >= 1
    modifies g, g.ptrGlob, g.nextPtrGlob, g.arr1, g.arr2
    ensures Table(g, l) && runs == RunsAfter(n, tooSmall) && g.arr2[8, 7] == old(g.arr2[8, 7]) + RunsInAll(n, tooSmall)
  {
    runs := n;
    var left := tooSmall;
    ghost var before := 0;
    while true
      invariant 0 <= left <= tooSmall && runs >= 1 && g.Linked() && g.arr2[8, 7] == old(g.arr2[8, 7]) + before
      invariant RunsAfter(runs, left) == RunsAfter(n, tooSmall)
      invariant before + RunsInAll(runs, left) == RunsInAll(n, tooSmall)
      decreases left
    {
      l := TimedLoop(g, runs);
      before := before + runs;
      if left == 0 {
        break;
      }
      runs := runs * 10;
      left := left - 1;
    }
  }

  /** "Arr_2_Glob[8][7] should be Number_Of_Runs + 10" holds exactly if the first measurement was long enough:
      the array is not set back before a repetition. */
  lemma ArrayRowHolds(n: nat, tooSmall: nat)
    requires n >= 1
    ensures 10 + RunsInAll(n, tooSmall) == RunsAfter(n, tooSmall) + 10 <==> tooSmall == 0
  {
    if tooSmall > 0 {
      MoreRuns(10 * n, tooSmall - 1);
    }
  }

  lemma {:induction false} MoreRuns(n: nat, tooSmall: nat)
    ensures RunsInAll(n, tooSmall) >= RunsAfter(n, tooSmall)
    decreases tooSmall
  {
    if tooSmall > 0 {
      MoreRuns(10 * n, tooSmall - 1);
    }
  }
}
