// Sequences in pieces.

module Sequences {

  function Concat<T>(parts: seq<seq<T>>): seq<T> {
    if parts == [] then [] else Concat(parts[..|parts| - 1]) + parts[|parts| - 1]
  }

  lemma ConcatNext<T>(parts: seq<seq<T>>, i: nat)
    requires i < |parts|
    ensures Concat(parts[..i + 1]) == Concat(parts[..i]) + parts[i]
  {
    assert parts[..i + 1][..i] == parts[..i];
  }

  lemma Regroup<T>(a: seq<T>, b: seq<T>, c: seq<T>)
    ensures a + b + c == a + (b + c)
  {
  }

  lemma {:induction false} ConcatAppend<T>(a: seq<seq<T>>, b: seq<seq<T>>)
    ensures Concat(a + b) == Concat(a) + Concat(b)
  {
    if b == [] {
      assert a + b == a;
    } else {
      var init, last := b[..|b| - 1], b[|b| - 1];
      assert (a + b)[..|a + b| - 1] == a + init;
      ConcatAppend(a, init);
      Regroup(Concat(a), Concat(init), last);
    }
  }

  lemma ConcatOne<T>(part: seq<T>)
    ensures Concat([part]) == part
  {
    assert [part][..0] == [];
  }

  lemma ConcatFirst<T>(first: seq<T>, parts: seq<seq<T>>)
    ensures Concat([first] + parts) == first + Concat(parts)
  {
    ConcatAppend([first], parts);
    ConcatOne(first);
  }

  // ---- Counting

  ghost function Count<T>(s: seq<T>, x: T): nat {
    if s == [] then 0 else Count(s[..|s| - 1], x) + if s[|s| - 1] == x then 1 else 0
  }

  lemma {:induction false} CountAppend<T>(a: seq<T>, b: seq<T>, x: T)
    ensures Count(a + b, x) == Count(a, x) + Count(b, x)
  {
    if b == [] {
      assert a + b == a;
    } else {
      assert (a + b)[..|a + b| - 1] == a + b[..|b| - 1];
      CountAppend(a, b[..|b| - 1], x);
    }
  }

  lemma CountOne<T>(x: T, y: T)
    ensures Count([x], y) == if x == y then 1 else 0
  {
    assert [x][..0] == [];
  }

  lemma CountTwo<T>(x: T, y: T, z: T)
    ensures Count([x, y], z) == (if x == z then 1 else 0) + if y == z then 1 else 0
  {
    CountAppend([x], [y], z);
    CountOne(x, z);
    CountOne(y, z);
    assert [x] + [y] == [x, y];
  }
}
