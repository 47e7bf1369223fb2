// Loops as functions: the state after n rounds.

module Loops {

  function Iterate<T>(next: (T, nat) -> T, start: T, n: nat): T {
    if n == 0 then start else next(Iterate(next, start, n - 1), n - 1)
  }

  // The states of a loop, one per round
  ghost predicate History<T>(h: seq<T>, next: (T, nat) -> T, start: T) {
    && h != [] && h[0] == start
    && forall k {:trigger h[k + 1]} :: 0 <= k < |h| - 1 ==> h[k + 1] == next(h[k], k)
  }

  lemma HistorySnoc<T>(h: seq<T>, next: (T, nat) -> T, start: T, x: T)
    requires History(h, next, start) && x == next(h[|h| - 1], |h| - 1)
    ensures History(h + [x], next, start)
  {
    var g := h + [x];
    forall k | 0 <= k < |g| - 1
      ensures g[k + 1] == next(g[k], k)
    {
      if k + 1 < |h| {
        assert h[k + 1] == next(h[k], k);
      }
    }
  }

  lemma {:induction false} HistorySteps<T>(h: seq<T>, next: (T, nat) -> T, start: T, n: nat)
    requires History(h, next, start) && n < |h|
    ensures h[n] == Iterate(next, start, n)
  {
    if n > 0 {
      HistorySteps(h, next, start, n - 1);
      var k := n - 1;
      assert h[k + 1] == next(h[k], k);
    }
  }
}
