/**
 * The "unchanged count" used by the extension's scroll loops
 * (js/scanner.js `unsaveAll`, content.js `scrollAndCollectPostIds`):
 * after each round a signal (a scroll height, a card count) is read;
 * when it equals the previously recorded value the counter grows,
 * otherwise it is reset to 0 and the new value is recorded. The
 * recorded value starts at 0.
 */
module Quiescence {

  /** The value recorded before round `j` of the signal log `xs`. */
  function Prev(xs: seq<int>, j: nat): int
    requires j <= |xs|
  {
    if j == 0 then 0 else xs[j - 1]
  }

  /** The counter after every round of `xs`. */
  function Unchanged(xs: seq<int>): (u: nat)
    ensures u <= |xs|
  {
    if |xs| == 0 then 0
    else if xs[|xs| - 1] == Prev(xs, |xs| - 1) then Unchanged(xs[..|xs| - 1]) + 1
    else 0
  }

  /** One update of the counter: the source's `if (cur === last) n++; else { n = 0; last = cur; }`. */
  lemma UnchangedStep(xs: seq<int>, x: int)
    ensures Unchanged(xs + [x]) == if x == Prev(xs, |xs|) then Unchanged(xs) + 1 else 0
  {
    assert (xs + [x])[..|xs|] == xs;
  }

  /**
   * The counter is at least `m` exactly when each of the last `m`
   * readings equals the one before it.
   */
  lemma {:induction false} UnchangedIffStable(xs: seq<int>, m: nat)
    ensures Unchanged(xs) >= m <==>
      m <= |xs| && forall j :: |xs| - m <= j < |xs| ==> xs[j] == Prev(xs, j)
    decreases |xs|
  {
    if m == 0 || |xs| == 0 {
    } else {
      var n := |xs| - 1;
      var ys := xs[..n];
      assert forall j :: 0 <= j <= n ==> Prev(ys, j) == Prev(xs, j);
      UnchangedIffStable(ys, m - 1);
      if xs[n] == Prev(xs, n) {
        assert Unchanged(xs) == Unchanged(ys) + 1;
      } else {
        assert Unchanged(xs) == 0;
      }
    }
  }
}
