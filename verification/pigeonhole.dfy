/** Counting arguments over sets of numbers. */
module Pigeonholes {

  /** More than four numbers for each value of `slot`: five of them share a value. */
  lemma {:induction false} FiveShare(ts: set<nat>, slot: nat -> nat, n: nat) returns (five: set<nat>, s: nat)
    requires n > 0 && |ts| > 4 * n && forall t | t in ts :: slot(t) < n
    ensures s < n && |five| == 5 && five <= ts && forall t | t in five :: slot(t) == s
  {
    var here := set t | t in ts && slot(t) == n - 1;
    assert n == 1 ==> here == ts;
    if |here| >= 5 {
      s := n - 1;
      five := AnyFive(here);
    } else {
      assert |ts - here| == |ts| - |here|;
      five, s := FiveShare(ts - here, slot, n - 1);
    }
  }

  lemma {:induction false} AnyFive(ts: set<nat>) returns (five: set<nat>)
    requires |ts| >= 5
    ensures five <= ts && |five| == 5
  {
    five := ts;
    while |five| > 5
      invariant five <= ts && |five| >= 5
      decreases |five|
    {
      var t :| t in five;
      five := five - {t};
    }
  }

  /** A set laid out, each element once. */
  lemma {:induction false} LaidOut(ts: set<nat>) returns (row: seq<nat>)
    ensures |row| == |ts| && forall i :: 0 <= i < |row| ==> row[i] in ts
    ensures forall i, j :: 0 <= i < j < |row| ==> row[i] != row[j]
  {
    if ts == {} {
      row := [];
    } else {
      var t :| t in ts;
      var rest := LaidOut(ts - {t});
      row := rest + [t];
    }
  }

  lemma {:induction false} FirstNumbers(n: nat) returns (ts: set<nat>)
    ensures |ts| == n && forall t :: t in ts <==> 0 <= t < n
  {
    if n == 0 {
      ts := {};
    } else {
      var before := FirstNumbers(n - 1);
      ts := before + {n - 1};
    }
  }
}
