// Sums of numbers and how they move when one term changes. They count who holds which chunk and
// which socket, and how many bytes are under way.
module Bags {

  lemma {:induction false} RemoveAt<T>(s: seq<T>, i: nat)
    requires i < |s|
    ensures multiset(s[..i] + s[i + 1..]) == multiset(s) - multiset{s[i]}
    ensures s[i] in multiset(s)
  {
    assert s == s[..i] + [s[i]] + s[i + 1..];
  }

  // ----- sums of numbers -----

  function Sum(s: seq<nat>): nat {
    if s == [] then 0 else Sum(s[..|s| - 1]) + s[|s| - 1]
  }

  lemma {:induction false} SumAppend(s: seq<nat>, v: nat)
    ensures Sum(s + [v]) == Sum(s) + v
  {
    assert (s + [v])[..|s|] == s;
  }

  lemma {:induction false} SumUpdate(s: seq<nat>, i: nat, v: nat)
    requires i < |s|
    ensures s[i] <= Sum(s)
    ensures Sum(s[i := v]) == Sum(s) - s[i] + v
  {
    var n := |s| - 1;
    if i == n {
      assert s[i := v][..n] == s[..n];
    } else {
      SumUpdate(s[..n], i, v);
      assert s[i := v][..n] == s[..n][i := v];
    }
  }

  /** Two different terms are both in the sum. */
  lemma {:induction false} SumPair(s: seq<nat>, i: nat, j: nat)
    requires i < j < |s|
    ensures s[i] + s[j] <= Sum(s)
  {
    SumUpdate(s, j, 0);
    SumUpdate(s[j := 0], i, 0);
  }

  /** If every term is at most `m` times its mark, so is the sum. */
  lemma {:induction false} SumScaled(s: seq<nat>, marks: seq<nat>, m: nat)
    requires |s| == |marks|
    requires forall i :: 0 <= i < |s| ==> s[i] <= m * marks[i]
    ensures Sum(s) <= m * Sum(marks)
  {
    if s != [] {
      var n := |s| - 1;
      SumScaled(s[..n], marks[..n], m);
      assert m * Sum(marks) == m * Sum(marks[..n]) + m * marks[n];
    }
  }
}
