/**
 Sums over a sequence of process states. Every protocol in this project
 counts its workers by what they are doing, and every step replaces the state of one worker.
 */
module Sums {

  function One(b: bool): nat {
    if b then 1 else 0
  }

  function Sum<T>(s: seq<T>, f: T -> nat): nat {
    if s == [] then 0 else f(s[0]) + Sum(s[1..], f)
  }

  /** Replacing one element moves the sum by the difference of the two weights. */
  lemma {:induction false} SumUpdate<T>(s: seq<T>, i: nat, x: T, f: T -> nat)
    requires i < |s|
    ensures Sum(s[i := x], f) + f(s[i]) == Sum(s, f) + f(x)
  {
    if i == 0 {
      assert s[i := x][1..] == s[1..];
    } else {
      assert s[i := x][1..] == s[1..][i - 1 := x];
      SumUpdate(s[1..], i - 1, x, f);
    }
  }

  lemma {:induction false} SumAtLeast<T>(s: seq<T>, i: nat, f: T -> nat)
    requires i < |s|
    ensures f(s[i]) <= Sum(s, f)
  {
    if i == 0 {
    } else {
      SumAtLeast(s[1..], i - 1, f);
    }
  }

  lemma {:induction false} SumAtMost<T>(s: seq<T>, f: T -> nat, bound: nat)
    requires forall i :: 0 <= i < |s| ==> f(s[i]) <= bound
    ensures Sum(s, f) <= bound * |s|
  {
    if s == [] {
    } else {
      SumAtMost(s[1..], f, bound);
    }
  }

  lemma {:induction false} SumZero<T>(s: seq<T>, f: T -> nat)
    ensures Sum(s, f) == 0 <==> forall i :: 0 <= i < |s| ==> f(s[i]) == 0
  {
    if s == [] {
    } else {
      SumZero(s[1..], f);
      assert forall i :: 1 <= i < |s| ==> s[i] == s[1..][i - 1];
    }
  }

  /** Two different elements contribute separately. */
  lemma {:induction false} SumAtLeastTwo<T>(s: seq<T>, i: nat, j: nat, f: T -> nat)
    requires i < j < |s|
    ensures f(s[i]) + f(s[j]) <= Sum(s, f)
  {
    if i == 0 {
      SumAtLeast(s[1..], j - 1, f);
    } else {
      SumAtLeastTwo(s[1..], i - 1, j - 1, f);
    }
  }
}
