/** Sizes of sets and of sequences without repetition. */
module Sizes {
  import opened Sorting

  ghost function SetOf(s: seq<nat>): set<nat> {
    set p | p in s
  }

  lemma {:induction false} SetOfDistinct(s: seq<nat>)
    requires Distinct(s)
    ensures |SetOf(s)| == |s|
  {
    if s != [] {
      SetOfDistinct(s[1..]);
      assert SetOf(s) == SetOf(s[1..]) + {s[0]};
    }
  }

  lemma {:induction false} SubsetSize<T>(x: set<T>, y: set<T>)
    requires x <= y
    ensures |x| <= |y|
  {
    if x != {} {
      var e :| e in x;
      SubsetSize(x - {e}, y - {e});
    }
  }

  lemma {:induction false} SmallCount(s: set<nat>, n: nat)
    requires forall x :: x in s ==> x < n
    ensures |s| <= n
  {
    if n > 0 {
      SmallCount(s - {n - 1}, n - 1);
    } else {
      assert s == {};
    }
  }

  /** Distinct numbers below `n` are at most `n` many. */
  lemma Pigeonhole(picks: seq<nat>, n: nat)
    requires Distinct(picks) && forall i :: 0 <= i < |picks| ==> picks[i] < n
    ensures |picks| <= n
  {
    SetOfDistinct(picks);
    SmallCount(SetOf(picks), n);
  }
}
