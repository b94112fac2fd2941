/**
 The sticky assignor on shares: `prior[i]` is what the i-th member, in sorted order, owned
 before (nothing for a newcomer) and `shares[i]` what it holds now. The three steps keep, fill
 and level are the ones `assign_sticky` runs on its `owned` map.
 */
module Sticky {
  import opened Sorting

  type Shares = seq<seq<nat>>

  function SortNats(s: seq<nat>): (r: seq<nat>)
    ensures |r| == |s| && multiset(r) == multiset(s)
  {
    Sort<nat>(NatLe, s)
  }

  // ---------------------------------------------------------------- the algorithm

  function Unclaimed(count: nat, claimed: multiset<nat>, s: seq<nat>): seq<nat> {
    if s == [] then []
    else
      var p := s[|s| - 1];
      Unclaimed(count, claimed, s[..|s| - 1]) + if p < count && p !in claimed then [p] else []
  }

  function Holdings(shares: Shares): multiset<nat> {
    if shares == [] then multiset{}
    else Holdings(shares[..|shares| - 1]) + multiset(shares[|shares| - 1])
  }

  /** Each member keeps what it owned, in member order, unless an earlier one claimed it. */
  function Keep(count: nat, prior: Shares): (shares: Shares)
    ensures |shares| == |prior|
  {
    if prior == [] then []
    else
      var before := Keep(count, prior[..|prior| - 1]);
      before + [SortNats(Unclaimed(count, Holdings(before), prior[|prior| - 1]))]
  }

  /** The partitions below `count` that nobody kept, in order. */
  function Pool(count: nat, claimed: multiset<nat>): seq<nat> {
    if count == 0 then []
    else Pool(count - 1, claimed) + if count - 1 !in claimed then [count - 1] else []
  }

  /** The first member with the fewest partitions. */
  function LeastLoaded(shares: Shares): (i: nat)
    requires shares != []
    ensures i < |shares|
    ensures forall j :: 0 <= j < |shares| ==> |shares[i]| <= |shares[j]|
    ensures forall j :: 0 <= j < i ==> |shares[i]| < |shares[j]|
  {
    if |shares| == 1 then 0
    else
      var last := |shares| - 1;
      var i := LeastLoaded(shares[..last]);
      assert forall j :: 0 <= j < last ==> shares[..last][j] == shares[j];
      if |shares[last]| < |shares[i]| then last else i
  }

  /** The first member with the most partitions. */
  function MostLoaded(shares: Shares): (i: nat)
    requires shares != []
    ensures i < |shares|
    ensures forall j :: 0 <= j < |shares| ==> |shares[j]| <= |shares[i]|
    ensures forall j :: 0 <= j < i ==> |shares[j]| < |shares[i]|
  {
    if |shares| == 1 then 0
    else
      var last := |shares| - 1;
      var i := MostLoaded(shares[..last]);
      assert forall j :: 0 <= j < last ==> shares[..last][j] == shares[j];
      if |shares[last]| > |shares[i]| then last else i
  }

  function Give(shares: Shares, i: nat, p: nat): Shares
    requires i < |shares|
  {
    shares[i := shares[i] + [p]]
  }

  function Fill(shares: Shares, pool: seq<nat>): (r: Shares)
    requires shares != []
    ensures |r| == |shares|
    decreases |pool|
  {
    if pool == [] then shares
    else Fill(Give(shares, LeastLoaded(shares), pool[0]), pool[1..])
  }

  /** The first held partition that `avoid` does not list, or the very first one. */
  function PickFrom(held: seq<nat>, avoid: seq<nat>): (i: nat)
    requires held != []
    ensures i < |held|
  {
    FirstOutside(held, avoid, 0)
  }

  function FirstOutside(held: seq<nat>, avoid: seq<nat>, from: nat): (i: nat)
    requires held != [] && from <= |held|
    ensures i < |held|
    decreases |held| - from
  {
    if from == |held| then 0
    else if held[from] !in avoid then from
    else FirstOutside(held, avoid, from + 1)
  }

  /** A levelling move takes the first partition its receiver did not own before, or else the very first. */
  lemma {:induction false} FirstOutsideIs(held: seq<nat>, avoid: seq<nat>, from: nat)
    requires held != [] && from <= |held| && forall j :: 0 <= j < from ==> held[j] in avoid
    ensures var i := FirstOutside(held, avoid, from);
            if exists j :: 0 <= j < |held| && held[j] !in avoid
            then held[i] !in avoid && forall j :: 0 <= j < i ==> held[j] in avoid
            else i == 0
    decreases |held| - from
  {
    if from < |held| && held[from] in avoid {
      FirstOutsideIs(held, avoid, from + 1);
    }
  }

  lemma PickFromIs(held: seq<nat>, avoid: seq<nat>)
    requires held != []
    ensures var i := PickFrom(held, avoid);
            if exists j :: 0 <= j < |held| && held[j] !in avoid
            then held[i] !in avoid && forall j :: 0 <= j < i ==> held[j] in avoid
            else i == 0
  {
    FirstOutsideIs(held, avoid, 0);
  }

  function Move(shares: Shares, hi: nat, lo: nat, k: nat): Shares
    requires hi < |shares| && lo < |shares| && k < |shares[hi]|
  {
    Give(shares[hi := shares[hi][..k] + shares[hi][k + 1..]], lo, shares[hi][k])
  }

  /** `n * n`, as the sum of the first `n` odd numbers. */
  function Square(n: nat): nat {
    if n == 0 then 0 else Square(n - 1) + 2 * n - 1
  }

  function SumSquares(shares: Shares): nat {
    if shares == [] then 0
    else SumSquares(shares[..|shares| - 1]) + Square(|shares[|shares| - 1]|)
  }

  predicate Level?(shares: Shares)
    requires shares != []
  {
    |shares[MostLoaded(shares)]| <= |shares[LeastLoaded(shares)]| + 1
  }

  function LevelStep(prior: Shares, shares: Shares): (r: Shares)
    requires shares != [] && |prior| == |shares| && !Level?(shares)
    ensures |r| == |shares|
  {
    var hi, lo := MostLoaded(shares), LeastLoaded(shares);
    Move(shares, hi, lo, PickFrom(shares[hi], prior[lo]))
  }

  function LevelOut(prior: Shares, shares: Shares): (r: Shares)
    requires shares != [] && |prior| == |shares|
    ensures |r| == |shares|
    decreases SumSquares(shares)
  {
    if Level?(shares) then shares
    else
      LevelStepDecreases(prior, shares);
      LevelOut(prior, LevelStep(prior, shares))
  }

  function SortEach(shares: Shares): (r: Shares)
    ensures |r| == |shares|
    ensures forall i :: 0 <= i < |r| ==> r[i] == SortNats(shares[i])
  {
    seq(|shares|, i requires 0 <= i < |shares| => SortNats(shares[i]))
  }

  function Filled(count: nat, prior: Shares): (r: Shares)
    requires prior != []
    ensures |r| == |prior|
  {
    Fill(Keep(count, prior), Pool(count, Holdings(Keep(count, prior))))
  }

  function Assign(count: nat, prior: Shares): (r: Shares)
    requires prior != []
    ensures |r| == |prior|
  {
    SortEach(LevelOut(prior, Filled(count, prior)))
  }

  // ---------------------------------------------------------------- sums over shares

  lemma {:induction false} SumSquaresUpdate(shares: Shares, i: nat, s: seq<nat>)
    requires i < |shares|
    ensures SumSquares(shares[i := s]) + Square(|shares[i]|) == SumSquares(shares) + Square(|s|)
  {
    var last := |shares| - 1;
    if i == last {
      assert shares[i := s][..last] == shares[..last];
    } else {
      SumSquaresUpdate(shares[..last], i, s);
      assert shares[i := s][..last] == shares[..last][i := s];
    }
  }

  lemma {:induction false} HoldingsUpdate(shares: Shares, i: nat, s: seq<nat>)
    requires i < |shares|
    ensures Holdings(shares[i := s]) + multiset(shares[i]) == Holdings(shares) + multiset(s)
  {
    var last := |shares| - 1;
    if i == last {
      assert shares[i := s][..last] == shares[..last];
    } else {
      HoldingsUpdate(shares[..last], i, s);
      assert shares[i := s][..last] == shares[..last][i := s];
      var after, before, tail := Holdings(shares[..last][i := s]), Holdings(shares[..last]), multiset(shares[last]);
      assert (after + tail) + multiset(shares[i]) == (after + multiset(shares[i])) + tail;
      assert (before + tail) + multiset(s) == (before + multiset(s)) + tail;
    }
  }

  lemma SquareSteps(n: nat)
    ensures Square(n + 1) == Square(n) + 2 * n + 1
  {
  }

  lemma ShiftSumSquares(shares: Shares, hi: nat, lo: nat, left: seq<nat>, grown: seq<nat>)
    requires hi < |shares| && lo < |shares| && hi != lo
    requires |left| + 1 == |shares[hi]| && |grown| == |shares[lo]| + 1
    ensures SumSquares(shares[hi := left][lo := grown]) + 2 * |shares[hi]| - 1
            == SumSquares(shares) + 2 * |shares[lo]| + 1
  {
    SumSquaresUpdate(shares, hi, left);
    SumSquaresUpdate(shares[hi := left], lo, grown);
    SquareSteps(|left|);
    SquareSteps(|shares[lo]|);
  }

  /** Every levelling move strictly lowers the sum of squared counts. */
  lemma LevelStepDecreases(prior: Shares, shares: Shares)
    requires shares != [] && |prior| == |shares| && !Level?(shares)
    ensures SumSquares(LevelStep(prior, shares)) < SumSquares(shares)
  {
    var hi, lo := MostLoaded(shares), LeastLoaded(shares);
    var k := PickFrom(shares[hi], prior[lo]);
    var left := shares[hi][..k] + shares[hi][k + 1..];
    ShiftSumSquares(shares, hi, lo, left, shares[lo] + [shares[hi][k]]);
  }

  // ---------------------------------------------------------------- exactly once, and balanced

  /** Every partition below `count` is held once over all members, and nothing else is held. */
  ghost predicate ExactlyOnce(count: nat, shares: Shares) {
    forall p: nat :: Holdings(shares)[p] == if p < count then 1 else 0
  }

  predicate Balanced(shares: Shares) {
    forall i, j :: 0 <= i < |shares| && 0 <= j < |shares| ==> |shares[i]| <= |shares[j]| + 1
  }

  /** How often the first member that listed partition `p` listed it. */
  function Claims(prior: Shares, p: nat): nat {
    if prior == [] then 0
    else
      var earlier := Claims(prior[..|prior| - 1], p);
      if earlier > 0 then earlier else multiset(prior[|prior| - 1])[p]
  }

  lemma {:induction false} UnclaimedCount(count: nat, claimed: multiset<nat>, s: seq<nat>, p: nat)
    ensures multiset(Unclaimed(count, claimed, s))[p]
            == if p < count && p !in claimed then multiset(s)[p] else 0
  {
    if s != [] {
      UnclaimedCount(count, claimed, s[..|s| - 1], p);
      assert s == s[..|s| - 1] + [s[|s| - 1]];
    }
  }

  lemma {:induction false} KeepHolds(count: nat, prior: Shares, p: nat)
    ensures Holdings(Keep(count, prior))[p] == if p < count then Claims(prior, p) else 0
  {
    if prior != [] {
      var last := |prior| - 1;
      var before := Keep(count, prior[..last]);
      KeepHolds(count, prior[..last], p);
      UnclaimedCount(count, Holdings(before), prior[last], p);
      assert Keep(count, prior)[..last] == before;
    }
  }

  lemma {:induction false} PoolHolds(count: nat, claimed: multiset<nat>, p: nat)
    ensures multiset(Pool(count, claimed))[p] == if p < count && p !in claimed then 1 else 0
  {
    if count > 0 {
      PoolHolds(count - 1, claimed, p);
      assert multiset([count - 1])[p] == if p == count - 1 then 1 else 0;
    }
  }

  lemma GiveHolds(shares: Shares, i: nat, p: nat)
    requires i < |shares|
    ensures Holdings(Give(shares, i, p)) == Holdings(shares) + multiset{p}
  {
    HoldingsUpdate(shares, i, shares[i] + [p]);
    var h, h', own := Holdings(shares), Holdings(Give(shares, i, p)), multiset(shares[i]);
    assert multiset(shares[i] + [p]) == own + multiset{p};
    assert h' + own == (h + multiset{p}) + own;
    forall x: nat
      ensures h'[x] == (h + multiset{p})[x]
    {
      assert (h' + own)[x] == h'[x] + own[x];
    }
  }

  lemma {:induction false} FillHolds(shares: Shares, pool: seq<nat>)
    requires shares != []
    ensures Holdings(Fill(shares, pool)) == Holdings(shares) + multiset(pool)
    decreases |pool|
  {
    if pool != [] {
      var given := Give(shares, LeastLoaded(shares), pool[0]);
      GiveHolds(shares, LeastLoaded(shares), pool[0]);
      FillHolds(given, pool[1..]);
      assert pool == [pool[0]] + pool[1..];
    }
  }

  lemma MoveHolds(shares: Shares, hi: nat, lo: nat, k: nat)
    requires hi < |shares| && lo < |shares| && k < |shares[hi]|
    ensures Holdings(Move(shares, hi, lo, k)) == Holdings(shares)
  {
    var held, p := shares[hi], shares[hi][k];
    var left := held[..k] + held[k + 1..];
    var taken := shares[hi := left];
    assert held == held[..k] + [p] + held[k + 1..];
    assert multiset(held) == multiset(left) + multiset{p};
    HoldingsUpdate(shares, hi, left);
    GiveHolds(taken, lo, p);
    var h, h' := Holdings(shares), Holdings(taken);
    forall x: nat
      ensures (h' + multiset{p})[x] == h[x]
    {
      assert (h' + multiset(held))[x] == (h + multiset(left))[x];
    }
  }

  lemma {:induction false} LevelOutHolds(prior: Shares, shares: Shares)
    requires shares != [] && |prior| == |shares|
    ensures Holdings(LevelOut(prior, shares)) == Holdings(shares)
    ensures Level?(LevelOut(prior, shares))
    decreases SumSquares(shares)
  {
    if !Level?(shares) {
      var hi, lo := MostLoaded(shares), LeastLoaded(shares);
      MoveHolds(shares, hi, lo, PickFrom(shares[hi], prior[lo]));
      LevelStepDecreases(prior, shares);
      LevelOutHolds(prior, LevelStep(prior, shares));
    }
  }

  lemma {:induction false} SortEachHolds(shares: Shares)
    ensures Holdings(SortEach(shares)) == Holdings(shares)
  {
    if shares != [] {
      var last := |shares| - 1;
      SortEachHolds(shares[..last]);
      assert SortEach(shares)[..last] == SortEach(shares[..last]);
    }
  }

  /** How many times the result hands out a partition, for every input whatsoever. */
  lemma Multiplicity(count: nat, prior: Shares, p: nat)
    requires prior != []
    ensures Holdings(Assign(count, prior))[p]
            == if p >= count then 0 else if Claims(prior, p) > 0 then Claims(prior, p) else 1
  {
    var kept := Keep(count, prior);
    KeepHolds(count, prior, p);
    PoolHolds(count, Holdings(kept), p);
    FillHolds(kept, Pool(count, Holdings(kept)));
    LevelOutHolds(prior, Filled(count, prior));
    SortEachHolds(LevelOut(prior, Filled(count, prior)));
  }

  /** Every partition goes out exactly once iff no first claimant listed one of them twice. */
  lemma ExactlyOnceIff(count: nat, prior: Shares)
    requires prior != []
    ensures ExactlyOnce(count, Assign(count, prior)) <==> forall p: nat :: p < count ==> Claims(prior, p) <= 1
  {
    if p: nat :| p < count && Claims(prior, p) > 1 {
      Multiplicity(count, prior, p);
    } else {
      forall p: nat
        ensures Holdings(Assign(count, prior))[p] == if p < count then 1 else 0
      {
        Multiplicity(count, prior, p);
      }
    }
  }

  /** A sole member that lists its partition twice is handed it twice. */
  lemma RepeatedClaimIsHandedOutTwice()
    ensures Holdings(Assign(1, [[0, 0]]))[0] == 2
    ensures !ExactlyOnce(1, Assign(1, [[0, 0]]))
  {
    Multiplicity(1, [[0, 0]], 0);
    assert [[0, 0]][..0] == [];
    assert Claims([[0, 0]], 0) == multiset([0, 0])[0] == 2;
  }

  lemma {:induction false} DistinctListsClaimOnce(prior: Shares, p: nat)
    requires forall s <- prior :: Distinct(s)
    ensures Claims(prior, p) <= 1
  {
    if prior != [] {
      var last := prior[|prior| - 1];
      DistinctListsClaimOnce(prior[..|prior| - 1], p);
      DistinctCounts(last);
      assert p !in last ==> multiset(last)[p] == 0;
    }
  }

  /** With lists that repeat nothing (overlaps allowed), the assignment is an exact cover. */
  lemma CoversOnce(count: nat, prior: Shares)
    requires prior != [] && forall s <- prior :: Distinct(s)
    ensures ExactlyOnce(count, Assign(count, prior))
  {
    forall p: nat | p < count
      ensures Claims(prior, p) <= 1
    {
      DistinctListsClaimOnce(prior, p);
    }
    ExactlyOnceIff(count, prior);
  }

  /** For every input, counts differ by at most one. */
  lemma AssignBalanced(count: nat, prior: Shares)
    requires prior != []
    ensures Balanced(Assign(count, prior))
  {
    LevelOutHolds(prior, Filled(count, prior));
  }
}
