/**
 Stickiness: among all balanced assignments that hand every partition out exactly once, the
 sticky assignor's leaves the most partitions with the member that owned them before.
 */
module StickyOptimal {
  import opened Sorting
  import opened Sizes
  import opened Sticky

  /** A previous assignment as a group really holds one: no partition twice, none shared. */
  predicate Consistent(prior: Shares) {
    && (forall i :: 0 <= i < |prior| ==> Distinct(prior[i]))
    && (forall i, j, p :: 0 <= i < |prior| && 0 <= j < |prior| && i != j && p in prior[i] ==> p !in prior[j])
  }

  ghost function Common(a: seq<nat>, b: seq<nat>): set<nat> {
    set p | p in a && p in b
  }

  /** How many partitions stay with the member that owned them. */
  ghost function Stays(prior: Shares, shares: Shares): nat
    requires |prior| == |shares|
  {
    if shares == [] then 0
    else
      var last := |shares| - 1;
      Stays(prior[..last], shares[..last]) + |Common(shares[last], prior[last])|
  }

  function Loads(shares: Shares): nat {
    if shares == [] then 0 else Loads(shares[..|shares| - 1]) + |shares[|shares| - 1]|
  }

  // ---------------------------------------------------------------- what the steps keep

  predicate Within(a: seq<nat>, b: seq<nat>) {
    forall p <- a :: p in b
  }

  /** A member that shrank holds only kept partitions; one that grew still holds all of them. */
  predicate Nested(kept: seq<nat>, share: seq<nat>) {
    && (|share| <= |kept| ==> Within(share, kept))
    && (|kept| <= |share| ==> Within(kept, share))
  }

  function Lens(shares: Shares): (d: seq<nat>)
    ensures |d| == |shares| && forall i :: 0 <= i < |d| ==> d[i] == |shares[i]|
  {
    seq(|shares|, i requires 0 <= i < |shares| => |shares[i]|)
  }

  predicate Lost(k: seq<nat>, d: seq<nat>, i: nat)
    requires i < |k| == |d|
  {
    d[i] < k[i]
  }

  predicate Gained(k: seq<nat>, d: seq<nat>, i: nat)
    requires i < |k| == |d|
  {
    d[i] > k[i]
  }

  /** A gainer sits near the bottom, a loser near the top, and no gainer above a loser. */
  predicate FairLoads(k: seq<nat>, d: seq<nat>) {
    && |k| == |d|
    && (forall i, j :: 0 <= i < |d| && 0 <= j < |d| && Gained(k, d, i) ==> d[i] <= d[j] + 1)
    && (forall i, j :: 0 <= i < |d| && 0 <= j < |d| && Lost(k, d, i) ==> d[j] <= d[i] + 1)
    && (forall i, j :: 0 <= i < |d| && 0 <= j < |d| && Lost(k, d, i) && Gained(k, d, j) ==> d[j] <= d[i])
  }

  predicate NobodyLost(k: seq<nat>, d: seq<nat>)
    requires |k| == |d|
  {
    forall i :: 0 <= i < |d| ==> k[i] <= d[i]
  }

  predicate Fair(kept: Shares, shares: Shares) {
    FairLoads(Lens(kept), Lens(shares)) && AllNested(kept, shares)
  }

  lemma GiveLoads(k: seq<nat>, d: seq<nat>, lo: nat)
    requires FairLoads(k, d) && NobodyLost(k, d) && lo < |d|
    requires forall j :: 0 <= j < |d| ==> d[lo] <= d[j]
    ensures FairLoads(k, d[lo := d[lo] + 1]) && NobodyLost(k, d[lo := d[lo] + 1])
  {
    var d' := d[lo := d[lo] + 1];
    forall i, j | 0 <= i < |d| && 0 <= j < |d| && Gained(k, d', i)
      ensures d'[i] <= d'[j] + 1
    {
      assert i != lo ==> Gained(k, d, i);
    }
  }

  lemma MoveLoads(k: seq<nat>, d: seq<nat>, hi: nat, lo: nat)
    requires FairLoads(k, d) && lo < |d| && hi < |d| && d[hi] >= d[lo] + 2
    requires forall j :: 0 <= j < |d| ==> d[lo] <= d[j] <= d[hi]
    ensures !Gained(k, d, hi) && !Lost(k, d, lo)
    ensures FairLoads(k, d[hi := d[hi] - 1][lo := d[lo] + 1])
  {
    assert !Gained(k, d, hi) && !Lost(k, d, lo);
  }

  lemma {:induction false} FillFair(kept: Shares, shares: Shares, pool: seq<nat>)
    requires shares != [] && Fair(kept, shares) && NobodyLost(Lens(kept), Lens(shares))
    ensures Fair(kept, Fill(shares, pool)) && NobodyLost(Lens(kept), Lens(Fill(shares, pool)))
    decreases |pool|
  {
    if pool != [] {
      var lo := LeastLoaded(shares);
      var given := Give(shares, lo, pool[0]);
      GiveLoads(Lens(kept), Lens(shares), lo);
      assert Lens(given) == Lens(shares)[lo := |shares[lo]| + 1];
      assert !Lost(Lens(kept), Lens(shares), lo);
      assert Nested(kept[lo], given[lo]);
      FillFair(kept, given, pool[1..]);
    }
  }

  lemma MoveLens(shares: Shares, hi: nat, lo: nat, k: nat)
    requires hi < |shares| && lo < |shares| && hi != lo && k < |shares[hi]|
    ensures Lens(Move(shares, hi, lo, k)) == Lens(shares)[hi := |shares[hi]| - 1][lo := |shares[lo]| + 1]
  {
  }

  /** Every kept list lies within the share, or the share within it. */
  predicate AllNested(kept: Shares, shares: Shares)
    requires |kept| == |shares|
  {
    forall i :: 0 <= i < |shares| ==> Nested(kept[i], shares[i])
  }

  lemma MoveNested(kept: Shares, shares: Shares, hi: nat, lo: nat, k: nat)
    requires |kept| == |shares| && hi < |shares| && lo < |shares| && hi != lo && k < |shares[hi]|
    requires AllNested(kept, shares)
    requires |shares[hi]| <= |kept[hi]| && |kept[lo]| <= |shares[lo]|
    ensures AllNested(kept, Move(shares, hi, lo, k))
  {
    var moved := Move(shares, hi, lo, k);
    assert Within(moved[hi], shares[hi]);
    assert Within(shares[lo], moved[lo]);
    assert Nested(kept[hi], moved[hi]) && Nested(kept[lo], moved[lo]);
  }

  lemma MoveFair(kept: Shares, shares: Shares, hi: nat, lo: nat, k: nat)
    requires Fair(kept, shares) && hi < |shares| && lo < |shares| && k < |shares[hi]|
    requires |shares[hi]| >= |shares[lo]| + 2
    requires forall j :: 0 <= j < |shares| ==> |shares[lo]| <= |shares[j]| <= |shares[hi]|
    ensures Fair(kept, Move(shares, hi, lo, k))
  {
    MoveLens(shares, hi, lo, k);
    MoveKeepsRoom(kept, shares, hi, lo);
    MoveNested(kept, shares, hi, lo, k);
  }

  /** The giver still has no more than it kept, the receiver no less. */
  lemma MoveKeepsRoom(kept: Shares, shares: Shares, hi: nat, lo: nat)
    requires FairLoads(Lens(kept), Lens(shares)) && hi < |shares| && lo < |shares| && |shares[hi]| >= |shares[lo]| + 2
    requires forall j :: 0 <= j < |shares| ==> |shares[lo]| <= |shares[j]| <= |shares[hi]|
    ensures |kept| == |shares| && |shares[hi]| <= |kept[hi]| && |kept[lo]| <= |shares[lo]|
    ensures FairLoads(Lens(kept), Lens(shares)[hi := |shares[hi]| - 1][lo := |shares[lo]| + 1])
  {
    MoveLoads(Lens(kept), Lens(shares), hi, lo);
  }

  lemma LevelStepFair(kept: Shares, prior: Shares, shares: Shares)
    requires shares != [] && |prior| == |shares| && !Level?(shares) && Fair(kept, shares)
    ensures Fair(kept, LevelStep(prior, shares))
  {
    var hi, lo := MostLoaded(shares), LeastLoaded(shares);
    MoveFair(kept, shares, hi, lo, PickFrom(shares[hi], prior[lo]));
  }

  lemma {:induction false} LevelOutFair(kept: Shares, prior: Shares, shares: Shares)
    requires shares != [] && |prior| == |shares| && Fair(kept, shares)
    ensures Fair(kept, LevelOut(prior, shares))
    decreases SumSquares(shares)
  {
    if !Level?(shares) {
      LevelStepFair(kept, prior, shares);
      LevelStepDecreases(prior, shares);
      LevelOutFair(kept, prior, LevelStep(prior, shares));
    }
  }

  lemma SortEachFair(kept: Shares, shares: Shares)
    requires Fair(kept, shares)
    ensures Fair(kept, SortEach(shares))
  {
    var r := SortEach(shares);
    assert Lens(r) == Lens(shares);
    forall i | 0 <= i < |shares|
      ensures Nested(kept[i], r[i])
    {
      assert forall p :: p in r[i] <==> p in multiset(r[i]);
      assert forall p :: p in shares[i] <==> p in multiset(shares[i]);
    }
  }

  lemma AssignFair(count: nat, prior: Shares)
    requires prior != []
    ensures Fair(Keep(count, prior), Assign(count, prior))
  {
    var kept := Keep(count, prior);
    FillFair(kept, kept, Pool(count, Holdings(kept)));
    LevelOutFair(kept, prior, Filled(count, prior));
    SortEachFair(kept, LevelOut(prior, Filled(count, prior)));
  }

  // ---------------------------------------------------------------- counting

  lemma {:induction false} HeldInHoldings(shares: Shares, i: nat, p: nat)
    requires i < |shares|
    ensures multiset(shares[i])[p] <= Holdings(shares)[p]
  {
    if i < |shares| - 1 {
      HeldInHoldings(shares[..|shares| - 1], i, p);
    }
  }

  lemma ShareIsProper(count: nat, shares: Shares, i: nat)
    requires ExactlyOnce(count, shares) && i < |shares|
    ensures Distinct(shares[i]) && forall p <- shares[i] :: p < count
  {
    forall p | p in shares[i]
      ensures multiset(shares[i])[p] == 1 && p < count
    {
      HeldInHoldings(shares, i, p);
    }
    DistinctCounts(shares[i]);
  }

  lemma {:induction false} NotClaimedBefore(count: nat, prior: Shares, p: nat)
    requires forall s <- prior :: p !in s
    ensures p !in Holdings(Keep(count, prior))
  {
    KeepHolds(count, prior, p);
    ClaimsOfUnlisted(prior, p);
  }

  lemma {:induction false} ClaimsOfUnlisted(prior: Shares, p: nat)
    requires forall s <- prior :: p !in s
    ensures Claims(prior, p) == 0
  {
    if prior != [] {
      ClaimsOfUnlisted(prior[..|prior| - 1], p);
      assert prior[|prior| - 1] in prior;
    }
  }

  lemma UnclaimedKeepsAll(count: nat, claimed: multiset<nat>, s: seq<nat>)
    requires Distinct(s) && forall p <- s :: p !in claimed
    ensures var kept := SortNats(Unclaimed(count, claimed, s));
            Distinct(kept) && forall p :: p in kept <==> p in s && p < count
  {
    var kept: seq<nat> := SortNats(Unclaimed(count, claimed, s));
    forall p: nat
      ensures multiset(kept)[p] == if p < count then multiset(s)[p] else 0
    {
      UnclaimedCount(count, claimed, s, p);
    }
    forall p: nat
      ensures p in kept <==> p in s && p < count
    {
      assert p in kept <==> p in multiset(kept);
      assert p in s <==> p in multiset(s);
    }
    DistinctCounts(s);
    DistinctCounts(kept);
  }

  /** From a consistent previous assignment each member keeps everything that still exists. */
  lemma {:induction false} KeepsAll(count: nat, prior: Shares, i: nat)
    requires Consistent(prior) && i < |prior|
    ensures Distinct(Keep(count, prior)[i])
    ensures forall p :: p in Keep(count, prior)[i] <==> p in prior[i] && p < count
  {
    var last := |prior| - 1;
    if i < last {
      KeepsAll(count, prior[..last], i);
    } else {
      forall p | p in prior[last]
        ensures p !in Holdings(Keep(count, prior[..last]))
      {
        NotClaimedBefore(count, prior[..last], p);
      }
      UnclaimedKeepsAll(count, Holdings(Keep(count, prior[..last])), prior[last]);
    }
  }

  function Min(a: nat, b: nat): nat {
    if a <= b then a else b
  }

  /** No assignment keeps more with a member than it has to hold, or than there was to keep. */
  lemma CommonAtMost(count: nat, prior: Shares, shares: Shares, i: nat)
    requires Consistent(prior) && |prior| == |shares| && i < |prior| && ExactlyOnce(count, shares)
    ensures |Common(shares[i], prior[i])| <= Min(|Keep(count, prior)[i]|, |shares[i]|)
  {
    var kept := Keep(count, prior)[i];
    KeepsAll(count, prior, i);
    ShareIsProper(count, shares, i);
    SetOfDistinct(kept);
    SetOfDistinct(shares[i]);
    SubsetSize(Common(shares[i], prior[i]), SetOf(kept));
    SubsetSize(Common(shares[i], prior[i]), SetOf(shares[i]));
  }

  /** A nested share reaches that bound. */
  lemma CommonExactly(count: nat, prior: Shares, shares: Shares, i: nat)
    requires Consistent(prior) && |prior| == |shares| && i < |prior| && ExactlyOnce(count, shares)
    requires Nested(Keep(count, prior)[i], shares[i])
    ensures |Common(shares[i], prior[i])| == Min(|Keep(count, prior)[i]|, |shares[i]|)
  {
    var kept := Keep(count, prior)[i];
    KeepsAll(count, prior, i);
    ShareIsProper(count, shares, i);
    SetOfDistinct(kept);
    SetOfDistinct(shares[i]);
    if |shares[i]| <= |kept| {
      assert Common(shares[i], prior[i]) == SetOf(shares[i]);
    } else {
      assert Common(shares[i], prior[i]) == SetOf(kept);
    }
  }

  lemma {:induction false} LoadsAreHoldings(shares: Shares)
    ensures Loads(shares) == |Holdings(shares)|
  {
    if shares != [] {
      LoadsAreHoldings(shares[..|shares| - 1]);
    }
  }

  lemma SameLoads(count: nat, a: Shares, b: Shares)
    requires ExactlyOnce(count, a) && ExactlyOnce(count, b)
    ensures Loads(a) == Loads(b)
  {
    LoadsAreHoldings(a);
    LoadsAreHoldings(b);
    assert Holdings(a) == Holdings(b);
  }

  lemma {:induction false} StaysTermwise(prior: Shares, a: Shares, b: Shares)
    requires |prior| == |a| == |b|
    requires forall i :: 0 <= i < |a| ==> |Common(a[i], prior[i])| <= |Common(b[i], prior[i])|
    ensures Stays(prior, a) <= Stays(prior, b)
  {
    if a != [] {
      var last := |a| - 1;
      StaysTermwise(prior[..last], a[..last], b[..last]);
    }
  }

  lemma {:induction false} StaysAgainstLoads(prior: Shares, a: Shares, b: Shares)
    requires |prior| == |a| == |b|
    requires forall i :: 0 <= i < |a| ==>
               |Common(a[i], prior[i])| + |b[i]| <= |Common(b[i], prior[i])| + |a[i]|
    ensures Stays(prior, a) + Loads(b) <= Stays(prior, b) + Loads(a)
  {
    if a != [] {
      var last := |a| - 1;
      StaysAgainstLoads(prior[..last], a[..last], b[..last]);
    }
  }

  /** The exchange argument: a fair assignment is beaten by no balanced one. */
  lemma FairIsBest(count: nat, prior: Shares, fair: Shares, other: Shares)
    requires Consistent(prior) && |prior| == |fair| == |other|
    requires ExactlyOnce(count, fair) && ExactlyOnce(count, other)
    requires Balanced(other) && Fair(Keep(count, prior), fair)
    ensures Stays(prior, other) <= Stays(prior, fair)
  {
    var kept := Keep(count, prior);
    forall i | 0 <= i < |fair|
      ensures |Common(other[i], prior[i])| <= Min(|kept[i]|, |other[i]|)
      ensures |Common(fair[i], prior[i])| == Min(|kept[i]|, |fair[i]|)
    {
      CommonAtMost(count, prior, other, i);
      CommonExactly(count, prior, fair, i);
    }
    if j :| 0 <= j < |fair| && Gained(Lens(kept), Lens(fair), j) && |other[j]| < |fair[j]| {
      forall i | 0 <= i < |fair|
        ensures |Common(other[i], prior[i])| <= |Common(fair[i], prior[i])|
      {
        if Lost(Lens(kept), Lens(fair), i) {
          assert Lens(fair)[j] <= Lens(fair)[i];
          assert |other[i]| <= |other[j]| + 1 <= |fair[j]| <= |fair[i]|;
        }
      }
      StaysTermwise(prior, other, fair);
    } else {
      forall i | 0 <= i < |fair|
        ensures |Common(other[i], prior[i])| + |fair[i]| <= |Common(fair[i], prior[i])| + |other[i]|
      {
        assert Gained(Lens(kept), Lens(fair), i) ==> |other[i]| >= |fair[i]|;
      }
      StaysAgainstLoads(prior, other, fair);
      SameLoads(count, other, fair);
    }
  }

  /**
   Sticky optimality: no balanced, exactly-once assignment leaves more partitions with their
   previous owner.
   */
  lemma StickyKeepsTheMost(count: nat, prior: Shares, other: Shares)
    requires prior != [] && Consistent(prior)
    requires |other| == |prior| && ExactlyOnce(count, other) && Balanced(other)
    ensures Stays(prior, other) <= Stays(prior, Assign(count, prior))
  {
    assert forall s <- prior :: Distinct(s);
    CoversOnce(count, prior);
    AssignFair(count, prior);
    FairIsBest(count, prior, Assign(count, prior), other);
  }

  /** A member loses something only if it owned more than its final, balanced share. */
  lemma WithinShareLosesNothing(count: nat, prior: Shares, i: nat)
    requires prior != [] && Consistent(prior) && i < |prior|
    requires forall j :: 0 <= j < |prior| ==> |Keep(count, prior)[i]| <= |Assign(count, prior)[j]|
    ensures forall p :: p in prior[i] && p < count ==> p in Assign(count, prior)[i]
  {
    AssignFair(count, prior);
    KeepsAll(count, prior, i);
    assert Nested(Keep(count, prior)[i], Assign(count, prior)[i]);
  }

  lemma {:induction false} FillStaysLevel(shares: Shares, pool: seq<nat>)
    requires shares != [] && Balanced(shares)
    ensures Balanced(Fill(shares, pool))
    decreases |pool|
  {
    if pool != [] {
      FillStaysLevel(Give(shares, LeastLoaded(shares), pool[0]), pool[1..]);
    }
  }

  lemma FilledUnderBalancedKeepers(count: nat, prior: Shares)
    requires prior != [] && Balanced(Keep(count, prior))
    ensures LevelOut(prior, Filled(count, prior)) == Filled(count, prior)
    ensures Fair(Keep(count, prior), Filled(count, prior))
    ensures NobodyLost(Lens(Keep(count, prior)), Lens(Filled(count, prior)))
  {
    var kept := Keep(count, prior);
    FillFair(kept, kept, Pool(count, Holdings(kept)));
    FillStaysLevel(kept, Pool(count, Holdings(kept)));
  }

  /** If what members keep is already within one of each other, no stayer loses anything. */
  lemma BalancedKeepersLoseNothing(count: nat, prior: Shares, i: nat)
    requires prior != [] && Consistent(prior) && i < |prior|
    requires Balanced(Keep(count, prior))
    ensures Within(Keep(count, prior)[i], Assign(count, prior)[i])
    ensures forall p :: p in prior[i] && p < count ==> p in Assign(count, prior)[i]
  {
    var kept, filled := Keep(count, prior), Filled(count, prior);
    FilledUnderBalancedKeepers(count, prior);
    SortEachFair(kept, filled);
    assert Lens(kept)[i] <= Lens(filled)[i];
    assert Nested(kept[i], SortEach(filled)[i]);
    KeepsAll(count, prior, i);
  }
}
