/**
 The three partition assignors over named members. Each sorts the member ids first; what it
 hands out is a function of the sorted list, and the loops that compute it are proved against
 that function.
 */
module Assignors {
  import opened Sorting
  import opened Sticky
  import opened StickyOptimal

  type MemberId = string

  type Assignment = seq<(MemberId, seq<nat>)>

  type Previous = map<MemberId, seq<nat>>

  function Named(ids: seq<MemberId>, shares: Shares): (a: Assignment)
    requires |ids| == |shares|
    ensures |a| == |ids| && forall i :: 0 <= i < |a| ==> a[i] == (ids[i], shares[i])
  {
    seq(|ids|, i requires 0 <= i < |ids| => (ids[i], shares[i]))
  }

  function Span(lo: nat, hi: nat): (s: seq<nat>)
    requires lo <= hi
    ensures |s| == hi - lo && forall i :: 0 <= i < |s| ==> s[i] == lo + i
  {
    seq(hi - lo, i requires 0 <= i < hi - lo => lo + i)
  }

  function Nobody(n: nat): (r: Shares)
    ensures |r| == n && forall i :: 0 <= i < n ==> r[i] == []
  {
    seq(n, i => [])
  }

  // ---------------------------------------------------------------- range

  /** Member `i`'s share when every share is `base` and the first `extra` are one larger. */
  function ShareSize(base: nat, extra: nat, i: nat): nat {
    base + if i < extra then 1 else 0
  }

  function BlockStart(base: nat, extra: nat, i: nat): nat {
    if i == 0 then 0 else BlockStart(base, extra, i - 1) + ShareSize(base, extra, i - 1)
  }

  function Blocks(base: nat, extra: nat, n: nat): (r: Shares)
    ensures |r| == n
  {
    if n == 0 then []
    else
      var start := BlockStart(base, extra, n - 1);
      Blocks(base, extra, n - 1) + [Span(start, start + ShareSize(base, extra, n - 1))]
  }

  /** Consecutive blocks, the first `count % n` of them one longer. */
  function RangeShares(count: nat, n: nat): (r: Shares)
    requires n > 0
    ensures |r| == n
  {
    Blocks(count / n, count % n, n)
  }

  lemma {:induction false} BlockStartClosed(base: nat, extra: nat, i: nat)
    ensures BlockStart(base, extra, i) == i * base + Min(i, extra)
  {
    if i > 0 {
      BlockStartClosed(base, extra, i - 1);
      assert i * base == (i - 1) * base + base;
    }
  }

  lemma {:induction false} BlocksHold(base: nat, extra: nat, n: nat, p: nat)
    ensures Holdings(Blocks(base, extra, n))[p] == if p < BlockStart(base, extra, n) then 1 else 0
  {
    if n > 0 {
      var start, end := BlockStart(base, extra, n - 1), BlockStart(base, extra, n);
      BlocksHold(base, extra, n - 1, p);
      assert Blocks(base, extra, n)[..n - 1] == Blocks(base, extra, n - 1);
      SpanCounts(start, end, p);
    }
  }

  lemma {:induction false} BlockSizes(base: nat, extra: nat, n: nat, i: nat)
    requires i < n
    ensures |Blocks(base, extra, n)[i]| == ShareSize(base, extra, i)
  {
    if i < n - 1 {
      BlockSizes(base, extra, n - 1, i);
    }
  }

  lemma {:induction false} SpanCounts(lo: nat, hi: nat, p: nat)
    requires lo <= hi
    ensures multiset(Span(lo, hi))[p] == if lo <= p < hi then 1 else 0
  {
    if lo < hi {
      SpanCounts(lo, hi - 1, p);
      assert Span(lo, hi) == Span(lo, hi - 1) + [hi - 1];
    }
  }

  lemma BlocksCoverOnce(base: nat, extra: nat, n: nat)
    ensures ExactlyOnce(BlockStart(base, extra, n), Blocks(base, extra, n))
    ensures Balanced(Blocks(base, extra, n))
  {
    forall p: nat
      ensures Holdings(Blocks(base, extra, n))[p] == if p < BlockStart(base, extra, n) then 1 else 0
    {
      BlocksHold(base, extra, n, p);
    }
    forall i | 0 <= i < n
      ensures base <= |Blocks(base, extra, n)[i]| <= base + 1
    {
      BlockSizes(base, extra, n, i);
    }
  }

  lemma DivisionSum(count: nat, n: nat)
    requires n > 0
    ensures n * (count / n) + count % n == count && count % n < n
  {
  }

  /** The blocks tile the partitions: each goes out once, and counts differ by at most one. */
  lemma RangeCoversOnce(count: nat, n: nat)
    requires n > 0
    ensures ExactlyOnce(count, RangeShares(count, n)) && Balanced(RangeShares(count, n))
  {
    var base, extra := count / n, count % n;
    DivisionSum(count, n);
    BlockStartClosed(base, extra, n);
    BlocksCoverOnce(base, extra, n);
  }

  /** Member `i` gets the partitions from its block's start to the next one's. */
  lemma {:induction false} BlocksAt(base: nat, extra: nat, n: nat, i: nat)
    requires i < n
    ensures BlockStart(base, extra, i) <= BlockStart(base, extra, i + 1)
    ensures Blocks(base, extra, n)[i] == Span(BlockStart(base, extra, i), BlockStart(base, extra, i + 1))
  {
    if i < n - 1 {
      BlocksAt(base, extra, n - 1, i);
    }
  }

  lemma RangeShareAt(count: nat, n: nat, i: nat)
    requires i < n
    ensures var base, extra := count / n, count % n;
            forall p :: p in RangeShares(count, n)[i] <==> i * base + Min(i, extra) <= p < (i + 1) * base + Min(i + 1, extra)
  {
    var base, extra := count / n, count % n;
    BlocksAt(base, extra, n, i);
    BlockStartClosed(base, extra, i);
    BlockStartClosed(base, extra, i + 1);
    SpanHolds(BlockStart(base, extra, i), BlockStart(base, extra, i + 1));
  }

  lemma SpanHolds(lo: nat, hi: nat)
    requires lo <= hi
    ensures forall p :: p in Span(lo, hi) <==> lo <= p < hi
  {
    forall p | lo <= p < hi
      ensures p in Span(lo, hi)
    {
      assert Span(lo, hi)[p - lo] == p;
    }
  }

  /** What the range assignor hands out. */
  function RangeAssignment(count: nat, memberIds: seq<MemberId>): Assignment {
    if memberIds == [] then [] else Named(Sort(StringLe, memberIds), RangeShares(count, |memberIds|))
  }

  method AssignRange(count: nat, memberIds: seq<MemberId>) returns (result: Assignment)
    ensures result == RangeAssignment(count, memberIds)
  {
    if memberIds == [] {
      return [];
    }
    var ids := Sort(StringLe, memberIds);
    var n := |ids|;
    var base, remainder := count / n, count % n;
    var next := 0;
    result := [];
    for i := 0 to n
      invariant next == BlockStart(base, remainder, i)
      invariant result == Named(ids[..i], Blocks(base, remainder, i))
    {
      var share := base + if i < remainder then 1 else 0;
      result := result + [(ids[i], Span(next, next + share))];
      next := next + share;
    }
  }

  // ---------------------------------------------------------------- round robin

  /** Partition `p` goes to member `p % n`. */
  function Dealt(count: nat, n: nat): (r: Shares)
    requires n > 0
    ensures |r| == n
  {
    if count == 0 then Nobody(n) else Give(Dealt(count - 1, n), (count - 1) % n, count - 1)
  }

  lemma {:induction false} DealtTo(count: nat, n: nat, j: nat)
    requires n > 0 && j < n
    ensures Ordered(NatLe, Dealt(count, n)[j])
    ensures forall p :: p in Dealt(count, n)[j] <==> 0 <= p < count && p % n == j
  {
    if count > 0 {
      DealtTo(count - 1, n, j);
      var before := Dealt(count - 1, n)[j];
      forall i | 0 <= i < |before|
        ensures before[i] < count - 1
      {
        assert before[i] in before;
      }
    }
  }

  lemma {:induction false} DealtOnce(count: nat, n: nat)
    requires n > 0
    ensures ExactlyOnce(count, Dealt(count, n))
  {
    if count == 0 {
      EmptyHoldings(n);
    } else {
      DealtOnce(count - 1, n);
      GiveHolds(Dealt(count - 1, n), (count - 1) % n, count - 1);
    }
  }

  lemma {:induction false} EmptyHoldings(n: nat)
    ensures Holdings(Nobody(n)) == multiset{}
  {
    if n > 0 {
      EmptyHoldings(n - 1);
      assert Nobody(n)[..n - 1] == Nobody(n - 1);
    }
  }

  /** Quotient and remainder of `p` by `n`, counted up one at a time. */
  function Lap(p: nat, n: nat): (nat, nat)
    requires n > 0
  {
    if p == 0 then (0, 0)
    else
      var (q, r) := Lap(p - 1, n);
      if r + 1 < n then (q, r + 1) else (q + 1, 0)
  }

  lemma {:induction false} LapIsDivision(p: nat, n: nat)
    requires n > 0
    ensures Lap(p, n) == (p / n, p % n)
  {
    LapSum(p, n);
    DivUnique(p, n, Lap(p, n).0, Lap(p, n).1);
  }

  lemma {:induction false} LapSum(p: nat, n: nat)
    requires n > 0
    ensures Lap(p, n).0 * n + Lap(p, n).1 == p && Lap(p, n).1 < n
  {
    if p > 0 {
      LapSum(p - 1, n);
      var (q, r) := Lap(p - 1, n);
      assert (q + 1) * n == q * n + n;
    }
  }

  lemma MulAtLeast(x: nat, n: nat)
    requires x >= 1
    ensures x * n >= n
  {
    assert x * n == (x - 1) * n + n;
  }

  lemma DivUnique(a: nat, n: nat, q: nat, r: nat)
    requires n > 0 && r < n && q * n + r == a
    ensures a / n == q && a % n == r
  {
    var q', r' := a / n, a % n;
    assert q' * n + r' == a;
    if q > q' {
      assert q * n == q' * n + (q - q') * n;
      MulAtLeast(q - q', n);
      assert false;
    } else if q < q' {
      assert q' * n == q * n + (q' - q) * n;
      MulAtLeast(q' - q, n);
      assert false;
    }
  }

  lemma {:induction false} DealtLoads(count: nat, n: nat, j: nat)
    requires n > 0 && j < n
    ensures |Dealt(count, n)[j]| == ShareSize(Lap(count, n).0, Lap(count, n).1, j)
  {
    if count > 0 {
      DealtLoads(count - 1, n, j);
      LapIsDivision(count - 1, n);
      LapSum(count - 1, n);
    }
  }

  /** What the round-robin assignor hands out. */
  function RoundRobinAssignment(count: nat, memberIds: seq<MemberId>): Assignment {
    if memberIds == [] then [] else Named(Sort(StringLe, memberIds), Dealt(count, |memberIds|))
  }

  method AssignRoundRobin(count: nat, memberIds: seq<MemberId>) returns (result: Assignment)
    ensures result == RoundRobinAssignment(count, memberIds)
  {
    if memberIds == [] {
      return [];
    }
    var ids := Sort(StringLe, memberIds);
    var n := |ids|;
    result := Named(ids, Nobody(n));
    for partition := 0 to count
      invariant result == Named(ids, Dealt(partition, n))
    {
      var slot := partition % n;
      result := result[slot := (result[slot].0, result[slot].1 + [partition])];
    }
  }

  // ---------------------------------------------------------------- sticky

  function Priors(ids: seq<MemberId>, previous: Previous): (r: Shares)
    ensures |r| == |ids|
    ensures forall i :: 0 <= i < |r| ==> r[i] == if ids[i] in previous then previous[ids[i]] else []
  {
    seq(|ids|, i requires 0 <= i < |ids| => if ids[i] in previous then previous[ids[i]] else [])
  }

  function SharesOf(ids: seq<MemberId>, owned: map<MemberId, seq<nat>>): (r: Shares)
    requires forall id <- ids :: id in owned
    ensures |r| == |ids| && forall i :: 0 <= i < |r| ==> r[i] == owned[ids[i]]
  {
    seq(|ids|, i requires 0 <= i < |ids| => owned[ids[i]])
  }

  lemma SharesOfUpdate(ids: seq<MemberId>, owned: map<MemberId, seq<nat>>, i: nat, s: seq<nat>)
    requires Distinct(ids) && i < |ids| && forall id <- ids :: id in owned
    ensures SharesOf(ids, owned[ids[i] := s]) == SharesOf(ids, owned)[i := s]
  {
  }

  lemma KeepLast(count: nat, prior: Shares)
    requires prior != []
    ensures var last := |prior| - 1;
            && Keep(count, prior)[..last] == Keep(count, prior[..last])
            && Keep(count, prior)[last] == KeptBy(count, prior[..last], prior[last])
  {
  }

  /** What a member that owned `own` keeps after the members that owned `before`. */
  function KeptBy(count: nat, before: Shares, own: seq<nat>): seq<nat> {
    SortNats(Unclaimed(count, Holdings(Keep(count, before)), own))
  }

  lemma PrefixOfPrefix<T>(whole: seq<T>, front: seq<T>, n: nat, i: nat)
    requires i < n <= |whole| && whole[..n] == front
    ensures whole[..i] == front[..i] && whole[i] == front[i]
  {
  }

  lemma {:induction false} KeepPrefix(count: nat, prior: Shares, i: nat)
    requires i < |prior|
    ensures Keep(count, prior)[..i] == Keep(count, prior[..i])
    ensures Keep(count, prior)[i] == KeptBy(count, prior[..i], prior[i])
  {
    var last := |prior| - 1;
    KeepLast(count, prior);
    if i < last {
      var front := prior[..last];
      PrefixOfPrefix(prior, front, last, i);
      PrefixOfPrefix(Keep(count, prior), Keep(count, front), last, i);
      KeepPrefix(count, front, i);
    }
  }

  lemma {:induction false} InHoldings(shares: Shares, p: nat)
    ensures p in Holdings(shares) <==> exists i :: 0 <= i < |shares| && p in shares[i]
  {
    if shares != [] {
      var last := |shares| - 1;
      InHoldings(shares[..last], p);
      if i :| 0 <= i < |shares| && p in shares[i] {
        assert i < last ==> p in shares[..last][i];
      }
    }
  }

  method FilterUnclaimed(count: nat, claimed: array<bool>, s: seq<nat>, ghost taken: multiset<nat>)
    returns (kept: seq<nat>)
    requires claimed.Length == count
    requires forall p :: 0 <= p < count ==> (claimed[p] <==> p in taken)
    ensures kept == Unclaimed(count, taken, s)
  {
    kept := [];
    for i := 0 to |s|
      invariant kept == Unclaimed(count, taken, s[..i])
    {
      assert s[..i + 1][..i] == s[..i];
      if s[i] < count && !claimed[s[i]] {
        kept := kept + [s[i]];
      }
    }
    assert s[..|s|] == s;
  }

  method SortedKeys(previous: Previous) returns (keys: seq<MemberId>)
    ensures Ordered(StringLe, keys) && Distinct(keys)
    ensures forall k :: k in keys <==> k in previous
  {
    keys := [];
    var left := previous.Keys;
    while left != {}
      invariant Distinct(keys)
      invariant forall k :: k in previous <==> k in keys || k in left
      invariant forall k <- keys :: k !in left
      decreases left
    {
      var k :| k in left;
      keys := keys + [k];
      left := left - {k};
    }
    var unsorted := keys;
    keys := Sort(StringLe, unsorted);
    StringLeIsTotalOrder();
    SortOrdered(StringLe, unsorted);
    SameMembers(keys, unsorted);
  }

  lemma SameMembers<T>(a: seq<T>, b: seq<T>)
    requires multiset(a) == multiset(b)
    ensures forall x :: x in a <==> x in b
    ensures Distinct(a) <==> Distinct(b)
  {
    forall x
      ensures x in a <==> x in b
    {
      assert x in a <==> x in multiset(a);
      assert x in b <==> x in multiset(b);
    }
    DistinctCounts(a);
    DistinctCounts(b);
  }

  /** What the member named `id` keeps, as the keep step decides it once all owners before it are done. */
  ghost predicate KeptSoFar(
    ids: seq<MemberId>, kept: Shares, done: seq<MemberId>, owned: map<MemberId, seq<nat>>)
    requires |ids| == |kept|
  {
    && (forall id <- ids :: id in owned)
    && (forall i :: 0 <= i < |ids| ==> owned[ids[i]] == if ids[i] in done then kept[i] else [])
  }

  /** Some member among `done` keeps partition `p`. */
  ghost predicate Taken(ids: seq<MemberId>, kept: Shares, done: seq<MemberId>, p: nat)
    requires |ids| == |kept|
  {
    exists j :: 0 <= j < |ids| && ids[j] in done && p in kept[j]
  }

  lemma TakenByOneMore(ids: seq<MemberId>, kept: Shares, done: seq<MemberId>, id: MemberId, p: nat)
    requires |ids| == |kept| && Distinct(ids)
    ensures id !in ids ==> (Taken(ids, kept, done + [id], p) <==> Taken(ids, kept, done, p))
    ensures forall i :: 0 <= i < |ids| && ids[i] == id ==>
              (Taken(ids, kept, done + [id], p) <==> Taken(ids, kept, done, p) || p in kept[i])
  {
  }

  /** If member `i` is owner `k`, the owners before it are the members before it. */
  ghost predicate AlignedAt(ids: seq<MemberId>, owners: seq<MemberId>, i: nat, k: nat, j: nat)
    requires i < |ids| && k < |owners| && j < |ids|
  {
    ids[i] == owners[k] ==> (ids[j] in owners[..k] <==> ids[j] in owners && j < i)
  }

  ghost predicate Aligned(ids: seq<MemberId>, owners: seq<MemberId>) {
    forall i: nat, k: nat, j: nat {:trigger AlignedAt(ids, owners, i, k, j)} ::
      i < |ids| && k < |owners| && j < |ids| ==> AlignedAt(ids, owners, i, k, j)
  }

  lemma SortedAreAligned(ids: seq<MemberId>, owners: seq<MemberId>)
    requires Ordered(StringLe, ids) && Distinct(ids) && Ordered(StringLe, owners) && Distinct(owners)
    ensures Aligned(ids, owners)
  {
    StringLeIsTotalOrder();
    forall i: nat, k: nat, j: nat | i < |ids| && k < |owners| && j < |ids|
      ensures AlignedAt(ids, owners, i, k, j)
    {
      if ids[i] == owners[k] {
        BeforeInBoth(StringLe, ids, owners, i, k, j);
      }
    }
  }

  /** Before its turn, what others have claimed is what the members sorted before it kept. */
  lemma ClaimedBefore(count: nat, ids: seq<MemberId>, previous: Previous,
                      owners: seq<MemberId>, k: nat, i: nat, p: nat)
    requires Aligned(ids, owners) && forall o :: o in owners <==> o in previous
    requires k < |owners| && i < |ids| && owners[k] == ids[i]
    ensures var kept := Keep(count, Priors(ids, previous));
            p in Holdings(kept[..i]) <==> Taken(ids, kept, owners[..k], p)
  {
    var prior := Priors(ids, previous);
    var kept: Shares := Keep(count, prior);
    var earlier: Shares := kept[..i];
    InHoldings(earlier, p);
    forall j | 0 <= j < |ids| && p in kept[j]
      ensures ids[j] in owners[..k] <==> j < i
    {
      KeepPrefix(count, prior, j);
      KeptWasOwned(count, Holdings(Keep(count, prior[..j])), prior[j], p);
      assert AlignedAt(ids, owners, i, k, j);
    }
    assert forall j :: 0 <= j < i ==> earlier[j] == kept[j];
  }

  lemma KeptWasOwned(count: nat, claimed: multiset<nat>, s: seq<nat>, p: nat)
    requires p in SortNats(Unclaimed(count, claimed, s))
    ensures p in s
  {
    UnclaimedCount(count, claimed, s, p);
    assert p in multiset(SortNats(Unclaimed(count, claimed, s)));
    assert p in multiset(s);
  }

  ghost predicate ClaimedSoFar(
    ids: seq<MemberId>, kept: Shares, done: seq<MemberId>, claimed: seq<bool>)
    requires |ids| == |kept|
  {
    forall p: nat :: p < |claimed| ==> (claimed[p] <==> Taken(ids, kept, done, p))
  }

  lemma {:induction false} UnclaimedExist(count: nat, claimed: multiset<nat>, s: seq<nat>)
    ensures forall i :: 0 <= i < |SortNats(Unclaimed(count, claimed, s))| ==>
              SortNats(Unclaimed(count, claimed, s))[i] < count
  {
    var kept: seq<nat> := SortNats(Unclaimed(count, claimed, s));
    forall i | 0 <= i < |kept|
      ensures kept[i] < count
    {
      UnclaimedCount(count, claimed, s, kept[i]);
      assert kept[i] in multiset(kept);
    }
  }

  /** One owner's turn in step 1. */
  method KeepOne(count: nat, ghost ids: seq<MemberId>, previous: Previous, id: MemberId, claimed: array<bool>,
                 ghost owners: seq<MemberId>, ghost k: nat, ghost i: nat)
    returns (mine: seq<nat>)
    requires Distinct(ids) && Aligned(ids, owners) && forall o :: o in owners <==> o in previous
    requires k < |owners| && i < |ids| && owners[k] == ids[i] == id
    requires claimed.Length == count
    requires ClaimedSoFar(ids, Keep(count, Priors(ids, previous)), owners[..k], claimed[..])
    modifies claimed
    ensures mine == Keep(count, Priors(ids, previous))[i]
    ensures ClaimedSoFar(ids, Keep(count, Priors(ids, previous)), owners[..k] + [id], claimed[..])
  {
    ghost var kept := Keep(count, Priors(ids, previous));
    KeepPrefix(count, Priors(ids, previous), i);
    forall p: nat | p < count
      ensures claimed[p] <==> p in Holdings(kept[..i])
      ensures Taken(ids, kept, owners[..k] + [id], p) <==> Taken(ids, kept, owners[..k], p) || p in kept[i]
    {
      ClaimedBefore(count, ids, previous, owners, k, i, p);
      assert claimed[p] == claimed[..][p];
      TakenByOneMore(ids, kept, owners[..k], id, p);
    }
    mine := FilterUnclaimed(count, claimed, previous[id], Holdings(kept[..i]));
    mine := SortNats(mine);
    UnclaimedExist(count, Holdings(kept[..i]), previous[id]);
    MarkAll(count, claimed, mine);
  }

  method MarkAll(count: nat, claimed: array<bool>, s: seq<nat>)
    requires claimed.Length == count && forall i :: 0 <= i < |s| ==> s[i] < count
    modifies claimed
    ensures forall p :: 0 <= p < count ==> (claimed[p] <==> old(claimed[p]) || p in s)
  {
    for i := 0 to |s|
      invariant forall p :: 0 <= p < count ==> (claimed[p] <==> old(claimed[p]) || p in s[..i])
    {
      claimed[s[i]] := true;
    }
  }

  /** A turn that concerns no present member changes nothing. */
  lemma StrangersTurn(ids: seq<MemberId>, kept: Shares, done: seq<MemberId>, id: MemberId,
                      owned: map<MemberId, seq<nat>>, claimed: seq<bool>)
    requires |ids| == |kept| && Distinct(ids) && id !in ids
    requires KeptSoFar(ids, kept, done, owned) && ClaimedSoFar(ids, kept, done, claimed)
    ensures KeptSoFar(ids, kept, done + [id], owned) && ClaimedSoFar(ids, kept, done + [id], claimed)
  {
    forall p: nat
      ensures Taken(ids, kept, done + [id], p) <==> Taken(ids, kept, done, p)
    {
      TakenByOneMore(ids, kept, done, id, p);
    }
  }

  lemma MembersTurn(ids: seq<MemberId>, kept: Shares, done: seq<MemberId>, i: nat,
                    owned: map<MemberId, seq<nat>>)
    requires |ids| == |kept| && Distinct(ids) && i < |ids|
    requires KeptSoFar(ids, kept, done, owned)
    ensures KeptSoFar(ids, kept, done + [ids[i]], owned[ids[i] := kept[i]])
  {
  }

  lemma NewcomersKeepNothing(count: nat, ids: seq<MemberId>, previous: Previous, i: nat)
    requires i < |ids| && ids[i] !in previous
    ensures Keep(count, Priors(ids, previous))[i] == []
  {
    KeepPrefix(count, Priors(ids, previous), i);
  }

  lemma TakenInTheEnd(count: nat, ids: seq<MemberId>, previous: Previous, owners: seq<MemberId>, p: nat)
    requires forall o :: o in owners <==> o in previous
    ensures var kept := Keep(count, Priors(ids, previous));
            Taken(ids, kept, owners, p) <==> p in Holdings(kept)
  {
    var kept: Shares := Keep(count, Priors(ids, previous));
    InHoldings(kept, p);
    forall i | 0 <= i < |ids| && p in kept[i]
      ensures ids[i] in owners
    {
      if ids[i] !in previous {
        NewcomersKeepNothing(count, ids, previous, i);
      }
    }
  }

  /** Once every owner had its turn, all kept shares are in place and all of them are marked. */
  lemma KeepDone(count: nat, ids: seq<MemberId>, previous: Previous, owners: seq<MemberId>,
                 owned: map<MemberId, seq<nat>>, claimed: seq<bool>)
    requires forall o :: o in owners <==> o in previous
    requires KeptSoFar(ids, Keep(count, Priors(ids, previous)), owners, owned)
    requires ClaimedSoFar(ids, Keep(count, Priors(ids, previous)), owners, claimed)
    ensures SharesOf(ids, owned) == Keep(count, Priors(ids, previous))
    ensures forall p :: 0 <= p < |claimed| ==>
              (claimed[p] <==> p in Holdings(Keep(count, Priors(ids, previous))))
  {
    forall i | 0 <= i < |ids| && ids[i] !in previous
      ensures Keep(count, Priors(ids, previous))[i] == []
    {
      NewcomersKeepNothing(count, ids, previous, i);
    }
    forall p: nat | p < |claimed|
      ensures claimed[p] <==> p in Holdings(Keep(count, Priors(ids, previous)))
    {
      TakenInTheEnd(count, ids, previous, owners, p);
    }
  }

  lemma OneMoreTurn(owners: seq<MemberId>, k: nat)
    requires k < |owners|
    ensures owners[..k + 1] == owners[..k] + [owners[k]]
  {
  }

  /** The k-th owner's turn, member of the group or not. */
  method OwnersTurn(count: nat, sorted: seq<MemberId>, ghost ids: seq<MemberId>, previous: Previous,
                    owners: seq<MemberId>, k: nat, before: map<MemberId, seq<nat>>, claimed: array<bool>)
    returns (owned: map<MemberId, seq<nat>>)
    requires Distinct(ids) && Aligned(ids, owners) && forall o :: o in owners <==> o in previous
    requires k < |owners| && claimed.Length == count && forall id :: id in sorted <==> id in ids
    requires KeptSoFar(ids, Keep(count, Priors(ids, previous)), owners[..k], before)
    requires ClaimedSoFar(ids, Keep(count, Priors(ids, previous)), owners[..k], claimed[..])
    modifies claimed
    ensures KeptSoFar(ids, Keep(count, Priors(ids, previous)), owners[..k] + [owners[k]], owned)
    ensures ClaimedSoFar(ids, Keep(count, Priors(ids, previous)), owners[..k] + [owners[k]], claimed[..])
  {
    ghost var kept := Keep(count, Priors(ids, previous));
    if owners[k] in sorted {
      ghost var i :| 0 <= i < |ids| && ids[i] == owners[k];
      MembersTurn(ids, kept, owners[..k], i, before);
      var mine := KeepOne(count, ids, previous, owners[k], claimed, owners, k, i);
      owned := before[owners[k] := mine];
    } else {
      StrangersTurn(ids, kept, owners[..k], owners[k], before, claimed[..]);
      owned := before;
    }
  }

  /** Step 1: owners in sorted order keep what exists and nobody has claimed. */
  method KeepStep(count: nat, sorted: seq<MemberId>, ghost ids: seq<MemberId>, previous: Previous,
                  owners: seq<MemberId>)
    returns (owned: map<MemberId, seq<nat>>, claimed: array<bool>)
    requires Distinct(ids) && Aligned(ids, owners) && forall o :: o in owners <==> o in previous
    requires forall id :: id in sorted <==> id in ids
    ensures fresh(claimed) && claimed.Length == count
    ensures forall id <- ids :: id in owned
    ensures SharesOf(ids, owned) == Keep(count, Priors(ids, previous))
    ensures forall p :: 0 <= p < count ==>
              (claimed[..][p] <==> p in Holdings(Keep(count, Priors(ids, previous))))
  {
    ghost var kept := Keep(count, Priors(ids, previous));
    owned := map id | id in sorted :: [];
    claimed := new bool[count](_ => false);
    for k := 0 to |owners|
      invariant KeptSoFar(ids, kept, owners[..k], owned)
      invariant ClaimedSoFar(ids, kept, owners[..k], claimed[..])
    {
      owned := OwnersTurn(count, sorted, ids, previous, owners, k, owned, claimed);
      OneMoreTurn(owners, k);
    }
    assert owners[..|owners|] == owners;
    KeepDone(count, ids, previous, owners, owned, claimed[..]);
  }

  /** The sorted member list, repeats and all, and the members it names. */
  ghost predicate Lists(sorted: seq<MemberId>, ids: seq<MemberId>) {
    && sorted != [] && ids != [] && Distinct(ids) && Ordered(StringLe, ids) && Ordered(StringLe, sorted)
    && forall id :: id in sorted <==> id in ids
  }

  lemma FirstInOrder(a: seq<MemberId>, b: seq<MemberId>, i: nat, j: nat)
    requires Ordered(StringLe, a) && Ordered(StringLe, b) && i < |a| && j < |b|
    requires (exists k :: i <= k < |a| && a[k] == b[j]) && (exists k :: j <= k < |b| && b[k] == a[i])
    ensures a[i] == b[j]
  {
    StringLeIsTotalOrder();
    var k :| i <= k < |a| && a[k] == b[j];
    var l :| j <= l < |b| && b[l] == a[i];
    assert StringLe(a[i], b[j]) && StringLe(b[j], a[i]);
  }

  lemma MentionedIn(sorted: seq<MemberId>, ids: seq<MemberId>, i: nat) returns (k: nat)
    requires Lists(sorted, ids) && i < |sorted|
    ensures k < |ids| && ids[k] == sorted[i]
  {
    assert sorted[i] in ids;
    k :| 0 <= k < |ids| && ids[k] == sorted[i];
  }

  lemma MentionOf(sorted: seq<MemberId>, ids: seq<MemberId>, j: nat) returns (l: nat)
    requires Lists(sorted, ids) && j < |ids|
    ensures l < |sorted| && sorted[l] == ids[j]
  {
    assert ids[j] in sorted;
    l :| 0 <= l < |sorted| && sorted[l] == ids[j];
  }

  /** Searching the list with its repeats finds the same member: repeats change no least and no first. */
  lemma SameLeast(sorted: seq<MemberId>, ids: seq<MemberId>, owned: map<MemberId, seq<nat>>)
    requires Lists(sorted, ids) && forall id <- ids :: id in owned
    ensures sorted[LeastLoaded(SharesOf(sorted, owned))] == ids[LeastLoaded(SharesOf(ids, owned))]
  {
    var a, b := SharesOf(sorted, owned), SharesOf(ids, owned);
    var i, j := LeastLoaded(a), LeastLoaded(b);
    var k := MentionedIn(sorted, ids, i);
    var l := MentionOf(sorted, ids, j);
    assert a[l] == b[j] && b[k] == a[i];
    assert i <= l && j <= k;
    FirstInOrder(sorted, ids, i, j);
  }

  lemma SameMost(sorted: seq<MemberId>, ids: seq<MemberId>, owned: map<MemberId, seq<nat>>)
    requires Lists(sorted, ids) && forall id <- ids :: id in owned
    ensures sorted[MostLoaded(SharesOf(sorted, owned))] == ids[MostLoaded(SharesOf(ids, owned))]
  {
    var a, b := SharesOf(sorted, owned), SharesOf(ids, owned);
    var i, j := MostLoaded(a), MostLoaded(b);
    var k := MentionedIn(sorted, ids, i);
    var l := MentionOf(sorted, ids, j);
    assert a[l] == b[j] && b[k] == a[i];
    assert i <= l && j <= k;
    FirstInOrder(sorted, ids, i, j);
  }

  lemma SameSearch(sorted: seq<MemberId>, ids: seq<MemberId>, owned: map<MemberId, seq<nat>>)
    requires Lists(sorted, ids) && forall id <- ids :: id in owned
    ensures sorted[LeastLoaded(SharesOf(sorted, owned))] == ids[LeastLoaded(SharesOf(ids, owned))]
    ensures sorted[MostLoaded(SharesOf(sorted, owned))] == ids[MostLoaded(SharesOf(ids, owned))]
    ensures Level?(SharesOf(sorted, owned)) <==> Level?(SharesOf(ids, owned))
  {
    SameLeast(sorted, ids, owned);
    SameMost(sorted, ids, owned);
  }

  /** Steps 2 and 3: what nobody kept goes, in order, to whoever holds least. */
  method FillStep(count: nat, sorted: seq<MemberId>, ghost ids: seq<MemberId>, kept: map<MemberId, seq<nat>>,
                  claimed: array<bool>)
    returns (owned: map<MemberId, seq<nat>>)
    requires Lists(sorted, ids) && claimed.Length == count && forall id <- ids :: id in kept
    requires forall p :: 0 <= p < count ==> (claimed[..][p] <==> p in Holdings(SharesOf(ids, kept)))
    ensures forall id <- ids :: id in owned
    ensures SharesOf(ids, owned)
            == Fill(SharesOf(ids, kept), Pool(count, Holdings(SharesOf(ids, kept))))
  {
    ghost var taken := Holdings(SharesOf(ids, kept));
    var remainder := CollectPool(count, claimed, taken);
    owned := kept;
    for k := 0 to |remainder|
      invariant forall id <- ids :: id in owned
      invariant Fill(SharesOf(ids, owned), remainder[k..]) == Fill(SharesOf(ids, kept), remainder)
    {
      SameSearch(sorted, ids, owned);
      var target := sorted[LeastLoaded(SharesOf(sorted, owned))];
      SharesOfUpdate(ids, owned, LeastLoaded(SharesOf(ids, owned)), owned[target] + [remainder[k]]);
      assert remainder[k..][1..] == remainder[k + 1..];
      owned := owned[target := owned[target] + [remainder[k]]];
    }
  }

  method CollectPool(count: nat, claimed: array<bool>, ghost taken: multiset<nat>) returns (pool: seq<nat>)
    requires claimed.Length == count
    requires forall p :: 0 <= p < count ==> (claimed[..][p] <==> p in taken)
    ensures pool == Pool(count, taken)
  {
    pool := [];
    for p := 0 to count
      invariant pool == Pool(p, taken)
    {
      assert claimed[p] == claimed[..][p];
      if !claimed[p] {
        pool := pool + [p];
      }
    }
  }

  /** Step 4: while two members are more than one apart, move one partition between them. */
  method LevelLoop(sorted: seq<MemberId>, ghost ids: seq<MemberId>, previous: Previous, filled: map<MemberId, seq<nat>>)
    returns (owned: map<MemberId, seq<nat>>)
    requires Lists(sorted, ids) && forall id <- ids :: id in filled
    ensures forall id <- ids :: id in owned
    ensures SharesOf(ids, owned) == LevelOut(Priors(ids, previous), SharesOf(ids, filled))
  {
    owned := filled;
    SameSearch(sorted, ids, owned);
    while !Level?(SharesOf(sorted, owned))
      invariant forall id <- ids :: id in owned
      invariant Level?(SharesOf(sorted, owned)) <==> Level?(SharesOf(ids, owned))
      invariant LevelOut(Priors(ids, previous), SharesOf(ids, owned))
                == LevelOut(Priors(ids, previous), SharesOf(ids, filled))
      decreases SumSquares(SharesOf(ids, owned))
    {
      LevelStepDecreases(Priors(ids, previous), SharesOf(ids, owned));
      owned := LevelMove(sorted, ids, previous, owned);
      SameSearch(sorted, ids, owned);
    }
  }

  method LevelMove(sorted: seq<MemberId>, ghost ids: seq<MemberId>, previous: Previous, before: map<MemberId, seq<nat>>)
    returns (owned: map<MemberId, seq<nat>>)
    requires Lists(sorted, ids) && (forall id <- ids :: id in before) && !Level?(SharesOf(ids, before))
    ensures forall id <- ids :: id in owned
    ensures SharesOf(ids, owned) == LevelStep(Priors(ids, previous), SharesOf(ids, before))
  {
    SameSearch(sorted, ids, before);
    ghost var hi, lo := MostLoaded(SharesOf(ids, before)), LeastLoaded(SharesOf(ids, before));
    var over, under := sorted[MostLoaded(SharesOf(sorted, before))], sorted[LeastLoaded(SharesOf(sorted, before))];
    var previouslyUnder := if under in previous then previous[under] else [];
    var k := PickFrom(before[over], previouslyUnder);
    var moved := before[over][k];
    owned := before[over := before[over][..k] + before[over][k + 1..]];
    owned := owned[under := owned[under] + [moved]];
    MovedShares(ids, before, hi, lo, k);
  }

  /** Moving one partition between two members in the map is moving it between their places. */
  lemma MovedShares(ids: seq<MemberId>, before: map<MemberId, seq<nat>>, hi: nat, lo: nat, k: nat)
    requires Distinct(ids) && (forall id <- ids :: id in before) && hi < |ids| && lo < |ids| && hi != lo
    requires k < |before[ids[hi]]|
    ensures var less := before[ids[hi] := before[ids[hi]][..k] + before[ids[hi]][k + 1..]];
            var after := less[ids[lo] := less[ids[lo]] + [before[ids[hi]][k]]];
            && (forall id <- ids :: id in after)
            && SharesOf(ids, after) == Move(SharesOf(ids, before), hi, lo, k)
  {
    var less := before[ids[hi] := before[ids[hi]][..k] + before[ids[hi]][k + 1..]];
    SharesOfUpdate(ids, before, hi, before[ids[hi]][..k] + before[ids[hi]][k + 1..]);
    SharesOfUpdate(ids, less, lo, less[ids[lo]] + [before[ids[hi]][k]]);
  }

  // ---------------------------------------------------------------- the whole assignor

  /** Each member once, in the order of its first mention. */
  function Dedup(s: seq<MemberId>): seq<MemberId> {
    if s == [] then []
    else
      var front := s[..|s| - 1];
      Dedup(front) + if s[|s| - 1] in front then [] else [s[|s| - 1]]
  }

  lemma {:induction false} DedupMembers(s: seq<MemberId>)
    ensures forall id :: id in s <==> id in Dedup(s)
    ensures Distinct(s) ==> Dedup(s) == s
  {
    if s != [] {
      DedupMembers(s[..|s| - 1]);
      assert s == s[..|s| - 1] + [s[|s| - 1]];
    }
  }

  lemma {:induction false} DedupDistinct(s: seq<MemberId>)
    ensures Distinct(Dedup(s))
  {
    if s != [] {
      DedupDistinct(s[..|s| - 1]);
      DedupMembers(s[..|s| - 1]);
    }
  }

  lemma OrderedWithLast(s: seq<MemberId>, ids: seq<MemberId>)
    requires s != [] && Ordered(StringLe, s) && Ordered(StringLe, ids) && forall id <- ids :: id in s[..|s| - 1]
    ensures Ordered(StringLe, ids + [s[|s| - 1]])
  {
    var last := |s| - 1;
    forall i | 0 <= i < |ids|
      ensures StringLe(ids[i], s[last])
    {
      assert ids[i] in ids;
      var k :| 0 <= k < last && s[k] == ids[i];
    }
  }

  lemma {:induction false} DedupOrdered(s: seq<MemberId>)
    requires Ordered(StringLe, s)
    ensures Ordered(StringLe, Dedup(s))
  {
    if s != [] {
      DedupOrdered(s[..|s| - 1]);
      DedupMembers(s[..|s| - 1]);
      OrderedWithLast(s, Dedup(s[..|s| - 1]));
    }
  }

  lemma DedupLists(s: seq<MemberId>)
    requires Ordered(StringLe, s)
    ensures Distinct(Dedup(s)) && Ordered(StringLe, Dedup(s)) && forall id :: id in s <==> id in Dedup(s)
    ensures Distinct(s) ==> Dedup(s) == s
  {
    DedupMembers(s);
    DedupDistinct(s);
    DedupOrdered(s);
  }

  /** The first mention of a member gets its share, any further mention nothing. */
  function Spread(sorted: seq<MemberId>, given: map<MemberId, seq<nat>>): (a: Assignment)
    requires forall id <- sorted :: id in given
    ensures |a| == |sorted|
  {
    if sorted == [] then []
    else
      var front, id := sorted[..|sorted| - 1], sorted[|sorted| - 1];
      Spread(front, given) + [(id, if id in front then [] else given[id])]
  }

  function GivenTo(ids: seq<MemberId>, shares: Shares): (given: map<MemberId, seq<nat>>)
    requires |ids| == |shares|
    ensures forall id :: id in given <==> id in ids
  {
    if ids == [] then map[]
    else
      var last := |ids| - 1;
      GivenTo(ids[..last], shares[..last])[ids[last] := shares[last]]
  }

  lemma {:induction false} GivenToEach(ids: seq<MemberId>, shares: Shares, i: nat)
    requires |ids| == |shares| && Distinct(ids) && i < |ids|
    ensures GivenTo(ids, shares)[ids[i]] == shares[i]
  {
    var last := |ids| - 1;
    if i < last {
      GivenToEach(ids[..last], shares[..last], i);
    }
  }

  /** What the sticky assignor hands out to a sorted list of members. */
  function StickyFrom(count: nat, sorted: seq<MemberId>, previous: Previous): Assignment
    requires Ordered(StringLe, sorted) && sorted != []
  {
    DedupLists(sorted);
    assert sorted[0] in Dedup(sorted);
    Spread(sorted, GivenTo(Dedup(sorted), Assign(count, Priors(Dedup(sorted), previous))))
  }

  function StickyAssignment(count: nat, memberIds: seq<MemberId>, previous: Previous): Assignment {
    if memberIds == [] then []
    else
      SortedIds(memberIds);
      StickyFrom(count, Sort(StringLe, memberIds), previous)
  }

  /** Without repeats every member gets its share. */
  lemma {:induction false} SpreadIsNamed(ids: seq<MemberId>, shares: Shares, given: map<MemberId, seq<nat>>)
    requires |ids| == |shares| && Distinct(ids)
    requires forall i :: 0 <= i < |ids| ==> ids[i] in given && given[ids[i]] == shares[i]
    ensures Spread(ids, given) == Named(ids, shares)
  {
    if ids != [] {
      var last := |ids| - 1;
      SpreadIsNamed(ids[..last], shares[..last], given);
      assert Named(ids, shares) == Named(ids[..last], shares[..last]) + [(ids[last], shares[last])];
    }
  }

  lemma SpreadGiven(ids: seq<MemberId>, shares: Shares)
    requires |ids| == |shares| && Distinct(ids)
    ensures Spread(ids, GivenTo(ids, shares)) == Named(ids, shares)
  {
    forall i | 0 <= i < |ids|
      ensures GivenTo(ids, shares)[ids[i]] == shares[i]
    {
      GivenToEach(ids, shares, i);
    }
    SpreadIsNamed(ids, shares, GivenTo(ids, shares));
  }

  lemma StickyFromDistinct(count: nat, ids: seq<MemberId>, previous: Previous)
    requires Ordered(StringLe, ids) && Distinct(ids) && ids != []
    ensures StickyFrom(count, ids, previous) == Named(ids, Assign(count, Priors(ids, previous)))
  {
    DedupLists(ids);
    SpreadGiven(ids, Assign(count, Priors(ids, previous)));
  }

  lemma StickyIsNamed(count: nat, memberIds: seq<MemberId>, previous: Previous)
    requires memberIds != [] && Distinct(memberIds)
    ensures var ids := Sort(StringLe, memberIds);
            ids != [] && StickyAssignment(count, memberIds, previous) == Named(ids, Assign(count, Priors(ids, previous)))
  {
    SortedIds(memberIds);
    SortedMembers(memberIds);
    StickyFromDistinct(count, Sort(StringLe, memberIds), previous);
  }

  lemma SpreadNext(sorted: seq<MemberId>, k: nat, given: map<MemberId, seq<nat>>)
    requires k < |sorted| && forall id <- sorted :: id in given
    ensures Spread(sorted[..k + 1], given)
         == Spread(sorted[..k], given) + [(sorted[k], if sorted[k] in sorted[..k] then [] else given[sorted[k]])]
  {
    assert sorted[..k + 1][..k] == sorted[..k];
  }

  /** Lists still to be handed out: those of members not mentioned yet. */
  ghost predicate LeftOver(sorted: seq<MemberId>, k: nat, owned: map<MemberId, seq<nat>>, left: map<MemberId, seq<nat>>)
    requires k <= |sorted|
  {
    forall id <- sorted :: (id in left <==> id !in sorted[..k]) && (id in left ==> id in owned && left[id] == owned[id])
  }

  lemma LeftOverNext(sorted: seq<MemberId>, k: nat, owned: map<MemberId, seq<nat>>, left: map<MemberId, seq<nat>>)
    requires k < |sorted| && LeftOver(sorted, k, owned, left)
    ensures LeftOver(sorted, k + 1, owned, left - {sorted[k]})
  {
    assert sorted[..k + 1] == sorted[..k] + [sorted[k]];
  }

  /** The last loop: each member's list is taken out of the map when its name first comes up. */
  method HandOut(sorted: seq<MemberId>, owned: map<MemberId, seq<nat>>, ghost given: map<MemberId, seq<nat>>)
    returns (result: Assignment)
    requires forall id <- sorted :: id in owned && id in given && given[id] == SortNats(owned[id])
    ensures result == Spread(sorted, given)
  {
    result := [];
    var left := owned;
    for k := 0 to |sorted|
      invariant result == Spread(sorted[..k], given) && LeftOver(sorted, k, owned, left)
    {
      var id := sorted[k];
      SpreadNext(sorted, k, given);
      LeftOverNext(sorted, k, owned, left);
      result := result + [(id, if id in left then SortNats(left[id]) else [])];
      left := left - {id};
    }
    assert sorted[..|sorted|] == sorted;
  }

  /** The four steps, over the sorted list with whatever repeats it has. */
  method ShareOut(count: nat, sorted: seq<MemberId>, ghost ids: seq<MemberId>, previous: Previous)
    returns (owned: map<MemberId, seq<nat>>)
    requires Lists(sorted, ids)
    ensures forall id <- ids :: id in owned
    ensures SortEach(SharesOf(ids, owned)) == Assign(count, Priors(ids, previous))
  {
    var owners := SortedKeys(previous);
    SortedAreAligned(ids, owners);
    var kept, claimed := KeepStep(count, sorted, ids, previous, owners);
    var filled := FillStep(count, sorted, ids, kept, claimed);
    owned := LevelLoop(sorted, ids, previous, filled);
  }

  lemma GivenSorted(ids: seq<MemberId>, owned: map<MemberId, seq<nat>>, shares: Shares)
    requires Distinct(ids) && (forall id <- ids :: id in owned) && shares == SortEach(SharesOf(ids, owned))
    ensures forall id <- ids :: GivenTo(ids, shares)[id] == SortNats(owned[id])
  {
    forall id | id in ids
      ensures GivenTo(ids, shares)[id] == SortNats(owned[id])
    {
      var i :| 0 <= i < |ids| && ids[i] == id;
      GivenToEach(ids, shares, i);
    }
  }

  method AssignSticky(count: nat, memberIds: seq<MemberId>, previous: Previous)
    returns (result: Assignment)
    ensures result == StickyAssignment(count, memberIds, previous)
  {
    if memberIds == [] {
      return [];
    }
    var sorted := Sort(StringLe, memberIds);
    SortedIds(memberIds);
    DedupLists(sorted);
    ghost var ids := Dedup(sorted);
    assert sorted[0] in ids;
    var owned := ShareOut(count, sorted, ids, previous);
    ghost var shares := Assign(count, Priors(ids, previous));
    GivenSorted(ids, owned, shares);
    result := HandOut(sorted, owned, GivenTo(ids, shares));
  }

  lemma SortedIds(memberIds: seq<MemberId>)
    ensures Ordered(StringLe, Sort(StringLe, memberIds))
  {
    StringLeIsTotalOrder();
    SortOrdered(StringLe, memberIds);
  }

  // ---------------------------------------------------------------- promises of the assignors

  /** All three assignors depend on the set of members only, not on how they were listed. */
  lemma MemberOrderIrrelevant(count: nat, a: seq<MemberId>, b: seq<MemberId>, previous: Previous)
    requires multiset(a) == multiset(b)
    ensures RangeAssignment(count, a) == RangeAssignment(count, b)
    ensures RoundRobinAssignment(count, a) == RoundRobinAssignment(count, b)
    ensures StickyAssignment(count, a, previous) == StickyAssignment(count, b, previous)
  {
    StringLeIsTotalOrder();
    SortPermutation(StringLe, a, b);
    assert |multiset(a)| == |a| && |multiset(b)| == |b|;
  }

  predicate AllGone(count: nat, s: seq<nat>) {
    forall k :: 0 <= k < |s| ==> s[k] >= count
  }

  lemma {:induction false} NothingToKeep(count: nat, prior: Shares)
    requires forall i :: 0 <= i < |prior| ==> AllGone(count, prior[i])
    ensures Keep(count, prior) == Nobody(|prior|)
  {
    if prior != [] {
      var last := |prior| - 1;
      NothingToKeep(count, prior[..last]);
      NothingUnclaimed(count, Holdings(Keep(count, prior[..last])), prior[last]);
    }
  }

  lemma {:induction false} NothingUnclaimed(count: nat, claimed: multiset<nat>, s: seq<nat>)
    requires AllGone(count, s)
    ensures Unclaimed(count, claimed, s) == []
  {
    if s != [] {
      NothingUnclaimed(count, claimed, s[..|s| - 1]);
    }
  }

  lemma {:induction false} WholePool(count: nat)
    ensures Pool(count, multiset{}) == Span(0, count)
  {
    if count > 0 {
      WholePool(count - 1);
    }
  }

  /** After `p` deals the least loaded member is the one whose turn it is. */
  lemma TurnIsLeastLoaded(p: nat, n: nat)
    requires n > 0
    ensures LeastLoaded(Dealt(p, n)) == p % n
  {
    var lo := LeastLoaded(Dealt(p, n));
    LapIsDivision(p, n);
    LapSum(p, n);
    DealtLoads(p, n, lo);
    DealtLoads(p, n, Lap(p, n).1);
  }

  lemma {:induction false} FillDeals(p: nat, count: nat, n: nat)
    requires n > 0 && p <= count
    ensures Fill(Dealt(p, n), Span(p, count)) == Dealt(count, n)
    decreases count - p
  {
    if p < count {
      TurnIsLeastLoaded(p, n);
      assert Span(p, count)[0] == p && Span(p, count)[1..] == Span(p + 1, count);
      assert Dealt(p + 1, n) == Give(Dealt(p, n), p % n, p);
      FillDeals(p + 1, count, n);
    }
  }

  lemma DealtBalanced(count: nat, n: nat)
    requires n > 0
    ensures Balanced(Dealt(count, n))
  {
    forall j | 0 <= j < n
      ensures |Dealt(count, n)[j]| == ShareSize(Lap(count, n).0, Lap(count, n).1, j)
    {
      DealtLoads(count, n, j);
    }
  }

  lemma SortOfOrdered(s: seq<nat>)
    requires Ordered(NatLe, s)
    ensures SortNats(s) == s
  {
    SortOrdered<nat>(NatLe, s);
    OrderedUnique<nat>(NatLe, SortNats(s), s);
  }

  lemma ColdFill(count: nat, prior: Shares)
    requires prior != [] && forall i :: 0 <= i < |prior| ==> AllGone(count, prior[i])
    ensures Filled(count, prior) == Dealt(count, |prior|)
  {
    var n := |prior|;
    NothingToKeep(count, prior);
    EmptyHoldings(n);
    WholePool(count);
    FillDeals(0, count, n);
  }

  /** When nobody in the group owned anything that still exists, sticky deals round robin. */
  lemma ColdStartIsRoundRobin(count: nat, prior: Shares)
    requires prior != [] && forall i :: 0 <= i < |prior| ==> AllGone(count, prior[i])
    ensures Assign(count, prior) == Dealt(count, |prior|)
  {
    var n := |prior|;
    ColdFill(count, prior);
    DealtBalanced(count, n);
    assert LevelOut(prior, Dealt(count, n)) == Dealt(count, n);
    forall j | 0 <= j < n
      ensures SortNats(Dealt(count, n)[j]) == Dealt(count, n)[j]
    {
      DealtTo(count, n, j);
      SortOfOrdered(Dealt(count, n)[j]);
    }
  }

  /** How many members a list names before it first repeats one. */
  function FirstRepeat(s: seq<MemberId>): (r: nat)
    ensures r <= |s|
  {
    if s == [] then 0
    else
      var front := s[..|s| - 1];
      var r := FirstRepeat(front);
      if r < |front| || s[|s| - 1] in front then r else |s|
  }

  lemma {:induction false} FirstRepeatIs(s: seq<MemberId>)
    ensures FirstRepeat(s) < |s| ==> s[FirstRepeat(s)] in s[..FirstRepeat(s)]
    ensures FirstRepeat(s) == |s| <==> Distinct(s)
  {
    if s != [] {
      var front := s[..|s| - 1];
      FirstRepeatIs(front);
      assert front[..FirstRepeat(front)] == s[..FirstRepeat(front)];
      assert s == front + [s[|s| - 1]];
    }
  }

  /** Up to the first repeat the members stand where the list has them. */
  lemma {:induction false} UpToFirstRepeat(s: seq<MemberId>)
    ensures s[..FirstRepeat(s)] <= Dedup(s)
  {
    if s != [] {
      var front := s[..|s| - 1];
      UpToFirstRepeat(front);
      assert front[..FirstRepeat(front)] == s[..FirstRepeat(front)];
      if FirstRepeat(s) == |s| {
        FirstRepeatIs(s);
        DedupMembers(s);
        assert s[..|s|] == s;
      }
    }
  }

  /** One partition each to the first `count` members. */
  ghost predicate OneEach(count: nat, shares: Shares) {
    forall j :: 0 <= j < |shares| ==> shares[j] == if j < count then [j] else []
  }

  lemma SmallModulo(p: nat, n: nat)
    requires p < n
    ensures p % n == p
  {
  }

  lemma {:induction false} DealtFew(count: nat, n: nat)
    requires 0 < n && count <= n
    ensures OneEach(count, Dealt(count, n))
    decreases count
  {
    if count > 0 {
      DealtFew(count - 1, n);
      SmallModulo(count - 1, n);
    }
  }

  lemma DealtSome(count: nat, n: nat, i: nat)
    requires i < n && i < count
    ensures Dealt(count, n)[i] != []
  {
    DealtTo(count, n, i);
    SmallModulo(i, n);
    assert i in Dealt(count, n)[i];
  }

  lemma {:induction false} SpreadAt(sorted: seq<MemberId>, given: map<MemberId, seq<nat>>, i: nat)
    requires i < |sorted| && forall id <- sorted :: id in given
    ensures Spread(sorted, given)[i] == (sorted[i], if sorted[i] in sorted[..i] then [] else given[sorted[i]])
  {
    var front := sorted[..|sorted| - 1];
    if i < |front| {
      SpreadAt(front, given, i);
      assert front[..i] == sorted[..i];
    }
  }

  /** Where a first-named member stands among the members: in its place before the first repeat, else past it. */
  lemma PlaceOf(ids: seq<MemberId>, sorted: seq<MemberId>, r: nat, i: nat) returns (j: nat)
    requires i < |sorted| && sorted[i] in ids && sorted[i] !in sorted[..i] && r <= |sorted| && sorted[..r] <= ids
    ensures j < |ids| && ids[j] == sorted[i] && if i < r then j == i else j >= r
  {
    if i < r {
      j := i;
      assert sorted[..r][i] == ids[i];
    } else {
      j :| 0 <= j < |ids| && ids[j] == sorted[i];
      assert sorted[..i][..r] == sorted[..r];
    }
  }

  /** What one place of a sorted list gets when the first members have one partition each. */
  lemma FewAt(count: nat, ids: seq<MemberId>, shares: Shares, sorted: seq<MemberId>, r: nat, i: nat)
    requires |ids| == |shares| && Distinct(ids) && (forall id <- sorted :: id in ids) && i < |sorted|
    requires count <= r <= |sorted| && sorted[..r] <= ids && OneEach(count, shares)
    ensures Spread(sorted, GivenTo(ids, shares))[i] == (sorted[i], if i < count then [i] else [])
  {
    SpreadAt(sorted, GivenTo(ids, shares), i);
    if sorted[i] !in sorted[..i] {
      var j := PlaceOf(ids, sorted, r, i);
      GivenToEach(ids, shares, j);
    } else if i < r {
      InPlace(ids, sorted, r, i);
    }
  }

  /** With few enough partitions, none goes to a repeat or to a member first named after one. */
  lemma FewAgree(count: nat, ids: seq<MemberId>, shares: Shares, sorted: seq<MemberId>, all: Shares, r: nat)
    requires |ids| == |shares| && Distinct(ids) && (forall id <- sorted :: id in ids) && |sorted| == |all|
    requires count <= r <= |sorted| && sorted[..r] <= ids && OneEach(count, shares) && OneEach(count, all)
    ensures Spread(sorted, GivenTo(ids, shares)) == Named(sorted, all)
  {
    forall i | 0 <= i < |sorted|
      ensures Spread(sorted, GivenTo(ids, shares))[i] == Named(sorted, all)[i]
    {
      FewAt(count, ids, shares, sorted, r, i);
    }
  }

  lemma InPlace(ids: seq<MemberId>, sorted: seq<MemberId>, r: nat, i: nat)
    requires Distinct(ids) && i < r <= |sorted| && sorted[..r] <= ids
    ensures sorted[i] !in sorted[..i]
  {
    forall k | 0 <= k < i
      ensures sorted[k] != sorted[i]
    {
      assert sorted[..r][k] == ids[k] && sorted[..r][i] == ids[i];
    }
  }

  /** With more, round robin deals the repeat a partition and sticky does not. */
  lemma ManyDisagree(count: nat, sorted: seq<MemberId>, given: map<MemberId, seq<nat>>)
    requires (forall id <- sorted :: id in given) && FirstRepeat(sorted) < |sorted| && count > FirstRepeat(sorted)
    ensures Spread(sorted, given) != Named(sorted, Dealt(count, |sorted|))
  {
    var r := FirstRepeat(sorted);
    FirstRepeatIs(sorted);
    SpreadAt(sorted, given, r);
    DealtSome(count, |sorted|, r);
    assert Named(sorted, Dealt(count, |sorted|))[r].1 != [];
  }

  lemma ColdAgreesIff(count: nat, sorted: seq<MemberId>)
    requires Ordered(StringLe, sorted) && sorted != []
    ensures StickyFrom(count, sorted, map[]) == Named(sorted, Dealt(count, |sorted|))
       <==> Distinct(sorted) || count <= FirstRepeat(sorted)
  {
    var ids := Dedup(sorted);
    DedupLists(sorted);
    assert sorted[0] in ids;
    ColdShares(count, ids);
    FirstRepeatIs(sorted);
    if Distinct(sorted) {
      SpreadGiven(ids, Dealt(count, |ids|));
    } else if count <= FirstRepeat(sorted) {
      UpToFirstRepeat(sorted);
      DealtFew(count, |ids|);
      DealtFew(count, |sorted|);
      FewAgree(count, ids, Dealt(count, |ids|), sorted, Dealt(count, |sorted|), FirstRepeat(sorted));
    } else {
      ManyDisagree(count, sorted, GivenTo(ids, Dealt(count, |ids|)));
    }
  }

  /**
   With no previous assignment, sticky and round-robin agree exactly when no member is listed
   twice or there are no more partitions than members named before the first repeat.
   */
  lemma ColdStartAgrees(count: nat, memberIds: seq<MemberId>)
    ensures StickyAssignment(count, memberIds, map[]) == RoundRobinAssignment(count, memberIds)
       <==> Distinct(memberIds) || count <= FirstRepeat(Sort(StringLe, memberIds))
  {
    if memberIds != [] {
      var sorted := Sort(StringLe, memberIds);
      SortedIds(memberIds);
      SameMembers(sorted, memberIds);
      assert memberIds[0] in sorted;
      ColdAgreesIff(count, sorted);
    }
  }

  /** A member listed twice: round robin gives it both partitions in two halves, sticky in one piece. */
  lemma RepeatedMemberSplits()
    ensures StickyAssignment(2, ["a", "a"], map[]) != RoundRobinAssignment(2, ["a", "a"])
  {
    var ids := ["a", "a"];
    assert ids[0] == ids[1];
    var sorted := Sort(StringLe, ids);
    SortedIds(ids);
    SameMembers(sorted, ids);
    ColdStartAgrees(2, ids);
    FirstRepeatIs(sorted);
    assert |multiset(sorted)| == |sorted| && |multiset(ids)| == |ids|;
  }

  lemma ColdShares(count: nat, ids: seq<MemberId>)
    requires ids != []
    ensures Assign(count, Priors(ids, map[])) == Dealt(count, |ids|)
  {
    ColdStartIsRoundRobin(count, Priors(ids, map[]));
  }

  /** A previous assignment of a group: no member lists a partition twice, no two list the same one. */
  ghost predicate WasAGroup(previous: Previous) {
    && (forall m {:trigger previous[m]} :: m in previous ==> Distinct(previous[m]))
    && (forall m, o, p :: m in previous && o in previous && m != o && p in previous[m] ==> p !in previous[o])
  }

  /** What was handed out, lined up with the sorted members. */
  function SharesIn(a: Assignment): Shares {
    seq(|a|, i requires 0 <= i < |a| => a[i].1)
  }

  lemma PriorsAreConsistent(ids: seq<MemberId>, previous: Previous)
    requires Distinct(ids) && WasAGroup(previous)
    ensures Consistent(Priors(ids, previous))
  {
  }

  lemma SortedMembers(memberIds: seq<MemberId>)
    requires Distinct(memberIds)
    ensures |Sort(StringLe, memberIds)| == |memberIds| && Distinct(Sort(StringLe, memberIds))
  {
    var ids := Sort(StringLe, memberIds);
    SameMembers(ids, memberIds);
    assert |multiset(ids)| == |ids| && |multiset(memberIds)| == |memberIds|;
  }

  lemma SharesInSticky(count: nat, memberIds: seq<MemberId>, previous: Previous)
    requires memberIds != [] && Distinct(memberIds)
    ensures Sort(StringLe, memberIds) != []
    ensures SharesIn(StickyAssignment(count, memberIds, previous))
         == Assign(count, Priors(Sort(StringLe, memberIds), previous))
  {
    StickyIsNamed(count, memberIds, previous);
  }

  /** Exactly once, balanced, and leaving at least as many partitions in place as `other`. */
  ghost predicate BestAgainst(count: nat, prior: Shares, given: Shares, other: Shares)
    requires |prior| == |given| == |other|
  {
    ExactlyOnce(count, given) && Balanced(given) && Stays(prior, other) <= Stays(prior, given)
  }

  lemma AssignIsBest(count: nat, prior: Shares, other: Shares)
    requires prior != [] && Consistent(prior)
    requires |other| == |prior| && ExactlyOnce(count, other) && Balanced(other)
    ensures BestAgainst(count, prior, Assign(count, prior), other)
  {
    assert forall s <- prior :: Distinct(s);
    CoversOnce(count, prior);
    AssignBalanced(count, prior);
    StickyKeepsTheMost(count, prior, other);
  }

  /**
   The whole promise, for named members: every partition once, loads within one of each other,
   and no other such assignment leaves more partitions where they were.
   */
  lemma StickyIsBest(count: nat, memberIds: seq<MemberId>, previous: Previous, other: Shares)
    requires memberIds != [] && Distinct(memberIds) && WasAGroup(previous)
    requires |other| == |memberIds| && ExactlyOnce(count, other) && Balanced(other)
    ensures var ids, given := Sort(StringLe, memberIds), SharesIn(StickyAssignment(count, memberIds, previous));
            |ids| == |given| == |other| && BestAgainst(count, Priors(ids, previous), given, other)
  {
    var ids := Sort(StringLe, memberIds);
    SortedMembers(memberIds);
    PriorsAreConsistent(ids, previous);
    SharesInSticky(count, memberIds, previous);
    AssignIsBest(count, Priors(ids, previous), other);
  }
}
