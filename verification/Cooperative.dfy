/**
 How a rebalance reaches the members. The leader submits one assignment (eager strategies) or
 two (cooperative-sticky: first what each member may keep, then the target); members switch
 over one by one, in any order, and no round is delivered before all members finished the one
 before it. `stages[k]` is who owns what once `k` rounds are applied, by sorted member index.
 */
module Cooperative {
  import opened Sorting
  import opened Sticky
  import opened StickyOptimal
  import opened Assignors

  datatype Strategy = RangeStrategy | RoundRobinStrategy | StickyStrategy | CooperativeSticky

  function TargetShares(strategy: Strategy, count: nat, prior: Shares): (r: Shares)
    requires prior != []
    ensures |r| == |prior|
  {
    match strategy
    case RangeStrategy => RangeShares(count, |prior|)
    case RoundRobinStrategy => Dealt(count, |prior|)
    case StickyStrategy => Assign(count, prior)
    case CooperativeSticky => Assign(count, prior)
  }

  // ---------------------------------------------------------------- round one

  function Narrow(target: seq<nat>, owned: seq<nat>): seq<nat> {
    if target == [] then []
    else
      var p := target[|target| - 1];
      Narrow(target[..|target| - 1], owned) + if p in owned then [p] else []
  }

  function KeepSets(target: Shares, prior: Shares): (r: Shares)
    requires |target| == |prior|
    ensures |r| == |target| && forall i :: 0 <= i < |r| ==> r[i] == Narrow(target[i], prior[i])
  {
    seq(|target|, i requires 0 <= i < |target| => Narrow(target[i], prior[i]))
  }

  /** Narrowing is intersection, and it is the same length exactly when it dropped nothing. */
  lemma {:induction false} NarrowIsIntersection(target: seq<nat>, owned: seq<nat>)
    ensures forall p :: p in Narrow(target, owned) <==> p in target && p in owned
    ensures |Narrow(target, owned)| <= |target|
    ensures |Narrow(target, owned)| == |target| <==> Narrow(target, owned) == target
  {
    if target != [] {
      var front := target[..|target| - 1];
      NarrowIsIntersection(front, owned);
      assert target == front + [target[|target| - 1]];
    }
  }

  /** What a member keeps of its target. */
  function KeepOf(wanted: (MemberId, seq<nat>), previous: Previous): (MemberId, seq<nat>) {
    (wanted.0, Narrow(wanted.1, if wanted.0 in previous then previous[wanted.0] else []))
  }

  function KeepEach(target: Assignment, previous: Previous): (keep: Assignment)
    ensures |keep| == |target| && forall i :: 0 <= i < |target| ==> keep[i] == KeepOf(target[i], previous)
  {
    seq(|target|, i requires 0 <= i < |target| => KeepOf(target[i], previous))
  }

  lemma KeepOneMore(target: Assignment, previous: Previous, i: nat)
    requires i < |target|
    ensures KeepEach(target[..i + 1], previous) == KeepEach(target[..i], previous) + [KeepOf(target[i], previous)]
    ensures KeepEach(target[..i + 1], previous) == target[..i + 1]
       <==> KeepEach(target[..i], previous) == target[..i] && |KeepOf(target[i], previous).1| == |target[i].1|
  {
    NarrowIsIntersection(target[i].1, if target[i].0 in previous then previous[target[i].0] else []);
    assert target[..i + 1] == target[..i] + [target[i]];
  }

  method CooperativeRoundOne(target: Assignment, previous: Previous)
    returns (keep: Assignment, needsSecondRound: bool)
    ensures keep == KeepEach(target, previous)
    ensures needsSecondRound <==> keep != target
  {
    keep := [];
    needsSecondRound := false;
    for i := 0 to |target|
      invariant keep == KeepEach(target[..i], previous)
      invariant needsSecondRound <==> keep != target[..i]
    {
      KeepOneMore(target, previous, i);
      var (id, wanted) := target[i];
      var owned := if id in previous then previous[id] else [];
      var kept := NarrowLoop(wanted, owned);
      if |kept| != |wanted| {
        needsSecondRound := true;
      }
      keep := keep + [(id, kept)];
    }
    assert target[..|target|] == target;
  }

  method NarrowLoop(target: seq<nat>, owned: seq<nat>) returns (kept: seq<nat>)
    ensures kept == Narrow(target, owned)
  {
    kept := [];
    for i := 0 to |target|
      invariant kept == Narrow(target[..i], owned)
    {
      assert target[..i + 1][..i] == target[..i];
      if target[i] in owned {
        kept := kept + [target[i]];
      }
    }
    assert target[..|target|] == target;
  }

  /** What is submitted, in order: the target alone, or the keep-sets first if they differ from it. */
  function Rounds(strategy: Strategy, target: Shares, prior: Shares): (rounds: seq<Shares>)
    requires |target| == |prior|
    ensures 1 <= |rounds| <= 2 && rounds[|rounds| - 1] == target
    ensures forall k :: 0 <= k < |rounds| ==> |rounds[k]| == |prior|
  {
    if strategy != CooperativeSticky || KeepSets(target, prior) == target then [target]
    else [KeepSets(target, prior), target]
  }

  function NamedRounds(ids: seq<MemberId>, rounds: seq<Shares>): seq<Assignment>
    requires forall k :: 0 <= k < |rounds| ==> |rounds[k]| == |ids|
  {
    seq(|rounds|, k requires 0 <= k < |rounds| => Named(ids, rounds[k]))
  }

  lemma NamedIsFaithful(ids: seq<MemberId>, a: Shares, b: Shares)
    requires |a| == |b| == |ids| && Named(ids, a) == Named(ids, b)
    ensures a == b
  {
    assert forall i :: 0 <= i < |ids| ==> Named(ids, a)[i] == Named(ids, b)[i];
  }

  /** The leader's half of a rejoin: which assignments it submits, in order. */
  method LeaderRounds(strategy: Strategy, ids: seq<MemberId>, target: Shares, previous: Previous)
    returns (rounds: seq<Assignment>)
    requires |ids| == |target|
    ensures rounds == NamedRounds(ids, Rounds(strategy, target, Priors(ids, previous)))
  {
    var final := Named(ids, target);
    if strategy != CooperativeSticky {
      return [final];
    }
    ghost var prior := Priors(ids, previous);
    var keep, second := CooperativeRoundOne(final, previous);
    assert keep == Named(ids, KeepSets(target, prior));
    if !second {
      NamedIsFaithful(ids, KeepSets(target, prior), target);
    }
    rounds := if second then [keep, final] else [keep];
  }

  /** The partitions a strategy gives sorted member `i`, by what the strategy is named for. */
  ghost predicate AsNamed(strategy: Strategy, count: nat, prior: Shares, target: Shares)
    requires |target| == |prior|
  {
    var n := |prior|;
    match strategy
    case RangeStrategy =>
      forall i, p :: 0 <= i < n ==>
        (p in target[i] <==> i * (count / n) + Min(i, count % n) <= p < (i + 1) * (count / n) + Min(i + 1, count % n))
    case RoundRobinStrategy => forall i, p :: 0 <= i < n ==> (p in target[i] <==> 0 <= p < count && p % n == i)
    case StickyStrategy => KeepsTheMost(count, prior, target)
    case CooperativeSticky => KeepsTheMost(count, prior, target)
  }

  ghost predicate KeepsTheMost(count: nat, prior: Shares, target: Shares)
    requires |target| == |prior|
  {
    Consistent(prior) ==>
      forall other: Shares :: |other| == |prior| && ExactlyOnce(count, other) && Balanced(other) ==>
        BestAgainst(count, prior, target, other)
  }

  /** Every strategy does what its name says. */
  lemma StrategyAsNamed(strategy: Strategy, count: nat, prior: Shares)
    requires prior != []
    ensures AsNamed(strategy, count, prior, TargetShares(strategy, count, prior))
  {
    var n := |prior|;
    match strategy {
      case RangeStrategy =>
        forall i | 0 <= i < n
          ensures forall p :: p in RangeShares(count, n)[i] <==>
                    i * (count / n) + Min(i, count % n) <= p < (i + 1) * (count / n) + Min(i + 1, count % n)
        {
          RangeShareAt(count, n, i);
        }
      case RoundRobinStrategy =>
        forall i | 0 <= i < n
          ensures forall p :: p in Dealt(count, n)[i] <==> 0 <= p < count && p % n == i
        {
          DealtTo(count, n, i);
        }
      case StickyStrategy => StickyKeeps(count, prior);
      case CooperativeSticky => StickyKeeps(count, prior);
    }
  }

  lemma StickyKeeps(count: nat, prior: Shares)
    requires prior != []
    ensures KeepsTheMost(count, prior, Assign(count, prior))
  {
    forall other: Shares | Consistent(prior) && |other| == |prior| && ExactlyOnce(count, other) && Balanced(other)
      ensures BestAgainst(count, prior, Assign(count, prior), other)
    {
      AssignIsBest(count, prior, other);
    }
  }

  /** The assignor a strategy runs. */
  function TargetOf(strategy: Strategy, count: nat, memberIds: seq<MemberId>, previous: Previous): Assignment {
    match strategy
    case RangeStrategy => RangeAssignment(count, memberIds)
    case RoundRobinStrategy => RoundRobinAssignment(count, memberIds)
    case StickyStrategy => StickyAssignment(count, memberIds, previous)
    case CooperativeSticky => StickyAssignment(count, memberIds, previous)
  }

  method AssignBy(strategy: Strategy, count: nat, memberIds: seq<MemberId>, previous: Previous)
    returns (target: Assignment)
    ensures target == TargetOf(strategy, count, memberIds, previous)
  {
    match strategy {
      case RangeStrategy => target := AssignRange(count, memberIds);
      case RoundRobinStrategy => target := AssignRoundRobin(count, memberIds);
      case StickyStrategy => target := AssignSticky(count, memberIds, previous);
      case CooperativeSticky => target := AssignSticky(count, memberIds, previous);
    }
  }

  /** It hands the members, in sorted order, exactly the strategy's shares. */
  lemma TargetIsNamed(strategy: Strategy, count: nat, memberIds: seq<MemberId>, previous: Previous)
    requires memberIds != [] && Distinct(memberIds)
    ensures var ids := Sort(StringLe, memberIds);
            && ids != []
            && TargetOf(strategy, count, memberIds, previous)
               == Named(ids, TargetShares(strategy, count, Priors(ids, previous)))
  {
    SortedMembers(memberIds);
    if strategy.StickyStrategy? || strategy.CooperativeSticky? {
      StickyIsNamed(count, memberIds, previous);
    }
  }

  /** Eager strategies submit the target and nothing else; a cooperative one waits a round iff some member must give or get. */
  lemma OneRoundIff(strategy: Strategy, target: Shares, prior: Shares)
    requires |target| == |prior|
    ensures Rounds(strategy, target, prior) == [target]
       <==> strategy != CooperativeSticky || forall i :: 0 <= i < |target| ==> forall p <- target[i] :: p in prior[i]
    ensures |Rounds(strategy, target, prior)| == 2 ==>
              forall i :: 0 <= i < |target| ==>
                forall p :: p in Rounds(strategy, target, prior)[0][i] <==> p in target[i] && p in prior[i]
  {
    forall i | 0 <= i < |target|
      ensures Narrow(target[i], prior[i]) == target[i] <==> forall p <- target[i] :: p in prior[i]
    {
      NarrowAllIff(target[i], prior[i]);
      NarrowIsIntersection(target[i], prior[i]);
    }
    assert KeepSets(target, prior) == target <==> forall i :: 0 <= i < |target| ==> KeepSets(target, prior)[i] == target[i];
    forall i | 0 <= i < |target|
      ensures forall p :: p in KeepSets(target, prior)[i] <==> p in target[i] && p in prior[i]
    {
      NarrowIsIntersection(target[i], prior[i]);
    }
  }

  lemma {:induction false} NarrowAllIff(target: seq<nat>, owned: seq<nat>)
    ensures Narrow(target, owned) == target <==> forall p <- target :: p in owned
  {
    NarrowIsIntersection(target, owned);
    if target != [] {
      var front := target[..|target| - 1];
      NarrowAllIff(front, owned);
      NarrowIsIntersection(front, owned);
      assert target == front + [target[|target| - 1]];
    }
  }

  // ---------------------------------------------------------------- the rollout

  ghost predicate WellStaged(stages: seq<Shares>, phase: seq<nat>) {
    && (forall k :: 0 <= k < |stages| ==> |stages[k]| == |phase|)
    && (forall i :: 0 <= i < |phase| ==> phase[i] < |stages|)
  }

  function Owned(stages: seq<Shares>, phase: seq<nat>, i: nat): seq<nat>
    requires WellStaged(stages, phase) && i < |phase|
  {
    stages[phase[i]][i]
  }

  ghost predicate DoubleOwned(stages: seq<Shares>, phase: seq<nat>)
    requires WellStaged(stages, phase)
  {
    exists i, j, p ::
      0 <= i < j < |phase| && p in Owned(stages, phase, i) && p in Owned(stages, phase, j)
  }

  /** Member `m` applies its next round; the round is out only once nobody is behind it. */
  ghost predicate CanSwitch(stages: seq<Shares>, phase: seq<nat>, m: nat) {
    m < |phase| && phase[m] + 1 < |stages| && forall x :: 0 <= x < |phase| ==> phase[m] <= phase[x]
  }

  ghost predicate Switches(stages: seq<Shares>, phase: seq<nat>, run: seq<nat>)
    requires WellStaged(stages, phase)
    decreases |run|
  {
    run == [] ||
    (CanSwitch(stages, phase, run[0])
     && Switches(stages, phase[run[0] := phase[run[0]] + 1], run[1..]))
  }

  ghost function Reached(stages: seq<Shares>, phase: seq<nat>, run: seq<nat>): (r: seq<nat>)
    requires WellStaged(stages, phase) && Switches(stages, phase, run)
    ensures WellStaged(stages, r) && |r| == |phase|
    decreases |run|
  {
    if run == [] then phase else Reached(stages, phase[run[0] := phase[run[0]] + 1], run[1..])
  }

  function AtStart(n: nat): (phase: seq<nat>)
    ensures |phase| == n && forall i :: 0 <= i < n ==> phase[i] == 0
  {
    seq(n, i => 0)
  }

  /** No two members share a partition when one is on `a` and the other on `b`. */
  predicate Apart(a: Shares, b: Shares) {
    |a| == |b| && forall i, j, p :: 0 <= i < |a| && 0 <= j < |b| && i != j && p in a[i] ==> p !in b[j]
  }

  ghost predicate SafeStages(stages: seq<Shares>) {
    && (forall k :: 0 <= k < |stages| ==> Apart(stages[k], stages[k]))
    && (forall k :: 0 <= k < |stages| - 1 ==> Apart(stages[k], stages[k + 1]))
  }

  /** All members are within one round of each other. */
  predicate InStep(phase: seq<nat>) {
    forall i, j :: 0 <= i < |phase| && 0 <= j < |phase| ==> phase[i] <= phase[j] + 1
  }

  lemma InStepIsSafe(stages: seq<Shares>, phase: seq<nat>)
    requires WellStaged(stages, phase) && SafeStages(stages) && InStep(phase)
    ensures !DoubleOwned(stages, phase)
  {
    forall i, j, p | 0 <= i < j < |phase| && p in Owned(stages, phase, i)
      ensures p !in Owned(stages, phase, j)
    {
      var a, b := phase[i], phase[j];
      if a == b {
        assert Apart(stages[a], stages[a]);
      } else if a < b {
        assert Apart(stages[a], stages[a + 1]);
      } else {
        assert Apart(stages[b], stages[b + 1]);
      }
    }
  }

  /** With safe stages, no interleaving of switch-overs ever gives a partition two owners. */
  lemma {:induction false} RolloutIsSafe(stages: seq<Shares>, phase: seq<nat>, run: seq<nat>)
    requires WellStaged(stages, phase) && SafeStages(stages) && InStep(phase)
    requires Switches(stages, phase, run)
    ensures InStep(Reached(stages, phase, run))
    ensures !DoubleOwned(stages, Reached(stages, phase, run))
    decreases |run|
  {
    if run == [] {
      InStepIsSafe(stages, phase);
    } else {
      RolloutIsSafe(stages, phase[run[0] := phase[run[0]] + 1], run[1..]);
    }
  }

  lemma KeepSetsShrinkThenGrow(target: Shares, prior: Shares)
    requires |target| == |prior|
    ensures forall i :: 0 <= i < |target| ==> Within(KeepSets(target, prior)[i], prior[i])
    ensures forall i :: 0 <= i < |target| ==> Within(KeepSets(target, prior)[i], target[i])
  {
    forall i | 0 <= i < |target|
      ensures Within(KeepSets(target, prior)[i], prior[i]) && Within(KeepSets(target, prior)[i], target[i])
    {
      NarrowIsIntersection(target[i], prior[i]);
    }
  }

  /** Revoke before reassign: previous, keep-sets, target is a safe sequence of stages. */
  lemma CooperativeStagesAreSafe(target: Shares, prior: Shares)
    requires |target| == |prior| && Apart(prior, prior) && Apart(target, target)
    ensures SafeStages(Stages(CooperativeSticky, target, prior))
  {
    KeepSetsShrinkThenGrow(target, prior);
  }

  lemma ExactlyOnceIsApart(count: nat, shares: Shares)
    requires ExactlyOnce(count, shares)
    ensures Apart(shares, shares)
  {
    forall i, j, p | 0 <= i < |shares| && 0 <= j < |shares| && i != j && p in shares[i]
      ensures p !in shares[j]
    {
      if p in shares[j] {
        TwiceHeld(shares, if i < j then i else j, if i < j then j else i, p);
      }
    }
  }

  lemma {:induction false} TwiceHeld(shares: Shares, i: nat, j: nat, p: nat)
    requires i < j < |shares| && p in shares[i] && p in shares[j]
    ensures Holdings(shares)[p] >= 2
  {
    var last := |shares| - 1;
    if j < last {
      TwiceHeld(shares[..last], i, j, p);
    } else {
      HeldInHoldings(shares[..last], i, p);
      assert p in multiset(shares[..last][i]);
    }
  }

  /** Previous owners, then what the leader submits. */
  function Stages(strategy: Strategy, target: Shares, prior: Shares): (stages: seq<Shares>)
    requires |target| == |prior|
    ensures |stages| >= 2 && stages[0] == prior && stages[|stages| - 1] == target && WellStaged(stages, AtStart(|prior|))
  {
    [prior] + Rounds(strategy, target, prior)
  }

  /**
   A whole cooperative-sticky rebalance, from any previous assignment no two members share: in
   every interleaving of what the leader submits, after every switch, no partition has two owners.
   */
  lemma CooperativeNeverDoubleOwns(count: nat, prior: Shares, target: Shares, run: seq<nat>)
    requires prior != [] && Consistent(prior)
    requires target == TargetShares(CooperativeSticky, count, prior)
    requires Switches(Stages(CooperativeSticky, target, prior), AtStart(|prior|), run)
    ensures var stages := Stages(CooperativeSticky, target, prior);
            !DoubleOwned(stages, Reached(stages, AtStart(|prior|), run))
  {
    StickyTargetApart(count, prior);
    CooperativeStagesAreSafe(target, prior);
    RolloutIsSafe(Stages(CooperativeSticky, target, prior), AtStart(|prior|), run);
  }

  lemma StickyTargetApart(count: nat, prior: Shares)
    requires prior != [] && Consistent(prior)
    ensures Apart(Assign(count, prior), Assign(count, prior))
  {
    assert forall s <- prior :: Distinct(s);
    CoversOnce(count, prior);
    ExactlyOnceIsApart(count, Assign(count, prior));
  }

  lemma StuckIsDone(stages: seq<Shares>, phase: seq<nat>, i: nat)
    requires stages != [] && WellStaged(stages, phase) && i < |phase|
    requires forall m: nat :: !CanSwitch(stages, phase, m)
    ensures phase[i] == |stages| - 1
  {
    var m := Slowest(phase, i);
    assert !CanSwitch(stages, phase, m);
  }

  /** Under every strategy, a run from the start that can go no further leaves everybody with exactly its target. */
  lemma RolloutEndsAtTarget(strategy: Strategy, target: Shares, prior: Shares, run: seq<nat>)
    requires |target| == |prior| && Switches(Stages(strategy, target, prior), AtStart(|prior|), run)
    requires var stages := Stages(strategy, target, prior);
             forall m: nat :: !CanSwitch(stages, Reached(stages, AtStart(|prior|), run), m)
    ensures var stages := Stages(strategy, target, prior);
            forall i :: 0 <= i < |prior| ==> Owned(stages, Reached(stages, AtStart(|prior|), run), i) == target[i]
  {
    var stages := Stages(strategy, target, prior);
    var phase := Reached(stages, AtStart(|prior|), run);
    forall i | 0 <= i < |prior|
      ensures Owned(stages, phase, i) == target[i]
    {
      StuckIsDone(stages, phase, i);
    }
  }

  /** How many switches are still to come. */
  function Remaining(stages: seq<Shares>, phase: seq<nat>): nat
    requires forall i :: 0 <= i < |phase| ==> phase[i] < |stages|
  {
    if phase == [] then 0
    else Remaining(stages, phase[..|phase| - 1]) + |stages| - 1 - phase[|phase| - 1]
  }

  lemma {:induction false} SwitchCounts(stages: seq<Shares>, phase: seq<nat>, m: nat)
    requires (forall i :: 0 <= i < |phase| ==> phase[i] < |stages|) && m < |phase| && phase[m] + 1 < |stages|
    ensures Remaining(stages, phase[m := phase[m] + 1]) == Remaining(stages, phase) - 1
  {
    var last, next := |phase| - 1, phase[m := phase[m] + 1];
    if m < last {
      SwitchCounts(stages, phase[..last], m);
      assert next[..last] == phase[..last][m := phase[m] + 1];
    } else {
      assert next[..last] == phase[..last];
    }
  }

  /** And every run gets there: each switch uses one up, and there are only so many. */
  lemma {:induction false} RolloutEnds(stages: seq<Shares>, phase: seq<nat>, run: seq<nat>)
    requires WellStaged(stages, phase) && Switches(stages, phase, run)
    ensures |run| + Remaining(stages, Reached(stages, phase, run)) == Remaining(stages, phase)
    decreases |run|
  {
    if run != [] {
      SwitchCounts(stages, phase, run[0]);
      RolloutEnds(stages, phase[run[0] := phase[run[0]] + 1], run[1..]);
    }
  }

  lemma {:induction false} Slowest(phase: seq<nat>, i: nat) returns (m: nat)
    requires i < |phase|
    ensures m < |phase| && phase[m] <= phase[i]
    ensures forall x :: 0 <= x < |phase| ==> phase[m] <= phase[x]
  {
    m := i;
    for x := 0 to |phase|
      invariant m < |phase| && phase[m] <= phase[i]
      invariant forall y :: 0 <= y < x ==> phase[m] <= phase[y]
    {
      if phase[x] < phase[m] {
        m := x;
      }
    }
  }

  /**
   Handing the target out in one go is safe in every interleaving exactly when no partition
   changes hands between two members.
   */
  lemma OneRoundIsSafeIff(prior: Shares, target: Shares)
    requires |target| == |prior| && Apart(prior, prior) && Apart(target, target)
    ensures (forall run :: Switches([prior, target], AtStart(|prior|), run) ==>
               !DoubleOwned([prior, target], Reached([prior, target], AtStart(|prior|), run)))
            <==> Apart(prior, target)
  {
    var stages, start := [prior, target], AtStart(|prior|);
    if Apart(prior, target) {
      forall run | Switches(stages, start, run)
        ensures !DoubleOwned(stages, Reached(stages, start, run))
      {
        RolloutIsSafe(stages, start, run);
      }
    } else {
      var i, j, p :| 0 <= i < |prior| && 0 <= j < |target| && i != j && p in prior[i] && p in target[j];
      var run := [j];
      var moved := start[j := 1];
      assert run[1..] == [];
      assert Switches(stages, moved, []);
      assert Switches(stages, start, run) && Reached(stages, start, run) == moved;
      assert p in Owned(stages, moved, i) && p in Owned(stages, moved, j);
    }
  }
}
