/**
 The other half of the election: any majority that is up can elect any of its members, from any
 state, whatever happens to the rest. `Election` says that nothing less can.
 */
module Electable {
  import opened Wrappers
  import opened Bytes
  import opened Consensus
  import opened Election
  import opened Sizes

  predicate OnlyMove(actions: seq<Action>, movers: set<NodeId>) {
    forall i :: 0 <= i < |actions| ==> actions[i].n in movers
  }

  /** A run from one state to another in which only these nodes act. */
  ghost predicate Leads(c: Config, s: Cluster, actions: seq<Action>, t: Cluster, movers: set<NodeId>) {
    Shaped(c, s) && OnlyMove(actions, movers) && Runs(c, s, actions) && After(c, s, actions) == t
  }

  lemma {:induction false} RunsJoin(c: Config, s: Cluster, first: seq<Action>, second: seq<Action>)
    requires Shaped(c, s) && Runs(c, s, first) && Runs(c, After(c, s, first), second)
    ensures Runs(c, s, first + second) && After(c, s, first + second) == After(c, After(c, s, first), second)
    decreases |first|
  {
    if first == [] {
      assert first + second == second;
    } else {
      var all := first + second;
      assert all[0] == first[0] && all[1..] == first[1..] + second;
      RunsJoin(c, Apply(c, s, first[0]), first[1..], second);
    }
  }

  /** Two runs, one after the other. */
  lemma LeadsOn(c: Config, s: Cluster, first: seq<Action>, mid: Cluster, some: set<NodeId>,
                second: seq<Action>, t: Cluster, others: set<NodeId>)
    requires Leads(c, s, first, mid, some) && Leads(c, mid, second, t, others)
    ensures Leads(c, s, first + second, t, some + others)
  {
    RunsJoin(c, s, first, second);
  }

  lemma LeadsByOne(c: Config, s: Cluster, a: Action)
    requires Shaped(c, s) && Enabled(c, s, a)
    ensures Leads(c, s, [a], Apply(c, s, a), {a.n})
  {
    assert [a][1..] == [];
    assert Runs(c, Apply(c, s, a), []);
  }

  // ---------------------------------------------------------------- getting ready

  /** Nobody but these nodes changed. */
  ghost predicate RestStays(c: Config, s: Cluster, t: Cluster, movers: set<NodeId>) {
    Shaped(c, s) && Shaped(c, t) && forall m <- c.peers :: m !in movers ==> t.hosts[m] == s.hosts[m]
  }

  lemma RestStaysOn(c: Config, s: Cluster, mid: Cluster, t: Cluster, some: set<NodeId>, others: set<NodeId>)
    requires RestStays(c, s, mid, some) && RestStays(c, mid, t, others)
    ensures RestStays(c, s, t, some + others)
  {
  }

  lemma BackIn<T>(side: set<T>, m: T)
    requires m in side
    ensures side - {m} + {m} == side
  {
  }

  /** A host that can be started, and whose file knows no later term than this one. */
  predicate Startable(h: Host, term: Term) {
    !h.ctl.disk.Garbled? && (h.ctl.disk.Holding? ==> h.ctl.disk.term <= term)
  }

  /** A running host of the right cluster that is not fenced, not campaigning, and in no later term. */
  ghost predicate Ready(c: Config, s: Cluster, m: NodeId, term: Term)
    requires Shaped(c, s) && m in c.peers
  {
    var h := s.hosts[m];
    && h.up && h.loop == Waiting && Durable(h.ctl) && !h.ctl.fenced && h.ctl.term <= term
    && h.ctl.nodeId == m && h.ctl.clusterSize == |c.peers|
  }

  ghost predicate AllReady(c: Config, s: Cluster, side: set<NodeId>, term: Term) {
    Shaped(c, s) && side <= c.peers.Keys && forall m <- side :: Ready(c, s, m, term)
  }

  lemma AllReadyBut(c: Config, s: Cluster, t: Cluster, side: set<NodeId>, m: NodeId, term: Term)
    requires m in side && m in c.peers && RestStays(c, s, t, {m})
    requires AllReady(c, s, side - {m}, term) && Ready(c, t, m, term)
    ensures AllReady(c, t, side, term)
  {
    forall x | x in side && x != m
      ensures Ready(c, t, x, term)
    {
      assert Ready(c, s, x, term);
    }
  }

  lemma GoesDown(c: Config, s: Cluster, m: NodeId)
    requires Shaped(c, s) && m in c.peers && s.hosts[m].up
    ensures Enabled(c, s, Crash(m))
    ensures var t := Apply(c, s, Crash(m));
            && !t.hosts[m].up && t.hosts[m].ctl == s.hosts[m].ctl
            && t.ballots == s.ballots && RestStays(c, s, t, {m})
  {
  }

  lemma StartsAnew(c: Config, s: Cluster, m: NodeId, term: Term)
    requires Shaped(c, s) && m in c.peers && !s.hosts[m].up && Startable(s.hosts[m], term)
    ensures Enabled(c, s, Start(m, Written))
    ensures var t := Apply(c, s, Start(m, Written));
            Ready(c, t, m, term) && t.ballots == s.ballots && RestStays(c, s, t, {m})
  {
    EnableKeeps(BootState(c, m, s.hosts[m].ctl.disk), Written);
  }

  /** A restart readies any node, fenced or in the middle of something as it may have been. */
  lemma Revive(c: Config, s: Cluster, m: NodeId, term: Term) returns (actions: seq<Action>, t: Cluster)
    requires Shaped(c, s) && m in c.peers && Startable(s.hosts[m], term)
    ensures Leads(c, s, actions, t, {m}) && RestStays(c, s, t, {m})
    ensures Ready(c, t, m, term) && t.ballots == s.ballots
  {
    if s.hosts[m].up {
      var down := Apply(c, s, Crash(m));
      GoesDown(c, s, m);
      LeadsByOne(c, s, Crash(m));
      StartsAnew(c, down, m, term);
      LeadsByOne(c, down, Start(m, Written));
      actions, t := [Crash(m)] + [Start(m, Written)], Apply(c, down, Start(m, Written));
      LeadsOn(c, s, [Crash(m)], down, {m}, [Start(m, Written)], t, {m});
    } else {
      StartsAnew(c, s, m, term);
      LeadsByOne(c, s, Start(m, Written));
      actions, t := [Start(m, Written)], Apply(c, s, Start(m, Written));
    }
  }

  lemma {:induction false} ReviveAll(c: Config, s: Cluster, side: set<NodeId>, term: Term)
    returns (actions: seq<Action>, t: Cluster)
    requires Shaped(c, s) && side <= c.peers.Keys && forall m <- side :: Startable(s.hosts[m], term)
    ensures Leads(c, s, actions, t, side) && RestStays(c, s, t, side)
    ensures AllReady(c, t, side, term) && t.ballots == s.ballots
    decreases |side|
  {
    if side == {} {
      actions, t := [], s;
    } else {
      var m :| m in side;
      BackIn(side, m);
      var first, mid := ReviveAll(c, s, side - {m}, term);
      var second;
      second, t := Revive(c, mid, m, term);
      actions := first + second;
      LeadsOn(c, s, first, mid, side - {m}, second, t, {m});
      RestStaysOn(c, s, mid, t, side - {m}, {m});
      AllReadyBut(c, mid, t, side, m, term);
    }
  }

  // ---------------------------------------------------------------- campaigning

  /** A node in the middle of counting votes for itself. */
  ghost predicate Collects(c: Config, s: Cluster, n: NodeId, term: Term, asked: nat, from: set<NodeId>) {
    && Shaped(c, s) && n in c.peers
    && s.hosts[n].up && s.hosts[n].loop == Collecting(term, asked, 1 + |from|) && s.counted[n] == from
    && s.hosts[n].ctl.role == Candidate && s.hosts[n].ctl.term == term
    && !s.hosts[n].ctl.fenced && s.hosts[n].ctl.clusterSize == |c.peers|
  }

  lemma Follows(c: Config, s: Cluster, n: NodeId, term: Term)
    requires Shaped(c, s) && n in c.peers && Ready(c, s, n, term)
    ensures var a := Heartbeat(n, term, Written);
            && Enabled(c, s, a)
            && var t := Apply(c, s, a);
               && Ready(c, t, n, term) && t.hosts[n].ctl.term == term && t.hosts[n].ctl.role == Follower
               && t.ballots == s.ballots && RestStays(c, s, t, {n})
  {
    HeartbeatKeeps(s.hosts[n].ctl, term, Written);
  }

  lemma Campaigns(c: Config, s: Cluster, n: NodeId, term: Term)
    requires Shaped(c, s) && n in c.peers && Ready(c, s, n, term) && term + 1 < U64
    requires s.hosts[n].ctl.term == term && s.hosts[n].ctl.role == Follower
    ensures var a := Timeout(n, Written);
            && Enabled(c, s, a)
            && var t := Apply(c, s, a);
               && t.hosts[n].up && t.hosts[n].loop == Campaigning && t.hosts[n].ctl.clusterSize == |c.peers|
               && !t.hosts[n].ctl.fenced && t.hosts[n].ctl.role == Candidate && t.hosts[n].ctl.term == term + 1
               && t.ballots == s.ballots + {Ballot(n, term + 1, n)} && RestStays(c, s, t, {n})
  {
    TimeoutStartsIff(s.hosts[n].ctl, true, Written);
  }

  lemma BeginsToCount(c: Config, s: Cluster, n: NodeId, term: Term)
    requires Shaped(c, s) && n in c.peers && s.hosts[n].up && s.hosts[n].loop == Campaigning
    requires s.hosts[n].ctl.role == Candidate && s.hosts[n].ctl.term == term
    requires !s.hosts[n].ctl.fenced && s.hosts[n].ctl.clusterSize == |c.peers|
    ensures Enabled(c, s, ReadTerm(n))
    ensures var t := Apply(c, s, ReadTerm(n));
            Collects(c, t, n, term, 0, {}) && t.ballots == s.ballots && RestStays(c, s, t, {n})
  {
  }

  /** A ready node made a follower in the latest term starts a campaign for the next. */
  lemma Campaign(c: Config, s: Cluster, n: NodeId, term: Term) returns (actions: seq<Action>, t: Cluster)
    requires Shaped(c, s) && n in c.peers && Ready(c, s, n, term) && term + 1 < U64
    ensures Leads(c, s, actions, t, {n}) && RestStays(c, s, t, {n})
    ensures Collects(c, t, n, term + 1, 0, {}) && t.ballots == s.ballots + {Ballot(n, term + 1, n)}
  {
    var a, b, d := Heartbeat(n, term, Written), Timeout(n, Written), ReadTerm(n);
    Follows(c, s, n, term);
    LeadsByOne(c, s, a);
    var s1 := Apply(c, s, a);
    Campaigns(c, s1, n, term);
    LeadsByOne(c, s1, b);
    var s2 := Apply(c, s1, b);
    BeginsToCount(c, s2, n, term + 1);
    LeadsByOne(c, s2, d);
    t := Apply(c, s2, d);
    LeadsOn(c, s, [a], s1, {n}, [b], s2, {n});
    LeadsOn(c, s, [a] + [b], s2, {n}, [d], t, {n});
    actions := [a] + [b] + [d];
  }

  // ---------------------------------------------------------------- voting

  /** A ready node grants a term it has not reached. */
  lemma Grants(c: Config, s: Cluster, p: NodeId, n: NodeId, term: Term)
    requires Shaped(c, s) && p in c.peers && Ready(c, s, p, term) && term + 1 < U64
    ensures var a := VoteRequest(p, n, term + 1, Written);
            && Enabled(c, s, a)
            && var t := Apply(c, s, a);
               t.ballots == s.ballots + {Ballot(p, term + 1, n)} && t.counted == s.counted && RestStays(c, s, t, {p})
  {
    VoteGrantedIff(s.hosts[p].ctl, n, term + 1, Written);
  }

  ghost function GrantsOf(side: set<NodeId>, term: Term, n: NodeId): set<Ballot> {
    set p <- side :: Ballot(p, term, n)
  }

  lemma OneMoreGrant(ballots: set<Ballot>, side: set<NodeId>, p: NodeId, term: Term, n: NodeId)
    requires p in side
    ensures ballots + GrantsOf(side - {p}, term, n) + {Ballot(p, term, n)} == ballots + GrantsOf(side, term, n)
  {
  }

  lemma StaysReady(c: Config, s: Cluster, t: Cluster, side: set<NodeId>, p: NodeId, term: Term)
    requires AllReady(c, s, side, term) && p in side && RestStays(c, s, t, side - {p})
    ensures Ready(c, t, p, term)
  {
  }

  lemma {:induction false} GrantAll(c: Config, s: Cluster, side: set<NodeId>, n: NodeId, term: Term)
    returns (actions: seq<Action>, t: Cluster)
    requires AllReady(c, s, side, term) && term + 1 < U64
    ensures Leads(c, s, actions, t, side) && RestStays(c, s, t, side)
    ensures t.ballots == s.ballots + GrantsOf(side, term + 1, n) && t.counted == s.counted
    decreases |side|
  {
    if side == {} {
      actions, t := [], s;
      assert s.ballots + GrantsOf(side, term + 1, n) == s.ballots;
    } else {
      var p :| p in side;
      BackIn(side, p);
      var first, mid := GrantAll(c, s, side - {p}, n, term);
      var a := VoteRequest(p, n, term + 1, Written);
      StaysReady(c, s, mid, side, p, term);
      Grants(c, mid, p, n, term);
      LeadsByOne(c, mid, a);
      actions, t := first + [a], Apply(c, mid, a);
      LeadsOn(c, s, first, mid, side - {p}, [a], t, {p});
      RestStaysOn(c, s, mid, t, side - {p}, {p});
      OneMoreGrant(s.ballots, side, p, term + 1, n);
    }
  }

  // ---------------------------------------------------------------- counting

  /** The peers already asked that are on this side. */
  ghost function AskedOf(peers: seq<NodeId>, asked: nat, side: set<NodeId>): set<NodeId>
    requires asked <= |peers|
  {
    set p | p in peers[..asked] && p in side
  }

  lemma AskedOneMore(peers: seq<NodeId>, asked: nat, side: set<NodeId>)
    requires asked < |peers| && peers[asked] !in peers[..asked]
    ensures var before, after := AskedOf(peers, asked, side), AskedOf(peers, asked + 1, side);
            && after == before + (if peers[asked] in side then {peers[asked]} else {})
            && |after| == |before| + if peers[asked] in side then 1 else 0
  {
    assert peers[..asked + 1] == peers[..asked] + [peers[asked]];
    var before, after := AskedOf(peers, asked, side), AskedOf(peers, asked + 1, side);
    assert after == before + if peers[asked] in side then {peers[asked]} else {};
  }

  lemma AskOne(c: Config, s: Cluster, n: NodeId, term: Term, asked: nat, side: set<NodeId>)
    requires n in c.peers && asked < |c.peers[n]| && c.peers[n][asked] !in c.peers[n][..asked]
    requires Collects(c, s, n, term, asked, AskedOf(c.peers[n], asked, side))
    requires c.peers[n][asked] in side ==> Ballot(c.peers[n][asked], term, n) in s.ballots
    ensures var a := Ask(n, c.peers[n][asked] in side);
            && Enabled(c, s, a)
            && var t := Apply(c, s, a);
               && Collects(c, t, n, term, asked + 1, AskedOf(c.peers[n], asked + 1, side))
               && t.ballots == s.ballots && RestStays(c, s, t, {n})
  {
    AskedOneMore(c.peers[n], asked, side);
  }

  lemma {:induction false} AskAll(c: Config, s: Cluster, n: NodeId, term: Term, asked: nat, side: set<NodeId>)
    returns (actions: seq<Action>, t: Cluster)
    requires n in c.peers && asked <= |c.peers[n]|
    requires forall i :: 0 <= i < |c.peers[n]| ==> c.peers[n][i] !in c.peers[n][..i]
    requires Collects(c, s, n, term, asked, AskedOf(c.peers[n], asked, side))
    requires GrantsOf(side, term, n) <= s.ballots
    ensures Leads(c, s, actions, t, {n}) && RestStays(c, s, t, {n}) && t.ballots == s.ballots
    ensures Collects(c, t, n, term, |c.peers[n]|, AskedOf(c.peers[n], |c.peers[n]|, side))
    decreases |c.peers[n]| - asked
  {
    if asked == |c.peers[n]| {
      actions, t := [], s;
    } else {
      var a := Ask(n, c.peers[n][asked] in side);
      AskOne(c, s, n, term, asked, side);
      LeadsByOne(c, s, a);
      var rest;
      rest, t := AskAll(c, Apply(c, s, a), n, term, asked + 1, side);
      LeadsOn(c, s, [a], Apply(c, s, a), {n}, rest, t, {n});
      actions := [a] + rest;
    }
  }

  /** With the votes of a majority, its own included, the tally makes the candidate leader. */
  lemma TallyElects(c: Config, s: Cluster, n: NodeId, term: Term, side: set<NodeId>)
    requires n in c.peers && Collects(c, s, n, term, |c.peers[n]|, side) && 2 * (|side| + 1) > |c.peers|
    ensures Enabled(c, s, Tally(n))
    ensures var t := Apply(c, s, Tally(n));
            && t.hosts[n].up && t.hosts[n].ctl.role == Leader && t.hosts[n].ctl.term == term
            && (term, n) in t.leaders && t.ballots == s.ballots && RestStays(c, s, t, {n})
  {
    TallyPromotesIff(s.hosts[n].ctl, s.hosts[n].loop.votes);
  }

  // ---------------------------------------------------------------- any majority

  lemma SameSize<T>(x: set<T>, y: set<T>)
    requires x <= y && |x| == |y|
    ensures x == y
  {
    if y - x != {} {
      var e :| e in y - x;
      SubsetSize(x, y - {e});
    }
  }

  /** The peers of a node are all the others, each once. */
  lemma PeersAreOthers(c: Config, n: NodeId, side: set<NodeId>)
    requires ValidConfig(c) && n in c.peers && side <= c.peers.Keys - {n}
    ensures AskedOf(c.peers[n], |c.peers[n]|, side) == side
    ensures forall i :: 0 <= i < |c.peers[n]| ==> c.peers[n][i] !in c.peers[n][..i]
  {
    var peers := c.peers[n];
    SetOfDistinct(peers);
    SameSize(SetOf(peers), c.peers.Keys - {n});
    assert peers[..|peers|] == peers;
  }

  /** No controller's file knows a later term than this one. */
  ghost predicate NoneBeyond(c: Config, s: Cluster, term: Term) {
    Shaped(c, s) && forall m <- c.peers :: s.hosts[m].ctl.disk.Holding? ==> s.hosts[m].ctl.disk.term <= term
  }

  lemma AllStartable(c: Config, s: Cluster, term: Term)
    requires Inv(c, s) && NoneBeyond(c, s, term)
    ensures forall m <- c.peers :: Startable(s.hosts[m], term)
    ensures forall b <- s.ballots :: b.term <= term
  {
    forall m | m in c.peers
      ensures Startable(s.hosts[m], term)
    {
      assert HostOk(c, s, m);
    }
  }

  /** Nobody voted in the new term before, so those who just did are all. */
  lemma ExactlyThese(c: Config, before: set<Ballot>, t: Cluster, n: NodeId, side: set<NodeId>, term: Term)
    requires term + 1 < U64 && n in c.peers && side <= c.peers.Keys
    requires forall b <- before :: b.term <= term
    requires t.ballots == before + {Ballot(n, term + 1, n)} + GrantsOf(side, term + 1, n)
    ensures Voters(t, c, term + 1, n) == side + {n}
  {
  }

  /** From ready nodes to a leader. */
  lemma ReadyElect(c: Config, s: Cluster, n: NodeId, side: set<NodeId>, term: Term)
    returns (actions: seq<Action>, t: Cluster)
    requires ValidConfig(c) && n in c.peers && side <= c.peers.Keys - {n} && 2 * (|side| + 1) > |c.peers|
    requires AllReady(c, s, side + {n}, term) && term + 1 < U64
    ensures Leads(c, s, actions, t, side + {n}) && RestStays(c, s, t, side + {n})
    ensures t.hosts[n].up && t.hosts[n].ctl.role == Leader && t.hosts[n].ctl.term == term + 1
    ensures (term + 1, n) in t.leaders
    ensures t.ballots == s.ballots + {Ballot(n, term + 1, n)} + GrantsOf(side, term + 1, n)
  {
    PeersAreOthers(c, n, side);
    var a1, s1 := Campaign(c, s, n, term);
    OthersReady(c, s, s1, n, side, term);
    var a2, s2 := GrantAll(c, s1, side, n, term);
    StillCollects(c, s1, s2, n, term + 1, side);
    var a3, s3 := AskAll(c, s2, n, term + 1, 0, side);
    TallyElects(c, s3, n, term + 1, side);
    LeadsByOne(c, s3, Tally(n));
    t := Apply(c, s3, Tally(n));
    actions := a1 + a2 + (a3 + [Tally(n)]);
    LeadsOn(c, s, a1, s1, {n}, a2, s2, side);
    LeadsOn(c, s2, a3, s3, {n}, [Tally(n)], t, {n});
    LeadsOn(c, s, a1 + a2, s2, {n} + side, a3 + [Tally(n)], t, {n} + {n});
    SameMovers(c, s, s1, s2, s3, t, n, side);
  }

  lemma OthersReady(c: Config, s: Cluster, t: Cluster, n: NodeId, side: set<NodeId>, term: Term)
    requires AllReady(c, s, side + {n}, term) && n !in side && RestStays(c, s, t, {n})
    ensures AllReady(c, t, side, term)
  {
    forall m | m in side
      ensures Ready(c, t, m, term)
    {
      assert Ready(c, s, m, term);
    }
  }

  lemma StillCollects(c: Config, s: Cluster, t: Cluster, n: NodeId, term: Term, side: set<NodeId>)
    requires Collects(c, s, n, term, 0, {}) && n !in side && RestStays(c, s, t, side) && t.counted == s.counted
    ensures Collects(c, t, n, term, 0, AskedOf(c.peers[n], 0, side))
  {
    assert AskedOf(c.peers[n], 0, side) == {};
  }

  lemma SameMovers(c: Config, s: Cluster, s1: Cluster, s2: Cluster, s3: Cluster, t: Cluster, n: NodeId, side: set<NodeId>)
    requires RestStays(c, s, s1, {n}) && RestStays(c, s1, s2, side) && RestStays(c, s2, s3, {n}) && RestStays(c, s3, t, {n})
    ensures RestStays(c, s, t, side + {n}) && {n} + side + ({n} + {n}) == side + {n}
  {
  }

  /** From nodes that can be started to a leader. */
  lemma StartableElect(c: Config, s: Cluster, n: NodeId, side: set<NodeId>, term: Term)
    returns (actions: seq<Action>, t: Cluster)
    requires ValidConfig(c) && Shaped(c, s) && term + 1 < U64
    requires n in c.peers && side <= c.peers.Keys - {n} && 2 * (|side| + 1) > |c.peers|
    requires (forall m <- c.peers :: Startable(s.hosts[m], term)) && forall b <- s.ballots :: b.term <= term
    ensures Leads(c, s, actions, t, side + {n}) && RestStays(c, s, t, side + {n})
    ensures t.hosts[n].up && t.hosts[n].ctl.role == Leader && t.hosts[n].ctl.term == term + 1
    ensures (term + 1, n) in t.leaders && Voters(t, c, term + 1, n) == side + {n}
  {
    var all := side + {n};
    var first, mid := ReviveAll(c, s, all, term);
    var second;
    second, t := ReadyElect(c, mid, n, side, term);
    actions := first + second;
    LeadsOn(c, s, first, mid, all, second, t, all);
    RestStaysOn(c, s, mid, t, all, all);
    ExactlyThese(c, s.ballots, t, n, side, term);
    assert all + all == all;
  }

  /**
   From every state that keeps the invariant, any majority can elect any of its members, in the
   term after any that no file is beyond, with exactly its own votes, the others taking no part.
   */
  lemma MajorityCanElect(c: Config, s: Cluster, n: NodeId, side: set<NodeId>, term: Term)
    returns (actions: seq<Action>, t: Cluster)
    requires ValidConfig(c) && Inv(c, s) && NoneBeyond(c, s, term) && term + 1 < U64
    requires n in c.peers && side <= c.peers.Keys - {n} && 2 * (|side| + 1) > |c.peers|
    ensures Leads(c, s, actions, t, side + {n}) && RestStays(c, s, t, side + {n})
    ensures t.hosts[n].up && t.hosts[n].ctl.role == Leader && t.hosts[n].ctl.term == term + 1
    ensures (term + 1, n) in t.leaders && Voters(t, c, term + 1, n) == side + {n}
  {
    AllStartable(c, s, term);
    actions, t := StartableElect(c, s, n, side, term);
  }

  // ---------------------------------------------------------------- exactly the majorities

  lemma {:induction false} OnlyMoversVote(c: Config, s: Cluster, actions: seq<Action>, movers: set<NodeId>)
    requires Shaped(c, s) && Runs(c, s, actions) && OnlyMove(actions, movers)
    requires forall b <- s.ballots :: b.voter in movers
    ensures forall b <- After(c, s, actions).ballots :: b.voter in movers
    decreases |actions|
  {
    if actions != [] {
      OnlyMoversVote(c, Apply(c, s, actions[0]), actions[1..], movers);
    }
  }

  lemma TooFew(c: Config, t: Cluster, term: Term, n: NodeId, movers: set<NodeId>)
    requires Elected(c, t, term, n) && term >= 1 && n in movers
    requires forall b <- t.ballots :: b.voter in movers
    ensures 2 * |movers| > |c.peers|
  {
    assert |movers - {n}| == |movers| - 1;
    SubsetSize(Voters(t, c, term, n), movers);
  }

  lemma ElectedByMovers(c: Config, n: NodeId, movers: set<NodeId>, actions: seq<Action>, t: Cluster, term: Term)
    requires ValidConfig(c) && n in movers && Leads(c, Init(c), actions, t, movers)
    requires term >= 1 && (term, n) in t.leaders
    ensures 2 * |movers| > |c.peers|
  {
    InitInv(c);
    RunInv(c, Init(c), actions);
    OnlyMoversVote(c, Init(c), actions, movers);
    assert Elected(c, t, term, n);
    TooFew(c, t, term, n, movers);
  }

  lemma FirstElection(c: Config, n: NodeId, movers: set<NodeId>) returns (actions: seq<Action>, t: Cluster)
    requires ValidConfig(c) && n in movers && movers <= c.peers.Keys && 2 * |movers| > |c.peers|
    ensures Leads(c, Init(c), actions, t, movers) && (1, n) in t.leaders
  {
    InitInv(c);
    BackIn(movers, n);
    actions, t := MajorityCanElect(c, Init(c), n, movers - {n}, 0);
  }

  /** Some run of a new cluster in which only these nodes act makes `n` leader of a term from 1 on. */
  ghost predicate CanElect(c: Config, n: NodeId, movers: set<NodeId>) {
    exists actions, t, term: Term ::
      Leads(c, Init(c), actions, t, movers) && term >= 1 && (term, n) in t.leaders
  }

  /** A set of nodes can elect one of its own without the others exactly when it is a majority. */
  lemma CanElectIff(c: Config, n: NodeId, movers: set<NodeId>)
    requires ValidConfig(c) && n in movers && movers <= c.peers.Keys
    ensures CanElect(c, n, movers) <==> 2 * |movers| > |c.peers|
  {
    if 2 * |movers| > |c.peers| {
      var actions, t := FirstElection(c, n, movers);
    } else if CanElect(c, n, movers) {
      var actions, t, term: Term :|
        Leads(c, Init(c), actions, t, movers) && term >= 1 && (term, n) in t.leaders;
      ElectedByMovers(c, n, movers, actions, t, term);
    }
  }
}
