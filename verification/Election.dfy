/**
 The controller quorum as a step relation. Each node runs the request handlers of its
 `Consensus` controller and one candidate loop; the loop's timeout check, term read, vote
 collection and tally are separate steps, so any handler may run between them. Vote requests,
 heartbeats and step-downs carry arbitrary arguments at arbitrary times, which covers loss,
 delay, duplication and reordering of messages. Any write may fail with the old or the new
 bytes on disk, and any node may crash at any point and start again from its disk.

 `ballots`, `counted` and `leaders` are history: who was told "granted" for which term, which
 peers' grants the running tally counts, and who was ever Leader in which term.
 */
module Election {
  import opened Wrappers
  import opened Bytes
  import opened Consensus
  import opened Sizes

  /** `peers` are the controller peer addresses, each resolved to the node behind it. */
  datatype Config = Config(peers: map<NodeId, seq<NodeId>>, bootLeaders: set<NodeId>)

  ghost predicate ValidConfig(c: Config) {
    && c.bootLeaders <= c.peers.Keys
    && forall n <- c.peers ::
         && |c.peers[n]| + 1 == |c.peers|
         && n !in c.peers[n]
         && (forall p <- c.peers[n] :: p in c.peers)
         && (forall i, j :: 0 <= i < j < |c.peers[n]| ==> c.peers[n][i] != c.peers[n][j])
  }

  /** Where a node's candidate loop stands. */
  datatype Loop =
    | Waiting
    | Campaigning
    | Collecting(term: Term, asked: nat, votes: nat)

  datatype Host = Host(up: bool, ctl: State, loop: Loop)

  datatype Ballot = Ballot(voter: NodeId, term: Term, candidate: NodeId)

  datatype Cluster = Cluster(
    hosts: map<NodeId, Host>,
    ballots: set<Ballot>,
    counted: map<NodeId, set<NodeId>>,
    leaders: set<(Term, NodeId)>)

  datatype Action =
    | Start(n: NodeId, io: WriteOutcome)
    | Crash(n: NodeId)
    | Timeout(n: NodeId, io: WriteOutcome)
    | ReadTerm(n: NodeId)
    | Ask(n: NodeId, answered: bool)
    | Tally(n: NodeId)
    | VoteRequest(n: NodeId, candidate: NodeId, term: Term, io: WriteOutcome)
    | Heartbeat(n: NodeId, term: Term, io: WriteOutcome)
    | StepDown(n: NodeId, observed: Term, io: WriteOutcome)

  function BootState(c: Config, n: NodeId, disk: File): State {
    Boot(n, |c.peers|, if n in c.bootLeaders then Leader else Follower, disk)
  }

  function Init(c: Config): Cluster {
    Cluster(map n | n in c.peers :: Host(false, BootState(c, n, Missing), Waiting),
            {}, map n | n in c.peers :: {}, {})
  }

  ghost predicate Shaped(c: Config, s: Cluster) {
    s.hosts.Keys == c.peers.Keys && s.counted.Keys == c.peers.Keys
  }

  /**
   When an action can happen. A timeout needs room in the 64-bit term counter. An answered
   question needs the asked peer to have granted this candidate the campaign's term.
   */
  ghost predicate Enabled(c: Config, s: Cluster, a: Action)
    requires Shaped(c, s)
  {
    a.n in c.peers &&
    var h := s.hosts[a.n];
    match a
    case Start(_, _) => !h.up
    case Crash(_) => h.up
    case Timeout(_, _) => h.up && h.loop.Waiting? && h.ctl.term + 1 < U64
    case ReadTerm(_) => h.up && h.loop.Campaigning?
    case Ask(n, answered) =>
      && h.up && h.loop.Collecting? && h.loop.asked < |c.peers[n]|
      && (answered ==> Ballot(c.peers[n][h.loop.asked], h.loop.term, n) in s.ballots)
    case Tally(n) => h.up && h.loop.Collecting? && h.loop.asked == |c.peers[n]|
    case VoteRequest(_, _, _, _) => h.up
    case Heartbeat(_, _, _) => h.up
    case StepDown(_, _, _) => h.up
  }

  ghost function Place(s: Cluster, n: NodeId, h: Host): Cluster {
    s.(hosts := s.hosts[n := h],
       leaders := s.leaders + (if h.up && h.ctl.role == Leader then {(h.ctl.term, n)} else {}))
  }

  ghost function Cast(s: Cluster, yes: bool, b: Ballot): Cluster {
    if yes then s.(ballots := s.ballots + {b}) else s
  }

  function AskedLoop(loop: Loop, answered: bool): Loop
    requires loop.Collecting?
  {
    loop.(asked := loop.asked + 1, votes := loop.votes + if answered then 1 else 0)
  }

  ghost function Apply(c: Config, s: Cluster, a: Action): (s': Cluster)
    requires Shaped(c, s) && Enabled(c, s, a)
    ensures Shaped(c, s')
  {
    var h := s.hosts[a.n];
    match a
    case Start(n, io) =>
      var (ctl, ok) := EnablePersistence(BootState(c, n, h.ctl.disk), io);
      Place(s, n, Host(ok, ctl, Waiting))
    case Crash(n) => Place(s, n, h.(up := false, loop := Waiting))
    case Timeout(n, io) =>
      var (ctl, started) := OnTimeout(h.ctl, true, io);
      Cast(Place(s, n, h.(ctl := ctl, loop := if started then Campaigning else Waiting)),
           started, Ballot(n, ctl.term, n))
    case ReadTerm(n) =>
      Place(s, n, h.(loop := Collecting(h.ctl.term, 0, 1))).(counted := s.counted[n := {}])
    case Ask(n, answered) =>
      var peer := c.peers[n][h.loop.asked];
      Place(s, n, h.(loop := AskedLoop(h.loop, answered)))
        .(counted := s.counted[n := s.counted[n] + if answered then {peer} else {}])
    case Tally(n) =>
      Place(s, n, h.(ctl := OnTally(h.ctl, h.loop.votes).0, loop := Waiting))
    case VoteRequest(n, candidate, term, io) =>
      var (ctl, granted) := OnVoteRequest(h.ctl, candidate, term, io);
      Cast(Place(s, n, h.(ctl := ctl)), granted, Ballot(n, term, candidate))
    case Heartbeat(n, term, io) => Place(s, n, h.(ctl := OnHeartbeat(h.ctl, term, io).0))
    case StepDown(n, observed, io) => Place(s, n, h.(ctl := OnStepDown(h.ctl, observed, io)))
  }

  ghost predicate Runs(c: Config, s: Cluster, actions: seq<Action>)
    requires Shaped(c, s)
    decreases |actions|
  {
    actions == [] ||
    (Enabled(c, s, actions[0]) && Runs(c, Apply(c, s, actions[0]), actions[1..]))
  }

  ghost function After(c: Config, s: Cluster, actions: seq<Action>): (s': Cluster)
    requires Shaped(c, s) && Runs(c, s, actions)
    ensures Shaped(c, s')
    decreases |actions|
  {
    if actions == [] then s else After(c, Apply(c, s, actions[0]), actions[1..])
  }

  // ---------------------------------------------------------------- the inductive invariant

  /** The disk already remembers this ballot, or has moved past its term. */
  predicate Remembers(disk: File, b: Ballot) {
    disk.Holding? && (disk.term > b.term || disk == Holding(b.term, Some(b.candidate)))
  }

  ghost predicate Campaigned(c: Config, s: Cluster, n: NodeId, h: Host) {
    h.up && h.ctl.role != Follower && h.ctl.term > 0 && |c.peers| > 1 ==>
      Ballot(n, h.ctl.term, n) in s.ballots
  }

  ghost predicate Counting(c: Config, s: Cluster, n: NodeId, h: Host)
    requires Shaped(c, s) && n in c.peers
  {
    h.loop.Collecting? ==>
      && h.loop.asked <= |c.peers[n]|
      && h.loop.votes == 1 + |s.counted[n]|
      && (h.ctl.role == Candidate ==> h.ctl.term == h.loop.term)
      && forall p <- s.counted[n] ::
           p in c.peers[n][..h.loop.asked] && Ballot(p, h.loop.term, n) in s.ballots
  }

  ghost predicate HostOk(c: Config, s: Cluster, n: NodeId)
    requires Shaped(c, s) && n in c.peers
  {
    var h := s.hosts[n];
    && h.ctl.nodeId == n && h.ctl.clusterSize == |c.peers|
    && (h.up ==> Durable(h.ctl))
    && (!h.up ==> h.loop == Waiting)
    && !h.ctl.disk.Garbled?
    && (h.up && h.ctl.role == Candidate ==> h.ctl.term > 0)
    && (h.up && h.ctl.role == Leader && h.ctl.term == 0 && |c.peers| > 1 ==> n in c.bootLeaders)
    && (h.up && h.ctl.role == Leader ==> (h.ctl.term, n) in s.leaders)
    && Campaigned(c, s, n, h)
    && Counting(c, s, n, h)
  }

  ghost function Voters(s: Cluster, c: Config, term: Term, candidate: NodeId): set<NodeId> {
    set v | v in c.peers && Ballot(v, term, candidate) in s.ballots
  }

  ghost predicate Elected(c: Config, s: Cluster, term: Term, n: NodeId) {
    && n in c.peers
    && (|c.peers| > 1 ==>
          if term == 0 then n in c.bootLeaders
          else |Voters(s, c, term, n)| >= Quorum(|c.peers|))
  }

  ghost predicate BallotsOk(c: Config, s: Cluster)
    requires Shaped(c, s)
  {
    && (forall b <- s.ballots :: b.voter in c.peers && Remembers(s.hosts[b.voter].ctl.disk, b))
    && (forall b, b' :: b in s.ballots && b' in s.ballots && b.voter == b'.voter && b.term == b'.term ==>
          b.candidate == b'.candidate)
  }

  ghost predicate Inv(c: Config, s: Cluster) {
    && Shaped(c, s)
    && (forall n <- c.peers :: HostOk(c, s, n))
    && BallotsOk(c, s)
    && (forall l <- s.leaders :: Elected(c, s, l.0, l.1))
  }

  lemma InitInv(c: Config)
    requires ValidConfig(c)
    ensures Inv(c, Init(c))
  {
  }

  lemma RememberedAcross(before: File, after: File, b: Ballot)
    requires Advances(before, after) && Remembers(before, b)
    ensures Remembers(after, b)
  {
  }

  /**
   The frame of every action: it changes one host, advances that host's disk, casts at most
   one ballot (by that host, remembered by it and agreeing with its earlier ones) and adds
   only properly elected leaders.
   */
  lemma OneHostStep(c: Config, s: Cluster, s': Cluster, n: NodeId, cast: set<Ballot>)
    requires Inv(c, s) && Shaped(c, s') && n in c.peers
    requires s'.hosts == s.hosts[n := s'.hosts[n]]
    requires s'.ballots == s.ballots + cast
    requires forall m <- c.peers :: m != n ==> s'.counted[m] == s.counted[m]
    requires Advances(s.hosts[n].ctl.disk, s'.hosts[n].ctl.disk)
    requires forall b <- cast :: b.voter == n && Remembers(s'.hosts[n].ctl.disk, b)
    requires forall b, b' :: b in cast && b' in s'.ballots && b'.voter == n && b'.term == b.term ==>
                               b'.candidate == b.candidate
    requires HostOk(c, s', n)
    requires s.leaders <= s'.leaders
    requires forall l <- s'.leaders :: l in s.leaders || Elected(c, s', l.0, l.1)
    ensures Inv(c, s')
  {
    forall m | m in c.peers && m != n
      ensures HostOk(c, s', m)
    {
      assert HostOk(c, s, m);
    }
    forall b | b in s'.ballots
      ensures b.voter in c.peers && Remembers(s'.hosts[b.voter].ctl.disk, b)
    {
      if b !in cast && b.voter == n {
        RememberedAcross(s.hosts[n].ctl.disk, s'.hosts[n].ctl.disk, b);
      }
    }
    forall l | l in s.leaders
      ensures Elected(c, s', l.0, l.1)
    {
      var before, after := Voters(s, c, l.0, l.1), Voters(s', c, l.0, l.1);
      assert before <= after;
      SubsetSize(before, after);
    }
  }

  /** A controller change that casts no ballot and makes nobody Candidate or Leader. */
  lemma QuietStep(c: Config, s: Cluster, n: NodeId, ctl: State)
    requires Inv(c, s) && n in c.peers && s.hosts[n].up
    requires Durable(ctl) && Advances(s.hosts[n].ctl.disk, ctl.disk)
    requires SameNode(s.hosts[n].ctl, ctl) && Quiet(s.hosts[n].ctl, ctl)
    ensures Inv(c, Place(s, n, s.hosts[n].(ctl := ctl)))
  {
    var s' := Place(s, n, s.hosts[n].(ctl := ctl));
    assert HostOk(c, s, n);
    assert HostOk(c, s', n);
    OneHostStep(c, s, s', n, {});
  }

  lemma HeartbeatInv(c: Config, s: Cluster, n: NodeId, term: Term, io: WriteOutcome)
    requires Inv(c, s) && Enabled(c, s, Heartbeat(n, term, io))
    ensures Inv(c, Apply(c, s, Heartbeat(n, term, io)))
  {
    assert HostOk(c, s, n);
    HeartbeatKeeps(s.hosts[n].ctl, term, io);
    QuietStep(c, s, n, OnHeartbeat(s.hosts[n].ctl, term, io).0);
  }

  lemma StepDownInv(c: Config, s: Cluster, n: NodeId, observed: Term, io: WriteOutcome)
    requires Inv(c, s) && Enabled(c, s, StepDown(n, observed, io))
    ensures Inv(c, Apply(c, s, StepDown(n, observed, io)))
  {
    assert HostOk(c, s, n);
    StepDownKeeps(s.hosts[n].ctl, observed, io);
    QuietStep(c, s, n, OnStepDown(s.hosts[n].ctl, observed, io));
  }

  lemma GoDown(c: Config, s: Cluster, n: NodeId)
    requires Inv(c, s) && n in c.peers
    ensures Inv(c, Place(s, n, s.hosts[n].(up := false, loop := Waiting)))
  {
    var s' := Place(s, n, s.hosts[n].(up := false, loop := Waiting));
    assert HostOk(c, s, n);
    assert HostOk(c, s', n);
    OneHostStep(c, s, s', n, {});
  }

  lemma CrashInv(c: Config, s: Cluster, n: NodeId)
    requires Inv(c, s) && Enabled(c, s, Crash(n))
    ensures Inv(c, Apply(c, s, Crash(n)))
  {
    GoDown(c, s, n);
  }

  lemma StartInv(c: Config, s: Cluster, n: NodeId, io: WriteOutcome)
    requires Inv(c, s) && Enabled(c, s, Start(n, io))
    ensures Inv(c, Apply(c, s, Start(n, io)))
  {
    var s' := Apply(c, s, Start(n, io));
    var boot := BootState(c, n, s.hosts[n].ctl.disk);
    assert HostOk(c, s, n);
    EnableKeeps(boot, io);
    assert HostOk(c, s', n);
    OneHostStep(c, s, s', n, {});
  }

  /**
   Host `n` becomes `h` and casts ballot `b`, which `h` holds on disk; it either stays as it
   was or starts the campaign the ballot belongs to.
   */
  ghost predicate Casts(c: Config, s: Cluster, n: NodeId, h: Host, b: Ballot)
    requires Shaped(c, s) && n in c.peers
  {
    && s.hosts[n].up && h.up
    && Durable(h.ctl) && Advances(s.hosts[n].ctl.disk, h.ctl.disk) && SameNode(s.hosts[n].ctl, h.ctl)
    && b.voter == n && h.ctl.disk == Holding(b.term, Some(b.candidate))
    && (|| (Quiet(s.hosts[n].ctl, h.ctl) && h.loop == s.hosts[n].loop)
        || (h.ctl.role == Candidate && h.ctl.term > 0 && b == Ballot(n, h.ctl.term, n)
            && h.loop == Campaigning))
  }

  lemma CastHostOk(c: Config, s: Cluster, n: NodeId, h: Host, b: Ballot)
    requires Shaped(c, s) && n in c.peers && HostOk(c, s, n) && Casts(c, s, n, h, b)
    ensures HostOk(c, Cast(Place(s, n, h), true, b), n)
  {
  }

  lemma CastStep(c: Config, s: Cluster, n: NodeId, h: Host, b: Ballot)
    requires Inv(c, s) && n in c.peers && Casts(c, s, n, h, b)
    ensures Inv(c, Cast(Place(s, n, h), true, b))
  {
    CastHostOk(c, s, n, h, b);
    forall b' | b' in s.ballots && b'.voter == n && b'.term == b.term
      ensures b'.candidate == b.candidate
    {
      RememberedAcross(s.hosts[n].ctl.disk, h.ctl.disk, b');
    }
    assert HostOk(c, s, n);
    OneHostStep(c, s, Cast(Place(s, n, h), true, b), n, {b});
  }

  lemma TimeoutInv(c: Config, s: Cluster, n: NodeId, io: WriteOutcome)
    requires Inv(c, s) && Enabled(c, s, Timeout(n, io))
    ensures Inv(c, Apply(c, s, Timeout(n, io)))
  {
    var h := s.hosts[n];
    var (ctl, started) := OnTimeout(h.ctl, true, io);
    assert HostOk(c, s, n);
    TimeoutKeeps(h.ctl, io);
    if started {
      CastStep(c, s, n, h.(ctl := ctl, loop := Campaigning), Ballot(n, ctl.term, n));
    } else {
      QuietStep(c, s, n, ctl);
    }
  }

  lemma VoteRequestInv(c: Config, s: Cluster, n: NodeId, candidate: NodeId, term: Term, io: WriteOutcome)
    requires Inv(c, s) && Enabled(c, s, VoteRequest(n, candidate, term, io))
    ensures Inv(c, Apply(c, s, VoteRequest(n, candidate, term, io)))
  {
    var h := s.hosts[n];
    var (ctl, granted) := OnVoteRequest(h.ctl, candidate, term, io);
    assert HostOk(c, s, n);
    VoteRequestKeeps(h.ctl, candidate, term, io);
    if granted {
      CastStep(c, s, n, h.(ctl := ctl), Ballot(n, term, candidate));
    } else {
      QuietStep(c, s, n, ctl);
    }
  }

  /** The next peer has not been counted yet, so a grant of its raises the count by one. */
  lemma NextPeerUncounted(c: Config, s: Cluster, n: NodeId)
    requires Shaped(c, s) && ValidConfig(c) && n in c.peers && HostOk(c, s, n)
    requires s.hosts[n].loop.Collecting? && s.hosts[n].loop.asked < |c.peers[n]|
    ensures var asked := s.hosts[n].loop.asked;
            && c.peers[n][asked] !in s.counted[n]
            && c.peers[n][..asked + 1] == c.peers[n][..asked] + [c.peers[n][asked]]
  {
    var asked := s.hosts[n].loop.asked;
    assert c.peers[n][asked] !in c.peers[n][..asked];
  }

  /** A move of the candidate loop, with the counted peers that go with it. */
  lemma LoopStep(c: Config, s: Cluster, n: NodeId, loop: Loop, counted: set<NodeId>)
    requires Inv(c, s) && n in c.peers && s.hosts[n].up
    requires var s' := Place(s, n, s.hosts[n].(loop := loop)).(counted := s.counted[n := counted]);
             Counting(c, s', n, s'.hosts[n])
    ensures Inv(c, Place(s, n, s.hosts[n].(loop := loop)).(counted := s.counted[n := counted]))
  {
    var s' := Place(s, n, s.hosts[n].(loop := loop)).(counted := s.counted[n := counted]);
    assert HostOk(c, s, n);
    assert HostOk(c, s', n);
    OneHostStep(c, s, s', n, {});
  }

  lemma ReadTermInv(c: Config, s: Cluster, n: NodeId)
    requires Inv(c, s) && Enabled(c, s, ReadTerm(n))
    ensures Inv(c, Apply(c, s, ReadTerm(n)))
  {
    LoopStep(c, s, n, Collecting(s.hosts[n].ctl.term, 0, 1), {});
  }

  lemma AskCounts(c: Config, s: Cluster, n: NodeId, answered: bool)
    requires Shaped(c, s) && ValidConfig(c) && n in c.peers && HostOk(c, s, n)
    requires s.hosts[n].loop.Collecting? && s.hosts[n].loop.asked < |c.peers[n]|
    requires answered ==> Ballot(c.peers[n][s.hosts[n].loop.asked], s.hosts[n].loop.term, n) in s.ballots
    ensures var h := s.hosts[n].(loop := AskedLoop(s.hosts[n].loop, answered));
            var counted := s.counted[n] + if answered then {c.peers[n][s.hosts[n].loop.asked]} else {};
            Counting(c, Place(s, n, h).(counted := s.counted[n := counted]), n, h)
  {
    NextPeerUncounted(c, s, n);
  }

  lemma AskInv(c: Config, s: Cluster, n: NodeId, answered: bool)
    requires Inv(c, s) && ValidConfig(c) && Enabled(c, s, Ask(n, answered))
    ensures Inv(c, Apply(c, s, Ask(n, answered)))
  {
    assert HostOk(c, s, n);
    AskCounts(c, s, n, answered);
    var counted := s.counted[n] + if answered then {c.peers[n][s.hosts[n].loop.asked]} else {};
    LoopStep(c, s, n, AskedLoop(s.hosts[n].loop, answered), counted);
  }

  /** A candidate whose voters are a quorum becomes Leader. */
  lemma PromoteStep(c: Config, s: Cluster, n: NodeId)
    requires Inv(c, s) && n in c.peers && s.hosts[n].up && s.hosts[n].ctl.role == Candidate
    requires !s.hosts[n].ctl.fenced
    requires Elected(c, s, s.hosts[n].ctl.term, n)
    ensures Inv(c, Place(s, n, s.hosts[n].(ctl := s.hosts[n].ctl.(role := Leader), loop := Waiting)))
  {
    var s' := Place(s, n, s.hosts[n].(ctl := s.hosts[n].ctl.(role := Leader), loop := Waiting));
    assert HostOk(c, s, n);
    assert HostOk(c, s', n);
    assert Voters(s', c, s.hosts[n].ctl.term, n) == Voters(s, c, s.hosts[n].ctl.term, n);
    OneHostStep(c, s, s', n, {});
  }

  lemma LosingTallyInv(c: Config, s: Cluster, n: NodeId)
    requires Inv(c, s) && Enabled(c, s, Tally(n))
    requires !OnTally(s.hosts[n].ctl, s.hosts[n].loop.votes).1
    ensures Inv(c, Apply(c, s, Tally(n)))
  {
    assert s.counted[n := s.counted[n]] == s.counted;
    LoopStep(c, s, n, Waiting, s.counted[n]);
  }

  lemma WinningTallyInv(c: Config, s: Cluster, n: NodeId)
    requires Inv(c, s) && ValidConfig(c) && Enabled(c, s, Tally(n))
    requires OnTally(s.hosts[n].ctl, s.hosts[n].loop.votes).1
    ensures Inv(c, Apply(c, s, Tally(n)))
  {
    PromotionCountsVotes(c, s, n);
    assert HostOk(c, s, n);
    PromoteStep(c, s, n);
  }

  /**
   The tally hands over only a number. Whenever it promotes, that number is the number of
   distinct controllers, the candidate included, that granted it the term it now holds.
   */
  lemma PromotionCountsVotes(c: Config, s: Cluster, n: NodeId)
    requires Inv(c, s) && ValidConfig(c) && Enabled(c, s, Tally(n))
    requires OnTally(s.hosts[n].ctl, s.hosts[n].loop.votes).1
    ensures var counted := s.counted[n] + {n};
            && s.hosts[n].loop.votes == |counted|
            && s.hosts[n].loop.term == s.hosts[n].ctl.term
            && (|c.peers| > 1 ==> counted <= Voters(s, c, s.hosts[n].ctl.term, n))
            && (|c.peers| > 1 ==> |Voters(s, c, s.hosts[n].ctl.term, n)| >= Quorum(|c.peers|))
  {
    assert HostOk(c, s, n);
    assert n !in s.counted[n];
    if |c.peers| > 1 {
      SubsetSize(s.counted[n] + {n}, Voters(s, c, s.hosts[n].ctl.term, n));
    }
  }

  // ---------------------------------------------------------------- the theorems

  lemma StepInv(c: Config, s: Cluster, a: Action)
    requires ValidConfig(c) && Inv(c, s) && Enabled(c, s, a)
    ensures Inv(c, Apply(c, s, a))
  {
    match a {
      case Start(n, io) => StartInv(c, s, n, io);
      case Crash(n) => CrashInv(c, s, n);
      case Timeout(n, io) => TimeoutInv(c, s, n, io);
      case ReadTerm(n) => ReadTermInv(c, s, n);
      case Ask(n, answered) => AskInv(c, s, n, answered);
      case Tally(n) =>
        if OnTally(s.hosts[n].ctl, s.hosts[n].loop.votes).1 {
          WinningTallyInv(c, s, n);
        } else {
          LosingTallyInv(c, s, n);
        }
      case VoteRequest(n, candidate, term, io) => VoteRequestInv(c, s, n, candidate, term, io);
      case Heartbeat(n, term, io) => HeartbeatInv(c, s, n, term, io);
      case StepDown(n, observed, io) => StepDownInv(c, s, n, observed, io);
    }
  }

  lemma {:induction false} RunInv(c: Config, s: Cluster, actions: seq<Action>)
    requires ValidConfig(c) && Inv(c, s) && Runs(c, s, actions)
    ensures Inv(c, After(c, s, actions))
    decreases |actions|
  {
    if actions != [] {
      StepInv(c, s, actions[0]);
      RunInv(c, Apply(c, s, actions[0]), actions[1..]);
    }
  }

  /** Two quorums of the same cluster share a voter. */
  lemma QuorumsMeet(all: set<NodeId>, x: set<NodeId>, y: set<NodeId>) returns (v: NodeId)
    requires x <= all && y <= all
    requires |x| >= Quorum(|all|) && |y| >= Quorum(|all|)
    ensures v in x && v in y
  {
    if x * y == {} {
      assert |x + y| == |x| + |y|;
      SubsetSize(x + y, all);
      assert false;
    }
    v :| v in x * y;
  }

  lemma OneLeaderPerTerm(c: Config, s: Cluster, term: Term, n: NodeId, m: NodeId)
    requires Inv(c, s) && term >= 1
    requires (term, n) in s.leaders && (term, m) in s.leaders
    ensures n == m
  {
    assert Elected(c, s, term, n) && Elected(c, s, term, m);
    if |c.peers| > 1 {
      var v := QuorumsMeet(c.peers.Keys, Voters(s, c, term, n), Voters(s, c, term, m));
      assert Ballot(v, term, n) in s.ballots && Ballot(v, term, m) in s.ballots;
    } else {
      SubsetSize({n, m}, c.peers.Keys);
    }
  }

  /** Election Safety: in every run, at most one node is ever Leader in any term from 1 on. */
  lemma ElectionSafety(c: Config, actions: seq<Action>, term: Term, n: NodeId, m: NodeId)
    requires ValidConfig(c) && Runs(c, Init(c), actions)
    requires term >= 1
    requires (term, n) in After(c, Init(c), actions).leaders
    requires (term, m) in After(c, Init(c), actions).leaders
    ensures n == m
  {
    InitInv(c);
    RunInv(c, Init(c), actions);
    OneLeaderPerTerm(c, After(c, Init(c), actions), term, n, m);
  }

  lemma OthersStay(c: Config, s: Cluster, a: Action, n: NodeId)
    requires Shaped(c, s) && Enabled(c, s, a) && n in c.peers && n != a.n
    ensures Apply(c, s, a).hosts[n] == s.hosts[n]
  {
  }

  lemma OwnDiskAdvances(c: Config, s: Cluster, a: Action)
    requires Shaped(c, s) && Enabled(c, s, a) && HostOk(c, s, a.n)
    ensures Advances(s.hosts[a.n].ctl.disk, Apply(c, s, a).hosts[a.n].ctl.disk)
  {
    var ctl := s.hosts[a.n].ctl;
    match a {
      case Start(_, io) => EnableKeeps(BootState(c, a.n, ctl.disk), io);
      case Timeout(_, io) => TimeoutKeeps(ctl, io);
      case VoteRequest(_, candidate, term, io) => VoteRequestKeeps(ctl, candidate, term, io);
      case Heartbeat(_, term, io) => HeartbeatKeeps(ctl, term, io);
      case StepDown(_, observed, io) => StepDownKeeps(ctl, observed, io);
      case _ =>
    }
  }

  lemma StepAdvances(c: Config, s: Cluster, a: Action, n: NodeId)
    requires ValidConfig(c) && Inv(c, s) && Enabled(c, s, a) && n in c.peers
    ensures n in Apply(c, s, a).hosts && Advances(s.hosts[n].ctl.disk, Apply(c, s, a).hosts[n].ctl.disk)
  {
    if n == a.n {
      assert HostOk(c, s, n);
      OwnDiskAdvances(c, s, a);
    } else {
      OthersStay(c, s, a, n);
    }
  }

  /** Through timeouts, failed writes and restarts, a vote on disk for a term is never changed. */
  lemma {:induction false} DurableVoteNeverChanges(c: Config, s: Cluster, actions: seq<Action>, n: NodeId)
    requires ValidConfig(c) && Inv(c, s) && Runs(c, s, actions) && n in c.peers
    ensures Advances(s.hosts[n].ctl.disk, After(c, s, actions).hosts[n].ctl.disk)
    decreases |actions|
  {
    if actions != [] {
      StepInv(c, s, actions[0]);
      StepAdvances(c, s, actions[0], n);
      DurableVoteNeverChanges(c, Apply(c, s, actions[0]), actions[1..], n);
    }
  }

  /** No run of this configuration ever has two leaders of one term, term 0 included. */
  ghost predicate SafeInEveryTerm(c: Config)
    requires ValidConfig(c)
  {
    forall actions, term, n, m ::
      Runs(c, Init(c), actions)
      && (term, n) in After(c, Init(c), actions).leaders
      && (term, m) in After(c, Init(c), actions).leaders
      ==> n == m
  }

  /** Two nodes configured as leaders both lead term 0 once both have started. */
  lemma TwoBootLeadersCollide(c: Config, n: NodeId, m: NodeId)
    requires ValidConfig(c) && n in c.bootLeaders && m in c.bootLeaders && n != m
    ensures !SafeInEveryTerm(c)
  {
    var s0 := Init(c);
    var a, b := Start(n, Written), Start(m, Written);
    var s1 := Apply(c, s0, a);
    var s2 := Apply(c, s1, b);
    var actions := [a, b];
    assert actions[1..] == [b];
    assert [b][1..] == [];
    assert Runs(c, s2, []);
    assert Runs(c, s1, [b]) && After(c, s1, [b]) == s2;
    assert Runs(c, s0, actions) && After(c, s0, actions) == s2;
    assert (0, n) in s1.leaders;
    assert (0, n) in s2.leaders && (0, m) in s2.leaders;
  }

  /** Leaders are unique in every term, 0 included, exactly when at most one is configured. */
  lemma SafeInEveryTermIff(c: Config)
    requires ValidConfig(c)
    ensures SafeInEveryTerm(c) <==> forall n, m :: n in c.bootLeaders && m in c.bootLeaders ==> n == m
  {
    if exists n, m :: n in c.bootLeaders && m in c.bootLeaders && n != m {
      var n, m :| n in c.bootLeaders && m in c.bootLeaders && n != m;
      TwoBootLeadersCollide(c, n, m);
    } else {
      forall actions, term, n, m |
        Runs(c, Init(c), actions)
        && (term, n) in After(c, Init(c), actions).leaders
        && (term, m) in After(c, Init(c), actions).leaders
        ensures n == m
      {
        InitInv(c);
        RunInv(c, Init(c), actions);
        OneLeaderWithOneBoot(c, After(c, Init(c), actions), term, n, m);
      }
    }
  }

  lemma OneLeaderWithOneBoot(c: Config, s: Cluster, term: Term, n: NodeId, m: NodeId)
    requires Inv(c, s)
    requires forall x, y :: x in c.bootLeaders && y in c.bootLeaders ==> x == y
    requires (term, n) in s.leaders && (term, m) in s.leaders
    ensures n == m
  {
    if term >= 1 {
      OneLeaderPerTerm(c, s, term, n, m);
    } else {
      assert Elected(c, s, term, n) && Elected(c, s, term, m);
      if |c.peers| <= 1 {
        SubsetSize({n, m}, c.peers.Keys);
      }
    }
  }
}
