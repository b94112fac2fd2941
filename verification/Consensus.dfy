/**
 One node's consensus controller: the fields `ControllerInner` guards with its mutex, the
 13-byte hard-state file beside them, and one transition per entry point. Every transition
 runs under the lock, so it is a function of the old state; the class updates its fields in
 place and is proved against those functions.
 */
module Consensus {
  import opened Wrappers
  import opened Bytes

  type Term = uint64

  type NodeId = uint32

  datatype Role = Follower | Candidate | Leader

  datatype Vote = Vote(term: Term, candidate: NodeId)

  /**
   What one write-to-temporary, rename, sync-directory sequence did. It can fail before the
   rename, leaving the old bytes, or after it, leaving the new ones.
   */
  datatype WriteOutcome = Written | FailedKeepingOld | FailedHoldingNew

  datatype State = State(
    nodeId: NodeId,
    clusterSize: nat,
    role: Role,
    term: Term,
    vote: Option<Vote>,
    persistent: bool,
    fenced: bool,
    disk: File)

  /** What the hard-state file says; it stores the voted-for candidate without a term. */
  datatype File = Missing | Garbled | Holding(term: Term, vote: Option<NodeId>)

  // ---------------------------------------------------------------- the hard-state file

  function HardStateBytes(term: Term, vote: Option<NodeId>): (bytes: Buffer)
    ensures |bytes| == 13
  {
    Put(8, term) + [if vote.Some? then 1 else 0] + Put(4, if vote.Some? then vote.value else 0)
  }

  function Parse(file: Option<Buffer>): File {
    if file.None? then Missing
    else
      var bytes := file.value;
      if |bytes| != 13 || bytes[8] > 1 then Garbled
      else
        Widths();
        ValueBound(bytes[..8]);
        ValueBound(bytes[9..]);
        Holding(Value(bytes[..8]), if bytes[8] == 1 then Some(Value(bytes[9..])) else None)
  }

  lemma HardStateRoundTrip(term: Term, vote: Option<NodeId>)
    ensures Parse(Some(HardStateBytes(term, vote))) == Holding(term, vote)
  {
    Widths();
    var bytes := HardStateBytes(term, vote);
    var id := if vote.Some? then vote.value else 0;
    ValueOfPut(8, term);
    ValueOfPut(4, id);
    assert bytes[..8] == Put(8, term);
    assert bytes[9..] == Put(4, id);
  }

  /** Whatever reads as a term and vote is the bytes written for them, save for the unused id when there is no vote. */
  lemma HardStateIsCanonical(bytes: Buffer)
    requires Parse(Some(bytes)).Holding?
    ensures var f := Parse(Some(bytes));
            && |bytes| == 13 && bytes[..9] == HardStateBytes(f.term, f.vote)[..9]
            && (f.vote.Some? ==> bytes == HardStateBytes(f.term, f.vote))
  {
    var f := Parse(Some(bytes));
    Widths();
    PutOfValue(bytes[..8]);
    assert bytes[..9] == bytes[..8] + [bytes[8]];
    if f.vote.Some? {
      PutOfValue(bytes[9..]);
      assert bytes == bytes[..8] + [bytes[8]] + bytes[9..];
    }
  }

  // ---------------------------------------------------------------- transitions

  function Boot(nodeId: NodeId, clusterSize: nat, role: Role, disk: File): State {
    State(nodeId, clusterSize, role, 0,
          if role == Leader then Some(Vote(0, nodeId)) else None,
          false, false, disk)
  }

  function VotedFor(vote: Option<Vote>): Option<NodeId> {
    if vote.Some? then Some(vote.value.candidate) else None
  }

  function Persist(s: State, io: WriteOutcome): (State, bool) {
    if !s.persistent then (s, true)
    else if io == FailedKeepingOld then (s, false)
    else (s.(disk := Holding(s.term, VotedFor(s.vote))), io == Written)
  }

  function PersistOrDemote(s: State, io: WriteOutcome): (State, bool) {
    var (after, ok) := Persist(s, io);
    if ok then (after, true) else (after.(fenced := true, role := Follower), false)
  }

  function EnablePersistence(s: State, io: WriteOutcome): (State, bool) {
    if s.disk.Garbled? then (s, false)
    else
      var loaded :=
        if s.disk.Missing? then s
        else s.(term := s.disk.term,
                vote := if s.disk.vote.Some? then Some(Vote(s.disk.term, s.disk.vote.value)) else None,
                role := if s.clusterSize == 1 then Leader else Follower);
      Persist(loaded.(persistent := true), io)
  }

  function OnHeartbeat(s: State, term: Term, io: WriteOutcome): (State, bool) {
    if s.fenced || term < s.term then (s, false)
    else
      PersistOrDemote(
        s.(vote := if term > s.term then None else s.vote, term := term, role := Follower), io)
  }

  /** `elapsed` stands for the clock comparison; the counter is a 64-bit one and wraps. */
  function OnTimeout(s: State, elapsed: bool, io: WriteOutcome): (State, bool) {
    if s.fenced || s.role == Leader || !elapsed then (s, false)
    else
      var next: Term := if s.term + 1 == U64 then 0 else s.term + 1;
      PersistOrDemote(s.(role := Candidate, term := next, vote := Some(Vote(next, s.nodeId))), io)
  }

  function Quorum(clusterSize: nat): nat {
    clusterSize / 2 + 1
  }

  function OnTally(s: State, votes: nat): (State, bool) {
    if !s.fenced && s.role == Candidate && votes >= Quorum(s.clusterSize)
    then (s.(role := Leader), true)
    else (s, false)
  }

  function OnVoteRequest(s: State, candidate: NodeId, term: Term, io: WriteOutcome): (State, bool) {
    if s.fenced || term < s.term then (s, false)
    else
      var moved := if term > s.term then s.(term := term, role := Follower, vote := None) else s;
      if moved.vote.Some? && moved.vote.value.term == term
      then (moved, moved.vote.value.candidate == candidate)
      else PersistOrDemote(moved.(vote := Some(Vote(term, candidate))), io)
  }

  function OnStepDown(s: State, observed: Term, io: WriteOutcome): State {
    if observed > s.term
    then PersistOrDemote(s.(term := observed, role := Follower, vote := None), io).0
    else s
  }

  // ---------------------------------------------------------------- what every transition keeps

  /** What a started controller keeps between its memory and its disk. */
  predicate Durable(s: State) {
    && s.persistent
    && s.disk.Holding?
    && (s.vote.Some? ==> s.vote.value.term == s.term)
    && s.disk.term <= s.term
    && (s.fenced ==> s.role == Follower)
    && (!s.fenced ==> s.disk == Holding(s.term, VotedFor(s.vote)))
  }

  /** The file may reach a later term, or gain a vote in its term, but never change a vote. */
  predicate Advances(before: File, after: File) {
    before.Holding? ==>
      && after.Holding?
      && before.term <= after.term
      && (before.term == after.term && before.vote.Some? ==> after.vote == before.vote)
  }

  /** Nobody becomes Candidate or Leader, and whoever still is holds the same term. */
  predicate Quiet(before: State, after: State) {
    after.role == Follower || (after.role == before.role && after.term == before.term)
  }

  predicate SameNode(before: State, after: State) {
    after.nodeId == before.nodeId && after.clusterSize == before.clusterSize
  }

  lemma EnableKeeps(s: State, io: WriteOutcome)
    requires !s.persistent && !s.fenced && s.term == 0
    requires s.vote.Some? ==> s.vote.value.term == 0
    ensures var (after, ok) := EnablePersistence(s, io);
            && (ok ==> Durable(after))
            && (after.disk.Garbled? ==> s.disk.Garbled?)
            && Advances(s.disk, after.disk)
  {
  }

  lemma HeartbeatKeeps(s: State, term: Term, io: WriteOutcome)
    requires Durable(s)
    ensures var after := OnHeartbeat(s, term, io).0;
            Durable(after) && Advances(s.disk, after.disk) && SameNode(s, after) && Quiet(s, after)
  {
  }

  lemma TimeoutKeeps(s: State, io: WriteOutcome)
    requires Durable(s) && s.term + 1 < U64
    ensures var (after, started) := OnTimeout(s, true, io);
            && Durable(after) && Advances(s.disk, after.disk) && SameNode(s, after)
            && (started ==>
                  && after.role == Candidate && after.term == s.term + 1
                  && after.disk == Holding(after.term, Some(s.nodeId)))
            && (!started ==> Quiet(s, after))
  {
  }

  /** A timeout that writes keeps the disk advancing exactly while the 64-bit term has room to grow. */
  lemma TimeoutAdvancesIff(s: State, io: WriteOutcome)
    requires Durable(s)
    ensures Advances(s.disk, OnTimeout(s, true, io).0.disk)
       <==> s.term + 1 < U64 || s.fenced || s.role == Leader || io == FailedKeepingOld
  {
    var after := OnTimeout(s, true, io).0;
    if s.term + 1 == U64 && !s.fenced && s.role != Leader && io != FailedKeepingOld {
      assert after.disk == Holding(0, Some(s.nodeId));
    }
  }

  /** Past that the counter wraps, and one voter grants one term to two candidates. */
  lemma WrappedTermVotesTwice(voter: NodeId, a: NodeId, b: NodeId)
    requires a != b
    ensures var start := State(voter, 3, Follower, 0, None, true, false, Holding(0, None));
            var (first, granted) := OnVoteRequest(start, a, 1, Written);
            var far := OnVoteRequest(first, a, U64 - 1, Written).0;
            var wrapped := OnTimeout(far, true, Written).0;
            Durable(start) && granted && OnVoteRequest(wrapped, b, 1, Written).1
  {
    var start := State(voter, 3, Follower, 0, None, true, false, Holding(0, None));
    var far := OnVoteRequest(OnVoteRequest(start, a, 1, Written).0, a, U64 - 1, Written).0;
    assert far.term == U64 - 1 && far.role == Follower;
    assert OnTimeout(far, true, Written).0.term == 0;
  }

  /** A grant is on disk before it is answered, and agrees with any vote already there. */
  lemma VoteRequestKeeps(s: State, candidate: NodeId, term: Term, io: WriteOutcome)
    requires Durable(s)
    ensures var (after, granted) := OnVoteRequest(s, candidate, term, io);
            && Durable(after) && Advances(s.disk, after.disk) && SameNode(s, after) && Quiet(s, after)
            && (granted ==> s.disk.term <= term && after.disk == Holding(term, Some(candidate)))
  {
  }

  lemma StepDownKeeps(s: State, observed: Term, io: WriteOutcome)
    requires Durable(s)
    ensures var after := OnStepDown(s, observed, io);
            Durable(after) && Advances(s.disk, after.disk) && SameNode(s, after) && Quiet(s, after)
  {
  }

  // ---------------------------------------------------------------- when each transition acts

  /** A write goes through, or there is nothing to write to. */
  predicate Lands(s: State, io: WriteOutcome) {
    !s.persistent || io == Written
  }

  /** A heartbeat is accepted iff it is not stale, by a node that then follows in its term and keeps a same-term vote. */
  lemma HeartbeatAcceptedIff(s: State, term: Term, io: WriteOutcome)
    ensures var (after, accepted) := OnHeartbeat(s, term, io);
            && (accepted <==> !s.fenced && s.term <= term && Lands(s, io))
            && (!s.fenced && s.term <= term ==> after.role == Follower && after.term == term)
            && (!s.fenced && s.term == term ==> after.vote == s.vote)
            && (!s.fenced && s.term < term ==> after.vote == None)
            && (s.fenced || term < s.term ==> after == s)
            && (after.fenced <==> s.fenced || (s.term <= term && !Lands(s, io)))
  {
  }

  /** A campaign starts iff the clock ran out on a node that may still act and does not lead. */
  lemma TimeoutStartsIff(s: State, elapsed: bool, io: WriteOutcome)
    requires s.term + 1 < U64
    ensures var (after, started) := OnTimeout(s, elapsed, io);
            && (started <==> !s.fenced && s.role != Leader && elapsed && Lands(s, io))
            && (started ==> after.role == Candidate && after.term == s.term + 1 && after.vote == Some(Vote(s.term + 1, s.nodeId)))
            && (s.fenced || s.role == Leader || !elapsed ==> after == s)
  {
  }

  /** A tally promotes iff more than half of the cluster voted, and changes nothing but the role. */
  lemma TallyPromotesIff(s: State, votes: nat)
    ensures var (after, promoted) := OnTally(s, votes);
            && (promoted <==> !s.fenced && s.role == Candidate && 2 * votes > s.clusterSize)
            && after == if promoted then s.(role := Leader) else s
  {
  }

  /** A vote is granted iff it is still free in that term, or already this candidate's. */
  lemma VoteGrantedIff(s: State, candidate: NodeId, term: Term, io: WriteOutcome)
    requires s.vote.Some? ==> s.vote.value.term <= s.term
    ensures var (after, granted) := OnVoteRequest(s, candidate, term, io);
            && (granted <==>
                  && !s.fenced && s.term <= term
                  && (s.vote == Some(Vote(term, candidate))
                      || ((s.vote.None? || s.vote.value.term < term) && Lands(s, io))))
            && (!s.fenced && s.term < term ==> after.role == Follower && after.term == term)
            && (!s.fenced && s.term == term && granted ==> after.role == s.role && after.term == term)
            && (s.fenced || term < s.term ==> after == s)
  {
  }

  /** A granted vote stands: the same candidate may ask again, nobody else gets that term. */
  lemma GrantStands(s: State, candidate: NodeId, other: NodeId, term: Term, io: WriteOutcome, again: WriteOutcome)
    requires OnVoteRequest(s, candidate, term, io).1
    ensures var after := OnVoteRequest(s, candidate, term, io).0;
            && OnVoteRequest(after, candidate, term, again) == (after, true)
            && (other != candidate ==> OnVoteRequest(after, other, term, again) == (after, false))
  {
  }

  /** A higher term always leaves a follower in that term that voted for nobody; any other changes nothing. */
  lemma StepDownYields(s: State, observed: Term, io: WriteOutcome)
    ensures var after := OnStepDown(s, observed, io);
            if observed > s.term
            then after.role == Follower && after.term == observed && after.vote == None
                 && after.fenced == (s.fenced || !Lands(s, io))
            else after == s
  {
  }

  /** A node that went down unfenced comes back with its term and its vote, and must earn its lead again. */
  lemma RestartRemembers(s: State, role: Role, io: WriteOutcome)
    requires Durable(s) && !s.fenced
    ensures var (after, ok) := EnablePersistence(Boot(s.nodeId, s.clusterSize, role, s.disk), io);
            && after.term == s.term && after.vote == s.vote && !after.fenced && after.disk == s.disk
            && (after.role == if s.clusterSize == 1 then Leader else Follower)
            && (ok <==> io == Written)
  {
  }

  /** A node that never ran starts in term 0 in its configured role. */
  lemma FirstStart(nodeId: NodeId, clusterSize: nat, role: Role, io: WriteOutcome)
    ensures var (after, ok) := EnablePersistence(Boot(nodeId, clusterSize, role, Missing), io);
            && after.term == 0 && after.role == role && !after.fenced && (ok <==> io == Written)
            && after.vote == (if role == Leader then Some(Vote(0, nodeId)) else None)
  {
  }

  // ---------------------------------------------------------------- the controller object

  class Controller {
    const nodeId: NodeId
    const clusterSize: nat
    var role: Role
    var term: Term
    var vote: Option<Vote>
    var persistent: bool
    var fenced: bool
    var file: Option<Buffer>

    ghost function View(): State
      reads this
    {
      State(nodeId, clusterSize, role, term, vote, persistent, fenced, Parse(file))
    }

    constructor (nodeId: NodeId, clusterSize: nat, role: Role, file: Option<Buffer>)
      ensures View() == Boot(nodeId, clusterSize, role, Parse(file))
    {
      this.nodeId := nodeId;
      this.clusterSize := clusterSize;
      this.role := role;
      this.term := 0;
      this.vote := if role == Leader then Some(Vote(0, nodeId)) else None;
      this.persistent := false;
      this.fenced := false;
      this.file := file;
    }

    method WriteHardState(io: WriteOutcome) returns (ok: bool)
      modifies this`file
      ensures (View(), ok) == Persist(old(View()), io)
    {
      ok := true;
      if persistent {
        var bytes := Put(8, term);
        bytes := bytes + [if vote.Some? then 1 else 0];
        bytes := bytes + Put(4, if vote.Some? then vote.value.candidate else 0);
        HardStateRoundTrip(term, VotedFor(vote));
        if io != FailedKeepingOld {
          file := Some(bytes);
        }
        ok := io == Written;
      }
    }

    method WriteOrDemote(io: WriteOutcome) returns (ok: bool)
      modifies this`file, this`fenced, this`role
      ensures (View(), ok) == PersistOrDemote(old(View()), io)
    {
      ok := WriteHardState(io);
      if !ok {
        fenced := true;
        role := Follower;
      }
    }

    method Enable(io: WriteOutcome) returns (ok: bool)
      modifies this
      ensures (View(), ok) == EnablePersistence(old(View()), io)
    {
      if file.Some? {
        var bytes := file.value;
        if |bytes| != 13 || bytes[8] > 1 {
          return false;
        }
        Widths();
        ValueBound(bytes[..8]);
        ValueBound(bytes[9..]);
        term := Value(bytes[..8]);
        vote := if bytes[8] == 1 then Some(Vote(term, Value(bytes[9..]))) else None;
        role := if clusterSize == 1 then Leader else Follower;
      }
      persistent := true;
      ok := WriteHardState(io);
    }

    method HandleLeaderHeartbeat(observed: Term, io: WriteOutcome) returns (accepted: bool)
      modifies this
      ensures (View(), accepted) == OnHeartbeat(old(View()), observed, io)
    {
      if fenced || observed < term {
        return false;
      }
      if observed > term {
        vote := None;
      }
      term := observed;
      role := Follower;
      accepted := WriteOrDemote(io);
    }

    method CheckElectionTimeout(elapsed: bool, io: WriteOutcome) returns (started: bool)
      modifies this
      ensures (View(), started) == OnTimeout(old(View()), elapsed, io)
    {
      if fenced || role == Leader || !elapsed {
        return false;
      }
      role := Candidate;
      term := if term + 1 == U64 then 0 else term + 1;
      vote := Some(Vote(term, nodeId));
      started := WriteOrDemote(io);
    }

    method TallyElectionVotes(votes: nat) returns (promoted: bool)
      modifies this`role
      ensures (View(), promoted) == OnTally(old(View()), votes)
      ensures promoted <==> !fenced && old(role) == Candidate && 2 * votes > clusterSize
    {
      promoted := !fenced && role == Candidate && votes >= clusterSize / 2 + 1;
      if promoted {
        role := Leader;
      }
    }

    method TryRecordVote(candidate: NodeId, requested: Term, io: WriteOutcome) returns (granted: bool)
      modifies this
      ensures (View(), granted) == OnVoteRequest(old(View()), candidate, requested, io)
    {
      if fenced || requested < term {
        return false;
      }
      if requested > term {
        term := requested;
        role := Follower;
        vote := None;
      }
      if vote.Some? && vote.value.term == requested {
        return vote.value.candidate == candidate;
      }
      vote := Some(Vote(requested, candidate));
      granted := WriteOrDemote(io);
    }

    method StepDownToFollower(observed: Term, io: WriteOutcome)
      modifies this
      ensures View() == OnStepDown(old(View()), observed, io)
    {
      if observed > term {
        term := observed;
        role := Follower;
        vote := None;
        var ok := WriteOrDemote(io);
      }
    }
  }
}
