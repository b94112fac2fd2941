/**
 How sparse a segment's index can get. Appends place an entry every `interval` bytes, counted
 since the last entry; reopening and truncating reset that count without placing one. So the
 promise that every batch starts within `interval` bytes of an entry holds for appends alone,
 and otherwise only with slack, which reopening bounds and truncation does not.
 */
module Density {
  import opened Wrappers
  import opened Bytes
  import opened Batch
  import opened Recovery
  import opened RecoveryTheorems
  import opened Index
  import opened Segment

  // ---------------------------------------------------------------- within reach of an entry

  predicate Reaches(reach: nat, e: IndexEntry, p: nat) {
    e.position == p || e.position < p < e.position + reach
  }

  ghost predicate CoveredAt(reach: nat, entries: seq<IndexEntry>, p: nat) {
    exists i :: 0 <= i < |entries| && Reaches(reach, entries[i], p)
  }

  /** Every batch has its own index entry or starts less than `reach` bytes after one. */
  ghost predicate Covered(reach: nat, batches: seq<RecordBatch>, entries: seq<IndexEntry>) {
    forall j :: 0 <= j < |batches| ==> CoveredAt(reach, entries, Pos(batches, j))
  }

  function LastEntry(entries: seq<IndexEntry>): IndexEntry
    requires entries != []
  {
    entries[|entries| - 1]
  }

  lemma PosStrict(batches: seq<RecordBatch>, j: nat, k: nat)
    requires j < k <= |batches|
    ensures Pos(batches, j) < Pos(batches, k)
  {
    PosStep(batches, j);
    PosMonotone(batches, j + 1, k);
  }

  lemma PositionsUpTo(batches: seq<RecordBatch>, ks: seq<nat>, i: nat)
    requires i < |ks| && (forall k :: 0 <= k < |ks| ==> ks[k] < |batches|)
    requires forall j, k :: 0 <= j < k < |ks| ==> ks[j] < ks[k]
    ensures Pos(batches, ks[i]) <= Pos(batches, ks[|ks| - 1]) < Pos(batches, |batches|)
  {
    var last := |ks| - 1;
    PosStrict(batches, ks[last], |batches|);
    if i < last {
      PosStrict(batches, ks[i], ks[last]);
    }
  }

  /** What a right index says of positions. */
  lemma IndexedPositions(base: uint64, batches: seq<RecordBatch>, entries: seq<IndexEntry>)
    requires Indexed(base, batches, entries)
    ensures entries == [] <==> batches == []
    ensures forall i :: 0 <= i < |entries| ==>
              entries[i].position <= LastEntry(entries).position < Pos(batches, |batches|)
  {
    var ks :| Indexes(base, batches, |batches|, ks, entries);
    EmptyIndex(base, batches, |batches|, ks, entries);
    forall i | 0 <= i < |entries|
      ensures entries[i].position <= LastEntry(entries).position < Pos(batches, |batches|)
    {
      PositionsUpTo(batches, ks, i);
    }
  }

  lemma FileEnds(g: Setup, s: State, batches: seq<RecordBatch>)
    requires Represents(g, s, batches)
    ensures |s.file| == Pos(batches, |batches|) < U32
  {
    EncodeAllSize(batches);
    assert batches[..|batches|] == batches;
  }

  lemma CoveredByMore(reach: nat, wider: nat, entries: seq<IndexEntry>, more: seq<IndexEntry>, p: nat)
    requires CoveredAt(reach, entries, p) && reach <= wider && entries <= more
    ensures CoveredAt(wider, more, p)
  {
    var i :| 0 <= i < |entries| && Reaches(reach, entries[i], p);
    assert more[i] == entries[i];
  }

  // ---------------------------------------------------------------- one append

  lemma PosAppended(batches: seq<RecordBatch>, b: RecordBatch, j: nat)
    requires j <= |batches|
    ensures Pos(batches + [b], j) == Pos(batches, j)
  {
    assert (batches + [b])[..|batches|] == batches;
    PosOfPrefix(batches, batches + [b], j);
  }

  lemma OldStayCovered(reach: nat, batches: seq<RecordBatch>, b: RecordBatch, entries: seq<IndexEntry>, more: seq<IndexEntry>)
    requires Covered(reach, batches, entries) && entries <= more
    ensures forall j :: 0 <= j < |batches| ==> CoveredAt(reach, more, Pos(batches + [b], j))
  {
    forall j | 0 <= j < |batches|
      ensures CoveredAt(reach, more, Pos(batches + [b], j))
    {
      PosAppended(batches, b, j);
      CoveredByMore(reach, reach, entries, more, Pos(batches, j));
    }
  }

  /** After an append everything is covered iff the new batch is. */
  lemma AppendCovers(reach: nat, batches: seq<RecordBatch>, b: RecordBatch, entries: seq<IndexEntry>, more: seq<IndexEntry>)
    requires Covered(reach, batches, entries) && entries <= more
    ensures Covered(reach, batches + [b], more) <==> CoveredAt(reach, more, Pos(batches, |batches|))
  {
    OldStayCovered(reach, batches, b, entries, more);
    PosAppended(batches, b, |batches|);
  }

  /**
   An append to a densely indexed segment keeps it so exactly when its byte counter triggers an
   entry, or the end of the file really is that close to the last one.
   */
  lemma AppendStaysDenseIff(g: Setup, s: State, batches: seq<RecordBatch>, b: RecordBatch)
    requires Represents(g, s, batches) && CanAppend(g, s, batches, b) && batches != []
    requires Covered(g.interval, batches, s.entries)
    ensures s.entries != []
    ensures Covered(g.interval, batches + [b], Appended(g, s, b).entries)
       <==> s.since >= g.interval || |s.file| < LastEntry(s.entries).position + g.interval
  {
    var more := Appended(g, s, b).entries;
    FileEnds(g, s, batches);
    IndexedPositions(g.base, batches, s.entries);
    AppendCovers(g.interval, batches, b, s.entries, more);
    if s.since >= g.interval {
      assert Reaches(g.interval, LastEntry(more), |s.file|);
    } else if |s.file| < LastEntry(s.entries).position + g.interval {
      assert Reaches(g.interval, LastEntry(s.entries), |s.file|);
    }
  }

  // ---------------------------------------------------------------- slack

  /** Covered up to `slack` more bytes, and the counter is behind by at most that. */
  ghost predicate Loose(g: Setup, s: State, batches: seq<RecordBatch>, slack: nat) {
    && Covered(g.interval + slack, batches, s.entries)
    && (s.entries != [] ==> |s.file| <= LastEntry(s.entries).position + s.since + slack)
  }

  lemma NewIsCovered(g: Setup, s: State, b: RecordBatch, slack: nat)
    requires |s.file| < U32
    requires s.entries != [] ==>
               LastEntry(s.entries).position < |s.file| <= LastEntry(s.entries).position + s.since + slack
    ensures var t := Appended(g, s, b);
            && t.entries != [] && s.entries <= t.entries && CoveredAt(g.interval + slack, t.entries, |s.file|)
            && |t.file| <= LastEntry(t.entries).position + t.since + slack
  {
    assert Reaches(g.interval + slack, LastEntry(Appended(g, s, b).entries), |s.file|);
  }

  lemma AppendLoose(g: Setup, s: State, batches: seq<RecordBatch>, b: RecordBatch, slack: nat)
    requires Represents(g, s, batches) && CanAppend(g, s, batches, b) && Loose(g, s, batches, slack)
    ensures Loose(g, Appended(g, s, b), batches + [b], slack)
  {
    FileEnds(g, s, batches);
    IndexedPositions(g.base, batches, s.entries);
    NewIsCovered(g, s, b, slack);
    AppendCovers(g.interval + slack, batches, b, s.entries, Appended(g, s, b).entries);
  }

  /** From a rebuilt index: covered, with the counter it had when it was lost. */
  lemma RebuiltCovers(base: uint64, interval: nat, batches: seq<RecordBatch>)
    requires InOrder(base, batches) && Addressable(base, batches)
    ensures var entries := Walk(base, interval, batches, 0, Fresh(base)).index;
            && Covered(interval, batches, entries)
            && (entries == [] <==> batches == [])
            && (batches != [] ==>
                  Pos(batches, |batches|) <= LastEntry(entries).position + interval + Size(batches[|batches| - 1]))
  {
    var walked, n := Walk(base, interval, batches, 0, Fresh(base)), |batches|;
    assert batches[0..] == batches;
    var ks := RebuildIndexes(base, interval, batches, 0, [], Fresh(base));
    EmptyIndex(base, batches, n, ks, walked.index);
    forall j | 0 <= j < n
      ensures CoveredAt(interval, walked.index, Pos(batches, j))
    {
      NearCovers(base, interval, batches, ks, walked.index, j);
    }
    if n > 0 {
      NearLast(interval, batches, ks);
    }
  }

  lemma NearCovers(base: uint64, interval: nat, batches: seq<RecordBatch>, ks: seq<nat>, entries: seq<IndexEntry>, j: nat)
    requires j < |batches| && Indexes(base, batches, |batches|, ks, entries) && Near(interval, batches, ks, j)
    ensures CoveredAt(interval, entries, Pos(batches, j))
  {
    var i :| 0 <= i < |ks| && (ks[i] == j || (ks[i] < j && Pos(batches, j) < Pos(batches, ks[i]) + interval));
    if ks[i] < j {
      PosStep(batches, ks[i]);
      PosMonotone(batches, ks[i] + 1, j);
    }
    assert Reaches(interval, entries[i], Pos(batches, j));
  }

  lemma NearLast(interval: nat, batches: seq<RecordBatch>, ks: seq<nat>)
    requires batches != [] && ks != [] && (forall i :: 0 <= i < |ks| ==> ks[i] < |batches|)
    requires (forall i, j :: 0 <= i < j < |ks| ==> ks[i] < ks[j]) && Near(interval, batches, ks, |batches| - 1)
    ensures Pos(batches, |batches|) <= Pos(batches, ks[|ks| - 1]) + interval + Size(batches[|batches| - 1])
  {
    var n, last := |batches|, ks[|ks| - 1];
    var i :| 0 <= i < |ks| && (ks[i] == n - 1 || (ks[i] < n - 1 && Pos(batches, n - 1) < Pos(batches, ks[i]) + interval));
    PosStep(batches, n - 1);
    PosMonotone(batches, ks[i], last);
  }

  lemma ReopenLoose(g: Setup, s: State, batches: seq<RecordBatch>, torn: Buffer)
    requires Lawful(g) && Represents(g, s, batches) && g.read(torn).Err?
    ensures Loose(g, Reopened(g, s.file + torn), batches, ReopenSlack(g.interval, batches))
  {
    ScanFinds(g, batches, torn);
    FileEnds(g, s, batches);
    RebuiltCovers(g.base, g.interval, batches);
    CoveredWider(g.interval, g.interval + ReopenSlack(g.interval, batches), batches,
                 Walk(g.base, g.interval, batches, 0, Fresh(g.base)).index);
  }

  /** What reopening loses count of: at most an interval and the last batch. */
  function ReopenSlack(interval: nat, batches: seq<RecordBatch>): nat {
    if batches == [] then 0 else interval + Size(batches[|batches| - 1])
  }

  // ---------------------------------------------------------------- truncation

  lemma {:induction false} BelowHas(entries: seq<IndexEntry>, cutoff: nat, i: nat) returns (k: nat)
    requires i < |entries| && entries[i].relativeOffset < cutoff
    ensures k < |Below(entries, cutoff)| && Below(entries, cutoff)[k] == entries[i]
  {
    var last := |entries| - 1;
    if i < last {
      k := BelowHas(entries[..last], cutoff, i);
    } else {
      k := |Below(entries[..last], cutoff)|;
    }
  }

  /** An entry at or before a surviving batch survives. */
  lemma EarlyEntriesStay(base: uint64, batches: seq<RecordBatch>, entries: seq<IndexEntry>, n: nat, j: nat, i: nat)
    requires InOrder(base, batches) && Addressable(base, batches) && Indexed(base, batches, entries)
    requires j < n < |batches| && i < |entries| && entries[i].position <= Pos(batches, j)
    ensures entries[i].relativeOffset < Relative(batches[n].baseOffset, base)
  {
    var ks :| Indexes(base, batches, |batches|, ks, entries);
    if ks[i] >= n {
      PosStep(batches, j);
      PosMonotone(batches, j + 1, ks[i]);
    }
    assert LastOffset(batches[ks[i]]) < batches[n].baseOffset;
  }

  lemma CutStaysCovered(reach: nat, base: uint64, batches: seq<RecordBatch>, entries: seq<IndexEntry>, n: nat, j: nat)
    requires InOrder(base, batches) && Addressable(base, batches) && Indexed(base, batches, entries)
    requires j < n < |batches| && CoveredAt(reach, entries, Pos(batches, j))
    ensures CoveredAt(reach, Below(entries, Relative(batches[n].baseOffset, base)), Pos(batches[..n], j))
  {
    var cutoff := Relative(batches[n].baseOffset, base);
    var i :| 0 <= i < |entries| && Reaches(reach, entries[i], Pos(batches, j));
    EarlyEntriesStay(base, batches, entries, n, j, i);
    var k := BelowHas(entries, cutoff, i);
    PosOfPrefix(batches[..n], batches, j);
    assert Reaches(reach, Below(entries, cutoff)[k], Pos(batches[..n], j));
  }

  /** A covered list ends at most a reach and a batch after its last entry. */
  lemma CoveredEnd(reach: nat, base: uint64, batches: seq<RecordBatch>, entries: seq<IndexEntry>)
    requires batches != [] && Indexed(base, batches, entries) && Covered(reach, batches, entries)
    ensures entries != []
    ensures Pos(batches, |batches|) <= LastEntry(entries).position + reach + Size(batches[|batches| - 1])
  {
    var n := |batches|;
    IndexedPositions(base, batches, entries);
    PosStep(batches, n - 1);
    assert CoveredAt(reach, entries, Pos(batches, n - 1));
  }

  lemma CutCovered(reach: nat, base: uint64, batches: seq<RecordBatch>, entries: seq<IndexEntry>, n: nat)
    requires InOrder(base, batches) && Addressable(base, batches) && Indexed(base, batches, entries)
    requires n < |batches| && Covered(reach, batches, entries)
    ensures Covered(reach, batches[..n], Below(entries, Relative(batches[n].baseOffset, base)))
  {
    forall j | 0 <= j < n
      ensures CoveredAt(reach, Below(entries, Relative(batches[n].baseOffset, base)), Pos(batches[..n], j))
    {
      CutStaysCovered(reach, base, batches, entries, n, j);
    }
  }

  lemma CoveredWider(reach: nat, wider: nat, batches: seq<RecordBatch>, entries: seq<IndexEntry>)
    requires Covered(reach, batches, entries) && reach <= wider
    ensures Covered(wider, batches, entries)
  {
    forall j | 0 <= j < |batches|
      ensures CoveredAt(wider, entries, Pos(batches, j))
    {
      CoveredByMore(reach, wider, entries, entries, Pos(batches, j));
    }
  }

  lemma CountLost(g: Setup, t: State, left: seq<RecordBatch>, slack: nat)
    requires Represents(g, t, left) && Covered(g.interval + slack, left, t.entries)
    ensures Loose(g, t, left, TruncateSlack(g.interval, left, slack))
  {
    FileEnds(g, t, left);
    if left == [] {
      IndexedPositions(g.base, left, t.entries);
    } else {
      CoveredWider(g.interval + slack, g.interval + TruncateSlack(g.interval, left, slack), left, t.entries);
      CoveredEnd(g.interval + slack, g.base, left, t.entries);
    }
  }

  lemma TruncateLoose(g: Setup, s: State, batches: seq<RecordBatch>, offset: uint64, slack: nat)
    requires Lawful(g) && Represents(g, s, batches) && g.base <= offset < s.next && Loose(g, s, batches, slack)
    ensures var left := Surviving(batches, offset);
            Loose(g, Truncated(g, s, offset), left, TruncateSlack(g.interval, left, slack))
  {
    SurvivingIsPrefix(batches, offset);
    TruncatedAt(g, s, batches, offset);
    TruncateRepresents(g, s, batches, offset);
    CutCovered(g.interval + slack, g.base, batches, s.entries, |Surviving(batches, offset)|);
    CountLost(g, Truncated(g, s, offset), Surviving(batches, offset), slack);
  }

  /** Truncation loses count of that much more each time. */
  function TruncateSlack(interval: nat, left: seq<RecordBatch>, slack: nat): nat {
    if left == [] then 0 else interval + slack + Size(left[|left| - 1])
  }

  // ---------------------------------------------------------------- whole runs

  /** The slack a step leaves: none of it from appends, bounded from reopening, growing from truncation. */
  function SlackNext(interval: nat, batches: seq<RecordBatch>, next: nat, slack: nat, step: Step): nat {
    match step
    case Appending(_) => slack
    case Truncating(offset) => if offset >= next then slack else TruncateSlack(interval, Surviving(batches, offset), slack)
    case Crashing(_, _) => ReopenSlack(interval, batches)
    case Reopening => ReopenSlack(interval, batches)
  }

  lemma CrashLoose(g: Setup, s: State, batches: seq<RecordBatch>, b: RecordBatch, written: nat)
    requires Lawful(g) && Represents(g, s, batches) && Sealed(g.crc, b) && written < |Encode(b)|
    ensures Loose(g, Next(g, s, Crashing(b, written)), batches, ReopenSlack(g.interval, batches))
  {
    var torn := Encode(b)[..written];
    assert g.read(torn).Err? by {
      TornIsUnreadable(g.crc, g.read, b, torn);
    }
    ReopenLoose(g, s, batches, torn);
  }

  lemma StepLoose(g: Setup, s: State, batches: seq<RecordBatch>, slack: nat, step: Step)
    requires Lawful(g) && Represents(g, s, batches) && Enabled(g, s, batches, step) && Loose(g, s, batches, slack)
    ensures Loose(g, Next(g, s, step), NextList(batches, step), SlackNext(g.interval, batches, s.next, slack, step))
  {
    match step
    case Appending(b) => AppendLoose(g, s, batches, b, slack);
    case Truncating(offset) =>
      if offset >= s.next {
        KeepsAll(g.base, batches, offset);
      } else {
        TruncateLoose(g, s, batches, offset, slack);
      }
    case Crashing(b, written) => CrashLoose(g, s, batches, b, written);
    case Reopening =>
      assert s.file + [] == s.file;
      ReopenLoose(g, s, batches, []);
  }

  ghost function SlackAfter(g: Setup, s: State, batches: seq<RecordBatch>, slack: nat, steps: seq<Step>): nat
    requires Lawful(g)
    decreases |steps|
  {
    if steps == [] then slack
    else SlackAfter(g, Next(g, s, steps[0]), NextList(batches, steps[0]),
                    SlackNext(g.interval, batches, s.next, slack, steps[0]), steps[1..])
  }

  /** Over every run, every batch starts less than the interval and the slack after an index entry. */
  lemma {:induction false} RunStaysLoose(g: Setup, s: State, batches: seq<RecordBatch>, slack: nat, steps: seq<Step>)
    requires Lawful(g) && Represents(g, s, batches) && Runs(g, s, batches, steps) && Loose(g, s, batches, slack)
    ensures Loose(g, After(g, s, steps), ListAfter(batches, steps), SlackAfter(g, s, batches, slack, steps))
    decreases |steps|
  {
    if steps != [] {
      StepRefines(g, s, batches, steps[0]);
      StepLoose(g, s, batches, slack, steps[0]);
      RunStaysLoose(g, Next(g, s, steps[0]), NextList(batches, steps[0]),
                    SlackNext(g.interval, batches, s.next, slack, steps[0]), steps[1..]);
    }
  }

  predicate NoTruncation(steps: seq<Step>) {
    forall i :: 0 <= i < |steps| ==> !steps[i].Truncating?
  }

  /** The last batch there was when the segment was last reopened, if it ever was. */
  function LastReopened(batches: seq<RecordBatch>, was: seq<RecordBatch>, steps: seq<Step>): seq<RecordBatch>
    decreases |steps|
  {
    if steps == [] then was
    else LastReopened(NextList(batches, steps[0]),
                      if steps[0].Crashing? || steps[0].Reopening? then batches else was, steps[1..])
  }

  lemma {:induction false} SlackWithoutTruncation(g: Setup, s: State, batches: seq<RecordBatch>, was: seq<RecordBatch>, steps: seq<Step>)
    requires Lawful(g) && NoTruncation(steps)
    ensures SlackAfter(g, s, batches, ReopenSlack(g.interval, was), steps)
         == ReopenSlack(g.interval, LastReopened(batches, was, steps))
    decreases |steps|
  {
    if steps != [] {
      var now := if steps[0].Crashing? || steps[0].Reopening? then batches else was;
      SlackWithoutTruncation(g, Next(g, s, steps[0]), NextList(batches, steps[0]), now, steps[1..]);
    }
  }

  /**
   Without truncation the slack never piles up: after any run of appends, crashes and reopenings
   from an empty segment, every batch starts less than two intervals, and the last batch there
   was at the last reopening, after an index entry; less than one if it was never reopened.
   */
  lemma ReopeningKeepsItClose(g: Setup, steps: seq<Step>)
    requires Lawful(g) && Runs(g, State([], [], 0, g.base), [], steps) && NoTruncation(steps)
    ensures var start := State([], [], 0, g.base);
            Covered(g.interval + ReopenSlack(g.interval, LastReopened([], [], steps)),
                    ListAfter([], steps), After(g, start, steps).entries)
  {
    var start := State([], [], 0, g.base);
    EmptyRepresents(g);
    RunStaysLoose(g, start, [], 0, steps);
    SlackWithoutTruncation(g, start, [], [], steps);
  }

  // ---------------------------------------------------------------- how it goes wrong

  /** While the counter is below the interval, an append places nothing. */
  lemma PlacesNothing(g: Setup, s: State, b: RecordBatch)
    requires s.entries != [] && s.since < g.interval
    ensures Appended(g, s, b).entries == s.entries && Appended(g, s, b).since == s.since + Size(b)
  {
  }

  lemma ReopenedWithOne(g: Setup, s: State, a: RecordBatch)
    requires Lawful(g) && Represents(g, s, [a])
    ensures var t := Reopened(g, s.file);
            t.entries == [IndexEntry(0, 0)] && t.since == 0
  {
    assert s.file + [] == s.file;
    ScanFinds(g, [a], []);
    assert [a][1..] == [];
    assert [a][..0] == [];
  }

  lemma OneEntryCovers(reach: nat, batches: seq<RecordBatch>, j: nat)
    requires j < |batches| && 0 < Pos(batches, j) && reach <= Pos(batches, j)
    ensures !Covered(reach, batches, [IndexEntry(0, 0)])
  {
    assert !CoveredAt(reach, [IndexEntry(0, 0)], Pos(batches, j));
  }

  /** Where the first batch and a reopening lead. */
  lemma FirstThenReopen(g: Setup, a: RecordBatch) returns (s: State)
    requires Lawful(g) && CanAppend(g, State([], [], 0, g.base), [], a)
    ensures Leads(g, State([], [], 0, g.base), [], [Appending(a)] + [Reopening], s, [a])
    ensures Represents(g, s, [a]) && s.entries == [IndexEntry(0, 0)] && s.since == 0
  {
    var start := State([], [], 0, g.base);
    var one := Appended(g, start, a);
    EmptyRepresents(g);
    AppendRepresents(g, start, [], a);
    assert [] + [a] == [a];
    s := Reopened(g, one.file);
    ReopenedWithOne(g, one, a);
    assert one.file + [] == one.file;
    ReopenRepresents(g, one, [a], []);
    LeadsBy(g, start, [], Appending(a));
    LeadsBy(g, one, [a], Reopening);
    LeadsOn(g, start, [], [Appending(a)], one, [a], [Reopening], s, [a]);
  }

  lemma LeadsAppend(g: Setup, s: State, batches: seq<RecordBatch>, b: RecordBatch)
    requires Lawful(g) && CanAppend(g, s, batches, b)
    ensures Leads(g, s, batches, [Appending(b)], Appended(g, s, b), batches + [b])
  {
    LeadsBy(g, s, batches, Appending(b));
  }

  lemma CanAppendNext(g: Setup, s: State, all: seq<RecordBatch>, n: nat)
    requires WellFormed(g, all) && WithinOffsets(all) && n < |all| && s.next == EndOf(g.base, all[..n])
    ensures CanAppend(g, s, all[..n], all[n]) && all[..n] + [all[n]] == all[..n + 1]
  {
    OneLonger(all, n);
    PrefixInOrder(g.base, all, n + 1);
  }

  lemma OneLonger<T>(all: seq<T>, n: nat)
    requires n < |all|
    ensures all[..n] + [all[n]] == all[..n + 1]
  {
  }

  lemma LeadsNext(g: Setup, s: State, all: seq<RecordBatch>, n: nat)
    requires Lawful(g) && WellFormed(g, all) && WithinOffsets(all) && n < |all| && Represents(g, s, all[..n])
    ensures Leads(g, s, all[..n], [Appending(all[n])], Appended(g, s, all[n]), all[..n + 1])
    ensures Represents(g, Appended(g, s, all[n]), all[..n + 1])
  {
    CanAppendNext(g, s, all, n);
    AppendRepresents(g, s, all[..n], all[n]);
    LeadsAppend(g, s, all[..n], all[n]);
  }

  /** A list a segment can hold, of batches each smaller than the interval. */
  ghost predicate Fine(g: Setup, all: seq<RecordBatch>) {
    WellFormed(g, all) && WithinOffsets(all) && forall i :: 0 <= i < |all| ==> Size(all[i]) < g.interval
  }

  /** The first `n` batches are there, only the first is indexed, and the counter stands at `since`. */
  ghost predicate Thin(g: Setup, s: State, all: seq<RecordBatch>, n: nat, since: nat) {
    && 0 < n <= |all| && Represents(g, s, all[..n]) && s.entries == [IndexEntry(0, 0)] && s.since == since
  }

  lemma ThinAppend(g: Setup, s: State, all: seq<RecordBatch>, n: nat, since: nat) returns (t: State)
    requires Lawful(g) && WellFormed(g, all) && WithinOffsets(all) && n < |all| && since < g.interval && Thin(g, s, all, n, since)
    ensures Thin(g, t, all, n + 1, since + Size(all[n]))
    ensures Leads(g, s, all[..n], [Appending(all[n])], t, all[..n + 1])
  {
    t := Appended(g, s, all[n]);
    LeadsNext(g, s, all, n);
    PlacesNothing(g, s, all[n]);
  }

  lemma CutsLast(base: uint64, batches: seq<RecordBatch>, n: nat)
    requires |batches| == n + 1 && InOrder(base, batches)
    ensures Surviving(batches, batches[n].baseOffset) == batches[..n]
  {
    var k := |Surviving(batches, batches[n].baseOffset)|;
    SurvivingIsPrefix(batches, batches[n].baseOffset);
    assert forall i :: 0 <= i < n ==> LastOffset(batches[i]) < batches[n].baseOffset;
    assert batches[n].baseOffset <= LastOffset(batches[n]);
  }

  lemma OneStays(cutoff: nat)
    requires cutoff > 0
    ensures Below([IndexEntry(0, 0)], cutoff) == [IndexEntry(0, 0)]
  {
    assert [IndexEntry(0, 0)][..0] == [];
  }

  lemma LeadsTruncate(g: Setup, s: State, batches: seq<RecordBatch>, offset: uint64)
    requires Lawful(g) && offset >= g.base
    ensures Leads(g, s, batches, [Truncating(offset)], Truncated(g, s, offset), Surviving(batches, offset))
  {
    LeadsBy(g, s, batches, Truncating(offset));
  }

  lemma CutLeavesOne(g: Setup, s: State, batches: seq<RecordBatch>, n: nat)
    requires Lawful(g) && 0 < n && |batches| == n + 1 && Represents(g, s, batches) && s.entries == [IndexEntry(0, 0)]
    ensures var t := Truncated(g, s, batches[n].baseOffset);
            Represents(g, t, batches[..n]) && t.entries == [IndexEntry(0, 0)] && t.since == 0
  {
    var offset := batches[n].baseOffset;
    CutsLast(g.base, batches, n);
    TruncateRepresents(g, s, batches, offset);
    TruncatedAt(g, s, batches, offset);
    assert LastOffset(batches[0]) < offset;
    OneStays(Relative(offset, g.base));
  }

  lemma ThinTruncate(g: Setup, s: State, all: seq<RecordBatch>, n: nat, since: nat) returns (t: State)
    requires Lawful(g) && Fine(g, all) && 0 < n < |all| && Thin(g, s, all, n + 1, since)
    ensures Thin(g, t, all, n, 0)
    ensures Leads(g, s, all[..n + 1], [Truncating(all[n].baseOffset)], t, all[..n])
  {
    var batches := all[..n + 1];
    assert batches[n] == all[n] && batches[..n] == all[..n];
    t := Truncated(g, s, all[n].baseOffset);
    CutLeavesOne(g, s, batches, n);
    CutsLast(g.base, batches, n);
    LeadsTruncate(g, s, batches, all[n].baseOffset);
  }

  lemma ThinTwice(g: Setup, s: State, all: seq<RecordBatch>, n: nat) returns (steps: seq<Step>, t: State)
    requires Lawful(g) && WellFormed(g, all) && WithinOffsets(all) && n + 1 < |all| && Thin(g, s, all, n, 0)
    requires Size(all[n]) < g.interval
    ensures Thin(g, t, all, n + 2, Size(all[n]) + Size(all[n + 1])) && Leads(g, s, all[..n], steps, t, all[..n + 2])
    ensures NoTruncation(steps)
  {
    var mid := ThinAppend(g, s, all, n, 0);
    t := ThinAppend(g, mid, all, n + 1, Size(all[n]));
    steps := [Appending(all[n])] + [Appending(all[n + 1])];
    LeadsOn(g, s, all[..n], [Appending(all[n])], mid, all[..n + 1], [Appending(all[n + 1])], t, all[..n + 2]);
  }

  lemma ThinStart(g: Setup, all: seq<RecordBatch>) returns (steps: seq<Step>, t: State)
    requires Lawful(g) && WellFormed(g, all) && WithinOffsets(all) && all != []
    ensures Thin(g, t, all, 1, 0) && Leads(g, State([], [], 0, g.base), [], steps, t, all[..1]) && NoTruncation(steps)
  {
    assert all[..0] == [] && all[..1] == [all[0]];
    CanAppendNext(g, State([], [], 0, g.base), all, 0);
    t := FirstThenReopen(g, all[0]);
    steps := [Appending(all[0])] + [Reopening];
  }

  lemma ThirdStarts(all: seq<RecordBatch>)
    requires |all| == 3
    ensures Pos(all, 2) == Size(all[0]) + Size(all[1])
  {
    assert Pos(all, 0) == 0;
    PosStep(all, 0);
    PosStep(all, 1);
  }

  /**
   The input: one batch, a reopening, and two more. The counter starts again from zero, so the
   third batch has no entry although it starts a whole interval after the only one.
   */
  lemma ReopeningThins(g: Setup, all: seq<RecordBatch>) returns (steps: seq<Step>, t: State)
    requires Lawful(g) && |all| == 3 && WellFormed(g, all) && WithinOffsets(all)
    requires Size(all[1]) < g.interval <= Size(all[0]) + Size(all[1])
    ensures Leads(g, State([], [], 0, g.base), [], steps, t, all[..3]) && NoTruncation(steps)
    ensures !Covered(g.interval, all[..3], t.entries)
  {
    var start := State([], [], 0, g.base);
    var first, s := ThinStart(g, all);
    var later;
    later, t := ThinTwice(g, s, all, 1);
    steps := first + later;
    LeadsOn(g, start, [], first, s, all[..1], later, t, all[..3]);
    ThirdStarts(all[..3]);
    OneEntryCovers(g.interval, all[..3], 2);
  }

  /** Two appends and a truncation of the second: one batch more, and still no entry. */
  lemma ThinRound(g: Setup, s: State, all: seq<RecordBatch>, n: nat) returns (steps: seq<Step>, t: State)
    requires Lawful(g) && Fine(g, all) && n + 1 < |all| && Thin(g, s, all, n, 0)
    ensures Thin(g, t, all, n + 1, 0) && Leads(g, s, all[..n], steps, t, all[..n + 1])
  {
    var first, mid := ThinTwice(g, s, all, n);
    var cut := [Truncating(all[n + 1].baseOffset)];
    t := ThinTruncate(g, mid, all, n + 1, Size(all[n]) + Size(all[n + 1]));
    steps := first + cut;
    LeadsOn(g, s, all[..n], first, mid, all[..n + 2], cut, t, all[..n + 1]);
  }

  lemma {:induction false} ThinRounds(g: Setup, s: State, all: seq<RecordBatch>, n: nat, m: nat) returns (steps: seq<Step>, t: State)
    requires Lawful(g) && Fine(g, all) && n <= m < |all| && Thin(g, s, all, n, 0)
    ensures Thin(g, t, all, m, 0) && Leads(g, s, all[..n], steps, t, all[..m])
    decreases m - n
  {
    if n == m {
      steps, t := [], s;
    } else {
      var first, mid := ThinRound(g, s, all, n);
      var later;
      later, t := ThinRounds(g, mid, all, n + 1, m);
      steps := first + later;
      LeadsOn(g, s, all[..n], first, mid, all[..n + 1], later, t, all[..m]);
    }
  }

  /**
   With truncation there is no bound: take any list of batches smaller than the interval that a
   segment can hold. A run from an empty segment leaves all but the last of them there with a
   single index entry, the first one's, however far away the others start.
   */
  lemma TruncationThinsWithoutBound(g: Setup, all: seq<RecordBatch>, m: nat) returns (steps: seq<Step>, t: State)
    requires Lawful(g) && Fine(g, all) && 1 < m < |all|
    ensures Leads(g, State([], [], 0, g.base), [], steps, t, all[..m])
    ensures t.entries == [IndexEntry(0, 0)] && !Covered(Pos(all, m - 1), all[..m], t.entries)
  {
    var first, s := ThinStart(g, all);
    var later;
    later, t := ThinRounds(g, s, all, 1, m);
    steps := first + later;
    LeadsOn(g, State([], [], 0, g.base), [], first, s, all[..1], later, t, all[..m]);
    PosOfPrefix(all[..m], all, m - 1);
    PosStrict(all, 0, m - 1);
    OneEntryCovers(Pos(all, m - 1), all[..m], m - 1);
  }

  /** There is a batch of just the header at every offset. */
  lemma SmallBatch(crc: Checksum, offset: uint64) returns (b: RecordBatch)
    ensures Sealed(crc, b) && Size(b) == HEADER_SIZE && b.baseOffset == offset && b.lastOffsetDelta == 0
  {
    var blank := RecordBatch(0, offset, 0, 0, 0, 0, 0, 0, 0, 0, []);
    b := blank.(crc := crc(Body(blank)));
    assert Body(b) == Body(blank);
  }

  lemma FineNext(g: Setup, all: seq<RecordBatch>, b: RecordBatch)
    requires Fine(g, all) && Sealed(g.crc, b) && Size(b) < g.interval && b.lastOffsetDelta == 0
    requires b.baseOffset == EndOf(g.base, all) && b.baseOffset + 1 < U64 && b.baseOffset - g.base < U32
    requires TotalSize(all) + Size(b) < U32
    ensures Fine(g, all + [b]) && TotalSize(all + [b]) == TotalSize(all) + Size(b)
    ensures EndOf(g.base, all + [b]) == b.baseOffset + 1
  {
    var more, n := all + [b], |all|;
    assert more[..n] == all && more[..n + 1] == more && more[n] == b;
    PosStep(more, n);
    AppendWellFormed(g, State([], [], 0, b.baseOffset), all, b);
  }

  /** And so lists of any length that fits. */
  lemma {:induction false} FineLists(g: Setup, m: nat) returns (all: seq<RecordBatch>)
    requires g.interval > HEADER_SIZE && HEADER_SIZE * m < U32 && g.base + m < U64
    ensures Fine(g, all) && |all| == m && EndOf(g.base, all) == g.base + m && TotalSize(all) == HEADER_SIZE * m
    ensures forall k :: 0 <= k < m ==> Size(all[k]) == HEADER_SIZE
  {
    if m == 0 {
      all := [];
    } else {
      var front := FineLists(g, m - 1);
      var b := SmallBatch(g.crc, g.base + m - 1);
      FineNext(g, front, b);
      all := front + [b];
    }
  }

  lemma {:induction false} PosOfEqual(batches: seq<RecordBatch>, size: nat, k: nat)
    requires k <= |batches| && forall i :: 0 <= i < |batches| ==> Size(batches[i]) == size
    ensures Pos(batches, k) == size * k
    decreases k
  {
    if k > 0 {
      PosOfEqual(batches, size, k - 1);
      PosStep(batches, k - 1);
    }
  }

  /** Whatever the interval and whatever reach one hopes for, some run goes beyond it, if the segment is large enough. */
  lemma NoReachIsEnough(g: Setup, reach: nat, m: nat) returns (steps: seq<Step>, t: State, left: seq<RecordBatch>)
    requires Lawful(g) && g.interval > HEADER_SIZE && 1 < m && reach <= HEADER_SIZE * (m - 1)
    requires HEADER_SIZE * (m + 1) < U32 && g.base + m + 1 < U64
    ensures Leads(g, State([], [], 0, g.base), [], steps, t, left) && !Covered(reach, left, t.entries)
  {
    var all := FineLists(g, m + 1);
    left := all[..m];
    steps, t := TruncationThinsWithoutBound(g, all, m);
    PosOfEqual(left, HEADER_SIZE, m - 1);
    OneEntryCovers(reach, left, m - 1);
  }
}
