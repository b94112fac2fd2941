/**
 The life of one segment: appends that place sparse index entries, truncation of a diverging
 suffix through the index, crashes in the middle of an append, and reopening. The bytes on
 disk and the index refine a plain list of batches, over every run.
 */
module Segment {
  import opened Wrappers
  import opened Bytes
  import opened Batch
  import opened Recovery
  import opened RecoveryTheorems
  import opened Index
  import Records

  /** What a segment is opened with. */
  datatype Setup = Setup(crc: Checksum, read: Reader, base: uint64, interval: nat)

  /** The log file, the index, bytes since the last index entry, and the next offset. */
  datatype State = State(file: Buffer, entries: seq<IndexEntry>, since: nat, next: nat)

  ghost predicate Lawful(g: Setup) {
    ReadsBatches(g.crc, g.read)
  }

  // ---------------------------------------------------------------- the operations

  function Appended(g: Setup, s: State, b: RecordBatch): State {
    var indexed := s.since >= g.interval || s.entries == [];
    State(s.file + Encode(b),
          if indexed then s.entries + [IndexEntry(Relative(b.baseOffset, g.base), Low32(|s.file|))] else s.entries,
          (if indexed then 0 else s.since) + Size(b),
          b.baseOffset + b.lastOffsetDelta + 1)
  }

  /** Where decoding starts when looking for an offset. */
  function StartIn(base: uint64, entries: seq<IndexEntry>, offset: uint64): nat {
    if entries == [] then 0 else entries[Nearest(entries, Relative(offset, base))].position
  }

  function StartOf(g: Setup, s: State, offset: uint64): nat {
    StartIn(g.base, s.entries, offset)
  }

  /** The byte at which an offset's batch starts, and the offset the log ends at when cut there. */
  function Locate(g: Setup, s: State, offset: uint64): (r: (nat, uint64))
    requires Lawful(g)
    ensures r.0 <= |s.file|
  {
    var start := StartOf(g, s, offset);
    match if start <= |s.file| then Seek(g.read, s.file, start, offset) else None
    case Some((pos, b)) => (pos, b.baseOffset)
    case None => (|s.file|, offset)
  }

  /** The first batch that reaches the offset and everything after it goes, and their index entries. */
  function Truncated(g: Setup, s: State, offset: uint64): State
    requires Lawful(g)
  {
    if offset >= s.next then s
    else
      var (pos, effective) := Locate(g, s, offset);
      State(s.file[..pos], Below(s.entries, Relative(effective, g.base)), 0, effective)
  }

  /** The recovery scan: the log's bytes end where it stopped. */
  function Reopened(g: Setup, file: Buffer): State
    requires Lawful(g)
  {
    var r := FullScan(g.read, g.base, g.interval, file);
    State(if r.size <= |file| then file[..r.size] else file, r.index, 0, r.nextOffset)
  }

  // ---------------------------------------------------------------- the list behind the bytes

  function EndOf(base: uint64, batches: seq<RecordBatch>): nat {
    if batches == [] then base else LastOffset(batches[|batches| - 1]) + 1
  }

  /** Every batch starts where the one before it ended: appends take the log's end as their offset. */
  ghost predicate Chained(base: uint64, batches: seq<RecordBatch>) {
    forall k :: 0 <= k < |batches| ==> batches[k].baseOffset == EndOf(base, batches[..k])
  }

  ghost predicate Indexed(base: uint64, batches: seq<RecordBatch>, entries: seq<IndexEntry>) {
    exists ks :: Indexes(base, batches, |batches|, ks, entries)
  }

  /** A list of batches as appends build it. */
  ghost predicate WellFormed(g: Setup, batches: seq<RecordBatch>) {
    AllSealed(g.crc, batches) && Chained(g.base, batches) && InOrder(g.base, batches) && Addressable(g.base, batches)
  }

  /** These bytes and this index stand for this list of batches. */
  ghost predicate Represents(g: Setup, s: State, batches: seq<RecordBatch>) {
    && WellFormed(g, batches)
    && s.file == EncodeAll(batches) && Indexed(g.base, batches, s.entries)
    && s.next == EndOf(g.base, batches) < U64
  }

  /** The batches that end before an offset. */
  function Surviving(batches: seq<RecordBatch>, offset: uint64): seq<RecordBatch> {
    if batches == [] || offset <= LastOffset(batches[0]) then []
    else [batches[0]] + Surviving(batches[1..], offset)
  }

  lemma {:induction false} SurvivingIsPrefix(batches: seq<RecordBatch>, offset: uint64)
    ensures var n := |Surviving(batches, offset)|;
            && n <= |batches| && Surviving(batches, offset) == batches[..n]
            && (forall i :: 0 <= i < n ==> LastOffset(batches[i]) < offset)
            && (n < |batches| ==> offset <= LastOffset(batches[n]))
  {
    if batches != [] && LastOffset(batches[0]) < offset {
      SurvivingIsPrefix(batches[1..], offset);
      var n := |Surviving(batches[1..], offset)|;
      assert batches[..n + 1] == [batches[0]] + batches[1..][..n];
      assert forall i :: 1 <= i < n + 1 ==> batches[i] == batches[1..][i - 1];
    }
  }

  // ---------------------------------------------------------------- append

  lemma EncodeAllAppend(batches: seq<RecordBatch>, b: RecordBatch)
    ensures EncodeAll(batches + [b]) == EncodeAll(batches) + Encode(b)
  {
    EncodeAllSplit(batches, [b]);
    assert [b][1..] == [];
    assert EncodeAll([b]) == Encode(b) + [];
  }

  lemma PosOfPrefix(batches: seq<RecordBatch>, more: seq<RecordBatch>, k: nat)
    requires k <= |batches| <= |more| && more[..|batches|] == batches
    ensures Pos(more, k) == Pos(batches, k)
  {
    assert more[..k] == batches[..k];
  }

  /** The index of a prefix is the same index, whichever list it is read off. */
  lemma IndexOfPrefix(base: uint64, batches: seq<RecordBatch>, more: seq<RecordBatch>, ks: seq<nat>, entries: seq<IndexEntry>)
    requires |batches| <= |more| && more[..|batches|] == batches
    ensures Indexes(base, batches, |batches|, ks, entries) <==> Indexes(base, more, |batches|, ks, entries)
  {
    forall i | 0 <= i < |ks| && ks[i] < |batches|
      ensures Pos(more, ks[i]) == Pos(batches, ks[i]) && more[ks[i]] == batches[ks[i]]
    {
      PosOfPrefix(batches, more, ks[i]);
      assert more[..|batches|][ks[i]] == more[ks[i]];
    }
  }

  predicate CanAppend(g: Setup, s: State, batches: seq<RecordBatch>, b: RecordBatch) {
    && Sealed(g.crc, b) && b.baseOffset == s.next && b.baseOffset + b.lastOffsetDelta + 1 < U64
    && Addressable(g.base, batches + [b])
  }

  lemma AppendInOrder(base: uint64, batches: seq<RecordBatch>, b: RecordBatch)
    requires InOrder(base, batches) && b.baseOffset == EndOf(base, batches) && b.baseOffset + b.lastOffsetDelta + 1 < U64
    ensures InOrder(base, batches + [b])
  {
    var more := batches + [b];
    var n := |batches|;
    forall j | 0 <= j < n
      ensures LastOffset(batches[j]) < b.baseOffset
    {
      if j < n - 1 {
        assert LastOffset(batches[j]) < batches[n - 1].baseOffset;
      }
    }
  }

  lemma AppendChained(base: uint64, batches: seq<RecordBatch>, b: RecordBatch)
    requires Chained(base, batches) && b.baseOffset == EndOf(base, batches)
    ensures Chained(base, batches + [b])
  {
    var more := batches + [b];
    assert more[..|batches|] == batches;
    assert forall k :: 0 <= k < |batches| ==> more[..k] == batches[..k];
  }

  lemma EmptyIndex(base: uint64, batches: seq<RecordBatch>, n: nat, ks: seq<nat>, entries: seq<IndexEntry>)
    requires Indexes(base, batches, n, ks, entries)
    ensures n == 0 <==> ks == []
  {
    if ks != [] {
      assert ks[0] < n;
    }
  }

  /** The index entry the append places, or does not place, keeps the index right. */
  lemma PlacesEntry(base: uint64, more: seq<RecordBatch>, n: nat, entries: seq<IndexEntry>, indexed: bool, ks: seq<nat>)
    requires |more| == n + 1 && InOrder(base, more) && Addressable(base, more)
    requires Indexes(base, more, n, ks, entries) && (entries == [] ==> indexed)
    ensures var e := IndexEntry(Relative(more[n].baseOffset, base), Low32(Pos(more, n)));
            Indexed(base, more, if indexed then entries + [e] else entries)
  {
    EmptyIndex(base, more, n, ks, entries);
    if indexed {
      IndexedByEntry(base, more, n, ks, entries);
    } else {
      IndexedWithout(base, more, n, ks, entries);
    }
  }

  lemma AppendIndexed(base: uint64, batches: seq<RecordBatch>, b: RecordBatch, entries: seq<IndexEntry>, indexed: bool)
    requires Indexed(base, batches, entries) && (entries == [] ==> indexed)
    requires InOrder(base, batches + [b]) && Addressable(base, batches + [b])
    ensures var e := IndexEntry(Relative(b.baseOffset, base), Low32(TotalSize(batches)));
            Indexed(base, batches + [b], if indexed then entries + [e] else entries)
  {
    var more, n := batches + [b], |batches|;
    assert more[..n] == batches && more[n] == b;
    var ks :| Indexes(base, batches, n, ks, entries);
    IndexOfPrefix(base, batches, more, ks, entries);
    PlacesEntry(base, more, n, entries, indexed, ks);
  }

  lemma AppendWellFormed(g: Setup, s: State, batches: seq<RecordBatch>, b: RecordBatch)
    requires WellFormed(g, batches) && s.next == EndOf(g.base, batches) && CanAppend(g, s, batches, b)
    ensures WellFormed(g, batches + [b])
  {
    AppendInOrder(g.base, batches, b);
    AppendChained(g.base, batches, b);
  }

  lemma AppendRepresents(g: Setup, s: State, batches: seq<RecordBatch>, b: RecordBatch)
    requires Represents(g, s, batches) && CanAppend(g, s, batches, b)
    ensures Represents(g, Appended(g, s, b), batches + [b])
  {
    var t, more := Appended(g, s, b), batches + [b];
    assert WellFormed(g, more) by {
      AppendWellFormed(g, s, batches, b);
    }
    assert t.file == EncodeAll(more) by {
      EncodeAllAppend(batches, b);
    }
    assert Indexed(g.base, more, t.entries) by {
      EncodeAllSize(batches);
      AppendIndexed(g.base, batches, b, s.entries, s.since >= g.interval || s.entries == []);
    }
  }

  // ---------------------------------------------------------------- lookup

  /** What looking an offset up should give: the first batch that reaches it, and where it starts. */
  function Lookup(batches: seq<RecordBatch>, offset: uint64): Option<(nat, RecordBatch)> {
    SurvivingIsPrefix(batches, offset);
    var n := |Surviving(batches, offset)|;
    if n < |batches| then Some((Pos(batches, n), batches[n])) else None
  }

  lemma SeekFromStart(read: Reader, file: Buffer, batches: seq<RecordBatch>, offset: uint64)
    requires Holds(read, file, batches) && |file| == Pos(batches, |batches|)
    ensures Seek(read, file, 0, offset) == Lookup(batches, offset)
  {
    var n := |Surviving(batches, offset)|;
    SurvivingIsPrefix(batches, offset);
    assert Pos(batches, 0) == 0;
    if n < |batches| {
      SeekSkips(read, file, batches, 0, n, offset);
    } else if n > 0 {
      SeekSkips(read, file, batches, 0, n - 1, offset);
      PosStep(batches, n - 1);
      assert file[|file|..] == [];
    }
  }

  lemma IndexedLookup(read: Reader, file: Buffer, base: uint64, batches: seq<RecordBatch>, entries: seq<IndexEntry>, offset: uint64)
    requires Holds(read, file, batches) && InOrder(base, batches) && Indexed(base, batches, entries)
    ensures StartIn(base, entries, offset) <= |file|
    ensures Seek(read, file, StartIn(base, entries, offset), offset) == Seek(read, file, 0, offset)
  {
    if entries != [] {
      var ks :| Indexes(base, batches, |batches|, ks, entries);
      NearestIsNearest(entries, Relative(offset, base));
      LookupAgrees(read, file, base, batches, ks, entries, offset, Nearest(entries, Relative(offset, base)));
    }
  }

  lemma HoldsWhole(g: Setup, batches: seq<RecordBatch>)
    requires Lawful(g) && AllSealed(g.crc, batches)
    ensures Holds(g.read, EncodeAll(batches), batches)
    ensures |EncodeAll(batches)| == Pos(batches, |batches|)
  {
    FileHolds(g.crc, g.read, batches, []);
    assert EncodeAll(batches) + [] == EncodeAll(batches);
    EncodeAllSize(batches);
    assert batches[..|batches|] == batches;
  }

  /** Through the index, for every offset: the batch a scan of the list would give. */
  lemma LookupIsRight(g: Setup, s: State, batches: seq<RecordBatch>, offset: uint64)
    requires Lawful(g) && Represents(g, s, batches)
    ensures StartOf(g, s, offset) <= |s.file|
    ensures Seek(g.read, s.file, StartOf(g, s, offset), offset) == Lookup(batches, offset)
  {
    HoldsWhole(g, batches);
    SeekFromStart(g.read, s.file, batches, offset);
    IndexedLookup(g.read, s.file, g.base, batches, s.entries, offset);
  }

  // ---------------------------------------------------------------- truncation

  lemma PrefixInOrder(base: uint64, batches: seq<RecordBatch>, n: nat)
    requires n <= |batches| && InOrder(base, batches) && Addressable(base, batches)
    ensures InOrder(base, batches[..n]) && Addressable(base, batches[..n])
  {
    PosMonotone(batches, n, |batches|);
    assert batches[..|batches|] == batches;
  }

  lemma PrefixChained(base: uint64, batches: seq<RecordBatch>, n: nat)
    requires n <= |batches| && Chained(base, batches)
    ensures Chained(base, batches[..n])
  {
    assert forall k :: 0 <= k < n ==> batches[..n][..k] == batches[..k];
  }

  lemma CutFile(batches: seq<RecordBatch>, n: nat)
    requires n < |batches|
    ensures Pos(batches, n) <= |EncodeAll(batches)|
    ensures EncodeAll(batches)[..Pos(batches, n)] == EncodeAll(batches[..n])
  {
    EncodedParts(batches, n);
    EncodeAllSize(batches[..n]);
  }

  lemma PrefixIndexed(base: uint64, batches: seq<RecordBatch>, entries: seq<IndexEntry>, n: nat)
    requires InOrder(base, batches) && Addressable(base, batches) && Indexed(base, batches, entries) && n < |batches|
    ensures Indexed(base, batches[..n], Below(entries, Relative(batches[n].baseOffset, base)))
  {
    var ks :| Indexes(base, batches, |batches|, ks, entries);
    var kept := TruncatedIndexIsRight(base, batches, n, ks, entries);
    IndexOfPrefix(base, batches[..n], batches, kept, Below(entries, Relative(batches[n].baseOffset, base)));
  }

  lemma CutRepresents(g: Setup, batches: seq<RecordBatch>, entries: seq<IndexEntry>, n: nat)
    requires n < |batches| && AllSealed(g.crc, batches) && Chained(g.base, batches)
    requires InOrder(g.base, batches) && Addressable(g.base, batches) && Indexed(g.base, batches, entries)
    ensures var b := batches[n];
            Represents(g, State(EncodeAll(batches[..n]), Below(entries, Relative(b.baseOffset, g.base)), 0, b.baseOffset), batches[..n])
  {
    PrefixInOrder(g.base, batches, n);
    PrefixChained(g.base, batches, n);
    PrefixIndexed(g.base, batches, entries, n);
  }

  lemma TruncatedAt(g: Setup, s: State, batches: seq<RecordBatch>, offset: uint64)
    requires Lawful(g) && Represents(g, s, batches) && g.base <= offset < s.next
    ensures var n := |Surviving(batches, offset)|;
            n < |batches| &&
            Truncated(g, s, offset) == State(EncodeAll(batches[..n]), Below(s.entries, Relative(batches[n].baseOffset, g.base)),
                                             0, batches[n].baseOffset)
  {
    var n := |Surviving(batches, offset)|;
    SurvivingIsPrefix(batches, offset);
    LookupIsRight(g, s, batches, offset);
    CutFile(batches, n);
  }

  lemma TruncateRepresents(g: Setup, s: State, batches: seq<RecordBatch>, offset: uint64)
    requires Lawful(g) && Represents(g, s, batches) && offset >= g.base
    ensures Represents(g, Truncated(g, s, offset), Surviving(batches, offset))
  {
    if offset >= s.next {
      KeepsAll(g.base, batches, offset);
    } else {
      SurvivingIsPrefix(batches, offset);
      TruncatedAt(g, s, batches, offset);
      CutRepresents(g, batches, s.entries, |Surviving(batches, offset)|);
    }
  }

  /** An offset at or past the log's end is reached by no batch. */
  lemma KeepsAll(base: uint64, batches: seq<RecordBatch>, offset: uint64)
    requires InOrder(base, batches) && offset >= EndOf(base, batches)
    ensures Surviving(batches, offset) == batches
  {
    var n := |Surviving(batches, offset)|;
    SurvivingIsPrefix(batches, offset);
    assert forall k :: 0 <= k < |batches| - 1 ==> LastOffset(batches[k]) < batches[|batches| - 1].baseOffset;
    assert batches[..|batches|] == batches;
  }

  // ---------------------------------------------------------------- reopening

  /** Whole batches, then bytes of one more that never got there: reopening finds the whole ones. */
  lemma ScanFinds(g: Setup, batches: seq<RecordBatch>, torn: Buffer)
    requires Lawful(g) && AllSealed(g.crc, batches) && g.read(torn).Err?
    ensures var r, walked := FullScan(g.read, g.base, g.interval, EncodeAll(batches) + torn), Walk(g.base, g.interval, batches, 0, Fresh(g.base));
            r.size == |EncodeAll(batches)| && r.index == walked.index && r.nextOffset == walked.nextOffset
  {
    FoundExactly(g.crc, g.read, batches, torn);
    FullScanIsFound(g.crc, g.read, g.base, g.interval, EncodeAll(batches) + torn);
  }

  lemma RebuiltIsIndexed(base: uint64, interval: nat, batches: seq<RecordBatch>)
    requires InOrder(base, batches) && Addressable(base, batches)
    ensures Indexed(base, batches, Walk(base, interval, batches, 0, Fresh(base)).index)
  {
    var ks := RebuiltIndexIsRight(base, interval, batches);
  }

  lemma ReopenRepresents(g: Setup, s: State, batches: seq<RecordBatch>, torn: Buffer)
    requires Lawful(g) && Represents(g, s, batches) && g.read(torn).Err?
    ensures Represents(g, Reopened(g, s.file + torn), batches)
  {
    ScanFinds(g, batches, torn);
    RebuiltIsIndexed(g.base, g.interval, batches);
    WalkNext(g.base, g.interval, batches, 0, Fresh(g.base));
    assert (s.file + torn)[..|s.file|] == s.file;
  }

  // ---------------------------------------------------------------- whole runs

  datatype Step =
    | Appending(b: RecordBatch)
    | Truncating(offset: uint64)
    | Crashing(b: RecordBatch, written: nat)
    | Reopening

  ghost predicate Enabled(g: Setup, s: State, batches: seq<RecordBatch>, step: Step) {
    match step
    case Appending(b) => CanAppend(g, s, batches, b)
    case Truncating(offset) => offset >= g.base
    case Crashing(b, written) => Sealed(g.crc, b) && written < |Encode(b)|
    case Reopening => true
  }

  /** What a step does to the bytes and the index. */
  ghost function Next(g: Setup, s: State, step: Step): State
    requires Lawful(g)
  {
    match step
    case Appending(b) => Appended(g, s, b)
    case Truncating(offset) => Truncated(g, s, offset)
    case Crashing(b, written) =>
      Reopened(g, s.file + Encode(b)[..if written <= |Encode(b)| then written else 0])
    case Reopening => Reopened(g, s.file)
  }

  /** What it does to the list: a crash and a reopening do nothing. */
  function NextList(batches: seq<RecordBatch>, step: Step): seq<RecordBatch> {
    match step
    case Appending(b) => batches + [b]
    case Truncating(offset) => Surviving(batches, offset)
    case Crashing(_, _) => batches
    case Reopening => batches
  }

  lemma StepRefines(g: Setup, s: State, batches: seq<RecordBatch>, step: Step)
    requires Lawful(g) && Represents(g, s, batches) && Enabled(g, s, batches, step)
    ensures Represents(g, Next(g, s, step), NextList(batches, step))
  {
    match step
    case Appending(b) => AppendRepresents(g, s, batches, b);
    case Truncating(offset) => TruncateRepresents(g, s, batches, offset);
    case Crashing(b, written) =>
      TornIsUnreadable(g.crc, g.read, b, Encode(b)[..written]);
      ReopenRepresents(g, s, batches, Encode(b)[..written]);
    case Reopening =>
      assert s.file + [] == s.file;
      ReopenRepresents(g, s, batches, []);
  }

  ghost predicate Runs(g: Setup, s: State, batches: seq<RecordBatch>, steps: seq<Step>)
    requires Lawful(g)
    decreases |steps|
  {
    steps != [] ==>
      Enabled(g, s, batches, steps[0]) && Runs(g, Next(g, s, steps[0]), NextList(batches, steps[0]), steps[1..])
  }

  ghost function After(g: Setup, s: State, steps: seq<Step>): State
    requires Lawful(g)
    decreases |steps|
  {
    if steps == [] then s else After(g, Next(g, s, steps[0]), steps[1..])
  }

  function ListAfter(batches: seq<RecordBatch>, steps: seq<Step>): seq<RecordBatch>
    decreases |steps|
  {
    if steps == [] then batches else ListAfter(NextList(batches, steps[0]), steps[1..])
  }

  /**
   Refinement, over every run: whatever appends, truncations, crashes and reopenings happened,
   the bytes and the index stand for the list those steps give.
   */
  lemma {:induction false} RunRefines(g: Setup, s: State, batches: seq<RecordBatch>, steps: seq<Step>)
    requires Lawful(g) && Represents(g, s, batches) && Runs(g, s, batches, steps)
    ensures Represents(g, After(g, s, steps), ListAfter(batches, steps))
    decreases |steps|
  {
    if steps != [] {
      StepRefines(g, s, batches, steps[0]);
      RunRefines(g, Next(g, s, steps[0]), NextList(batches, steps[0]), steps[1..]);
    }
  }

  /** These steps can be taken, and this is where they lead. */
  ghost predicate Leads(g: Setup, s: State, batches: seq<RecordBatch>, steps: seq<Step>, t: State, left: seq<RecordBatch>)
    requires Lawful(g)
  {
    Runs(g, s, batches, steps) && After(g, s, steps) == t && ListAfter(batches, steps) == left
  }

  lemma LeadsBy(g: Setup, s: State, batches: seq<RecordBatch>, step: Step)
    requires Lawful(g) && Enabled(g, s, batches, step)
    ensures Leads(g, s, batches, [step], Next(g, s, step), NextList(batches, step))
  {
    assert [step][1..] == [];
  }

  lemma {:induction false} LeadsOn(g: Setup, s: State, batches: seq<RecordBatch>, first: seq<Step>,
                                   mid: State, list: seq<RecordBatch>, later: seq<Step>, t: State, left: seq<RecordBatch>)
    requires Lawful(g) && Leads(g, s, batches, first, mid, list) && Leads(g, mid, list, later, t, left)
    ensures Leads(g, s, batches, first + later, t, left)
    decreases |first|
  {
    if first == [] {
      assert first + later == later;
    } else {
      assert (first + later)[0] == first[0] && (first + later)[1..] == first[1..] + later;
      LeadsOn(g, Next(g, s, first[0]), NextList(batches, first[0]), first[1..], mid, list, later, t, left);
    }
  }

  /** A new segment stands for the empty list. */
  lemma EmptyRepresents(g: Setup)
    ensures Represents(g, State([], [], 0, g.base), [])
  {
    assert Indexes(g.base, [], 0, [], []);
  }

  /** The index finds in the bytes what the list says it should. */
  ghost predicate FindsAll(g: Setup, s: State, batches: seq<RecordBatch>)
    requires Lawful(g)
  {
    && Ascending(s.entries)
    && forall offset: uint64 {:trigger StartOf(g, s, offset)} ::
      StartOf(g, s, offset) <= |s.file|
      && Seek(g.read, s.file, StartOf(g, s, offset), offset) == Lookup(batches, offset)
  }

  lemma RepresentedIsFound(g: Setup, s: State, batches: seq<RecordBatch>)
    requires Lawful(g) && Represents(g, s, batches)
    ensures FindsAll(g, s, batches)
  {
    var ks :| Indexes(g.base, batches, |batches|, ks, s.entries);
    IndexedIsAscending(g.base, batches, ks, s.entries);
    forall offset: uint64
      ensures StartOf(g, s, offset) <= |s.file|
      ensures Seek(g.read, s.file, StartOf(g, s, offset), offset) == Lookup(batches, offset)
    {
      LookupIsRight(g, s, batches, offset);
    }
  }

  /** The segment as it is opened, with the decoder the broker uses. */
  function Real(crc: Checksum, base: uint64, interval: nat): Setup {
    Setup(crc, EntryReader(crc), base, interval)
  }

  lemma RealIsLawful(crc: Checksum, base: uint64, interval: nat)
    ensures Lawful(Real(crc, base, interval))
  {
    EntryReaderReadsBatches(crc);
  }

  /** So after any run, looking up any offset gives what the list gives. */
  lemma LookupAfterAnyRun(g: Setup, s: State, batches: seq<RecordBatch>, steps: seq<Step>)
    requires Lawful(g) && Represents(g, s, batches) && Runs(g, s, batches, steps)
    ensures FindsAll(g, After(g, s, steps), ListAfter(batches, steps))
  {
    RunRefines(g, s, batches, steps);
    RepresentedIsFound(g, After(g, s, steps), ListAfter(batches, steps));
  }

  /** From a new segment, with the real decoder: every lookup after every run. */
  lemma LookupFromEmpty(g: Setup, steps: seq<Step>)
    requires g == Real(g.crc, g.base, g.interval)
    requires (RealIsLawful(g.crc, g.base, g.interval); Runs(g, State([], [], 0, g.base), [], steps))
    ensures (RealIsLawful(g.crc, g.base, g.interval);
             FindsAll(g, After(g, State([], [], 0, g.base), steps), ListAfter([], steps)))
  {
    RealIsLawful(g.crc, g.base, g.interval);
    EmptyRepresents(g);
    LookupAfterAnyRun(g, State([], [], 0, g.base), [], steps);
  }

  // ---------------------------------------------------------------- appending only

  function AppendedAll(g: Setup, s: State, batches: seq<RecordBatch>): State
    decreases |batches|
  {
    if batches == [] then s else AppendedAll(g, Appended(g, s, batches[0]), batches[1..])
  }

  predicate WithinOffsets(batches: seq<RecordBatch>) {
    forall i :: 0 <= i < |batches| ==> batches[i].baseOffset + batches[i].lastOffsetDelta + 1 < U64
  }

  /** Appending counts bytes and places entries exactly as the recovery scan does. */
  lemma {:induction false} AppendsWalk(g: Setup, s: State, batches: seq<RecordBatch>)
    requires s.next < U64 && WithinOffsets(batches)
    ensures var t := AppendedAll(g, s, batches);
            && t.file == s.file + EncodeAll(batches) && t.next < U64
            && Walk(g.base, g.interval, batches, |s.file|, Progress(s.next, s.entries, s.since))
               == Progress(t.next, t.entries, t.since)
    decreases |batches|
  {
    if batches == [] {
      assert s.file + [] == s.file;
    } else {
      var b := batches[0];
      AppendsWalk(g, Appended(g, s, b), batches[1..]);
      Associate(s.file, Encode(b), EncodeAll(batches[1..]));
    }
  }

  /**
   So a segment that was only ever appended to has, entry for entry, the index that recovering
   it would rebuild, and every batch is within the interval of an entry.
   */
  lemma AppendOnlyIndexIsRebuilt(g: Setup, batches: seq<RecordBatch>) returns (ks: seq<nat>)
    requires Lawful(g) && AllSealed(g.crc, batches) && WithinOffsets(batches)
    requires InOrder(g.base, batches) && Addressable(g.base, batches)
    ensures var t := AppendedAll(g, State([], [], 0, g.base), batches);
            && t.entries == Reopened(g, t.file).entries
            && Indexes(g.base, batches, |batches|, ks, t.entries) && Dense(g.interval, batches, |batches|, ks)
  {
    var t := AppendedAll(g, State([], [], 0, g.base), batches);
    AppendsWalk(g, State([], [], 0, g.base), batches);
    assert t.file == EncodeAll(batches) == EncodeAll(batches) + [];
    ScanFinds(g, batches, []);
    ks := RebuiltIndexIsRight(g.base, g.interval, batches);
  }

  // ---------------------------------------------------------------- the segment object

  /** What became of a batch copied from a leader. */
  datatype Verbatim = AlreadyApplied | Gap(expected: nat) | Copied | Refused

  /** A stamped batch is one the segment can take, as long as it fits. */
  lemma StampCanAppend(g: Setup, s: State, batches: seq<RecordBatch>, batch: RecordBatch, leaderEpoch: uint32)
    requires Represents(g, s, batches) && COVERED + |batch.recordData| < U32
    requires s.next + batch.lastOffsetDelta + 1 < U64 && s.next - g.base < U32 && |s.file| + Size(batch) < U32
    ensures CanAppend(g, s, batches, Records.Stamp(g.crc, batch, s.next, leaderEpoch))
  {
    var b, n := Records.Stamp(g.crc, batch, s.next, leaderEpoch), |batches|;
    Records.SealedBody(g.crc, batch.(baseOffset := s.next, leaderEpoch := leaderEpoch));
    var more := batches + [b];
    EncodeAllSize(batches);
    assert more[..n] == batches && more[..n + 1] == more;
    PosStep(more, n);
  }

  /** Decodes entry after entry until one reaches the offset; without one, the end of the file. */
  method ScanForward(read: Reader, file: Buffer, start: nat, offset: uint64) returns (phys: nat, effective: uint64)
    requires GoodReader(read) && start <= |file|
    ensures var found := Seek(read, file, start, offset);
            (phys, effective) == if found.Some? then (found.value.0, found.value.1.baseOffset) else (|file|, offset)
  {
    phys := start;
    while phys < |file|
      invariant phys <= |file| && Seek(read, file, start, offset) == Seek(read, file, phys, offset)
      decreases |file| - phys
    {
      var entry := read(file[phys..]);
      if entry.Err? {
        return |file|, offset;
      }
      var (b, used) := entry.value;
      if offset <= LastOffset(b) {
        return phys, b.baseOffset;
      }
      phys := phys + used;
    }
    assert file[phys..] == [];
    effective := offset;
  }

  /** A log file and its index, kept together. */
  class SegmentPair {
    const g: Setup
    const index: IndexSegment
    var file: Buffer
    var since: nat
    var next: nat

    ghost function View(): State
      reads this, index
    {
      State(file, index.entries, since, next)
    }

    ghost predicate Valid()
      reads this, index
    {
      Lawful(g) && index.base == g.base && index.Mirrored()
    }

    /** Opening scans the file and rebuilds the index, whatever the index file held. */
    constructor (g: Setup, file: Buffer, indexFile: Buffer)
      requires Lawful(g)
      ensures this.g == g && Valid() && fresh(index) && View() == Reopened(g, file)
    {
      var r := RecoverStreaming(g.read, g.base, g.interval, file);
      var rebuilt := new IndexSegment(g.base, indexFile);
      this.g, this.index := g, rebuilt;
      this.file := if r.size <= |file| then file[..r.size] else file;
      this.since, this.next := 0, r.nextOffset;
      new;
      index.Rebuild(r.index);
    }

    /** Writes the batch, then places an index entry if one is due; a position past 32 bits is refused. */
    method WriteBatch(b: RecordBatch) returns (ok: bool)
      requires Valid()
      modifies this, index
      ensures Valid() && (|old(file)| < U32 ==> ok && View() == Appended(g, old(View()), b))
      ensures !ok ==> View() == old(View()).(file := old(file) + Encode(b))
    {
      var pos := |file|;
      file := file + Encode(b);
      if since >= g.interval || |index.entries| == 0 {
        ok := index.Append(b.baseOffset, pos);
        if !ok {
          return;
        }
        since := 0;
      }
      since, next, ok := since + Size(b), b.baseOffset + b.lastOffsetDelta + 1, true;
    }

    /** Stamps a producer's batch with the log's end and the leader's epoch, and appends it. */
    method AppendBatch(batch: RecordBatch, leaderEpoch: uint32) returns (ok: bool, b: RecordBatch)
      requires Valid() && next < U64
      modifies this, index
      ensures Valid() && b == Records.Stamp(g.crc, batch, old(next), leaderEpoch)
      ensures |old(file)| < U32 ==> ok && View() == Appended(g, old(View()), b)
      ensures !ok ==> View() == old(View()).(file := old(file) + Encode(b))
    {
      b := Records.Stamp(g.crc, batch, next, leaderEpoch);
      ok := WriteBatch(b);
    }

    /** Appends a leader's batch byte for byte, if it is exactly the next one. */
    method AppendVerbatim(b: RecordBatch) returns (r: Verbatim)
      requires Valid() && b.baseOffset + b.lastOffsetDelta < U64
      modifies this, index
      ensures Valid() && (r == AlreadyApplied <==> LastOffset(b) < old(next))
      ensures r.Gap? <==> old(next) <= LastOffset(b) && b.baseOffset != old(next)
      ensures r.Gap? ==> r.expected == old(next)
      ensures !(r.Copied? || r.Refused?) ==> View() == old(View())
      ensures |old(file)| < U32 && b.baseOffset == old(next) ==> r == Copied && View() == Appended(g, old(View()), b)
      ensures r == Refused ==> View() == old(View()).(file := old(file) + Encode(b))
    {
      if LastOffset(b) < next {
        return AlreadyApplied;
      }
      if b.baseOffset != next {
        return Gap(next);
      }
      var ok := WriteBatch(b);
      r := if ok then Copied else Refused;
    }

    /** Decodes forward from the nearest index entry. */
    method PhysicalPosForOffset(offset: uint64) returns (phys: nat, effective: uint64)
      requires Valid() && Ascending(index.entries)
      ensures (phys, effective) == Locate(g, View(), offset)
    {
      var nearest := index.FindNearest(offset);
      var start: nat := if nearest.None? then 0 else nearest.value.position;
      if start > |file| {
        return |file|, offset;
      }
      phys, effective := ScanForward(g.read, file, start, offset);
    }

    method TruncateAfter(offset: uint64)
      requires Valid() && Ascending(index.entries)
      modifies this, index
      ensures Valid() && View() == Truncated(g, old(View()), offset)
    {
      if offset >= next {
        return;
      }
      var phys, effective := PhysicalPosForOffset(offset);
      file := file[..phys];
      index.TruncateAfter(effective);
      since, next := 0, effective;
    }
  }
}
