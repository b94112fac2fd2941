/**
 The sparse index of a segment: its entries in memory and on disk, the binary search over
 them, and why decoding forward from the entry it finds reaches the same batch as decoding
 from the first byte.
 */
module Index {
  import opened Wrappers
  import opened Bytes
  import opened Batch
  import opened Recovery
  import opened RecoveryTheorems

  const ENTRY_SIZE: nat := 8

  // ---------------------------------------------------------------- the file format

  function EncodeIndexEntry(e: IndexEntry): (s: Buffer)
    ensures |s| == ENTRY_SIZE
  {
    Put(4, e.relativeOffset) + Put(4, e.position)
  }

  function DecodeIndexEntry(s: Buffer): IndexEntry
    requires |s| == ENTRY_SIZE
  {
    Widths();
    ValueBound(s[..4]);
    ValueBound(s[4..]);
    IndexEntry(Value(s[..4]), Value(s[4..]))
  }

  lemma IndexEntryRoundTrip(e: IndexEntry)
    ensures DecodeIndexEntry(EncodeIndexEntry(e)) == e
  {
    Widths();
    ValueOfPut(4, e.relativeOffset);
    ValueOfPut(4, e.position);
    assert EncodeIndexEntry(e)[..4] == Put(4, e.relativeOffset);
    assert EncodeIndexEntry(e)[4..] == Put(4, e.position);
  }

  function EncodeIndex(entries: seq<IndexEntry>): (s: Buffer)
    ensures |s| == ENTRY_SIZE * |entries|
  {
    if entries == [] then [] else EncodeIndex(entries[..|entries| - 1]) + EncodeIndexEntry(entries[|entries| - 1])
  }

  /** Whole entries only; a torn one at the end is ignored. */
  function DecodeIndex(s: Buffer): seq<IndexEntry>
    decreases |s|
  {
    if |s| < ENTRY_SIZE then []
    else [DecodeIndexEntry(s[..ENTRY_SIZE])] + DecodeIndex(s[ENTRY_SIZE..])
  }

  lemma {:induction false} DecodeIndexAppend(entries: seq<IndexEntry>, tail: Buffer)
    ensures DecodeIndex(EncodeIndex(entries) + tail) == entries + DecodeIndex(tail)
  {
    if entries == [] {
      assert EncodeIndex(entries) + tail == tail;
    } else {
      var front, e := entries[..|entries| - 1], entries[|entries| - 1];
      DecodeIndexAppend(front, EncodeIndexEntry(e) + tail);
      assert EncodeIndex(entries) + tail == EncodeIndex(front) + (EncodeIndexEntry(e) + tail);
      IndexEntryRoundTrip(e);
      assert (EncodeIndexEntry(e) + tail)[..ENTRY_SIZE] == EncodeIndexEntry(e);
      assert (EncodeIndexEntry(e) + tail)[ENTRY_SIZE..] == tail;
      assert entries == front + [e];
    }
  }

  /** Reopening reads back exactly the entries written, even behind a torn last write. */
  lemma IndexSurvivesTornWrite(entries: seq<IndexEntry>, torn: Buffer)
    requires |torn| < ENTRY_SIZE
    ensures DecodeIndex(EncodeIndex(entries) + torn) == entries
  {
    DecodeIndexAppend(entries, torn);
  }

  // ---------------------------------------------------------------- searching

  predicate Ascending(entries: seq<IndexEntry>) {
    forall i, j :: 0 <= i < j < |entries| ==> entries[i].relativeOffset < entries[j].relativeOffset
  }

  /** The last entry at or before the target, or the first one if there is none. */
  predicate IsNearest(entries: seq<IndexEntry>, rel: nat, k: nat) {
    && k < |entries|
    && (k > 0 ==> entries[k].relativeOffset <= rel)
    && (k + 1 < |entries| ==> rel < entries[k + 1].relativeOffset)
  }

  /** The entry a search returns, found from the end. */
  function Nearest(entries: seq<IndexEntry>, rel: nat): (k: nat)
    requires entries != []
    ensures k < |entries|
  {
    var last := |entries| - 1;
    if last == 0 || entries[last].relativeOffset <= rel then last else Nearest(entries[..last], rel)
  }

  lemma {:induction false} NearestIsNearest(entries: seq<IndexEntry>, rel: nat)
    requires entries != []
    ensures IsNearest(entries, rel, Nearest(entries, rel))
  {
    var last := |entries| - 1;
    if !(last == 0 || entries[last].relativeOffset <= rel) {
      NearestIsNearest(entries[..last], rel);
    }
  }

  /** In an ascending index there is only one nearest entry. */
  lemma NearestIsUnique(entries: seq<IndexEntry>, rel: nat, i: nat, j: nat)
    requires Ascending(entries) && IsNearest(entries, rel, i) && IsNearest(entries, rel, j)
    ensures i == j
  {
  }

  /** The object: entries in memory mirrored by the file. */
  class IndexSegment {
    const base: uint64
    var entries: seq<IndexEntry>
    var file: Buffer

    ghost predicate Mirrored()
      reads this
    {
      file == EncodeIndex(entries)
    }

    constructor (base: uint64, file: Buffer)
      ensures this.base == base && this.file == file && entries == DecodeIndex(file)
    {
      this.base := base;
      this.file := file;
      this.entries := DecodeIndex(file);
    }

    method Append(offset: uint64, position: nat) returns (ok: bool)
      requires Mirrored()
      modifies this
      ensures Mirrored()
      ensures ok <==> position < U32
      ensures entries == if ok then old(entries) + [IndexEntry(Relative(offset, base), position)] else old(entries)
    {
      if position >= U32 {
        return false;
      }
      var e := IndexEntry(Relative(offset, base), position);
      assert (entries + [e])[..|entries|] == entries;
      file := file + EncodeIndexEntry(e);
      entries := entries + [e];
      ok := true;
    }

    method FindNearest(target: uint64) returns (found: Option<IndexEntry>)
      requires Ascending(entries)
      ensures found == if entries == [] then None else Some(entries[Nearest(entries, Relative(target, base))])
    {
      if entries == [] {
        return None;
      }
      var rel := Relative(target, base);
      NearestIsNearest(entries, rel);
      var lo, hi := 0, |entries|;
      while lo < hi
        invariant 0 <= lo <= hi <= |entries|
        invariant forall i :: 0 <= i < lo ==> entries[i].relativeOffset <= rel
        invariant forall i :: hi <= i < |entries| ==> rel < entries[i].relativeOffset
      {
        var mid := (lo + hi) / 2;
        if entries[mid].relativeOffset == rel {
          NearestIsUnique(entries, rel, mid, Nearest(entries, rel));
          return Some(entries[mid]);
        } else if entries[mid].relativeOffset < rel {
          lo := mid + 1;
        } else {
          hi := mid;
        }
      }
      var k := if lo == 0 then 0 else lo - 1;
      NearestIsUnique(entries, rel, k, Nearest(entries, rel));
      found := Some(entries[k]);
    }

    method Rebuild(newEntries: seq<IndexEntry>)
      modifies this
      ensures Mirrored() && entries == newEntries
    {
      file := [];
      entries := [];
      for i := 0 to |newEntries|
        invariant entries == newEntries[..i] && Mirrored()
      {
        assert (entries + [newEntries[i]])[..i] == entries;
        file := file + EncodeIndexEntry(newEntries[i]);
        entries := entries + [newEntries[i]];
      }
    }

    method TruncateAfter(offset: uint64)
      modifies this
      ensures Mirrored() && entries == Below(old(entries), Relative(offset, base))
    {
      var cutoff := Relative(offset, base);
      var kept := [];
      for i := 0 to |entries|
        invariant kept == Below(entries[..i], cutoff)
      {
        assert entries[..i + 1][..i] == entries[..i];
        if entries[i].relativeOffset < cutoff {
          kept := kept + [entries[i]];
        }
      }
      assert entries[..|entries|] == entries;
      Rebuild(kept);
    }
  }

  function Below(entries: seq<IndexEntry>, cutoff: nat): seq<IndexEntry> {
    if entries == [] then []
    else
      var e := entries[|entries| - 1];
      Below(entries[..|entries| - 1], cutoff) + if e.relativeOffset < cutoff then [e] else []
  }

  // ---------------------------------------------------------------- which batch an entry stands for

  /** The byte at which batch `k` starts. */
  function Pos(batches: seq<RecordBatch>, k: nat): nat
    requires k <= |batches|
  {
    TotalSize(batches[..k])
  }

  /** Offsets do not wrap, and each batch starts after the one before it ends. */
  predicate InOrder(base: uint64, batches: seq<RecordBatch>) {
    && (forall k :: 0 <= k < |batches| ==>
          batches[k].baseOffset >= base && batches[k].baseOffset + batches[k].lastOffsetDelta < U64)
    && (forall j, k :: 0 <= j < k < |batches| ==> LastOffset(batches[j]) < batches[k].baseOffset)
  }

  /** Every number an index entry must hold fits its 32 bits. */
  predicate Addressable(base: uint64, batches: seq<RecordBatch>) {
    && TotalSize(batches) < U32
    && forall k :: 0 <= k < |batches| ==> batches[k].baseOffset - base < U32
  }

  /**
   Over the first `n` batches, entry `i` of the index stands for batch `ks[i]`, and the first
   batch is indexed.
   */
  ghost predicate Indexes(base: uint64, batches: seq<RecordBatch>, n: nat, ks: seq<nat>, entries: seq<IndexEntry>) {
    && |ks| == |entries| && n <= |batches|
    && (n > 0 ==> ks != [] && ks[0] == 0)
    && (forall i, j :: 0 <= i < j < |ks| ==> ks[i] < ks[j])
    && (forall i :: 0 <= i < |ks| ==> ks[i] < n)
    && (forall i :: 0 <= i < |ks| ==>
          entries[i].relativeOffset == batches[ks[i]].baseOffset - base
          && entries[i].position == Pos(batches, ks[i]))
  }

  lemma IndexedIsAscending(base: uint64, batches: seq<RecordBatch>, ks: seq<nat>, entries: seq<IndexEntry>)
    requires InOrder(base, batches) && Indexes(base, batches, |batches|, ks, entries)
    ensures Ascending(entries)
  {
    forall i, j | 0 <= i < j < |entries|
      ensures entries[i].relativeOffset < entries[j].relativeOffset
    {
      assert LastOffset(batches[ks[i]]) < batches[ks[j]].baseOffset;
    }
  }

  // ---------------------------------------------------------------- lookup

  /** Decode forward from byte `pos` to the first batch that ends at or after `target`. */
  function Seek(read: Reader, file: Buffer, pos: nat, target: uint64): (found: Option<(nat, RecordBatch)>)
    requires GoodReader(read) && pos <= |file|
    ensures found.Some? ==> pos <= found.value.0 <= |file| && target <= LastOffset(found.value.1)
    decreases |file| - pos
  {
    match read(file[pos..])
    case Err(_) => None
    case Ok((b, used)) =>
      if target <= LastOffset(b) then Some((pos, b)) else Seek(read, file, pos + used, target)
  }

  lemma {:induction false} PosStep(batches: seq<RecordBatch>, k: nat)
    requires k < |batches|
    ensures Pos(batches, k + 1) == Pos(batches, k) + Size(batches[k])
    decreases k
  {
    if k == 0 {
      assert batches[..1][1..] == [];
    } else {
      PosStep(batches[1..], k - 1);
      assert batches[..k + 1][1..] == batches[1..][..k];
      assert batches[..k][1..] == batches[1..][..k - 1];
    }
  }

  lemma {:induction false} PosMonotone(batches: seq<RecordBatch>, j: nat, k: nat)
    requires j <= k <= |batches|
    ensures Pos(batches, j) <= Pos(batches, k)
    decreases k - j
  {
    if j < k {
      PosStep(batches, j);
      PosMonotone(batches, j + 1, k);
    }
  }

  /** At batch `k`'s position the file holds batch `k`. */
  ghost predicate Holds(read: Reader, file: Buffer, batches: seq<RecordBatch>) {
    && GoodReader(read)
    && Pos(batches, |batches|) <= |file|
    && forall k :: 0 <= k < |batches| ==>
         Pos(batches, k) <= |file| && read(file[Pos(batches, k)..]) == Ok((batches[k], Size(batches[k])))
  }

  lemma CutAfter(before: Buffer, after: Buffer, tail: Buffer)
    ensures |before| <= |before + after + tail|
    ensures (before + after + tail)[|before|..] == after + tail
  {
  }

  lemma EncodedParts(batches: seq<RecordBatch>, k: nat)
    requires k < |batches|
    ensures EncodeAll(batches) == EncodeAll(batches[..k]) + EncodeAll(batches[k..])
  {
    assert batches == batches[..k] + batches[k..];
    EncodeAllSplit(batches[..k], batches[k..]);
  }

  /** The encoded log, cut at the start of batch `k`. */
  lemma EncodedAt(batches: seq<RecordBatch>, tail: Buffer, k: nat)
    requires k < |batches|
    ensures Pos(batches, k) <= |EncodeAll(batches) + tail|
    ensures (EncodeAll(batches) + tail)[Pos(batches, k)..] == EncodeAll(batches[k..]) + tail
  {
    EncodedParts(batches, k);
    EncodeAllSize(batches[..k]);
    CutAfter(EncodeAll(batches[..k]), EncodeAll(batches[k..]), tail);
  }

  lemma FileHolds(crc: Checksum, read: Reader, batches: seq<RecordBatch>, tail: Buffer)
    requires ReadsBatches(crc, read) && AllSealed(crc, batches)
    ensures Holds(read, EncodeAll(batches) + tail, batches)
  {
    forall k | 0 <= k < |batches|
      ensures var file := EncodeAll(batches) + tail;
              Pos(batches, k) <= |file| && read(file[Pos(batches, k)..]) == Ok((batches[k], Size(batches[k])))
    {
      EncodedAt(batches, tail, k);
      EncodeAllFirst(batches[k..], tail);
      assert Sealed(crc, batches[k]);
    }
    EncodeAllSize(batches);
    assert batches[..|batches|] == batches;
  }

  /** Starting later changes nothing as long as everything skipped ends before the target. */
  lemma {:induction false} SeekSkips(read: Reader, file: Buffer, batches: seq<RecordBatch>, j: nat, k: nat, target: uint64)
    requires Holds(read, file, batches) && j <= k < |batches|
    requires forall i :: j <= i < k ==> LastOffset(batches[i]) < target
    ensures Pos(batches, j) <= |file| && Pos(batches, k) <= |file|
    ensures Seek(read, file, Pos(batches, j), target) == Seek(read, file, Pos(batches, k), target)
    decreases k - j
  {
    if j < k {
      PosStep(batches, j);
      SeekSkips(read, file, batches, j + 1, k, target);
    }
  }

  /**
   Index agrees with linear search, for every target: decoding forward from the entry found
   reaches what decoding from byte 0 reaches. A target far enough out that its own 32-bit
   relative offset wraps is looked up too early, never too late.
   */
  lemma LookupAgrees(read: Reader, file: Buffer, base: uint64, batches: seq<RecordBatch>,
                     ks: seq<nat>, entries: seq<IndexEntry>, target: uint64, i: nat)
    requires Holds(read, file, batches) && InOrder(base, batches)
    requires Indexes(base, batches, |batches|, ks, entries)
    requires IsNearest(entries, Relative(target, base), i)
    ensures entries[i].position <= |file|
    ensures Seek(read, file, entries[i].position, target) == Seek(read, file, 0, target)
  {
    var k := ks[i];
    assert Pos(batches, 0) == 0;
    forall j | 0 <= j < k
      ensures LastOffset(batches[j]) < target
    {
      assert i > 0 by {
        assert ks[0] == 0;
      }
      assert LastOffset(batches[j]) < batches[k].baseOffset;
      Low32AtMost(if target >= base then target - base else 0);
    }
    SeekSkips(read, file, batches, 0, k, target);
  }

  lemma Low32AtMost(x: nat)
    ensures Low32(x) <= x
  {
  }

  // ---------------------------------------------------------------- what keeps the index right

  /** Every batch is indexed, or starts less than `interval` bytes after an indexed one. */
  ghost predicate Dense(interval: nat, batches: seq<RecordBatch>, n: nat, ks: seq<nat>)
    requires n <= |batches| && forall i :: 0 <= i < |ks| ==> ks[i] < n
  {
    forall j :: 0 <= j < n ==> Near(interval, batches, ks, j)
  }

  ghost predicate Near(interval: nat, batches: seq<RecordBatch>, ks: seq<nat>, j: nat)
    requires j < |batches| && forall i :: 0 <= i < |ks| ==> ks[i] < |batches|
  {
    exists i :: 0 <= i < |ks| && (ks[i] == j || (ks[i] < j && Pos(batches, j) < Pos(batches, ks[i]) + interval))
  }

  /** Adding batch `n`'s own entry keeps the index right. */
  lemma IndexedByEntry(base: uint64, batches: seq<RecordBatch>, n: nat, ks: seq<nat>, entries: seq<IndexEntry>)
    requires n < |batches| && Indexes(base, batches, n, ks, entries)
    requires InOrder(base, batches) && Addressable(base, batches)
    requires n == 0 ==> ks == []
    ensures var e := IndexEntry(Relative(batches[n].baseOffset, base), Low32(Pos(batches, n)));
            Indexes(base, batches, n + 1, ks + [n], entries + [e])
  {
    PosMonotone(batches, n, |batches|);
    assert batches[..|batches|] == batches;
  }

  /** So does leaving a batch unindexed, once there is an entry at all. */
  lemma IndexedWithout(base: uint64, batches: seq<RecordBatch>, n: nat, ks: seq<nat>, entries: seq<IndexEntry>)
    requires 0 < n < |batches| && Indexes(base, batches, n, ks, entries)
    ensures Indexes(base, batches, n + 1, ks, entries)
  {
  }

  /** Where the scan stands after `n` batches: its index is right, and `since` counts from the last entry. */
  ghost predicate Rebuilding(base: uint64, interval: nat, batches: seq<RecordBatch>, n: nat, ks: seq<nat>, st: Progress) {
    && Indexes(base, batches, n, ks, st.index)
    && Dense(interval, batches, n, ks)
    && (n == 0 ==> ks == [])
    && (n > 0 ==> Pos(batches, n) == Pos(batches, ks[|ks| - 1]) + st.since)
  }

  lemma NearStays(interval: nat, batches: seq<RecordBatch>, ks: seq<nat>, k: nat, j: nat)
    requires j < |batches| && k < |batches| && forall i :: 0 <= i < |ks| ==> ks[i] < |batches|
    ensures Near(interval, batches, ks, j) ==> Near(interval, batches, ks + [k], j)
    ensures Near(interval, batches, ks + [k], k)
  {
    var more := ks + [k];
    assert more[|ks|] == k;
    if Near(interval, batches, ks, j) {
      var i :| 0 <= i < |ks| && (ks[i] == j || (ks[i] < j && Pos(batches, j) < Pos(batches, ks[i]) + interval));
      assert more[i] == ks[i];
    }
  }

  lemma RebuildStep(base: uint64, interval: nat, batches: seq<RecordBatch>, n: nat, ks: seq<nat>, st: Progress)
    returns (ks': seq<nat>)
    requires n < |batches| && InOrder(base, batches) && Addressable(base, batches)
    requires Rebuilding(base, interval, batches, n, ks, st)
    ensures Rebuilding(base, interval, batches, n + 1, ks',
                       Advance(base, interval, st, batches[n], Size(batches[n]), Pos(batches, n)))
  {
    PosStep(batches, n);
    if st.since >= interval || st.index == [] {
      ks' := ks + [n];
      IndexedByEntry(base, batches, n, ks, st.index);
      forall j | 0 <= j < n + 1
        ensures Near(interval, batches, ks', j)
      {
        NearStays(interval, batches, ks, n, j);
      }
    } else {
      ks' := ks;
      IndexedWithout(base, batches, n, ks, st.index);
      assert ks[|ks| - 1] < n && Pos(batches, n) < Pos(batches, ks[|ks| - 1]) + interval;
      assert Near(interval, batches, ks', n);
    }
  }

  lemma WalkStep(base: uint64, interval: nat, batches: seq<RecordBatch>, n: nat, st: Progress)
    requires n < |batches|
    ensures Walk(base, interval, batches[n..], Pos(batches, n), st)
         == Walk(base, interval, batches[n + 1..], Pos(batches, n + 1),
                 Advance(base, interval, st, batches[n], Size(batches[n]), Pos(batches, n)))
  {
    PosStep(batches, n);
    assert batches[n..][1..] == batches[n + 1..];
  }

  /** The recovery scan rebuilds an index that is right and dense, for every ordered log. */
  lemma {:induction false} RebuildIndexes(base: uint64, interval: nat, batches: seq<RecordBatch>, n: nat, ks: seq<nat>, st: Progress)
    returns (all: seq<nat>)
    requires n <= |batches| && InOrder(base, batches) && Addressable(base, batches)
    requires Rebuilding(base, interval, batches, n, ks, st)
    ensures Rebuilding(base, interval, batches, |batches|, all,
                       Walk(base, interval, batches[n..], Pos(batches, n), st))
    decreases |batches| - n
  {
    if n == |batches| {
      all := ks;
    } else {
      var ks' := RebuildStep(base, interval, batches, n, ks, st);
      WalkStep(base, interval, batches, n, st);
      all := RebuildIndexes(base, interval, batches, n + 1, ks',
                            Advance(base, interval, st, batches[n], Size(batches[n]), Pos(batches, n)));
    }
  }

  /** From a fresh start: what `open` leaves in the index after scanning these batches. */
  lemma RebuiltIndexIsRight(base: uint64, interval: nat, batches: seq<RecordBatch>) returns (ks: seq<nat>)
    requires InOrder(base, batches) && Addressable(base, batches)
    ensures var walked := Walk(base, interval, batches, 0, Fresh(base));
            && Indexes(base, batches, |batches|, ks, walked.index)
            && Dense(interval, batches, |batches|, ks)
  {
    assert batches[0..] == batches;
    ks := RebuildIndexes(base, interval, batches, 0, [], Fresh(base));
  }

  /** End to end: recover an ordered log, look any target up in the rebuilt index, decode forward. */
  lemma RecoveredLookupAgrees(crc: Checksum, read: Reader, base: uint64, interval: nat, batches: seq<RecordBatch>,
                              tail: Buffer, target: uint64, i: nat)
    requires ReadsBatches(crc, read) && AllSealed(crc, batches)
    requires InOrder(base, batches) && Addressable(base, batches)
    requires IsNearest(Walk(base, interval, batches, 0, Fresh(base)).index, Relative(target, base), i)
    ensures var file, e := EncodeAll(batches) + tail, Walk(base, interval, batches, 0, Fresh(base)).index[i];
            && e.position <= |file|
            && Seek(read, file, e.position, target) == Seek(read, file, 0, target)
  {
    FileHolds(crc, read, batches, tail);
    var ks := RebuiltIndexIsRight(base, interval, batches);
    LookupAgrees(read, EncodeAll(batches) + tail, base, batches, ks,
                 Walk(base, interval, batches, 0, Fresh(base)).index, target, i);
  }

  lemma {:induction false} BelowIsPrefix(entries: seq<IndexEntry>, cutoff: nat, m: nat)
    requires m <= |entries|
    requires forall i :: 0 <= i < |entries| ==> (entries[i].relativeOffset < cutoff <==> i < m)
    ensures Below(entries, cutoff) == entries[..m]
  {
    if entries != [] {
      var last := |entries| - 1;
      BelowIsPrefix(entries[..last], cutoff, if m <= last then m else last);
    }
  }

  /** How many of the indexed batches come before batch `n`. */
  function CountBelow(ks: seq<nat>, n: nat): (m: nat)
    ensures m <= |ks|
  {
    if ks == [] then 0
    else if ks[|ks| - 1] < n then |ks| else CountBelow(ks[..|ks| - 1], n)
  }

  lemma {:induction false} CountBelowSplits(ks: seq<nat>, n: nat)
    requires forall i, j :: 0 <= i < j < |ks| ==> ks[i] < ks[j]
    ensures forall i :: 0 <= i < |ks| ==> (ks[i] < n <==> i < CountBelow(ks, n))
  {
    if ks != [] && ks[|ks| - 1] >= n {
      CountBelowSplits(ks[..|ks| - 1], n);
    }
  }

  /** Cutting the log at the start of batch `n` and the index at that batch's offset agree. */
  lemma TruncatedIndexIsRight(base: uint64, batches: seq<RecordBatch>, n: nat, ks: seq<nat>, entries: seq<IndexEntry>)
    returns (kept: seq<nat>)
    requires InOrder(base, batches) && Addressable(base, batches)
    requires Indexes(base, batches, |batches|, ks, entries) && n < |batches|
    ensures Indexes(base, batches, n, kept, Below(entries, Relative(batches[n].baseOffset, base)))
  {
    var m := CountBelow(ks, n);
    CountBelowSplits(ks, n);
    kept := ks[..m];
    forall i | 0 <= i < |entries|
      ensures entries[i].relativeOffset < Relative(batches[n].baseOffset, base) <==> i < m
    {
      if ks[i] < n {
        assert LastOffset(batches[ks[i]]) < batches[n].baseOffset;
      } else if ks[i] > n {
        assert LastOffset(batches[n]) < batches[ks[i]].baseOffset;
      }
    }
    BelowIsPrefix(entries, Relative(batches[n].baseOffset, base), m);
  }
}
