/**
 What recovery means in terms of batches: the scan keeps the longest run of whole batches the
 file starts with, survives a torn last write, and is idempotent; and the trusted fast path
 agrees with it.
 */
module RecoveryTheorems {
  import opened Wrappers
  import opened Bytes
  import opened Batch
  import opened Recovery

  /** Bytes a batch takes up on disk. */
  function Size(b: RecordBatch): nat {
    HEADER_SIZE + |b.recordData|
  }

  function TotalSize(batches: seq<RecordBatch>): nat {
    if batches == [] then 0 else Size(batches[0]) + TotalSize(batches[1..])
  }

  lemma {:induction false} EncodeAllSize(batches: seq<RecordBatch>)
    ensures |EncodeAll(batches)| == TotalSize(batches)
  {
    if batches != [] {
      EncodeAllSize(batches[1..]);
    }
  }

  /** The reader consumes exactly the batch it returns. */
  ghost predicate SizedReader(read: Reader) {
    GoodReader(read) && forall src {:trigger read(src)} :: read(src).Ok? ==> read(src).value.1 == Size(read(src).value.0)
  }

  /** The reader accepts exactly the encodings of sealed batches. */
  ghost predicate ReadsBatches(crc: Checksum, read: Reader) {
    && GoodReader(read)
    && (forall src {:trigger read(src)} :: read(src).Ok? ==>
          Sealed(crc, read(src).value.0) && Encode(read(src).value.0) == src[..read(src).value.1])
    && (forall b, rest {:trigger read(Encode(b) + rest)} :: Sealed(crc, b) ==>
          read(Encode(b) + rest) == Ok((b, |Encode(b)|)))
  }

  lemma EntryReaderReadsBatches(crc: Checksum)
    ensures ReadsBatches(crc, EntryReader(crc))
  {
    EntryReaderIsGood(crc);
    forall src | ReadEntry(crc, src).Ok?
      ensures Sealed(crc, ReadEntry(crc, src).value.0)
      ensures Encode(ReadEntry(crc, src).value.0) == src[..ReadEntry(crc, src).value.1]
    {
      EncodeOfDecode(crc, src);
    }
    forall b, rest | Sealed(crc, b)
      ensures ReadEntry(crc, Encode(b) + rest) == Ok((b, |Encode(b)|))
    {
      DecodeOfEncode(crc, b, rest);
    }
  }

  /** The batches at the front of a buffer, up to the first thing that is not one. */
  function Found(read: Reader, src: Buffer): seq<RecordBatch>
    requires GoodReader(read)
    decreases |src|
  {
    match read(src)
    case Ok((b, used)) => [b] + Found(read, src[used..])
    case Err(_) => []
  }

  lemma FoundStep(crc: Checksum, read: Reader, src: Buffer)
    requires ReadsBatches(crc, read) && read(src).Ok?
    ensures var (b, used) := read(src).value;
            var tail := Found(read, src[used..]);
            && used == |Encode(b)| && Sealed(crc, b)
            && Found(read, src) == [b] + tail
            && EncodeAll(Found(read, src)) == Encode(b) + EncodeAll(tail)
            && src == Encode(b) + src[used..]
  {
    var (b, used) := read(src).value;
    var tail := Found(read, src[used..]);
    assert ([b] + tail)[1..] == tail;
    assert src == src[..used] + src[used..];
  }

  lemma {:induction false} FoundIsPrefix(crc: Checksum, read: Reader, src: Buffer)
    requires ReadsBatches(crc, read)
    ensures AllSealed(crc, Found(read, src)) && EncodeAll(Found(read, src)) <= src
    ensures read(src[|EncodeAll(Found(read, src))|..]).Err?
    decreases |src|
  {
    if read(src).Ok? {
      var used := read(src).value.1;
      var tail := Found(read, src[used..]);
      FoundStep(crc, read, src);
      FoundIsPrefix(crc, read, src[used..]);
      assert src[used + |EncodeAll(tail)|..] == src[used..][|EncodeAll(tail)|..];
    } else {
      assert src[0..] == src;
    }
  }

  /** No other run of sealed batches at the front of the buffer is longer. */
  lemma {:induction false} FoundIsLongest(crc: Checksum, read: Reader, src: Buffer, batches: seq<RecordBatch>)
    requires ReadsBatches(crc, read) && AllSealed(crc, batches) && EncodeAll(batches) <= src
    ensures batches <= Found(read, src)
  {
    if batches != [] {
      var b, rest := batches[0], src[|Encode(batches[0])|..];
      assert src == Encode(b) + rest;
      assert EncodeAll(batches[1..]) <= rest;
      FoundIsLongest(crc, read, rest, batches[1..]);
      assert batches == [b] + batches[1..];
    }
  }

  lemma Associate(x: Buffer, y: Buffer, z: Buffer)
    ensures x + (y + z) == (x + y) + z
  {
  }

  lemma {:induction false} EncodeAllSplit(a: seq<RecordBatch>, b: seq<RecordBatch>)
    ensures EncodeAll(a + b) == EncodeAll(a) + EncodeAll(b)
  {
    if a == [] {
      assert a + b == b;
    } else {
      EncodeAllSplit(a[1..], b);
      assert (a + b)[0] == a[0] && (a + b)[1..] == a[1..] + b;
      Associate(Encode(a[0]), EncodeAll(a[1..]), EncodeAll(b));
    }
  }

  // ---------------------------------------------------------------- the scan, by batches

  /** The progress after walking `batches` laid out from byte `pos` on. */
  function Walk(base: uint64, interval: nat, batches: seq<RecordBatch>, pos: nat, st: Progress): Progress {
    if batches == [] then st
    else
      var size := Size(batches[0]);
      Walk(base, interval, batches[1..], pos + size, Advance(base, interval, st, batches[0], size, pos))
  }

  /** The result of a scan from `pos`, given the batches found there. */
  function Outcome(base: uint64, interval: nat, batches: seq<RecordBatch>, file: Buffer, pos: nat, st: Progress): ScanResult
    requires pos + TotalSize(batches) <= |file|
  {
    var end := pos + TotalSize(batches);
    var walked := Walk(base, interval, batches, pos, st);
    ScanResult(end, walked.nextOffset, Damaged(file[end..]), walked.index)
  }

  lemma OutcomeStep(base: uint64, interval: nat, b: RecordBatch, tail: seq<RecordBatch>, file: Buffer, pos: nat, st: Progress)
    requires pos + Size(b) + TotalSize(tail) <= |file|
    ensures TotalSize([b] + tail) == Size(b) + TotalSize(tail)
    ensures Outcome(base, interval, [b] + tail, file, pos, st)
            == Outcome(base, interval, tail, file, pos + Size(b), Advance(base, interval, st, b, Size(b), pos))
  {
    assert ([b] + tail)[1..] == tail;
  }

  lemma ScanOneMore(read: Reader, base: uint64, interval: nat, file: Buffer, pos: nat, st: Progress)
    requires SizedReader(read) && pos <= |file| && read(file[pos..]).Ok?
    ensures var b := read(file[pos..]).value.0;
            && pos + Size(b) <= |file|
            && Scan(read, base, interval, file, pos, st)
               == Scan(read, base, interval, file, pos + Size(b), Advance(base, interval, st, b, Size(b), pos))
            && Found(read, file[pos..]) == [b] + Found(read, file[pos + Size(b)..])
  {
    var used := read(file[pos..]).value.1;
    assert file[pos + used..] == file[pos..][used..];
  }

  lemma {:induction false} ScanWalks(read: Reader, base: uint64, interval: nat,
                                     file: Buffer, pos: nat, st: Progress)
    requires SizedReader(read) && pos <= |file|
    ensures var batches := Found(read, file[pos..]);
            && pos + TotalSize(batches) <= |file|
            && Scan(read, base, interval, file, pos, st) == Outcome(base, interval, batches, file, pos, st)
    decreases |file| - pos
  {
    if read(file[pos..]).Ok? {
      var b, next := read(file[pos..]).value.0, pos + Size(read(file[pos..]).value.0);
      ScanOneMore(read, base, interval, file, pos, st);
      ScanWalks(read, base, interval, file, next, Advance(base, interval, st, b, Size(b), pos));
      OutcomeStep(base, interval, b, Found(read, file[next..]), file, pos, st);
    }
  }

  lemma ReaderIsSized(crc: Checksum, read: Reader)
    requires ReadsBatches(crc, read)
    ensures SizedReader(read)
  {
    forall src | read(src).Ok?
      ensures read(src).value.1 == Size(read(src).value.0)
    {
      assert |Encode(read(src).value.0)| == Size(read(src).value.0);
    }
  }

  /** The scan's result is what the longest run of whole batches says, and nothing else. */
  lemma FullScanIsFound(crc: Checksum, read: Reader, base: uint64, interval: nat, file: Buffer)
    requires ReadsBatches(crc, read)
    ensures var batches := Found(read, file);
            && EncodeAll(batches) <= file && |EncodeAll(batches)| == TotalSize(batches)
            && FullScan(read, base, interval, file) == Outcome(base, interval, batches, file, 0, Fresh(base))
  {
    assert file[0..] == file;
    FoundIsPrefix(crc, read, file);
    EncodeAllSize(Found(read, file));
    ReaderIsSized(crc, read);
    ScanWalks(read, base, interval, file, 0, Fresh(base));
  }

  // ---------------------------------------------------------------- torn writes and reopening

  /** What opening leaves on disk: damage is cut off, a clean tail (or preallocated zeros) stays. */
  function Recovered(read: Reader, base: uint64, interval: nat, file: Buffer): Buffer
    requires GoodReader(read)
  {
    var r := FullScan(read, base, interval, file);
    if r.corrupt && r.size != |file| && r.size <= |file| then file[..r.size] else file
  }

  lemma EncodeAllFirst(batches: seq<RecordBatch>, tail: Buffer)
    requires batches != []
    ensures EncodeAll(batches) + tail == Encode(batches[0]) + (EncodeAll(batches[1..]) + tail)
  {
    Associate(Encode(batches[0]), EncodeAll(batches[1..]), tail);
  }

  lemma FoundFirst(crc: Checksum, read: Reader, b: RecordBatch, rest: Buffer)
    requires ReadsBatches(crc, read) && Sealed(crc, b)
    ensures Found(read, Encode(b) + rest) == [b] + Found(read, rest)
  {
    assert read(Encode(b) + rest) == Ok((b, |Encode(b)|));
    assert (Encode(b) + rest)[|Encode(b)|..] == rest;
  }

  /** Whole batches at the front are found first, then whatever the rest starts with. */
  lemma {:induction false} FoundAfter(crc: Checksum, read: Reader, batches: seq<RecordBatch>, tail: Buffer)
    requires ReadsBatches(crc, read) && AllSealed(crc, batches)
    ensures Found(read, EncodeAll(batches) + tail) == batches + Found(read, tail)
    decreases |batches|
  {
    if batches == [] {
      assert EncodeAll(batches) + tail == tail;
    } else {
      var b, rest := batches[0], batches[1..];
      EncodeAllFirst(batches, tail);
      FoundFirst(crc, read, b, EncodeAll(rest) + tail);
      FoundAfter(crc, read, rest, tail);
      assert [b] + (rest + Found(read, tail)) == ([b] + rest) + Found(read, tail);
      assert batches == [b] + rest;
    }
  }

  /** Whole batches, then anything that does not start with another one. */
  lemma FoundExactly(crc: Checksum, read: Reader, batches: seq<RecordBatch>, tail: Buffer)
    requires ReadsBatches(crc, read) && AllSealed(crc, batches) && read(tail).Err?
    ensures Found(read, EncodeAll(batches) + tail) == batches
  {
    FoundAfter(crc, read, batches, tail);
    assert Found(read, tail) == [];
  }

  lemma TornIsUnreadable(crc: Checksum, read: Reader, b: RecordBatch, torn: Buffer)
    requires ReadsBatches(crc, read) && Sealed(crc, b) && torn < Encode(b)
    ensures read(torn).Err?
    ensures Damaged(torn) <==> torn != []
  {
    var rest := Encode(b)[|torn|..];
    assert read(Encode(b) + []) == Ok((b, |Encode(b)|));
    assert Encode(b) + [] == torn + rest;
    assert Decided(read(torn)) ==> read(torn + rest) == read(torn);
    if torn != [] {
      var k := if |torn| < HEADER_SIZE then |torn| else HEADER_SIZE;
      assert torn[..k][0] == Encode(b)[0] == MAGIC;
    }
  }

  /**
   Whole batches, then anything that does not start with another one: exactly the whole ones are
   kept, and the rest is cut off iff it is damage.
   */
  lemma UnreadableTailRecovery(crc: Checksum, read: Reader, base: uint64, interval: nat, batches: seq<RecordBatch>, tail: Buffer)
    requires ReadsBatches(crc, read) && AllSealed(crc, batches) && read(tail).Err?
    ensures var file := EncodeAll(batches) + tail;
            var walked := Walk(base, interval, batches, 0, Fresh(base));
            && FullScan(read, base, interval, file)
               == ScanResult(|EncodeAll(batches)|, walked.nextOffset, Damaged(tail), walked.index)
            && Recovered(read, base, interval, file) == if Damaged(tail) then EncodeAll(batches) else file
  {
    var file := EncodeAll(batches) + tail;
    FoundExactly(crc, read, batches, tail);
    FullScanIsFound(crc, read, base, interval, file);
    assert file[|EncodeAll(batches)|..] == tail;
    assert file[..|EncodeAll(batches)|] == EncodeAll(batches);
  }

  /**
   A crash in the middle of an append: complete batches followed by any proper prefix of one
   more. Recovery keeps exactly the complete ones, reports damage iff something was torn, and
   truncates to their end.
   */
  lemma TornWriteRecovery(crc: Checksum, read: Reader, base: uint64, interval: nat,
                          batches: seq<RecordBatch>, b: RecordBatch, torn: Buffer)
    requires ReadsBatches(crc, read) && AllSealed(crc, batches) && Sealed(crc, b) && torn < Encode(b)
    ensures var file := EncodeAll(batches) + torn;
            var walked := Walk(base, interval, batches, 0, Fresh(base));
            && FullScan(read, base, interval, file)
               == ScanResult(|EncodeAll(batches)|, walked.nextOffset, torn != [], walked.index)
            && Recovered(read, base, interval, file) == EncodeAll(batches)
  {
    TornIsUnreadable(crc, read, b, torn);
    UnreadableTailRecovery(crc, read, base, interval, batches, torn);
    assert torn == [] ==> EncodeAll(batches) + torn == EncodeAll(batches);
  }

  lemma ZerosAreNoDamage(read: Reader, zeros: Buffer)
    requires GoodReader(read) && AllZero(zeros)
    ensures read(zeros).Err? && !Damaged(zeros)
  {
  }

  /** Whole batches in a preallocated file: the zeros behind them are no damage, and nothing is cut. */
  lemma PreallocatedRecovery(crc: Checksum, read: Reader, base: uint64, interval: nat, batches: seq<RecordBatch>, zeros: Buffer)
    requires ReadsBatches(crc, read) && AllSealed(crc, batches) && AllZero(zeros)
    ensures var file := EncodeAll(batches) + zeros;
            var walked := Walk(base, interval, batches, 0, Fresh(base));
            && FullScan(read, base, interval, file)
               == ScanResult(|EncodeAll(batches)|, walked.nextOffset, false, walked.index)
            && Recovered(read, base, interval, file) == file
  {
    ZerosAreNoDamage(read, zeros);
    UnreadableTailRecovery(crc, read, base, interval, batches, zeros);
  }

  lemma TornIsDamage(b: RecordBatch, torn: Buffer, zeros: Buffer)
    requires torn < Encode(b) && torn != []
    ensures Damaged(torn + zeros)
  {
    var tail := torn + zeros;
    var k := if |tail| < HEADER_SIZE then |tail| else HEADER_SIZE;
    assert tail[..k][0] == torn[0] == Encode(b)[0] == MAGIC;
  }

  /**
   A crash in the middle of an append into a preallocated file. Unless the zeros happen to
   complete the torn entry, exactly the whole batches are kept and the rest is cut.
   */
  lemma TornPreallocatedRecovery(crc: Checksum, read: Reader, base: uint64, interval: nat,
                                 batches: seq<RecordBatch>, b: RecordBatch, torn: Buffer, zeros: Buffer)
    requires ReadsBatches(crc, read) && AllSealed(crc, batches) && torn < Encode(b) && torn != [] && AllZero(zeros)
    ensures var file := EncodeAll(batches) + (torn + zeros);
            var walked := Walk(base, interval, batches, 0, Fresh(base));
            read(torn + zeros).Err? ==>
              && FullScan(read, base, interval, file)
                 == ScanResult(|EncodeAll(batches)|, walked.nextOffset, true, walked.index)
              && Recovered(read, base, interval, file) == EncodeAll(batches)
  {
    TornIsDamage(b, torn, zeros);
    if read(torn + zeros).Err? {
      UnreadableTailRecovery(crc, read, base, interval, batches, torn + zeros);
    }
  }

  /** For every file whatsoever, opening again finds the same, sees no damage and cuts nothing. */
  lemma RecoveryIsIdempotent(crc: Checksum, read: Reader, base: uint64, interval: nat, file: Buffer)
    requires ReadsBatches(crc, read)
    ensures var once := Recovered(read, base, interval, file);
            && FullScan(read, base, interval, once) == FullScan(read, base, interval, file).(corrupt := false)
            && Recovered(read, base, interval, once) == once
  {
    var batches := Found(read, file);
    FullScanIsFound(crc, read, base, interval, file);
    var end := |EncodeAll(batches)|;
    assert file[|file|..] == [];
    if Damaged(file[end..]) {
      assert file[..end] == EncodeAll(batches) + [];
      FoundIsPrefix(crc, read, file);
      FoundExactly(crc, read, batches, []);
      FullScanIsFound(crc, read, base, interval, file[..end]);
      assert file[..end][end..] == [];
    }
  }

  // ---------------------------------------------------------------- the trusted fast path

  /** Decode to the end; the last offset seen, or nothing if some entry does not decode. */
  function TailLast(read: Reader, tail: Buffer, last: uint64): Option<uint64>
    requires GoodReader(read)
    decreases |tail|
  {
    if tail == [] then Some(last)
    else
      match read(tail)
      case Ok((b, used)) => TailLast(read, tail[used..], LastOffset(b))
      case Err(_) => None
  }

  /** Size and next offset from the last index entry alone, or nothing: then the full scan runs. */
  function FastPath(read: Reader, base: uint64, file: Buffer, last: Option<IndexEntry>): Option<(nat, uint64)>
    requires GoodReader(read)
  {
    match last
    case None => if file == [] then Some((0, base)) else None
    case Some(e) =>
      if e.position > |file| then None
      else
        match TailLast(read, file[e.position..], base)
        case None => None
        case Some(offset) => Some((|file|, Succ64(offset)))
  }

  method FastPathLoop(read: Reader, base: uint64, file: Buffer, last: Option<IndexEntry>)
    returns (r: Option<(nat, uint64)>)
    requires GoodReader(read)
    ensures r == FastPath(read, base, file, last)
  {
    if last.None? {
      return if file == [] then Some((0, base)) else None;
    }
    var start := last.value.position;
    var tail := if start <= |file| then file[start..] else [];
    var pos, lastOffset := 0, base;
    while pos < |tail|
      invariant 0 <= pos <= |tail|
      invariant TailLast(read, tail[pos..], lastOffset) == TailLast(read, tail, base)
      decreases |tail| - pos
    {
      match read(tail[pos..]) {
        case Err(_) =>
          return None;
        case Ok((b, used)) =>
          assert tail[pos..][used..] == tail[pos + used..];
          lastOffset := LastOffset(b);
          pos := pos + used;
      }
    }
    r := if start + pos == |file| then Some((|file|, Succ64(lastOffset))) else None;
  }

  lemma {:induction false} WalkNext(base: uint64, interval: nat, batches: seq<RecordBatch>, pos: nat, st: Progress)
    ensures Walk(base, interval, batches, pos, st).nextOffset
            == if batches == [] then st.nextOffset else Succ64(LastOffset(batches[|batches| - 1]))
  {
    if batches != [] {
      var size := Size(batches[0]);
      WalkNext(base, interval, batches[1..], pos + size, Advance(base, interval, st, batches[0], size, pos));
    }
  }

  /** An accepted tail is whole batches to its very end, and the answer comes from the last one. */
  lemma {:induction false} TailLastIsFound(crc: Checksum, read: Reader, tail: Buffer, last: uint64)
    requires ReadsBatches(crc, read) && TailLast(read, tail, last).Some?
    ensures EncodeAll(Found(read, tail)) == tail
    ensures Found(read, tail) == [] <==> tail == []
    ensures var batches := Found(read, tail);
            TailLast(read, tail, last).value
            == if batches == [] then last else LastOffset(batches[|batches| - 1])
    decreases |tail|
  {
    if tail != [] {
      var (b, used) := read(tail).value;
      FoundStep(crc, read, tail);
      TailLastIsFound(crc, read, tail[used..], LastOffset(b));
    }
  }

  /** The next offset the fast path may get right by accident: its batches end at the base itself. */
  predicate EndsAtBase(base: uint64, front: seq<RecordBatch>) {
    front != [] && LastOffset(front[|front| - 1]) == base
  }

  /**
   If the bytes before the last indexed entry are whole batches, any answer the fast path
   accepts has the full scan's size; and it has the full scan's next offset exactly when the
   index entry points at an entry, or those batches happen to end at the base offset.
   */
  lemma FastPathAtEntry(crc: Checksum, read: Reader, base: uint64, interval: nat,
                        file: Buffer, front: seq<RecordBatch>, e: IndexEntry)
    requires ReadsBatches(crc, read) && AllSealed(crc, front)
    requires EncodeAll(front) <= file && e.position == |EncodeAll(front)|
    requires FastPath(read, base, file, Some(e)).Some?
    ensures var (size, next) := FastPath(read, base, file, Some(e)).value;
            var full := FullScan(read, base, interval, file);
            && size == full.size && !full.corrupt
            && (next == full.nextOffset <==> e.position < |file| || EndsAtBase(base, front))
  {
    var tail := file[e.position..];
    var back := Found(read, tail);
    assert file == EncodeAll(front) + tail;
    FoundAfter(crc, read, front, tail);
    TailLastIsFound(crc, read, tail, base);
    FullScanIsFound(crc, read, base, interval, file);
    EncodeAllSplit(front, back);
    WalkNext(base, interval, front + back, 0, Fresh(base));
    assert file[|file|..] == [];
    if tail == [] {
      assert front + back == front;
    }
  }

  /** Without any index entry only an empty file is trusted, and rightly. */
  lemma FastPathWithoutIndex(crc: Checksum, read: Reader, base: uint64, interval: nat, file: Buffer)
    requires ReadsBatches(crc, read)
    ensures FastPath(read, base, file, None).Some? <==> file == []
    ensures file == [] ==>
              var full := FullScan(read, base, interval, file);
              FastPath(read, base, file, None) == Some((full.size, full.nextOffset)) && !full.corrupt
  {
    FullScanIsFound(crc, read, base, interval, file);
  }

  /** Where the bytes before the last index entry, if there is one, are whole batches. */
  predicate TrustedFront(crc: Checksum, file: Buffer, last: Option<IndexEntry>, front: seq<RecordBatch>) {
    AllSealed(crc, front) && EncodeAll(front) <= file && (last.Some? ==> last.value.position == |EncodeAll(front)|)
  }

  /** Both branches: every accepted answer has the full scan's size, and its next offset exactly as said. */
  lemma FastPathRefinesFullScan(crc: Checksum, read: Reader, base: uint64, interval: nat,
                                file: Buffer, front: seq<RecordBatch>, last: Option<IndexEntry>)
    requires ReadsBatches(crc, read) && TrustedFront(crc, file, last, front)
    requires FastPath(read, base, file, last).Some?
    ensures var (size, next) := FastPath(read, base, file, last).value;
            var full := FullScan(read, base, interval, file);
            && size == full.size && !full.corrupt
            && (next == full.nextOffset <==>
                last.None? || last.value.position < |file| || EndsAtBase(base, front))
  {
    match last
    case Some(e) => FastPathAtEntry(crc, read, base, interval, file, front, e);
    case None => FastPathWithoutIndex(crc, read, base, interval, file);
  }

  /** A stale index entry over an emptied file is accepted with the wrong next offset. */
  lemma FastPathOverEmptiedFile(crc: Checksum, base: uint64, interval: nat)
    ensures var read := EntryReader(crc);
            && GoodReader(read)
            && FastPath(read, base, [], Some(IndexEntry(0, 0))) == Some((0, Succ64(base)))
            && FullScan(read, base, interval, []).nextOffset == base
  {
    EntryReaderIsGood(crc);
  }
}
