/**
 Opening a segment: the streaming recovery scan, what it truncates, and the trusted fast path
 for cleanly finalized segments. `Scan` is the simple reading, one pass over the whole file;
 the streaming loop is proved equal to it whatever sizes its reads return.
 */
module Recovery {
  import opened Wrappers
  import opened Bytes
  import opened Batch

  datatype IndexEntry = IndexEntry(relativeOffset: uint32, position: uint32)

  /** What the scan has built up: next offset, sparse index, bytes since the last index entry. */
  datatype Progress = Progress(nextOffset: uint64, index: seq<IndexEntry>, since: nat)

  datatype ScanResult = ScanResult(size: nat, nextOffset: uint64, corrupt: bool, index: seq<IndexEntry>)

  predicate AllZero(s: Buffer) {
    forall i :: 0 <= i < |s| ==> s[i] == 0
  }

  /** Reads one entry off the front of a buffer, with the number of bytes it takes up. */
  type Reader = Buffer -> Result<(RecordBatch, nat), BatchError>

  /** One log entry; there is only one kind, so any other first byte is an error. */
  function ReadEntry(crc: Checksum, src: Buffer): Result<(RecordBatch, nat), BatchError> {
    if src == [] then Err(BufferTooShort(1, 0))
    else if src[0] == MAGIC then Decode(crc, src)
    else Err(InvalidMagic(src[0]))
  }

  function EntryReader(crc: Checksum): Reader {
    (src: Buffer) => ReadEntry(crc, src)
  }

  predicate Decided(r: Result<(RecordBatch, nat), BatchError>) {
    r.Ok? || !r.error.BufferTooShort?
  }

  /**
   What the scan relies on: an entry starts with a non-zero byte and holds a whole header, and
   bytes that arrive later change no verdict other than "too short".
   */
  ghost predicate GoodReader(read: Reader) {
    && (forall src {:trigger read(src)} :: read(src).Ok? ==>
          |src| >= HEADER_SIZE && src[0] != 0 && HEADER_SIZE <= read(src).value.1 <= |src|)
    && (forall src, more {:trigger read(src + more)} :: Decided(read(src)) ==> read(src + more) == read(src))
  }

  lemma EntryReaderIsGood(crc: Checksum)
    ensures GoodReader(EntryReader(crc))
  {
    forall src | ReadEntry(crc, src).Ok?
      ensures |src| >= HEADER_SIZE && src[0] == MAGIC && HEADER_SIZE <= ReadEntry(crc, src).value.1 <= |src|
    {
      EncodeOfDecode(crc, src);
    }
    forall src, more | Decided(ReadEntry(crc, src))
      ensures ReadEntry(crc, src + more) == ReadEntry(crc, src)
    {
      if src[0] == MAGIC {
        DecodeIsStable(crc, src, more);
      }
    }
  }

  function Succ64(x: uint64): uint64 {
    if x + 1 == U64 then 0 else x + 1
  }

  function LastOffset(b: RecordBatch): uint64 {
    if b.baseOffset + b.lastOffsetDelta < U64 then b.baseOffset + b.lastOffsetDelta
    else b.baseOffset + b.lastOffsetDelta - U64
  }

  function Relative(offset: uint64, base: uint64): uint32 {
    Low32(if offset >= base then offset - base else 0)
  }

  /** Account for an entry of `used` bytes found at byte `position`. */
  function Advance(base: uint64, interval: nat, st: Progress, b: RecordBatch, used: nat, position: nat): Progress {
    if st.since >= interval || st.index == []
    then Progress(Succ64(LastOffset(b)),
                  st.index + [IndexEntry(Relative(b.baseOffset, base), Low32(position))], used)
    else Progress(Succ64(LastOffset(b)), st.index, st.since + used)
  }

  function Fresh(base: uint64): Progress {
    Progress(base, [], 0)
  }

  // ---------------------------------------------------------------- the whole-file scan

  /** Whether what is left at the end of the entries counts as damage; zeros do not. */
  predicate Damaged(rest: Buffer) {
    !AllZero(rest[..if |rest| < HEADER_SIZE then |rest| else HEADER_SIZE])
  }

  function Scan(read: Reader, base: uint64, interval: nat, file: Buffer, pos: nat, st: Progress): ScanResult
    requires GoodReader(read) && pos <= |file|
    decreases |file| - pos
  {
    var rest := file[pos..];
    match read(rest)
    case Ok((b, used)) =>
      Scan(read, base, interval, file, pos + used, Advance(base, interval, st, b, used, pos))
    case Err(_) => ScanResult(pos, st.nextOffset, Damaged(rest), st.index)
  }

  function FullScan(read: Reader, base: uint64, interval: nat, file: Buffer): ScanResult
    requires GoodReader(read)
  {
    Scan(read, base, interval, file, 0, Fresh(base))
  }

  // ---------------------------------------------------------------- the streaming loop

  /** What the inner loop does at the front of the bytes it has. */
  datatype Verdict = Take(b: RecordBatch, used: nat) | Wait | Halt

  /** `more`: the last read returned something, so the file may hold more bytes. */
  function Look(read: Reader, slice: Buffer, more: bool): Verdict {
    if |slice| < HEADER_SIZE then
      if AllZero(slice) || more then Wait else Halt
    else if AllZero(slice[..HEADER_SIZE]) then Wait
    else
      match read(slice)
      case Ok((b, used)) => Take(b, used)
      case Err(e) =>
        if e.BufferTooShort? && more then Wait
        else if AllZero(slice) then Wait
        else Halt
  }

  /** A verdict on part of the file is the verdict on all of it, unless it asks to wait. */
  lemma LookAhead(read: Reader, slice: Buffer, rest: Buffer, more: bool)
    requires GoodReader(read) && slice <= rest && (!more ==> slice == rest)
    ensures match Look(read, slice, more)
            case Take(b, used) => read(rest) == Ok((b, used)) && 0 < used <= |slice|
            case Halt => read(rest).Err? && Damaged(rest)
            case Wait => !more ==> read(rest).Err? && !Damaged(rest)
  {
    assert rest == slice + rest[|slice|..];
    if |slice| >= HEADER_SIZE {
      assert rest[..HEADER_SIZE] == slice[..HEADER_SIZE];
    }
    if read(rest).Ok? {
      assert rest[..HEADER_SIZE][0] != 0;
    }
  }

  /** Scanning from `pos` with progress `st` is what is left of scanning the whole file. */
  ghost predicate Scanning(read: Reader, base: uint64, interval: nat, file: Buffer, pos: nat, st: Progress) {
    GoodReader(read) && pos <= |file| && Scan(read, base, interval, file, pos, st) == FullScan(read, base, interval, file)
  }

  lemma ScanningStep(read: Reader, base: uint64, interval: nat, file: Buffer, pos: nat, st: Progress)
    requires Scanning(read, base, interval, file, pos, st) && read(file[pos..]).Ok?
    ensures var (b, used) := read(file[pos..]).value;
            pos + used <= |file|
            && Scanning(read, base, interval, file, pos + used, Advance(base, interval, st, b, used, pos))
  {
  }

  /** No entry starts at `pos`, and what is there is damage or is not. */
  ghost predicate Ended(read: Reader, file: Buffer, pos: nat, damaged: bool)
    requires pos <= |file|
  {
    read(file[pos..]).Err? && Damaged(file[pos..]) == damaged
  }

  lemma EndedAtEnd(read: Reader, file: Buffer)
    requires GoodReader(read)
    ensures Ended(read, file, |file|, false)
  {
    assert file[|file|..] == [];
  }

  lemma ScanningEnds(read: Reader, base: uint64, interval: nat, file: Buffer, pos: nat, st: Progress, damaged: bool)
    requires Scanning(read, base, interval, file, pos, st) && Ended(read, file, pos, damaged)
    ensures FullScan(read, base, interval, file) == ScanResult(pos, st.nextOffset, damaged, st.index)
  {
  }

  lemma SuffixOfPart(file: Buffer, at: nat, buf: Buffer, pos: nat)
    requires at + |buf| <= |file| && buf == file[at..at + |buf|] && pos <= |buf|
    ensures buf[pos..] <= file[at + pos..]
    ensures at + |buf| == |file| ==> buf[pos..] == file[at + pos..]
  {
  }

  /** One turn of the inner loop at byte `at + pos`, of which `buf[pos..]` is in memory. */
  lemma InnerStep(read: Reader, base: uint64, interval: nat, file: Buffer,
                  at: nat, buf: Buffer, more: bool, pos: nat, st: Progress)
    requires at + |buf| <= |file| && buf == file[at..at + |buf|] && pos <= |buf|
    requires !more ==> at + |buf| == |file|
    requires Scanning(read, base, interval, file, at + pos, st)
    ensures match Look(read, buf[pos..], more)
            case Take(b, used) =>
              0 < used && pos + used <= |buf|
              && Scanning(read, base, interval, file, at + pos + used,
                          Advance(base, interval, st, b, used, at + pos))
            case Halt => Ended(read, file, at + pos, true)
            case Wait => !more ==> Ended(read, file, at + pos, false)
  {
    SuffixOfPart(file, at, buf, pos);
    LookAhead(read, buf[pos..], file[at + pos..], more);
    if Look(read, buf[pos..], more).Take? {
      ScanningStep(read, base, interval, file, at + pos, st);
    }
  }

  /** The inner loop: consume entries off the front of `buf`, the file's bytes from `at` on. */
  method ScanBuffer(read: Reader, base: uint64, interval: nat, buf: Buffer, more: bool,
                    at: nat, st0: Progress, ghost file: Buffer)
    returns (pos: nat, st: Progress, corrupt: bool)
    requires at + |buf| <= |file| && buf == file[at..at + |buf|]
    requires !more ==> at + |buf| == |file|
    requires Scanning(read, base, interval, file, at, st0)
    ensures pos <= |buf| && Scanning(read, base, interval, file, at + pos, st)
    ensures corrupt || !more ==> Ended(read, file, at + pos, corrupt)
  {
    pos, st, corrupt := 0, st0, false;
    while pos < |buf|
      invariant pos <= |buf| && Scanning(read, base, interval, file, at + pos, st)
      decreases |buf| - pos
    {
      InnerStep(read, base, interval, file, at, buf, more, pos, st);
      match Look(read, buf[pos..], more) {
        case Wait =>
          return;
        case Halt =>
          corrupt := true;
          return;
        case Take(b, used) =>
          st := Advance(base, interval, st, b, used, at + pos);
          pos := pos + used;
      }
    }
    EndedAtEnd(read, file);
  }

  lemma PartGrows(file: Buffer, at: nat, upto: nat, n: nat)
    requires at <= upto && upto + n <= |file|
    ensures file[at..upto] + file[upto..upto + n] == file[at..upto + n]
  {
  }

  lemma PartShrinks(file: Buffer, at: nat, upto: nat, pos: nat)
    requires at + pos <= upto <= |file|
    ensures file[at..upto][pos..] == file[at + pos..upto]
  {
  }

  /** The bytes read but not yet consumed sit in `readBuf`, and the scan stands at `fileOffset`. */
  ghost predicate Streaming(read: Reader, base: uint64, interval: nat, file: Buffer,
                            fileOffset: nat, readBuf: Buffer, consumed: nat, st: Progress) {
    && fileOffset + |readBuf| == consumed <= |file|
    && readBuf == file[fileOffset..consumed]
    && Scanning(read, base, interval, file, fileOffset, st)
  }

  /** One read of `n` bytes, zero only at the end of the file, and the scan of what is in memory. */
  method ReadTurn(read: Reader, base: uint64, interval: nat, file: Buffer, n: nat,
                  fileOffset0: nat, readBuf0: Buffer, consumed: nat, st0: Progress)
    returns (fileOffset: nat, readBuf: Buffer, st: Progress, corrupt: bool)
    requires Streaming(read, base, interval, file, fileOffset0, readBuf0, consumed, st0)
    requires consumed + n <= |file| && (n == 0 ==> consumed == |file|)
    ensures Streaming(read, base, interval, file, fileOffset, readBuf, consumed + n, st)
    ensures n == 0 || corrupt ==> Ended(read, file, fileOffset, corrupt)
  {
    PartGrows(file, fileOffset0, consumed, n);
    readBuf := readBuf0 + file[consumed..consumed + n];
    var pos;
    pos, st, corrupt := ScanBuffer(read, base, interval, readBuf, n > 0, fileOffset0, st0, file);
    PartShrinks(file, fileOffset0, consumed + n, pos);
    fileOffset := fileOffset0 + pos;
    readBuf := readBuf[pos..];
  }

  /**
   The outer loop. Each read returns any non-zero number of bytes that are left, and nothing
   only at the end of the file; the result does not depend on the sizes.
   */
  method RecoverStreaming(read: Reader, base: uint64, interval: nat, file: Buffer)
    returns (r: ScanResult)
    requires GoodReader(read)
    ensures r == FullScan(read, base, interval, file)
  {
    var readBuf: Buffer := [];
    var fileOffset: nat, consumed: nat := 0, 0;
    var st := Fresh(base);
    var corrupt := false;
    while true
      invariant Streaming(read, base, interval, file, fileOffset, readBuf, consumed, st) && !corrupt
      decreases |file| - consumed
    {
      var n: nat := 0;
      if consumed < |file| {
        n :| 0 < n <= |file| - consumed && n <= 64 * 1024;
      }
      if n == 0 && readBuf == [] {
        EndedAtEnd(read, file);
        break;
      }
      fileOffset, readBuf, st, corrupt :=
        ReadTurn(read, base, interval, file, n, fileOffset, readBuf, consumed, st);
      consumed := consumed + n;
      if n == 0 || corrupt {
        break;
      }
    }
    ScanningEnds(read, base, interval, file, fileOffset, st, corrupt);
    r := ScanResult(fileOffset, st.nextOffset, corrupt, st.index);
  }
}
