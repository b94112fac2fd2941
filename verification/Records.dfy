/**
 Records inside a batch: building record data, compressing it as a unit, and reading it back.
 Compression is an abstract pair of functions per codec; the only thing assumed of a pair,
 where it is needed, is that decompressing undoes compressing.
 */
module Records {
  import opened Wrappers
  import opened Bytes
  import opened Batch

  const MAX_BYTES: nat := 64 * 1024 * 1024
  const MAX_RECORDS: nat := 100_000
  const ENTRY_MIN: nat := 20
  const NULL_LENGTH: nat := 0xFFFF_FFFF
  const MAX_LENGTH: nat := 0x8000_0000

  datatype Record = Record(offset: uint64, timestamp: uint64, key: Option<Buffer>, value: Option<Buffer>)

  /** One stored record: its deltas against the batch's base offset and base timestamp. */
  datatype Entry = Entry(offsetDelta: uint32, timeDelta: uint64, key: Option<Buffer>, value: Option<Buffer>)

  datatype Compression = Plain | Lz4 | Zstd

  datatype Codecs = Codecs(
    lz4: Buffer -> Buffer,
    unlz4: Buffer -> Option<Buffer>,
    zstd: Buffer -> Buffer,
    unzstd: Buffer -> Option<Buffer>)

  /** Four little-endian bytes: the size LZ4 data is prefixed with. */
  function PutLE(v: nat): (s: Buffer)
    ensures |s| == 4
  {
    [v % 256, v / 256 % 256, v / 256 / 256 % 256, v / 256 / 256 / 256 % 256]
  }

  function ValueLE(s: Buffer): nat
    requires |s| == 4
  {
    (s[0] as int) + 256 * (s[1] as int) + 0x1_0000 * (s[2] as int) + 0x100_0000 * (s[3] as int)
  }

  ghost predicate Lawful(c: Codecs) {
    && (forall raw: Buffer {:trigger c.lz4(raw)} :: |raw| < U32 ==> c.unlz4(PutLE(|raw|) + c.lz4(raw)) == Some(raw))
    && (forall raw: Buffer {:trigger c.zstd(raw)} :: c.unzstd(c.zstd(raw)) == Some(raw))
  }

  // ---------------------------------------------------------------- one record

  function PutOpt(o: Option<Buffer>): Buffer {
    if o.None? then Put(4, NULL_LENGTH) else Put(4, |o.value|) + o.value
  }

  function GetOpt(src: Buffer): Result<(Option<Buffer>, Buffer), BatchError> {
    if |src| < 4 then Err(TruncatedRecord)
    else
      var (length, rest) := Get(4, src);
      if length == NULL_LENGTH then Ok((None, rest))
      else if length >= MAX_LENGTH || |rest| < length then Err(TruncatedRecord)
      else Ok((Some(rest[..length]), rest[length..]))
  }

  predicate FitsOpt(o: Option<Buffer>) {
    o.Some? ==> |o.value| < MAX_LENGTH
  }

  /** Null, empty and present are told apart again, for every length a signed field can hold. */
  lemma GetOfPutOpt(o: Option<Buffer>, rest: Buffer)
    requires FitsOpt(o)
    ensures GetOpt(PutOpt(o) + rest) == Ok((o, rest))
  {
    Widths();
    if o.None? {
      GetOfPut(4, NULL_LENGTH, rest);
    } else {
      GetOfPut(4, |o.value|, o.value + rest);
      assert PutOpt(o) + rest == Put(4, |o.value|) + (o.value + rest);
      assert (o.value + rest)[..|o.value|] == o.value && (o.value + rest)[|o.value|..] == rest;
    }
  }

  function EncodeEntry(e: Entry): (s: Buffer)
    ensures |s| >= ENTRY_MIN
  {
    Put(4, e.offsetDelta) + (Put(8, e.timeDelta) + (PutOpt(e.key) + PutOpt(e.value)))
  }

  function DecodeEntry(src: Buffer): Result<(Entry, Buffer), BatchError> {
    if |src| < 12 then Err(TruncatedRecord)
    else
      Widths();
      var (offsetDelta, s1) := Get(4, src);
      var (timeDelta, s2) := Get(8, s1);
      PutOfGet(4, src);
      PutOfGet(8, s1);
      match GetOpt(s2)
      case Err(e) => Err(e)
      case Ok((key, s3)) =>
        match GetOpt(s3)
        case Err(e) => Err(e)
        case Ok((value, s4)) => Ok((Entry(offsetDelta, timeDelta, key, value), s4))
  }

  predicate Fits(e: Entry) {
    FitsOpt(e.key) && FitsOpt(e.value)
  }

  lemma DecodeOfEncodeEntry(e: Entry, rest: Buffer)
    requires Fits(e)
    ensures DecodeEntry(EncodeEntry(e) + rest) == Ok((e, rest))
  {
    Widths();
    var s3 := PutOpt(e.value) + rest;
    var s2 := PutOpt(e.key) + s3;
    var s1 := Put(8, e.timeDelta) + s2;
    assert EncodeEntry(e) + rest == Put(4, e.offsetDelta) + s1;
    GetOfPut(4, e.offsetDelta, s1);
    GetOfPut(8, e.timeDelta, s2);
    GetOfPutOpt(e.key, s3);
    GetOfPutOpt(e.value, rest);
  }

  // ---------------------------------------------------------------- all records of a batch

  function EncodeEntries(entries: seq<Entry>): Buffer {
    if entries == [] then [] else EncodeEntry(entries[0]) + EncodeEntries(entries[1..])
  }

  lemma {:induction false} EncodeEntriesAppend(entries: seq<Entry>, e: Entry)
    ensures EncodeEntries(entries + [e]) == EncodeEntries(entries) + EncodeEntry(e)
  {
    if entries == [] {
      assert [e][1..] == [];
    } else {
      EncodeEntriesAppend(entries[1..], e);
      assert (entries + [e])[1..] == entries[1..] + [e];
    }
  }

  lemma {:induction false} EncodeEntriesSize(entries: seq<Entry>)
    ensures |EncodeEntries(entries)| >= ENTRY_MIN * |entries|
    ensures forall i :: 0 <= i < |entries| && |EncodeEntries(entries)| < MAX_LENGTH ==> Fits(entries[i])
  {
    if entries != [] {
      EncodeEntriesSize(entries[1..]);
    }
  }

  /** 64-bit wrapping difference and sum, as the signed timestamp delta computes them. */
  function TimeDelta(timestamp: uint64, base: uint64): uint64 {
    if timestamp >= base then timestamp - base else timestamp - base + U64
  }

  function Wrap(base: uint64, delta: uint64): uint64 {
    if base + delta < U64 then base + delta else base + delta - U64
  }

  lemma TimeRoundTrip(timestamp: uint64, base: uint64)
    ensures Wrap(base, TimeDelta(timestamp, base)) == timestamp
  {
  }

  function ToRecord(base: uint64, baseTimestamp: uint64, e: Entry): Record {
    Record(Wrap(base, e.offsetDelta), Wrap(baseTimestamp, e.timeDelta), e.key, e.value)
  }

  function DecodeRecords(declared: nat, count: nat, base: uint64, baseTimestamp: uint64, data: Buffer)
    : Result<seq<Record>, BatchError>
  {
    if count == 0 then
      if data == [] then Ok([]) else Err(TrailingRecordData(declared, |data|))
    else
      match DecodeEntry(data)
      case Err(e) => Err(e)
      case Ok((entry, rest)) =>
        Prepend([ToRecord(base, baseTimestamp, entry)],
                DecodeRecords(declared, count - 1, base, baseTimestamp, rest))
  }

  function ToRecords(base: uint64, baseTimestamp: uint64, entries: seq<Entry>): (r: seq<Record>)
    ensures |r| == |entries|
    ensures forall i :: 0 <= i < |r| ==> r[i] == ToRecord(base, baseTimestamp, entries[i])
  {
    seq(|entries|, i requires 0 <= i < |entries| => ToRecord(base, baseTimestamp, entries[i]))
  }

  lemma DecodeFirst(declared: nat, count: nat, base: uint64, baseTimestamp: uint64, e: Entry, rest: Buffer)
    requires Fits(e)
    ensures DecodeRecords(declared, count + 1, base, baseTimestamp, EncodeEntry(e) + rest)
            == Prepend([ToRecord(base, baseTimestamp, e)],
                       DecodeRecords(declared, count, base, baseTimestamp, rest))
  {
    DecodeOfEncodeEntry(e, rest);
  }

  lemma ToRecordsFirst(base: uint64, baseTimestamp: uint64, entries: seq<Entry>)
    requires entries != []
    ensures ToRecords(base, baseTimestamp, entries)
            == [ToRecord(base, baseTimestamp, entries[0])] + ToRecords(base, baseTimestamp, entries[1..])
  {
  }

  lemma {:induction false} DecodeOfEncodeEntries(declared: nat, base: uint64, baseTimestamp: uint64, entries: seq<Entry>)
    requires forall i :: 0 <= i < |entries| ==> Fits(entries[i])
    ensures DecodeRecords(declared, |entries|, base, baseTimestamp, EncodeEntries(entries))
            == Ok(ToRecords(base, baseTimestamp, entries))
  {
    if entries != [] {
      DecodeFirst(declared, |entries| - 1, base, baseTimestamp, entries[0], EncodeEntries(entries[1..]));
      ToRecordsFirst(base, baseTimestamp, entries);
      DecodeOfEncodeEntries(declared, base, baseTimestamp, entries[1..]);
    }
  }

  function Prepend(done: seq<Record>, r: Result<seq<Record>, BatchError>): Result<seq<Record>, BatchError> {
    if r.Ok? then Ok(done + r.value) else r
  }

  lemma PrependStep(done: seq<Record>, record: Record, r: Result<seq<Record>, BatchError>)
    ensures Prepend(done, Prepend([record], r)) == Prepend(done + [record], r)
    ensures Prepend([], r) == r
  {
    if r.Ok? {
      assert done + ([record] + r.value) == (done + [record]) + r.value;
      assert [] + r.value == r.value;
    }
  }

  /** Decoding is at `cursor` with `left` records to go and `done` behind it. */
  ghost predicate Decoding(whole: Result<seq<Record>, BatchError>, done: seq<Record>,
                           declared: nat, left: nat, base: uint64, baseTimestamp: uint64, cursor: Buffer) {
    whole == Prepend(done, DecodeRecords(declared, left, base, baseTimestamp, cursor))
  }

  lemma DecodingStep(whole: Result<seq<Record>, BatchError>, done: seq<Record>,
                     declared: nat, left: nat, base: uint64, baseTimestamp: uint64, cursor: Buffer)
    requires left > 0 && Decoding(whole, done, declared, left, base, baseTimestamp, cursor)
    ensures match DecodeEntry(cursor)
            case Err(e) => whole == Err(e)
            case Ok((entry, rest)) =>
              Decoding(whole, done + [ToRecord(base, baseTimestamp, entry)],
                       declared, left - 1, base, baseTimestamp, rest)
  {
    var step := DecodeEntry(cursor);
    if step.Ok? {
      PrependStep(done, ToRecord(base, baseTimestamp, step.value.0),
                  DecodeRecords(declared, left - 1, base, baseTimestamp, step.value.1));
    }
  }

  lemma DecodingEnds(whole: Result<seq<Record>, BatchError>, done: seq<Record>,
                     declared: nat, base: uint64, baseTimestamp: uint64, cursor: Buffer)
    requires Decoding(whole, done, declared, 0, base, baseTimestamp, cursor)
    ensures whole == if cursor == [] then Ok(done) else Err(TrailingRecordData(declared, |cursor|))
  {
    assert done + [] == done;
  }

  /** One turn of the loop: the next record, or the error that ends it. */
  method DecodeNext(ghost whole: Result<seq<Record>, BatchError>, before: seq<Record>,
                    ghost declared: nat, ghost left: nat, base: uint64, baseTimestamp: uint64, at: Buffer)
    returns (failed: Option<BatchError>, records: seq<Record>, cursor: Buffer)
    requires left > 0 && Decoding(whole, before, declared, left, base, baseTimestamp, at)
    ensures failed.Some? ==> whole == Err(failed.value)
    ensures failed.None? ==> Decoding(whole, records, declared, left - 1, base, baseTimestamp, cursor)
  {
    DecodingStep(whole, before, declared, left, base, baseTimestamp, at);
    match DecodeEntry(at) {
      case Err(e) => failed, records, cursor := Some(e), before, at;
      case Ok((entry, rest)) =>
        failed, records, cursor := None, before + [ToRecord(base, baseTimestamp, entry)], rest;
    }
  }

  /** The cursor loop over decompressed record data. */
  method DecodeRecordsLoop(count: nat, base: uint64, baseTimestamp: uint64, data: Buffer)
    returns (r: Result<seq<Record>, BatchError>)
    ensures r == DecodeRecords(count, count, base, baseTimestamp, data)
  {
    var cursor := data;
    var records: seq<Record> := [];
    var left := count;
    ghost var whole := DecodeRecords(count, count, base, baseTimestamp, data);
    PrependStep([], Record(0, 0, None, None), whole);
    while left > 0
      invariant Decoding(whole, records, count, left, base, baseTimestamp, cursor)
    {
      var failed;
      failed, records, cursor := DecodeNext(whole, records, count, left, base, baseTimestamp, cursor);
      if failed.Some? {
        return Err(failed.value);
      }
      left := left - 1;
    }
    DecodingEnds(whole, records, count, base, baseTimestamp, cursor);
    r := if cursor != [] then Err(TrailingRecordData(count, |cursor|)) else Ok(records);
  }

  // ---------------------------------------------------------------- building a batch

  function CompressionBits(c: Compression): uint16 {
    match c case Plain => 0 case Lz4 => 1 case Zstd => 2
  }

  function Compress(codecs: Codecs, c: Compression, raw: Buffer): Buffer {
    match c
    case Plain => raw
    case Lz4 => PutLE(|raw|) + codecs.lz4(raw)
    case Zstd => codecs.zstd(raw)
  }

  /** The batch-level fields a caller supplies. */
  datatype Meta = Meta(
    baseOffset: uint64, baseTimestamp: uint64, leaderEpoch: uint32, producerId: uint64,
    producerEpoch: uint16, baseSequence: uint32, transactional: bool, compression: Compression)

  function Seal(crc: Checksum, b: RecordBatch): RecordBatch {
    b.(crc := crc(Body(b)))
  }

  function Assemble(crc: Checksum, codecs: Codecs, m: Meta, raw: Buffer, count: uint32, last: uint32): RecordBatch {
    Seal(crc, Unsealed(codecs, m, raw, count, last))
  }

  /** Entries of a produced batch: record `i` sits `i` after the base offset. */
  function Sequential(m: Meta, records: seq<(uint64, Option<Buffer>, Option<Buffer>)>): (entries: seq<Entry>)
    ensures |entries| == |records|
    ensures forall i :: 0 <= i < |entries| ==>
              entries[i] == Entry(Low32(i), TimeDelta(records[i].0, m.baseTimestamp), records[i].1, records[i].2)
  {
    seq(|records|, i requires 0 <= i < |records| =>
      Entry(Low32(i), TimeDelta(records[i].0, m.baseTimestamp), records[i].1, records[i].2))
  }

  lemma SliceNext<T>(s: seq<T>, i: nat)
    requires i < |s|
    ensures s[..i + 1] == s[..i] + [s[i]]
  {
  }

  lemma EncodedNext(entries: seq<Entry>, i: nat)
    requires i < |entries|
    ensures EncodeEntries(entries[..i + 1]) == EncodeEntries(entries[..i]) + EncodeEntry(entries[i])
  {
    SliceNext(entries, i);
    EncodeEntriesAppend(entries[..i], entries[i]);
  }

  /** The producer's fields, and its transactional mark in bit 3 of the attributes. */
  predicate CarriesProducer(b: RecordBatch, m: Meta) {
    && b.producerId == m.producerId && b.producerEpoch == m.producerEpoch && b.baseSequence == m.baseSequence
    && b.leaderEpoch == m.leaderEpoch && b.baseOffset == m.baseOffset && b.baseTimestamp == m.baseTimestamp
    && (b.attributes / 8 % 2 == 1 <==> m.transactional)
  }

  method WriteSequential(m: Meta, records: seq<(uint64, Option<Buffer>, Option<Buffer>)>) returns (raw: Buffer)
    ensures raw == EncodeEntries(Sequential(m, records))
  {
    raw := [];
    ghost var entries := Sequential(m, records);
    for i := 0 to |records|
      invariant raw == EncodeEntries(entries[..i])
    {
      EncodedNext(entries, i);
      var (timestamp, key, value) := records[i];
      var e := Entry(Low32(i), TimeDelta(timestamp, m.baseTimestamp), key, value);
      assert e == entries[i];
      raw := raw + EncodeEntry(e);
    }
    assert entries[..|records|] == entries;
  }

  method Create(crc: Checksum, codecs: Codecs, m: Meta, records: seq<(uint64, Option<Buffer>, Option<Buffer>)>)
    returns (b: RecordBatch)
    ensures Stores(codecs, b, m.compression, Sequential(m, records))
    ensures CarriesProducer(b, m) && b.crc == crc(Body(b))
    ensures b.lastOffsetDelta == if b.recordCount == 0 then 0 else b.recordCount - 1
  {
    var raw := WriteSequential(m, records);
    var count := Low32(|records|);
    b := Assemble(crc, codecs, m, raw, count, if count == 0 then 0 else count - 1);
    AssembleStores(crc, codecs, m, Sequential(m, records), if count == 0 then 0 else count - 1);
  }

  // ---------------------------------------------------------------- reading a batch

  function Decompress(codecs: Codecs, bits: nat, data: Buffer): Result<Buffer, BatchError> {
    if bits == 0 then Ok(data)
    else if bits == 1 then
      if |data| < 4 then Err(TruncatedRecord)
      else if ValueLE(data[..4]) > MAX_BYTES then Err(LimitExceeded)
      else
        match codecs.unlz4(data)
        case None => Err(BadCompressedData)
        case Some(raw) => Ok(raw)
    else if bits == 2 then
      match codecs.unzstd(data)
      case None => Err(BadCompressedData)
      case Some(raw) => if |raw| > MAX_BYTES then Err(LimitExceeded) else Ok(raw)
    else Err(InvalidCompressionCodec(bits))
  }

  function ReadRecords(codecs: Codecs, b: RecordBatch): Result<seq<Record>, BatchError> {
    if |b.recordData| > MAX_BYTES then Err(LimitExceeded)
    else
      match Decompress(codecs, b.attributes % 8, b.recordData)
      case Err(e) => Err(e)
      case Ok(raw) => ReadRaw(b.recordCount, b.baseOffset, b.baseTimestamp, raw)
  }

  function ReadRaw(count: nat, base: uint64, baseTimestamp: uint64, raw: Buffer)
    : Result<seq<Record>, BatchError>
  {
    if ENTRY_MIN * count > |raw| then Err(TruncatedRecord)
    else if count > MAX_RECORDS then Err(LimitExceeded)
    else DecodeRecords(count, count, base, baseTimestamp, raw)
  }

  lemma ReadRawOfEntries(base: uint64, baseTimestamp: uint64, entries: seq<Entry>)
    requires |EncodeEntries(entries)| <= MAX_BYTES
    ensures var r := ReadRaw(Low32(|entries|), base, baseTimestamp, EncodeEntries(entries));
            r == if |entries| <= MAX_RECORDS then Ok(ToRecords(base, baseTimestamp, entries))
                 else Err(LimitExceeded)
  {
    EncodeEntriesSize(entries);
    assert Low32(|entries|) == |entries|;
    if |entries| <= MAX_RECORDS {
      DecodeOfEncodeEntries(|entries|, base, baseTimestamp, entries);
    }
  }

  lemma LittleEndianRoundTrip(v: nat, rest: Buffer)
    requires v < U32
    ensures ValueLE((PutLE(v) + rest)[..4]) == v
  {
    var a := v / 256;
    var b := a / 256;
    assert v == 256 * a + v % 256 && a == 256 * b + a % 256 && b == 256 * (b / 256) + b % 256;
    assert b / 256 < 256;
    assert (PutLE(v) + rest)[..4] == PutLE(v);
  }

  /** Decompression undoes compression exactly up to the size limit. */
  lemma DecompressOfCompress(codecs: Codecs, c: Compression, raw: Buffer)
    requires Lawful(codecs) && (c == Lz4 ==> |raw| < U32)
    ensures var r := Decompress(codecs, CompressionBits(c), Compress(codecs, c, raw));
            && (c == Plain || |raw| <= MAX_BYTES ==> r == Ok(raw))
            && (c != Plain && |raw| > MAX_BYTES ==> r == Err(LimitExceeded))
  {
    match c {
      case Plain =>
      case Lz4 => LittleEndianRoundTrip(|raw|, codecs.lz4(raw));
      case Zstd => assert codecs.unzstd(codecs.zstd(raw)) == Some(raw);
    }
  }

  predicate WithinLimits(codecs: Codecs, c: Compression, entries: seq<Entry>) {
    && |EncodeEntries(entries)| <= MAX_BYTES
    && |Compress(codecs, c, EncodeEntries(entries))| <= MAX_BYTES
    && |entries| <= MAX_RECORDS
  }

  predicate Stores(codecs: Codecs, b: RecordBatch, c: Compression, entries: seq<Entry>) {
    && b.recordData == Compress(codecs, c, EncodeEntries(entries))
    && b.attributes % 8 == CompressionBits(c)
    && b.recordCount == Low32(|entries|)
  }

  /**
   A batch that stores entries reads back as those entries exactly when its raw and stored
   data stay within 64 MiB and it holds at most 100,000 records.
   */
  lemma ReadOfStored(codecs: Codecs, b: RecordBatch, c: Compression, entries: seq<Entry>)
    requires Lawful(codecs) && (c == Lz4 ==> |EncodeEntries(entries)| < U32)
    requires Stores(codecs, b, c, entries)
    ensures ReadRecords(codecs, b).Ok? <==> WithinLimits(codecs, c, entries)
    ensures ReadRecords(codecs, b).Ok? ==>
              ReadRecords(codecs, b).value == ToRecords(b.baseOffset, b.baseTimestamp, entries)
  {
    var raw := EncodeEntries(entries);
    DecompressOfCompress(codecs, c, raw);
    if |raw| <= MAX_BYTES {
      ReadRawOfEntries(b.baseOffset, b.baseTimestamp, entries);
    }
  }

  /** The checksum does not cover itself. */
  lemma SealedBody(crc: Checksum, b: RecordBatch)
    ensures Body(Seal(crc, b)) == Body(b)
  {
  }

  /** Bits 0-2 hold the codec, bit 3 the transactional flag. */
  function Attributes(c: Compression, transactional: bool): uint16 {
    CompressionBits(c) + if transactional then 8 else 0
  }

  lemma AttributesHoldBoth(c: Compression, transactional: bool)
    ensures Attributes(c, transactional) % 8 == CompressionBits(c)
    ensures Attributes(c, transactional) / 8 % 2 == 1 <==> transactional
  {
    match c {
      case Plain => assert 8 % 8 == 0 && 8 / 8 == 1;
      case Lz4 => assert 9 % 8 == 1 && 9 / 8 == 1;
      case Zstd => assert 10 % 8 == 2 && 10 / 8 == 1;
    }
  }

  function Unsealed(codecs: Codecs, m: Meta, raw: Buffer, count: uint32, last: uint32): RecordBatch {
    RecordBatch(0, m.baseOffset, last, m.baseTimestamp, m.producerId, m.producerEpoch,
                m.baseSequence, m.leaderEpoch,
                Attributes(m.compression, m.transactional),
                count, Compress(codecs, m.compression, raw))
  }

  lemma AssembleStores(crc: Checksum, codecs: Codecs, m: Meta, entries: seq<Entry>, last: uint32)
    ensures var b := Assemble(crc, codecs, m, EncodeEntries(entries), Low32(|entries|), last);
            && Stores(codecs, b, m.compression, entries)
            && CarriesProducer(b, m)
            && b.lastOffsetDelta == last
            && b.crc == crc(Body(b))
  {
    AttributesHoldBoth(m.compression, m.transactional);
    SealedBody(crc, Unsealed(codecs, m, EncodeEntries(entries), Low32(|entries|), last));
  }

  /** A produced batch returns its records at consecutive offsets, timestamps untouched. */
  lemma ProducedRecords(m: Meta, records: seq<(uint64, Option<Buffer>, Option<Buffer>)>, i: nat)
    requires i < |records| < U32
    ensures ToRecords(m.baseOffset, m.baseTimestamp, Sequential(m, records))[i]
            == Record(Wrap(m.baseOffset, i), records[i].0, records[i].1, records[i].2)
  {
    TimeRoundTrip(records[i].0, m.baseTimestamp);
  }

  // ---------------------------------------------------------------- explicit offsets

  /** A record to be placed at its own offset. */
  datatype Placed = Placed(offset: uint64, timestamp: uint64, key: Option<Buffer>, value: Option<Buffer>)

  function PlacedEntry(m: Meta, r: Placed): Entry
    requires r.offset >= m.baseOffset
  {
    Entry(Low32(r.offset - m.baseOffset), TimeDelta(r.timestamp, m.baseTimestamp), r.key, r.value)
  }

  /** Records before the base offset are skipped. */
  function Kept(m: Meta, records: seq<Placed>): (r: seq<Placed>)
    ensures forall i :: 0 <= i < |r| ==> r[i].offset >= m.baseOffset
  {
    if records == [] then []
    else
      var last := records[|records| - 1];
      Kept(m, records[..|records| - 1]) + if last.offset >= m.baseOffset then [last] else []
  }

  function PlacedEntries(m: Meta, kept: seq<Placed>): (entries: seq<Entry>)
    requires forall i :: 0 <= i < |kept| ==> kept[i].offset >= m.baseOffset
    ensures |entries| == |kept|
    ensures forall i :: 0 <= i < |entries| ==> entries[i] == PlacedEntry(m, kept[i])
  {
    seq(|kept|, i requires 0 <= i < |kept| => PlacedEntry(m, kept[i]))
  }

  predicate IsHighest(entries: seq<Entry>, last: nat) {
    && (forall i :: 0 <= i < |entries| ==> entries[i].offsetDelta <= last)
    && (if entries == [] then last == 0 else exists i :: 0 <= i < |entries| && entries[i].offsetDelta == last)
  }

  lemma KeptStep(m: Meta, records: seq<Placed>, i: nat)
    requires i < |records|
    ensures Kept(m, records[..i + 1])
            == if records[i].offset >= m.baseOffset then Kept(m, records[..i]) + [records[i]]
               else Kept(m, records[..i])
  {
    assert records[..i + 1][..i] == records[..i];
  }

  lemma PlacedEntriesAppend(m: Meta, kept: seq<Placed>, r: Placed)
    requires r.offset >= m.baseOffset && forall i :: 0 <= i < |kept| ==> kept[i].offset >= m.baseOffset
    ensures PlacedEntries(m, kept + [r]) == PlacedEntries(m, kept) + [PlacedEntry(m, r)]
  {
  }

  /** `raw`, `count` and `last` describe the placed entries of `records`. */
  ghost predicate Writes(m: Meta, records: seq<Placed>, raw: Buffer, count: nat, last: nat) {
    var entries := PlacedEntries(m, Kept(m, records));
    raw == EncodeEntries(entries) && count == |entries| && IsHighest(entries, last)
  }

  lemma WritesOneMore(m: Meta, records: seq<Placed>, i: nat, raw: Buffer, count: nat, last: nat)
    requires i < |records| && Writes(m, records[..i], raw, count, last)
    ensures records[i].offset < m.baseOffset ==> Writes(m, records[..i + 1], raw, count, last)
    ensures records[i].offset >= m.baseOffset ==>
              var e := PlacedEntry(m, records[i]);
              Writes(m, records[..i + 1], raw + EncodeEntry(e), count + 1,
                     if e.offsetDelta > last then e.offsetDelta else last)
  {
    KeptStep(m, records, i);
    if records[i].offset >= m.baseOffset {
      var entries, e := PlacedEntries(m, Kept(m, records[..i])), PlacedEntry(m, records[i]);
      PlacedEntriesAppend(m, Kept(m, records[..i]), records[i]);
      EncodeEntriesAppend(entries, e);
      HighestGrows(entries, last, e);
    }
  }

  method WritePlaced(m: Meta, records: seq<Placed>) returns (raw: Buffer, count: nat, last: uint32)
    ensures Writes(m, records, raw, count, last)
  {
    raw, count, last := [], 0, 0;
    for i := 0 to |records|
      invariant Writes(m, records[..i], raw, count, last)
    {
      WritesOneMore(m, records, i, raw, count, last);
      if records[i].offset >= m.baseOffset {
        var e := PlacedEntry(m, records[i]);
        raw := raw + EncodeEntry(e);
        count := count + 1;
        last := if e.offsetDelta > last then e.offsetDelta else last;
      }
    }
    assert records[..|records|] == records;
  }

  method CreateWithOffsets(crc: Checksum, codecs: Codecs, m: Meta, records: seq<Placed>)
    returns (b: RecordBatch)
    ensures Stores(codecs, b, m.compression, PlacedEntries(m, Kept(m, records)))
    ensures CarriesProducer(b, m) && b.crc == crc(Body(b))
    ensures IsHighest(PlacedEntries(m, Kept(m, records)), b.lastOffsetDelta)
  {
    var raw, count, last := WritePlaced(m, records);
    b := Assemble(crc, codecs, m, raw, Low32(count), last);
    AssembleStores(crc, codecs, m, PlacedEntries(m, Kept(m, records)), last);
  }

  lemma HighestGrows(entries: seq<Entry>, last: nat, e: Entry)
    requires IsHighest(entries, last)
    ensures IsHighest(entries + [e], if e.offsetDelta > last then e.offsetDelta else last)
  {
    var more := entries + [e];
    assert more[|entries|] == e;
    if entries != [] {
      var i :| 0 <= i < |entries| && entries[i].offsetDelta == last;
      assert more[i] == entries[i];
    }
  }

  /** Gaps survive: every kept record returns at its own offset iff all lie within 2^32 of the base. */
  lemma PlacedOffsetsSurviveIff(m: Meta, kept: seq<Placed>)
    requires forall i :: 0 <= i < |kept| ==> kept[i].offset >= m.baseOffset
    ensures (forall i :: 0 <= i < |kept| ==>
               ToRecords(m.baseOffset, m.baseTimestamp, PlacedEntries(m, kept))[i]
               == Record(kept[i].offset, kept[i].timestamp, kept[i].key, kept[i].value))
            <==> (forall i :: 0 <= i < |kept| ==> kept[i].offset - m.baseOffset < U32)
  {
    forall i | 0 <= i < |kept|
      ensures ToRecords(m.baseOffset, m.baseTimestamp, PlacedEntries(m, kept))[i]
              == Record(kept[i].offset, kept[i].timestamp, kept[i].key, kept[i].value)
              <==> kept[i].offset - m.baseOffset < U32
    {
      TimeRoundTrip(kept[i].timestamp, m.baseTimestamp);
    }
  }

  /** At 2^32 past the base the delta wraps to zero, and the record comes back at the base instead. */
  lemma FarRecordIsMoved(m: Meta, r: Placed)
    requires r.offset == m.baseOffset + U32
    ensures ToRecords(m.baseOffset, m.baseTimestamp, PlacedEntries(m, [r]))[0]
            == Record(m.baseOffset, r.timestamp, r.key, r.value)
  {
    TimeRoundTrip(r.timestamp, m.baseTimestamp);
    assert Low32(U32) == 0;
  }

  // ---------------------------------------------------------------- from producer to consumer

  /** What a consumer makes of bytes off the log: the first batch, and the records in it. */
  function Consume(crc: Checksum, codecs: Codecs, bytes: Buffer): Result<seq<Record>, BatchError> {
    match Decode(crc, bytes)
    case Err(e) => Err(e)
    case Ok((b, _)) => ReadRecords(codecs, b)
  }

  /** The batch decoded off the log carries what its producer gave it. */
  predicate Arrives(crc: Checksum, m: Meta, bytes: Buffer) {
    Decode(crc, bytes).Ok? && CarriesProducer(Decode(crc, bytes).value.0, m)
  }

  /** Any batch that stores these entries, written and read again whatever follows it. */
  lemma StoredIsConsumed(crc: Checksum, codecs: Codecs, b: RecordBatch, c: Compression, entries: seq<Entry>, rest: Buffer)
    requires Lawful(codecs) && (c == Lz4 ==> |EncodeEntries(entries)| < U32)
    requires Stores(codecs, b, c, entries) && Sealed(crc, b)
    ensures var r := Consume(crc, codecs, Encode(b) + rest);
            && (r.Ok? <==> WithinLimits(codecs, c, entries))
            && (r.Ok? ==> r.value == ToRecords(b.baseOffset, b.baseTimestamp, entries))
    ensures Decode(crc, Encode(b) + rest) == Ok((b, |Encode(b)|))
  {
    DecodeOfEncode(crc, b, rest);
    ReadOfStored(codecs, b, c, entries);
  }

  /** The records a producer handed over, at the offsets they got. */
  function Delivered(m: Meta, records: seq<(uint64, Option<Buffer>, Option<Buffer>)>): (r: seq<Record>)
    requires |records| < U32
    ensures |r| == |records|
  {
    seq(|records|, i requires 0 <= i < |records| =>
      Record(Wrap(m.baseOffset, i), records[i].0, records[i].1, records[i].2))
  }

  /**
   Produce to consume, for a batch as `Create` makes one: encoded, followed by anything, decoded
   and read, it gives the producer's records at consecutive offsets, exactly within the limits.
   */
  lemma ProduceToConsume(crc: Checksum, codecs: Codecs, m: Meta, records: seq<(uint64, Option<Buffer>, Option<Buffer>)>,
                         b: RecordBatch, rest: Buffer)
    requires Lawful(codecs) && |records| < U32 && |EncodeEntries(Sequential(m, records))| < U32
    requires Stores(codecs, b, m.compression, Sequential(m, records)) && Sealed(crc, b) && CarriesProducer(b, m)
    ensures Arrives(crc, m, Encode(b) + rest)
    ensures var r := Consume(crc, codecs, Encode(b) + rest);
            && (r.Ok? <==> WithinLimits(codecs, m.compression, Sequential(m, records)))
            && (r.Ok? ==> r.value == Delivered(m, records))
  {
    StoredIsConsumed(crc, codecs, b, m.compression, Sequential(m, records), rest);
    forall i | 0 <= i < |records|
      ensures ToRecords(m.baseOffset, m.baseTimestamp, Sequential(m, records))[i] == Delivered(m, records)[i]
    {
      ProducedRecords(m, records, i);
    }
  }

  /** Records at their own offsets. */
  function AsPlaced(kept: seq<Placed>): (r: seq<Record>)
    ensures |r| == |kept|
  {
    seq(|kept|, i requires 0 <= i < |kept| => Record(kept[i].offset, kept[i].timestamp, kept[i].key, kept[i].value))
  }

  lemma PlacedComeBackIff(m: Meta, kept: seq<Placed>)
    requires forall i :: 0 <= i < |kept| ==> kept[i].offset >= m.baseOffset
    ensures ToRecords(m.baseOffset, m.baseTimestamp, PlacedEntries(m, kept)) == AsPlaced(kept)
       <==> forall i :: 0 <= i < |kept| ==> kept[i].offset - m.baseOffset < U32
  {
    PlacedOffsetsSurviveIff(m, kept);
    var got := ToRecords(m.baseOffset, m.baseTimestamp, PlacedEntries(m, kept));
    assert got == AsPlaced(kept) <==> forall i :: 0 <= i < |kept| ==> got[i] == AsPlaced(kept)[i];
  }

  /** And for one as `CreateWithOffsets` makes it: the kept records, each at its own offset, gaps and all. */
  lemma PlaceToConsume(crc: Checksum, codecs: Codecs, m: Meta, records: seq<Placed>, b: RecordBatch, rest: Buffer)
    requires Lawful(codecs) && |EncodeEntries(PlacedEntries(m, Kept(m, records)))| < U32
    requires Stores(codecs, b, m.compression, PlacedEntries(m, Kept(m, records))) && Sealed(crc, b) && CarriesProducer(b, m)
    ensures Arrives(crc, m, Encode(b) + rest)
    ensures var r, kept := Consume(crc, codecs, Encode(b) + rest), Kept(m, records);
            && (r.Ok? <==> WithinLimits(codecs, m.compression, PlacedEntries(m, kept)))
            && (r.Ok? ==>
                  (r.value == AsPlaced(kept) <==> forall i :: 0 <= i < |kept| ==> kept[i].offset - m.baseOffset < U32))
  {
    StoredIsConsumed(crc, codecs, b, m.compression, PlacedEntries(m, Kept(m, records)), rest);
    PlacedComeBackIff(m, Kept(m, records));
  }

  // ---------------------------------------------------------------- stamping

  /** What the broker assigns on append; record data is not touched. */
  function Stamp(crc: Checksum, b: RecordBatch, baseOffset: uint64, leaderEpoch: uint32): RecordBatch {
    Seal(crc, b.(baseOffset := baseOffset, leaderEpoch := leaderEpoch))
  }

  function Shift(r: Record, oldBase: uint64, newBase: uint64): Record {
    r.(offset := Wrap(newBase, TimeDelta(r.offset, oldBase)))
  }

  function ShiftAll(records: seq<Record>, oldBase: uint64, newBase: uint64): (r: seq<Record>)
    ensures |r| == |records|
    ensures forall i :: 0 <= i < |r| ==> r[i] == Shift(records[i], oldBase, newBase)
  {
    seq(|records|, i requires 0 <= i < |records| => Shift(records[i], oldBase, newBase))
  }

  function ShiftResult(r: Result<seq<Record>, BatchError>, oldBase: uint64, newBase: uint64)
    : Result<seq<Record>, BatchError>
  {
    if r.Ok? then Ok(ShiftAll(r.value, oldBase, newBase)) else r
  }

  lemma ShiftPrepend(e: Entry, r: Result<seq<Record>, BatchError>, base: uint64, base': uint64, baseTimestamp: uint64)
    ensures Prepend([ToRecord(base', baseTimestamp, e)], ShiftResult(r, base, base'))
            == ShiftResult(Prepend([ToRecord(base, baseTimestamp, e)], r), base, base')
  {
    if r.Ok? {
      var first := ToRecord(base, baseTimestamp, e);
      assert ToRecord(base', baseTimestamp, e) == Shift(first, base, base');
      assert ShiftAll([first] + r.value, base, base')
          == [Shift(first, base, base')] + ShiftAll(r.value, base, base');
    }
  }

  lemma {:induction false} DecodeRecordsShifts(
      declared: nat, count: nat, base: uint64, base': uint64, baseTimestamp: uint64, data: Buffer)
    ensures DecodeRecords(declared, count, base', baseTimestamp, data)
            == ShiftResult(DecodeRecords(declared, count, base, baseTimestamp, data), base, base')
  {
    if count > 0 {
      var step := DecodeEntry(data);
      if step.Ok? {
        var tail := DecodeRecords(declared, count - 1, base, baseTimestamp, step.value.1);
        DecodeRecordsShifts(declared, count - 1, base, base', baseTimestamp, step.value.1);
        ShiftPrepend(step.value.0, tail, base, base', baseTimestamp);
      }
    }
  }

  /** Stamping moves every record by the same distance, keeps everything else, and stays sealed. */
  lemma StampShiftsRecords(crc: Checksum, codecs: Codecs, b: RecordBatch, baseOffset: uint64, leaderEpoch: uint32)
    ensures ReadRecords(codecs, Stamp(crc, b, baseOffset, leaderEpoch))
            == ShiftResult(ReadRecords(codecs, b), b.baseOffset, baseOffset)
    ensures COVERED + |b.recordData| < U32 ==> Sealed(crc, Stamp(crc, b, baseOffset, leaderEpoch))
    ensures var after := Stamp(crc, b, baseOffset, leaderEpoch);
            && after.baseOffset == baseOffset && after.leaderEpoch == leaderEpoch && after.crc == crc(Body(after))
            && b == after.(baseOffset := b.baseOffset, leaderEpoch := b.leaderEpoch, crc := b.crc)
  {
    var raw := Decompress(codecs, b.attributes % 8, b.recordData);
    if raw.Ok? {
      DecodeRecordsShifts(b.recordCount, b.recordCount, b.baseOffset, baseOffset, b.baseTimestamp, raw.value);
    }
  }
}
