/**
 The record batch, the log's only entry format: a 53-byte header, then record data. The
 checksum is a parameter of everything that needs one, so each statement holds for every
 checksum function. Signed header fields are kept as the bits they are stored as.
 */
module Batch {
  import opened Wrappers
  import opened Bytes

  const MAGIC: uint8 := 0xC0
  const HEADER_SIZE: nat := 53
  /** The header bytes that the batch-length field counts. */
  const COVERED: nat := 48

  datatype RecordBatch = RecordBatch(
    crc: uint32,
    baseOffset: uint64,
    lastOffsetDelta: uint32,
    baseTimestamp: uint64,
    producerId: uint64,
    producerEpoch: uint16,
    baseSequence: uint32,
    leaderEpoch: uint32,
    attributes: uint16,
    recordCount: uint32,
    recordData: Buffer)

  datatype BatchError =
    | BufferTooShort(required: nat, found: nat)
    | InvalidMagic(magic: uint8)
    | InvalidBatchLength(length: nat)
    | CrcMismatch(expected: uint32, calculated: uint32)
    | InvalidCompressionCodec(bits: nat)
    | TruncatedRecord
    | TrailingRecordData(declared: nat, trailing: nat)
    | LimitExceeded
    | BadCompressedData

  // ---------------------------------------------------------------- encoding

  /** Everything after the checksum, which is also everything the checksum covers. */
  function Body(b: RecordBatch): (s: Buffer)
    ensures |s| == COVERED - 4 + |b.recordData|
  {
    Put(8, b.baseOffset) + (Put(4, b.lastOffsetDelta) + (Put(8, b.baseTimestamp) + (Put(8, b.producerId) +
    (Put(2, b.producerEpoch) + (Put(4, b.baseSequence) + (Put(4, b.leaderEpoch) + (Put(2, b.attributes) +
    (Put(4, b.recordCount) + b.recordData))))))))
  }

  function Encode(b: RecordBatch): (s: Buffer)
    ensures |s| == HEADER_SIZE + |b.recordData|
  {
    [MAGIC] + (Put(4, COVERED + |b.recordData|) + (Put(4, b.crc) + Body(b)))
  }

  /** A batch as the broker writes one: its length fits the field and its checksum is right. */
  predicate Sealed(crc: Checksum, b: RecordBatch) {
    COVERED + |b.recordData| < U32 && b.crc == crc(Body(b))
  }

  // ---------------------------------------------------------------- decoding

  /** The fields after the checksum, off the front of the bytes the length field delimits. */
  function ParseBody(stored: uint32, src: Buffer): RecordBatch
    requires |src| >= COVERED - 4
  {
    Widths();
    var (baseOffset, s1) := Get(8, src);
    var (lastOffsetDelta, s2) := Get(4, s1);
    var (baseTimestamp, s3) := Get(8, s2);
    var (producerId, s4) := Get(8, s3);
    var (producerEpoch, s5) := Get(2, s4);
    var (baseSequence, s6) := Get(4, s5);
    var (leaderEpoch, s7) := Get(4, s6);
    var (attributes, s8) := Get(2, s7);
    var (recordCount, s9) := Get(4, s8);
    PutOfGet(8, src); PutOfGet(4, s1); PutOfGet(8, s2); PutOfGet(8, s3); PutOfGet(2, s4);
    PutOfGet(4, s5); PutOfGet(4, s6); PutOfGet(2, s7); PutOfGet(4, s8);
    RecordBatch(stored, baseOffset, lastOffsetDelta, baseTimestamp, producerId, producerEpoch,
                baseSequence, leaderEpoch, attributes, recordCount, s9)
  }

  function Decode(crc: Checksum, src: Buffer): Result<(RecordBatch, nat), BatchError> {
    if |src| < 5 then Err(BufferTooShort(5, |src|))
    else if src[0] != MAGIC then Err(InvalidMagic(src[0]))
    else
      var length := Value(src[1..5]);
      if length < COVERED then Err(InvalidBatchLength(length))
      else if |src| - 5 < length then Err(BufferTooShort(length, |src| - 5))
      else
        Widths();
        ValueBound(src[5..9]);
        var b := ParseBody(Value(src[5..9]), src[9..5 + length]);
        if crc(Body(b)) != b.crc then Err(CrcMismatch(b.crc, crc(Body(b)))) else Ok((b, 5 + length))
  }

  /** Parsing what `Body` wrote gives the fields back. */
  lemma ParseOfBody(b: RecordBatch)
    ensures ParseBody(b.crc, Body(b)) == b
  {
    Widths();
    var s9 := b.recordData;
    var s8 := Put(4, b.recordCount) + s9;
    var s7 := Put(2, b.attributes) + s8;
    var s6 := Put(4, b.leaderEpoch) + s7;
    var s5 := Put(4, b.baseSequence) + s6;
    var s4 := Put(2, b.producerEpoch) + s5;
    var s3 := Put(8, b.producerId) + s4;
    var s2 := Put(8, b.baseTimestamp) + s3;
    var s1 := Put(4, b.lastOffsetDelta) + s2;
    GetOfPut(8, b.baseOffset, s1);
    GetOfPut(4, b.lastOffsetDelta, s2);
    GetOfPut(8, b.baseTimestamp, s3);
    GetOfPut(8, b.producerId, s4);
    GetOfPut(2, b.producerEpoch, s5);
    GetOfPut(4, b.baseSequence, s6);
    GetOfPut(4, b.leaderEpoch, s7);
    GetOfPut(2, b.attributes, s8);
    GetOfPut(4, b.recordCount, s9);
  }

  /** And `Body` writes back exactly the bytes that were parsed. */
  lemma BodyOfParse(stored: uint32, src: Buffer)
    requires |src| >= COVERED - 4
    ensures Body(ParseBody(stored, src)) == src
  {
    var s1 := Get(8, src).1;
    var s2 := Get(4, s1).1;
    var s3 := Get(8, s2).1;
    var s4 := Get(8, s3).1;
    var s5 := Get(2, s4).1;
    var s6 := Get(4, s5).1;
    var s7 := Get(4, s6).1;
    var s8 := Get(2, s7).1;
    PutOfGet(8, src);
    PutOfGet(4, s1);
    PutOfGet(8, s2);
    PutOfGet(8, s3);
    PutOfGet(2, s4);
    PutOfGet(4, s5);
    PutOfGet(4, s6);
    PutOfGet(2, s7);
    PutOfGet(4, s8);
  }

  /** Where the three leading fields of an encoding sit. */
  lemma EncodingLayout(b: RecordBatch, rest: Buffer)
    requires COVERED + |b.recordData| < U32
    ensures var src := Encode(b) + rest;
            && src[0] == MAGIC
            && Value(src[1..5]) == COVERED + |b.recordData|
            && Value(src[5..9]) == b.crc
            && src[9..|Encode(b)|] == Body(b)
  {
    Widths();
    var src := Encode(b) + rest;
    ValueOfPut(4, COVERED + |b.recordData|);
    ValueOfPut(4, b.crc);
    assert src[1..5] == Put(4, COVERED + |b.recordData|);
    assert src[5..9] == Put(4, b.crc);
    assert src[9..|Encode(b)|] == Body(b);
  }

  /** Whatever follows it, a sealed batch is read back whole. */
  lemma DecodeOfEncode(crc: Checksum, b: RecordBatch, rest: Buffer)
    requires Sealed(crc, b)
    ensures Decode(crc, Encode(b) + rest) == Ok((b, |Encode(b)|))
  {
    EncodingLayout(b, rest);
    ParseOfBody(b);
  }

  /** The checksum covers every field but itself. */
  lemma BodySeparates(b: RecordBatch, d: RecordBatch)
    ensures Body(b) == Body(d) <==> b == d.(crc := b.crc)
  {
    ParseOfBody(b);
    ParseOfBody(d.(crc := b.crc));
    assert Body(d.(crc := b.crc)) == Body(d);
  }

  /** A batch is read iff the checksum stored is that of its other fields; any other is reported with both. */
  lemma StoredSumDecides(crc: Checksum, b: RecordBatch, rest: Buffer)
    requires COVERED + |b.recordData| < U32
    ensures Decode(crc, Encode(b) + rest)
         == if b.crc == crc(Body(b)) then Ok((b, |Encode(b)|)) else Err(CrcMismatch(b.crc, crc(Body(b))))
  {
    EncodingLayout(b, rest);
    ParseOfBody(b);
  }

  /** Damage to any other field of a stored batch, its length kept: refused by every checksum that tells the two apart. */
  lemma DamagedBatchIsRefused(crc: Checksum, b: RecordBatch, d: RecordBatch, rest: Buffer)
    requires Sealed(crc, b) && d.crc == b.crc && |d.recordData| == |b.recordData| && b != d
    ensures Body(b) != Body(d)
    ensures Decode(crc, Encode(d) + rest).Err? <==> crc(Body(d)) != crc(Body(b))
  {
    BodySeparates(b, d);
    StoredSumDecides(crc, d, rest);
  }

  lemma FourParts(src: Buffer, used: nat)
    requires 9 <= used <= |src|
    ensures src[..used] == [src[0]] + (src[1..5] + (src[5..9] + src[9..used]))
  {
  }

  /** Whenever decoding succeeds, re-encoding reproduces exactly the bytes consumed. */
  lemma EncodeOfDecode(crc: Checksum, src: Buffer)
    requires Decode(crc, src).Ok?
    ensures var (b, used) := Decode(crc, src).value;
            HEADER_SIZE <= used <= |src| && Encode(b) == src[..used] && Sealed(crc, b)
  {
    Widths();
    var (b, used) := Decode(crc, src).value;
    ValueBound(src[1..5]);
    BodyOfParse(b.crc, src[9..used]);
    PutOfValue(src[1..5]);
    PutOfValue(src[5..9]);
    FourParts(src, used);
  }

  /** Bytes that arrive later never change a verdict that was not "too short". */
  lemma DecodeIsStable(crc: Checksum, src: Buffer, more: Buffer)
    requires Decode(crc, src).Err? ==> !Decode(crc, src).error.BufferTooShort?
    ensures Decode(crc, src + more) == Decode(crc, src)
  {
    if |src| >= 5 {
      assert (src + more)[1..5] == src[1..5];
      var length := Value(src[1..5]);
      if COVERED <= length <= |src| - 5 {
        assert (src + more)[5..9] == src[5..9];
        assert (src + more)[9..5 + length] == src[9..5 + length];
      }
    }
  }

  /** Every proper prefix of an entry is "too short", never corrupt and never an entry. */
  lemma PrefixIsTooShort(crc: Checksum, src: Buffer, k: nat)
    requires Decode(crc, src).Ok? && k < Decode(crc, src).value.1
    ensures Decode(crc, src[..k]).Err? && Decode(crc, src[..k]).error.BufferTooShort?
  {
    if k >= 5 {
      assert src[..k][1..5] == src[1..5];
    }
  }

  // ---------------------------------------------------------------- streams of batches

  function EncodeAll(batches: seq<RecordBatch>): Buffer {
    if batches == [] then [] else Encode(batches[0]) + EncodeAll(batches[1..])
  }

  function DecodeAll(crc: Checksum, src: Buffer): Result<seq<RecordBatch>, BatchError>
    decreases |src|
  {
    if src == [] then Ok([])
    else
      match Decode(crc, src)
      case Err(e) => Err(e)
      case Ok((b, used)) =>
        EncodeOfDecode(crc, src);
        match DecodeAll(crc, src[used..])
        case Err(e) => Err(e)
        case Ok(rest) => Ok([b] + rest)
  }

  predicate AllSealed(crc: Checksum, batches: seq<RecordBatch>) {
    forall i :: 0 <= i < |batches| ==> Sealed(crc, batches[i])
  }

  /** Any concatenation of sealed batches decodes back to the same batches. */
  lemma {:induction false} StreamRoundTrip(crc: Checksum, batches: seq<RecordBatch>)
    requires AllSealed(crc, batches)
    ensures DecodeAll(crc, EncodeAll(batches)) == Ok(batches)
  {
    if batches != [] {
      var b, rest := batches[0], EncodeAll(batches[1..]);
      StreamRoundTrip(crc, batches[1..]);
      DecodeOfEncode(crc, b, rest);
      assert (Encode(b) + rest)[|Encode(b)|..] == rest;
      assert batches == [b] + batches[1..];
    }
  }

  /** And a stream that decodes is the encoding of what it decodes to, byte for byte. */
  lemma {:induction false} StreamIsCanonical(crc: Checksum, src: Buffer)
    requires DecodeAll(crc, src).Ok?
    ensures EncodeAll(DecodeAll(crc, src).value) == src && AllSealed(crc, DecodeAll(crc, src).value)
    decreases |src|
  {
    if src != [] {
      EncodeOfDecode(crc, src);
      var (b, used) := Decode(crc, src).value;
      StreamIsCanonical(crc, src[used..]);
      var rest := DecodeAll(crc, src[used..]).value;
      assert ([b] + rest)[1..] == rest;
      assert src == src[..used] + src[used..];
    }
  }
}
