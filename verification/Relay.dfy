/**
 Forwarding a request to another broker and relaying its response. A request is bare or
 wrapped in an envelope of tagged fields; forwarding rewraps it, and the claim is that the
 receiver reads the same request. Strings are UTF-8 bytes, `utf8` is the validity test, and
 `parse` stands for the per-command payload decoders.
 */
module Relay {
  import opened Bytes
  import opened Text
  import opened Wrappers

  const ENVELOPE_MAGIC: uint8 := 0xF1
  const VERSION_MIN: nat := 1
  const VERSION_MAX: nat := 1
  const MAX_PAYLOAD: nat := 64 * 1024 * 1024

  const ISOLATION_LEVEL: uint8 := 0x01
  const FORWARDED: uint8 := 0x02
  const SESSION_TIMEOUT_MS: uint8 := 0x03
  const GROUP_MEMBER: uint8 := 0x04
  const MAX_WAIT_MS: uint8 := 0x05
  const MIN_BYTES: uint8 := 0x06
  const COOPERATIVE_ROUND_TWO: uint8 := 0x07

  datatype WireError =
    | Incomplete(needed: nat, available: nat)
    | UnsupportedVersion(requested: nat)
    | UnknownCommand(code: uint8)
    | TooLarge(length: nat)
    | BadPayload

  datatype Isolation = ReadUncommitted | ReadCommitted

  datatype Tags = Tags(isolation: Option<Isolation>, forwarded: bool, sessionTimeout: Option<uint32>,
                       groupMember: Option<(Buffer, Buffer)>, maxWait: Option<uint32>,
                       minBytes: Option<uint32>, roundTwo: bool)

  const NO_TAGS: Tags := Tags(None, false, None, None, None, None, false)

  datatype Framing = Legacy | Versioned(apiVersion: nat, correlationId: nat, tags: Tags)

  function TagsOf(f: Framing): Tags {
    if f.Legacy? then NO_TAGS else f.tags
  }

  // ---------------------------------------------------------------- values

  function IsolationByte(i: Isolation): uint8 {
    if i == ReadCommitted then 1 else 0
  }

  function IsolationOf(b: uint8): Isolation {
    if b == 1 then ReadCommitted else ReadUncommitted
  }

  function Number(value: Buffer): uint32
    requires |value| >= 4
  {
    Widths();
    ValueBound(value[..4]);
    Value(value[..4])
  }

  /** Two strings; anything after them is ignored, anything less is no value at all. */
  function TakeMember(utf8: TextTest, value: Buffer): Option<(Buffer, Buffer)> {
    match TakeText(utf8, value)
    case Text(group, rest) =>
      (match TakeText(utf8, rest)
       case Text(member, _) => Some((group, member))
       case _ => None)
    case _ => None
  }

  // ---------------------------------------------------------------- tagged fields

  type TagReader = (Tags, uint8, Buffer) -> Tags

  /** What the relaying broker keeps of a field. */
  function KeepTag(utf8: TextTest, tags: Tags, tag: uint8, value: Buffer): Tags {
    if tag == ISOLATION_LEVEL && |value| >= 1 then tags.(isolation := Some(IsolationOf(value[0])))
    else if tag == FORWARDED then tags.(forwarded := true)
    else if tag == SESSION_TIMEOUT_MS && |value| >= 4 then tags.(sessionTimeout := Some(Number(value)))
    else if tag == GROUP_MEMBER then
      match TakeMember(utf8, value)
      case Some(m) => tags.(groupMember := Some(m))
      case None => tags
    else tags
  }

  /** What the serving broker understands of a field. */
  function UnderstandTag(utf8: TextTest, tags: Tags, tag: uint8, value: Buffer): Tags {
    if tag == COOPERATIVE_ROUND_TWO then tags.(roundTwo := true)
    else if tag == MAX_WAIT_MS && |value| >= 4 then tags.(maxWait := Some(Number(value)))
    else if tag == MIN_BYTES && |value| >= 4 then tags.(minBytes := Some(Number(value)))
    else KeepTag(utf8, tags, tag, value)
  }

  function Keeper(utf8: TextTest): TagReader {
    (tags: Tags, tag: uint8, value: Buffer) => KeepTag(utf8, tags, tag, value)
  }

  function Understander(utf8: TextTest): TagReader {
    (tags: Tags, tag: uint8, value: Buffer) => UnderstandTag(utf8, tags, tag, value)
  }

  /** A number of fields off the front of a buffer, later ones overriding earlier ones. */
  function ReadTags(read: TagReader, count: nat, src: Buffer, tags: Tags): Result<(Tags, Buffer), WireError> {
    if count == 0 then Ok((tags, src))
    else if |src| < 3 then Err(Incomplete(3, |src|))
    else
      var (len, rest) := Get(2, src[1..]);
      if |rest| < len then Err(Incomplete(len, |rest|))
      else ReadTags(read, count - 1, rest[len..], read(tags, src[0], rest[..len]))
  }

  method ReadTagSection(read: TagReader, count: nat, src: Buffer) returns (r: Result<(Tags, Buffer), WireError>)
    ensures r == ReadTags(read, count, src, NO_TAGS)
  {
    var cursor, tags := src, NO_TAGS;
    for i := 0 to count
      invariant ReadTags(read, count, src, NO_TAGS) == ReadTags(read, count - i, cursor, tags)
    {
      if |cursor| < 3 {
        return Err(Incomplete(3, |cursor|));
      }
      var tag := cursor[0];
      var (len, rest) := Get(2, cursor[1..]);
      if |rest| < len {
        return Err(Incomplete(len, |rest|));
      }
      tags := read(tags, tag, rest[..len]);
      cursor := rest[len..];
    }
    r := Ok((tags, cursor));
  }

  /** What the relay forgets: it has no place for these three. */
  function Forget(t: Tags): Tags {
    t.(maxWait := None, minBytes := None, roundTwo := false)
  }

  /** Both readers run over the same bytes and differ exactly in what the relay forgets. */
  lemma {:induction false} KeptIsUnderstood(utf8: TextTest, count: nat, src: Buffer, tags: Tags)
    ensures ReadTags(Keeper(utf8), count, src, Forget(tags)) ==
            match ReadTags(Understander(utf8), count, src, tags)
            case Err(e) => Err(e)
            case Ok((t, rest)) => Ok((Forget(t), rest))
    decreases count
  {
    if count > 0 && |src| >= 3 {
      var (len, rest) := Get(2, src[1..]);
      if len <= |rest| {
        var value := rest[..len];
        assert KeepTag(utf8, Forget(tags), src[0], value) == Forget(UnderstandTag(utf8, tags, src[0], value));
        KeptIsUnderstood(utf8, count - 1, rest[len..], UnderstandTag(utf8, tags, src[0], value));
      }
    }
  }

  datatype Field = Field(tag: uint8, value: Buffer)

  function PutField(f: Field): Buffer {
    [f.tag] + (Put(2, |f.value|) + f.value)
  }

  function PutFields(fields: seq<Field>): Buffer {
    if fields == [] then [] else PutField(fields[0]) + PutFields(fields[1..])
  }

  function FoldFields(read: TagReader, tags: Tags, fields: seq<Field>): Tags
    decreases |fields|
  {
    if fields == [] then tags else FoldFields(read, read(tags, fields[0].tag, fields[0].value), fields[1..])
  }

  predicate FieldsFit(fields: seq<Field>) {
    forall i :: 0 <= i < |fields| ==> |fields[i].value| < U16
  }

  lemma TakeField(f: Field, rest: Buffer)
    requires |f.value| < U16
    ensures |PutField(f) + rest| >= 3 && (PutField(f) + rest)[0] == f.tag
    ensures Get(2, (PutField(f) + rest)[1..]) == (|f.value|, f.value + rest)
  {
    Widths();
    assert (PutField(f) + rest)[1..] == Put(2, |f.value|) + (f.value + rest);
    GetOfPut(2, |f.value|, f.value + rest);
  }

  /** Fields written are the fields read. */
  lemma {:induction false} ReadOfPutFields(read: TagReader, fields: seq<Field>, rest: Buffer, tags: Tags)
    requires FieldsFit(fields)
    ensures ReadTags(read, |fields|, PutFields(fields) + rest, tags) == Ok((FoldFields(read, tags, fields), rest))
    decreases |fields|
  {
    if fields == [] {
      assert PutFields(fields) + rest == rest;
    } else {
      var f, after := fields[0], PutFields(fields[1..]) + rest;
      assert PutFields(fields) + rest == PutField(f) + after;
      TakeField(f, after);
      assert (f.value + after)[..|f.value|] == f.value && (f.value + after)[|f.value|..] == after;
      ReadOfPutFields(read, fields[1..], rest, read(tags, f.tag, f.value));
    }
  }

  lemma {:induction false} FoldAppend(read: TagReader, tags: Tags, a: seq<Field>, b: seq<Field>)
    ensures FoldFields(read, tags, a + b) == FoldFields(read, FoldFields(read, tags, a), b)
    decreases |a|
  {
    if a == [] {
      assert a + b == b;
    } else {
      assert (a + b)[0] == a[0] && (a + b)[1..] == a[1..] + b;
      FoldAppend(read, read(tags, a[0].tag, a[0].value), a[1..], b);
    }
  }

  function PutMember(m: (Buffer, Buffer)): Buffer {
    PutText(m.0) + PutText(m.1)
  }

  lemma TakeOfPutMember(utf8: TextTest, m: (Buffer, Buffer))
    requires utf8(m.0) && utf8(m.1) && |PutMember(m)| < U16
    ensures TakeMember(utf8, PutMember(m)) == Some(m)
  {
    TakeOfPut(utf8, m.0, PutText(m.1));
    assert PutText(m.1) == PutText(m.1) + [];
    TakeOfPut(utf8, m.1, []);
  }

  lemma NumberOfPut(v: uint32)
    ensures Number(Put(4, v)) == v
  {
    Widths();
    ValueOfPut(4, v);
    assert Put(4, v)[..4] == Put(4, v);
  }

  // ---------------------------------------------------------------- the fields of a rewrapped request

  function NumberField(tag: uint8, v: Option<uint32>): seq<Field> {
    if v.Some? then [Field(tag, Put(4, v.value))] else []
  }

  function FlagField(tag: uint8, on: bool): seq<Field> {
    if on then [Field(tag, [])] else []
  }

  function IsolationField(i: Option<Isolation>): seq<Field> {
    if i.Some? then [Field(ISOLATION_LEVEL, [IsolationByte(i.value)])] else []
  }

  function MemberField(m: Option<(Buffer, Buffer)>): seq<Field> {
    if m.Some? then [Field(GROUP_MEMBER, PutMember(m.value))] else []
  }

  function TimingFields(t: Tags): seq<Field> {
    NumberField(SESSION_TIMEOUT_MS, t.sessionTimeout) + (NumberField(MAX_WAIT_MS, t.maxWait) + NumberField(MIN_BYTES, t.minBytes))
  }

  function GroupFields(t: Tags): seq<Field> {
    FlagField(COOPERATIVE_ROUND_TWO, t.roundTwo) + MemberField(t.groupMember)
  }

  /** Always marked as forwarded, then every tag that is set, in a fixed order. */
  function FieldsOf(t: Tags): (fields: seq<Field>)
    ensures 1 <= |fields| <= 7
  {
    [Field(FORWARDED, [])] + IsolationField(t.isolation) + (TimingFields(t) + GroupFields(t))
  }

  /** A member tag that came out of an envelope still fits into one. */
  predicate Writable(utf8: TextTest, t: Tags) {
    t.groupMember.Some? ==>
      utf8(t.groupMember.value.0) && utf8(t.groupMember.value.1) && |PutMember(t.groupMember.value)| < U16
  }

  lemma FieldsOfFit(utf8: TextTest, t: Tags)
    requires Writable(utf8, t)
    ensures FieldsFit(FieldsOf(t))
  {
  }

  lemma FoldTiming(utf8: TextTest, tags: Tags, t: Tags)
    requires tags.sessionTimeout.None? && tags.maxWait.None? && tags.minBytes.None?
    ensures FoldFields(Understander(utf8), tags, TimingFields(t))
         == tags.(sessionTimeout := t.sessionTimeout, maxWait := t.maxWait, minBytes := t.minBytes)
  {
    var read := Understander(utf8);
    var a, b, c := NumberField(SESSION_TIMEOUT_MS, t.sessionTimeout), NumberField(MAX_WAIT_MS, t.maxWait), NumberField(MIN_BYTES, t.minBytes);
    FoldAppend(read, tags, a, b + c);
    FoldAppend(read, FoldFields(read, tags, a), b, c);
    if t.sessionTimeout.Some? {
      NumberOfPut(t.sessionTimeout.value);
    }
    if t.maxWait.Some? {
      NumberOfPut(t.maxWait.value);
    }
    if t.minBytes.Some? {
      NumberOfPut(t.minBytes.value);
    }
  }

  lemma FoldGroup(utf8: TextTest, tags: Tags, t: Tags)
    requires Writable(utf8, t) && tags.groupMember.None? && !tags.roundTwo
    ensures FoldFields(Understander(utf8), tags, GroupFields(t))
         == tags.(roundTwo := t.roundTwo, groupMember := t.groupMember)
  {
    FoldAppend(Understander(utf8), tags, FlagField(COOPERATIVE_ROUND_TWO, t.roundTwo), MemberField(t.groupMember));
    if t.groupMember.Some? {
      TakeOfPutMember(utf8, t.groupMember.value);
    }
  }

  lemma FoldMarks(utf8: TextTest, t: Tags)
    ensures FoldFields(Understander(utf8), NO_TAGS, [Field(FORWARDED, [])] + IsolationField(t.isolation))
         == NO_TAGS.(forwarded := true, isolation := t.isolation)
  {
    FoldAppend(Understander(utf8), NO_TAGS, [Field(FORWARDED, [])], IsolationField(t.isolation));
  }

  /** The serving broker reads back every tag that was written, and the forwarded mark. */
  lemma UnderstoodAsWritten(utf8: TextTest, t: Tags)
    requires Writable(utf8, t)
    ensures FoldFields(Understander(utf8), NO_TAGS, FieldsOf(t)) == t.(forwarded := true)
  {
    var read := Understander(utf8);
    var marks := [Field(FORWARDED, [])] + IsolationField(t.isolation);
    FoldAppend(read, NO_TAGS, marks, TimingFields(t) + GroupFields(t));
    FoldMarks(utf8, t);
    var one := FoldFields(read, NO_TAGS, marks);
    FoldAppend(read, one, TimingFields(t), GroupFields(t));
    FoldTiming(utf8, one, t);
    FoldGroup(utf8, FoldFields(read, one, TimingFields(t)), t);
  }

  // ---------------------------------------------------------------- requests

  function Header(correlationId: uint32, count: uint8): Buffer {
    [ENVELOPE_MAGIC] + (Put(2, VERSION_MAX) + (Put(4, correlationId) + [count]))
  }

  /** What is left is the end of what there was: no byte of the request is touched. */
  predicate Suffix(rest: Buffer, src: Buffer) {
    |rest| <= |src| && rest == src[|src| - |rest|..]
  }

  lemma {:induction false} ReadTagsLeavesSuffix(read: TagReader, count: nat, src: Buffer, tags: Tags)
    ensures ReadTags(read, count, src, tags).Ok? ==> Suffix(ReadTags(read, count, src, tags).value.1, src)
    decreases count
  {
    if count > 0 && |src| >= 3 {
      var (len, rest) := Get(2, src[1..]);
      if len <= |rest| {
        ReadTagsLeavesSuffix(read, count - 1, rest[len..], read(tags, src[0], rest[..len]));
        assert rest[len..] == src[3 + len..];
      }
    }
  }

  lemma StrippedIsSuffix(utf8: TextTest, raw: Buffer)
    ensures Strip(utf8, raw).Ok? ==> Suffix(Strip(utf8, raw).value.1, raw)
  {
    assert raw[0..] == raw;
    if |raw| >= 8 {
      ReadTagsLeavesSuffix(Keeper(utf8), raw[7], raw[8..], NO_TAGS);
    }
  }

  /** Takes the envelope off, whatever its version; a bare request is left as it is. */
  function Strip(utf8: TextTest, raw: Buffer): Result<(Tags, Buffer), WireError> {
    if raw == [] || raw[0] != ENVELOPE_MAGIC then Ok((NO_TAGS, raw))
    else if |raw| < 8 then Err(Incomplete(8, |raw|))
    else ReadTags(Keeper(utf8), raw[7], raw[8..], NO_TAGS)
  }

  method StripEnvelope(utf8: TextTest, raw: Buffer) returns (r: Result<(Tags, Buffer), WireError>)
    ensures r == Strip(utf8, raw)
    ensures r.Ok? ==> Writable(utf8, r.value.0) && Forget(r.value.0) == r.value.0 && Suffix(r.value.1, raw)
    ensures Unframe(utf8, raw).Ok? ==>
              r == Ok((Forget(TagsOf(Unframe(utf8, raw).value.0)), Unframe(utf8, raw).value.1))
  {
    StrippedIsWritable(utf8, raw);
    StrippedIsSuffix(utf8, raw);
    if Unframe(utf8, raw).Ok? {
      StripOfUnframe(utf8, raw);
    }
    if raw == [] || raw[0] != ENVELOPE_MAGIC {
      return Ok((NO_TAGS, raw));
    }
    if |raw| < 8 {
      return Err(Incomplete(8, |raw|));
    }
    r := ReadTagSection(Keeper(utf8), raw[7], raw[8..]);
  }

  /** The envelope half of decoding: how the request was framed, and where it starts. */
  function Unframe(utf8: TextTest, src: Buffer): Result<(Framing, Buffer), WireError> {
    if src == [] then Err(Incomplete(1, 0))
    else if src[0] != ENVELOPE_MAGIC then Ok((Legacy, src))
    else if |src| < 8 then Err(Incomplete(8, |src|))
    else
      var version, correlationId := Value(src[1..3]), Value(src[3..7]);
      if !(VERSION_MIN <= version <= VERSION_MAX) then Err(UnsupportedVersion(version))
      else
        match ReadTags(Understander(utf8), src[7], src[8..], NO_TAGS)
        case Err(e) => Err(e)
        case Ok((tags, rest)) => Ok((Versioned(version, correlationId, tags), rest))
  }

  method DecodeEnvelope(utf8: TextTest, src: Buffer) returns (r: Result<(Framing, Buffer), WireError>)
    ensures r == Unframe(utf8, src)
    ensures r.Ok? ==> Suffix(r.value.1, src) && (r.value.0.Legacy? <==> src[0] != ENVELOPE_MAGIC)
    ensures r.Ok? && r.value.0.Versioned? ==> r.value.0.apiVersion == 1
    ensures r.Ok? ==> Strip(utf8, src) == Ok((Forget(TagsOf(r.value.0)), r.value.1))
  {
    if Unframe(utf8, src).Ok? {
      StripOfUnframe(utf8, src);
      StrippedIsSuffix(utf8, src);
    }
    if src == [] {
      return Err(Incomplete(1, 0));
    }
    if src[0] != ENVELOPE_MAGIC {
      return Ok((Legacy, src));
    }
    if |src| < 8 {
      return Err(Incomplete(8, |src|));
    }
    var version, correlationId := Value(src[1..3]), Value(src[3..7]);
    if !(VERSION_MIN <= version <= VERSION_MAX) {
      return Err(UnsupportedVersion(version));
    }
    var read := ReadTagSection(Understander(utf8), src[7], src[8..]);
    match read {
      case Err(e) => r := Err(e);
      case Ok((tags, rest)) => r := Ok((Versioned(version, correlationId, tags), rest));
    }
  }

  /** The request itself, and how many bytes it takes up. */
  function DecodeInner<T>(parse: (uint8, Buffer) -> Option<T>, src: Buffer): Result<(T, nat), WireError> {
    if |src| < 5 then Err(Incomplete(5, |src|))
    else if !(0x01 <= src[0] <= 0x2E) then Err(UnknownCommand(src[0]))
    else
      var (length, rest) := Get(4, src[1..]);
      if length > MAX_PAYLOAD then Err(TooLarge(length))
      else if |rest| < length then Err(Incomplete(length, |rest|))
      else
        match parse(src[0], rest[..length])
        case None => Err(BadPayload)
        case Some(request) => Ok((request, 5 + length))
  }

  datatype Decoded<T> = Decoded(request: T, framing: Framing, used: nat)

  function DecodeFramed<T>(utf8: TextTest, parse: (uint8, Buffer) -> Option<T>, src: Buffer): Result<Decoded<T>, WireError> {
    match Unframe(utf8, src)
    case Err(e) => Err(e)
    case Ok((framing, rest)) =>
      match DecodeInner(parse, rest)
      case Err(e) => Err(e)
      case Ok((request, n)) => UnframeTakes(utf8, src); Ok(Decoded(request, framing, |src| - |rest| + n))
  }

  lemma {:induction false} ReadTagsTakes(read: TagReader, count: nat, src: Buffer, tags: Tags)
    ensures ReadTags(read, count, src, tags).Ok? ==> |ReadTags(read, count, src, tags).value.1| <= |src|
    decreases count
  {
    if count > 0 && |src| >= 3 {
      var (len, rest) := Get(2, src[1..]);
      if len <= |rest| {
        ReadTagsTakes(read, count - 1, rest[len..], read(tags, src[0], rest[..len]));
      }
    }
  }

  lemma UnframeTakes(utf8: TextTest, src: Buffer)
    ensures Unframe(utf8, src).Ok? ==> |Unframe(utf8, src).value.1| <= |src|
  {
    if |src| >= 8 {
      ReadTagsTakes(Understander(utf8), src[7], src[8..], NO_TAGS);
    }
  }

  /** The rewrapped request: its own envelope, no correlation id, the kept tags, the same inner bytes. */
  function Rewrapped(tags: Tags, inner: Buffer): Buffer {
    Header(0, |FieldsOf(tags)|) + (PutFields(FieldsOf(tags)) + inner)
  }

  function Wrap(utf8: TextTest, raw: Buffer): Result<Buffer, WireError> {
    match Strip(utf8, raw)
    case Err(e) => Err(e)
    case Ok((tags, inner)) => Ok(Rewrapped(tags, inner))
  }

  lemma {:induction false} PutFieldsConcat(a: seq<Field>, b: seq<Field>)
    ensures PutFields(a + b) == PutFields(a) + PutFields(b)
  {
    if a == [] {
      assert a + b == b;
    } else {
      assert (a + b)[0] == a[0] && (a + b)[1..] == a[1..] + b;
      PutFieldsConcat(a[1..], b);
      assert PutField(a[0]) + (PutFields(a[1..]) + PutFields(b)) == PutField(a[0]) + PutFields(a[1..]) + PutFields(b);
    }
  }

  lemma FieldsInOrder(t: Tags)
    ensures FieldsOf(t) == [Field(FORWARDED, [])] + IsolationField(t.isolation)
                         + NumberField(SESSION_TIMEOUT_MS, t.sessionTimeout) + NumberField(MAX_WAIT_MS, t.maxWait)
                         + NumberField(MIN_BYTES, t.minBytes) + FlagField(COOPERATIVE_ROUND_TWO, t.roundTwo)
                         + MemberField(t.groupMember)
  {
  }

  /** Appends a field, if it is set, to the section and counts it. */
  method AddField(section: Buffer, count: nat, field: seq<Field>, ghost before: seq<Field>)
    returns (longer: Buffer, more: nat, ghost fields: seq<Field>)
    requires section == PutFields(before) && count == |before|
    ensures fields == before + field && longer == PutFields(fields) && more == |fields|
  {
    PutFieldsConcat(before, field);
    longer, more, fields := section + PutFields(field), count + |field|, before + field;
  }

  method WriteTagSection(t: Tags) returns (section: Buffer, count: uint8)
    ensures section == PutFields(FieldsOf(t)) && count == |FieldsOf(t)|
  {
    var s, n, fields := AddField([], 0, [Field(FORWARDED, [])], []);
    assert fields == [Field(FORWARDED, [])];
    s, n, fields := AddField(s, n, IsolationField(t.isolation), fields);
    s, n, fields := AddField(s, n, NumberField(SESSION_TIMEOUT_MS, t.sessionTimeout), fields);
    s, n, fields := AddField(s, n, NumberField(MAX_WAIT_MS, t.maxWait), fields);
    s, n, fields := AddField(s, n, NumberField(MIN_BYTES, t.minBytes), fields);
    s, n, fields := AddField(s, n, FlagField(COOPERATIVE_ROUND_TWO, t.roundTwo), fields);
    s, n, fields := AddField(s, n, MemberField(t.groupMember), fields);
    FieldsInOrder(t);
    section, count := s, n;
  }

  method WrapForwardedRequest(utf8: TextTest, raw: Buffer) returns (r: Result<Buffer, WireError>)
    ensures r == Wrap(utf8, raw)
  {
    var stripped := StripEnvelope(utf8, raw);
    match stripped {
      case Err(e) => r := Err(e);
      case Ok((tags, inner)) =>
        var section, count := WriteTagSection(tags);
        r := Ok(Header(0, count) + (section + inner));
    }
  }

  // ---------------------------------------------------------------- what relaying keeps

  lemma MemberFits(utf8: TextTest, value: Buffer)
    ensures var m := TakeMember(utf8, value);
            m.Some? ==> utf8(m.value.0) && utf8(m.value.1) && |PutMember(m.value)| <= |value|
  {
  }

  /** Every tag a relay can have read can be written again: the lengths cannot overflow. */
  lemma {:induction false} KeptIsWritable(utf8: TextTest, count: nat, src: Buffer, tags: Tags)
    requires Writable(utf8, tags) && Forget(tags) == tags
    ensures var r := ReadTags(Keeper(utf8), count, src, tags);
            r.Ok? ==> Writable(utf8, r.value.0) && Forget(r.value.0) == r.value.0
    decreases count
  {
    if count > 0 && |src| >= 3 {
      var (len, rest) := Get(2, src[1..]);
      Widths();
      PutOfGet(2, src[1..]);
      if len <= |rest| {
        MemberFits(utf8, rest[..len]);
        KeptIsWritable(utf8, count - 1, rest[len..], KeepTag(utf8, tags, src[0], rest[..len]));
      }
    }
  }

  lemma StrippedIsWritable(utf8: TextTest, raw: Buffer)
    ensures var r := Strip(utf8, raw); r.Ok? ==> Writable(utf8, r.value.0) && Forget(r.value.0) == r.value.0
  {
    if |raw| >= 8 {
      KeptIsWritable(utf8, raw[7], raw[8..], NO_TAGS);
    }
  }

  /** Where the serving broker accepts the framing, the relay strips it to the same inner bytes. */
  lemma StripOfUnframe(utf8: TextTest, raw: Buffer)
    requires Unframe(utf8, raw).Ok?
    ensures var (framing, rest) := Unframe(utf8, raw).value; Strip(utf8, raw) == Ok((Forget(TagsOf(framing)), rest))
  {
    if raw[0] == ENVELOPE_MAGIC {
      KeptIsUnderstood(utf8, raw[7], raw[8..], NO_TAGS);
    }
  }

  lemma HeaderParts(id: uint32, count: uint8, rest: Buffer)
    ensures var src := Header(id, count) + rest;
            && |src| >= 8 && src[0] == ENVELOPE_MAGIC && src[7] == count && src[8..] == rest
            && Value(src[1..3]) == 1 && Value(src[3..7]) == id
  {
    var src := Header(id, count) + rest;
    Widths();
    ValueOfPut(2, 1);
    ValueOfPut(4, id);
    assert src[1..3] == Put(2, 1);
    assert src[3..7] == Put(4, id);
  }

  lemma UnframeOfRewrapped(utf8: TextTest, t: Tags, inner: Buffer)
    requires Writable(utf8, t)
    ensures Unframe(utf8, Rewrapped(t, inner)) == Ok((Versioned(1, 0, t.(forwarded := true)), inner))
  {
    var fields := FieldsOf(t);
    HeaderParts(0, |fields|, PutFields(fields) + inner);
    FieldsOfFit(utf8, t);
    ReadOfPutFields(Understander(utf8), fields, inner, NO_TAGS);
    UnderstoodAsWritten(utf8, t);
  }

  /**
   The relay preserves meaning: whatever request a broker would serve, the rewrapped one is
   accepted too, as the same request, marked as forwarded, with the isolation level, session
   timeout and member it came with.
   */
  lemma RelayKeepsMeaning<T>(utf8: TextTest, parse: (uint8, Buffer) -> Option<T>, raw: Buffer)
    requires DecodeFramed(utf8, parse, raw).Ok?
    ensures Wrap(utf8, raw).Ok?
    ensures var was, out := DecodeFramed(utf8, parse, raw).value, Wrap(utf8, raw).value;
            var now := DecodeFramed(utf8, parse, out);
            && now.Ok? && now.value.request == was.request
            && now.value.framing == Versioned(1, 0, Forget(TagsOf(was.framing)).(forwarded := true))
            && |out| - now.value.used == |raw| - was.used
  {
    var (framing, rest) := Unframe(utf8, raw).value;
    StripOfUnframe(utf8, raw);
    StrippedIsWritable(utf8, raw);
    UnframeOfRewrapped(utf8, Forget(TagsOf(framing)), rest);
  }

  /** All seven tags survive exactly when the three the relay has no place for were not set. */
  lemma RelayKeepsAllTagsIff<T>(utf8: TextTest, parse: (uint8, Buffer) -> Option<T>, raw: Buffer)
    requires DecodeFramed(utf8, parse, raw).Ok?
    ensures Wrap(utf8, raw).Ok? && DecodeFramed(utf8, parse, Wrap(utf8, raw).value).Ok?
    ensures var sent := TagsOf(DecodeFramed(utf8, parse, raw).value.framing);
            var served := TagsOf(DecodeFramed(utf8, parse, Wrap(utf8, raw).value).value.framing);
            served == sent.(forwarded := true) <==> sent.maxWait.None? && sent.minBytes.None? && !sent.roundTwo
  {
    RelayKeepsMeaning(utf8, parse, raw);
  }

  /** A long-polling fetch, say: it asks to wait, and the broker that serves it never hears of it. */
  lemma MaxWaitIsForgotten(utf8: TextTest, ms: uint32, inner: Buffer)
    ensures var raw := Header(0, 1) + (PutFields([Field(MAX_WAIT_MS, Put(4, ms))]) + inner);
            && Unframe(utf8, raw) == Ok((Versioned(1, 0, NO_TAGS.(maxWait := Some(ms))), inner))
            && Wrap(utf8, raw) == Ok(Rewrapped(NO_TAGS, inner))
  {
    var fields := [Field(MAX_WAIT_MS, Put(4, ms))];
    var raw := Header(0, 1) + (PutFields(fields) + inner);
    HeaderParts(0, 1, PutFields(fields) + inner);
    ReadOfPutFields(Understander(utf8), fields, inner, NO_TAGS);
    NumberOfPut(ms);
    assert fields[1..] == [];
    assert FoldFields(Understander(utf8), NO_TAGS, fields) == NO_TAGS.(maxWait := Some(ms));
    StripOfUnframe(utf8, raw);
  }

  /** Wrapping twice is wrapping once, for every input that can be wrapped at all. */
  lemma WrapTwice(utf8: TextTest, raw: Buffer)
    requires Wrap(utf8, raw).Ok?
    ensures Wrap(utf8, Wrap(utf8, raw).value) == Wrap(utf8, raw)
  {
    var (tags, inner) := Strip(utf8, raw).value;
    StrippedIsWritable(utf8, raw);
    UnframeOfRewrapped(utf8, tags, inner);
    StripOfUnframe(utf8, Rewrapped(tags, inner));
    assert FieldsOf(tags.(forwarded := true)) == FieldsOf(tags);
  }

  // ---------------------------------------------------------------- responses

  datatype Response = Response(status: uint8, payload: Buffer)

  function Prefix(f: Framing): Buffer {
    if f.Legacy? then [] else [ENVELOPE_MAGIC] + Put(4, f.correlationId)
  }

  function EncodeResponse(r: Response): Buffer {
    [r.status] + (Put(4, |r.payload|) + r.payload)
  }

  function EncodeFramed(r: Response, f: Framing): Buffer {
    Prefix(f) + EncodeResponse(r)
  }

  function RelayResponse(response: Buffer, client: Framing): Buffer {
    var inner := if response != [] && response[0] == ENVELOPE_MAGIC && |response| >= 5 then response[5..] else response;
    Prefix(client) + inner
  }

  /**
   The client gets the response exactly as if it had been answered directly, whatever framing
   the leader used, unless the leader answered bare with the envelope's own byte as status.
   */
  lemma RelayedAsAnsweredIff(r: Response, leader: Framing, client: Framing)
    ensures RelayResponse(EncodeFramed(r, leader), client) == EncodeFramed(r, client)
       <==> leader.Versioned? || r.status != ENVELOPE_MAGIC
  {
    var bytes := EncodeFramed(r, leader);
    if leader.Versioned? {
      assert bytes[5..] == EncodeResponse(r);
    } else {
      assert bytes == EncodeResponse(r);
      if r.status == ENVELOPE_MAGIC {
        assert |RelayResponse(bytes, client)| == |EncodeFramed(r, client)| - 5;
      }
    }
  }

  /** A leader that answers bare with status 0xF1: the client loses the status and the length. */
  lemma BareMagicStatusIsStripped(payload: Buffer)
    ensures RelayResponse(EncodeFramed(Response(ENVELOPE_MAGIC, payload), Legacy), Legacy) == payload
    ensures EncodeFramed(Response(ENVELOPE_MAGIC, payload), Legacy) != payload
  {
    var bytes := EncodeFramed(Response(ENVELOPE_MAGIC, payload), Legacy);
    assert bytes[5..] == payload;
    assert |bytes| == |payload| + 5;
  }

  // ---------------------------------------------------------------- fields nobody knows

  predicate Known(tag: uint8) {
    ISOLATION_LEVEL <= tag <= COOPERATIVE_ROUND_TWO
  }

  /** The fields a reader has a use for. */
  function KnownFields(fields: seq<Field>): seq<Field> {
    if fields == [] then []
    else (if Known(fields[0].tag) then [fields[0]] else []) + KnownFields(fields[1..])
  }

  /** Fields with tags of a newer client are skipped, wherever they stand, by the relay and the broker alike. */
  lemma {:induction false} UnknownFieldsAreSkipped(utf8: TextTest, tags: Tags, fields: seq<Field>)
    ensures FoldFields(Understander(utf8), tags, KnownFields(fields)) == FoldFields(Understander(utf8), tags, fields)
    ensures FoldFields(Keeper(utf8), tags, KnownFields(fields)) == FoldFields(Keeper(utf8), tags, fields)
    decreases |fields|
  {
    if fields != [] {
      var f, rest := fields[0], KnownFields(fields[1..]);
      UnknownFieldsAreSkipped(utf8, UnderstandTag(utf8, tags, f.tag, f.value), fields[1..]);
      UnknownFieldsAreSkipped(utf8, KeepTag(utf8, tags, f.tag, f.value), fields[1..]);
      assert ([f] + rest)[1..] == rest && [] + rest == rest;
    }
  }

  /** What one field says by itself. */
  function Says(utf8: TextTest, tag: uint8, value: Buffer): Tags {
    UnderstandTag(utf8, NO_TAGS, tag, value)
  }

  /** One tag set on top of others; what the field left out stays. */
  function Over(tags: Tags, more: Tags): Tags {
    Tags(if more.isolation.Some? then more.isolation else tags.isolation,
         tags.forwarded || more.forwarded,
         if more.sessionTimeout.Some? then more.sessionTimeout else tags.sessionTimeout,
         if more.groupMember.Some? then more.groupMember else tags.groupMember,
         if more.maxWait.Some? then more.maxWait else tags.maxWait,
         if more.minBytes.Some? then more.minBytes else tags.minBytes,
         tags.roundTwo || more.roundTwo)
  }

  /** A later field overrides an earlier one of its kind and touches no other. */
  lemma LaterFieldsOverride(utf8: TextTest, tags: Tags, tag: uint8, value: Buffer)
    ensures UnderstandTag(utf8, tags, tag, value) == Over(tags, Says(utf8, tag, value))
  {
  }

  /** An isolation level the broker does not know is read as the permissive one. */
  lemma UnknownIsolationIsPermissive(utf8: TextTest, b: uint8, extra: Buffer)
    ensures Says(utf8, ISOLATION_LEVEL, [b] + extra)
         == NO_TAGS.(isolation := Some(if b == IsolationByte(ReadCommitted) then ReadCommitted else ReadUncommitted))
    ensures Says(utf8, ISOLATION_LEVEL, []) == NO_TAGS
  {
  }

  lemma VersionParts(raw: Buffer, version: Buffer)
    requires |raw| >= 8 && |version| == 2
    ensures var other := raw[..1] + version + raw[3..];
            |other| == |raw| && other[0] == raw[0] && other[1..3] == version && other[7] == raw[7] && other[8..] == raw[8..]
  {
  }

  /** A broker refuses every version but its own; a relay forwards any, by the same bytes. */
  lemma OtherVersionsAreRefused(utf8: TextTest, raw: Buffer, version: Buffer)
    requires |raw| >= 8 && raw[0] == ENVELOPE_MAGIC && |version| == 2 && Value(version) != 1
    ensures var other := raw[..1] + version + raw[3..];
            Unframe(utf8, other) == Err(UnsupportedVersion(Value(version))) && Strip(utf8, other) == Strip(utf8, raw)
  {
    VersionParts(raw, version);
  }

  /** A value may be longer than it needs to be: what counts is its front. A shorter one says nothing. */
  lemma LongerValuesAreRead(utf8: TextTest, v: uint32, extra: Buffer, short: Buffer)
    requires |short| < 4
    ensures Says(utf8, SESSION_TIMEOUT_MS, Put(4, v) + extra) == NO_TAGS.(sessionTimeout := Some(v))
    ensures Says(utf8, MAX_WAIT_MS, Put(4, v) + extra) == NO_TAGS.(maxWait := Some(v))
    ensures Says(utf8, MIN_BYTES, Put(4, v) + extra) == NO_TAGS.(minBytes := Some(v))
    ensures forall tag <- {SESSION_TIMEOUT_MS, MAX_WAIT_MS, MIN_BYTES} :: Says(utf8, tag, short) == NO_TAGS
  {
    Widths();
    ValueOfPut(4, v);
    assert (Put(4, v) + extra)[..4] == Put(4, v);
  }

  // ---------------------------------------------------------------- requests that arrive in pieces

  /**
   What `more` further bytes do to a verdict: a decided one stands, and one that asks for bytes
   asks for exactly as many as are missing.
   */
  predicate Settles<T, U>(now: Result<T, WireError>, later: Result<U, WireError>, more: nat) {
    match now
    case Ok(_) => later.Ok?
    case Err(Incomplete(needed, available)) =>
      available < needed && (more < needed - available ==> later == Err(Incomplete(needed, available + more)))
    case Err(e) => later == Err(e)
  }

  lemma {:induction false} ReadTagsSettles(read: TagReader, count: nat, src: Buffer, more: Buffer, tags: Tags)
    ensures var now, later := ReadTags(read, count, src, tags), ReadTags(read, count, src + more, tags);
            Settles(now, later, |more|) && (now.Ok? ==> later == Ok((now.value.0, now.value.1 + more)))
    decreases count
  {
    if count > 0 && |src| >= 3 {
      var (len, rest) := Get(2, src[1..]);
      assert (src + more)[1..] == src[1..] + more;
      assert (src[1..] + more)[..2] == src[1..][..2] && (src[1..] + more)[2..] == rest + more;
      if len <= |rest| {
        assert (rest + more)[..len] == rest[..len] && (rest + more)[len..] == rest[len..] + more;
        ReadTagsSettles(read, count - 1, rest[len..], more, read(tags, src[0], rest[..len]));
      }
    }
  }

  lemma FrontStays(src: Buffer, more: Buffer)
    requires |src| >= 8
    ensures var all := src + more;
            all[0] == src[0] && all[1..3] == src[1..3] && all[3..7] == src[3..7] && all[7] == src[7] && all[8..] == src[8..] + more
  {
  }

  lemma UnframeSettles(utf8: TextTest, src: Buffer, more: Buffer)
    ensures var now, later := Unframe(utf8, src), Unframe(utf8, src + more);
            Settles(now, later, |more|) && (now.Ok? ==> later == Ok((now.value.0, now.value.1 + more)))
  {
    if |src| >= 8 {
      FrontStays(src, more);
      ReadTagsSettles(Understander(utf8), src[7], src[8..], more, NO_TAGS);
    } else if src != [] {
      assert (src + more)[0] == src[0];
    }
  }

  /** The relay's reading of an envelope, likewise. */
  lemma StripSettles(utf8: TextTest, src: Buffer, more: Buffer)
    requires src != []
    ensures var now, later := Strip(utf8, src), Strip(utf8, src + more);
            Settles(now, later, |more|) && (now.Ok? ==> later == Ok((now.value.0, now.value.1 + more)))
  {
    assert (src + more)[0] == src[0];
    if |src| >= 8 {
      FrontStays(src, more);
      ReadTagsSettles(Keeper(utf8), src[7], src[8..], more, NO_TAGS);
    }
  }

  lemma InnerSettles<T>(parse: (uint8, Buffer) -> Option<T>, src: Buffer, more: Buffer)
    ensures var now, later := DecodeInner(parse, src), DecodeInner(parse, src + more);
            Settles(now, later, |more|) && (now.Ok? ==> later == now)
  {
    if |src| >= 5 {
      var (length, rest) := Get(4, src[1..]);
      assert (src + more)[1..] == src[1..] + more;
      assert (src[1..] + more)[..4] == src[1..][..4] && (src[1..] + more)[4..] == rest + more;
      if length <= |rest| {
        assert (rest + more)[..length] == rest[..length];
      }
    }
  }

  /**
   A request read off a connection in pieces: once decoded or refused it stays so, and as long
   as it is incomplete the broker knows exactly how many bytes it still needs for the next step.
   */
  lemma RequestSettles<T>(utf8: TextTest, parse: (uint8, Buffer) -> Option<T>, src: Buffer, more: Buffer)
    ensures var now, later := DecodeFramed(utf8, parse, src), DecodeFramed(utf8, parse, src + more);
            Settles(now, later, |more|) && (now.Ok? ==> later == now)
  {
    UnframeSettles(utf8, src, more);
    if Unframe(utf8, src).Ok? {
      InnerSettles(parse, Unframe(utf8, src).value.1, more);
    }
  }

  // ---------------------------------------------------------------- from client to broker and back

  /** A request as a client frames it. */
  function EncodeRequest(id: uint32, fields: seq<Field>, cmd: uint8, payload: Buffer): Buffer
    requires |fields| < 256
  {
    Header(id, |fields|) + (PutFields(fields) + EncodeInner(cmd, payload))
  }

  function EncodeInner(cmd: uint8, payload: Buffer): Buffer {
    [cmd] + (Put(4, |payload|) + payload)
  }

  /** What can go out: a command there is, fields and payload that fit their lengths. */
  predicate Sendable(fields: seq<Field>, cmd: uint8, payload: Buffer) {
    |fields| < 256 && FieldsFit(fields) && 0x01 <= cmd <= 0x2E && |payload| <= MAX_PAYLOAD
  }

  lemma DecodeOfInner<T>(parse: (uint8, Buffer) -> Option<T>, cmd: uint8, payload: Buffer, rest: Buffer)
    requires 0x01 <= cmd <= 0x2E && |payload| <= MAX_PAYLOAD && parse(cmd, payload).Some?
    ensures DecodeInner(parse, EncodeInner(cmd, payload) + rest) == Ok((parse(cmd, payload).value, 5 + |payload|))
  {
    var src := EncodeInner(cmd, payload) + rest;
    Widths();
    assert src[1..] == Put(4, |payload|) + (payload + rest);
    GetOfPut(4, |payload|, payload + rest);
    assert (payload + rest)[..|payload|] == payload;
  }

  lemma UnframeOfRequest(utf8: TextTest, id: uint32, fields: seq<Field>, inner: Buffer)
    requires |fields| < 256 && FieldsFit(fields)
    ensures Unframe(utf8, Header(id, |fields|) + (PutFields(fields) + inner))
         == Ok((Versioned(1, id, FoldFields(Understander(utf8), NO_TAGS, fields)), inner))
  {
    HeaderParts(id, |fields|, PutFields(fields) + inner);
    ReadOfPutFields(Understander(utf8), fields, inner, NO_TAGS);
  }

  /** What a client sends is what the broker decodes, bytes of the next request behind it or not. */
  lemma RequestArrives<T>(utf8: TextTest, parse: (uint8, Buffer) -> Option<T>, id: uint32, fields: seq<Field>,
                          cmd: uint8, payload: Buffer, rest: Buffer)
    requires Sendable(fields, cmd, payload) && parse(cmd, payload).Some?
    ensures var raw := EncodeRequest(id, fields, cmd, payload);
            DecodeFramed(utf8, parse, raw + rest)
            == Ok(Decoded(parse(cmd, payload).value,
                          Versioned(1, id, FoldFields(Understander(utf8), NO_TAGS, fields)), |raw|))
  {
    var raw, inner := EncodeRequest(id, fields, cmd, payload), EncodeInner(cmd, payload) + rest;
    assert raw + rest == Header(id, |fields|) + (PutFields(fields) + inner);
    UnframeOfRequest(utf8, id, fields, inner);
    DecodeOfInner(parse, cmd, payload, rest);
  }

  const MAX_RESPONSE: nat := 64 * 1024 * 1024

  datatype ReadError = TooFewBytes | Unframed | WrongId(echoed: nat) | ResponseTooLarge

  function ReadResponse(src: Buffer): Result<(Response, Buffer), ReadError> {
    if |src| < 5 then Err(TooFewBytes)
    else
      var (length, rest) := Get(4, src[1..]);
      if length > MAX_RESPONSE then Err(ResponseTooLarge)
      else if |rest| < length then Err(TooFewBytes)
      else Ok((Response(src[0], rest[..length]), rest[length..]))
  }

  /** What a client that waits for this id reads. */
  function ReadVersionedResponse(expected: uint32, src: Buffer): Result<(Response, Buffer), ReadError> {
    if |src| < 5 then Err(TooFewBytes)
    else if src[0] != ENVELOPE_MAGIC then Err(Unframed)
    else if Value(src[1..5]) != expected then Err(WrongId(Value(src[1..5])))
    else ReadResponse(src[5..])
  }

  lemma ReadOfEncodeResponse(r: Response, rest: Buffer)
    requires |r.payload| <= MAX_RESPONSE
    ensures ReadResponse(EncodeResponse(r) + rest) == Ok((r, rest))
  {
    var src := EncodeResponse(r) + rest;
    Widths();
    assert src[1..] == Put(4, |r.payload|) + (r.payload + rest);
    GetOfPut(4, |r.payload|, r.payload + rest);
    assert (r.payload + rest)[..|r.payload|] == r.payload && (r.payload + rest)[|r.payload|..] == rest;
  }

  /** An answer in the framing of a versioned request is read by whoever waits for its id, and by nobody else. */
  lemma AnswerIsRead(r: Response, f: Framing, expected: uint32, rest: Buffer)
    requires f.Versioned? && f.correlationId < U32 && |r.payload| <= MAX_RESPONSE
    ensures ReadVersionedResponse(expected, EncodeFramed(r, f) + rest)
         == if expected == f.correlationId then Ok((r, rest)) else Err(WrongId(f.correlationId))
  {
    var src := EncodeFramed(r, f) + rest;
    Widths();
    ValueOfPut(4, f.correlationId);
    assert src[1..5] == Put(4, f.correlationId);
    assert src[5..] == EncodeResponse(r) + rest;
    ReadOfEncodeResponse(r, rest);
  }

  /** The id in an answer, direct or relayed, is byte for byte the id in the request. */
  lemma IdIsEchoed(utf8: TextTest, raw: Buffer, r: Response, answer: Buffer)
    requires Unframe(utf8, raw).Ok? && Unframe(utf8, raw).value.0.Versioned?
    ensures var client := Unframe(utf8, raw).value.0;
            && EncodeFramed(r, client)[0] == RelayResponse(answer, client)[0] == raw[0]
            && EncodeFramed(r, client)[1..5] == RelayResponse(answer, client)[1..5] == raw[3..7]
  {
    var client := Unframe(utf8, raw).value.0;
    PutOfValue(raw[3..7]);
    assert EncodeFramed(r, client)[1..5] == Put(4, client.correlationId);
    assert RelayResponse(answer, client)[1..5] == Put(4, client.correlationId);
  }

  /** A bare request is answered bare: status, length, payload. */
  lemma BareAnswerIsRead(utf8: TextTest, raw: Buffer, r: Response, rest: Buffer)
    requires raw != [] && raw[0] != ENVELOPE_MAGIC && |r.payload| <= MAX_RESPONSE
    ensures Unframe(utf8, raw) == Ok((Legacy, raw))
    ensures ReadResponse(EncodeFramed(r, Legacy) + rest) == Ok((r, rest))
  {
    assert EncodeFramed(r, Legacy) == EncodeResponse(r);
    ReadOfEncodeResponse(r, rest);
  }

  /**
   The whole round: a client frames a request, a broker that is not the leader rewraps it, the
   leader decodes the same request and answers in its framing, the first broker relays that, and
   the client reads the leader's answer under the id it sent.
   */
  lemma RelayedRoundTrip<T>(utf8: TextTest, parse: (uint8, Buffer) -> Option<T>, id: uint32, fields: seq<Field>,
                            cmd: uint8, payload: Buffer, r: Response, rest: Buffer)
    requires Sendable(fields, cmd, payload) && parse(cmd, payload).Some? && |r.payload| <= MAX_RESPONSE
    ensures var raw := EncodeRequest(id, fields, cmd, payload);
            && DecodeFramed(utf8, parse, raw).Ok? && Wrap(utf8, raw).Ok?
            && var leader := DecodeFramed(utf8, parse, Wrap(utf8, raw).value);
               && leader.Ok? && leader.value.request == parse(cmd, payload).value
               && var relayed := RelayResponse(EncodeFramed(r, leader.value.framing),
                                               DecodeFramed(utf8, parse, raw).value.framing);
                  ReadVersionedResponse(id, relayed + rest) == Ok((r, rest))
  {
    var raw := EncodeRequest(id, fields, cmd, payload);
    assert raw + [] == raw;
    RequestArrives(utf8, parse, id, fields, cmd, payload, []);
    RelayKeepsMeaning(utf8, parse, raw);
    var client := DecodeFramed(utf8, parse, raw).value.framing;
    var leader := DecodeFramed(utf8, parse, Wrap(utf8, raw).value).value.framing;
    RelayedAsAnsweredIff(r, leader, client);
    AnswerIsRead(r, client, id, rest);
  }
}
