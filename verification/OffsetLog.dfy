/**
 The consumer-offset log. Commits are appended as checksummed frames, recovery replays them
 into a table, and compaction rewrites the file from the table. Strings are their UTF-8
 bytes; the checksum and the UTF-8 test are parameters, so every result holds for any of them.
 */
module OffsetLog {
  import opened Bytes
  import opened Text
  import opened Wrappers

  const MAGIC: uint8 := 0xCF
  const CHUNK: nat := 64 * 1024
  const COMPACT_ABOVE: nat := 1024 * 1024

  datatype Key = Key(group: Buffer, topic: Buffer, partition: uint32)
  datatype Entry = Entry(offset: uint64, metadata: Buffer)
  datatype Commit = Commit(key: Key, entry: Entry)

  type Table = map<Key, Entry>

  // ---------------------------------------------------------------- one frame

  function Summed(c: Commit): Buffer {
    c.key.group + c.key.topic + Put(4, c.key.partition) + Put(8, c.entry.offset) + c.entry.metadata
  }

  function FrameTail(crc: Checksum, c: Commit): Buffer {
    Put(4, c.key.partition) + (Put(8, c.entry.offset) + (PutText(c.entry.metadata) + Put(4, crc(Summed(c)))))
  }

  function Frame(crc: Checksum, c: Commit): Buffer {
    [MAGIC] + (PutText(c.key.group) + (PutText(c.key.topic) + FrameTail(crc, c)))
  }

  /** What a read finds: not enough bytes yet, bytes that cannot be right, or a commit. */
  datatype Parsed = Short | Bad | Done(commit: Commit, rest: Buffer)

  function ReadSum(crc: Checksum, c: Commit, src: Buffer): Parsed {
    if |src| < 4 then Short
    else
      var (sum, rest) := Get(4, src);
      if sum == crc(Summed(c)) then Done(c, rest) else Bad
  }

  function ReadTail(crc: Checksum, utf8: TextTest, group: Buffer, topic: Buffer, src: Buffer): Parsed {
    if |src| < 12 then Short
    else
      var (partition, afterPartition) := Get(4, src);
      var (offset, afterOffset) := Get(8, afterPartition);
      Widths();
      PutOfGet(4, src);
      PutOfGet(8, afterPartition);
      match TakeText(utf8, afterOffset)
      case NoText => Short
      case NotText => Bad
      case Text(metadata, rest) => ReadSum(crc, Commit(Key(group, topic, partition), Entry(offset, metadata)), rest)
  }

  function ReadTopic(crc: Checksum, utf8: TextTest, group: Buffer, src: Buffer): Parsed {
    match TakeText(utf8, src)
    case NoText => Short
    case NotText => Bad
    case Text(topic, rest) => ReadTail(crc, utf8, group, topic, rest)
  }

  function ReadGroup(crc: Checksum, utf8: TextTest, src: Buffer): Parsed {
    match TakeText(utf8, src)
    case NoText => Short
    case NotText => Bad
    case Text(group, rest) => ReadTopic(crc, utf8, group, rest)
  }

  function ReadFrame(crc: Checksum, utf8: TextTest, src: Buffer): Parsed {
    if src == [] then Short
    else if src[0] != MAGIC then Bad
    else ReadGroup(crc, utf8, src[1..])
  }

  predicate Fits(utf8: TextTest, c: Commit) {
    FitsText(utf8, c.key.group) && FitsText(utf8, c.key.topic) && FitsText(utf8, c.entry.metadata)
  }

  lemma Regroup(a: Buffer, b: Buffer, c: Buffer, d: Buffer, rest: Buffer)
    ensures a + (b + (c + (d + rest))) == (a + (b + (c + d))) + rest
  {
  }

  lemma SumRoundTrip(crc: Checksum, c: Commit, rest: Buffer)
    ensures ReadSum(crc, c, Put(4, crc(Summed(c))) + rest) == Done(c, rest)
  {
    Widths();
    GetOfPut(4, crc(Summed(c)), rest);
  }

  lemma TailRoundTrip(crc: Checksum, utf8: TextTest, c: Commit, rest: Buffer)
    requires Fits(utf8, c)
    ensures ReadTail(crc, utf8, c.key.group, c.key.topic, FrameTail(crc, c) + rest) == Done(c, rest)
  {
    Widths();
    var sum := Put(4, crc(Summed(c)));
    var three := PutText(c.entry.metadata) + (sum + rest);
    var two := Put(8, c.entry.offset) + three;
    Regroup(Put(4, c.key.partition), Put(8, c.entry.offset), PutText(c.entry.metadata), sum, rest);
    GetOfPut(4, c.key.partition, two);
    GetOfPut(8, c.entry.offset, three);
    TakeOfPut(utf8, c.entry.metadata, sum + rest);
    SumRoundTrip(crc, c, rest);
  }

  lemma FrameRoundTrip(crc: Checksum, utf8: TextTest, c: Commit, rest: Buffer)
    requires Fits(utf8, c)
    ensures ReadFrame(crc, utf8, Frame(crc, c) + rest) == Done(c, rest)
  {
    var tail := FrameTail(crc, c) + rest;
    var g, t := PutText(c.key.group), PutText(c.key.topic);
    Regroup([MAGIC], g, t, FrameTail(crc, c), rest);
    assert (Frame(crc, c) + rest)[1..] == g + (t + tail);
    TakeOfPut(utf8, c.key.group, t + tail);
    TakeOfPut(utf8, c.key.topic, tail);
    TailRoundTrip(crc, utf8, c, rest);
  }

  lemma SumIsCanonical(crc: Checksum, c: Commit, src: Buffer)
    requires ReadSum(crc, c, src).Done?
    ensures ReadSum(crc, c, src).commit == c
    ensures src == Put(4, crc(Summed(c))) + ReadSum(crc, c, src).rest
  {
    PutOfGet(4, src);
  }

  lemma TailIsCanonical(crc: Checksum, utf8: TextTest, group: Buffer, topic: Buffer, src: Buffer)
    requires ReadTail(crc, utf8, group, topic, src).Done?
    ensures var p := ReadTail(crc, utf8, group, topic, src);
            && p.commit.key.group == group && p.commit.key.topic == topic
            && FitsText(utf8, p.commit.entry.metadata)
            && src == FrameTail(crc, p.commit) + p.rest
  {
    var p := ReadTail(crc, utf8, group, topic, src);
    var (partition, afterPartition) := Get(4, src);
    var (offset, afterOffset) := Get(8, afterPartition);
    PutOfGet(4, src);
    PutOfGet(8, afterPartition);
    PutOfTake(utf8, afterOffset);
    SumIsCanonical(crc, p.commit, TakeText(utf8, afterOffset).rest);
    Regroup(Put(4, partition), Put(8, offset), PutText(p.commit.entry.metadata), Put(4, crc(Summed(p.commit))), p.rest);
  }

  /** A frame that reads back is, byte for byte, the frame of the commit it reads back as. */
  lemma FrameIsCanonical(crc: Checksum, utf8: TextTest, src: Buffer)
    requires ReadFrame(crc, utf8, src).Done?
    ensures var p := ReadFrame(crc, utf8, src); Fits(utf8, p.commit) && src == Frame(crc, p.commit) + p.rest
  {
    var p := ReadFrame(crc, utf8, src);
    PutOfTake(utf8, src[1..]);
    var g := TakeText(utf8, src[1..]);
    PutOfTake(utf8, g.rest);
    var t := TakeText(utf8, g.rest);
    TailIsCanonical(crc, utf8, g.bytes, t.bytes, t.rest);
    assert src == [MAGIC] + src[1..];
    Regroup([MAGIC], PutText(g.bytes), PutText(t.bytes), FrameTail(crc, p.commit), p.rest);
  }

  /** The 16-bit length prefixes are the only limit: a commit reads back iff its strings fit them. */
  lemma FrameReadsBackIff(crc: Checksum, utf8: TextTest, c: Commit, rest: Buffer)
    requires utf8(c.key.group) && utf8(c.key.topic) && utf8(c.entry.metadata)
    ensures ReadFrame(crc, utf8, Frame(crc, c) + rest) == Done(c, rest)
       <==> |c.key.group| < U16 && |c.key.topic| < U16 && |c.entry.metadata| < U16
  {
    if Fits(utf8, c) {
      FrameRoundTrip(crc, utf8, c, rest);
    } else if ReadFrame(crc, utf8, Frame(crc, c) + rest) == Done(c, rest) {
      FrameIsCanonical(crc, utf8, Frame(crc, c) + rest);
    }
  }

  /** A group name of 2^16 bytes is written with length 0 and never reads back. */
  lemma LongGroupIsMisread(crc: Checksum, utf8: TextTest, rest: Buffer)
    requires utf8(seq(0x1_0000, _ => 0x61)) && utf8([])
    ensures var c := Commit(Key(seq(0x1_0000, _ => 0x61), [], 0), Entry(0, []));
            ReadFrame(crc, utf8, Frame(crc, c) + rest) != Done(c, rest)
  {
    FrameReadsBackIff(crc, utf8, Commit(Key(seq(0x1_0000, _ => 0x61), [], 0), Entry(0, [])), rest);
  }

  lemma TailStaysBad(crc: Checksum, utf8: TextTest, group: Buffer, topic: Buffer, src: Buffer, more: Buffer)
    requires ReadTail(crc, utf8, group, topic, src).Bad?
    ensures ReadTail(crc, utf8, group, topic, src + more).Bad?
  {
    var (partition, afterPartition) := Get(4, src);
    var (offset, afterOffset) := Get(8, afterPartition);
    assert (src + more)[..4] == src[..4] && (src + more)[4..] == afterPartition + more;
    assert (afterPartition + more)[..8] == afterPartition[..8];
    assert (afterPartition + more)[8..] == afterOffset + more;
    TakeIsStable(utf8, afterOffset, more);
    var p := TakeText(utf8, afterOffset);
    if p.Text? {
      assert (p.rest + more)[..4] == p.rest[..4];
    }
  }

  lemma BadStaysBad(crc: Checksum, utf8: TextTest, src: Buffer, more: Buffer)
    requires ReadFrame(crc, utf8, src).Bad?
    ensures ReadFrame(crc, utf8, src + more).Bad?
  {
    if src[0] == MAGIC {
      assert (src + more)[1..] == src[1..] + more;
      TakeIsStable(utf8, src[1..], more);
      var g := TakeText(utf8, src[1..]);
      if g.Text? {
        TakeIsStable(utf8, g.rest, more);
        var t := TakeText(utf8, g.rest);
        if t.Text? {
          TailStaysBad(crc, utf8, g.bytes, t.bytes, t.rest, more);
        }
      }
    }
  }

  // ---------------------------------------------------------------- what the checksum protects

  /** Between strings of known length, the summed bytes tell any two commits apart. */
  lemma SumSeparates(c: Commit, d: Commit)
    requires |c.key.group| == |d.key.group| && |c.key.topic| == |d.key.topic|
    ensures Summed(c) == Summed(d) <==> c == d
  {
    if Summed(c) == Summed(d) {
      var g := |c.key.group|;
      var t := g + |c.key.topic|;
      Widths();
      assert c.key.group == Summed(c)[..g] && d.key.group == Summed(d)[..g];
      assert c.key.topic == Summed(c)[g..t] && d.key.topic == Summed(d)[g..t];
      assert Put(4, c.key.partition) == Summed(c)[t..t + 4] && Put(4, d.key.partition) == Summed(d)[t..t + 4];
      assert Put(8, c.entry.offset) == Summed(c)[t + 4..t + 12] && Put(8, d.entry.offset) == Summed(d)[t + 4..t + 12];
      assert c.entry.metadata == Summed(c)[t + 12..] && d.entry.metadata == Summed(d)[t + 12..];
      ValueOfPut(4, c.key.partition);
      ValueOfPut(4, d.key.partition);
      ValueOfPut(8, c.entry.offset);
      ValueOfPut(8, d.entry.offset);
    }
  }

  /** The frame of a commit with this number stored as its sum. */
  function FrameWithSum(c: Commit, sum: uint32): Buffer {
    [MAGIC] + (PutText(c.key.group) + (PutText(c.key.topic)
      + (Put(4, c.key.partition) + (Put(8, c.entry.offset) + (PutText(c.entry.metadata) + Put(4, sum))))))
  }

  /** A frame is read as a commit exactly if the stored number is the checksum of its fields, and otherwise as corrupt. */
  lemma StoredSumDecides(crc: Checksum, utf8: TextTest, c: Commit, sum: uint32, rest: Buffer)
    requires Fits(utf8, c)
    ensures ReadFrame(crc, utf8, FrameWithSum(c, sum) + rest) == if sum == crc(Summed(c)) then Done(c, rest) else Bad
  {
    // under the constant checksum `sum` this is the frame of `c`
    var same: Checksum := _ => sum;
    FrameRoundTrip(same, utf8, c, rest);
    assert Frame(same, c) == FrameWithSum(c, sum);
    SumIsLast(same, crc, utf8, FrameWithSum(c, sum) + rest);
  }

  /** Two readers that differ in their checksum read the same fields. */
  lemma SumIsLast(one: Checksum, other: Checksum, utf8: TextTest, src: Buffer)
    requires ReadFrame(one, utf8, src).Done?
    ensures var p := ReadFrame(one, utf8, src);
            ReadFrame(other, utf8, src)
            == if one(Summed(p.commit)) == other(Summed(p.commit)) then Done(p.commit, p.rest) else Bad
  {
  }

  /**
   Damage to a stored commit: if some field of `c` was changed to make it `d`, lengths kept, and
   the stored sum was not, the frame reads as corrupt for every checksum that tells the two apart.
   */
  lemma DamagedFrameIsBad(crc: Checksum, utf8: TextTest, c: Commit, d: Commit, rest: Buffer)
    requires Fits(utf8, d) && |c.key.group| == |d.key.group| && |c.key.topic| == |d.key.topic| && c != d
    ensures Summed(c) != Summed(d)
    ensures ReadFrame(crc, utf8, FrameWithSum(d, crc(Summed(c))) + rest)
            == if crc(Summed(c)) == crc(Summed(d)) then Done(d, rest) else Bad
  {
    SumSeparates(c, d);
    StoredSumDecides(crc, utf8, d, crc(Summed(c)), rest);
  }

  // ---------------------------------------------------------------- any frame format

  /** A frame format: how a commit is written, how one is read, and which commits it can carry. */
  datatype Format = Format(frame: Commit -> Buffer, read: Buffer -> Parsed, fits: Commit -> bool)

  ghost predicate Lawful(f: Format) {
    && (forall src {:trigger f.read(src)} :: f.read(src).Done? ==>
          f.fits(f.read(src).commit) && src == f.frame(f.read(src).commit) + f.read(src).rest)
    && (forall c, rest {:trigger f.frame(c) + rest} :: f.fits(c) ==> f.read(f.frame(c) + rest) == Done(c, rest))
    && (forall src, more {:trigger f.read(src), src + more} :: f.read(src).Bad? ==> f.read(src + more).Bad?)
    && (forall c {:trigger f.frame(c)} :: |f.frame(c)| > 0)
    && f.read([]) == Short
  }

  function OffsetFormat(crc: Checksum, utf8: TextTest): Format {
    Format((c: Commit) => Frame(crc, c), (src: Buffer) => ReadFrame(crc, utf8, src), (c: Commit) => Fits(utf8, c))
  }

  lemma OffsetFormatIsLawful(crc: Checksum, utf8: TextTest)
    ensures Lawful(OffsetFormat(crc, utf8))
  {
    forall src | ReadFrame(crc, utf8, src).Done?
      ensures var p := ReadFrame(crc, utf8, src); Fits(utf8, p.commit) && src == Frame(crc, p.commit) + p.rest
    {
      FrameIsCanonical(crc, utf8, src);
    }
    forall c, rest | Fits(utf8, c)
      ensures ReadFrame(crc, utf8, Frame(crc, c) + rest) == Done(c, rest)
    {
      FrameRoundTrip(crc, utf8, c, rest);
    }
    forall src, more | ReadFrame(crc, utf8, src).Bad?
      ensures ReadFrame(crc, utf8, src + more).Bad?
    {
      BadStaysBad(crc, utf8, src, more);
    }
  }

  // ---------------------------------------------------------------- replay

  function Set(table: Table, c: Commit): Table {
    table[c.key := c.entry]
  }

  /** Reads frames off the front, last write winning, and returns what it could not read. */
  function Replay(f: Format, src: Buffer, table: Table): (r: (Table, Buffer))
    requires Lawful(f)
    ensures |r.1| <= |src|
    decreases |src|
  {
    match f.read(src)
    case Done(c, rest) =>
      assert |src| == |f.frame(c)| + |rest|;
      Replay(f, rest, Set(table, c))
    case _ => (table, src)
  }

  /** Bytes that arrive later continue where the replay of the earlier ones stopped. */
  lemma {:induction false} ReplayContinues(f: Format, src: Buffer, more: Buffer, table: Table)
    requires Lawful(f)
    ensures Replay(f, src + more, table) == Replay(f, Replay(f, src, table).1 + more, Replay(f, src, table).0)
    decreases |src|
  {
    match f.read(src)
    case Done(c, rest) =>
      assert src + more == f.frame(c) + (rest + more);
      ReplayContinues(f, rest, more, Set(table, c));
    case _ =>
  }

  function Frames(f: Format, commits: seq<Commit>): Buffer {
    if commits == [] then [] else f.frame(commits[0]) + Frames(f, commits[1..])
  }

  function SetAll(table: Table, commits: seq<Commit>): Table
    decreases |commits|
  {
    if commits == [] then table else SetAll(Set(table, commits[0]), commits[1..])
  }

  predicate AllFit(f: Format, commits: seq<Commit>) {
    forall i :: 0 <= i < |commits| ==> f.fits(commits[i])
  }

  /** A log of frames replays to the last entry written for each key, whatever follows it. */
  lemma {:induction false} ReplayOfFrames(f: Format, commits: seq<Commit>, tail: Buffer, table: Table)
    requires Lawful(f) && AllFit(f, commits)
    ensures Replay(f, Frames(f, commits) + tail, table) == Replay(f, tail, SetAll(table, commits))
  {
    if commits == [] {
      assert Frames(f, commits) + tail == tail;
    } else {
      var c, rest := commits[0], Frames(f, commits[1..]) + tail;
      assert Frames(f, commits) + tail == f.frame(c) + rest;
      ReplayOfFrames(f, commits[1..], tail, Set(table, c));
    }
  }

  /** A damaged commit anywhere in a log: what stands before it is replayed, it and all behind it is cut. */
  lemma DamageIsCut(crc: Checksum, utf8: TextTest, before: seq<Commit>, c: Commit, d: Commit, rest: Buffer)
    requires (OffsetFormatIsLawful(crc, utf8); AllFit(OffsetFormat(crc, utf8), before)) && Fits(utf8, d)
    requires |c.key.group| == |d.key.group| && |c.key.topic| == |d.key.topic| && crc(Summed(c)) != crc(Summed(d))
    ensures (OffsetFormatIsLawful(crc, utf8);
             var f, damaged := OffsetFormat(crc, utf8), FrameWithSum(d, crc(Summed(c))) + rest;
             Replay(f, Frames(f, before) + damaged, map[]) == (SetAll(map[], before), damaged))
  {
    OffsetFormatIsLawful(crc, utf8);
    var f, damaged := OffsetFormat(crc, utf8), FrameWithSum(d, crc(Summed(c))) + rest;
    ReplayOfFrames(f, before, damaged, map[]);
    DamagedFrameIsBad(crc, utf8, c, d, rest);
    assert f.read(damaged) == Bad;
  }

  /** Every file is a run of whole frames and a tail that no read accepts; replay finds that split. */
  lemma {:induction false} ReplaySplits(f: Format, src: Buffer, table: Table) returns (commits: seq<Commit>)
    requires Lawful(f)
    ensures AllFit(f, commits)
    ensures src == Frames(f, commits) + Replay(f, src, table).1
    ensures Replay(f, src, table).0 == SetAll(table, commits)
    ensures !f.read(Replay(f, src, table).1).Done?
    decreases |src|
  {
    match f.read(src)
    case Done(c, rest) =>
      var later := ReplaySplits(f, rest, Set(table, c));
      commits := [c] + later;
      assert commits[1..] == later;
      assert src == f.frame(c) + (Frames(f, later) + Replay(f, rest, Set(table, c)).1);
      assert src == (f.frame(c) + Frames(f, later)) + Replay(f, rest, Set(table, c)).1;
    case _ =>
      commits := [];
  }

  lemma DoneStaysDone(f: Format, src: Buffer, more: Buffer)
    requires Lawful(f) && f.read(src).Done?
    ensures f.read(src + more) == Done(f.read(src).commit, f.read(src).rest + more)
  {
    var p := f.read(src);
    assert src + more == f.frame(p.commit) + (p.rest + more);
  }

  /** A frame cut short by a crash is never taken for a commit, nor for corruption. */
  lemma TornFrameIsShort(f: Format, c: Commit, n: nat)
    requires Lawful(f) && f.fits(c) && n < |f.frame(c)|
    ensures f.read(f.frame(c)[..n]) == Short
  {
    var torn, missing := f.frame(c)[..n], f.frame(c)[n..];
    assert torn + missing == f.frame(c) == f.frame(c) + [];
    assert |missing| > 0;
    if f.read(torn).Done? {
      DoneStaysDone(f, torn, missing);
    }
  }

  // ---------------------------------------------------------------- the recovery loop

  /** The inner loop: every whole frame now in the buffer. */
  method DrainFrames(f: Format, buf: Buffer, before: Table) returns (table: Table, cursor: nat, corrupt: bool)
    requires Lawful(f)
    ensures cursor <= |buf| && Replay(f, buf, before) == (table, buf[cursor..])
    ensures corrupt <==> f.read(buf[cursor..]).Bad?
    ensures !f.read(buf[cursor..]).Done?
  {
    table, cursor, corrupt := before, 0, false;
    assert buf[0..] == buf;
    while cursor < |buf|
      invariant cursor <= |buf|
      invariant Replay(f, buf, before) == Replay(f, buf[cursor..], table)
      invariant !corrupt
      decreases |buf| - cursor
    {
      match f.read(buf[cursor..])
      case Short =>
        return;
      case Bad =>
        corrupt := true;
        return;
      case Done(c, rest) =>
        assert buf[cursor..] == f.frame(c) + rest;
        assert buf[|buf| - |rest|..] == rest;
        table := Set(table, c);
        cursor := |buf| - |rest|;
    }
    assert buf[cursor..] == [];
  }

  lemma SliceOn(file: Buffer, a: nat, b: nat, c: nat)
    requires a <= b <= c <= |file|
    ensures file[a..b] + file[b..c] == file[a..c]
    ensures file[a..b] + file[b..] == file[a..]
    ensures file[a..c][b - a..] == file[b..c]
  {
  }

  lemma Resumes(f: Format, file: Buffer, from: nat, next: nat, pos: nat, table: Table, drained: Table)
    requires Lawful(f) && from <= next <= pos <= |file|
    requires Replay(f, file[from..pos], table) == (drained, file[next..pos])
    ensures Replay(f, file[from..], table) == Replay(f, file[next..], drained)
  {
    SliceOn(file, from, pos, pos);
    SliceOn(file, next, pos, pos);
    ReplayContinues(f, file[from..pos], file[pos..], table);
  }

  /** Either the file is used up or what is left starts with bytes that cannot be right. */
  lemma Stops(f: Format, file: Buffer, from: nat, pos: nat, table: Table)
    requires Lawful(f) && from <= pos <= |file| && !f.read(file[from..pos]).Done?
    requires pos == |file| || f.read(file[from..pos]).Bad?
    ensures Replay(f, file[from..], table) == (table, file[from..])
  {
    SliceOn(file, from, pos, pos);
    if pos == |file| {
      assert file[from..pos] == file[from..];
    }
  }

  /** The loop's state: the buffer is what was read and not used, and holds no whole frame. */
  ghost predicate Recovering(f: Format, file: Buffer, table: Table, lastGood: nat, pos: nat, buf: Buffer)
    requires Lawful(f)
  {
    && lastGood <= pos <= |file| && buf == file[lastGood..pos]
    && Replay(f, file, map[]) == Replay(f, file[lastGood..], table)
    && !f.read(buf).Done?
  }

  method RecoverTurn(f: Format, file: Buffer, was: Table, from: nat, before: nat, had: Buffer)
    returns (table: Table, lastGood: nat, pos: nat, buf: Buffer, corrupt: bool)
    requires Lawful(f) && Recovering(f, file, was, from, before, had) && before < |file|
    ensures Recovering(f, file, table, lastGood, pos, buf) && before < pos
    ensures corrupt <==> f.read(buf).Bad?
  {
    var n: nat :| 1 <= n <= CHUNK && before + n <= |file|;
    pos := before + n;
    SliceOn(file, from, before, pos);
    buf := had + file[before..pos];
    var cursor: nat;
    table, cursor, corrupt := DrainFrames(f, buf, was);
    lastGood := from + cursor;
    SliceOn(file, from, lastGood, pos);
    buf := buf[cursor..];
    Resumes(f, file, from, lastGood, pos, was, table);
  }

  /**
   The outer loop. Reads return between one byte and a whole chunk, as they please; what is
   recovered is the replay of the whole file all the same.
   */
  method RecoverTable(f: Format, file: Buffer) returns (table: Table, lastGood: nat)
    requires Lawful(f)
    ensures lastGood <= |file| && Replay(f, file, map[]) == (table, file[lastGood..])
  {
    table, lastGood := map[], 0;
    var buf: Buffer, pos: nat, corrupt := [], 0, false;
    assert file[0..] == file;
    while pos < |file| && !corrupt
      invariant Recovering(f, file, table, lastGood, pos, buf)
      invariant corrupt <==> f.read(buf).Bad?
      decreases |file| - pos
    {
      table, lastGood, pos, buf, corrupt := RecoverTurn(f, file, table, lastGood, pos, buf);
    }
    Stops(f, file, lastGood, pos, table);
  }

  // ---------------------------------------------------------------- whole runs

  datatype State = State(table: Table, file: Buffer)

  /** The file replays, to its last byte, to the table in memory; and the table can be rewritten. */
  ghost predicate Denotes(f: Format, s: State)
    requires Lawful(f)
  {
    && Replay(f, s.file, map[]) == (s.table, [])
    && Rewritable(f, s.table)
  }

  /** One iteration order of the table's keys. */
  predicate Lists(order: seq<Key>, table: Table) {
    && (forall i, j :: 0 <= i < j < |order| ==> order[i] != order[j])
    && (forall k :: k in order ==> k in table)
    && (forall k :: k in table ==> k in order)
  }

  function Listed(order: seq<Key>, table: Table): (commits: seq<Commit>)
    requires forall k :: k in order ==> k in table
    ensures |commits| == |order|
  {
    seq(|order|, i requires 0 <= i < |order| => Commit(order[i], table[order[i]]))
  }

  function Opened(f: Format, file: Buffer): State
    requires Lawful(f)
  {
    var (table, tail) := Replay(f, file, map[]);
    State(table, file[..|file| - |tail|])
  }

  function Compacted(f: Format, s: State, order: seq<Key>): State
    requires Lists(order, s.table)
  {
    State(s.table, Frames(f, Listed(order, s.table)))
  }

  function Appended(f: Format, s: State, c: Commit): State {
    State(Set(s.table, c), s.file + f.frame(c))
  }

  /** A commit appends, and compacts once the file is over its limit. */
  function Committed(f: Format, s: State, c: Commit, order: seq<Key>): State
    requires Lists(order, Set(s.table, c))
  {
    var after := Appended(f, s, c);
    if |after.file| > COMPACT_ABOVE then Compacted(f, after, order) else after
  }

  /** A commit whose write failed after some bytes: memory has it, the file may hold a part of it. */
  function Failed(f: Format, s: State, c: Commit, written: nat): State
    requires written <= |f.frame(c)|
  {
    State(Set(s.table, c), s.file + f.frame(c)[..written])
  }

  datatype Step =
    | Committing(c: Commit, order: seq<Key>)
    | Failing(c: Commit, written: nat)
    | Crashing(c: Commit, written: nat)
    | Compacting(order: seq<Key>)
    | Reopening

  /** No bytes of a failed append lie at the end of the file. */
  predicate Clean(f: Format, s: State)
    requires Lawful(f)
  {
    Replay(f, s.file, map[]).1 == []
  }

  predicate Enabled(f: Format, s: State, step: Step)
    requires Lawful(f)
  {
    match step
    case Committing(c, order) => Clean(f, s) && f.fits(c) && Lists(order, Set(s.table, c))
    case Failing(c, written) => Clean(f, s) && f.fits(c) && written <= |f.frame(c)|
    case Crashing(c, written) => Clean(f, s) && f.fits(c) && written < |f.frame(c)|
    case Compacting(order) => Lists(order, s.table)
    case Reopening => true
  }

  /** A crash tears the append it interrupts, and the next start recovers. */
  function Next(f: Format, s: State, step: Step): State
    requires Lawful(f) && Enabled(f, s, step)
  {
    match step
    case Committing(c, order) => Committed(f, s, c, order)
    case Failing(c, written) => Failed(f, s, c, written)
    case Crashing(c, written) => Opened(f, s.file + f.frame(c)[..written])
    case Compacting(order) => Compacted(f, s, order)
    case Reopening => Opened(f, s.file)
  }

  predicate Runs(f: Format, s: State, steps: seq<Step>)
    requires Lawful(f)
    decreases |steps|
  {
    steps != [] ==> Enabled(f, s, steps[0]) && Runs(f, Next(f, s, steps[0]), steps[1..])
  }

  function After(f: Format, s: State, steps: seq<Step>): State
    requires Lawful(f) && Runs(f, s, steps)
    decreases |steps|
  {
    if steps == [] then s else After(f, Next(f, s, steps[0]), steps[1..])
  }

  function Lookup(table: Table, k: Key): Option<Entry> {
    if k in table then Some(table[k]) else None
  }

  /** What the log is for: the entry of the last commit to a key, or what was there at the start. */
  function Latest(start: Table, steps: seq<Step>, k: Key): Option<Entry>
    decreases |steps|
  {
    if steps == [] then Lookup(start, k)
    else
      var last := steps[|steps| - 1];
      if last.Committing? && last.c.key == k then Some(last.c.entry)
      else Latest(start, steps[..|steps| - 1], k)
  }

  /** With refused commits: the last acknowledged entry, or one refused since. */
  predicate MayHold(start: Table, steps: seq<Step>, k: Key, v: Option<Entry>)
    decreases |steps|
  {
    if steps == [] then v == Lookup(start, k)
    else
      var last, front := steps[|steps| - 1], steps[..|steps| - 1];
      if last.Committing? && last.c.key == k then v == Some(last.c.entry)
      else if last.Failing? && last.c.key == k then v == Some(last.c.entry) || MayHold(start, front, k, v)
      else MayHold(start, front, k, v)
  }

  ghost predicate Rewritable(f: Format, table: Table) {
    forall k {:trigger table[k]} :: k in table ==> f.fits(Commit(k, table[k]))
  }

  lemma {:induction false} SetAllRewritable(f: Format, table: Table, commits: seq<Commit>)
    requires Rewritable(f, table) && AllFit(f, commits)
    ensures Rewritable(f, SetAll(table, commits))
    decreases |commits|
  {
    if commits != [] {
      assert commits[0] == Commit(commits[0].key, commits[0].entry);
      SetAllRewritable(f, Set(table, commits[0]), commits[1..]);
    }
  }

  lemma FramesDenote(f: Format, commits: seq<Commit>)
    requires Lawful(f) && AllFit(f, commits)
    ensures Denotes(f, State(SetAll(map[], commits), Frames(f, commits)))
  {
    ReplayOfFrames(f, commits, [], map[]);
    assert Frames(f, commits) + [] == Frames(f, commits);
    SetAllRewritable(f, map[], commits);
  }

  /** Opening any bytes at all leaves a log that denotes its table. */
  lemma OpenedDenotes(f: Format, file: Buffer)
    requires Lawful(f)
    ensures Denotes(f, Opened(f, file))
  {
    var commits := ReplaySplits(f, file, map[]);
    assert Opened(f, file).file == Frames(f, commits);
    FramesDenote(f, commits);
  }

  /** Recovery is idempotent, and a torn last append is dropped whole. */
  lemma CrashIsForgotten(f: Format, s: State, torn: Buffer)
    requires Lawful(f) && Denotes(f, s) && !f.read(torn).Done?
    ensures Opened(f, s.file + torn) == s
  {
    ReplayContinues(f, s.file, torn, map[]);
    assert [] + torn == torn;
    assert (s.file + torn)[..|s.file|] == s.file;
  }

  lemma AppendDenotes(f: Format, s: State, c: Commit)
    requires Lawful(f) && Denotes(f, s) && f.fits(c)
    ensures Denotes(f, Appended(f, s, c))
  {
    ReplayContinues(f, s.file, f.frame(c), map[]);
    assert [] + f.frame(c) == f.frame(c) + [];
    assert c == Commit(c.key, c.entry);
  }

  /** Rewriting a table from nothing, in any order of its keys, gives the table back. */
  lemma {:induction false} ListedRestores(order: seq<Key>, table: Table, built: Table, n: nat)
    requires n <= |order| && Lists(order, table)
    requires forall k :: k in built <==> k in order[..n]
    requires forall k :: k in built ==> k in table && built[k] == table[k]
    ensures SetAll(built, Listed(order, table)[n..]) == table
    decreases |order| - n
  {
    if n == |order| {
      assert order[..n] == order;
    } else {
      var rest := Listed(order, table)[n..];
      assert rest[1..] == Listed(order, table)[n + 1..];
      assert order[..n + 1] == order[..n] + [order[n]];
      ListedRestores(order, table, Set(built, rest[0]), n + 1);
    }
  }

  /** Compaction, in any iteration order, keeps the table and leaves a log that denotes it. */
  lemma CompactDenotes(f: Format, s: State, order: seq<Key>)
    requires Lawful(f) && Rewritable(f, s.table) && Lists(order, s.table)
    ensures Denotes(f, Compacted(f, s, order))
  {
    var commits := Listed(order, s.table);
    ListedRestores(order, s.table, map[], 0);
    assert commits[0..] == commits;
    FramesDenote(f, commits);
  }

  /** What a step of a good log leaves: a good log, unless the step is a write that failed. */
  lemma StepKeeps(f: Format, s: State, step: Step, k: Key)
    requires Lawful(f) && Denotes(f, s) && Enabled(f, s, step) && !step.Failing?
    ensures Denotes(f, Next(f, s, step))
    ensures Lookup(Next(f, s, step).table, k) == Latest(s.table, [step], k)
  {
    match step
    case Committing(c, order) =>
      AppendDenotes(f, s, c);
      if |Appended(f, s, c).file| > COMPACT_ABOVE {
        CompactDenotes(f, Appended(f, s, c), order);
      }
    case Crashing(c, written) =>
      TornFrameIsShort(f, c, written);
      CrashIsForgotten(f, s, f.frame(c)[..written]);
    case Compacting(order) =>
      CompactDenotes(f, s, order);
    case Reopening =>
      CrashIsForgotten(f, s, []);
      assert s.file + [] == s.file;
  }

  lemma {:induction false} LatestFrom(start: Table, mid: Table, steps: seq<Step>, k: Key)
    requires steps != [] && Lookup(mid, k) == Latest(start, [steps[0]], k)
    ensures Latest(start, steps, k) == Latest(mid, steps[1..], k)
    decreases |steps|
  {
    if |steps| == 1 {
      assert steps == [steps[0]];
    } else {
      var front := steps[..|steps| - 1];
      LatestFrom(start, mid, front, k);
      assert steps[1..][..|steps| - 2] == front[1..];
    }
  }

  predicate NoneFails(steps: seq<Step>) {
    forall i :: 0 <= i < |steps| ==> !steps[i].Failing?
  }

  /**
   Last write wins, over every run: however commits, compactions, reopenings and crashes in the
   middle of an append follow each other, the table holds the latest committed entry of each
   key, and the file replays to exactly that table.
   */
  lemma {:induction false} LastWriteWins(f: Format, s: State, steps: seq<Step>, k: Key)
    requires Lawful(f) && Denotes(f, s) && Runs(f, s, steps) && NoneFails(steps)
    ensures Denotes(f, After(f, s, steps))
    ensures Lookup(After(f, s, steps).table, k) == Latest(s.table, steps, k)
    decreases |steps|
  {
    if steps != [] {
      StepKeeps(f, s, steps[0], k);
      var next := Next(f, s, steps[0]);
      LastWriteWins(f, next, steps[1..], k);
      LatestFrom(s.table, next.table, steps, k);
    }
  }

  /** From any file to start with. */
  lemma OffsetsSurvive(f: Format, file: Buffer, steps: seq<Step>, k: Key)
    requires Lawful(f) && Runs(f, Opened(f, file), steps) && NoneFails(steps)
    ensures var end := After(f, Opened(f, file), steps);
            Lookup(Replay(f, end.file, map[]).0, k) == Latest(Opened(f, file).table, steps, k)
  {
    OpenedDenotes(f, file);
    LastWriteWins(f, Opened(f, file), steps, k);
  }

  // ---------------------------------------------------------------- writes that fail

  /** What the file of a state replays to. */
  function OnDisk(f: Format, s: State): Table
    requires Lawful(f)
  {
    Replay(f, s.file, map[]).0
  }

  lemma AppendBytes(f: Format, s: State, bytes: Buffer)
    requires Lawful(f) && Clean(f, s)
    ensures Replay(f, s.file + bytes, map[]) == Replay(f, bytes, OnDisk(f, s))
  {
    ReplayContinues(f, s.file, bytes, map[]);
    assert [] + bytes == bytes;
  }

  /** Bytes of a failed write change nothing on disk until all of them are there. */
  lemma FailedOnDisk(f: Format, s: State, c: Commit, written: nat)
    requires Lawful(f) && Clean(f, s) && f.fits(c) && written <= |f.frame(c)|
    ensures OnDisk(f, Failed(f, s, c, written)) == if written < |f.frame(c)| then OnDisk(f, s) else Set(OnDisk(f, s), c)
  {
    AppendBytes(f, s, f.frame(c)[..written]);
    if written < |f.frame(c)| {
      TornFrameIsShort(f, c, written);
    } else {
      assert f.frame(c)[..written] == f.frame(c) + [];
    }
  }

  /** A refused commit is dropped whole by reopening. */
  lemma RefusedIsDropped(f: Format, s: State, c: Commit, written: nat)
    requires Lawful(f) && Denotes(f, s) && f.fits(c) && written < |f.frame(c)|
    ensures Opened(f, Failed(f, s, c, written).file) == s
  {
    TornFrameIsShort(f, c, written);
    CrashIsForgotten(f, s, f.frame(c)[..written]);
  }

  /** And made durable by the next compaction. */
  lemma RefusedIsCompacted(f: Format, s: State, c: Commit, written: nat, order: seq<Key>)
    requires Lawful(f) && Denotes(f, s) && f.fits(c) && written <= |f.frame(c)| && Lists(order, Set(s.table, c))
    ensures var after := Compacted(f, Failed(f, s, c, written), order);
            Denotes(f, after) && after.table == Set(s.table, c)
  {
    assert c == Commit(c.key, c.entry);
    CompactDenotes(f, Failed(f, s, c, written), order);
  }

  /** Memory and disk each hold, of this key, something they may. */
  ghost predicate Excused(f: Format, s: State, start: Table, steps: seq<Step>, k: Key)
    requires Lawful(f)
  {
    MayHold(start, steps, k, Lookup(s.table, k)) && MayHold(start, steps, k, Lookup(OnDisk(f, s), k))
  }

  lemma DiskAfter(f: Format, s: State, step: Step)
    requires Lawful(f) && Enabled(f, s, step) && Rewritable(f, s.table)
    ensures var t := Next(f, s, step);
            && Rewritable(f, t.table)
            && match step
               case Committing(c, _) => OnDisk(f, t) == Set(OnDisk(f, s), c) || OnDisk(f, t) == t.table
               case Failing(c, _) => OnDisk(f, t) == Set(OnDisk(f, s), c) || OnDisk(f, t) == OnDisk(f, s)
               case Crashing(_, _) => OnDisk(f, t) == t.table == OnDisk(f, s)
               case Compacting(_) => OnDisk(f, t) == t.table == s.table
               case Reopening => OnDisk(f, t) == t.table == OnDisk(f, s)
  {
    match step
    case Committing(c, order) =>
      assert c == Commit(c.key, c.entry);
      AppendBytes(f, s, f.frame(c));
      assert f.frame(c) == f.frame(c) + [];
      if |Appended(f, s, c).file| > COMPACT_ABOVE {
        CompactDenotes(f, Appended(f, s, c), order);
      }
    case Failing(c, written) =>
      assert c == Commit(c.key, c.entry);
      FailedOnDisk(f, s, c, written);
    case Crashing(c, written) =>
      FailedOnDisk(f, s, c, written);
      OpenedDenotes(f, s.file + f.frame(c)[..written]);
    case Compacting(order) =>
      CompactDenotes(f, s, order);
    case Reopening =>
      OpenedDenotes(f, s.file);
  }

  lemma StepExcused(f: Format, s: State, start: Table, steps: seq<Step>, step: Step, k: Key)
    requires Lawful(f) && Enabled(f, s, step) && Rewritable(f, s.table) && Excused(f, s, start, steps, k)
    ensures Excused(f, Next(f, s, step), start, steps + [step], k)
  {
    assert (steps + [step])[..|steps|] == steps;
    DiskAfter(f, s, step);
  }

  /**
   With writes that fail, over every run that reopens or compacts before it writes again: what
   is in memory, and what reopening would bring back, is for every key the last acknowledged
   entry or one refused after it. An acknowledged commit is never lost.
   */
  lemma {:induction false} NothingAcknowledgedIsLost(f: Format, s: State, start: Table, done: seq<Step>, steps: seq<Step>, k: Key)
    requires Lawful(f) && Rewritable(f, s.table) && Excused(f, s, start, done, k) && Runs(f, s, steps)
    ensures Excused(f, After(f, s, steps), start, done + steps, k)
    decreases |steps|
  {
    if steps == [] {
      assert done + steps == done;
    } else {
      StepExcused(f, s, start, done, steps[0], k);
      DiskAfter(f, s, steps[0]);
      NothingAcknowledgedIsLost(f, Next(f, s, steps[0]), start, done + [steps[0]], steps[1..], k);
      assert done + [steps[0]] + steps[1..] == done + steps;
    }
  }

  /** In particular from any file to start with. */
  lemma NothingIsLostFromAnyFile(f: Format, file: Buffer, steps: seq<Step>, k: Key)
    requires Lawful(f) && Runs(f, Opened(f, file), steps)
    ensures Excused(f, After(f, Opened(f, file), steps), Opened(f, file).table, steps, k)
  {
    var s := Opened(f, file);
    OpenedDenotes(f, file);
    NothingAcknowledgedIsLost(f, s, s.table, [], steps, k);
    assert [] + steps == steps;
  }

  /** No run gets stuck: any log can be reopened, and then every commit that fits can succeed, fail anywhere or be torn. */
  lemma NeverStuck(f: Format, s: State, c: Commit, order: seq<Key>, written: nat)
    requires Lawful(f) && f.fits(c)
    ensures Enabled(f, s, Reopening)
    ensures var t := Next(f, s, Reopening);
            && Denotes(f, t)
            && (Lists(order, Set(t.table, c)) ==> Enabled(f, t, Committing(c, order)))
            && (written <= |f.frame(c)| ==> Enabled(f, t, Failing(c, written)))
            && (written < |f.frame(c)| ==> Enabled(f, t, Crashing(c, written)))
            && (Lists(order, t.table) ==> Enabled(f, t, Compacting(order)))
  {
    OpenedDenotes(f, s.file);
  }

  /**
   Writing on without reopening or compacting: the commit behind the torn bytes is found if there
   are none; nothing at all is found iff no frame starts at them; and bytes that cannot be right
   hide it for good. Between the two lies a checksum that happens to match across the seam.
   */
  lemma CommitBehindTornBytes(f: Format, s: State, torn: Buffer, c: Commit)
    requires Lawful(f) && Denotes(f, s) && !f.read(torn).Done? && f.fits(c)
    ensures var after := Replay(f, s.file + (torn + f.frame(c)), map[]);
            && (torn == [] ==> after == (Set(s.table, c), []))
            && (after == (s.table, torn + f.frame(c)) <==> !f.read(torn + f.frame(c)).Done?)
            && (f.read(torn).Bad? ==> after == (s.table, torn + f.frame(c)))
  {
    var bytes := torn + f.frame(c);
    AppendBytes(f, s, bytes);
    if torn == [] {
      assert bytes == f.frame(c) + [];
    }
    if f.read(bytes).Done? {
      var p := f.read(bytes);
      assert |bytes| == |f.frame(p.commit)| + |p.rest|;
      assert |Replay(f, p.rest, Set(s.table, p.commit)).1| < |bytes|;
    }
  }

  /** In the real format one torn byte is enough: every commit of ordinary length behind it is lost. */
  lemma CommitBehindTornBytesIsLost(crc: Checksum, utf8: TextTest, s: State, c: Commit)
    requires Fits(utf8, c) && |Frame(crc, c)| < 0xCF02
    requires (OffsetFormatIsLawful(crc, utf8); Denotes(OffsetFormat(crc, utf8), s))
    ensures (OffsetFormatIsLawful(crc, utf8);
             Replay(OffsetFormat(crc, utf8), s.file + ([MAGIC] + Frame(crc, c)), map[]) == (s.table, [MAGIC] + Frame(crc, c)))
  {
    var f := OffsetFormat(crc, utf8);
    OffsetFormatIsLawful(crc, utf8);
    TornByteReadsOn(crc, utf8, c);
    assert f.read([MAGIC]) == Short;
    CommitBehindTornBytes(f, s, [MAGIC], c);
  }

  /** The magic byte of the second frame is taken for the high byte of a group's length. */
  lemma TornByteReadsOn(crc: Checksum, utf8: TextTest, c: Commit)
    requires |Frame(crc, c)| < 0xCF02
    ensures ReadFrame(crc, utf8, [MAGIC] + Frame(crc, c)) == Short
  {
    var rest := ([MAGIC] + Frame(crc, c))[1..];
    assert rest == Frame(crc, c);
    assert rest[..2] == [MAGIC, rest[1]];
    TornLength(rest[1]);
  }

  lemma TornLength(low: uint8)
    ensures Value([MAGIC, low]) == 0xCF00 + low
  {
    assert [MAGIC, low][..1] == [MAGIC];
    assert [MAGIC][..0] == [];
    assert Value([MAGIC]) == 0xCF;
  }

  /** The lengths again, at the level of the log: a commit survives iff its strings fit their prefixes. */
  lemma CommitSurvivesIff(f: Format, s: State, c: Commit)
    requires Lawful(f) && Denotes(f, s)
    ensures Replay(f, Appended(f, s, c).file, map[]).0 == Set(s.table, c) <==> f.fits(c)
  {
    if f.fits(c) {
      AppendDenotes(f, s, c);
    } else {
      var commits := ReplaySplits(f, Appended(f, s, c).file, map[]);
      SetAllRewritable(f, map[], commits);
      assert Set(s.table, c)[c.key] == c.entry && c == Commit(c.key, c.entry);
    }
  }

  // ---------------------------------------------------------------- the manager

  class ConsumerGroupManager {
    const format: Format
    var table: Table
    var file: Buffer

    ghost function View(): State
      reads this
    {
      State(table, file)
    }

    ghost predicate Valid()
      reads this
    {
      Lawful(format) && Denotes(format, View())
    }

    constructor (format: Format, file: Buffer)
      requires Lawful(format)
      ensures this.format == format && Valid() && View() == Opened(format, file)
    {
      var recovered, lastGood := RecoverTable(format, file);
      this.format := format;
      this.table := recovered;
      this.file := file[..lastGood];
      new;
      assert |file| - |file[lastGood..]| == lastGood;
      OpenedDenotes(format, file);
    }

    /** Memory first, then the file; `landed` is how far a write that fails got. */
    method CommitOffset(c: Commit, landed: Option<nat>) returns (ok: bool, ghost order: seq<Key>)
      requires Lawful(format) && (landed.Some? ==> landed.value <= |format.frame(c)|)
      modifies this
      ensures ok <==> landed.None?
      ensures ok ==> Lists(order, Set(old(table), c)) && View() == Committed(format, old(View()), c, order)
      ensures ok && old(Valid()) && format.fits(c) ==> Valid()
      ensures !ok ==> View() == Failed(format, old(View()), c, landed.value)
    {
      ghost var was := View();
      table := Set(table, c);
      if landed.Some? {
        file := file + format.frame(c)[..landed.value];
        return false, [];
      }
      ok := true;
      file := file + format.frame(c);
      if |file| > COMPACT_ABOVE {
        order := CompactLog();
      } else {
        order := SomeOrder(table);
      }
      if Denotes(format, was) && format.fits(c) {
        StepKeeps(format, was, Committing(c, order), c.key);
      }
    }

    /** Writes one frame per entry, in whatever order the table yields them. */
    method CompactLog() returns (ghost order: seq<Key>)
      requires Lawful(format)
      modifies this
      ensures Lists(order, old(table)) && View() == Compacted(format, old(View()), order)
      ensures old(Valid()) ==> Valid()
    {
      var bytes: Buffer := [];
      var left := table.Keys;
      order := [];
      while left != {}
        invariant table == old(table) && file == old(file)
        invariant forall k :: k in table <==> k in left || k in order
        invariant forall k :: k in order ==> k !in left
        invariant forall i, j :: 0 <= i < j < |order| ==> order[i] != order[j]
        invariant bytes == Frames(format, Listed(order, table))
        decreases |left|
      {
        var k :| k in left;
        FramesAppend(format, Listed(order, table), Commit(k, table[k]));
        assert Listed(order + [k], table) == Listed(order, table) + [Commit(k, table[k])];
        bytes := bytes + format.frame(Commit(k, table[k]));
        order := order + [k];
        left := left - {k};
      }
      if Rewritable(format, table) {
        CompactDenotes(format, View(), order);
      }
      file := bytes;
    }
  }

  lemma {:induction false} FramesAppend(f: Format, commits: seq<Commit>, c: Commit)
    ensures Frames(f, commits + [c]) == Frames(f, commits) + f.frame(c)
  {
    if commits == [] {
      assert (commits + [c])[1..] == [];
    } else {
      FramesAppend(f, commits[1..], c);
      assert (commits + [c])[1..] == commits[1..] + [c];
      assert f.frame(commits[0]) + (Frames(f, commits[1..]) + f.frame(c))
          == f.frame(commits[0]) + Frames(f, commits[1..]) + f.frame(c);
    }
  }

  lemma SomeOrder(table: Table) returns (order: seq<Key>)
    ensures Lists(order, table)
  {
    var left := table.Keys;
    order := [];
    while left != {}
      invariant forall k :: k in table <==> k in left || k in order
      invariant forall k :: k in order ==> k !in left
      invariant forall i, j :: 0 <= i < j < |order| ==> order[i] != order[j]
      decreases |left|
    {
      var k :| k in left;
      order := order + [k];
      left := left - {k};
    }
  }
}
