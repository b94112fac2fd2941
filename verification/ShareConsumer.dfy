/**
 A share consumer's lease accounting. The object keeps what is in flight and what is staged;
 a ghost history records what the broker was told and what it delivered. `Standing` reads a
 lease's fate off the history alone, and every run keeps the two in agreement.
 */
module ShareConsumer {
  import opened Bytes
  import opened Wrappers
  import opened ShareAcks

  type Held = map<uint64, uint16>

  /** One delivered record; `body` stands for its timestamp, key and value. */
  datatype Delivery = Delivery(offset: uint64, body: seq<uint8>, count: uint16)
  datatype ShareRecord = ShareRecord(partition: uint32, delivery: Delivery)

  /** The broker answers a fetch with batches that share one delivery count. */
  datatype Batch = Batch(count: uint16, records: seq<(uint64, seq<uint8>)>)

  datatype State = State(inFlight: map<uint32, Held>, staged: map<uint32, Acks>)

  function HeldOn(s: State, p: uint32): Held {
    if p in s.inFlight then s.inFlight[p] else map[]
  }

  function StagedOn(s: State, p: uint32): Acks {
    if p in s.staged then s.staged[p] else map[]
  }

  /** What happened: requests answered or lost, resolutions by the application, leaving. */
  datatype Event =
    | Fetched(p: uint32, ranges: seq<AckBatch>, delivered: seq<Delivery>)
    | Acknowledged(p: uint32, ranges: seq<AckBatch>)
    | Lost(p: uint32)
    | Resolved(p: uint32, o: uint64, ack: Ack)
    | Left

  function Hold(held: Held, delivered: seq<Delivery>): Held {
    if delivered == [] then held
    else
      var d := delivered[|delivered| - 1];
      Hold(held, delivered[..|delivered| - 1])[d.offset := d.count]
  }

  function Yields(held: Held): Acks {
    YieldsOf(held.Keys)
  }

  function YieldsOf(offsets: set<uint64>): Acks {
    map o | o in offsets :: Yield
  }

  function Apply(s: State, e: Event): State {
    match e
    case Fetched(p, ranges, delivered) =>
      State(s.inFlight[p := Hold(HeldOn(s, p), delivered)], if ranges == [] then s.staged else s.staged - {p})
    case Acknowledged(p, _) => s.(staged := s.staged - {p})
    case Lost(_) => s
    case Resolved(p, o, ack) =>
      State(s.inFlight[p := HeldOn(s, p) - {o}], s.staged[p := StagedOn(s, p)[o := ack]])
    case Left =>
      State(map[], HandedBack(s, Holding(s)))
  }

  /** What is staged once everything held on these partitions is handed back too. */
  function HandedBack(s: State, done: set<uint32>): map<uint32, Acks> {
    map p | p in s.staged.Keys + done :: if p in done then StagedOn(s, p) + Yields(HeldOn(s, p)) else StagedOn(s, p)
  }

  function Holding(s: State): set<uint32> {
    set p | p in s.inFlight && s.inFlight[p] != map[]
  }

  /** A request carries exactly what is staged for its partition; only a held lease is resolved. */
  ghost predicate Enabled(s: State, e: Event) {
    match e
    case Fetched(p, ranges, _) => Expands(ranges, StagedOn(s, p))
    case Acknowledged(p, ranges) => Expands(ranges, StagedOn(s, p))
    case Lost(_) => true
    case Resolved(p, o, _) => o in HeldOn(s, p)
    case Left => true
  }

  function After(history: seq<Event>): State {
    if history == [] then State(map[], map[])
    else Apply(After(history[..|history| - 1]), history[|history| - 1])
  }

  /** The state before event `i`. */
  function StateAt(history: seq<Event>, i: nat): State
    requires i <= |history|
  {
    After(history[..i])
  }

  ghost predicate Runs(history: seq<Event>) {
    forall i {:trigger StateAt(history, i)} :: 0 <= i < |history| ==> Enabled(StateAt(history, i), history[i])
  }

  // ---------------------------------------------------------------- the fate of a lease

  predicate Delivers(e: Event, p: uint32, o: uint64) {
    e.Fetched? && e.p == p && exists i :: 0 <= i < |e.delivered| && e.delivered[i].offset == o
  }

  /** The request succeeded and resolved this lease. */
  predicate Carries(e: Event, p: uint32, o: uint64) {
    (e.Fetched? || e.Acknowledged?) && e.p == p && AckAt(e.ranges, o).Some?
  }

  datatype Fate = Never | InHand | Staged(ack: Ack) | Sent(ack: Ack)

  /** A lease's fate, from the history and nothing else. */
  function Standing(history: seq<Event>, p: uint32, o: uint64): Fate {
    if history == [] then Never
    else Turn(Standing(history[..|history| - 1], p, o), history[|history| - 1], p, o)
  }

  function Turn(was: Fate, e: Event, p: uint32, o: uint64): Fate {
    if Delivers(e, p, o) then InHand
    else if Carries(e, p, o) then Sent(AckAt(e.ranges, o).value)
    else if e.Resolved? && e.p == p && e.o == o then Staged(e.ack)
    else if e.Left? && was == InHand then Staged(Yield)
    else was
  }

  /** The object's two maps say of this lease what the history says. */
  ghost predicate Agrees(s: State, fate: Fate, p: uint32, o: uint64) {
    && (o in HeldOn(s, p) <==> fate == InHand)
    && (o in StagedOn(s, p) <==> fate.Staged?)
    && (o in StagedOn(s, p) ==> fate == Staged(StagedOn(s, p)[o]))
  }

  lemma {:induction false} HoldHolds(held: Held, delivered: seq<Delivery>, o: uint64)
    ensures o in Hold(held, delivered) <==>
            o in held || exists i :: 0 <= i < |delivered| && delivered[i].offset == o
  {
    if delivered != [] {
      var last := |delivered| - 1;
      HoldHolds(held, delivered[..last], o);
      if exists i :: 0 <= i < |delivered| && delivered[i].offset == o {
        var i :| 0 <= i < |delivered| && delivered[i].offset == o;
        assert i < last ==> delivered[..last][i].offset == o;
      }
    }
  }

  lemma StepAgrees(s: State, fate: Fate, e: Event, p: uint32, o: uint64)
    requires Enabled(s, e) && Agrees(s, fate, p, o)
    ensures Agrees(Apply(s, e), Turn(fate, e, p, o), p, o)
  {
    match e
    case Fetched(q, ranges, delivered) =>
      HoldHolds(HeldOn(s, p), delivered, o);
      assert q == p ==> AckAt(ranges, o) == AckOf(StagedOn(s, p), o);
    case Acknowledged(q, ranges) =>
      assert q == p ==> AckAt(ranges, o) == AckOf(StagedOn(s, p), o);
    case Lost(_) =>
    case Resolved(_, _, _) =>
    case Left =>
  }

  /** Accounting, over every run: the two maps and the history always agree on every lease. */
  lemma {:induction false} Accounted(history: seq<Event>, p: uint32, o: uint64)
    requires Runs(history)
    ensures Agrees(After(history), Standing(history, p, o), p, o)
  {
    if history != [] {
      var front, e := history[..|history| - 1], history[|history| - 1];
      RunsFront(history);
      Accounted(front, p, o);
      StepAgrees(After(front), Standing(front, p, o), e, p, o);
    }
  }

  /** Nothing is ever both in flight and staged. */
  lemma NeverBoth(history: seq<Event>, p: uint32, o: uint64)
    requires Runs(history)
    ensures !(o in HeldOn(After(history), p) && o in StagedOn(After(history), p))
  {
    Accounted(history, p, o);
  }

  lemma {:induction false} FateSince(history: seq<Event>, p: uint32, o: uint64, i: nat)
    requires i < |history| && Delivers(history[i], p, o)
    requires forall j :: i < j < |history| ==> !Delivers(history[j], p, o)
    ensures var fate := Standing(history, p, o);
            && fate != Never
            && (fate.Sent? ==> exists j :: i < j < |history| && Carries(history[j], p, o))
  {
    if i < |history| - 1 {
      var front := history[..|history| - 1];
      FateSince(front, p, o, i);
      var fate := Standing(front, p, o);
      if fate.Sent? {
        var j :| i < j < |front| && Carries(front[j], p, o);
        assert Carries(history[j], p, o);
      }
    }
  }

  /** Every delivered lease is in flight, staged, or was carried by a request after its latest delivery. */
  lemma LeaseConservation(history: seq<Event>, p: uint32, o: uint64, i: nat)
    requires Runs(history) && i < |history| && Delivers(history[i], p, o)
    requires forall j :: i < j < |history| ==> !Delivers(history[j], p, o)
    ensures || o in HeldOn(After(history), p)
            || o in StagedOn(After(history), p)
            || exists j :: i < j < |history| && Carries(history[j], p, o)
  {
    Accounted(history, p, o);
    FateSince(history, p, o, i);
  }

  predicate SettledAs(fate: Fate, t: Ack) {
    fate == Staged(t) || fate == Sent(t)
  }

  lemma RunsFront(history: seq<Event>)
    requires Runs(history) && history != []
    ensures Runs(history[..|history| - 1])
    ensures Enabled(After(history[..|history| - 1]), history[|history| - 1])
  {
    var last := |history| - 1;
    forall i | 0 <= i < last
      ensures Enabled(StateAt(history[..last], i), history[..last][i])
    {
      assert history[..last][..i] == history[..i];
      assert Enabled(StateAt(history, i), history[i]);
    }
    assert Enabled(StateAt(history, last), history[last]);
  }

  /** Without a delivery, a settled lease stays settled the same way. */
  lemma StepSettles(s: State, fate: Fate, e: Event, p: uint32, o: uint64, t: Ack)
    requires Enabled(s, e) && Agrees(s, fate, p, o) && SettledAs(fate, t) && !Delivers(e, p, o)
    ensures SettledAs(Turn(fate, e, p, o), t)
    ensures fate.Sent? ==> Turn(fate, e, p, o) == fate
  {
    if (e.Fetched? || e.Acknowledged?) && e.p == p {
      assert AckAt(e.ranges, o) == AckOf(StagedOn(s, p), o);
    }
  }

  /**
   The first resolution wins: until the lease is delivered again, nothing the consumer does,
   leaving included, changes how it was resolved; and once sent, it is not staged again.
   */
  lemma {:induction false} FirstResolutionWins(history: seq<Event>, n: nat, p: uint32, o: uint64, t: Ack)
    requires Runs(history) && n <= |history| && SettledAs(Standing(history[..n], p, o), t)
    requires forall j :: n <= j < |history| ==> !Delivers(history[j], p, o)
    ensures SettledAs(Standing(history, p, o), t)
    ensures Standing(history[..n], p, o).Sent? ==> Standing(history, p, o).Sent?
    decreases |history|
  {
    if n == |history| {
      assert history[..n] == history;
    } else {
      var front := history[..|history| - 1];
      RunsFront(history);
      assert front[..n] == history[..n];
      FirstResolutionWins(front, n, p, o, t);
      Accounted(front, p, o);
      StepSettles(After(front), Standing(front, p, o), history[|history| - 1], p, o, t);
    }
  }

  // ---------------------------------------------------------------- the consumer

  lemma RunsAppend(history: seq<Event>, e: Event)
    requires Runs(history) && Enabled(After(history), e)
    ensures Runs(history + [e]) && After(history + [e]) == Apply(After(history), e)
  {
    var more := history + [e];
    assert more[..|history|] == history;
    forall i | 0 <= i < |more|
      ensures Enabled(StateAt(more, i), more[i])
    {
      if i < |history| {
        assert more[..i] == history[..i];
        assert Enabled(StateAt(history, i), history[i]);
      }
    }
  }

  function Counted(b: Batch): seq<Delivery> {
    seq(|b.records|, i requires 0 <= i < |b.records| => Delivery(b.records[i].0, b.records[i].1, b.count))
  }

  function Flat(batches: seq<Batch>): seq<Delivery> {
    if batches == [] then [] else Flat(batches[..|batches| - 1]) + Counted(batches[|batches| - 1])
  }

  function Records(p: uint32, delivered: seq<Delivery>): seq<ShareRecord> {
    seq(|delivered|, i requires 0 <= i < |delivered| => ShareRecord(p, delivered[i]))
  }

  /** How many records the first `n` batches hold. */
  function Before(batches: seq<Batch>, n: nat): nat
    requires n <= |batches|
  {
    if n == 0 then 0 else Before(batches, n - 1) + |batches[n - 1].records|
  }

  /** Record by record, an answer is delivered in order, each with the delivery count of its batch. */
  lemma {:induction false} FlatAt(batches: seq<Batch>, n: nat, j: nat)
    requires n < |batches| && j < |batches[n].records|
    ensures |Flat(batches)| == Before(batches, |batches|)
    ensures Before(batches, n) + j < |Flat(batches)|
    ensures var r := batches[n].records[j];
            Flat(batches)[Before(batches, n) + j] == Delivery(r.0, r.1, batches[n].count)
    decreases |batches|
  {
    var last := |batches| - 1;
    FlatSize(batches);
    FlatSize(batches[..last]);
    BeforePrefix(batches, last, last);
    if n < last {
      FlatAt(batches[..last], n, j);
      BeforePrefix(batches, last, n);
    }
  }

  lemma {:induction false} FlatSize(batches: seq<Batch>)
    ensures |Flat(batches)| == Before(batches, |batches|)
  {
    if batches != [] {
      FlatSize(batches[..|batches| - 1]);
      BeforePrefix(batches, |batches| - 1, |batches| - 1);
    }
  }

  lemma {:induction false} BeforePrefix(batches: seq<Batch>, m: nat, n: nat)
    requires n <= m <= |batches|
    ensures Before(batches[..m], n) == Before(batches, n)
  {
    if n > 0 {
      BeforePrefix(batches, m, n - 1);
    }
  }

  /** A held lease has the count of its latest delivery. */
  lemma {:induction false} HeldCount(held: Held, delivered: seq<Delivery>, i: nat)
    requires i < |delivered| && forall j :: i < j < |delivered| ==> delivered[j].offset != delivered[i].offset
    ensures var o := delivered[i].offset; o in Hold(held, delivered) && Hold(held, delivered)[o] == delivered[i].count
  {
    if i < |delivered| - 1 {
      HeldCount(held, delivered[..|delivered| - 1], i);
    }
  }

  lemma HoldMore(p: uint32, held: Held, delivered: seq<Delivery>, d: Delivery)
    ensures Hold(held, delivered + [d]) == Hold(held, delivered)[d.offset := d.count]
    ensures Records(p, delivered + [d]) == Records(p, delivered) + [ShareRecord(p, d)]
  {
    assert (delivered + [d])[..|delivered|] == delivered;
  }

  lemma CountedMore(b: Batch, j: nat)
    requires j < |b.records|
    ensures Counted(b)[..j + 1] == Counted(b)[..j] + [Delivery(b.records[j].0, b.records[j].1, b.count)]
  {
  }

  /** Every record of a batch becomes a held lease and a result. */
  method TakeBatch(p: uint32, b: Batch, had: Held) returns (held: Held, records: seq<ShareRecord>)
    ensures held == Hold(had, Counted(b)) && records == Records(p, Counted(b))
  {
    held, records := had, [];
    for j := 0 to |b.records|
      invariant held == Hold(had, Counted(b)[..j]) && records == Records(p, Counted(b)[..j])
    {
      var d := Delivery(b.records[j].0, b.records[j].1, b.count);
      CountedMore(b, j);
      HoldMore(p, had, Counted(b)[..j], d);
      held := held[d.offset := d.count];
      records := records + [ShareRecord(p, d)];
    }
    assert Counted(b)[..|b.records|] == Counted(b);
  }

  lemma {:induction false} HoldAll(held: Held, first: seq<Delivery>, second: seq<Delivery>)
    ensures Hold(held, first + second) == Hold(Hold(held, first), second)
  {
    if second == [] {
      assert first + second == first;
    } else {
      var last := |second| - 1;
      HoldAll(held, first, second[..last]);
      assert (first + second)[..|first| + last] == first + second[..last];
    }
  }

  lemma RecordsJoin(p: uint32, first: seq<Delivery>, second: seq<Delivery>)
    ensures Records(p, first + second) == Records(p, first) + Records(p, second)
  {
  }

  lemma FlatMore(batches: seq<Batch>, i: nat)
    requires i < |batches|
    ensures Flat(batches[..i + 1]) == Flat(batches[..i]) + Counted(batches[i])
  {
    assert batches[..i + 1][..i] == batches[..i];
  }

  /** What is held and returned once a batch more is taken. */
  lemma TakenMore(p: uint32, had: Held, batches: seq<Batch>, i: nat)
    requires i < |batches|
    ensures Hold(had, Flat(batches[..i + 1])) == Hold(Hold(had, Flat(batches[..i])), Counted(batches[i]))
    ensures Records(p, Flat(batches[..i + 1])) == Records(p, Flat(batches[..i])) + Records(p, Counted(batches[i]))
  {
    FlatMore(batches, i);
    HoldAll(had, Flat(batches[..i]), Counted(batches[i]));
    RecordsJoin(p, Flat(batches[..i]), Counted(batches[i]));
  }

  method TakeBatches(p: uint32, batches: seq<Batch>, had: Held) returns (held: Held, records: seq<ShareRecord>)
    ensures held == Hold(had, Flat(batches)) && records == Records(p, Flat(batches))
  {
    held, records := had, [];
    for i := 0 to |batches|
      invariant held == Hold(had, Flat(batches[..i])) && records == Records(p, Flat(batches[..i]))
    {
      TakenMore(p, had, batches, i);
      var more: seq<ShareRecord>;
      held, more := TakeBatch(p, batches[i], held);
      records := records + more;
    }
    assert batches[..|batches|] == batches;
  }

  /** What a visit adds to the results. */
  function Yielded(e: Event): seq<ShareRecord> {
    if e.Fetched? then Records(e.p, e.delivered) else []
  }

  /** Everything a stretch of history delivered, in order. */
  function Results(visits: seq<Event>): seq<ShareRecord> {
    if visits == [] then [] else Results(visits[..|visits| - 1]) + Yielded(visits[|visits| - 1])
  }

  /** How many records the first `n` visits yielded. */
  function YieldedBefore(visits: seq<Event>, n: nat): nat
    requires n <= |visits|
  {
    if n == 0 then 0
    else YieldedBefore(visits, n - 1) + if visits[n - 1].Fetched? then |visits[n - 1].delivered| else 0
  }

  lemma {:induction false} YieldedPrefix(visits: seq<Event>, m: nat, n: nat)
    requires n <= m <= |visits|
    ensures YieldedBefore(visits[..m], n) == YieldedBefore(visits, n)
  {
    if n > 0 {
      YieldedPrefix(visits, m, n - 1);
    }
  }

  lemma {:induction false} ResultsSize(visits: seq<Event>)
    ensures |Results(visits)| == YieldedBefore(visits, |visits|)
  {
    if visits != [] {
      ResultsSize(visits[..|visits| - 1]);
      YieldedPrefix(visits, |visits| - 1, |visits| - 1);
    }
  }

  lemma ResultsLast(visits: seq<Event>)
    requires visits != []
    ensures var last := |visits| - 1;
            && |Results(visits[..last])| == YieldedBefore(visits, last)
            && Results(visits) == Results(visits[..last]) + Yielded(visits[last])
  {
    ResultsSize(visits[..|visits| - 1]);
    YieldedPrefix(visits, |visits| - 1, |visits| - 1);
  }

  lemma Joined<T>(a: seq<T>, b: seq<T>, i: nat)
    requires i < |a| + |b|
    ensures (a + b)[i] == if i < |a| then a[i] else b[i - |a|]
  {
  }

  /** Everything delivered is returned, in order, with the partition it came from. */
  lemma {:induction false} ResultsAt(visits: seq<Event>, n: nat, k: nat)
    requires n < |visits| && visits[n].Fetched? && k < |visits[n].delivered|
    ensures YieldedBefore(visits, n) + k < |Results(visits)|
    ensures Results(visits)[YieldedBefore(visits, n) + k] == ShareRecord(visits[n].p, visits[n].delivered[k])
    decreases |visits|
  {
    var last := |visits| - 1;
    ResultsLast(visits);
    if n < last {
      ResultsAt(visits[..last], n, k);
      YieldedPrefix(visits, last, n);
    }
    Joined(Results(visits[..last]), Yielded(visits[last]), YieldedBefore(visits, n) + k);
  }

  /** The visit that a fetch answered this way leaves in the history. */
  predicate Answers(e: Event, p: uint32, answer: Option<seq<Batch>>) {
    match answer
    case Some(batches) => e.Fetched? && e.p == p && e.delivered == Flat(batches)
    case None => e == Lost(p)
  }

  predicate Lossy(visits: seq<Event>) {
    visits != [] && (visits[|visits| - 1].Lost? || Lossy(visits[..|visits| - 1]))
  }

  /** The `i`-th partition of a round that begins at the cursor. */
  function Rotated(partitions: seq<uint32>, start: nat, i: nat): uint32
    requires partitions != []
  {
    partitions[(start + i) % |partitions|]
  }

  function Advanced(count: nat, cursor: nat): nat {
    (cursor + 1) % (if count == 0 then 1 else count)
  }

  /** The partitions in the order one round takes them. */
  function Rotation(partitions: seq<uint32>, start: nat): (r: seq<uint32>)
    requires start <= |partitions|
    ensures |r| == |partitions|
  {
    partitions[start..] + partitions[..start]
  }

  lemma ModuloOnce(x: nat, n: nat)
    requires x < 2 * n
    ensures x % n == if x < n then x else x - n
  {
    if x >= n {
      QuotientIs(x, n, 1, x - n);
    }
  }

  lemma RotatedIsRotation(partitions: seq<uint32>, start: nat, i: nat)
    requires start < |partitions| && i < |partitions|
    ensures Rotated(partitions, start, i) == Rotation(partitions, start)[i]
  {
    ModuloOnce(start + i, |partitions|);
  }

  /** The partition of one step, found by counting on from the cursor. */
  method PartitionAt(partitions: seq<uint32>, start: nat, step: nat) returns (p: uint32)
    requires start < |partitions| && step < |partitions|
    ensures p == Rotation(partitions, start)[step]
  {
    RotatedIsRotation(partitions, start, step);
    p := partitions[(start + step) % |partitions|];
  }

  /** One round takes every partition once. */
  lemma RoundReachesAll(partitions: seq<uint32>, start: nat)
    requires start < |partitions|
    ensures multiset(seq(|partitions|, i requires 0 <= i < |partitions| => Rotated(partitions, start, i)))
         == multiset(partitions)
  {
    var round := seq(|partitions|, i requires 0 <= i < |partitions| => Rotated(partitions, start, i));
    forall i | 0 <= i < |partitions|
      ensures round[i] == Rotation(partitions, start)[i]
    {
      RotatedIsRotation(partitions, start, i);
    }
    assert round == Rotation(partitions, start);
    assert partitions == partitions[..start] + partitions[start..];
  }

  /** Where the cursor stands after a number of polls. */
  function CursorAfter(count: nat, start: nat, polls: nat): nat {
    if polls == 0 then start else Advanced(count, CursorAfter(count, start, polls - 1))
  }

  lemma {:induction false} CursorMoves(count: nat, start: nat, polls: nat)
    requires start < count && polls <= count
    ensures CursorAfter(count, start, polls) == if start + polls < count then start + polls else start + polls - count
  {
    if polls > 0 {
      CursorMoves(count, start, polls - 1);
      ModuloOnce(CursorAfter(count, start, polls - 1) + 1, count);
    }
  }

  /** Over as many polls as there are partitions, each goes first once, and then it begins again. */
  lemma EachGoesFirst(partitions: seq<uint32>, start: nat, k: nat)
    requires start < |partitions| && k < |partitions|
    ensures var cursor := CursorAfter(|partitions|, start, k);
            cursor < |partitions| && Rotated(partitions, cursor, 0) == Rotation(partitions, start)[k]
    ensures CursorAfter(|partitions|, start, |partitions|) == start
  {
    CursorMoves(|partitions|, start, k);
    CursorMoves(|partitions|, start, |partitions|);
    RotatedIsRotation(partitions, CursorAfter(|partitions|, start, k), 0);
  }

  /** What a fetch is answered, by its place in the round and the number of records asked for. */
  type Broker = (nat, nat) -> Option<seq<Batch>>

  /** Visits follow the given order, asking for what is still missing, none after enough was collected. */
  predicate Round(order: seq<uint32>, broker: Broker, max: nat, visits: seq<Event>) {
    visits == [] ||
    var i := |visits| - 1;
    && i < |order| && Round(order, broker, max, visits[..i])
    && |Results(visits[..i])| < max
    && Answers(visits[i], order[i], broker(i, max - |Results(visits[..i])|))
  }

  lemma RoundMore(order: seq<uint32>, broker: Broker, max: nat, visits: seq<Event>, e: Event)
    requires Round(order, broker, max, visits) && |visits| < |order| && |Results(visits)| < max
    requires Answers(e, order[|visits|], broker(|visits|, max - |Results(visits)|))
    ensures Round(order, broker, max, visits + [e])
    ensures Results(visits + [e]) == Results(visits) + Yielded(e)
    ensures Lossy(visits + [e]) <==> Lossy(visits) || e.Lost?
  {
    assert (visits + [e])[..|visits|] == visits;
  }

  /** What the loop of a poll has after these visits. */
  ghost predicate Going(order: seq<uint32>, broker: Broker, max: nat, visits: seq<Event>,
                        collected: seq<ShareRecord>, failed: bool) {
    && Round(order, broker, max, visits) && |visits| <= |order|
    && collected == Results(visits) && failed == Lossy(visits)
  }

  lemma GoesOn(order: seq<uint32>, broker: Broker, max: nat, visits: seq<Event>,
               collected: seq<ShareRecord>, failed: bool, e: Event)
    requires Going(order, broker, max, visits, collected, failed) && |visits| < |order| && |collected| < max
    requires Answers(e, order[|visits|], broker(|visits|, max - |collected|))
    ensures Going(order, broker, max, visits + [e], collected + Yielded(e), failed || e.Lost?)
  {
    RoundMore(order, broker, max, visits, e);
  }

  /** Whatever event the answer leaves, the loop goes on from it. */
  lemma GoesOnAny(order: seq<uint32>, broker: Broker, max: nat, visits: seq<Event>,
                  collected: seq<ShareRecord>, failed: bool, answer: Option<seq<Batch>>)
    requires Going(order, broker, max, visits, collected, failed) && |visits| < |order| && |collected| < max
    requires answer == broker(|visits|, max - |collected|)
    ensures forall e {:trigger Yielded(e)} :: Answers(e, order[|visits|], answer) ==>
              Going(order, broker, max, visits + [e], collected + Yielded(e), failed || answer.None?)
  {
    forall e | Answers(e, order[|visits|], answer)
      ensures Going(order, broker, max, visits + [e], collected + Yielded(e), failed || answer.None?)
    {
      GoesOn(order, broker, max, visits, collected, failed, e);
    }
  }

  predicate Visits(e: Event, p: uint32) {
    (e.Fetched? || e.Lost?) && e.p == p
  }

  /** Visit by visit, a round follows its order. */
  lemma {:induction false} RoundFollows(order: seq<uint32>, broker: Broker, max: nat, visits: seq<Event>)
    requires Round(order, broker, max, visits)
    ensures |visits| <= |order| && forall i :: 0 <= i < |visits| ==> Visits(visits[i], order[i])
  {
    if visits != [] {
      RoundFollows(order, broker, max, visits[..|visits| - 1]);
    }
  }

  /** A round over a broker that never sends more than it was asked for never collects too much. */
  lemma {:induction false} RoundWithinMax(order: seq<uint32>, broker: Broker, max: nat, visits: seq<Event>)
    requires Round(order, broker, max, visits)
    requires forall i, n :: broker(i, n).Some? ==> |Flat(broker(i, n).value)| <= n
    ensures |Results(visits)| <= max
  {
    if visits != [] {
      RoundWithinMax(order, broker, max, visits[..|visits| - 1]);
    }
  }

  /** A round is lossy iff some visit of it was lost. */
  lemma {:induction false} LossyIff(visits: seq<Event>)
    ensures Lossy(visits) <==> exists i :: 0 <= i < |visits| && visits[i].Lost?
  {
    if visits != [] {
      var last := |visits| - 1;
      LossyIff(visits[..last]);
      if i :| 0 <= i < |visits| && visits[i].Lost? && i < last {
        assert visits[..last][i].Lost?;
      }
    }
  }

  lemma Further(history: seq<Event>, done: seq<Event>, e: Event)
    ensures history + done + [e] == history + (done + [e])
  {
  }

  predicate AllAcknowledged(sent: seq<Event>) {
    forall i :: 0 <= i < |sent| ==> sent[i].Acknowledged?
  }

  lemma OneMoreAcknowledged(history: seq<Event>, sent: seq<Event>, e: Event)
    requires AllAcknowledged(sent) && e.Acknowledged?
    ensures AllAcknowledged(sent + [e]) && history + sent + [e] == history + (sent + [e])
  {
  }

  function Pending(s: State): set<uint32> {
    set p | p in s.staged && s.staged[p] != map[]
  }

  ghost predicate NothingStaged(s: State) {
    forall p {:trigger StagedOn(s, p)} :: StagedOn(s, p) == map[]
  }

  /** What a flush sends is every partition with something staged, and once it succeeds there is none. */
  lemma PendingIsStaged(s: State)
    ensures forall p :: p in Pending(s) <==> StagedOn(s, p) != map[]
    ensures Pending(s) == {} <==> NothingStaged(s)
  {
    if NothingStaged(s) {
      assert forall p :: p in s.staged ==> StagedOn(s, p) == s.staged[p];
    }
  }

  lemma HandedBackMore(s: State, done: set<uint32>, p: uint32)
    requires p !in done
    ensures HandedBack(s, done + {p}) == HandedBack(s, done)[p := StagedOn(s, p) + Yields(HeldOn(s, p))]
    ensures HandedBack(s, {}) == s.staged
  {
  }

  ghost predicate HandingBack(s: State, left: set<uint32>, staged: map<uint32, Acks>) {
    left <= Holding(s) && staged == HandedBack(s, Holding(s) - left)
  }

  lemma HandsBackOne(s: State, left: set<uint32>, staged: map<uint32, Acks>, p: uint32)
    requires HandingBack(s, left, staged) && p in left
    ensures HandingBack(s, left - {p}, staged[p := StagedOn(s, p) + Yields(HeldOn(s, p))])
  {
    HandedBackMore(s, Holding(s) - left, p);
    assert Holding(s) - (left - {p}) == Holding(s) - left + {p};
  }

  lemma HandsBackAll(s: State)
    ensures HandingBack(s, Holding(s), s.staged)
    ensures HandedBack(s, Holding(s) - {}) == HandedBack(s, Holding(s))
  {
    HandedBackMore(s, {}, 0);
    assert Holding(s) - Holding(s) == {};
    assert Holding(s) - {} == Holding(s);
  }

  /** The loops of leaving: a Yield for every held offset, partition by partition in any order. */
  method HandBack(s: State) returns (staged: map<uint32, Acks>)
    ensures staged == HandedBack(s, Holding(s))
  {
    staged := s.staged;
    var left := Holding(s);
    HandsBackAll(s);
    while left != {}
      invariant HandingBack(s, left, staged)
      decreases |left|
    {
      var p :| p in left;
      var yielded := YieldAll(StagedOn(s, p), HeldOn(s, p));
      HandsBackOne(s, left, staged, p);
      staged, left := staged[p := yielded], left - {p};
    }
  }

  lemma OneMoreYield(acks: Acks, held: set<uint64>, left: set<uint64>, o: uint64)
    requires o in left && left <= held
    ensures (acks + YieldsOf(held - left))[o := Yield] == acks + YieldsOf(held - (left - {o}))
  {
    assert held - (left - {o}) == (held - left) + {o};
  }

  method YieldAll(acks: Acks, held: Held) returns (after: Acks)
    ensures after == acks + Yields(held)
  {
    after := acks;
    var left := held.Keys;
    assert held.Keys - left == {};
    while left != {}
      invariant left <= held.Keys && after == acks + YieldsOf(held.Keys - left)
      decreases |left|
    {
      var o :| o in left;
      OneMoreYield(acks, held.Keys, left, o);
      after := after[o := Yield];
      left := left - {o};
    }
    assert held.Keys - {} == held.Keys;
  }

  class Consumer {
    const partitions: seq<uint32>
    const maxRecords: uint32
    var nextPartition: nat
    var inFlight: map<uint32, Held>
    var staged: map<uint32, Acks>
    ghost var history: seq<Event>

    function View(): State
      reads this
    {
      State(inFlight, staged)
    }

    ghost predicate Valid()
      reads this
    {
      Runs(history) && View() == After(history)
    }

    /** The cursor points at a partition, if there is one. */
    ghost predicate Pointing()
      reads this
    {
      nextPartition <= |partitions| && (partitions == [] || nextPartition < |partitions|)
    }

    constructor (partitions: seq<uint32>, maxRecords: uint32)
      ensures this.partitions == partitions && this.maxRecords == maxRecords
      ensures Valid() && Pointing() && history == [] && nextPartition == 0
    {
      this.partitions, this.maxRecords := partitions, maxRecords;
      nextPartition, inFlight, staged, history := 0, map[], map[], [];
    }

    /** One fetch, carrying what is staged for the partition; a lost one changes nothing. */
    method Visit(p: uint32, answer: Option<seq<Batch>>) returns (records: seq<ShareRecord>, ghost e: Event)
      requires Valid()
      modifies `inFlight, `staged, `history
      ensures Valid() && history == old(history) + [e]
      ensures Answers(e, p, answer) && records == Yielded(e)
    {
      var ranges := CoalesceAcks(StagedOn(View(), p));
      match answer {
        case Some(batches) =>
          e := Fetched(p, ranges, Flat(batches));
          RunsAppend(history, e);
          var held, taken := TakeBatches(p, batches, HeldOn(View(), p));
          if ranges != [] {
            staged := staged - {p};
          }
          inFlight, records := inFlight[p := held], taken;
        case None =>
          e, records := Lost(p), [];
          RunsAppend(history, e);
      }
      history := history + [e];
    }

    /**
     One round over the partitions from the rotating start, at most one visit each, until
     enough is collected. It fails only if something was lost and nothing came back.
     */
    method Poll(broker: Broker) returns (result: Option<seq<ShareRecord>>, ghost visits: seq<Event>)
      requires Valid() && Pointing()
      modifies this
      ensures Valid() && Pointing() && history == old(history) + visits
      ensures Round(Rotation(partitions, old(nextPartition)), broker, maxRecords, visits)
      ensures |visits| == |partitions| || |Results(visits)| >= maxRecords
      ensures result == if Results(visits) == [] && Lossy(visits) then None else Some(Results(visits))
      ensures nextPartition == Advanced(|partitions|, old(nextPartition))
    {
      var collected, failed;
      collected, failed, visits := GoRound(broker);
      nextPartition := Advanced(|partitions|, nextPartition);
      result := if collected == [] && failed then None else Some(collected);
    }

    /** The next partition of a round, asked for what is still missing. */
    method VisitNext(broker: Broker, step: nat, collected: seq<ShareRecord>, failed: bool,
                     ghost order: seq<uint32>, ghost visits: seq<Event>)
      returns (more: seq<ShareRecord>, lost: bool, ghost e: Event)
      requires Valid() && Pointing() && order == Rotation(partitions, nextPartition)
      requires step == |visits| < |partitions| && |collected| < maxRecords
      requires Going(order, broker, maxRecords, visits, collected, failed)
      modifies `inFlight, `staged, `history
      ensures Valid() && history == old(history) + [e]
      ensures Going(order, broker, maxRecords, visits + [e], more, lost)
    {
      var answer := broker(step, maxRecords - |collected|);
      var p := PartitionAt(partitions, nextPartition, step);
      GoesOnAny(order, broker, maxRecords, visits, collected, failed, answer);
      var records;
      records, e := Visit(p, answer);
      more, lost := collected + records, failed || answer.None?;
    }

    method GoRound(broker: Broker)
      returns (collected: seq<ShareRecord>, failed: bool, ghost visits: seq<Event>)
      requires Valid() && Pointing()
      modifies `inFlight, `staged, `history
      ensures Valid() && history == old(history) + visits
      ensures Round(Rotation(partitions, nextPartition), broker, maxRecords, visits)
      ensures |visits| == |partitions| || |collected| >= maxRecords
      ensures collected == Results(visits) && failed == Lossy(visits)
    {
      collected, failed, visits := [], false, [];
      var step := 0;
      ghost var order := Rotation(partitions, nextPartition);
      while step < |partitions| && |collected| < maxRecords
        invariant Valid() && history == old(history) + visits && step == |visits|
        invariant Going(order, broker, maxRecords, visits, collected, failed)
      {
        ghost var e;
        collected, failed, e := VisitNext(broker, step, collected, failed, order, visits);
        Further(old(history), visits, e);
        visits := visits + [e];
        step := step + 1;
      }
    }

    /** Stages a resolution; refused unless the lease is in flight here. */
    method StageAck(p: uint32, o: uint64, ack: Ack) returns (ok: bool)
      requires Valid()
      modifies `inFlight, `staged, `history
      ensures Valid() && ok == (o in HeldOn(old(View()), p))
      ensures history == if ok then old(history) + [Resolved(p, o, ack)] else old(history)
      ensures !ok ==> View() == old(View())
    {
      ok := p in inFlight && o in inFlight[p];
      if ok {
        RunsAppend(history, Resolved(p, o, ack));
        history := history + [Resolved(p, o, ack)];
        inFlight, staged := inFlight[p := inFlight[p] - {o}], staged[p := StagedOn(View(), p)[o := ack]];
      }
    }

    /** One acknowledge request that the broker accepts: its partition has nothing staged any more. */
    method SendAcks(p: uint32) returns (ghost e: Event)
      requires Valid() && p in Pending(View())
      modifies `staged, `history
      ensures Valid() && history == old(history) + [e] && e.Acknowledged?
      ensures Pending(View()) == Pending(old(View())) - {p}
    {
      var ranges := CoalesceAcks(staged[p]);
      e := Acknowledged(p, ranges);
      RunsAppend(history, e);
      staged := staged - {p};
      history := history + [e];
    }

    /** Sends what is staged, partition by partition in any order, stopping at the first failure. */
    method FlushAcks(broker: uint32 -> bool) returns (ok: bool, ghost sent: seq<Event>)
      requires Valid()
      modifies `staged, `history
      ensures Valid() && history == old(history) + sent && AllAcknowledged(sent)
      ensures ok <==> NothingStaged(View())
      ensures !ok ==> exists p :: p in Pending(View()) && !broker(p)
    {
      var left := Pending(View());
      sent := [];
      while left != {}
        invariant Valid() && history == old(history) + sent && AllAcknowledged(sent)
        invariant left == Pending(View())
        decreases |left|
      {
        var p :| p in left;
        if !broker(p) {
          PendingIsStaged(View());
          return false, sent;
        }
        var e := SendAcks(p);
        OneMoreAcknowledged(old(history), sent, e);
        sent := sent + [e];
        left := left - {p};
      }
      PendingIsStaged(View());
      ok := true;
    }

    /** Extends every lease in flight on a partition and changes nothing here. */
    method RenewLeases(p: uint32, broker: seq<AckBatch> -> bool) returns (ok: bool, request: Option<seq<AckBatch>>)
      requires Valid()
      ensures request.None? <==> HeldOn(View(), p) == map[]
      ensures request.Some? ==> Expands(request.value, map o | o in HeldOn(View(), p) :: Renew)
      ensures ok <==> request.None? || broker(request.value)
    {
      if p !in inFlight || inFlight[p] == map[] {
        return true, None;
      }
      var ranges := CoalesceAcks(map o | o in inFlight[p] :: Renew);
      request := Some(ranges);
      ok := broker(ranges);
    }

    /** Hands everything in flight back, then flushes. */
    method Leave(broker: uint32 -> bool) returns (ok: bool, ghost sent: seq<Event>)
      requires Valid()
      modifies `inFlight, `staged, `history
      ensures Valid() && inFlight == map[] && history == old(history) + [Left] + sent
      ensures AllAcknowledged(sent) && (ok <==> NothingStaged(View()))
    {
      RunsAppend(history, Left);
      var after := HandBack(View());
      inFlight, staged := map[], after;
      history := history + [Left];
      ok, sent := FlushAcks(broker);
    }
  }
}
