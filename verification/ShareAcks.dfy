/**
 Acknowledgements of a share consumer, from one per offset to ranges. Coalescing loses
 nothing, and no list of ranges says the same in fewer.
 */
module ShareAcks {
  import opened Bytes
  import opened Sizes
  import opened Wrappers

  datatype Ack = Accept | Release | Reject | Renew | Yield

  datatype AckBatch = AckBatch(first: uint64, last: uint64, ack: Ack)

  type Acks = map<uint64, Ack>

  predicate Covers(b: AckBatch, o: uint64) {
    b.first <= o <= b.last
  }

  /** What a list of ranges says of one offset. */
  function AckAt(ranges: seq<AckBatch>, o: uint64): Option<Ack> {
    if ranges == [] then None
    else
      var b := ranges[|ranges| - 1];
      if Covers(b, o) then Some(b.ack) else AckAt(ranges[..|ranges| - 1], o)
  }

  function AckOf(acks: Acks, o: uint64): Option<Ack> {
    if o in acks then Some(acks[o]) else None
  }

  /** The ranges expand to exactly this map. */
  ghost predicate Expands(ranges: seq<AckBatch>, acks: Acks) {
    forall o: uint64 {:trigger AckAt(ranges, o)} :: AckAt(ranges, o) == AckOf(acks, o)
  }

  /** Ascending and disjoint, each range nonempty. */
  ghost predicate Apart(ranges: seq<AckBatch>) {
    && (forall i :: 0 <= i < |ranges| ==> ranges[i].first <= ranges[i].last)
    && (forall i, j :: 0 <= i < j < |ranges| ==> ranges[i].last < ranges[j].first)
  }

  /** No two ranges could be one. */
  ghost predicate Merged(ranges: seq<AckBatch>) {
    forall i, j :: 0 <= i < j < |ranges| ==>
      ranges[i].last + 1 != ranges[j].first || ranges[i].ack != ranges[j].ack
  }

  predicate Least(s: set<uint64>, k: uint64) {
    k in s && forall j :: j in s ==> k <= j
  }

  lemma {:induction false} LeastExists(s: set<uint64>)
    requires s != {}
    ensures exists k :: Least(s, k)
  {
    var x :| x in s;
    var rest := s - {x};
    if rest == {} {
      assert s == {x};
      assert Least(s, x);
    } else {
      LeastExists(rest);
      var k :| Least(rest, k);
      assert s == rest + {x};
      assert Least(s, if k < x then k else x);
    }
  }

  function Last(ranges: seq<AckBatch>): AckBatch
    requires ranges != []
  {
    ranges[|ranges| - 1]
  }

  function Grown(ranges: seq<AckBatch>, k: uint64): seq<AckBatch>
    requires ranges != []
  {
    ranges[..|ranges| - 1] + [Last(ranges).(last := k)]
  }

  /** What the ranges built so far say: nothing of the offsets still left. */
  ghost predicate SaysUpTo(acks: Acks, left: set<uint64>, ranges: seq<AckBatch>) {
    forall o: uint64 {:trigger AckAt(ranges, o)} :: AckAt(ranges, o) == if o in left then None else AckOf(acks, o)
  }

  /** What the loop has built once `left` remains: closed ranges and the run still open. */
  ghost predicate Coalescing(acks: Acks, left: set<uint64>, ranges: seq<AckBatch>) {
    && ranges != [] && Apart(ranges) && Merged(ranges) && SaysUpTo(acks, left, ranges)
    && (forall o :: o in left ==> o in acks && Last(ranges).last < o)
  }

  lemma AckAtGrown(ranges: seq<AckBatch>, k: uint64, o: uint64)
    requires ranges != [] && Last(ranges).first <= Last(ranges).last && k == Last(ranges).last + 1
    ensures AckAt(Grown(ranges, k), o) == if o == k then Some(Last(ranges).ack) else AckAt(ranges, o)
  {
    assert Grown(ranges, k)[..|ranges| - 1] == ranges[..|ranges| - 1];
  }

  lemma AckAtClosed(ranges: seq<AckBatch>, b: AckBatch, o: uint64)
    ensures AckAt(ranges + [b], o) == if Covers(b, o) then Some(b.ack) else AckAt(ranges, o)
  {
    assert (ranges + [b])[..|ranges|] == ranges;
  }

  lemma GrownShape(ranges: seq<AckBatch>, k: uint64)
    requires ranges != [] && Apart(ranges) && Merged(ranges) && k == Last(ranges).last + 1
    ensures Apart(Grown(ranges, k)) && Merged(Grown(ranges, k))
  {
    var now := Grown(ranges, k);
    assert forall i :: 0 <= i < |ranges| ==> now[i].first == ranges[i].first && now[i].ack == ranges[i].ack;
    assert forall i :: 0 <= i < |ranges| - 1 ==> now[i].last == ranges[i].last;
  }

  lemma RunGrows(acks: Acks, left: set<uint64>, ranges: seq<AckBatch>, k: uint64)
    requires Coalescing(acks, left, ranges) && Least(left, k)
    requires k == Last(ranges).last + 1 && acks[k] == Last(ranges).ack
    ensures Coalescing(acks, left - {k}, Grown(ranges, k))
  {
    GrownShape(ranges, k);
    forall o: uint64
      ensures AckAt(Grown(ranges, k), o) == if o in left - {k} then None else AckOf(acks, o)
    {
      AckAtGrown(ranges, k, o);
    }
  }

  lemma RunCloses(acks: Acks, left: set<uint64>, ranges: seq<AckBatch>, k: uint64)
    requires Coalescing(acks, left, ranges) && Least(left, k)
    requires k != Last(ranges).last + 1 || acks[k] != Last(ranges).ack
    ensures Coalescing(acks, left - {k}, ranges + [AckBatch(k, k, acks[k])])
  {
    forall o: uint64
      ensures AckAt(ranges + [AckBatch(k, k, acks[k])], o) == if o in left - {k} then None else AckOf(acks, o)
    {
      AckAtClosed(ranges, AckBatch(k, k, acks[k]), o);
    }
  }

  lemma RunOpens(acks: Acks, k: uint64)
    requires Least(acks.Keys, k)
    ensures Coalescing(acks, acks.Keys - {k}, [AckBatch(k, k, acks[k])])
  {
    var start := [AckBatch(k, k, acks[k])];
    forall o: uint64
      ensures AckAt(start, o) == if o in acks.Keys - {k} then None else AckOf(acks, o)
    {
      assert start[..0] == [];
    }
  }

  /** Walks the offsets upwards: the next one is always the least that is left. */
  method CoalesceAcks(acks: Acks) returns (ranges: seq<AckBatch>)
    ensures Expands(ranges, acks) && Apart(ranges) && Merged(ranges)
    ensures ranges == [] <==> acks == map[]
  {
    if acks == map[] {
      return [];
    }
    LeastExists(acks.Keys);
    var k :| k in acks.Keys && Least(acks.Keys, k);
    var left := acks.Keys - {k};
    var batches: seq<AckBatch>, run := [], AckBatch(k, k, acks[k]);
    RunOpens(acks, k);
    assert batches + [run] == [run];
    while left != {}
      invariant Coalescing(acks, left, batches + [run])
      decreases |left|
    {
      k, batches, run := CoalesceNext(acks, left, batches, run);
      left := left - {k};
    }
    ranges := batches + [run];
  }

  method CoalesceNext(acks: Acks, left: set<uint64>, before: seq<AckBatch>, current: AckBatch)
    returns (k: uint64, batches: seq<AckBatch>, run: AckBatch)
    requires left != {} && Coalescing(acks, left, before + [current])
    ensures k in left && Coalescing(acks, left - {k}, batches + [run])
  {
    LeastExists(left);
    k :| k in left && Least(left, k);
    ghost var ranges := before + [current];
    assert Last(ranges) == current;
    // a larger offset follows, so the successor of the run's end is still a 64-bit number
    var successor: uint64 := current.last + 1;
    if k == successor && acks[k] == current.ack {
      RunGrows(acks, left, ranges, k);
      batches, run := before, current.(last := k);
      assert Grown(ranges, k) == batches + [run];
    } else {
      RunCloses(acks, left, ranges, k);
      batches, run := before + [current], AckBatch(k, k, acks[k]);
    }
  }

  // ---------------------------------------------------------------- minimality

  /** Some range of the list says `t` of `o`; lists may overlap and come in any order. */
  ghost predicate Says(ranges: seq<AckBatch>, o: uint64, t: Ack) {
    exists i :: 0 <= i < |ranges| && Covers(ranges[i], o) && ranges[i].ack == t
  }

  ghost predicate SameMeaning(ranges: seq<AckBatch>, acks: Acks) {
    forall o: uint64, t: Ack {:trigger Says(ranges, o, t)} :: Says(ranges, o, t) <==> AckOf(acks, o) == Some(t)
  }

  lemma {:induction false} AckAtSays(ranges: seq<AckBatch>, o: uint64, i: nat)
    requires Apart(ranges) && i < |ranges| && Covers(ranges[i], o)
    ensures AckAt(ranges, o) == Some(ranges[i].ack)
  {
    if i < |ranges| - 1 {
      AckAtSays(ranges[..|ranges| - 1], o, i);
    }
  }

  lemma {:induction false} AckAtFrom(ranges: seq<AckBatch>, o: uint64) returns (i: nat)
    requires AckAt(ranges, o).Some?
    ensures i < |ranges| && Covers(ranges[i], o) && AckAt(ranges, o) == Some(ranges[i].ack)
  {
    if Covers(ranges[|ranges| - 1], o) {
      i := |ranges| - 1;
    } else {
      i := AckAtFrom(ranges[..|ranges| - 1], o);
    }
  }

  /** A single range cannot reach over the starts of two merged ones. */
  lemma NoneCoversTwo(ranges: seq<AckBatch>, other: seq<AckBatch>, acks: Acks, b: AckBatch, i: nat, j: nat)
    requires Apart(ranges) && Merged(ranges) && Expands(ranges, acks) && SameMeaning(other, acks)
    requires b in other && i < j < |ranges| && Covers(b, ranges[i].first)
    ensures !Covers(b, ranges[j].first)
  {
    assert Says(other, ranges[i].first, b.ack);
    AckAtSays(ranges, ranges[i].first, i);
    var o: uint64 := ranges[i].last + 1;
    assert ranges[i + 1].first <= ranges[j].first;
    assert b.ack == ranges[i].ack;
    if Covers(b, o) {
      assert Says(other, o, b.ack);
      assert AckAt(ranges, o) == Some(b.ack);
      var k := AckAtFrom(ranges, o);
    }
  }

  /** Any list of ranges that says the same of every offset is at least as long. */
  lemma CoalescedIsMinimal(ranges: seq<AckBatch>, other: seq<AckBatch>, acks: Acks)
    requires Apart(ranges) && Merged(ranges) && Expands(ranges, acks) && SameMeaning(other, acks)
    ensures |ranges| <= |other|
  {
    var picks: seq<nat> := [];
    while |picks| < |ranges|
      invariant |picks| <= |ranges|
      invariant forall i :: 0 <= i < |picks| ==> picks[i] < |other| && Covers(other[picks[i]], ranges[i].first)
    {
      var i := |picks|;
      AckAtSays(ranges, ranges[i].first, i);
      assert Says(other, ranges[i].first, ranges[i].ack);
      var r: nat :| r < |other| && Covers(other[r], ranges[i].first) && other[r].ack == ranges[i].ack;
      picks := picks + [r];
    }
    forall i, j | 0 <= i < j < |picks|
      ensures picks[i] != picks[j]
    {
      if picks[i] == picks[j] {
        NoneCoversTwo(ranges, other, acks, other[picks[i]], i, j);
      }
    }
    Pigeonhole(picks, |other|);
  }

  /** The coalesced list itself means the map in the same sense, so the bound is met. */
  lemma CoalescedMeansTheSame(ranges: seq<AckBatch>, acks: Acks)
    requires Apart(ranges) && Expands(ranges, acks)
    ensures SameMeaning(ranges, acks)
  {
    forall o: uint64, t: Ack
      ensures Says(ranges, o, t) <==> AckOf(acks, o) == Some(t)
    {
      assert AckAt(ranges, o) == AckOf(acks, o);
      if Says(ranges, o, t) {
        var i :| 0 <= i < |ranges| && Covers(ranges[i], o) && ranges[i].ack == t;
        AckAtSays(ranges, o, i);
      }
      if AckOf(acks, o) == Some(t) {
        var i := AckAtFrom(ranges, o);
      }
    }
  }
}
