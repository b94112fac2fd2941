/**
 Request pipelining on one connection: the window of expected correlation ids, the send loop
 that keeps it topped up, and what matching responses first-in first-out guarantees.
 */
module Pipeline {
  import opened Bytes
  import opened Wrappers

  datatype Failure = Disconnected | Mismatch(expected: uint32, echoed: uint32)

  /** What the connection yields for one read: a response with the id it echoes, or nothing more. */
  datatype Reply<+R> = Answer(echo: uint32, body: R) | Broken

  function VerifyCorrelationId(expected: uint32, echoed: uint32): Option<Failure> {
    if expected != echoed then Some(Mismatch(expected, echoed)) else None
  }

  class InFlightWindow {
    const maxInFlight: nat
    var pending: seq<uint32>

    ghost predicate Valid()
      reads this
    {
      1 <= maxInFlight && |pending| <= maxInFlight
    }

    constructor (maxInFlight: nat)
      ensures Valid() && pending == [] && this.maxInFlight == AtLeastOne(maxInFlight)
    {
      this.maxInFlight := AtLeastOne(maxInFlight);
      this.pending := [];
    }

    predicate IsFull()
      reads this
    {
      |pending| >= maxInFlight
    }

    method TryPush(id: uint32) returns (pushed: bool)
      requires Valid()
      modifies this
      ensures Valid() && pushed == !old(IsFull())
      ensures pending == if pushed then old(pending) + [id] else old(pending)
    {
      if IsFull() {
        return false;
      }
      pending := pending + [id];
      pushed := true;
    }

    method PopFront() returns (id: Option<uint32>)
      requires Valid()
      modifies this
      ensures Valid() && (id.None? <==> old(pending) == [])
      ensures id.Some? ==> old(pending) == [id.value] + pending
      ensures id.None? ==> pending == []
    {
      if pending == [] {
        return None;
      }
      id := Some(pending[0]);
      pending := pending[1..];
    }
  }

  /** The larger of `n` and 1. */
  function AtLeastOne(n: nat): (r: nat)
    ensures 1 <= r && n <= r && (r == 1 || r == n)
  {
    if n == 0 then 1 else n
  }

  /** What crosses the connection, in order: a request written, a response taken. */
  datatype Traffic = Wrote | Took

  /** Requests written and not yet answered after this much traffic. */
  function Outstanding(log: seq<Traffic>): int {
    if log == [] then 0
    else Outstanding(log[..|log| - 1]) + if log[|log| - 1] == Wrote then 1 else -1
  }

  /** What the other end does: whether it takes the `n`-th write, and what the `n`-th read yields. */
  datatype Line<R> = Line(takes: nat -> bool, replies: nat -> Reply<R>)

  /** The same line, seen from where this much was written and read. */
  function Ahead<R>(line: Line<R>, written: nat, taken: nat): Line<R> {
    Line((k: nat) => line.takes(written + k), (k: nat) => line.replies(taken + k))
  }

  /** The connection: requests written so far, how many replies were read off it, and in what order. */
  class Connection<Q, R> {
    const line: Line<R>
    var written: seq<(uint32, Q)>
    var taken: nat
    ghost var log: seq<Traffic>

    ghost predicate Valid()
      reads this
    {
      taken <= |written| && Outstanding(log) == |written| - taken
    }

    constructor (line: Line<R>)
      ensures Valid() && this.line == line && written == [] && taken == 0 && log == []
    {
      this.line := line;
      written, taken, log := [], 0, [];
    }

    method Write(id: uint32, request: Q) returns (ok: bool)
      requires Valid()
      modifies `written, `log
      ensures Valid() && ok == Takes(line, |old(written)|)
      ensures ok ==> written == old(written) + [(id, request)] && log == old(log) + [Wrote]
      ensures !ok ==> unchanged(this)
    {
      ok := line.takes(|written|);
      if ok {
        written := written + [(id, request)];
        assert (log + [Wrote])[..|log|] == log;
        log := log + [Wrote];
      }
    }

    /** Would wait for ever if no request were outstanding, so that is demanded of the caller. */
    method ReadResponse(expected: uint32) returns (r: Result<R, Failure>)
      requires Valid() && taken < |written|
      modifies `taken, `log
      ensures Valid() && taken == old(taken) + 1 && log == old(log) + [Took]
      ensures r == Received(expected, line, old(taken))
    {
      var reply := line.replies(taken);
      taken := taken + 1;
      assert (log + [Took])[..|log|] == log;
      log := log + [Took];
      match reply {
        case Broken => r := Err(Disconnected);
        case Answer(echo, body) =>
          match VerifyCorrelationId(expected, echo)
          case Some(f) => r := Err(f);
          case None => r := Ok(body);
      }
    }
  }

  function Accepted<R>(expected: uint32, reply: Reply<R>): Result<R, Failure> {
    match reply
    case Broken => Err(Disconnected)
    case Answer(echo, body) => if echo == expected then Ok(body) else Err(Mismatch(expected, echo))
  }

  predicate Takes<R>(line: Line<R>, n: nat) {
    line.takes(n)
  }

  /** What reading the `n`-th reply gives to a caller that expects this id. */
  function Received<R>(expected: uint32, line: Line<R>, n: nat): Result<R, Failure> {
    Accepted(expected, line.replies(n))
  }

  lemma AheadIsLater<R>(line: Line<R>, written: nat, taken: nat, expected: uint32, k: nat)
    ensures Takes(Ahead(line, written, taken), k) == Takes(line, written + k)
    ensures Received(expected, Ahead(line, written, taken), k) == Received(expected, line, taken + k)
  {
  }

  function Framed<Q>(ids: nat -> uint32, requests: seq<Q>, n: nat): (s: seq<(uint32, Q)>)
    requires n <= |requests|
    ensures |s| == n
  {
    seq(n, i requires 0 <= i < n => (ids(i), requests[i]))
  }

  function Between(ids: nat -> uint32, from: nat, upTo: nat): (s: seq<uint32>)
    requires from <= upTo
    ensures |s| == upTo - from
  {
    seq(upTo - from, i requires 0 <= i => ids(from + i))
  }

  function Smaller(a: nat, b: nat): nat {
    if a < b then a else b
  }

  /** How many requests are out when the `k`-th response is awaited. */
  function SentBefore(total: nat, window: nat, k: nat): nat {
    Smaller(total, k + window)
  }

  function IdAt(ids: nat -> uint32, k: nat): uint32 {
    ids(k)
  }

  /** What becomes of the `k`-th reply. */
  function AcceptedAt<R>(ids: nat -> uint32, line: Line<R>, k: nat): Result<R, Failure> {
    Received(IdAt(ids, k), line, k)
  }

  /** The first replies are accepted, and these are their bodies. */
  ghost predicate AcceptedSoFar<R>(ids: nat -> uint32, line: Line<R>, bodies: seq<R>) {
    forall i {:trigger AcceptedAt(ids, line, i)} :: 0 <= i < |bodies| ==> AcceptedAt(ids, line, i) == Ok(bodies[i])
  }

  /** The first `n` writes go through. */
  ghost predicate TakesFirst<R>(line: Line<R>, n: nat) {
    forall i {:trigger Takes(line, i)} :: 0 <= i < n ==> Takes(line, i)
  }

  lemma FramedNext<Q>(ids: nat -> uint32, requests: seq<Q>, n: nat)
    requires n < |requests|
    ensures Framed(ids, requests, n + 1) == Framed(ids, requests, n) + [(ids(n), requests[n])]
  {
  }

  lemma BetweenNext(ids: nat -> uint32, from: nat, n: nat)
    requires from <= n
    ensures Between(ids, from, n + 1) == Between(ids, from, n) + [ids(n)]
  {
  }

  /** Requests outstanding at moment `i` of the traffic. */
  ghost function OutstandingAt(log: seq<Traffic>, i: nat): int
    requires i <= |log|
  {
    Outstanding(log[..i])
  }

  /** At every moment of the traffic from `from` on, at most `max` requests are outstanding. */
  ghost predicate Bounded(log: seq<Traffic>, from: nat, max: int) {
    forall i {:trigger OutstandingAt(log, i)} :: from <= i <= |log| ==> OutstandingAt(log, i) <= max
  }

  /**
   Whenever a response is taken from `from` on, the `k`-th one say, everything the window allows
   is out, besides the `stale` requests nobody waits for any more.
   */
  ghost predicate ToppedUp(log: seq<Traffic>, from: nat, stale: int, total: nat, window: nat) {
    forall i {:trigger OutstandingAt(log, i)} :: from <= i < |log| && log[i] == Took ==>
      OutstandingAt(log, i) == stale + SentBefore(total, window, TakenBetween(log, from, i)) - TakenBetween(log, from, i)
  }

  function Taken(log: seq<Traffic>): nat {
    if log == [] then 0 else Taken(log[..|log| - 1]) + if log[|log| - 1] == Took then 1 else 0
  }

  /** Responses taken from moment `from` to moment `i`. */
  ghost function TakenBetween(log: seq<Traffic>, from: nat, i: nat): nat
    requires from <= i <= |log|
  {
    Taken(log[from..i])
  }

  lemma EarlierIsTheSame(log: seq<Traffic>, e: Traffic, from: nat, i: nat)
    requires from <= i <= |log|
    ensures OutstandingAt(log + [e], i) == OutstandingAt(log, i)
    ensures TakenBetween(log + [e], from, i) == TakenBetween(log, from, i)
    ensures OutstandingAt(log, |log|) == Outstanding(log)
  {
    assert (log + [e])[..i] == log[..i] && (log + [e])[from..i] == log[from..i] && log[..|log|] == log;
  }

  lemma TakenNext(log: seq<Traffic>, e: Traffic, from: nat)
    requires from <= |log|
    ensures TakenBetween(log + [e], from, |log| + 1) == TakenBetween(log, from, |log|) + if e == Took then 1 else 0
  {
    assert (log + [e])[from..|log| + 1] == log[from..|log|] + [e];
    assert (log[from..|log|] + [e])[..|log| - from] == log[from..|log|];
  }

  lemma BoundedNext(log: seq<Traffic>, e: Traffic, from: nat, max: int)
    requires from <= |log| && Bounded(log, from, max) && Outstanding(log + [e]) <= max
    ensures Bounded(log + [e], from, max)
  {
    forall i | from <= i <= |log + [e]|
      ensures OutstandingAt(log + [e], i) <= max
    {
      if i <= |log| {
        EarlierIsTheSame(log, e, from, i);
      } else {
        assert (log + [e])[..i] == log + [e];
      }
    }
  }

  lemma ToppedUpNext(log: seq<Traffic>, e: Traffic, from: nat, stale: int, total: nat, window: nat, done: nat)
    requires from <= |log| && ToppedUp(log, from, stale, total, window) && TakenBetween(log, from, |log|) == done
    requires e == Took ==> Outstanding(log) == stale + SentBefore(total, window, done) - done
    ensures ToppedUp(log + [e], from, stale, total, window)
  {
    var more := log + [e];
    forall i | from <= i < |more| && more[i] == Took
      ensures var k := TakenBetween(more, from, i); OutstandingAt(more, i) == stale + SentBefore(total, window, k) - k
    {
      EarlierIsTheSame(log, e, from, i);
    }
  }

  /** How a connection stood when a call began. */
  datatype Mark<Q> = Mark(log: nat, written: seq<(uint32, Q)>, taken: nat) {
    ghost function Stale(): int {
      |written| - taken
    }

    ghost function LineAhead<R>(line: Line<R>): Line<R> {
      Ahead(line, |written|, taken)
    }
  }

  /** What the traffic since the call began looks like between two steps of the loop. */
  ghost predicate Paced(log: seq<Traffic>, from: nat, stale: int, total: nat, window: nat, done: nat) {
    && from <= |log| && Bounded(log, from, stale + window) && ToppedUp(log, from, stale, total, window)
    && TakenBetween(log, from, |log|) == done
  }

  lemma PacedByWrite(log: seq<Traffic>, from: nat, stale: int, total: nat, window: nat, done: nat)
    requires Paced(log, from, stale, total, window, done) && Outstanding(log) < stale + window
    ensures Paced(log + [Wrote], from, stale, total, window, done)
  {
    assert (log + [Wrote])[..|log|] == log;
    BoundedNext(log, Wrote, from, stale + window);
    ToppedUpNext(log, Wrote, from, stale, total, window, done);
    TakenNext(log, Wrote, from);
  }

  lemma PacedByRead(log: seq<Traffic>, from: nat, stale: int, total: nat, window: nat, done: nat)
    requires Paced(log, from, stale, total, window, done)
    requires Outstanding(log) == stale + SentBefore(total, window, done) - done
    ensures Paced(log + [Took], from, stale, total, window, done + 1)
  {
    assert (log + [Took])[..|log|] == log;
    BoundedNext(log, Took, from, stale + window);
    ToppedUpNext(log, Took, from, stale, total, window, done);
    TakenNext(log, Took, from);
  }

  ghost predicate Topping<Q, R>(conn: Connection<Q, R>, window: InFlightWindow, ids: nat -> uint32, requests: seq<Q>,
                                done: nat, sent: nat, m: Mark<Q>)
    reads conn, window
  {
    && window.Valid() && done <= sent <= |requests| && window.pending == Between(ids, done, sent)
    && conn.Valid() && m.taken <= |m.written|
    && Paced(conn.log, m.log, m.Stale(), |requests|, window.maxInFlight, done)
    && conn.written == m.written + Framed(ids, requests, sent) && conn.taken == m.taken + done
  }

  /**
   Sends until the window is full or the requests run out, or a write fails. No push is ever
   turned away.
   */
  method TopUp<Q, R>(conn: Connection<Q, R>, window: InFlightWindow, ids: nat -> uint32, requests: seq<Q>,
                     ghost done: nat, sent: nat, ghost m: Mark<Q>)
    returns (ok: bool, now: nat)
    requires Topping(conn, window, ids, requests, done, sent, m) && TakesFirst(m.LineAhead(conn.line), sent)
    modifies conn`written, conn`log, window
    ensures Topping(conn, window, ids, requests, done, now, m) && old(conn.log) <= conn.log
    ensures TakesFirst(m.LineAhead(conn.line), now)
    ensures ok ==> now == SentBefore(|requests|, window.maxInFlight, done)
    ensures !ok ==> now < SentBefore(|requests|, window.maxInFlight, done) && !Takes(m.LineAhead(conn.line), now)
  {
    ok, now := true, sent;
    while !window.IsFull() && now < |requests|
      invariant Topping(conn, window, ids, requests, done, now, m) && old(conn.log) <= conn.log
      invariant TakesFirst(m.LineAhead(conn.line), now)
      decreases |requests| - now
    {
      ok := SendOne(conn, window, ids, requests, done, now, m);
      if !ok {
        return;
      }
      now := now + 1;
    }
  }

  method SendOne<Q, R>(conn: Connection<Q, R>, window: InFlightWindow, ids: nat -> uint32, requests: seq<Q>,
                       ghost done: nat, at: nat, ghost m: Mark<Q>)
    returns (ok: bool)
    requires Topping(conn, window, ids, requests, done, at, m) && !window.IsFull() && at < |requests|
    modifies conn`written, conn`log, window
    ensures ok == Takes(m.LineAhead(conn.line), at)
    ensures ok ==> Topping(conn, window, ids, requests, done, at + 1, m) && conn.log == old(conn.log) + [Wrote]
    ensures !ok ==> Topping(conn, window, ids, requests, done, at, m) && conn.log == old(conn.log) && !window.IsFull()
  {
    ghost var log := conn.log;
    AheadIsLater(conn.line, |m.written|, m.taken, 0, at);
    ok := conn.Write(ids(at), requests[at]);
    if ok {
      FramedNext(ids, requests, at);
      PacedByWrite(log, m.log, m.Stale(), |requests|, window.maxInFlight, done);
      var pushed := window.TryPush(ids(at));
      assert pushed;
      BetweenNext(ids, done, at);
    }
  }

  lemma BetweenFront(ids: nat -> uint32, from: nat, upTo: nat, first: uint32, rest: seq<uint32>)
    requires from <= upTo && Between(ids, from, upTo) == [first] + rest
    ensures from < upTo && first == IdAt(ids, from) && rest == Between(ids, from + 1, upTo)
  {
    assert Between(ids, from, upTo)[0] == first;
    assert Between(ids, from, upTo)[1..] == rest;
  }

  /** Before anything is sent, the window and the connection are ready. */
  lemma Starts<Q, R>(conn: Connection<Q, R>, window: InFlightWindow, ids: nat -> uint32, requests: seq<Q>)
    requires conn.Valid() && window.Valid() && window.pending == []
    ensures Topping(conn, window, ids, requests, 0, 0, Mark(|conn.log|, conn.written, conn.taken))
  {
    assert conn.log[..|conn.log|] == conn.log && conn.log[|conn.log|..] == [];
    assert conn.written + Framed(ids, requests, 0) == conn.written;
  }

  lemma AcceptedMore<R>(ids: nat -> uint32, line: Line<R>, bodies: seq<R>, body: R)
    requires AcceptedSoFar(ids, line, bodies) && AcceptedAt(ids, line, |bodies|) == Ok(body)
    ensures AcceptedSoFar(ids, line, bodies + [body])
  {
  }

  /**
   What sending `n` requests comes to: the bodies of all replies, in order, if every write goes
   through and every reply arrives and echoes the id in its place, and otherwise the first failure.
   */
  ghost predicate Outcome<R(!new)>(ids: nat -> uint32, line: Line<R>, n: nat, window: nat, r: Result<seq<R>, Failure>) {
    match r
    case Ok(bodies) => |bodies| == n && AcceptedSoFar(ids, line, bodies) && TakesFirst(line, n)
    case Err(f) => exists k :: FailsFirstAt(ids, line, n, window, k, f)
  }

  /** With `k` replies accepted, topping the window up fails, or it does not and the next reply does. */
  ghost predicate FailsFirstAt<R(!new)>(ids: nat -> uint32, line: Line<R>, n: nat, window: nat, k: nat, f: Failure) {
    && k < n && (forall i {:trigger AcceptedAt(ids, line, i)} :: 0 <= i < k ==> AcceptedAt(ids, line, i).Ok?)
    && (k > 0 ==> TakesFirst(line, SentBefore(n, window, k - 1)))
    && if TakesFirst(line, SentBefore(n, window, k)) then AcceptedAt(ids, line, k) == Err(f) else f == Disconnected
  }

  lemma ReplyFails<R(!new)>(ids: nat -> uint32, line: Line<R>, n: nat, window: nat, bodies: seq<R>, f: Failure)
    requires AcceptedSoFar(ids, line, bodies) && |bodies| < n && TakesFirst(line, SentBefore(n, window, |bodies|))
    requires AcceptedAt(ids, line, |bodies|) == Err(f)
    ensures Outcome(ids, line, n, window, Err(f))
  {
    assert FailsFirstAt(ids, line, n, window, |bodies|, f);
  }

  lemma WriteFails<R(!new)>(ids: nat -> uint32, line: Line<R>, n: nat, window: nat, bodies: seq<R>, at: nat)
    requires AcceptedSoFar(ids, line, bodies) && |bodies| < n
    requires |bodies| > 0 ==> TakesFirst(line, SentBefore(n, window, |bodies| - 1))
    requires at < SentBefore(n, window, |bodies|) && !Takes(line, at)
    ensures Outcome<R>(ids, line, n, window, Err(Disconnected))
  {
    assert FailsFirstAt(ids, line, n, window, |bodies|, Disconnected);
  }

  /**
   Sends every request and pairs each with the reply in its place. Besides the requests an
   earlier, failed call left unanswered, no more than max(1, `maxInFlight`) are outstanding at
   any moment, and as many as that allows whenever a response is awaited.
   */
  method SendPipelined<Q, R(!new)>(conn: Connection<Q, R>, ids: nat -> uint32, requests: seq<Q>, maxInFlight: nat)
    returns (r: Result<seq<R>, Failure>)
    requires conn.Valid()
    modifies conn
    ensures conn.Valid() && old(conn.log) <= conn.log
    ensures Bounded(conn.log, |old(conn.log)|, Outstanding(old(conn.log)) + AtLeastOne(maxInFlight))
    ensures ToppedUp(conn.log, |old(conn.log)|, Outstanding(old(conn.log)), |requests|, AtLeastOne(maxInFlight))
    ensures Outcome(ids, Ahead(conn.line, |old(conn.written)|, old(conn.taken)), |requests|, AtLeastOne(maxInFlight), r)
    ensures r.Ok? ==> conn.written == old(conn.written) + Framed(ids, requests, |requests|)
                      && conn.taken == old(conn.taken) + |requests|
  {
    var window := new InFlightWindow(maxInFlight);
    var responses: seq<R>, sent: nat := [], 0;
    ghost var m := Mark(|conn.log|, conn.written, conn.taken);
    Starts(conn, window, ids, requests);
    while true
      invariant fresh(window) && window.maxInFlight == AtLeastOne(maxInFlight) && old(conn.log) <= conn.log
      invariant Exchanging(conn, window, ids, requests, responses, sent, m)
      decreases |requests| - |responses|
    {
      var next;
      next, sent := Exchange(conn, window, ids, requests, responses, sent, m);
      match next {
        case None =>
          return Ok(responses);
        case Some(Err(f)) =>
          return Err(f);
        case Some(Ok(body)) =>
          responses := responses + [body];
      }
    }
  }

  /** What holds whenever the loop comes round. */
  ghost predicate Exchanging<Q, R(!new)>(conn: Connection<Q, R>, window: InFlightWindow, ids: nat -> uint32,
                                         requests: seq<Q>, responses: seq<R>, sent: nat, m: Mark<Q>)
    reads conn, window
  {
    && Topping(conn, window, ids, requests, |responses|, sent, m)
    && AcceptedSoFar(ids, m.LineAhead(conn.line), responses) && TakesFirst(m.LineAhead(conn.line), sent)
    && (responses != [] ==> sent == SentBefore(|requests|, window.maxInFlight, |responses| - 1))
  }

  /** Once round the loop: the window topped up, then one response. */
  method Exchange<Q, R(!new)>(conn: Connection<Q, R>, window: InFlightWindow, ids: nat -> uint32, requests: seq<Q>,
                              ghost responses: seq<R>, sent: nat, ghost m: Mark<Q>)
    returns (next: Option<Result<R, Failure>>, now: nat)
    requires Exchanging(conn, window, ids, requests, responses, sent, m)
    modifies conn, window
    ensures conn.Valid() && old(conn.log) <= conn.log
    ensures exists done :: Paced(conn.log, m.log, m.Stale(), |requests|, window.maxInFlight, done)
    ensures next.None? ==>
              |responses| == |requests| == now && Exchanging(conn, window, ids, requests, responses, now, m)
    ensures next.Some? && next.value.Ok? ==>
              Exchanging(conn, window, ids, requests, responses + [next.value.value], now, m)
    ensures next.Some? && next.value.Err? ==>
              |responses| < |requests|
              && Outcome<R>(ids, m.LineAhead(conn.line), |requests|, window.maxInFlight, Err(next.value.error))
  {
    ghost var line, total, max := m.LineAhead(conn.line), |requests|, window.maxInFlight;
    var ok;
    ok, now := TopUp(conn, window, ids, requests, |responses|, sent, m);
    if !ok {
      WriteFails(ids, line, total, max, responses, now);
      return Some(Err(Disconnected)), now;
    }
    next := TakeNext(conn, window, ids, requests, |responses|, now, m);
    if next.Some? {
      if next.value.Ok? {
        AcceptedMore(ids, line, responses, next.value.value);
      } else {
        ReplyFails(ids, line, total, max, responses, next.value.error);
      }
    }
  }

  /** The response to the oldest id in the window, or nothing if everything was answered. */
  method TakeNext<Q, R>(conn: Connection<Q, R>, window: InFlightWindow, ghost ids: nat -> uint32, ghost requests: seq<Q>,
                        ghost done: nat, ghost sent: nat, ghost m: Mark<Q>)
    returns (next: Option<Result<R, Failure>>)
    requires Topping(conn, window, ids, requests, done, sent, m)
    requires sent == SentBefore(|requests|, window.maxInFlight, done)
    modifies conn`taken, conn`log, window
    ensures next.None? <==> done == |requests|
    ensures old(conn.log) <= conn.log
    ensures Topping(conn, window, ids, requests, if next.None? then done else done + 1, sent, m)
    ensures next.Some? ==> next.value == AcceptedAt(ids, m.LineAhead(conn.line), done)
  {
    var expected := window.PopFront();
    if expected.None? {
      return None;
    }
    BetweenFront(ids, done, sent, expected.value, window.pending);
    var got := AwaitOne(conn, expected.value, ids, m, |requests|, window.maxInFlight, done);
    next := Some(got);
  }

  method AwaitOne<Q, R>(conn: Connection<Q, R>, expected: uint32, ghost ids: nat -> uint32, ghost m: Mark<Q>,
                        ghost total: nat, ghost window: nat, ghost done: nat)
    returns (got: Result<R, Failure>)
    requires conn.Valid() && conn.taken < |conn.written| && conn.taken == m.taken + done && expected == IdAt(ids, done)
    requires Paced(conn.log, m.log, m.Stale(), total, window, done)
    requires |conn.written| - conn.taken == m.Stale() + SentBefore(total, window, done) - done
    modifies conn`taken, conn`log
    ensures conn.Valid() && conn.log == old(conn.log) + [Took] && conn.taken == m.taken + done + 1
    ensures Paced(conn.log, m.log, m.Stale(), total, window, done + 1)
    ensures got == AcceptedAt(ids, m.LineAhead(conn.line), done)
  {
    AheadIsLater(conn.line, |m.written|, m.taken, expected, done);
    PacedByRead(conn.log, m.log, m.Stale(), total, window, done);
    got := conn.ReadResponse(expected);
  }

  /** A call succeeds exactly if every write goes through and every reply echoes the id in its place. */
  lemma SucceedsIff<R(!new)>(ids: nat -> uint32, line: Line<R>, n: nat, window: nat, r: Result<seq<R>, Failure>)
    requires Outcome(ids, line, n, window, r)
    ensures r.Ok? <==>
            && TakesFirst(line, n)
            && forall k :: 0 <= k < n ==> line.replies(k).Answer? && line.replies(k).echo == ids(k)
  {
    if r.Ok? {
      forall k | 0 <= k < n
        ensures line.replies(k).Answer? && line.replies(k).echo == ids(k)
      {
        assert AcceptedAt(ids, line, k) == Ok(r.value[k]);
      }
    }
  }

  /** Against an in-order broker, whose k-th reply answers the k-th request, all responses come back in order. */
  lemma InOrderBrokerAnswersAll<Q, R(!new)>(ids: nat -> uint32, line: Line<R>, requests: seq<Q>, window: nat,
                                            answer: Q -> R, r: Result<seq<R>, Failure>)
    requires Outcome(ids, line, |requests|, window, r) && TakesFirst(line, |requests|)
    requires forall k :: 0 <= k < |requests| ==> line.replies(k) == Answer(ids(k), answer(requests[k]))
    ensures r.Ok? && r.value == seq(|requests|, k requires 0 <= k < |requests| => answer(requests[k]))
  {
    forall k | 0 <= k < |requests|
      ensures AcceptedAt(ids, line, k) == Ok(answer(requests[k]))
    {
    }
  }

  // ---------------------------------------------------------------- why the check is enough

  /** Ids within one window are all different. */
  ghost predicate DistinctInWindows(ids: nat -> uint32, total: nat, window: nat) {
    forall i, j :: 0 <= i < j < SentBefore(total, window, i) ==> ids(i) != ids(j)
  }

  /**
   A broker that answers requests it has received, each once, in an order of its own: reply `k`
   answers request `from(k)`.
   */
  ghost predicate AnswersReceived(from: nat -> nat, total: nat, window: nat) {
    && (forall k :: 0 <= k < total ==> from(k) < SentBefore(total, window, k))
    && (forall j, k :: 0 <= j < k < total ==> from(j) != from(k))
  }

  /** If every reply passes the id check, the broker kept the order: no response was mispaired. */
  lemma {:induction false} AcceptedMeansInOrder(ids: nat -> uint32, from: nat -> nat, total: nat, window: nat, k: nat)
    requires DistinctInWindows(ids, total, window) && AnswersReceived(from, total, window) && k < total
    requires forall i :: 0 <= i <= k ==> ids(from(i)) == ids(i)
    ensures forall i :: 0 <= i <= k ==> from(i) == i
  {
    var j: nat := from(k);
    // an earlier `j` was already used up by its own reply, a later one has another id
    var again, id := from(j), ids(j);
    if k > 0 {
      AcceptedMeansInOrder(ids, from, total, window, k - 1);
    }
  }

  /**
   Against any broker that answers what it has received, each request once, in whatever order:
   if the call succeeds, every response returned answers the request in its place.
   */
  lemma ResponsesArePaired<Q, R(!new)>(ids: nat -> uint32, line: Line<R>, requests: seq<Q>, maxInFlight: nat,
                                       from: nat -> nat, answer: Q -> R, r: Result<seq<R>, Failure>)
    requires Outcome(ids, line, |requests|, AtLeastOne(maxInFlight), r) && r.Ok?
    requires DistinctInWindows(ids, |requests|, AtLeastOne(maxInFlight))
    requires AnswersReceived(from, |requests|, AtLeastOne(maxInFlight))
    requires forall k :: 0 <= k < |requests| ==> line.replies(k) == Answer(ids(from(k)), answer(requests[from(k)]))
    ensures r.value == seq(|requests|, k requires 0 <= k < |requests| => answer(requests[k]))
  {
    forall k | 0 <= k < |requests|
      ensures ids(from(k)) == ids(k) && r.value[k] == answer(requests[from(k)])
    {
      assert AcceptedAt(ids, line, k) == Ok(r.value[k]);
    }
    if requests != [] {
      AcceptedMeansInOrder(ids, from, |requests|, AtLeastOne(maxInFlight), |requests| - 1);
    }
  }

  /** Ids come off one shared wrapping counter; other callers may take some in between. */
  function IdOf(ticket: nat): uint32 {
    ticket % 0x1_0000_0000
  }

  lemma NearTicketsDiffer(a: nat, b: nat)
    requires a < b < a + 0x1_0000_0000
    ensures IdOf(a) != IdOf(b)
  {
  }

  /**
   On a connection that an earlier call gave up on, the first reply still answers one of its
   requests. It is never taken for an answer to a new one.
   */
  lemma StaleReplyIsNoticed<R(!new)>(ids: nat -> uint32, tickets: nat -> nat, line: Line<R>, n: nat, window: nat,
                                     earlier: nat, r: Result<seq<R>, Failure>)
    requires Outcome(ids, line, n, window, r) && n > 0
    requires line.replies(0).Answer? && line.replies(0).echo == IdOf(earlier)
    requires ids(0) == IdOf(tickets(0)) && earlier < tickets(0) < earlier + 0x1_0000_0000
    ensures r == Err(if TakesFirst(line, SentBefore(n, window, 0)) then Mismatch(ids(0), IdOf(earlier)) else Disconnected)
  {
    NearTicketsDiffer(earlier, tickets(0));
    assert AcceptedAt(ids, line, 0) == Err(Mismatch(ids(0), IdOf(earlier)));
    if r.Err? {
      var k :| FailsFirstAt(ids, line, n, window, k, r.error);
      assert k == 0;
    }
  }

  /** Tickets go up, and fewer than 2^32 are handed out while any one window is open. */
  ghost predicate WithinOneLap(tickets: nat -> nat, total: nat, window: nat) {
    && (forall i, j :: 0 <= i < j ==> tickets(i) < tickets(j))
    && (forall i, j :: 0 <= i < j < SentBefore(total, window, i) ==> tickets(j) < tickets(i) + 0x1_0000_0000)
  }

  /** Then the ids in every window are distinct, wrapping or not. */
  lemma CounterIsDistinct(ids: nat -> uint32, tickets: nat -> nat, total: nat, window: nat)
    requires WithinOneLap(tickets, total, window) && forall k :: ids(k) == IdOf(tickets(k))
    ensures DistinctInWindows(ids, total, window)
  {
    forall i, j | 0 <= i < j < SentBefore(total, window, i)
      ensures ids(i) != ids(j)
    {
      NearTicketsDiffer(tickets(i), tickets(j));
    }
  }

  /** A connection that has the counter to itself stays within a lap, if its window does. */
  lemma OwnCounterStaysWithinOneLap(start: nat, total: nat, window: nat)
    requires window <= 0x1_0000_0000
    ensures WithinOneLap((k: nat) => start + k, total, window)
  {
  }

  /** End to end, with ids off the counter. */
  lemma CountedResponsesArePaired<Q, R(!new)>(ids: nat -> uint32, tickets: nat -> nat, line: Line<R>,
                                              requests: seq<Q>, maxInFlight: nat, from: nat -> nat, answer: Q -> R,
                                              r: Result<seq<R>, Failure>)
    requires Outcome(ids, line, |requests|, AtLeastOne(maxInFlight), r) && r.Ok?
    requires WithinOneLap(tickets, |requests|, AtLeastOne(maxInFlight)) && forall k :: ids(k) == IdOf(tickets(k))
    requires AnswersReceived(from, |requests|, AtLeastOne(maxInFlight))
    requires forall k :: 0 <= k < |requests| ==> line.replies(k) == Answer(ids(from(k)), answer(requests[from(k)]))
    ensures r.value == seq(|requests|, k requires 0 <= k < |requests| => answer(requests[k]))
  {
    CounterIsDistinct(ids, tickets, |requests|, AtLeastOne(maxInFlight));
    ResponsesArePaired(ids, line, requests, maxInFlight, from, answer, r);
  }
}
