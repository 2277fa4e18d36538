/**
 Whole runs of the context managers: what any user sees, a first use from nothing, and that the
 multi-buffer and the synchronous manager give the same answers.
 */
module HashRuns {
  import opened Bytes
  import opened MessagePadding
  import opened HashContext
  import opened HashManager
  import HashBase

  // ----- any user -----

  /** What a user may ask of the manager. */
  datatype Request = SubmitRequest(ctx: HashCtx, buffer: seq<byte>, flags: nat) | FlushRequest

  ghost predicate AtMostOneReturn(before: History, after: History) {
    after == before || (after.Then? && after.event.Returned? && after.before == before)
  }

  /**
   What one call adds to the history, where the manager knows these contexts: a refused request
   adds nothing, any other one its acceptance and then perhaps the return of some context.  A flush
   adds one return, or nothing when no context is in flight.
   */
  ghost predicate Answers(known: set<HashCtx>, before: History, q: Request, after: History) {
    match q
    case FlushRequest => AtMostOneReturn(before, after) && (after == before ==> OpenAmong(before, known) == {})
    case SubmitRequest(c, data, flags) =>
      if Refusal(before, c, flags) != NoError then after == before
      else AtMostOneReturn(Then(before, Accepted(c, data, HasFirst(flags), HasLast(flags))), after)
  }

  /** The acceptances of a history, in order. */
  ghost function Acceptances(h: History): seq<Event> {
    match h
    case Start => []
    case Then(before, e) => Acceptances(before) + if e.Accepted? then [e] else []
  }

  /** The acceptance that a request leads to where it is not refused. */
  ghost function Passing(before: History, q: Request): seq<Event> {
    match q
    case FlushRequest => []
    case SubmitRequest(c, data, flags) =>
      if Refusal(before, c, flags) != NoError then [] else [Accepted(c, data, HasFirst(flags), HasLast(flags))]
  }

  /** The requests that were not refused at the points where they were made, in order. */
  ghost function Passed(points: seq<History>, requests: seq<Request>): seq<Event>
    requires |points| > |requests|
  {
    if requests == [] then []
    else
      var n := |requests| - 1;
      Passed(points, requests[..n]) + Passing(points[n], requests[n])
  }

  lemma AnswerAccepts(known: set<HashCtx>, before: History, q: Request, after: History)
    requires Answers(known, before, q, after)
    ensures Acceptances(after) == Acceptances(before) + Passing(before, q)
  {
  }

  lemma {:induction false} ReturnsAcceptNothing(was: History, h: History)
    requires OnlyReturns(was, h)
    ensures Acceptances(h) == Acceptances(was)
  {
    if h != was {
      ReturnsAcceptNothing(was, h.before);
    }
  }

  /** One request of the run. */
  method Ask(m: HashCtxMgr, q: Request)
    requires m.Valid()
    requires q.SubmitRequest? ==> q.ctx in m.known && |q.buffer| < 0x1_0000_0000
    modifies m`lanes, m`history, m.known, Buffers(m.known)
    ensures m.Valid() && Answers(m.known, old(m.history), q, m.history)
  {
    var r: HashCtx?;
    match q {
      case SubmitRequest(ctx, buffer, flags) => r := m.Submit(ctx, buffer, flags);
      case FlushRequest => r := m.Flush();
    }
  }

  /** Each request got its answer at its point of the history. */
  ghost predicate Answered(known: set<HashCtx>, points: seq<History>, requests: seq<Request>) {
    && |points| == |requests| + 1
    && forall i :: 0 <= i < |requests| ==> Answers(known, points[i], requests[i], points[i + 1])
  }

  lemma {:induction false} AcceptedUpTo(known: set<HashCtx>, points: seq<History>, requests: seq<Request>, n: nat)
    requires Answered(known, points, requests) && n <= |requests|
    ensures Acceptances(points[n]) == Acceptances(points[0]) + Passed(points, requests[..n])
  {
    if n > 0 {
      var k := n - 1;
      AcceptedUpTo(known, points, requests, k);
      AnswerAccepts(known, points[k], requests[k], points[k + 1]);
      assert requests[..n][..k] == requests[..k];
    }
  }

  /** The acceptances that answered requests lead to are those of the requests that were not refused. */
  lemma AcceptedInOrder(known: set<HashCtx>, points: seq<History>, requests: seq<Request>)
    requires Answered(known, points, requests)
    ensures Acceptances(points[|requests|]) == Acceptances(points[0]) + Passed(points, requests)
  {
    AcceptedUpTo(known, points, requests, |requests|);
    assert requests[..|requests|] == requests;
  }

  method AskAll(m: HashCtxMgr, requests: seq<Request>) returns (ghost points: seq<History>)
    requires m.Valid()
    requires forall i :: 0 <= i < |requests| && requests[i].SubmitRequest? ==>
               requests[i].ctx in m.known && |requests[i].buffer| < 0x1_0000_0000
    modifies m`lanes, m`history, m.known, Buffers(m.known)
    ensures m.Valid() && Answered(m.known, points, requests)
    ensures points[0] == old(m.history) && points[|requests|] == m.history
  {
    points := [m.history];
    for i := 0 to |requests|
      invariant m.Valid() && |points| == i + 1 && points[0] == old(m.history) && points[i] == m.history
      invariant forall j :: 0 <= j < i ==> Answers(m.known, points[j], requests[j], points[j + 1])
    {
      Ask(m, requests[i]);
      points := points + [m.history];
    }
  }

  /**
   Any user at all: any requests in any order, and flushes at the end.  Whatever the engine does,
   every request had the answer it should have at its point of the history, the acceptances added
   are exactly the requests that were not refused, every event was allowed when it happened, and
   every accepted context has come back.
   */
  method AnyUser(m: HashCtxMgr, requests: seq<Request>) returns (ghost points: seq<History>)
    requires m.Valid()
    requires forall i :: 0 <= i < |requests| && requests[i].SubmitRequest? ==>
               requests[i].ctx in m.known && |requests[i].buffer| < 0x1_0000_0000
    modifies m`lanes, m`history, m.known, Buffers(m.known)
    ensures m.Valid() && Faithful(m.a, m.history)
    ensures Answered(m.known, points, requests)
    ensures points[0] == old(m.history) && OnlyReturns(points[|requests|], m.history)
    ensures Acceptances(m.history) == old(Acceptances(m.history)) + Passed(points, requests)
    ensures forall c :: c in m.known ==> Accepts(m.history, c) == Returns(m.history, c)
  {
    points := AskAll(m, requests);
    m.Drain();
    AcceptedInOrder(m.known, points, requests);
    ReturnsAcceptNothing(points[|requests|], m.history);
    forall c | c in m.known
      ensures Accepts(m.history, c) == Returns(m.history, c)
    {
      ReturnsMatchAccepts(m.a, m.history, c);
      assert c !in OpenAmong(m.history, m.known);
    }
  }

  // ----- a first use -----

  /** A context that is back with its user after LAST holds the hash of its message. */
  lemma BackWithHash(m: HashCtxMgr, c: HashCtx)
    requires m.Valid() && c in m.known && c !in m.lanes && LastRequested(m.history, c)
    ensures c.status == COMPLETE && c.digest == Hash(m.a, MessageOf(m.history, c))
  {
    LastWasAccepted(m.history, c);
    assert c.Held(m.a) && (c.started <==> Ever(m.history, c));
    assert c.msg == MessageOf(m.history, c);
  }

  /** The status bits of a context that is back are the history's: complete before the first FIRST and after LAST. */
  lemma StatusWhenBack(m: HashCtxMgr, c: HashCtx)
    requires m.Valid() && c in m.known && c !in m.lanes
    ensures c.status == Status(false, false, !Ever(m.history, c) || LastRequested(m.history, c))
  {
    assert c.Held(m.a) && (c.started <==> Ever(m.history, c));
    assert c.msg == MessageOf(m.history, c) && c.wantsLast == LastRequested(m.history, c);
  }

  lemma {:induction false} LastWasAccepted(h: History, c: HashCtx)
    requires LastRequested(h, c)
    ensures Ever(h, c)
  {
    if !(h.event.Accepted? && h.event.ctx == c) {
      LastWasAccepted(h.before, c);
    }
  }

  /** A whole message for c in one request. */
  method SubmitWhole(m: HashCtxMgr, c: HashCtx, x: seq<byte>)
    requires m.Valid() && c in m.known && !Open(m.history, c) && |x| < 0x1_0000_0000
    modifies m`lanes, m`history, m.known, Buffers(m.known)
    ensures m.Valid() && MessageOf(m.history, c) == x && LastRequested(m.history, c)
    ensures forall d :: d in m.known && d != c ==> SameFor(old(m.history), m.history, d)
  {
    ghost var h := m.history;
    assert HasFirst(3) && HasLast(3);
    var r := m.Submit(c, x, 3);
    OneWhole(h, c, x, m.history);
    forall d | d in m.known && d != c
      ensures SameFor(h, m.history, d)
    {
      OthersUntouched(h, Accepted(c, x, true, true), m.history, d);
    }
  }

  lemma OneWhole(was: History, c: HashCtx, x: seq<byte>, h: History)
    requires AtMostOneReturn(Then(was, Accepted(c, x, true, true)), h)
    ensures MessageOf(h, c) == x && LastRequested(h, c)
  {
    OnlyReturnsKeep(Then(was, Accepted(c, x, true, true)), h, c);
  }

  lemma OthersUntouched(was: History, e: Event, h: History, d: HashCtx)
    requires e.Accepted? && e.ctx != d && AtMostOneReturn(Then(was, e), h)
    ensures SameFor(was, h, d)
  {
    var mid := Then(was, e);
    assert SameFor(was, mid, d);
  }

  /** For d nothing was accepted in between. */
  ghost predicate SameFor(was: History, h: History, d: HashCtx) {
    && MessageOf(h, d) == MessageOf(was, d) && LastRequested(h, d) == LastRequested(was, d)
    && (Open(h, d) ==> Open(was, d))
  }

  /** A manager and two contexts of its own, as the init calls leave them. */
  method Setup(a: HashAlgorithm) returns (m: HashCtxMgr, c: HashCtx, d: HashCtx)
    ensures fresh(m) && fresh(c) && fresh(c.partial) && fresh(d) && fresh(d.partial)
    ensures m.Valid() && m.a == a && m.known == {c, d} && c != d && m.history == Start
  {
    m := new HashCtxMgr(a, 8);
    c := new HashCtx();
    m.Enroll(c);
    d := new HashCtx();
    m.Enroll(d);
  }

  /** From nothing: a manager, two contexts, one message each, and the two hashes. */
  method TwoMessages(a: HashAlgorithm, x: seq<byte>, y: seq<byte>) returns (dx: Digest, dy: Digest)
    requires |x| < 0x1_0000_0000 && |y| < 0x1_0000_0000
    ensures dx == Hash(a, x) && dy == Hash(a, y)
  {
    var m, c, d := Setup(a);
    SubmitWhole(m, c, x);
    assert SameFor(Start, m.history, d);
    SubmitWhole(m, d, y);
    ghost var h := m.history;
    m.Drain();
    OnlyReturnsKeep(h, m.history, c);
    OnlyReturnsKeep(h, m.history, d);
    BackWithHash(m, c);
    BackWithHash(m, d);
    dx, dy := c.digest, d.digest;
  }

  // ----- the two managers give the same answers -----

  /** One accepted request on one context. */
  datatype Taken = Taken(data: seq<byte>, first: bool, last: bool)

  function Flags(t: Taken): nat {
    (if t.first then 1 else 0) + (if t.last then 2 else 0)
  }

  lemma FlagsSay(t: Taken)
    ensures Flags(t) <= 3 && HasFirst(Flags(t)) == t.first && HasLast(Flags(t)) == t.last
  {
  }

  /** The requests accepted for c, in order. */
  ghost function TakenFor(h: History, c: HashCtx): seq<Taken> {
    match h
    case Start => []
    case Then(before, e) =>
      TakenFor(before, c) + if e.Accepted? && e.ctx == c then [Taken(e.data, e.first, e.last)] else []
  }

  ghost function MessageAfter(ts: seq<Taken>): seq<byte> {
    if ts == [] then []
    else
      var t := ts[|ts| - 1];
      (if t.first then [] else MessageAfter(ts[..|ts| - 1])) + t.data
  }

  /** Requests that a manager accepts one after the other: only FIRST may follow nothing or a LAST. */
  ghost predicate Acceptable(ts: seq<Taken>) {
    forall i :: 0 <= i < |ts| ==> AcceptableAt(ts, i)
  }

  predicate AcceptableAt(ts: seq<Taken>, i: nat)
    requires i < |ts|
  {
    |ts[i].data| < 0x1_0000_0000 && (ts[i].first || (i > 0 && !ts[i - 1].last))
  }

  lemma OneMoreTaken(ts: seq<Taken>, t: Taken)
    ensures MessageAfter(ts + [t]) == (if t.first then [] else MessageAfter(ts)) + t.data
  {
    assert (ts + [t])[..|ts|] == ts && (ts + [t])[|ts|] == t;
  }

  lemma OneMoreAcceptable(ts: seq<Taken>, t: Taken)
    requires Acceptable(ts) && |t.data| < 0x1_0000_0000
    requires t.first || (ts != [] && !ts[|ts| - 1].last)
    ensures Acceptable(ts + [t])
  {
    var us := ts + [t];
    forall i | 0 <= i < |us|
      ensures AcceptableAt(us, i)
    {
      if i < |ts| {
        assert AcceptableAt(ts, i) && us[i] == ts[i];
        assert i > 0 ==> us[i - 1] == ts[i - 1];
      } else {
        assert us[i] == t;
        assert ts != [] ==> us[i - 1] == ts[|ts| - 1];
      }
    }
  }

  /** The requests as the history has them: they make up the message and could be accepted in this order. */
  lemma {:induction false} TakenIsTheMessage(a: HashAlgorithm, h: History, c: HashCtx)
    requires Faithful(a, h)
    ensures MessageOf(h, c) == MessageAfter(TakenFor(h, c)) && Acceptable(TakenFor(h, c))
    ensures Ever(h, c) <==> TakenFor(h, c) != []
    ensures LastRequested(h, c) <==> TakenFor(h, c) != [] && TakenFor(h, c)[|TakenFor(h, c)| - 1].last
  {
    if h.Then? {
      TakenIsTheMessage(a, h.before, c);
      var ts := TakenFor(h.before, c);
      if h.event.Accepted? && h.event.ctx == c {
        OneMoreTaken(ts, Taken(h.event.data, h.event.first, h.event.last));
        OneMoreAcceptable(ts, Taken(h.event.data, h.event.first, h.event.last));
      } else {
        assert TakenFor(h, c) == ts;
      }
    }
  }

  /** What whole blocks leave over is determined by the length. */
  lemma SameSplit(n: nat, hashed: nat, buffered: nat, hashed': nat, buffered': nat)
    requires hashed % BLOCK == 0 && buffered < BLOCK && n == hashed + buffered
    requires hashed' % BLOCK == 0 && buffered' < BLOCK && n == hashed' + buffered'
    ensures hashed == hashed' && buffered == buffered'
  {
  }

  /** A context at rest is determined by its message and by whether LAST was asked for. */
  lemma RestDecides(a: HashAlgorithm, c: HashCtx, d: HashCtx)
    requires c.Held(a) && d.Held(a) && c.started && d.started && c.msg == d.msg && c.wantsLast == d.wantsLast
    ensures c.status == d.status && c.digest == d.digest && c.totalLength == d.totalLength
    ensures c.status == IDLE ==>
              c.partialLength == d.partialLength && c.partial[..c.partialLength] == d.partial[..d.partialLength]
  {
    if c.status == IDLE {
      SameSplit(|c.msg|, |c.done|, c.partialLength, |d.done|, d.partialLength);
      SameHalves(c.done, c.partial[..c.partialLength], d.done, d.partial[..d.partialLength]);
    }
  }

  lemma SameHalves<T>(x: seq<T>, y: seq<T>, x': seq<T>, y': seq<T>)
    requires x + y == x' + y' && |x| == |x'|
    ensures x == x' && y == y'
  {
    assert (x + y)[..|x|] == x && (x' + y')[..|x|] == x' && (x + y)[|x|..] == y && (x' + y')[|x|..] == y';
  }

  /** A context of the synchronous manager that is given the same requests. */
  method Replay(a: HashAlgorithm, ts: seq<Taken>) returns (d: HashCtx)
    requires Acceptable(ts)
    ensures fresh(d) && d.Held(a) && d.msg == MessageAfter(ts) && (d.started <==> ts != [])
    ensures d.wantsLast <==> ts != [] && ts[|ts| - 1].last
    ensures d.error == NoError
  {
    d := new HashCtx();
    for i := 0 to |ts|
      invariant fresh(d) && fresh(d.partial) && d.Held(a) && d.msg == MessageAfter(ts[..i]) && (d.started <==> i > 0)
      invariant d.wantsLast <==> i > 0 && ts[i - 1].last
      invariant d.error == NoError
    {
      assert ts[..i + 1][..i] == ts[..i];
      FlagsSay(ts[i]);
      assert AcceptableAt(ts, i);
      assert HashBase.BaseRejection(d.status, Flags(ts[i])) == NoError;
      HashBase.SubmitBase(a, d, ts[i].data, Flags(ts[i]));
    }
    assert ts[..|ts|] == ts;
  }

  /**
   The multi-buffer manager, whatever its engine did, and the synchronous manager, given the same
   requests, leave the same status, digest, byte count and buffered bytes.
   */
  method SameAnswer(m: HashCtxMgr, c: HashCtx, ts: seq<Taken>) returns (d: HashCtx)
    requires m.Valid() && c in m.known && c !in m.lanes && ts == TakenFor(m.history, c) != []
    ensures fresh(d) && d.status == c.status && d.digest == c.digest && d.totalLength == c.totalLength
    ensures c.status == IDLE ==>
              && c.partialLength == d.partialLength <= d.partial.Length == c.partial.Length
              && c.partial[..c.partialLength] == d.partial[..d.partialLength]
  {
    TakenIsTheMessage(m.a, m.history, c);
    d := Replay(m.a, ts);
    assert c.Held(m.a) && (c.started <==> Ever(m.history, c));
    assert c.msg == MessageOf(m.history, c);
    RestDecides(m.a, c, d);
  }
}
