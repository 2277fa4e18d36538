/**
 The multi-buffer context manager: submit, resubmit and flush over a shared lane engine.

 The engine itself is assembly.  Here it holds a set of jobs and may, inside any call, run any
 number of blocks of any of them in any order, reading each block from memory when it runs it, and
 hand back any job it has finished.  The real scheduler is one of these behaviours.
 */
module HashManager {
  import opened Bytes
  import opened HashContext

  // ----- what happened, as the user sees it -----

  datatype Event =
    | Accepted(ctx: HashCtx, data: seq<byte>, first: bool, last: bool)
    | Returned(ctx: HashCtx, digest: Digest, complete: bool)

  datatype History = Start | Then(before: History, event: Event)

  /** The buffers accepted for c since its last FIRST, put together. */
  ghost function MessageOf(h: History, c: HashCtx): seq<byte> {
    match h
    case Start => []
    case Then(before, e) =>
      if e.Accepted? && e.ctx == c then (if e.first then [] else MessageOf(before, c)) + e.data
      else MessageOf(before, c)
  }

  /** Whether the latest request accepted for c was its LAST. */
  ghost predicate LastRequested(h: History, c: HashCtx) {
    match h
    case Start => false
    case Then(before, e) => if e.Accepted? && e.ctx == c then e.last else LastRequested(before, c)
  }

  /** Whether c has been accepted and not yet returned. */
  ghost predicate Open(h: History, c: HashCtx) {
    match h
    case Start => false
    case Then(before, e) => if e.ctx == c then e.Accepted? else Open(before, c)
  }

  /** Whether anything was ever accepted for c. */
  ghost predicate Ever(h: History, c: HashCtx) {
    match h
    case Start => false
    case Then(before, e) => (e.Accepted? && e.ctx == c) || Ever(before, c)
  }

  /**
   Every event was allowed when it happened: only a context that is with its user is accepted, and
   without FIRST only while its message is unfinished; only one that is not is returned, complete
   exactly if LAST was asked for, and then with the hash of its message.
   */
  ghost predicate Faithful(a: HashAlgorithm, h: History) {
    match h
    case Start => true
    case Then(before, Accepted(c, data, first, _)) =>
      && Faithful(a, before) && !Open(before, c) && |data| < 0x1_0000_0000
      && (first || (Ever(before, c) && !LastRequested(before, c)))
    case Then(before, Returned(c, d, complete)) =>
      && Faithful(a, before) && Open(before, c)
      && complete == LastRequested(before, c)
      && (complete ==> d == Hash(a, MessageOf(before, c)))
  }

  ghost predicate Mentions(h: History, known: set<HashCtx>) {
    h.Then? ==> h.event.ctx in known && Mentions(h.before, known)
  }

  ghost function Accepts(h: History, c: HashCtx): nat {
    match h
    case Start => 0
    case Then(before, e) => Accepts(before, c) + if e.Accepted? && e.ctx == c then 1 else 0
  }

  ghost function Returns(h: History, c: HashCtx): nat {
    match h
    case Start => 0
    case Then(before, e) => Returns(before, c) + if e.Returned? && e.ctx == c then 1 else 0
  }

  /** No acceptance is lost and none is answered twice: all are returned but the one in flight, if any. */
  lemma {:induction false} ReturnsMatchAccepts(a: HashAlgorithm, h: History, c: HashCtx)
    requires Faithful(a, h)
    ensures Accepts(h, c) == Returns(h, c) + if Open(h, c) then 1 else 0
  {
    if h.Then? {
      ReturnsMatchAccepts(a, h.before, c);
    }
  }

  lemma {:induction false} OpenWasAccepted(h: History, c: HashCtx)
    requires Open(h, c)
    ensures Ever(h, c)
  {
    if h.event.ctx != c {
      OpenWasAccepted(h.before, c);
    }
  }

  lemma {:induction false} NeverMentioned(h: History, known: set<HashCtx>, c: HashCtx)
    requires Mentions(h, known) && c !in known
    ensures MessageOf(h, c) == [] && !LastRequested(h, c) && !Open(h, c) && !Ever(h, c)
  {
    if h.Then? {
      NeverMentioned(h.before, known, c);
    }
  }

  lemma {:induction false} MentionsMore(h: History, known: set<HashCtx>, more: set<HashCtx>)
    requires Mentions(h, known) && known <= more
    ensures Mentions(h, more)
  {
    if h.Then? {
      MentionsMore(h.before, known, more);
    }
  }

  ghost function OpenAmong(h: History, known: set<HashCtx>): set<HashCtx> {
    set c | c in known && Open(h, c)
  }

  /** What an event changes in the set of contexts in flight. */
  lemma OpenAfter(h: History, known: set<HashCtx>, e: Event)
    requires e.ctx in known
    ensures OpenAmong(Then(h, e), known)
         == if e.Accepted? then OpenAmong(h, known) + {e.ctx} else OpenAmong(h, known) - {e.ctx}
  {
  }

  /** The history after a call: what it accepted, and then what it returned, if anything. */
  ghost function AndReturned(h: History, r: HashCtx?): History
    reads r
  {
    if r == null then h else Then(h, Returned(r, r.digest, r.status.complete))
  }

  /** h is was followed by returns alone. */
  ghost predicate OnlyReturns(was: History, h: History) {
    h == was || (h.Then? && h.event.Returned? && OnlyReturns(was, h.before))
  }

  lemma {:induction false} OnlyReturnsOn(was: History, mid: History, h: History)
    requires OnlyReturns(was, mid) && OnlyReturns(mid, h)
    ensures OnlyReturns(was, h)
  {
    if h != mid {
      OnlyReturnsOn(was, mid, h.before);
    }
  }

  /** Returns change neither a message nor what was asked for it. */
  lemma {:induction false} OnlyReturnsKeep(was: History, h: History, c: HashCtx)
    requires OnlyReturns(was, h)
    ensures MessageOf(h, c) == MessageOf(was, c)
    ensures LastRequested(h, c) == LastRequested(was, c) && Ever(h, c) == Ever(was, c)
  {
    if h != was {
      OnlyReturnsKeep(was, h.before, c);
    }
  }

  // ----- request flags -----

  function HasFirst(flags: nat): bool {
    flags % 2 == 1
  }

  function HasLast(flags: nat): bool {
    flags / 2 % 2 == 1
  }

  /** The error submit reports for a request, in the order in which it tests. */
  function Rejection(status: Status, flags: nat): CtxError {
    if flags > 3 then InvalidFlags
    else if status.processing then AlreadyProcessing
    else if status.complete && !HasFirst(flags) then AlreadyCompleted
    else NoError
  }

  /** The same error, told from what the user saw. */
  ghost function Refusal(h: History, c: HashCtx, flags: nat): CtxError {
    if flags > 3 then InvalidFlags
    else if Open(h, c) then AlreadyProcessing
    else if !HasFirst(flags) && (!Ever(h, c) || LastRequested(h, c)) then AlreadyCompleted
    else NoError
  }

  ghost function One(c: HashCtx?): set<HashCtx> {
    if c == null then {} else {c}
  }

  ghost function Buffers(known: set<HashCtx>): set<array<byte>> {
    set c | c in known :: c.partial
  }

  /** The contexts still to be padded, and those with user bytes still to be taken. */
  ghost function Unpadded(known: set<HashCtx>): set<HashCtx>
    reads known`status
  {
    set c | c in known && c.status.last
  }

  ghost function Unread(known: set<HashCtx>): set<HashCtx>
    reads known`incoming
  {
    set c | c in known && c.incoming != []
  }

  /** The jobs still to be submitted, over all contexts: user blocks to take and messages to pad. */
  ghost function Phases(known: set<HashCtx>): nat
    reads known`status, known`incoming
  {
    |Unpadded(known)| + |Unread(known)|
  }

  /** Handed c, if any, the engine or a whole call handed back r, if any: together the same contexts. */
  ghost predicate Conserves(before: set<HashCtx>, after: set<HashCtx>, c: HashCtx?, r: HashCtx?) {
    after == before + One(c) - One(r) && One(r) <= before + One(c)
  }

  lemma ConservesOn(l0: set<HashCtx>, l1: set<HashCtx>, l2: set<HashCtx>, c: HashCtx?, d: HashCtx?, r: HashCtx?)
    requires Conserves(l0, l1, c, d) && Conserves(l1, l2, d, r)
    ensures Conserves(l0, l2, c, r)
  {
    assert l1 + One(d) == l0 + One(c);
  }

  lemma ConservesAll(l0: set<HashCtx>, l1: set<HashCtx>, c: HashCtx?, r: HashCtx?)
    requires Conserves(l0, l1, c, r)
    ensures l0 + One(c) == l1 + One(r)
    ensures r != null ==> l0 + One(c) - {r} == l1 && r !in l1 && r in l0 + One(c)
    ensures r == null ==> l0 + One(c) == l1
  {
  }

  class HashCtxMgr {
    const a: HashAlgorithm
    const capacity: nat
    var lanes: set<HashCtx>
    ghost var known: set<HashCtx>
    ghost var history: History

    constructor (a: HashAlgorithm, capacity: nat)
      requires capacity > 0
      ensures Valid() && this.a == a && this.capacity == capacity
      ensures fresh(this) && lanes == {} && known == {} && history == Start
    {
      this.a, this.capacity := a, capacity;
      lanes, known, history := {}, {}, Start;
    }

    /**
     Every known context but the one in the hand of submit or resubmit is in a lane or with its
     user; no two share a block buffer.
     */
    ghost predicate Others(hand: HashCtx?)
      reads this`lanes, this`known, known, Buffers(known)
    {
      && lanes <= known && |lanes| <= capacity
      && (hand != null ==> hand in known && hand !in lanes)
      && (forall c {:trigger c.InFlight(a)} :: c in known && c in lanes ==> c.InFlight(a))
      && (forall c {:trigger c.Held(a)} :: c in known && c !in lanes && c != hand ==> c.Held(a))
      && (forall c, d {:trigger c.partial, d.partial} :: c in known && d in known && c != d ==> c.partial != d.partial)
    }

    /** Between calls of the engine at least one lane is free. */
    ghost predicate Room(hand: HashCtx?)
      reads this`lanes, this`known, known, Buffers(known)
    {
      Others(hand) && |lanes| < capacity
    }

    ghost predicate Core(hand: HashCtx?)
      reads this`lanes, this`known, known, Buffers(known)
    {
      Room(hand) && (hand != null ==> hand.InHand(a))
    }

    /** The contexts carry what the history says of them. */
    ghost predicate Recorded()
      reads this`known, this`history, known`msg, known`wantsLast, known`started
    {
      && Faithful(a, history) && Mentions(history, known)
      && (forall c {:trigger MessageOf(history, c)} :: c in known ==>
            c.msg == MessageOf(history, c) && c.wantsLast == LastRequested(history, c))
      && (forall c {:trigger Ever(history, c)} :: c in known ==> (c.started <==> Ever(history, c)))
    }

    ghost predicate Valid()
      reads this`lanes, this`known, this`history, known, Buffers(known)
    {
      Core(null) && Recorded() && OpenAmong(history, known) == lanes
    }

    /** A context that its user initialized joins the ones this manager may be given. */
    ghost method Enroll(c: HashCtx)
      requires Valid() && c !in known && c.Held(a) && c.partial !in Buffers(known)
      requires c.msg == [] && !c.wantsLast && !c.started
      modifies this`known
      ensures Valid() && known == old(known) + {c} && history == old(history)
    {
      NeverMentioned(history, known, c);
      MentionsMore(history, known, known + {c});
      assert OpenAmong(history, known + {c}) == OpenAmong(history, known);
      known := known + {c};
    }

    // ----- the engine -----

    /** The next block of the job of c, if there is one. */
    method RunLane(c: HashCtx, ghost hand: HashCtx?)
      requires Others(hand) && c in lanes
      modifies c`digest, c`progress, c`done
      ensures Others(hand)
      ensures Phases(known) == old(Phases(known))
      ensures c.progress == if old(c.progress) < c.job.blocks then old(c.progress) + 1 else old(c.progress)
    {
      if c.progress < c.job.blocks {
        c.RunBlock(a);
      }
      assert Unpadded(known) == old(Unpadded(known)) && Unread(known) == old(Unread(known));
    }

    /** Any number of blocks of any jobs are run. */
    method RunLanes(ghost hand: HashCtx?)
      requires Others(hand)
      modifies lanes`digest, lanes`progress, lanes`done
      ensures Others(hand)
      ensures Phases(known) == old(Phases(known))
    {
      var budget: nat := *;
      while budget > 0 && lanes != {}
        invariant Others(hand) && Phases(known) == old(Phases(known))
      {
        var c :| c in lanes;
        RunLane(c, hand);
        budget := budget - 1;
      }
    }

    method RunToEnd(c: HashCtx)
      requires Others(null) && c in lanes
      modifies c`digest, c`progress, c`done
      ensures Others(null) && c.InHand(a)
      ensures Phases(known) == old(Phases(known))
    {
      assert c.InFlight(a);
      while c.progress < c.job.blocks
        invariant c.InFlight(a) && Others(null) && Phases(known) == old(Phases(known))
        decreases c.job.blocks - c.progress
      {
        RunLane(c, null);
        assert c.InFlight(a);
      }
      assert c.Remaining() == [];
    }

    method FreeLane(c: HashCtx)
      requires Others(null) && c in lanes && c.InHand(a)
      modifies this`lanes
      ensures lanes == old(lanes) - {c} && Core(c)
      ensures Phases(known) == old(Phases(known))
    {
      lanes := lanes - {c};
    }

    method TakeLane(c: HashCtx)
      requires Room(c) && c.InFlight(a)
      modifies this`lanes
      ensures lanes == old(lanes) + {c} && Others(null)
      ensures Phases(known) == old(Phases(known))
    {
      lanes := lanes + {c};
    }

    /** The engine picks a job, runs what is left of it and hands it back. */
    method FinishSome() returns (r: HashCtx)
      requires Others(null) && lanes != {}
      modifies this`lanes, lanes`digest, lanes`progress, lanes`done
      ensures Core(r) && r in old(lanes) && lanes == old(lanes) - {r}
      ensures Phases(known) == old(Phases(known))
    {
      RunLanes(null);
      r :| r in lanes;
      RunToEnd(r);
      FreeLane(r);
    }

    /** _md5_mb_mgr_submit: adds a job; hands one back when the lanes are full, and may do so earlier. */
    method LaneSubmit(c: HashCtx) returns (r: HashCtx?)
      requires Room(c) && c.InFlight(a)
      modifies this`lanes, (lanes + {c})`digest, (lanes + {c})`progress, (lanes + {c})`done
      ensures Core(r) && Conserves(old(lanes), lanes, c, r)
      ensures Phases(known) == old(Phases(known))
    {
      TakeLane(c);
      RunLanes(null);
      var wait: bool := *;
      if |lanes| < capacity && wait {
        return null;
      }
      r := FinishSome();
    }

    /** _md5_mb_mgr_flush: hands back some finished job, or nothing when there is none in flight. */
    method LaneFlush() returns (r: HashCtx?)
      requires Core(null)
      modifies this`lanes, lanes`digest, lanes`progress, lanes`done
      ensures Core(r) && Conserves(old(lanes), lanes, null, r)
      ensures r == null <==> old(lanes) == {}
      ensures Phases(known) == old(Phases(known))
    {
      if lanes == {} {
        return null;
      }
      r := FinishSome();
    }

    /** The first half of resubmit: with an empty block buffer, the user's whole blocks become a job. */
    method TakeBlocks(c: HashCtx) returns (ready: bool)
      requires Core(c) && !c.status.complete
      modifies c`job, c`progress, c`incoming, c`partialLength, c.partial
      ensures Room(c) && c.incoming == [] && if ready then c.InFlight(a) else c.InHand(a)
      ensures if ready then Phases(known) < old(Phases(known)) else Phases(known) <= old(Phases(known))
      ensures c.status == old(c.status)
    {
      ghost var unread := Unread(known);
      ready := c.TakeBlocks(a);
      assert Unpadded(known) == old(Unpadded(known));
      assert Unread(known) == unread - {c};
      assert ready ==> c in unread;
    }

    /** The second half of resubmit: pads the last block in place and makes it the final job. */
    method PadLast(c: HashCtx)
      requires Core(c) && c.status.last && c.incoming == []
      modifies c`job, c`progress, c`status, c.partial
      ensures Room(c) && c.InFlight(a) && Phases(known) < old(Phases(known))
    {
      c.PadLast(a);
      assert Unpadded(known) == old(Unpadded(known)) - {c} && Unread(known) == old(Unread(known));
    }

    /** The context goes back to its user. */
    method GiveBack(c: HashCtx, status: Status)
      requires Core(c) && c.incoming == [] && !c.status.last
      requires status == if c.status.complete then COMPLETE else IDLE
      modifies c`status
      ensures Core(null)
    {
      c.status := status;
    }

    /** One turn of the loop of resubmit: the context goes back to its user, or its next job is submitted. */
    method Turn(c: HashCtx) returns (next: HashCtx?, back: bool)
      requires Core(c)
      modifies this`lanes, known`job, known`progress, known`incoming, known`partialLength, known`status
      modifies known`digest, known`done, Buffers(known)
      ensures back ==> next == c && Core(null) && lanes == old(lanes)
      ensures !back ==> Core(next) && Conserves(old(lanes), lanes, c, next)
      ensures !back ==> Phases(known) < old(Phases(known))
    {
      if c.status.complete {
        GiveBack(c, COMPLETE);
        return c, true;
      }
      var ready := TakeBlocks(c);
      if ready {
        next := LaneSubmit(c);
        return next, false;
      }
      if c.status.last {
        PadLast(c);
        next := LaneSubmit(c);
        return next, false;
      }
      GiveBack(c, IDLE);
      return c, true;
    }

    /** md5_ctx_mgr_resubmit */
    method Resubmit(c: HashCtx?) returns (r: HashCtx?)
      requires Core(c)
      modifies this`lanes, known`job, known`progress, known`incoming, known`partialLength, known`status
      modifies known`digest, known`done, Buffers(known)
      ensures Core(null) && Conserves(old(lanes), lanes, c, r) && (r != null ==> r in known)
      ensures c != null && r == null ==> Phases(known) < old(Phases(known))
    {
      var cur := c;
      while cur != null
        invariant Core(cur) && Conserves(old(lanes), lanes, c, cur)
        invariant cur == c || Phases(known) < old(Phases(known))
        decreases Phases(known)
      {
        ghost var before := lanes;
        var next, back := Turn(cur);
        if back {
          return next;
        }
        ConservesOn(old(lanes), before, lanes, c, cur, next);
        cur := next;
      }
      return null;
    }

    /** Submit, up to the byte counter. */
    method Accept(c: HashCtx, buffer: seq<byte>, flags: nat)
      requires Core(null) && c in known && c !in lanes && Rejection(c.status, flags) == NoError
      modifies c
      ensures Room(c)
      ensures c.Accounts(a, []) && c.status == Status(true, HasLast(flags), false) && c.error == NoError
      ensures c.msg == (if HasFirst(flags) then [] else old(c.msg)) + buffer && c.wantsLast == HasLast(flags)
    {
      c.Accept(a, buffer, HasFirst(flags), HasLast(flags));
    }

    /** Submit, the middle: tops up the block buffer; a full block becomes a job. */
    method Fill(c: HashCtx) returns (full: bool)
      requires Room(c) && c.Accounts(a, []) && c.status.processing && !c.status.complete && c.wantsLast == c.status.last
      modifies c`job, c`progress, c`incoming, c`partialLength, c.partial
      ensures Room(c) && if full then c.InFlight(a) else c.InHand(a)
    {
      full := c.FillPartial(a);
    }

    /** The request on c was accepted. */
    ghost method RecordAccepted(c: HashCtx, data: seq<byte>, first: bool, last: bool)
      requires Faithful(a, history) && Mentions(history, known) && c in known
      requires OpenAmong(history, known) == lanes && c !in lanes
      requires forall x {:trigger MessageOf(history, x)} :: x in known && x != c ==>
                 x.msg == MessageOf(history, x) && x.wantsLast == LastRequested(history, x)
      requires forall x {:trigger Ever(history, x)} :: x in known && x != c ==> (x.started <==> Ever(history, x))
      requires |data| < 0x1_0000_0000 && (first || (Ever(history, c) && !LastRequested(history, c)))
      requires c.started && c.msg == (if first then [] else MessageOf(history, c)) + data && c.wantsLast == last
      modifies this`history
      ensures Recorded() && OpenAmong(history, known) == lanes + {c}
      ensures history == Then(old(history), Accepted(c, data, first, last))
    {
      ghost var h := history;
      assert c !in OpenAmong(h, known);
      OpenAfter(h, known, Accepted(c, data, first, last));
      history := Then(h, Accepted(c, data, first, last));
      forall x | x in known
        ensures x.msg == MessageOf(history, x) && x.wantsLast == LastRequested(history, x)
        ensures x.started <==> Ever(history, x)
      {
        assert x != c ==> MessageOf(history, x) == MessageOf(h, x) && Ever(history, x) == Ever(h, x);
      }
    }

    /** The call hands r back to the user. */
    ghost method RecordReturned(r: HashCtx)
      requires Recorded() && r in OpenAmong(history, known) && r.Held(a)
      modifies this`history
      ensures Recorded() && OpenAmong(history, known) == old(OpenAmong(history, known)) - {r}
      ensures history == AndReturned(old(history), r)
    {
      ghost var h, e := history, Returned(r, r.digest, r.status.complete);
      OpenWasAccepted(h, r);
      assert r.msg == MessageOf(h, r) && (r.started <==> Ever(h, r));
      OpenAfter(h, known, e);
      history := Then(h, e);
      forall c | c in known
        ensures c.msg == MessageOf(history, c) && c.wantsLast == LastRequested(history, c)
        ensures c.started <==> Ever(history, c)
      {
        assert MessageOf(history, c) == MessageOf(h, c) && Ever(history, c) == Ever(h, c);
      }
    }

    /** The same for what a call hands back, if anything. */
    ghost method RecordAny(r: HashCtx?)
      requires Core(null) && Recorded() && OpenAmong(history, known) == lanes + One(r)
      requires r != null ==> r in known && r !in lanes
      modifies this`history
      ensures Valid() && history == AndReturned(old(history), r)
    {
      if r != null {
        assert r.Held(a);
        RecordReturned(r);
      }
    }

    /** Resubmit, with the record kept. */
    method ResubmitAndReturn(c: HashCtx?) returns (r: HashCtx?)
      requires Core(c) && Recorded() && OpenAmong(history, known) == lanes + One(c)
      modifies this`lanes, this`history, known`job, known`progress, known`incoming, known`partialLength, known`status
      modifies known`digest, known`done, Buffers(known)
      ensures Valid()
      ensures lanes == old(OpenAmong(history, known)) - One(r) && One(r) <= old(OpenAmong(history, known))
      ensures c != null && r == null ==> Phases(known) < old(Phases(known))
      ensures history == AndReturned(old(history), r)
    {
      r := Resubmit(c);
      assert Recorded() == old(Recorded());
      ConservesAll(old(lanes), lanes, c, r);
      RecordAny(r);
    }

    method Reject(c: HashCtx, why: CtxError)
      requires Valid() && c in known
      modifies c`error
      ensures Valid() && c.error == why
    {
      c.error := why;
      assert Recorded() == old(Recorded());
      assert c in lanes ==> old(c.InFlight(a));
      assert c !in lanes ==> old(c.Held(a));
    }

    /** The status shows exactly what the user could tell from the calls so far. */
    lemma RefusalIsRejection(c: HashCtx, flags: nat)
      requires Valid() && c in known
      ensures Refusal(history, c, flags) == Rejection(c.status, flags)
    {
      assert c in lanes <==> c in OpenAmong(history, known);
      if c in lanes {
        assert c.InFlight(a);
      } else {
        assert c.Held(a) && (c.started <==> Ever(history, c));
        assert c.msg == MessageOf(history, c);
      }
    }

    /**
     _md5_ctx_mgr_submit and its SHA-1 twin.  A rejected request changes nothing but the error
     field; an accepted one is recorded, and the context handed back, if any, is returned.
     */
    method Submit(c: HashCtx, buffer: seq<byte>, flags: nat) returns (r: HashCtx?)
      requires Valid() && c in known && |buffer| < 0x1_0000_0000
      modifies this`lanes, this`history, known, Buffers(known)
      ensures Valid()
      ensures c.error == old(Rejection(c.status, flags)) == old(Refusal(history, c, flags))
      ensures c.error != NoError ==>
                && r == c && history == old(history) && lanes == old(lanes)
                && c.digest == old(c.digest) && c.status == old(c.status) && c.msg == old(c.msg)
                && forall x :: x in known && x != c ==> unchanged(x) && unchanged(x.partial)
      ensures c.error == NoError ==>
                && history == AndReturned(Then(old(history), Accepted(c, buffer, HasFirst(flags), HasLast(flags))), r)
                && lanes == old(lanes) + {c} - One(r) && One(r) <= old(lanes) + {c}
    {
      RefusalIsRejection(c, flags);
      if flags > 3 {
        Reject(c, InvalidFlags);
        return c;
      }
      if c.status.processing {
        Reject(c, AlreadyProcessing);
        return c;
      }
      if c.status.complete && !HasFirst(flags) {
        Reject(c, AlreadyCompleted);
        return c;
      }
      ghost var h := Then(history, Accepted(c, buffer, HasFirst(flags), HasLast(flags)));
      OpenAfter(history, known, h.event);
      r := SubmitAccepted(c, buffer, flags);
      if r != null {
        OpenAfter(h, known, Returned(r, r.digest, r.status.complete));
      }
    }

    /** Submit once the request has passed its three tests. */
    method SubmitAccepted(c: HashCtx, buffer: seq<byte>, flags: nat) returns (r: HashCtx?)
      requires Valid() && c in known && Rejection(c.status, flags) == NoError && |buffer| < 0x1_0000_0000
      modifies this`lanes, this`history, known, Buffers(known)
      ensures Valid() && c.error == NoError
      ensures history == AndReturned(Then(old(history), Accepted(c, buffer, HasFirst(flags), HasLast(flags))), r)
    {
      var cur := Begin(c, buffer, flags);
      r := ResubmitAndReturn(cur);
    }

    method AcceptAndRecord(c: HashCtx, buffer: seq<byte>, flags: nat)
      requires Valid() && c in known && Rejection(c.status, flags) == NoError && |buffer| < 0x1_0000_0000
      modifies c, this`history
      ensures Room(c) && c.Accounts(a, []) && c.status == Status(true, HasLast(flags), false)
      ensures c.error == NoError && c.wantsLast == HasLast(flags) && c !in old(lanes)
      ensures Recorded() && OpenAmong(history, known) == lanes + {c}
      ensures history == Then(old(history), Accepted(c, buffer, HasFirst(flags), HasLast(flags)))
    {
      RefusalIsRejection(c, flags);
      assert c in lanes ==> c.InFlight(a);
      assert c !in lanes;
      assert c.msg == MessageOf(history, c);
      Accept(c, buffer, flags);
      forall x | x in known && x != c
        ensures x.msg == MessageOf(history, x) && x.wantsLast == LastRequested(history, x)
        ensures x.started <==> Ever(history, x)
      {
        assert old(x.msg) == MessageOf(history, x) && old(x.wantsLast) == LastRequested(history, x);
        assert old(x.started) == Ever(history, x);
      }
      RecordAccepted(c, buffer, HasFirst(flags), HasLast(flags));
    }

    /** Submit up to its call of resubmit: the request is taken and a filled block is submitted. */
    method Begin(c: HashCtx, buffer: seq<byte>, flags: nat) returns (cur: HashCtx?)
      requires Valid() && c in known && Rejection(c.status, flags) == NoError && |buffer| < 0x1_0000_0000
      modifies this`lanes, this`history, known, Buffers(known)
      ensures Core(cur) && Recorded() && OpenAmong(history, known) == lanes + One(cur)
      ensures c.error == NoError
      ensures history == Then(old(history), Accepted(c, buffer, HasFirst(flags), HasLast(flags)))
    {
      AcceptAndRecord(c, buffer, flags);
      label Taken:
      cur := FirstJob(c);
      assert Recorded() == old@Taken(Recorded());
    }

    method FirstJob(c: HashCtx) returns (cur: HashCtx?)
      requires Room(c) && c.Accounts(a, []) && c.status.processing && !c.status.complete && c.wantsLast == c.status.last
      modifies this`lanes, known`job, known`progress, known`incoming, known`partialLength
      modifies known`digest, known`done, Buffers(known)
      ensures Core(cur) && lanes + One(cur) == old(lanes) + {c}
    {
      var full := Fill(c);
      if full {
        cur := LaneSubmit(c);
        ConservesAll(old(lanes), lanes, c, cur);
      } else {
        cur := c;
      }
    }

    /** A finished job out of the engine, with the record as it was. */
    method FlushJob() returns (c: HashCtx?)
      requires Valid()
      modifies this`lanes, lanes`digest, lanes`progress, lanes`done
      ensures Core(c) && Recorded() && OpenAmong(history, known) == lanes + One(c)
      ensures c == null <==> old(lanes) == {}
      ensures Phases(known) == old(Phases(known))
    {
      c := LaneFlush();
      assert Recorded() == old(Recorded());
      ConservesAll(old(lanes), lanes, null, c);
    }

    /** One turn of the loop of flush; empty says that the engine had nothing in flight. */
    method FlushTurn() returns (r: HashCtx?, empty: bool)
      requires Valid()
      modifies this`lanes, this`history, known, Buffers(known)
      ensures Valid() && lanes == old(lanes) - One(r) && One(r) <= old(lanes)
      ensures empty <==> old(lanes) == {}
      ensures !empty && r == null ==> Phases(known) < old(Phases(known))
      ensures history == AndReturned(old(history), r)
    {
      var c := FlushJob();
      r := ResubmitAndReturn(c);
      empty := c == null;
    }

    /** _md5_ctx_mgr_flush: null exactly when no job is in flight, else one context fewer is. */
    method Flush() returns (r: HashCtx?)
      requires Valid()
      modifies this`lanes, this`history, known, Buffers(known)
      ensures Valid() && lanes == old(lanes) - One(r) && One(r) <= old(lanes)
      ensures r == null <==> old(lanes) == {}
      ensures history == AndReturned(old(history), r)
    {
      while true
        invariant Valid() && lanes == old(lanes) && history == old(history)
        decreases Phases(known)
      {
        var empty;
        r, empty := FlushTurn();
        if empty || r != null {
          return;
        }
      }
    }

    /** Flushing until nothing comes back, as the example program ends: every context is with its user. */
    method Drain()
      requires Valid()
      modifies this`lanes, this`history, known, Buffers(known)
      ensures Valid() && lanes == {}
      ensures forall c :: c in known ==> c.Held(a)
      ensures OnlyReturns(old(history), history)
    {
      var r: HashCtx? := Flush();
      while r != null
        invariant Valid() && (r == null ==> lanes == {})
        invariant OnlyReturns(old(history), history)
        decreases |lanes| + |One(r)|
      {
        r := Flush();
      }
    }
  }
}
