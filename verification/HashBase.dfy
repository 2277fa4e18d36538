/**
 The synchronous form of the context manager, md5_ctx_base.c: no engine, every call hashes what
 it can before it returns.  It meets the same specification as the multi-buffer form.
 */
module HashBase {
  import opened Bytes
  import opened MessagePadding
  import opened HashContext
  import opened HashManager

  /** The order of the tests in _md5_ctx_mgr_submit_base. */
  function BaseRejection(status: Status, flags: nat): CtxError {
    if flags > 3 then InvalidFlags
    else if status.processing && flags == 3 then AlreadyProcessing
    else if status.complete && !HasFirst(flags) then AlreadyCompleted
    else NoError
  }

  /** The two forms reject the same requests on contexts that are with their user. */
  lemma SameRejections(status: Status, flags: nat)
    ensures !status.processing ==> BaseRejection(status, flags) == Rejection(status, flags)
    ensures status.processing ==> (BaseRejection(status, flags) == Rejection(status, flags) <==> flags >= 3)
  {
  }

  /** The context between the steps of one call: pending are the bytes of the buffer not yet taken. */
  ghost predicate Between(a: HashAlgorithm, c: HashCtx, pending: seq<byte>)
    reads c, c.partial
  {
    && c.Hashing(a)
    && c.msg == c.done + (c.partial[..c.partialLength] + pending)
  }

  /** md5_single on the next block of the message. */
  method Single(a: HashAlgorithm, c: HashCtx, block: seq<byte>, ghost pending: seq<byte>)
    requires c.Hashing(a) && |block| == BLOCK && c.partialLength == 0
    requires c.msg == c.done + (block + pending)
    modifies c`digest, c`done
    ensures Between(a, c, pending) && c.msg == old(c.msg)
  {
    AbsorbBlock(a, c.done, block);
    Regroup(c.done, block, pending, []);
    assert block + pending + [] == block + pending && pending + [] == pending;
    assert c.partial[..0] + pending == pending;
    c.digest := a.compress(c.digest, block);
    c.done := c.done + block;
  }

  /** The first half of md5_update: tops up the block buffer, and hashes it when it is full. */
  method TopUp(a: HashAlgorithm, c: HashCtx, buffer: seq<byte>) returns (rest: seq<byte>)
    requires Between(a, c, buffer)
    modifies c`digest, c`done, c`partialLength, c.partial
    ensures Between(a, c, rest) && (c.partialLength != 0 ==> rest == [])
  {
    rest := buffer;
    if c.partialLength != 0 || |rest| < BLOCK {
      var copyLen := BLOCK - c.partialLength;
      if |rest| < copyLen {
        copyLen := |rest|;
      }
      if copyLen != 0 {
        CopyIn(c, rest[..copyLen]);
        rest := rest[copyLen..];
        assert old(c.partial[..c.partialLength]) + buffer == c.partial[..c.partialLength] + rest;
      }
      if c.partialLength >= BLOCK {
        var block := c.partial[..BLOCK];
        c.partialLength := 0;
        Single(a, c, block, rest);
      }
    }
  }

  method CopyIn(c: HashCtx, data: seq<byte>)
    requires c.partialLength + |data| <= c.partial.Length
    modifies c`partialLength, c.partial
    ensures c.partialLength == old(c.partialLength) + |data|
    ensures c.partial[..c.partialLength] == old(c.partial[..c.partialLength]) + data
  {
    forall k | 0 <= k < |data| {
      c.partial[c.partialLength + k] := data[k];
    }
    c.partialLength := c.partialLength + |data|;
  }

  /** md5_update */
  method Update(a: HashAlgorithm, c: HashCtx, buffer: seq<byte>)
    requires Between(a, c, [])
    modifies c`totalLength, c`status, c`msg, c`digest, c`done, c`partialLength, c.partial
    ensures Between(a, c, []) && c.msg == old(c.msg) + buffer && c.status == IDLE
  {
    ghost var kept := c.partial[..c.partialLength];
    assert kept + [] == kept;
    Regroup(c.done, kept, buffer, []);
    CountBytes(|c.msg|, |buffer|);
    c.totalLength := (c.totalLength + |buffer|) % TWO64;
    c.msg := c.msg + buffer;
    var rest := TopUp(a, c, buffer);
    if c.partialLength == 0 {
      while |rest| >= BLOCK
        invariant Between(a, c, rest) && c.partialLength == 0 && c.msg == old(c.msg) + buffer
      {
        assert c.partial[..0] + rest == rest[..BLOCK] + rest[BLOCK..];
        Single(a, c, rest[..BLOCK], rest[BLOCK..]);
        rest := rest[BLOCK..];
      }
    }
    if |rest| > 0 {
      CopyIn(c, rest);
      assert c.partial[..c.partialLength] + [] == [] + rest;
    }
    c.status := IDLE;
  }

  /** md5_single on one more block of the padded message. */
  method SingleOnEnd(a: HashAlgorithm, c: HashCtx, block: seq<byte>)
    requires c.Hashing(a) && |block| == BLOCK
    modifies c`digest, c`done
    ensures c.Hashing(a) && c.done == old(c.done) + block
  {
    AbsorbBlock(a, c.done, block);
    c.digest := a.compress(c.digest, block);
    c.done := c.done + block;
  }

  /** The one or two blocks that hold the rest of the message and its padding. */
  method SinglesOnEnd(a: HashAlgorithm, c: HashCtx, end: seq<byte>)
    requires c.Hashing(a) && (|end| == BLOCK || |end| == 2 * BLOCK)
    modifies c`digest, c`done
    ensures c.Hashing(a) && c.done == old(c.done) + end
  {
    SingleOnEnd(a, c, end[..BLOCK]);
    if |end| == 2 * BLOCK {
      SingleOnEnd(a, c, end[BLOCK..]);
      assert old(c.done) + end[..BLOCK] + end[BLOCK..] == old(c.done) + end;
    } else {
      assert end[..BLOCK] == end;
    }
  }

  /** md5_final */
  method Final(a: HashAlgorithm, c: HashCtx)
    requires Between(a, c, [])
    modifies c`status, c`digest, c`done
    ensures c.Hashing(a) && c.done == Padded(a, c.msg) && c.status == COMPLETE
  {
    ghost var tail := c.partial[..c.partialLength];
    assert tail + [] == tail;
    TailCount(|c.msg|, |c.done|, c.partialLength);
    var buf, end := PadCopy(c.partial[..c.partialLength], c.totalLength, a.field, 2 * BLOCK);
    PaddingOfLengthMod(a.field, |c.msg|);
    Regroup(c.done, tail, Padding(a.field, |c.msg|), []);
    assert Padding(a.field, |c.msg|) + [] == Padding(a.field, |c.msg|);
    assert buf[..end] == tail + Padding(a.field, |c.msg|);
    SinglesOnEnd(a, c, buf[..end]);
    c.status := COMPLETE;
  }

  /** md5_init */
  method InitMessage(a: HashAlgorithm, c: HashCtx)
    requires c.Held(a)
    modifies c
    ensures Between(a, c, []) && c.msg == [] && c.error == NoError
  {
    c.digest, c.totalLength, c.partialLength := a.iv, 0, 0;
    c.error := NoError;
    c.status := Status(true, false, false);
    c.msg, c.done, c.started := [], [], true;
    assert c.partial[..0] == [];
  }

  lemma FlagValues(flags: nat)
    requires flags <= 3
    ensures HasFirst(flags) == (flags == 1 || flags == 3) && HasLast(flags) == (flags == 2 || flags == 3)
  {
  }

  /** The message the request is for: a new one, or the one that is unfinished. */
  method Prepare(a: HashAlgorithm, c: HashCtx, flags: nat)
    requires c.Held(a) && BaseRejection(c.status, flags) == NoError
    modifies c
    ensures Between(a, c, []) && c.msg == if HasFirst(flags) then [] else old(c.msg)
    ensures c.error == if HasFirst(flags) then NoError else old(c.error)
  {
    FlagValues(flags);
    if flags == 1 || flags == 3 {
      InitMessage(a, c);
    } else {
      assert c.partial[..c.partialLength] + [] == c.partial[..c.partialLength];
    }
  }

  /** The request once it has passed the tests. */
  method Serve(a: HashAlgorithm, c: HashCtx, buffer: seq<byte>, flags: nat)
    requires c.Held(a) && BaseRejection(c.status, flags) == NoError
    modifies c, c.partial
    ensures c.Held(a) && c.started
    ensures c.msg == (if HasFirst(flags) then [] else old(c.msg)) + buffer
    ensures c.status == Status(false, false, HasLast(flags)) && c.wantsLast == HasLast(flags)
    ensures HasLast(flags) ==> c.digest == Hash(a, c.msg)
    ensures c.error == (if HasFirst(flags) then NoError else old(c.error))
  {
    Prepare(a, c, flags);
    Update(a, c, buffer);
    FlagValues(flags);
    c.wantsLast := HasLast(flags);
    if flags == 2 || flags == 3 {
      Final(a, c);
    } else {
      assert c.partial[..c.partialLength] + [] == c.partial[..c.partialLength];
    }
  }

  /**
   _md5_ctx_mgr_submit_base.  A LAST request leaves the hash of the whole message, as the
   multi-buffer form does when it returns the context; the error field is cleared by FIRST only.
   */
  method SubmitBase(a: HashAlgorithm, c: HashCtx, buffer: seq<byte>, flags: nat)
    requires |buffer| < 0x1_0000_0000
    requires c.Held(a) || (c.status.processing && flags >= 3)
    modifies c, c.partial
    ensures var why := old(BaseRejection(c.status, flags));
            if why != NoError then
              && c.error == why && c.digest == old(c.digest) && c.status == old(c.status) && c.msg == old(c.msg)
            else
              && c.Held(a) && c.started
              && c.msg == (if HasFirst(flags) then [] else old(c.msg)) + buffer
              && c.status == Status(false, false, HasLast(flags)) && c.wantsLast == HasLast(flags)
              && (HasLast(flags) ==> c.digest == Hash(a, c.msg))
              && c.error == (if HasFirst(flags) then NoError else old(c.error))
  {
    if flags > 3 {
      c.error := InvalidFlags;
      return;
    }
    if c.status.processing && flags == 3 {
      c.error := AlreadyProcessing;
      return;
    }
    if c.status.complete && !HasFirst(flags) {
      c.error := AlreadyCompleted;
      return;
    }
    Serve(a, c, buffer, flags);
  }
}
