/**
 One message being hashed: ISAL_MD5_HASH_CTX and its SHA-1 twin, with the steps that submit and
 resubmit take on it.  The compression function, the initial digest and the byte order of the
 length field are parameters, so MD5 and SHA-1 are two values of HashAlgorithm.
 */
module HashContext {
  import opened Bytes
  import opened MessagePadding

  type Digest = seq<bv32>

  datatype HashAlgorithm = HashAlgorithm(
    iv: Digest, compress: (Digest, seq<byte>) -> Digest, field: nat -> LengthField)

  function Absorb(a: HashAlgorithm, d: Digest, data: seq<byte>): Digest {
    Fold(a.compress, BLOCK, d, data)
  }

  function Padded(a: HashAlgorithm, msg: seq<byte>): seq<byte> {
    msg + Padding(a.field, |msg|)
  }

  /** The hash of a message, in one piece. */
  function Hash(a: HashAlgorithm, msg: seq<byte>): Digest {
    Absorb(a, a.iv, Padded(a, msg))
  }

  /** Absorbing one more block is one call of the compression function. */
  lemma AbsorbBlock(a: HashAlgorithm, done: seq<byte>, block: seq<byte>)
    requires |done| % BLOCK == 0 && |block| == BLOCK
    ensures Absorb(a, a.iv, done + block) == a.compress(Absorb(a, a.iv, done), block)
    ensures |done + block| % BLOCK == 0
  {
    var d := Absorb(a, a.iv, done);
    FoldConcat(a.compress, BLOCK, |done| / BLOCK, a.iv, done, block);
    assert block[..BLOCK] == block && block[BLOCK..] == [];
    assert Fold(a.compress, BLOCK, d, block) == Fold(a.compress, BLOCK, a.compress(d, block[..BLOCK]), block[BLOCK..]);
  }

  /** A message that fits one block with its padding takes one call of the compression function. */
  lemma HashOfOneBlock(a: HashAlgorithm, msg: seq<byte>)
    requires |Padded(a, msg)| == BLOCK
    ensures Hash(a, msg) == a.compress(a.iv, Padded(a, msg))
  {
    AbsorbBlock(a, [], Padded(a, msg));
    assert [] + Padded(a, msg) == Padded(a, msg);
  }

  lemma PaddedThree(a: HashAlgorithm, msg: seq<byte>, f: seq<byte>)
    requires |msg| == 3 && f == a.field(24)
    ensures Padded(a, msg) == msg + ([0x80] + Zeros(52) + f)
  {
  }

  lemma SplitBlock(bytes: seq<byte>, i: nat, n: nat)
    requires i < n && BLOCK * n <= |bytes|
    ensures bytes[BLOCK * i..BLOCK * n] == bytes[BLOCK * i..BLOCK * i + BLOCK] + bytes[BLOCK * i + BLOCK..BLOCK * n]
  {
  }

  lemma WholePart(n: nat)
    ensures n - n % BLOCK == BLOCK * ((n - n % BLOCK) / BLOCK)
  {
  }

  lemma WholeAndTail(bytes: seq<byte>, n: nat, len: nat)
    requires len == BLOCK * n <= |bytes|
    ensures bytes[BLOCK * 0..BLOCK * n] + bytes[len..] == [] + bytes
  {
  }

  lemma Regroup(done: seq<byte>, block: seq<byte>, rest: seq<byte>, more: seq<byte>)
    ensures done + ((block + rest) + more) == (done + block) + (rest + more)
    ensures done + (block + rest) == (done + block) + rest
  {
  }

  lemma AppendWaiting(done: seq<byte>, kept: seq<byte>, buffer: seq<byte>)
    ensures (done + kept) + buffer == done + ([] + (kept + buffer))
  {
  }

  lemma CountBytes(n: nat, more: nat)
    ensures (n % TWO64 + more) % TWO64 == (n + more) % TWO64
  {
  }

  /** The byte counter agrees with the buffered length: both are what whole blocks leave over. */
  lemma TailCount(n: nat, hashed: nat, buffered: nat)
    requires hashed % BLOCK == 0 && buffered < BLOCK && n == hashed + buffered
    ensures n % TWO64 % BLOCK == buffered
  {
    LengthMod(n);
    ModBlock(hashed / BLOCK, buffered);
  }

  /** The status bits. */
  datatype Status = Status(processing: bool, last: bool, complete: bool)

  const IDLE := Status(false, false, false)
  const COMPLETE := Status(false, false, true)

  datatype CtxError = NoError | InvalidFlags | AlreadyProcessing | AlreadyCompleted

  /** Where a job's buffer pointer points: the context's own block buffer or the user's bytes. */
  datatype Source = PartialBlock | UserBuffer(data: seq<byte>)

  datatype Job = Job(source: Source, blocks: nat)

  class HashCtx {
    var digest: Digest
    var job: Job
    /** How many blocks of the job the engine has run: where the lane's data pointer stands. */
    var progress: nat
    var status: Status
    var error: CtxError
    var totalLength: nat
    var incoming: seq<byte>
    const partial: array<byte>
    var partialLength: nat

    /** The message accepted since the last FIRST, and the part of it the digest covers. */
    ghost var msg: seq<byte>
    ghost var done: seq<byte>
    ghost var wantsLast: bool
    ghost var started: bool

    /** isal_hash_ctx_init: a context starts out complete, so only FIRST may follow. */
    constructor ()
      ensures fresh(this) && fresh(partial) && status == Status(false, false, true) && error == NoError
      ensures msg == [] && !wantsLast && !started && partial.Length == 2 * BLOCK
    {
      partial := new byte[2 * BLOCK];
      digest, job, progress := [], Job(PartialBlock, 0), 0;
      status, error := COMPLETE, NoError;
      totalLength, incoming, partialLength := 0, [], 0;
      msg, done, wantsLast, started := [], [], false, false;
    }

    // ----- what the fields mean -----

    /** The digest covers done, a whole number of blocks of the padded message. */
    ghost predicate Hashing(a: HashAlgorithm)
      reads this
    {
      && started
      && partial.Length == 2 * BLOCK
      && partialLength < BLOCK
      && |done| % BLOCK == 0 && digest == Absorb(a, a.iv, done)
      && totalLength == |msg| % TWO64
    }

    /** The bytes that no job covers yet: buffered here, or still in the user's buffer. */
    ghost function Waiting(): seq<byte>
      requires partialLength <= partial.Length
      reads this, partial
    {
      partial[..partialLength] + incoming
    }

    /** Every byte of the message is hashed, in rest, or waiting; after padding, hashed or in rest. */
    ghost predicate Accounts(a: HashAlgorithm, rest: seq<byte>)
      reads this, partial
    {
      && Hashing(a)
      && if status.complete then done + rest == Padded(a, msg) else msg == done + (rest + Waiting())
    }

    /** Nothing is waiting: the message is hashed but for the buffered bytes, or hashed with its padding. */
    ghost predicate Rested(a: HashAlgorithm)
      reads this, partial
    {
      && Hashing(a)
      && if status.complete then done == Padded(a, msg) else msg == done + partial[..partialLength]
    }

    /** In the hands of the user; where the incoming buffer points then is of no account. */
    ghost predicate Held(a: HashAlgorithm)
      reads this, partial
    {
      && partial.Length == 2 * BLOCK
      && (status == IDLE || status == COMPLETE)
      && (started ==> wantsLast == status.complete && Rested(a))
      && (status == IDLE ==> started)
    }

    ghost predicate Busy(a: HashAlgorithm, rest: seq<byte>)
      reads this, partial
    {
      && Accounts(a, rest)
      && status.processing && wantsLast == (status.last || status.complete)
      && !(status.last && status.complete)
      && (partialLength == 0 || incoming == [])
      && (status.complete ==> incoming == [])
    }

    /** Not in the engine, in the middle of submit or resubmit: no job is pending. */
    ghost predicate InHand(a: HashAlgorithm)
      reads this, partial
    {
      Busy(a, [])
    }

    function SourceBytes(): seq<byte>
      reads this, partial
    {
      match job.source
      case PartialBlock => partial[..]
      case UserBuffer(data) => data
    }

    ghost predicate JobFits()
      reads this, partial
    {
      progress <= job.blocks && BLOCK * job.blocks <= |SourceBytes()|
    }

    /** The job's bytes that are still to be run, as they stand in memory now. */
    ghost function Remaining(): seq<byte>
      requires JobFits()
      reads this, partial
    {
      SourceBytes()[BLOCK * progress..BLOCK * job.blocks]
    }

    /**
     In the engine.  While a job reads the block buffer, nothing else of the context lives there:
     unless the job is the final padding, the buffered length is zero.
     */
    ghost predicate InFlight(a: HashAlgorithm)
      reads this, partial
    {
      && JobFits()
      && Busy(a, Remaining())
      && (job.source.PartialBlock? && !status.complete ==> partialLength == 0)
    }

    // ----- the steps -----

    /** The engine runs the next block of the job, reading it from memory now. */
    method RunBlock(a: HashAlgorithm)
      requires InFlight(a) && progress < job.blocks
      modifies this`digest, this`progress, this`done
      ensures InFlight(a) && progress == old(progress) + 1
    {
      var bytes, from := SourceBytes(), BLOCK * progress;
      var block := bytes[from..from + BLOCK];
      ghost var rest := bytes[from + BLOCK..BLOCK * job.blocks];
      SplitBlock(bytes, progress, job.blocks);
      Regroup(done, block, rest, Waiting());
      AbsorbBlock(a, done, block);
      digest := a.compress(digest, block);
      done := done + block;
      progress := progress + 1;
      assert Remaining() == rest;
    }

    /** hash_init_digest and the two counters. */
    method StartMessage(a: HashAlgorithm)
      requires partial.Length == 2 * BLOCK
      modifies this`digest, this`totalLength, this`partialLength, this`msg, this`done, this`started
      ensures Hashing(a) && msg == [] && msg == done + partial[..partialLength]
    {
      digest, totalLength, partialLength := a.iv, 0, 0;
      msg, done, started := [], [], true;
    }

    /** The byte counter, an uint64_t. */
    method AddLength(a: HashAlgorithm, buffer: seq<byte>)
      requires Hashing(a)
      modifies this`totalLength, this`msg
      ensures Hashing(a) && msg == old(msg) + buffer
    {
      CountBytes(|msg|, |buffer|);
      totalLength := (totalLength + |buffer|) % TWO64;
      msg := msg + buffer;
    }

    /** Submit, up to the byte counter: the request is recorded and FIRST starts a new message. */
    method Accept(a: HashAlgorithm, buffer: seq<byte>, first: bool, last: bool)
      requires Held(a) && (first || !status.complete)
      modifies this
      ensures status == Status(true, last, false) && error == NoError
      ensures msg == (if first then [] else old(msg)) + buffer && wantsLast == last
      ensures Accounts(a, []) && incoming == buffer
    {
      if first {
        StartMessage(a);
      }
      ghost var kept := partial[..partialLength];
      assert msg == done + kept;
      error := NoError;
      incoming := buffer;
      status := Status(true, last, false);
      AddLength(a, buffer);
      wantsLast := last;
      AppendWaiting(done, kept, buffer);
    }

    /** The next n of the user's bytes go into the block buffer. */
    method CopyIn(n: nat)
      requires partialLength + n <= partial.Length && n <= |incoming|
      modifies this`incoming, this`partialLength, partial
      ensures partialLength == old(partialLength) + n && incoming == old(incoming[n..])
      ensures Waiting() == old(Waiting())
    {
      ghost var was := partial[..partialLength];
      forall k | 0 <= k < n {
        partial[partialLength + k] := incoming[k];
      }
      assert partial[..partialLength + n] == was + incoming[..n];
      partialLength := partialLength + n;
      incoming := incoming[n..];
    }

    /** The full block buffer becomes a job of one block. */
    method PartialJob()
      requires partialLength == BLOCK && partial.Length == 2 * BLOCK
      modifies this`job, this`progress, this`partialLength
      ensures partialLength == 0 && job.source == PartialBlock && JobFits()
      ensures Remaining() + Waiting() == [] + old(Waiting())
    {
      partialLength := 0;
      job, progress := Job(PartialBlock, 1), 0;
      assert Remaining() == partial[..BLOCK];
    }

    /** Submit, the middle: tops up the block buffer; a full block becomes a job. */
    method FillPartial(a: HashAlgorithm) returns (full: bool)
      requires Accounts(a, []) && status.processing && !status.complete && wantsLast == status.last
      modifies this`job, this`progress, this`incoming, this`partialLength, partial
      ensures full ==> InFlight(a)
      ensures !full ==> InHand(a)
    {
      full := false;
      if partialLength != 0 || |incoming| < BLOCK {
        var copyLen := BLOCK - partialLength;
        if |incoming| < copyLen {
          copyLen := |incoming|;
        }
        if copyLen != 0 {
          CopyIn(copyLen);
        }
        if partialLength >= BLOCK {
          PartialJob();
          full := true;
        }
      }
    }

    method BufferTail(buffer: seq<byte>, from: nat)
      requires partial.Length == 2 * BLOCK && from <= |buffer| < from + BLOCK
      modifies this`partialLength, partial
      ensures partialLength == |buffer| - from && partial[..partialLength] == buffer[from..]
    {
      partialLength := |buffer| - from;
      forall k | 0 <= k < partialLength {
        partial[k] := buffer[from + k];
      }
    }

    /** The whole blocks of the user's buffer become a job. */
    method UserJob(buffer: seq<byte>, blocks: nat, len: nat)
      requires len == BLOCK * blocks <= |buffer|
      modifies this`job, this`progress
      ensures JobFits() && job.source.UserBuffer? && Remaining() + buffer[len..] == [] + buffer
    {
      job, progress := Job(UserBuffer(buffer), blocks), 0;
      WholeAndTail(buffer, blocks, len);
    }

    /** Resubmit, first half: with an empty block buffer, the user's whole blocks become a job. */
    method TakeBlocks(a: HashAlgorithm) returns (ready: bool)
      requires InHand(a) && !status.complete
      modifies this`job, this`progress, this`incoming, this`partialLength, partial
      ensures incoming == []
      ensures ready ==> old(incoming) != [] && InFlight(a)
      ensures !ready ==> InHand(a)
    {
      ready := false;
      if partialLength == 0 && |incoming| != 0 {
        var buffer, len := incoming, |incoming|;
        assert Waiting() == buffer;
        WholePart(len);
        var copyLen := len % BLOCK;
        if copyLen != 0 {
          len := len - copyLen;
          BufferTail(buffer, len);
        }
        incoming := [];
        assert Waiting() == buffer[len..];
        var blocks := len / BLOCK;
        if blocks != 0 {
          UserJob(buffer, blocks, len);
          ready := true;
        }
      }
    }

    /** Resubmit, second half: pads the last block in place and makes it the final job. */
    method PadLast(a: HashAlgorithm)
      requires InHand(a) && status.last && incoming == []
      modifies this`job, this`progress, this`status, partial
      ensures InFlight(a) && !status.last && status.complete
    {
      ghost var tail := partial[..partialLength];
      assert [] + Waiting() == tail;
      TailCount(|msg|, |done|, partialLength);
      var blocks := HashPad(partial, totalLength, a.field);
      PaddingOfLengthMod(a.field, |msg|);
      status := Status(true, false, true);
      job, progress := Job(PartialBlock, blocks), 0;
      assert Remaining() == partial[..BLOCK * blocks];
      Regroup(done, tail, Padding(a.field, |msg|), []);
    }
  }
}
