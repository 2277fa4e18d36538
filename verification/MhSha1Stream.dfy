/**
 mh_sha1 as a stream: init, update with a partial-block buffer, finalize (mh_sha1_update_base.c and
 mh_sha1_finalize_base.c), and the one-shot reference mh_sha1_ref.
 */
module MhSha1Stream {
  import opened Bytes
  import opened Words
  import opened MessagePadding
  import opened HashContext
  import Division
  import LengthCode
  import opened Sha1Message
  import opened MhSha1
  import opened MhSha1Blocks

  const TWO32: nat := 0x1_0000_0000

  // ----- the specification -----

  /** Every segment starts from the initial SHA-1 value. */
  function InitialDigests(): Digests {
    FromLanes((_: nat) => Sha1.H0)
  }

  /** The zeros between the end marker and the length. */
  function MhZeros(len: nat): (z: nat)
    ensures (len + 1 + z + 8) % MH_BLOCK == 0 && z < MH_BLOCK
  {
    var r := len % MH_BLOCK;
    if r < MH_BLOCK - 8 then MH_BLOCK - 9 - r else 2 * MH_BLOCK - 9 - r
  }

  /** An end marker, zeros, and eight times the coded length in the last eight bytes of a 1024-byte block. */
  function MhPadding(len: nat, coded: nat): seq<byte> {
    [0x80] + Zeros(MhZeros(len)) + LengthBE(8 * coded)
  }

  /** The SHA-1 of the sixteen segment digests of the padded message, as they lie in memory. */
  function MhDigest(msg: seq<byte>, coded: nat): Digest {
    Hash(SHA1(), Memory(MhBlocks(InitialDigests(), msg + MhPadding(|msg|, coded))))
  }

  /** A length cast to uint32_t. */
  function Low32(n: nat): nat {
    n % TWO32
  }

  /** What finalize computes: the length it encodes is cut to 32 bits. */
  function StreamDigest(msg: seq<byte>): Digest {
    MhDigest(msg, Low32(|msg|))
  }

  lemma WholeBlocks(n: nat)
    ensures n == MH_BLOCK * (n / MH_BLOCK) + n % MH_BLOCK
    ensures n % TWO64 % MH_BLOCK == n % MH_BLOCK
  {
    var q, r := n / TWO64, n % TWO64;
    assert n == MH_BLOCK * (TWO64 / MH_BLOCK * q) + r;
  }

  // ----- the tail -----

  /** The first block of the padded tail, before a length is written. */
  function FirstBlock(tail: seq<byte>): (b: seq<byte>)
    requires |tail| < MH_BLOCK
    ensures |b| == MH_BLOCK
  {
    tail + [0x80] + Zeros(MH_BLOCK - 1 - |tail|)
  }

  lemma OneBlockTail(tail: seq<byte>, len: nat, coded: nat)
    requires |tail| == len % MH_BLOCK < MH_BLOCK - 8
    ensures FirstBlock(tail)[..MH_BLOCK - 8] + LengthBE(8 * coded) == tail + MhPadding(len, coded)
  {
    assert Zeros(MH_BLOCK - 1 - |tail|)[..MH_BLOCK - 9 - |tail|] == Zeros(MH_BLOCK - 9 - |tail|);
  }

  lemma TwoBlockTail(tail: seq<byte>, len: nat, coded: nat)
    requires MH_BLOCK - 8 <= |tail| == len % MH_BLOCK
    ensures FirstBlock(tail) + (Zeros(MH_BLOCK - 8) + LengthBE(8 * coded)) == tail + MhPadding(len, coded)
  {
    assert Zeros(MH_BLOCK - 1 - |tail|) + Zeros(MH_BLOCK - 8) == Zeros(2 * MH_BLOCK - 9 - |tail|);
  }

  /** memset to zero of bytes from up to the end of the first block. */
  method Clear(buf: array<byte>, from: nat)
    requires from <= MH_BLOCK <= buf.Length
    modifies buf
    ensures buf[..MH_BLOCK] == old(buf[..from]) + Zeros(MH_BLOCK - from)
  {
    forall k | from <= k < MH_BLOCK {
      buf[k] := 0;
    }
  }

  method PutMarker(buf: array<byte>, len: nat)
    requires len < MH_BLOCK <= buf.Length
    modifies buf
    ensures buf[..MH_BLOCK] == FirstBlock(old(buf[..len]))
  {
    buf[len] := 0x80;
    assert buf[..len + 1] == old(buf[..len]) + [0x80];
    Clear(buf, len + 1);
  }

  /** The length goes to the end of the block, and the block is hashed. */
  method HashLast(buf: array<byte>, bits: nat, interim: array<bv32>, frame: array<bv32>, reference: bool)
    requires MH_BLOCK <= buf.Length && interim.Length == 80 && frame.Length == 256 && interim != frame
    modifies buf, interim, frame
    ensures interim[..] == MhBlocks(old(interim[..]), old(buf[..MH_BLOCK - 8]) + LengthBE(bits))
  {
    PutLength(buf, MH_BLOCK, LengthBE(bits));
    assert buf[..MH_BLOCK] == buf[..MH_BLOCK - 8] + buf[MH_BLOCK - 8..MH_BLOCK];
    HashFirst(buf, interim, frame, reference);
  }

  method HashFirst(buf: array<byte>, interim: array<bv32>, frame: array<bv32>, reference: bool)
    requires MH_BLOCK <= buf.Length && interim.Length == 80 && frame.Length == 256 && interim != frame
    modifies interim, frame
    ensures interim[..] == MhBlocks(old(interim[..]), buf[..MH_BLOCK])
  {
    assert buf[..MH_BLOCK][..MH_BLOCK * 1] == buf[..MH_BLOCK];
    if reference {
      BlockRef(buf[..MH_BLOCK], interim, frame, 1);
    } else {
      BlockBase(buf[..MH_BLOCK], interim, frame, 1);
    }
  }

  /**
   _mh_sha1_tail_base and mh_sha1_tail_ref, one text over two block functions: pads the last partial
   block, hashes it, and hashes the segment digests.
   */
  method Tail(partial: array<byte>, totalLen: nat, interim: array<bv32>, frame: array<bv32>, reference: bool)
    returns (digest: Digest)
    requires partial.Length == 2 * MH_BLOCK && interim.Length == 80 && frame.Length == 256 && interim != frame
    requires totalLen < TWO32
    modifies partial, interim, frame
    ensures var last := old(partial[..totalLen % MH_BLOCK]) + MhPadding(totalLen, totalLen);
            digest == Hash(SHA1(), Memory(MhBlocks(old(interim[..]), last)))
  {
    HashTail(partial, totalLen, interim, frame, reference);
    digest := HashMessage(Memory(interim[..]));
  }

  method HashTail(partial: array<byte>, totalLen: nat, interim: array<bv32>, frame: array<bv32>, reference: bool)
    requires partial.Length == 2 * MH_BLOCK && interim.Length == 80 && frame.Length == 256 && interim != frame
    modifies partial, interim, frame
    ensures var last := old(partial[..totalLen % MH_BLOCK]) + MhPadding(totalLen, totalLen);
            interim[..] == MhBlocks(old(interim[..]), last)
  {
    var len := totalLen % MH_BLOCK;
    ghost var tail := partial[..len];
    PutMarker(partial, len);
    len := len + 1;
    if len > MH_BLOCK - 8 {
      HashFirst(partial, interim, frame, reference);
      Clear(partial, 0);
      assert partial[..MH_BLOCK - 8] == partial[..MH_BLOCK][..MH_BLOCK - 8] == Zeros(MH_BLOCK - 8);
      HashLast(partial, 8 * totalLen, interim, frame, reference);
      MoreBlocks(old(interim[..]), 1, FirstBlock(tail), Zeros(MH_BLOCK - 8) + LengthBE(8 * totalLen));
      TwoBlockTail(tail, totalLen, totalLen);
    } else {
      assert partial[..MH_BLOCK - 8] == partial[..MH_BLOCK][..MH_BLOCK - 8];
      HashLast(partial, 8 * totalLen, interim, frame, reference);
      OneBlockTail(tail, totalLen, totalLen);
    }
  }

  /** The initial value of SHA-1, in every segment. */
  lemma InitialLanes(s: nat)
    requires s < SEGS
    ensures Lane(InitialDigests(), s) == Sha1.Regs(0x67452301, 0xefcdab89, 0x98badcfe, 0x10325476, 0xc3d2e1f0)
  {
    LaneOfFromLanes((_: nat) => Sha1.H0, s);
  }

  /** The loop of init, and of the reference, over the segments. */
  method StartDigests(interim: array<bv32>)
    requires interim.Length == 80
    modifies interim
    ensures interim[..] == InitialDigests()
  {
    for i := 0 to SEGS
      invariant forall s {:trigger interim[s]} :: 0 <= s < i ==> interim[s] == 0x67452301
      invariant forall s {:trigger interim[s]} :: 16 <= s < 16 + i ==> interim[s] == 0xefcdab89
      invariant forall s {:trigger interim[s]} :: 32 <= s < 32 + i ==> interim[s] == 0x98badcfe
      invariant forall s {:trigger interim[s]} :: 48 <= s < 48 + i ==> interim[s] == 0x10325476
      invariant forall s {:trigger interim[s]} :: 64 <= s < 64 + i ==> interim[s] == 0xc3d2e1f0
    {
      interim[i] := 0x67452301;
      interim[16 + i] := 0xefcdab89;
      interim[32 + i] := 0x98badcfe;
      interim[48 + i] := 0x10325476;
      interim[64 + i] := 0xc3d2e1f0;
    }
    forall s: nat | s < SEGS
      ensures Lane(interim[..], s) == Lane(InitialDigests(), s)
    {
      InitialLanes(s);
    }
    LanesDecide(interim[..], InitialDigests());
  }

  /** memcpy into the partial-block buffer. */
  method CopyIn(partial: array<byte>, at: nat, data: seq<byte>)
    requires at + |data| <= partial.Length
    modifies partial
    ensures partial[..at + |data|] == old(partial[..at]) + data
  {
    forall k | at <= k < at + |data| {
      partial[k] := data[k - at];
    }
  }

  // ----- the context -----

  class MhSha1Ctx {
    var digest: Digest
    var totalLength: nat
    const partial: array<byte>
    const interim: array<bv32>
    const frame: array<bv32>

    /** The bytes of all updates, and the part of them that is in the segment digests. */
    ghost var msg: seq<byte>
    ghost var done: seq<byte>

    /** _mh_sha1_init */
    constructor ()
      ensures Valid() && msg == [] && fresh(partial) && fresh(interim) && fresh(frame)
    {
      digest := [];
      totalLength := 0;
      partial := new byte[2 * MH_BLOCK];
      interim := new bv32[80];
      frame := new bv32[256];
      msg, done := [], [];
      new;
      StartDigests(interim);
      assert partial[..0] == [];
    }

    ghost predicate Shaped() {
      partial.Length == 2 * MH_BLOCK && interim.Length == 80 && frame.Length == 256 && interim != frame
    }

    /** The segment digests cover the bytes of covered, a whole number of blocks. */
    ghost predicate Covers(covered: seq<byte>)
      reads interim
    {
      Shaped() && |covered| % MH_BLOCK == 0 && interim[..] == MhBlocks(InitialDigests(), covered)
    }

    ghost predicate Valid()
      reads this, partial, interim
    {
      && Covers(done)
      && totalLength == |msg| % TWO64
      && msg == done + partial[..|msg| % MH_BLOCK]
    }

    /** Whole blocks of input go into the segment digests. */
    method HashBlocks(data: seq<byte>, numBlocks: nat, ghost covered: seq<byte>)
      requires Covers(covered) && |data| >= MH_BLOCK * numBlocks
      modifies interim, frame
      ensures Covers(covered + data[..MH_BLOCK * numBlocks])
    {
      BlockBase(data, interim, frame, numBlocks);
      MoreBlocks(InitialDigests(), |covered| / MH_BLOCK, covered, data[..MH_BLOCK * numBlocks]);
    }

    /** The whole blocks of the input; the rest is left. */
    method RunWhole(input: seq<byte>, ghost before: seq<byte>) returns (rest: seq<byte>, ghost covered: seq<byte>)
      requires Covers(before)
      modifies interim, frame
      ensures Covers(covered) && |rest| < MH_BLOCK && before + input == covered + rest
    {
      covered, rest := before, input;
      var numBlocks := |input| / MH_BLOCK;
      if numBlocks > 0 {
        HashBlocks(input, numBlocks, before);
        covered, rest := before + input[..MH_BLOCK * numBlocks], input[MH_BLOCK * numBlocks..];
        assert input == input[..MH_BLOCK * numBlocks] + rest;
      }
    }

    /** Update when at least one block can be filled. */
    method UpdateBlocks(data: seq<byte>, partialLen: nat, ghost kept: seq<byte>)
      returns (ghost covered: seq<byte>, ghost rest: seq<byte>)
      requires Covers(done) && partialLen < MH_BLOCK <= partialLen + |data| && kept == partial[..partialLen]
      modifies partial, interim, frame
      ensures Covers(covered) && |rest| < MH_BLOCK
      ensures done + (kept + data) == covered + rest && partial[..|rest|] == rest
    {
      var input := data;
      covered := done;
      if partialLen != 0 {
        var fill := MH_BLOCK - partialLen;
        CopyIn(partial, partialLen, input[..fill]);
        assert partial[..MH_BLOCK][..MH_BLOCK * 1] == kept + input[..fill];
        HashBlocks(partial[..MH_BLOCK], 1, covered);
        covered := covered + (kept + input[..fill]);
        input := input[fill..];
        Clear(partial, 0);
        assert done + (kept + data) == covered + input;
      }
      input, covered := RunWhole(input, covered);
      if |input| != 0 {
        CopyIn(partial, 0, input);
      }
      rest := input;
    }

    /** _mh_sha1_update_base */
    method Update(data: seq<byte>)
      requires Valid() && |data| < TWO32
      modifies this`totalLength, this`msg, this`done, partial, interim, frame
      ensures Valid() && msg == old(msg) + data
    {
      if |data| == 0 {
        assert msg + data == msg;
        return;
      }
      WholeBlocks(|msg|);
      var partialLen := totalLength % MH_BLOCK;
      ghost var kept := partial[..partialLen];
      CountBytes(|msg|, |data|);
      Regroup(done, kept, data, []);
      totalLength := (totalLength + |data|) % TWO64;
      msg := msg + data;
      ghost var rest;
      if |data| < MH_BLOCK - partialLen {
        CopyIn(partial, partialLen, data);
        rest := kept + data;
      } else {
        done, rest := UpdateBlocks(data, partialLen, kept);
      }
      RestLength(msg, done, rest);
    }

    /** _mh_sha1_finalize_base: the total length is handed on as a uint32_t. */
    method Finalize() returns (result: Digest)
      requires Valid()
      modifies this`digest, partial, interim, frame
      ensures result == digest == StreamDigest(msg)
    {
      LengthsAgree(|msg|);
      MoreBlocks(InitialDigests(), |done| / MH_BLOCK, done, partial[..|msg| % MH_BLOCK] + StreamPadding(msg));
      Regroup(done, partial[..|msg| % MH_BLOCK], StreamPadding(msg), []);
      digest := Tail(partial, totalLength % TWO32, interim, frame, false);
      result := digest;
    }
  }

  lemma RestLength(msg: seq<byte>, done: seq<byte>, rest: seq<byte>)
    requires msg == done + rest && |done| % MH_BLOCK == 0 && |rest| < MH_BLOCK
    ensures |msg| % MH_BLOCK == |rest|
  {
  }

  function StreamPadding(msg: seq<byte>): seq<byte> {
    MhPadding(Low32(|msg|), Low32(|msg|))
  }

  lemma LengthsAgree(n: nat)
    ensures n % TWO64 % TWO32 == Low32(n) && Low32(n) % MH_BLOCK == n % MH_BLOCK
    ensures MhPadding(Low32(n), Low32(n)) == MhPadding(n, Low32(n))
  {
    LowWord(n);
    LowBlock(n);
  }

  lemma LowWord(n: nat)
    ensures n % TWO64 % TWO32 == n % TWO32
  {
    var q, r := n / TWO64, n % TWO64;
    assert n == TWO32 * (TWO32 * q) + r;
  }

  lemma LowBlock(n: nat)
    ensures n % TWO32 % MH_BLOCK == n % MH_BLOCK
  {
    var q, r := n / TWO32, n % TWO32;
    assert n == MH_BLOCK * (TWO32 / MH_BLOCK * q) + r;
  }

  /** mh_sha1_ref up to its tail: the whole blocks, and the rest in the partial-block buffer. */
  method OneShotBlocks(buffer: seq<byte>, partial: array<byte>, interim: array<bv32>, frame: array<bv32>)
    requires partial.Length == 2 * MH_BLOCK && interim.Length == 80 && frame.Length == 256 && interim != frame
    requires interim[..] == InitialDigests()
    modifies partial, interim, frame
    ensures var n := MH_BLOCK * (|buffer| / MH_BLOCK);
            && interim[..] == MhBlocks(InitialDigests(), buffer[..n])
            && partial[..|buffer| % MH_BLOCK] == buffer[n..]
  {
    var numBlocks := |buffer| / MH_BLOCK;
    if numBlocks > 0 {
      BlockRef(buffer, interim, frame, numBlocks);
    }
    var rest := buffer[MH_BLOCK * numBlocks..];
    forall k | 0 <= k < |rest| {
      partial[k] := rest[k];
    }
    assert partial[..|rest|] == rest;
  }

  /** Whole blocks first, then the rest with its padding. */
  lemma SplitTail(start: Digests, n: nat, whole: seq<byte>, rest: seq<byte>, padding: seq<byte>)
    requires |whole| == MH_BLOCK * n
    ensures MhBlocks(MhBlocks(start, whole), rest + padding) == MhBlocks(start, whole + rest + padding)
  {
    MoreBlocks(start, n, whole, rest + padding);
    Regroup(whole, rest, padding, []);
  }

  /** Below 2^32 bytes the length finalize encodes is the length. */
  lemma ShortLength(msg: seq<byte>)
    requires |msg| < TWO32
    ensures StreamDigest(msg) == MhDigest(msg, |msg|)
  {
    assert Low32(|msg|) == |msg|;
  }

  /** mh_sha1_ref, for lengths that fit a uint32_t as its argument does. */
  method OneShot(buffer: seq<byte>) returns (digest: Digest)
    requires |buffer| < TWO32
    ensures digest == StreamDigest(buffer)
  {
    var interim, frame, partial := new bv32[80], new bv32[256], new byte[2 * MH_BLOCK];
    StartDigests(interim);
    OneShotBlocks(buffer, partial, interim, frame);
    ghost var n := |buffer| / MH_BLOCK;
    SplitTail(InitialDigests(), n, buffer[..MH_BLOCK * n], buffer[MH_BLOCK * n..], MhPadding(|buffer|, |buffer|));
    assert buffer[..MH_BLOCK * n] + buffer[MH_BLOCK * n..] == buffer;
    ShortLength(buffer);
    digest := Tail(partial, |buffer|, interim, frame, true);
  }

  /** Any way of cutting a message into updates gives the digest of the message. */
  method HashPieces(pieces: seq<seq<byte>>) returns (digest: Digest)
    requires forall i :: 0 <= i < |pieces| ==> |pieces[i]| < TWO32
    ensures digest == StreamDigest(Flatten(pieces))
  {
    var ctx := new MhSha1Ctx();
    for i := 0 to |pieces|
      invariant ctx.Valid() && ctx.msg == Flatten(pieces[..i])
      invariant fresh(ctx) && fresh(ctx.partial) && fresh(ctx.interim) && fresh(ctx.frame)
    {
      ctx.Update(pieces[i]);
      FlattenAppend(pieces[..i], pieces[i]);
      assert pieces[..i] + [pieces[i]] == pieces[..i + 1];
    }
    assert pieces[..|pieces|] == pieces;
    digest := ctx.Finalize();
  }

  // ----- the 32-bit length -----

  const TWO61: nat := 0x2000_0000_0000_0000

  /**
   The cut to 32 bits in finalize is harmless exactly when the length, as a 64-bit count of bits
   holds it, is below 2^32 bytes; for a longer message the padding encodes another length.
   */
  lemma TruncationExact(n: nat)
    ensures MhPadding(n, Low32(n)) == MhPadding(n, n) <==> n % 0x2000_0000_0000_0000 < 0x1_0000_0000
  {
    LengthCode.LengthFieldExact(8 * Low32(n), 8 * n);
    PaddingDecides(n, Low32(n), n);
    CountOfBits(n);
  }

  /** Two updates are enough to get there: one byte short of 2^32, and one more. */
  lemma TruncationMatters() returns (pieces: seq<seq<byte>>)
    ensures |pieces| == 2 && |pieces[0]| < TWO32 && |pieces[1]| < TWO32
    ensures var n := |Flatten(pieces)|; n == 0x1_0000_0000 && Low32(n) == 0 && MhPadding(n, Low32(n)) != MhPadding(n, n)
  {
    pieces := [Zeros(TWO32 - 1), Zeros(1)];
    FlattenTwo(Zeros(TWO32 - 1), Zeros(1));
    TruncationExact(TWO32);
  }

  lemma FlattenTwo(x: seq<byte>, y: seq<byte>)
    ensures |Flatten([x, y])| == |x| + |y|
  {
    assert [x, y][1..] == [y] && [y][1..] == [];
    assert Flatten([y]) == y + Flatten([]);
  }

  lemma PaddingDecides(len: nat, x: nat, y: nat)
    ensures MhPadding(len, x) == MhPadding(len, y) <==> LengthBE(8 * x) == LengthBE(8 * y)
  {
    EqualTails([0x80] + Zeros(MhZeros(len)), LengthBE(8 * x), LengthBE(8 * y));
  }

  lemma EqualTails(head: seq<byte>, x: seq<byte>, y: seq<byte>)
    ensures head + x == head + y <==> x == y
  {
    assert (head + x)[|head|..] == x && (head + y)[|head|..] == y;
  }

  lemma CountOfBits(n: nat)
    ensures 8 * Low32(n) % TWO64 == 8 * n % TWO64 <==> n % TWO61 < TWO32
  {
    EightTimes(n);
    EightTimes(Low32(n));
    LowOfCount(n);
  }

  lemma EightTimes(n: nat)
    ensures 8 * n % TWO64 == 8 * (n % TWO61)
  {
    var q, r := n / TWO61, n % TWO61;
    assert 8 * n == TWO64 * q + 8 * r;
    Division.Remainder(TWO64, q, 8 * r);
  }

  lemma LowOfCount(n: nat)
    ensures n % TWO32 == n % TWO61 % TWO32 && Low32(n) % TWO61 == Low32(n)
  {
    var q, r := n / TWO61, n % TWO61;
    assert n == TWO32 * (TWO61 / TWO32 * q) + r;
    Division.AddMultiple(TWO32, TWO61 / TWO32 * q, r);
  }
}
