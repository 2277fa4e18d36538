/**
 The stitched hash: one pass that feeds every byte to mh_sha1 and to murmur3
 (mh_sha1_murmur3_x64_128.c, and its update and finalize).
 */
module MhSha1Murmur3 {
  import opened Bytes
  import opened MessagePadding
  import opened HashContext
  import opened MhSha1
  import opened MhSha1Blocks
  import opened TailHash
  import ByteDigits
  import Division
  import Murmur3
  import opened Murmur3Code
  import Stream = MhSha1Stream

  type State = Murmur3.State

  const MUR_BLOCK := Murmur3.MUR_BLOCK
  const TWO32 := Stream.TWO32

  /**
   The murmur side of the context as a pair of functions.  The context reasons about any such pair;
   only the two loops below look at what murmur3 does with a block.
   */
  datatype Second = Second(step: (State, seq<byte>) -> State, finish: (State, seq<byte>, nat) -> State)

  function MURMUR(): Second {
    Second(Murmur3.StepBytes, Murmur3.FinishBytes)
  }

  ghost predicate IsMurmur(m: Second) {
    && (forall s, b {:trigger Murmur3.StepBytes(s, b)} :: m.step(s, b) == Murmur3.StepBytes(s, b))
    && (forall s, b, n {:trigger Murmur3.FinishBytes(s, b, n)} :: m.finish(s, b, n) == Murmur3.FinishBytes(s, b, n))
  }

  function Absorbed(m: Second, seed: bv64, data: seq<byte>): State {
    Fold(m.step, MUR_BLOCK, Murmur3.State(seed, seed), data)
  }

  function Whole(m: Second, seed: bv64, msg: seq<byte>): State {
    End(m.step, m.finish, MUR_BLOCK, Murmur3.State(seed, seed), msg, |msg|)
  }

  lemma WholeMurmur(seed: bv64, msg: seq<byte>)
    ensures IsMurmur(MURMUR()) && Whole(MURMUR(), seed, msg) == Murmur3.Murmur(msg, seed)
  {
  }

  lemma {:induction false} SameFold(m: Second, s: State, data: seq<byte>)
    requires IsMurmur(m)
    ensures Fold(m.step, MUR_BLOCK, s, data) == Murmur3.Blocks(s, data)
    decreases |data|
  {
    if |data| >= MUR_BLOCK {
      assert m.step(s, data[..MUR_BLOCK]) == Murmur3.StepBytes(s, data[..MUR_BLOCK]);
      SameFold(m, m.step(s, data[..MUR_BLOCK]), data[MUR_BLOCK..]);
    }
  }

  method MurmurBlocks(data: seq<byte>, numBlocks: nat, hash: array<bv64>, ghost m: Second)
    requires hash.Length == 2 && MUR_BLOCK * numBlocks <= |data| && IsMurmur(m)
    modifies hash
    ensures StateOf(hash) == Fold(m.step, MUR_BLOCK, old(StateOf(hash)), data[..MUR_BLOCK * numBlocks])
  {
    SameFold(m, StateOf(hash), data[..MUR_BLOCK * numBlocks]);
    Murmur3Code.Block(data, numBlocks, hash);
  }

  /** The tail, with a total length cut to 32 bits: murmur3 only uses those bits. */
  method MurmurTail(tail: seq<byte>, len: nat, hash: array<bv64>, ghost m: Second, ghost n: nat)
    requires hash.Length == 2 && len == Stream.Low32(n) && |tail| == len % MUR_BLOCK && IsMurmur(m)
    modifies hash
    ensures StateOf(hash) == m.finish(old(StateOf(hash)), tail, n)
  {
    CodedLength(m, StateOf(hash), tail, n);
    Murmur3Code.Tail(tail, len, hash);
    assert tail[..len % MUR_BLOCK] == tail;
  }

  lemma CodedLength(m: Second, s: State, tail: seq<byte>, n: nat)
    requires |tail| < MUR_BLOCK && IsMurmur(m)
    ensures m.finish(s, tail, n) == Murmur3.Finish(s, tail, Stream.Low32(n))
  {
    LengthBits(n);
    assert m.finish(s, tail, n) == Murmur3.FinishBytes(s, tail, n);
  }

  lemma LengthBits(n: nat)
    ensures Murmur3.LengthWord(Stream.Low32(n)) == Murmur3.LengthWord(n)
  {
    ByteDigits.SmallMod(n % 0x1_0000_0000);
    Murmur3.LengthWordDecides(n % 0x1_0000_0000, n);
  }

  /** A 1024-byte block is 64 murmur blocks: neither hash ever splits a block of the other. */
  lemma AbsorbedMore(m: Second, seed: bv64, n: nat, x: seq<byte>, y: seq<byte>)
    requires |x| == MH_BLOCK * n
    ensures Absorbed(m, seed, x + y) == Fold(m.step, MUR_BLOCK, Absorbed(m, seed, x), y)
  {
    FoldConcat(m.step, MUR_BLOCK, 64 * n, Murmur3.State(seed, seed), x, y);
  }

  lemma TailLength(n: nat)
    ensures Stream.Low32(n) % MUR_BLOCK == n % MH_BLOCK % MUR_BLOCK == n % MUR_BLOCK
  {
    Stream.LowBlock(n);
    var q, r := n / MH_BLOCK, n % MH_BLOCK;
    assert n == MUR_BLOCK * (64 * q) + r;
    Division.AddMultiple(MUR_BLOCK, 64 * q, r);
    var q', r' := n / TWO32, Stream.Low32(n);
    assert n == MUR_BLOCK * (TWO32 / MUR_BLOCK * q') + r';
    Division.AddMultiple(MUR_BLOCK, TWO32 / MUR_BLOCK * q', r');
  }

  /** From whole mh_sha1 blocks, the whole murmur blocks of the buffered bytes and their tail end the hash. */
  lemma WholeFrom(m: Second, seed: bv64, n: nat, done: seq<byte>, k: nat, blocks: seq<byte>, tail: seq<byte>)
    requires |done| == MH_BLOCK * n && |blocks| == MUR_BLOCK * k && |tail| < MUR_BLOCK
    ensures Whole(m, seed, done + (blocks + tail))
         == m.finish(Fold(m.step, MUR_BLOCK, Absorbed(m, seed, done), blocks), tail, |done + (blocks + tail)|)
  {
    AbsorbedMore(m, seed, n, done, blocks + tail);
    FoldConcat(m.step, MUR_BLOCK, k, Absorbed(m, seed, done), blocks, tail);
    TailAfter(MUR_BLOCK, 64 * n, done, blocks + tail);
    TailIs(MUR_BLOCK, k, blocks, tail);
  }

  /** _mh_sha1_murmur3_x64_128_block_base */
  method BlockBoth(data: seq<byte>, interim: array<bv32>, frame: array<bv32>, hash: array<bv64>, numBlocks: nat,
                   ghost m: Second)
    requires interim.Length == 80 && frame.Length == 256 && interim != frame && hash.Length == 2 && IsMurmur(m)
    requires MH_BLOCK * numBlocks <= |data|
    modifies interim, frame, hash
    ensures interim[..] == MhBlocks(old(interim[..]), data[..MH_BLOCK * numBlocks])
    ensures StateOf(hash) == Fold(m.step, MUR_BLOCK, old(StateOf(hash)), data[..MH_BLOCK * numBlocks])
  {
    BlockBase(data, interim, frame, numBlocks);
    Division.Quotient(MUR_BLOCK, 64 * numBlocks, 0);
    MurmurBlocks(data, numBlocks * MH_BLOCK / MUR_BLOCK, hash, m);
  }

  class StitchedCtx {
    var digest: Digest
    var totalLength: nat
    const partial: array<byte>
    const interim: array<bv32>
    const frame: array<bv32>
    const hash: array<bv64>

    ghost const seed: bv64
    ghost const second: Second
    /** The bytes of all updates, and the part of them that is in both digests. */
    ghost var msg: seq<byte>
    ghost var done: seq<byte>

    /** _mh_sha1_murmur3_x64_128_init */
    constructor (murmurSeed: bv64)
      ensures Valid() && msg == [] && seed == murmurSeed && second == MURMUR()
      ensures fresh(partial) && fresh(interim) && fresh(frame) && fresh(hash)
    {
      digest := [];
      totalLength := 0;
      partial := new byte[2 * MH_BLOCK];
      interim := new bv32[80];
      frame := new bv32[256];
      hash := new bv64[2](_ => murmurSeed);
      seed := murmurSeed;
      second := MURMUR();
      msg, done := [], [];
      new;
      Stream.StartDigests(interim);
      assert partial[..0] == [];
    }

    ghost predicate Shaped() {
      && partial.Length == 2 * MH_BLOCK && interim.Length == 80 && frame.Length == 256 && interim != frame
      && hash.Length == 2
    }

    /** The segment digests cover the bytes of covered, a whole number of blocks. */
    ghost predicate ShaCovers(covered: seq<byte>)
      reads interim
    {
      Shaped() && |covered| % MH_BLOCK == 0 && interim[..] == MhBlocks(Stream.InitialDigests(), covered)
    }

    ghost predicate Covers(covered: seq<byte>)
      reads interim, hash
    {
      ShaCovers(covered) && StateOf(hash) == Absorbed(second, seed, covered)
    }

    /** What the mh_sha1 side needs: murmur3 may be finished already. */
    ghost predicate Streaming()
      reads this, partial, interim
    {
      && ShaCovers(done)
      && totalLength == |msg| % TWO64
      && msg == done + partial[..|msg| % MH_BLOCK]
    }

    ghost predicate Valid()
      reads this, partial, interim, hash
    {
      Streaming() && Covers(done) && IsMurmur(second)
    }

    /** Whole blocks of input go into both digests. */
    method HashBlocks(data: seq<byte>, numBlocks: nat, ghost covered: seq<byte>)
      requires Covers(covered) && IsMurmur(second) && |data| >= MH_BLOCK * numBlocks
      modifies interim, frame, hash
      ensures Covers(covered + data[..MH_BLOCK * numBlocks])
    {
      BlockBoth(data, interim, frame, hash, numBlocks, second);
      MoreBlocks(Stream.InitialDigests(), |covered| / MH_BLOCK, covered, data[..MH_BLOCK * numBlocks]);
      AbsorbedMore(second, seed, |covered| / MH_BLOCK, covered, data[..MH_BLOCK * numBlocks]);
    }

    /** The whole blocks of the input; the rest is left. */
    method RunWhole(input: seq<byte>, ghost before: seq<byte>) returns (rest: seq<byte>, ghost covered: seq<byte>)
      requires Covers(before) && IsMurmur(second)
      modifies interim, frame, hash
      ensures Covers(covered) && |rest| < MH_BLOCK && before + input == covered + rest
    {
      covered, rest := before, input;
      var numBlocks := |input| / MH_BLOCK;
      if numBlocks > 0 {
        HashBlocks(input, numBlocks, before);
        covered, rest := before + input[..MH_BLOCK * numBlocks], input[MH_BLOCK * numBlocks..];
        assert input == input[..MH_BLOCK * numBlocks] + rest;
      }
    }

    /** At least one block can be filled. */
    method UpdateBlocks(data: seq<byte>, partialLen: nat, ghost kept: seq<byte>)
      returns (ghost covered: seq<byte>, ghost rest: seq<byte>)
      requires Covers(done) && IsMurmur(second)
      requires partialLen < MH_BLOCK <= partialLen + |data| && kept == partial[..partialLen]
      modifies partial, interim, frame, hash
      ensures Covers(covered) && |rest| < MH_BLOCK
      ensures done + (kept + data) == covered + rest && partial[..|rest|] == rest
    {
      var input := data;
      covered := done;
      if partialLen != 0 {
        var fill := MH_BLOCK - partialLen;
        Stream.CopyIn(partial, partialLen, input[..fill]);
        assert partial[..MH_BLOCK][..MH_BLOCK * 1] == kept + input[..fill];
        HashBlocks(partial[..MH_BLOCK], 1, covered);
        covered := covered + (kept + input[..fill]);
        input := input[fill..];
        Stream.Clear(partial, 0);
        assert done + (kept + data) == covered + input;
      }
      input, covered := RunWhole(input, covered);
      if |input| != 0 {
        Stream.CopyIn(partial, 0, input);
      }
      rest := input;
    }

    /** _mh_sha1_murmur3_x64_128_update_base */
    method Update(data: seq<byte>)
      requires Valid() && |data| < TWO32
      modifies this`totalLength, this`msg, this`done, partial, interim, frame, hash
      ensures Valid() && msg == old(msg) + data
    {
      if |data| == 0 {
        assert msg + data == msg;
        return;
      }
      Stream.WholeBlocks(|msg|);
      var partialLen := totalLength % MH_BLOCK;
      ghost var kept := partial[..partialLen];
      CountBytes(|msg|, |data|);
      Regroup(done, kept, data, []);
      totalLength := (totalLength + |data|) % TWO64;
      msg := msg + data;
      ghost var rest;
      if |data| < MH_BLOCK - partialLen {
        Stream.CopyIn(partial, partialLen, data);
        rest := kept + data;
      } else {
        done, rest := UpdateBlocks(data, partialLen, kept);
      }
      Stream.RestLength(msg, done, rest);
    }

    /** murmur3 over the buffered bytes: whole murmur blocks, then the murmur tail. */
    method FinishMurmur(partialLen: nat)
      requires Valid() && partialLen == |msg| % MH_BLOCK
      modifies hash
      ensures StateOf(hash) == Whole(second, seed, msg)
    {
      var numBlocks := partialLen / MUR_BLOCK;
      var at := partialLen - partialLen % MUR_BLOCK;
      ghost var blocks, tail := partial[..at], partial[at..partialLen];
      assert partial[..partialLen] == blocks + tail;
      WholeFrom(second, seed, |done| / MH_BLOCK, done, numBlocks, blocks, tail);
      MurmurBlocks(partial[..], numBlocks, hash, second);
      assert partial[..][..MUR_BLOCK * numBlocks] == blocks;
      TailLength(|msg|);
      Stream.LowWord(|msg|);
      MurmurTail(partial[at..partialLen], totalLength % TWO32, hash, second, |msg|);
    }

    /** The mh_sha1 tail, which pads in the buffer. */
    method FinishSha()
      requires Streaming()
      modifies this`digest, partial, interim, frame
      ensures digest == Stream.StreamDigest(msg)
    {
      Stream.LengthsAgree(|msg|);
      var rest, padding := partial[..|msg| % MH_BLOCK], Stream.StreamPadding(msg);
      Stream.SplitTail(Stream.InitialDigests(), |done| / MH_BLOCK, done, rest, padding);
      digest := Stream.Tail(partial, totalLength % TWO32, interim, frame, false);
    }

    /** _mh_sha1_murmur3_x64_128_finalize_base: murmur3 first, because the mh_sha1 tail overwrites the buffer. */
    method Finalize() returns (sha: Digest, murmur: State)
      requires Valid()
      modifies this`digest, partial, interim, frame, hash
      ensures sha == digest == Stream.StreamDigest(msg)
      ensures murmur == StateOf(hash) == Whole(second, seed, msg)
    {
      Stream.WholeBlocks(|msg|);
      FinishMurmur(totalLength % MH_BLOCK);
      FinishSha();
      sha, murmur := digest, StateOf(hash);
    }
  }

  method FeedAll(ctx: StitchedCtx, pieces: seq<seq<byte>>)
    requires ctx.Valid() && ctx.msg == [] && forall i :: 0 <= i < |pieces| ==> |pieces[i]| < TWO32
    modifies ctx`totalLength, ctx`msg, ctx`done, ctx.partial, ctx.interim, ctx.frame, ctx.hash
    ensures ctx.Valid() && ctx.msg == Flatten(pieces)
  {
    for i := 0 to |pieces|
      invariant ctx.Valid() && ctx.msg == Flatten(pieces[..i])
    {
      ctx.Update(pieces[i]);
      FlattenAppend(pieces[..i], pieces[i]);
      assert pieces[..i] + [pieces[i]] == pieces[..i + 1];
    }
    assert pieces[..|pieces|] == pieces;
  }

  /** However a message is cut into updates, the result is the mh_sha1 and the murmur3 of that message. */
  method HashPieces(pieces: seq<seq<byte>>, seed: bv64) returns (sha: Digest, murmur: State)
    requires forall i :: 0 <= i < |pieces| ==> |pieces[i]| < TWO32
    ensures sha == Stream.StreamDigest(Flatten(pieces))
    ensures murmur == Murmur3.Murmur(Flatten(pieces), seed)
  {
    var ctx := new StitchedCtx(seed);
    FeedAll(ctx, pieces);
    sha, murmur := ctx.Finalize();
    WholeMurmur(seed, Flatten(pieces));
  }
}
