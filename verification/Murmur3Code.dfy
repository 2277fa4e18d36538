/** The loops of murmur3_x64_128_internal.c on the digest words in place, and the single call of murmur3_x64_128.c. */
module Murmur3Code {
  import opened Bytes
  import opened TailHash
  import opened Word64
  import opened Murmur3

  /** The digest as the two 64-bit words the code views it as. */
  function StateOf(hash: array<bv64>): State
    requires hash.Length == 2
    reads hash
  {
    State(hash[0], hash[1])
  }

  /** blockmix64 */
  method BlockMix64(data: bv64, conA: Factor, conB: Factor, shift: Shift) returns (mixed: bv64)
    ensures mixed == BlockMix(data, conA, conB, shift)
  {
    mixed := Times(data, conA);
    mixed := Rotl(mixed, shift);
    mixed := Times(mixed, conB);
  }

  /** hashmix64 */
  method HashMix64(hashA: bv64, hashB: bv64, data: bv64, add: bv64, shift: Shift) returns (mixed: bv64)
    ensures mixed == HashMix(hashA, hashB, data, add, shift)
  {
    mixed := Xor(hashA, data);
    mixed := Rotl(mixed, shift);
    mixed := Plus(mixed, hashB);
    mixed := Plus(Times(mixed, Five), add);
  }

  method OneBlock(word1: bv64, word2: bv64, hash: array<bv64>)
    requires hash.Length == 2
    modifies hash
    ensures StateOf(hash) == BlockStep(old(StateOf(hash)), word1, word2)
  {
    var data1 := BlockMix64(word1, Con1, Con2, By31);
    var data2 := BlockMix64(word2, Con2, Con1, By33);
    hash[0] := HashMix64(hash[0], hash[1], data1, MUR_ADD1, By27);
    hash[1] := HashMix64(hash[1], hash[0], data2, MUR_ADD2, By31);
  }

  lemma SplitAtBlock(data: seq<byte>, i: nat)
    requires MUR_BLOCK * (i + 1) <= |data|
    ensures var block := data[MUR_BLOCK * i..MUR_BLOCK * (i + 1)];
            && data[..MUR_BLOCK * (i + 1)] == data[..MUR_BLOCK * i] + (block + [])
            && block[..8] == data[8 * (i * 2)..8 * (i * 2) + 8]
            && block[8..] == data[8 * (i * 2 + 1)..8 * (i * 2 + 1) + 8]
  {
  }

  lemma NextBlock(s: State, data: seq<byte>, i: nat)
    requires MUR_BLOCK * (i + 1) <= |data|
    ensures Blocks(s, data[..MUR_BLOCK * (i + 1)])
         == BlockStep(Blocks(s, data[..MUR_BLOCK * i]), QWord(data, i * 2), QWord(data, i * 2 + 1))
  {
    var x, block := data[..MUR_BLOCK * i], data[MUR_BLOCK * i..MUR_BLOCK * (i + 1)];
    SplitAtBlock(data, i);
    FoldConcat(StepBytes, MUR_BLOCK, i, s, x, block + []);
    FoldOne(StepBytes, MUR_BLOCK, Blocks(s, x), block, []);
  }

  /** The word input_qword[k] of a buffer. */
  function QWord(data: seq<byte>, k: nat): bv64
    requires 8 * k + 8 <= |data|
  {
    Load64(data[8 * k..8 * k + 8])
  }

  /** _murmur3_x64_128_block */
  method Block(input: seq<byte>, numBlocks: nat, hash: array<bv64>)
    requires hash.Length == 2 && MUR_BLOCK * numBlocks <= |input|
    modifies hash
    ensures StateOf(hash) == Blocks(old(StateOf(hash)), input[..MUR_BLOCK * numBlocks])
  {
    ghost var start := StateOf(hash);
    var i := 0;
    while i < numBlocks
      invariant i <= numBlocks
      invariant StateOf(hash) == Blocks(start, input[..MUR_BLOCK * i])
    {
      NextBlock(start, input, i);
      OneBlock(QWord(input, i * 2), QWord(input, i * 2 + 1), hash);
      i := i + 1;
    }
  }

  /** The tail bytes, copied last to first over sixteen zeros. */
  method CopyTail(tail: seq<byte>) returns (filled: seq<byte>)
    requires |tail| < MUR_BLOCK
    ensures filled == Filled(tail)
  {
    var bytes := new byte[MUR_BLOCK](_ => 0);
    var left := |tail|;
    while left > 0
      invariant 0 <= left <= |tail|
      invariant forall k :: left <= k < |tail| ==> bytes[k] == tail[k]
      invariant forall k :: |tail| <= k < MUR_BLOCK ==> bytes[k] == 0
    {
      left := left - 1;
      bytes[left] := tail[left];
    }
    filled := bytes[..];
  }

  lemma ZeroMixesNothing(h: bv64)
    ensures Xor(h, Data1(0)) == h && Xor(h, Data2(0)) == h
  {
    assert Data1(0) == 0 && Data2(0) == 0 && h ^ 0 == h;
  }

  /** The first word, mixed in only when n bytes reach into it or always: the same. */
  lemma MixesFirst(s: State, words: (bv64, bv64), n: nat, length: bv64)
    requires n == 0 ==> words.0 == 0
    ensures Xor(MixWords(s, words, n).h0, length) == Xor(s.h0, Xor(length, Data1(words.0)))
  {
    XorSwap(s.h0, length, Data1(words.0));
    if n == 0 {
      ZeroMixesNothing(s.h0);
    }
  }

  lemma MixesSecond(s: State, words: (bv64, bv64), n: nat, length: bv64)
    requires n <= 8 ==> words.1 == 0
    ensures Xor(MixWords(s, words, n).h1, length) == Xor(s.h1, Xor(length, Data2(words.1)))
  {
    XorSwap(s.h1, length, Data2(words.1));
    if n <= 8 {
      ZeroMixesNothing(s.h1);
    }
  }

  lemma UnreachedWords(tail: seq<byte>)
    requires |tail| < MUR_BLOCK
    ensures |tail| == 0 ==> TailWords(tail).0 == 0
    ensures |tail| <= 8 ==> TailWords(tail).1 == 0
  {
    if |tail| <= 8 {
      assert Filled(tail)[8..] == Zeros(8);
    }
    if |tail| == 0 {
      assert Filled(tail)[..8] == Zeros(8);
    }
  }

  /** hash[w] ^= total_len ^ data: both words of the tail are always mixed in. */
  lemma MixesTail(s: State, tail: seq<byte>, len: nat)
    requires |tail| < MUR_BLOCK
    ensures var words, t := TailWords(tail), MixLength(MixTail(s, tail), len);
            && t.h0 == Xor(s.h0, Xor(LengthWord(len), Data1(words.0)))
            && t.h1 == Xor(s.h1, Xor(LengthWord(len), Data2(words.1)))
  {
    UnreachedWords(tail);
    MixesFirst(s, TailWords(tail), |tail|, LengthWord(len));
    MixesSecond(s, TailWords(tail), |tail|, LengthWord(len));
  }

  /** hash[i] ^= hash[i] >> 33 around the two multiplications. */
  method Final(x: bv64) returns (mixed: bv64)
    ensures mixed == FinalMix(x)
  {
    mixed := XorShift(x);
    mixed := Times(mixed, Fmul1);
    mixed := XorShift(mixed);
    mixed := Times(mixed, Fmul2);
    mixed := XorShift(mixed);
  }

  method FinalSteps(hash: array<bv64>)
    requires hash.Length == 2
    modifies hash
    ensures StateOf(hash) == Scramble(old(StateOf(hash)))
  {
    hash[0] := Plus(hash[0], hash[1]);
    hash[1] := Plus(hash[1], hash[0]);
    hash[0] := Final(hash[0]);
    hash[1] := Final(hash[1]);
    hash[0] := Plus(hash[0], hash[1]);
    hash[1] := Plus(hash[1], hash[0]);
  }

  /** _murmur3_x64_128_tail */
  method Tail(buffer: seq<byte>, totalLen: nat, hash: array<bv64>)
    requires hash.Length == 2 && totalLen < TWO32 && totalLen % MUR_BLOCK <= |buffer|
    modifies hash
    ensures StateOf(hash) == Finish(old(StateOf(hash)), buffer[..totalLen % MUR_BLOCK], totalLen)
  {
    var tail := buffer[..totalLen % MUR_BLOCK];
    MixesTail(StateOf(hash), tail, totalLen);
    var filled := CopyTail(tail);
    var data1 := BlockMix64(Load64(filled[..8]), Con1, Con2, By31);
    var data2 := BlockMix64(Load64(filled[8..]), Con2, Con1, By33);
    hash[0] := Xor(hash[0], Xor(LengthWord(totalLen), data1));
    hash[1] := Xor(hash[1], Xor(LengthWord(totalLen), data2));
    FinalSteps(hash);
  }

  /** murmur3_x64_128 */
  method Single(buffer: seq<byte>, seed: bv64) returns (digest: State)
    requires |buffer| < TWO32
    ensures digest == Murmur(buffer, seed)
  {
    var hash := new bv64[2](_ => seed);
    var numBlocks := |buffer| / MUR_BLOCK;
    Block(buffer, numBlocks, hash);
    var tail := buffer[|buffer| - |buffer| % MUR_BLOCK..];
    Tail(tail, |buffer|, hash);
    WholeBlocksOnly(State(seed, seed), numBlocks, buffer);
    assert tail[..|buffer| % MUR_BLOCK] == tail == TailOf(MUR_BLOCK, buffer);
    digest := StateOf(hash);
  }

  lemma WholeBlocksOnly(s: State, n: nat, data: seq<byte>)
    requires MUR_BLOCK * n <= |data| < MUR_BLOCK * (n + 1)
    ensures Blocks(s, data) == Blocks(s, data[..MUR_BLOCK * n])
  {
    var x, y := data[..MUR_BLOCK * n], data[MUR_BLOCK * n..];
    assert data == x + y;
    FoldConcat(StepBytes, MUR_BLOCK, n, s, x, y);
  }
}
