/**
 murmur3_x64_128 (murmur3_x64_128_internal.c and murmur3_x64_128.c): every step of it can be undone, so for
 a fixed message the running state and the digest determine each other.
 */
module Murmur3 {
  import opened ByteDigits
  import opened Bytes
  import opened TailHash
  import opened Word64

  const MUR_BLOCK: nat := 16
  const TWO32: nat := 0x1_0000_0000

  const MUR_ADD1: bv64 := 0x52dce729
  const MUR_ADD2: bv64 := 0x38495ab5

  /** The 128-bit running state, which is also the digest. */
  datatype State = State(h0: bv64, h1: bv64)

  // ----- one block -----

  function BlockMix(data: bv64, conA: Factor, conB: Factor, shift: Shift): bv64 {
    Times(Rotl(Times(data, conA), shift), conB)
  }

  function BlockUnmix(data: bv64, conA: Factor, conB: Factor, shift: Shift): bv64 {
    Over(Rotr(Over(data, conB), shift), conA)
  }

  lemma BlockMixBack(data: bv64, conA: Factor, conB: Factor, shift: Shift)
    ensures BlockUnmix(BlockMix(data, conA, conB, shift), conA, conB, shift) == data
  {
    TimesBack(data, conA);
    RotlBack(Times(data, conA), shift);
    TimesBack(Rotl(Times(data, conA), shift), conB);
  }

  function HashMix(hashA: bv64, hashB: bv64, data: bv64, add: bv64, shift: Shift): bv64 {
    Plus(Times(Plus(Rotl(Xor(hashA, data), shift), hashB), Five), add)
  }

  /** The xor of the word and the data that hashmix64 made mixed from. */
  function HashUnmix(mixed: bv64, hashB: bv64, add: bv64, shift: Shift): bv64 {
    Rotr(Minus(Over(Minus(mixed, add), Five), hashB), shift)
  }

  lemma HashMixBack(hashA: bv64, hashB: bv64, data: bv64, add: bv64, shift: Shift)
    ensures HashUnmix(HashMix(hashA, hashB, data, add, shift), hashB, add, shift) == Xor(hashA, data)
  {
    var x := Xor(hashA, data);
    RotlBack(x, shift);
    PlusBack(Rotl(x, shift), hashB);
    TimesBack(Plus(Rotl(x, shift), hashB), Five);
    PlusBack(Times(Plus(Rotl(x, shift), hashB), Five), add);
  }

  lemma HashMixOf(mixed: bv64, hashB: bv64, data: bv64, add: bv64, shift: Shift)
    ensures HashMix(Xor(HashUnmix(mixed, hashB, add, shift), data), hashB, data, add, shift) == mixed
  {
    var a := Minus(mixed, add);
    var b := Minus(Over(a, Five), hashB);
    XorBack(Rotr(b, shift), data);
    RotlBack(b, shift);
    PlusBack(Over(a, Five), hashB);
    TimesBack(a, Five);
    PlusBack(mixed, add);
  }

  function Data1(word: bv64): bv64 {
    BlockMix(word, Con1, Con2, By31)
  }

  function Data2(word: bv64): bv64 {
    BlockMix(word, Con2, Con1, By33)
  }

  function BlockStep(s: State, word1: bv64, word2: bv64): State {
    var h0 := HashMix(s.h0, s.h1, Data1(word1), MUR_ADD1, By27);
    State(h0, HashMix(s.h1, h0, Data2(word2), MUR_ADD2, By31))
  }

  function BlockUnstep(s: State, word1: bv64, word2: bv64): State {
    var h1 := Xor(HashUnmix(s.h1, s.h0, MUR_ADD2, By31), Data2(word2));
    State(Xor(HashUnmix(s.h0, h1, MUR_ADD1, By27), Data1(word1)), h1)
  }

  lemma BlockStepBack(s: State, word1: bv64, word2: bv64)
    ensures BlockUnstep(BlockStep(s, word1, word2), word1, word2) == s
    ensures BlockStep(BlockUnstep(s, word1, word2), word1, word2) == s
  {
    var t := BlockStep(s, word1, word2);
    HashMixBack(s.h0, s.h1, Data1(word1), MUR_ADD1, By27);
    HashMixBack(s.h1, t.h0, Data2(word2), MUR_ADD2, By31);
    XorBack(s.h0, Data1(word1));
    XorBack(s.h1, Data2(word2));
    var u := BlockUnstep(s, word1, word2);
    HashMixOf(s.h1, s.h0, Data2(word2), MUR_ADD2, By31);
    HashMixOf(s.h0, u.h1, Data1(word1), MUR_ADD1, By27);
  }

  // ----- all whole blocks -----

  /** A little-endian word loaded from memory. */
  function Load64(b: seq<byte>): bv64
    requires |b| == 8
  {
    Join(b[0], b[1], b[2], b[3], b[4], b[5], b[6], b[7])
  }

  function Join(b0: byte, b1: byte, b2: byte, b3: byte, b4: byte, b5: byte, b6: byte, b7: byte): bv64 {
    (b0 as bv64) | ((b1 as bv64) << 8) | ((b2 as bv64) << 16) | ((b3 as bv64) << 24)
    | ((b4 as bv64) << 32) | ((b5 as bv64) << 40) | ((b6 as bv64) << 48) | ((b7 as bv64) << 56)
  }

  function StepBytes(s: State, block: seq<byte>): State {
    if |block| == MUR_BLOCK then BlockStep(s, Load64(block[..8]), Load64(block[8..])) else s
  }

  function UnstepBytes(s: State, block: seq<byte>): State {
    if |block| == MUR_BLOCK then BlockUnstep(s, Load64(block[..8]), Load64(block[8..])) else s
  }

  lemma StepBytesBack(s: State, block: seq<byte>)
    ensures UnstepBytes(StepBytes(s, block), block) == s && StepBytes(UnstepBytes(s, block), block) == s
  {
    if |block| == MUR_BLOCK {
      BlockStepBack(s, Load64(block[..8]), Load64(block[8..]));
    }
  }

  /** The state after the whole blocks of data. */
  function Blocks(s: State, data: seq<byte>): State {
    Fold(StepBytes, MUR_BLOCK, s, data)
  }

  // ----- the tail and the final mix -----

  function FinalMix(x: bv64): bv64 {
    XorShift(Times(XorShift(Times(XorShift(x), Fmul1)), Fmul2))
  }

  function FinalUnmix(x: bv64): bv64 {
    XorShift(Over(XorShift(Over(XorShift(x), Fmul2)), Fmul1))
  }

  lemma FinalMixBack(x: bv64)
    ensures FinalUnmix(FinalMix(x)) == x && FinalMix(FinalUnmix(x)) == x
  {
    var a := Times(XorShift(x), Fmul1);
    var b := Times(XorShift(a), Fmul2);
    XorShiftBack(x);
    TimesBack(XorShift(x), Fmul1);
    XorShiftBack(a);
    TimesBack(XorShift(a), Fmul2);
    XorShiftBack(b);
    var c := Over(XorShift(x), Fmul2);
    var d := Over(XorShift(c), Fmul1);
    TimesBack(XorShift(x), Fmul2);
    XorShiftBack(c);
    TimesBack(XorShift(c), Fmul1);
    XorShiftBack(d);
  }

  /** h0 += h1, then h1 += h0. */
  function CrossAdd(s: State): State {
    var h0 := Plus(s.h0, s.h1);
    State(h0, Plus(s.h1, h0))
  }

  function CrossSubtract(s: State): State {
    var h1 := Minus(s.h1, s.h0);
    State(Minus(s.h0, h1), h1)
  }

  lemma CrossAddBack(s: State)
    ensures CrossSubtract(CrossAdd(s)) == s && CrossAdd(CrossSubtract(s)) == s
  {
    var t, u := CrossAdd(s), CrossSubtract(s);
    PlusBack(s.h1, t.h0);
    PlusBack(s.h0, s.h1);
    PlusBack(s.h0, u.h1);
    PlusBack(s.h1, s.h0);
  }

  /** The words of a tail of up to fifteen bytes, filled up with zeros. */
  function TailWords(tail: seq<byte>): (bv64, bv64)
    requires |tail| < MUR_BLOCK
  {
    var filled := Filled(tail);
    (Load64(filled[..8]), Load64(filled[8..]))
  }

  /** A word of the tail is mixed in only when the n bytes of the tail reach into it. */
  function MixWords(s: State, words: (bv64, bv64), n: nat): State {
    State(if n > 0 then Xor(s.h0, Data1(words.0)) else s.h0,
          if n > 8 then Xor(s.h1, Data2(words.1)) else s.h1)
  }

  function MixTail(s: State, tail: seq<byte>): State
    requires |tail| < MUR_BLOCK
  {
    MixWords(s, TailWords(tail), |tail|)
  }

  function MixLength(s: State, len: nat): State {
    State(Xor(s.h0, LengthWord(len)), Xor(s.h1, LengthWord(len)))
  }

  /** The total length as a uint32_t, widened: its four bytes and four zero bytes. */
  function LengthWord(len: nat): bv64 {
    var n := len % TWO32;
    Join(ByteAt(n, 1), ByteAt(n, 0x100), ByteAt(n, 0x1_0000), ByteAt(n, 0x100_0000), 0, 0, 0, 0)
  }

  function Scramble(s: State): State {
    var t := CrossAdd(s);
    CrossAdd(State(FinalMix(t.h0), FinalMix(t.h1)))
  }

  function Unscramble(s: State): State {
    var t := CrossSubtract(s);
    CrossSubtract(State(FinalUnmix(t.h0), FinalUnmix(t.h1)))
  }

  lemma ScrambleBack(s: State)
    ensures Unscramble(Scramble(s)) == s && Scramble(Unscramble(s)) == s
  {
    var t, u := CrossAdd(s), CrossSubtract(s);
    CrossAddBack(s);
    FinalMixBack(t.h0);
    FinalMixBack(t.h1);
    CrossAddBack(State(FinalMix(t.h0), FinalMix(t.h1)));
    FinalMixBack(u.h0);
    FinalMixBack(u.h1);
    CrossAddBack(State(FinalUnmix(u.h0), FinalUnmix(u.h1)));
  }

  function Finish(s: State, tail: seq<byte>, len: nat): State
    requires |tail| < MUR_BLOCK
  {
    Scramble(MixLength(MixTail(s, tail), len))
  }

  /** Mixing in a tail and a length is an xor with fixed words: it undoes itself. */
  function Unfinish(s: State, tail: seq<byte>, len: nat): State
    requires |tail| < MUR_BLOCK
  {
    MixTail(MixLength(Unscramble(s), len), tail)
  }

  lemma MixWordsBack(s: State, words: (bv64, bv64), n: nat)
    ensures MixWords(MixWords(s, words, n), words, n) == s
  {
    XorBack(s.h0, Data1(words.0));
    XorBack(s.h1, Data2(words.1));
  }

  lemma MixTailBack(s: State, tail: seq<byte>)
    requires |tail| < MUR_BLOCK
    ensures MixTail(MixTail(s, tail), tail) == s
  {
    MixWordsBack(s, TailWords(tail), |tail|);
  }

  lemma MixLengthBack(s: State, len: nat)
    ensures MixLength(MixLength(s, len), len) == s
  {
    XorBack(s.h0, LengthWord(len));
    XorBack(s.h1, LengthWord(len));
  }

  lemma FinishBack(s: State, tail: seq<byte>, len: nat)
    requires |tail| < MUR_BLOCK
    ensures Unfinish(Finish(s, tail, len), tail, len) == s && Finish(Unfinish(s, tail, len), tail, len) == s
  {
    ScrambleBack(MixLength(MixTail(s, tail), len));
    MixLengthBack(MixTail(s, tail), len);
    MixTailBack(s, tail);
    ScrambleBack(s);
    MixLengthBack(Unscramble(s), len);
    MixTailBack(MixLength(Unscramble(s), len), tail);
  }

  function FinishBytes(s: State, tail: seq<byte>, len: nat): State {
    if |tail| < MUR_BLOCK then Finish(s, tail, len) else s
  }

  function UnfinishBytes(s: State, tail: seq<byte>, len: nat): State {
    if |tail| < MUR_BLOCK then Unfinish(s, tail, len) else s
  }

  lemma StepsUndone()
    ensures Undoes(UnstepBytes, StepBytes) && Undoes(StepBytes, UnstepBytes)
  {
    forall s, b
      ensures UnstepBytes(StepBytes(s, b), b) == s && StepBytes(UnstepBytes(s, b), b) == s
    {
      StepBytesBack(s, b);
    }
  }

  lemma FinishUndone()
    ensures UndoesLast(UnfinishBytes, FinishBytes) && UndoesLast(FinishBytes, UnfinishBytes)
  {
    forall s, b, n
      ensures UnfinishBytes(FinishBytes(s, b, n), b, n) == s && FinishBytes(UnfinishBytes(s, b, n), b, n) == s
    {
      if |b| < MUR_BLOCK {
        FinishBack(s, b, n);
      }
    }
  }

  // ----- the whole message -----

  function From(s: State, msg: seq<byte>): State {
    End(StepBytes, FinishBytes, MUR_BLOCK, s, msg, |msg|)
  }

  function Back(digest: State, msg: seq<byte>): State {
    Unend(UnstepBytes, UnfinishBytes, MUR_BLOCK, digest, msg, |msg|)
  }

  function Murmur(msg: seq<byte>, seed: bv64): State {
    End(StepBytes, FinishBytes, MUR_BLOCK, State(seed, seed), msg, |msg|)
  }

  /** For a fixed message, running state and digest determine each other. */
  lemma Bijection(s: State, msg: seq<byte>)
    ensures Back(From(s, msg), msg) == s && From(Back(s, msg), msg) == s
  {
    StepsUndone();
    FinishUndone();
    EndBack(StepBytes, UnstepBytes, FinishBytes, UnfinishBytes, MUR_BLOCK, s, msg, |msg|);
    EndForth(StepBytes, UnstepBytes, FinishBytes, UnfinishBytes, MUR_BLOCK, s, msg, |msg|);
  }

  lemma SeedMatters(msg: seq<byte>, seed: bv64, other: bv64)
    ensures Murmur(msg, seed) == Murmur(msg, other) <==> seed == other
  {
    Bijection(State(seed, seed), msg);
    Bijection(State(other, other), msg);
  }

  // ----- a change inside one block -----

  lemma JoinInjective(b: seq<byte>, c: seq<byte>)
    requires |b| == |c| == 8 && Load64(b) == Load64(c)
    ensures b == c
  {
  }

  lemma LoadsInjective(a: seq<byte>, b: seq<byte>)
    requires |a| == |b| == MUR_BLOCK && Load64(a[..8]) == Load64(b[..8]) && Load64(a[8..]) == Load64(b[8..])
    ensures a == b
  {
    JoinInjective(a[..8], b[..8]);
    JoinInjective(a[8..], b[8..]);
    assert a == a[..8] + a[8..] && b == b[..8] + b[8..];
  }

  lemma StepBytesInjective(s: State, a: seq<byte>, b: seq<byte>)
    requires |a| == |b| == MUR_BLOCK && StepBytes(s, a) == StepBytes(s, b)
    ensures a == b
  {
    BlockStepInjective(s, Load64(a[..8]), Load64(a[8..]), Load64(b[..8]), Load64(b[8..]));
    LoadsInjective(a, b);
  }

  function Filled(tail: seq<byte>): (f: seq<byte>)
    requires |tail| < MUR_BLOCK
    ensures |f| == MUR_BLOCK && f[..|tail|] == tail
  {
    tail + Zeros(MUR_BLOCK - |tail|)
  }

  /** The word a short tail does not reach is zero, so both words are fixed by what is mixed in. */
  lemma UnusedWords(a: seq<byte>, b: seq<byte>)
    requires |a| == |b| < MUR_BLOCK
    ensures |a| <= 8 ==> Filled(a)[8..] == Filled(b)[8..]
    ensures |a| == 0 ==> Filled(a) == Filled(b)
  {
  }

  lemma MixedWord(h: bv64, v: bv64, w: bv64)
    requires Xor(h, v) == Xor(h, w)
    ensures v == w
  {
    XorBack(h, v);
    XorBack(h, w);
  }

  lemma Data1Injective(v: bv64, w: bv64)
    requires Data1(v) == Data1(w)
    ensures v == w
  {
    BlockMixBack(v, Con1, Con2, By31);
    BlockMixBack(w, Con1, Con2, By31);
  }

  lemma Data2Injective(v: bv64, w: bv64)
    requires Data2(v) == Data2(w)
    ensures v == w
  {
    BlockMixBack(v, Con2, Con1, By33);
    BlockMixBack(w, Con2, Con1, By33);
  }

  /** From the same state, different words lead to different states. */
  lemma BlockStepInjective(s: State, v1: bv64, v2: bv64, w1: bv64, w2: bv64)
    requires BlockStep(s, v1, v2) == BlockStep(s, w1, w2)
    ensures v1 == w1 && v2 == w2
  {
    var t := BlockStep(s, v1, v2);
    MixedDataInjective(s.h0, s.h1, Data1(v1), Data1(w1), MUR_ADD1, By27);
    MixedDataInjective(s.h1, t.h0, Data2(v2), Data2(w2), MUR_ADD2, By31);
    Data1Injective(v1, w1);
    Data2Injective(v2, w2);
  }

  lemma MixedDataInjective(hashA: bv64, hashB: bv64, v: bv64, w: bv64, add: bv64, shift: Shift)
    requires HashMix(hashA, hashB, v, add, shift) == HashMix(hashA, hashB, w, add, shift)
    ensures v == w
  {
    HashMixBack(hashA, hashB, v, add, shift);
    HashMixBack(hashA, hashB, w, add, shift);
    MixedWord(hashA, v, w);
  }

  lemma MixWordsInjective(s: State, v: (bv64, bv64), w: (bv64, bv64), n: nat)
    requires MixWords(s, v, n) == MixWords(s, w, n)
    requires (n <= 8 ==> v.1 == w.1) && (n == 0 ==> v.0 == w.0)
    ensures v == w
  {
    if n > 0 {
      MixedWord(s.h0, Data1(v.0), Data1(w.0));
      Data1Injective(v.0, w.0);
    }
    if n > 8 {
      MixedWord(s.h1, Data2(v.1), Data2(w.1));
      Data2Injective(v.1, w.1);
    }
  }

  lemma MixTailInjective(s: State, a: seq<byte>, b: seq<byte>)
    requires |a| == |b| < MUR_BLOCK && MixTail(s, a) == MixTail(s, b)
    ensures a == b
  {
    UnusedWords(a, b);
    MixWordsInjective(s, TailWords(a), TailWords(b), |a|);
    LoadsInjective(Filled(a), Filled(b));
  }

  lemma FinishInjective(s: State, a: seq<byte>, b: seq<byte>, len: nat)
    requires |a| == |b| < MUR_BLOCK && Finish(s, a, len) == Finish(s, b, len)
    ensures a == b
  {
    ScrambleBack(MixLength(MixTail(s, a), len));
    ScrambleBack(MixLength(MixTail(s, b), len));
    MixLengthBack(MixTail(s, a), len);
    MixLengthBack(MixTail(s, b), len);
    MixTailInjective(s, a, b);
  }

  lemma StepsSeparate()
    ensures Separates(StepBytes, MUR_BLOCK)
  {
    forall s, a, b | |a| == |b| == MUR_BLOCK && a != b
      ensures StepBytes(s, a) != StepBytes(s, b)
    {
      if StepBytes(s, a) == StepBytes(s, b) {
        StepBytesInjective(s, a, b);
      }
    }
  }

  lemma FinishSeparates()
    ensures SeparatesLast(FinishBytes, MUR_BLOCK)
  {
    forall s, a, b, n | |a| == |b| < MUR_BLOCK && a != b
      ensures FinishBytes(s, a, n) != FinishBytes(s, b, n)
    {
      if Finish(s, a, n) == Finish(s, b, n) {
        FinishInjective(s, a, b, n);
      }
    }
  }

  /** Two messages that differ in one whole block only never share a digest. */
  lemma DigestsApart(seed: bv64, n: nat, x: seq<byte>, a: seq<byte>, b: seq<byte>, y: seq<byte>)
    requires |x| == MUR_BLOCK * n && |a| == |b| == MUR_BLOCK && a != b
    ensures Murmur(x + (a + y), seed) != Murmur(x + (b + y), seed)
  {
    assert |x + (a + y)| == |x + (b + y)|;
    StepsUndone();
    FinishUndone();
    StepsSeparate();
    BlockMatters(StepBytes, UnstepBytes, FinishBytes, UnfinishBytes, MUR_BLOCK, State(seed, seed), n, x, a, b, y,
                 |x + (a + y)|);
  }

  /** Nor do two messages of the same length that differ in their last, partial block only. */
  lemma TailDigestsApart(seed: bv64, n: nat, x: seq<byte>, a: seq<byte>, b: seq<byte>)
    requires |x| == MUR_BLOCK * n && |a| == |b| < MUR_BLOCK && a != b
    ensures Murmur(x + a, seed) != Murmur(x + b, seed)
  {
    assert |x + a| == |x + b|;
    FinishSeparates();
    TailMatters(StepBytes, FinishBytes, MUR_BLOCK, State(seed, seed), n, x, a, b, |x + a|);
  }

  // ----- the length -----

  lemma LoadBytes(b0: byte, b1: byte, b2: byte, b3: byte)
    ensures Load64([b0, b1, b2, b3, 0, 0, 0, 0]) == Join(b0, b1, b2, b3, 0, 0, 0, 0)
  {
  }

  /** The length goes in as it is, cut to 32 bits: the bytes of the word hold it. */
  lemma LengthWordHolds(len: nat) returns (b0: byte, b1: byte, b2: byte, b3: byte)
    ensures LengthWord(len) == Load64([b0, b1, b2, b3, 0, 0, 0, 0])
    ensures Value(b0) + 0x100 * Value(b1) + 0x1_0000 * Value(b2) + 0x100_0000 * Value(b3) == len % 0x1_0000_0000
  {
    var n := len % 0x1_0000_0000;
    b0, b1, b2, b3 := ByteAt(n, 1), ByteAt(n, 0x100), ByteAt(n, 0x1_0000), ByteAt(n, 0x100_0000);
    LoadBytes(b0, b1, b2, b3);
    FourBytes(n, b0, b1, b2, b3);
  }

  lemma LengthWordDecides(m: nat, n: nat)
    ensures LengthWord(m) == LengthWord(n) <==> m % 0x1_0000_0000 == n % 0x1_0000_0000
  {
    if LengthWord(m) == LengthWord(n) {
      var b0, b1, b2, b3 := LengthWordHolds(m);
      var c0, c1, c2, c3 := LengthWordHolds(n);
      var b, c := [b0, b1, b2, b3, 0, 0, 0, 0], [c0, c1, c2, c3, 0, 0, 0, 0];
      JoinInjective(b, c);
      assert b[0] == c[0] && b[1] == c[1] && b[2] == c[2] && b[3] == c[3];
    }
  }

  /** The same state and tail finish alike exactly for lengths that agree modulo 2^32. */
  lemma LengthMatters(s: State, tail: seq<byte>, m: nat, n: nat)
    requires |tail| < MUR_BLOCK
    ensures Finish(s, tail, m) == Finish(s, tail, n) <==> m % 0x1_0000_0000 == n % 0x1_0000_0000
  {
    var t := MixTail(s, tail);
    LengthWordDecides(m, n);
    if Finish(s, tail, m) == Finish(s, tail, n) {
      ScrambleBack(MixLength(t, m));
      ScrambleBack(MixLength(t, n));
      MixedWord(t.h0, LengthWord(m), LengthWord(n));
    }
  }

  lemma FilledDecides(a: seq<byte>, b: seq<byte>)
    requires |a| == |b| < MUR_BLOCK && Filled(a) == Filled(b)
    ensures a == b
  {
    assert a == Filled(a)[..|a|] && b == Filled(b)[..|b|];
  }

  lemma ShortLengths(n: nat, i: nat, j: nat)
    requires i < MUR_BLOCK && j < MUR_BLOCK
    ensures (MUR_BLOCK * n + i) % 0x1_0000_0000 == (MUR_BLOCK * n + j) % 0x1_0000_0000 <==> i == j
  {
  }

  /**
   Zeros that fill up a tail are told from zeros of the message by the length alone: tails that
   reach into the same words and fill up to the same bytes lead to the same digest only when they
   are the same.
   */
  lemma FilledTailsApart(seed: bv64, n: nat, x: seq<byte>, a: seq<byte>, b: seq<byte>)
    requires |x| == MUR_BLOCK * n && 0 < |a| < MUR_BLOCK && 0 < |b| < MUR_BLOCK && (|a| <= 8 <==> |b| <= 8)
    requires Filled(a) == Filled(b)
    ensures Murmur(x + a, seed) == Murmur(x + b, seed) <==> a == b
  {
    ShortLengths(n, |a|, |b|);
    forall s
      ensures FinishBytes(s, a, |x + a|) == FinishBytes(s, b, |x + b|) <==> a == b
    {
      FilledFinish(s, a, b, |x + a|, |x + b|);
    }
    TailsDecide(StepBytes, FinishBytes, MUR_BLOCK, State(seed, seed), n, x, a, b, |x + a|, |x + b|);
  }

  lemma SameTail(s: State, a: seq<byte>, b: seq<byte>)
    requires 0 < |a| < MUR_BLOCK && 0 < |b| < MUR_BLOCK && (|a| <= 8 <==> |b| <= 8) && Filled(a) == Filled(b)
    ensures MixTail(s, a) == MixTail(s, b)
  {
  }

  lemma SameFinish(s: State, a: seq<byte>, b: seq<byte>, len: nat)
    requires |a| < MUR_BLOCK && |b| < MUR_BLOCK && MixTail(s, a) == MixTail(s, b)
    ensures Finish(s, a, len) == Finish(s, b, len)
  {
  }

  lemma FilledFinish(s: State, a: seq<byte>, b: seq<byte>, la: nat, lb: nat)
    requires la % 0x1_0000_0000 == lb % 0x1_0000_0000 <==> |a| == |b|
    requires 0 < |a| < MUR_BLOCK && 0 < |b| < MUR_BLOCK && (|a| <= 8 <==> |b| <= 8) && Filled(a) == Filled(b)
    ensures Finish(s, a, la) == Finish(s, b, lb) <==> a == b
  {
    SameTail(s, a, b);
    SameFinish(s, a, b, lb);
    LengthMatters(s, a, la, lb);
    if |a| == |b| {
      FilledDecides(a, b);
    }
  }
}
