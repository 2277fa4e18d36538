/** The published murmur3_x64_128 of "The quick brown fox jumps over the lazy dog", seed zero. */
module Murmur3Fox {
  import opened ByteDigits
  import opened Bytes
  import opened TailHash
  import opened Word64
  import opened Murmur3

  // Two blocks and a tail of eleven bytes.
  const FIRST: seq<byte> := [
    0x54, 0x68, 0x65, 0x20, 0x71, 0x75, 0x69, 0x63,
    0x6b, 0x20, 0x62, 0x72, 0x6f, 0x77, 0x6e, 0x20
  ]
  const SECOND: seq<byte> := [
    0x66, 0x6f, 0x78, 0x20, 0x6a, 0x75, 0x6d, 0x70,
    0x73, 0x20, 0x6f, 0x76, 0x65, 0x72, 0x20, 0x74
  ]
  const TAIL: seq<byte> := [0x68, 0x65, 0x20, 0x6c, 0x61, 0x7a, 0x79, 0x20, 0x64, 0x6f, 0x67]

  lemma WordsOfBlocks()
    ensures Load64(FIRST[..8]) == 0x6369757120656854 && Load64(FIRST[8..]) == 0x206e776f7262206b
    ensures Load64(SECOND[..8]) == 0x706d756a20786f66 && Load64(SECOND[8..]) == 0x74207265766f2073
  {
  }

  lemma WordsOfTail()
    ensures TailWords(TAIL) == (0x20797a616c206568, 0x0000000000676f64)
  {
  }

  lemma Steps()
    ensures BlockStep(State(0, 0), 0x6369757120656854, 0x206e776f7262206b)
         == State(0x065f54070009580c, 0x1185bfe0bc383732)
    ensures BlockStep(State(0x065f54070009580c, 0x1185bfe0bc383732), 0x706d756a20786f66, 0x74207265766f2073)
         == State(0xef7ef36e84b36d66, 0x20112c4dac59411d)
  {
  }

  lemma MixesTail()
    ensures MixWords(State(0xef7ef36e84b36d66, 0x20112c4dac59411d), (0x20797a616c206568, 0x0000000000676f64), 11)
         == State(0x515233ebf2a47c15, 0x106ea6d665619948)
  {
  }

  lemma LengthIs43()
    ensures LengthWord(43) == 43
  {
    ByteBeyond(43, 0x100);
    ByteBeyond(43, 0x1_0000);
    ByteBeyond(43, 0x100_0000);
  }

  lemma Mixes43(s: State)
    ensures MixLength(s, 43) == State(Xor(s.h0, 43), Xor(s.h1, 43))
  {
    LengthIs43();
  }

  lemma Scrambles()
    ensures Xor(0x515233ebf2a47c15, 43) == 0x515233ebf2a47c3e
    ensures Xor(0x106ea6d665619948, 43) == 0x106ea6d665619963
    ensures Scramble(State(0x515233ebf2a47c3e, 0x106ea6d665619963))
         == State(0xe34bbc7bbc071b6c, 0x7a433ca9c49a9347)
  {
  }

  lemma FoldsTwo(s: State)
    ensures Blocks(s, FIRST + SECOND) == StepBytes(StepBytes(s, FIRST), SECOND)
  {
    FoldOne(StepBytes, MUR_BLOCK, s, FIRST, SECOND);
    FoldOne(StepBytes, MUR_BLOCK, StepBytes(s, FIRST), SECOND, []);
    assert SECOND + [] == SECOND;
  }

  lemma MurmurFox()
    ensures Murmur(FIRST + SECOND + TAIL, 0) == State(0xe34bbc7bbc071b6c, 0x7a433ca9c49a9347)
  {
    EndTail(StepBytes, FinishBytes, MUR_BLOCK, State(0, 0), 2, FIRST + SECOND, TAIL, 43);
    FoldsTwo(State(0, 0));
    WordsOfBlocks();
    Steps();
    WordsOfTail();
    MixesTail();
    Mixes43(State(0x515233ebf2a47c15, 0x106ea6d665619948));
    Scrambles();
  }
}
