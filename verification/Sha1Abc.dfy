/** The value that FIPS 180 gives for SHA-1 of "abc", eight rounds at a time. */
module Sha1Abc {
  import opened Bytes
  import opened Words
  import opened MessagePadding
  import opened HashContext
  import opened LengthCode
  import opened Sha1
  import opened Sha1Message

  /** The registers before a round, and the next sixteen words of the schedule. */
  datatype Frame = Frame(
    r: Regs,
    w0: bv32, w1: bv32, w2: bv32, w3: bv32, w4: bv32, w5: bv32, w6: bv32, w7: bv32,
    w8: bv32, w9: bv32, w10: bv32, w11: bv32, w12: bv32, w13: bv32, w14: bv32, w15: bv32)

  function Next(t: nat, f: Frame): Frame {
    Frame(Round(t, f.r, f.w0), f.w1, f.w2, f.w3, f.w4, f.w5, f.w6, f.w7, f.w8,
          f.w9, f.w10, f.w11, f.w12, f.w13, f.w14, f.w15, Mix(f.w13, f.w8, f.w2, f.w0))
  }

  function Four(t: nat, f: Frame): Frame {
    Next(t + 3, Next(t + 2, Next(t + 1, Next(t, f))))
  }

  // ----- frames of a computation -----

  function At(m: Block, t: nat): Frame {
    Frame(Rounds(H0, m, t), Schedule(m, t), Schedule(m, t + 1), Schedule(m, t + 2), Schedule(m, t + 3),
          Schedule(m, t + 4), Schedule(m, t + 5), Schedule(m, t + 6), Schedule(m, t + 7),
          Schedule(m, t + 8), Schedule(m, t + 9), Schedule(m, t + 10), Schedule(m, t + 11),
          Schedule(m, t + 12), Schedule(m, t + 13), Schedule(m, t + 14), Schedule(m, t + 15))
  }

  lemma NextIsAt(m: Block, t: nat)
    ensures Next(t, At(m, t)) == At(m, t + 1)
  {
    Recurrence(m, t + 16);
  }

  lemma FourIsAt(m: Block, t: nat)
    ensures Four(t, At(m, t)) == At(m, t + 4)
  {
    NextIsAt(m, t);
    NextIsAt(m, t + 1);
    NextIsAt(m, t + 2);
    NextIsAt(m, t + 3);
  }

  /** four is Four and at is At; what they compute does not matter where they are put together. */
  ghost predicate Known(four: (nat, Frame) -> Frame, at: nat -> Frame, m: Block) {
    && (forall t, f {:trigger Four(t, f)} :: four(t, f) == Four(t, f))
    && (forall t {:trigger At(m, t)} :: at(t) == At(m, t))
  }

  lemma FourKnown(four: (nat, Frame) -> Frame, at: nat -> Frame, m: Block, t: nat)
    requires Known(four, at, m)
    ensures four(t, at(t)) == at(t + 4)
  {
    FourIsAt(m, t);
    assert four(t, At(m, t)) == Four(t, At(m, t));
  }

  lemma EightIsAt(four: (nat, Frame) -> Frame, at: nat -> Frame, m: Block, t: nat)
    requires Known(four, at, m)
    ensures four(t + 4, four(t, at(t))) == at(t + 8)
  {
    FourKnown(four, at, m, t);
    FourKnown(four, at, m, t + 4);
  }

  // ----- the block of "abc" -----

  const F0 := Frame(
    Regs(0x67452301, 0xefcdab89, 0x98badcfe, 0x10325476, 0xc3d2e1f0),
    0x61626380, 0, 0, 0, 0, 0, 0, 0, 0, 0, 0, 0, 0, 0, 0, 0x18)

  const F8 := Frame(
    Regs(0x9e8c07d4, 0x993e30c1, 0x0ff1f290, 0xb3f52677, 0xf3763846),
    0, 0, 0, 0, 0, 0, 0, 0x18, 0xc2c4c700, 0, 0x00000030, 0x85898e01, 0, 0x00000060, 0x0b131c03, 0x00000030)

  const F16 := Frame(
    Regs(0x20bdd62f, 0x196bee77, 0x644a3da5, 0x1181ed99, 0x18c623f9),
    0xc2c4c700, 0, 0x00000030, 0x85898e01, 0, 0x00000060, 0x0b131c03, 0x00000030, 0x85898ec1, 0x16263806, 0,
    0x00000180, 0x2c4c700c, 0x000000f0, 0x93afb507, 0x5898e048)

  const F24 := Frame(
    Regs(0xd541f12d, 0x21283486, 0x0ce88eff, 0x868dec32, 0x7f67875f),
    0x85898ec1, 0x16263806, 0, 0x00000180, 0x2c4c700c, 0x000000f0, 0x93afb507, 0x5898e048, 0x8e9a9202, 0x00000600,
    0xb131c0f0, 0x16263bc6, 0x4ebed41e, 0x626380a1, 0x16263806, 0x000018c0)

  const F32 := Frame(
    Regs(0x3b845d33, 0x1267b407, 0x717eebd7, 0xa0dc2d4b, 0xd2aa1365),
    0x8e9a9202, 0x00000600, 0xb131c0f0, 0x16263bc6, 0x4ebed41e, 0x626380a1, 0x16263806, 0x000018c0, 0xd2e138c4,
    0x00000f00, 0x3afb5079, 0x898e04e5, 0xe2ba3c2b, 0x000060c0, 0x053a37cd, 0x74458547)

  const F40 := Frame(
    Regs(0x32de1cba, 0x4c986405, 0xf718e5cf, 0x03d447f6, 0xf72eec32),
    0xd2e138c4, 0x00000f00, 0x3afb5079, 0x898e04e5, 0xe2ba3c2b, 0x000060c0, 0x053a37cd, 0x74458547, 0xda9415ed,
    0x26380a16, 0x626383a1, 0x4ebf54de, 0x3835b44b, 0x0000f600, 0x1e84c7a3, 0x98e04d98)

  const F48 := Frame(
    Regs(0xbead02ca, 0xa01b846c, 0x8714787c, 0x503ca382, 0xfb86c6ab),
    0xda9415ed, 0x26380a16, 0x626383a1, 0x4ebf54de, 0x3835b44b, 0x0000f600, 0x1e84c7a3, 0x98e04d98, 0x651d16a0,
    0x62658ca1, 0x458544d6, 0x44584cb7, 0x7ba06619, 0x6380aea2, 0x0ae55269, 0x627b49a1)

  const F56 := Frame(
    Regs(0x5e6456af, 0x7b71f76d, 0x09fa7c76, 0x792410db, 0x8e11eb59),
    0x651d16a0, 0x62658ca1, 0x458544d6, 0x44584cb7, 0x7ba06619, 0x6380aea2, 0x0ae55269, 0x627b49a1, 0x7cd45c9d,
    0x000f0000, 0xfb50753a, 0xec6765e8, 0xba3c2be2, 0x0060c000, 0x3a37cd05, 0x458546f4)

  const F64 := Frame(
    Regs(0x6b61c9e1, 0xb66c020b, 0x9523272c, 0xf5d5b051, 0x8fd4b796),
    0x7cd45c9d, 0x000f0000, 0xfb50753a, 0xec6765e8, 0xba3c2be2, 0x0060c000, 0x3a37cd05, 0x458546f4, 0xb8599dd6,
    0x380a1a26, 0x01e02203, 0xe7cc3456, 0xe6e60b69, 0x00f60a00, 0x5795ef4f, 0x822e0879)

  const F72 := Frame(
    Regs(0x39859de7, 0xc199f8c7, 0x8fc96230, 0x125c24f0, 0xde37534a),
    0xb8599dd6, 0x380a1a26, 0x01e02203, 0xe7cc3456, 0xe6e60b69, 0x00f60a00, 0x5795ef4f, 0x822e0879, 0x7e577ce2,
    0x07ef2103, 0x8544e945, 0xeb39dab8, 0xc205991a, 0x80aecb63, 0x7d84ca48, 0x7b499b62)

  const F80 := Frame(
    Regs(0x42541b35, 0x5738d5e1, 0x21834873, 0x681e6df6, 0xd8fdf6ad),
    0x7e577ce2, 0x07ef2103, 0x8544e945, 0xeb39dab8, 0xc205991a, 0x80aecb63, 0x7d84ca48, 0x7b499b62, 0x8e8010a8,
    0x4b5b8a77, 0x3216b69a, 0x0507e88d, 0x705bee96, 0x60c0ff00, 0xa28362d0, 0x1da6b91d)

  lemma Value8()
    ensures Four(4, Four(0, F0)) == F8
  {
  }

  lemma To8(four: (nat, Frame) -> Frame, at: nat -> Frame, m: Block)
    requires Known(four, at, m) && at(0) == F0
    ensures at(8) == F8
  {
    EightIsAt(four, at, m, 0);
    Value8();
  }

  lemma Value16()
    ensures Four(12, Four(8, F8)) == F16
  {
  }

  lemma To16(four: (nat, Frame) -> Frame, at: nat -> Frame, m: Block)
    requires Known(four, at, m) && at(8) == F8
    ensures at(16) == F16
  {
    EightIsAt(four, at, m, 8);
    Value16();
  }

  lemma Value24()
    ensures Four(20, Four(16, F16)) == F24
  {
  }

  lemma To24(four: (nat, Frame) -> Frame, at: nat -> Frame, m: Block)
    requires Known(four, at, m) && at(16) == F16
    ensures at(24) == F24
  {
    EightIsAt(four, at, m, 16);
    Value24();
  }

  lemma Value32()
    ensures Four(28, Four(24, F24)) == F32
  {
  }

  lemma To32(four: (nat, Frame) -> Frame, at: nat -> Frame, m: Block)
    requires Known(four, at, m) && at(24) == F24
    ensures at(32) == F32
  {
    EightIsAt(four, at, m, 24);
    Value32();
  }

  lemma Value40()
    ensures Four(36, Four(32, F32)) == F40
  {
  }

  lemma To40(four: (nat, Frame) -> Frame, at: nat -> Frame, m: Block)
    requires Known(four, at, m) && at(32) == F32
    ensures at(40) == F40
  {
    EightIsAt(four, at, m, 32);
    Value40();
  }

  lemma Value48()
    ensures Four(44, Four(40, F40)) == F48
  {
  }

  lemma To48(four: (nat, Frame) -> Frame, at: nat -> Frame, m: Block)
    requires Known(four, at, m) && at(40) == F40
    ensures at(48) == F48
  {
    EightIsAt(four, at, m, 40);
    Value48();
  }

  lemma Value56()
    ensures Four(52, Four(48, F48)) == F56
  {
  }

  lemma To56(four: (nat, Frame) -> Frame, at: nat -> Frame, m: Block)
    requires Known(four, at, m) && at(48) == F48
    ensures at(56) == F56
  {
    EightIsAt(four, at, m, 48);
    Value56();
  }

  lemma Value64()
    ensures Four(60, Four(56, F56)) == F64
  {
  }

  lemma To64(four: (nat, Frame) -> Frame, at: nat -> Frame, m: Block)
    requires Known(four, at, m) && at(56) == F56
    ensures at(64) == F64
  {
    EightIsAt(four, at, m, 56);
    Value64();
  }

  lemma Value72()
    ensures Four(68, Four(64, F64)) == F72
  {
  }

  lemma To72(four: (nat, Frame) -> Frame, at: nat -> Frame, m: Block)
    requires Known(four, at, m) && at(64) == F64
    ensures at(72) == F72
  {
    EightIsAt(four, at, m, 64);
    Value72();
  }

  lemma Value80()
    ensures Four(76, Four(72, F72)) == F80
  {
  }

  lemma To80(four: (nat, Frame) -> Frame, at: nat -> Frame, m: Block)
    requires Known(four, at, m) && at(72) == F72
    ensures at(80) == F80
  {
    EightIsAt(four, at, m, 72);
    Value80();
  }

  lemma AllRounds(four: (nat, Frame) -> Frame, at: nat -> Frame, m: Block)
    requires Known(four, at, m) && at(0) == F0
    ensures at(80) == F80
  {
    To8(four, at, m);
    To16(four, at, m);
    To24(four, at, m);
    To32(four, at, m);
    To40(four, at, m);
    To48(four, at, m);
    To56(four, at, m);
    To64(four, at, m);
    To72(four, at, m);
    To80(four, at, m);
  }

  lemma StartsAt(m: Block)
    requires m == [0x61626380, 0, 0, 0, 0, 0, 0, 0, 0, 0, 0, 0, 0, 0, 0, 0x18]
    ensures At(m, 0) == F0
  {
  }

  lemma CompressAbc(m: Block)
    requires m == [0x61626380, 0, 0, 0, 0, 0, 0, 0, 0, 0, 0, 0, 0, 0, 0, 0x18]
    ensures Compress(H0, m) == Regs(0xa9993e36, 0x4706816a, 0xba3e2571, 0x7850c26c, 0x9cd0d89d)
  {
    StartsAt(m);
    AllRounds(Four, (t: nat) => At(m, t), m);
    assert At(m, 80) == F80;
  }

  // ----- the padded message -----

  /** The message, an end marker, 52 zeros and a length of 24 bits. */
  ghost predicate IsAbcBlock(block: seq<byte>) {
    && |block| == BLOCK && block[..4] == [0x61, 0x62, 0x63, 0x80]
    && forall k :: 4 <= k < 64 ==> block[k] == if k == 63 then 24 else 0
  }

  lemma PaddedAbc(block: seq<byte>, msg: seq<byte>, z: seq<byte>, f: seq<byte>)
    requires msg == [0x61, 0x62, 0x63] && z == Zeros(52) && f == [0, 0, 0, 0, 0, 0, 0, 24]
    requires block == msg + ([0x80] + z + f)
    ensures IsAbcBlock(block)
  {
  }

  lemma WordsOfAbc(block: seq<byte>)
    requires IsAbcBlock(block)
    ensures WordsBE(block) == [0x61626380, 0, 0, 0, 0, 0, 0, 0, 0, 0, 0, 0, 0, 0, 0, 0x18]
  {
    assert block[4 * 0..4 * 0 + 4] == [0x61, 0x62, 0x63, 0x80] && block[4 * 15..4 * 15 + 4] == [0, 0, 0, 24];
    forall i | 0 < i < 15
      ensures WordsBE(block)[i] == 0
    {
      assert block[4 * i..4 * i + 4] == [0, 0, 0, 0];
    }
  }

  lemma BlockOfAbc(a: HashAlgorithm, msg: seq<byte>, f: seq<byte>)
    requires msg == [0x61, 0x62, 0x63] && f == a.field(24) == LengthBE(24)
    ensures IsAbcBlock(Padded(a, msg))
  {
    ShortBE(24);
    PaddedThree(a, msg, f);
    PaddedAbc(Padded(a, msg), msg, Zeros(52), f);
  }

  lemma HashOfBlock(msg: seq<byte>, block: seq<byte>)
    requires block == Padded(SHA1(), msg) && |block| == BLOCK
    ensures Hash(SHA1(), msg) == ToDigest(Compress(H0, WordsBE(block)))
  {
    HashOfOneBlock(SHA1(), msg);
  }

  lemma HashAbc()
    ensures Hash(SHA1(), [0x61, 0x62, 0x63]) == [0xa9993e36, 0x4706816a, 0xba3e2571, 0x7850c26c, 0x9cd0d89d]
  {
    var msg := [0x61, 0x62, 0x63];
    var block := Padded(SHA1(), msg);
    BlockOfAbc(SHA1(), msg, LengthBE(24));
    WordsOfAbc(block);
    CompressAbc(WordsBE(block));
    HashOfBlock(msg, block);
  }
}
