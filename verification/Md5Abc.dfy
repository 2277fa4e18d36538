/** The value that RFC 1321 appendix A.5 gives for "abc", operation by operation. */
module Md5Abc {
  import opened Bytes
  import opened MessagePadding
  import opened HashContext
  import opened LengthCode
  import opened Md5

  // ----- the sixty-four operations -----

  /** The words of "abc" with its padding. */
  ghost predicate IsAbc(m: Block) {
    m[0] == 0x80636261 && m[14] == 0x18 && forall i :: 0 < i < 16 && i != 14 ==> m[i] == 0
  }

  ghost predicate HasRow(table: seq<bv32>, i: nat) {
    forall t: nat {:trigger K(table, t)} :: 8 * i <= t < 8 * i + 8 ==> K(table, t) == TableRow(i)[t - 8 * i]
  }

  lemma RowsOfTable(table: seq<bv32>)
    requires table == Constants()
    ensures HasRow(table, 0) && HasRow(table, 1) && HasRow(table, 2) && HasRow(table, 3)
    ensures HasRow(table, 4) && HasRow(table, 5) && HasRow(table, 6) && HasRow(table, 7)
  {
  }

  /** The registers before operation t. */
  function Before(table: seq<bv32>, m: Block, t: nat): Regs {
    Rounds(table, START, m, t)
  }

  /** Operation t, with its table word, its message word and the word it yields. */
  lemma Next(table: seq<bv32>, m: Block, t: nat, r: Regs, k: bv32, x: bv32, w: bv32) returns (r': Regs)
    requires Before(table, m, t) == r && K(table, t) == k && m[Index(t)] == x && Round(t, k, r, x).b == w
    ensures r' == Regs(r.d, w, r.b, r.c) == Before(table, m, t + 1)
  {
    r' := Round(t, k, r, x);
  }

  lemma To4(table: seq<bv32>, m: Block)
    requires HasRow(table, 0) && IsAbc(m)
    requires Before(table, m, 0) == Regs(0x67452301, 0xefcdab89, 0x98badcfe, 0x10325476)
    ensures Before(table, m, 4) == Regs(0xd6d117b4, 0x7ad956f2, 0x2f6fbd72, 0x344a8432)
  {
    var r := Regs(0x67452301, 0xefcdab89, 0x98badcfe, 0x10325476);
    r := Next(table, m, 0, r, 0xd76aa478, 0x80636261, 0xd6d117b4);
    r := Next(table, m, 1, r, 0xe8c7b756, 0, 0x344a8432);
    r := Next(table, m, 2, r, 0x242070db, 0, 0x2f6fbd72);
    r := Next(table, m, 3, r, 0xc1bdceee, 0, 0x7ad956f2);
  }

  lemma To8(table: seq<bv32>, m: Block)
    requires HasRow(table, 0) && IsAbc(m)
    requires Before(table, m, 4) == Regs(0xd6d117b4, 0x7ad956f2, 0x2f6fbd72, 0x344a8432)
    ensures Before(table, m, 8) == Regs(0xc73741ef, 0x928d99f6, 0x207dc67b, 0x8bac3051)
  {
    var r := Regs(0xd6d117b4, 0x7ad956f2, 0x2f6fbd72, 0x344a8432);
    r := Next(table, m, 4, r, 0xf57c0faf, 0, 0xc73741ef);
    r := Next(table, m, 5, r, 0x4787c62a, 0, 0x8bac3051);
    r := Next(table, m, 6, r, 0xa8304613, 0, 0x207dc67b);
    r := Next(table, m, 7, r, 0xfd469501, 0, 0x928d99f6);
  }

  lemma To12(table: seq<bv32>, m: Block)
    requires HasRow(table, 1) && IsAbc(m)
    requires Before(table, m, 8) == Regs(0xc73741ef, 0x928d99f6, 0x207dc67b, 0x8bac3051)
    ensures Before(table, m, 12) == Regs(0x854b3712, 0x5ed49596, 0x3020401c, 0x74e2f284)
  {
    var r := Regs(0xc73741ef, 0x928d99f6, 0x207dc67b, 0x8bac3051);
    r := Next(table, m, 8, r, 0x698098d8, 0, 0x854b3712);
    r := Next(table, m, 9, r, 0x8b44f7af, 0, 0x74e2f284);
    r := Next(table, m, 10, r, 0xffff5bb1, 0, 0x3020401c);
    r := Next(table, m, 11, r, 0x895cd7be, 0, 0x5ed49596);
  }

  lemma To16(table: seq<bv32>, m: Block)
    requires HasRow(table, 1) && IsAbc(m)
    requires Before(table, m, 12) == Regs(0x854b3712, 0x5ed49596, 0x3020401c, 0x74e2f284)
    ensures Before(table, m, 16) == Regs(0xdda9b9a6, 0x72aff2e0, 0xe396856b, 0xa1051895)
  {
    var r := Regs(0x854b3712, 0x5ed49596, 0x3020401c, 0x74e2f284);
    r := Next(table, m, 12, r, 0x6b901122, 0, 0xdda9b9a6);
    r := Next(table, m, 13, r, 0xfd987193, 0, 0xa1051895);
    r := Next(table, m, 14, r, 0xa679438e, 0x18, 0xe396856b);
    r := Next(table, m, 15, r, 0x49b40821, 0, 0x72aff2e0);
  }

  lemma To20(table: seq<bv32>, m: Block)
    requires HasRow(table, 2) && IsAbc(m)
    requires Before(table, m, 16) == Regs(0xdda9b9a6, 0x72aff2e0, 0xe396856b, 0xa1051895)
    ensures Before(table, m, 20) == Regs(0x3e9e9126, 0xb5b204e4, 0xe25e1652, 0x4a1d804e)
  {
    var r := Regs(0xdda9b9a6, 0x72aff2e0, 0xe396856b, 0xa1051895);
    r := Next(table, m, 16, r, 0xf61e2562, 0, 0x3e9e9126);
    r := Next(table, m, 17, r, 0xc040b340, 0, 0x4a1d804e);
    r := Next(table, m, 18, r, 0x265e5a51, 0, 0xe25e1652);
    r := Next(table, m, 19, r, 0xe9b6c7aa, 0x80636261, 0xb5b204e4);
  }

  lemma To24(table: seq<bv32>, m: Block)
    requires HasRow(table, 2) && IsAbc(m)
    requires Before(table, m, 20) == Regs(0x3e9e9126, 0xb5b204e4, 0xe25e1652, 0x4a1d804e)
    ensures Before(table, m, 24) == Regs(0x59a8ffda, 0x47092c07, 0xabfc7920, 0x6d002f1e)
  {
    var r := Regs(0x3e9e9126, 0xb5b204e4, 0xe25e1652, 0x4a1d804e);
    r := Next(table, m, 20, r, 0xd62f105d, 0, 0x59a8ffda);
    r := Next(table, m, 21, r, 0x02441453, 0, 0x6d002f1e);
    r := Next(table, m, 22, r, 0xd8a1e681, 0, 0xabfc7920);
    r := Next(table, m, 23, r, 0xe7d3fbc8, 0, 0x47092c07);
  }

  lemma To28(table: seq<bv32>, m: Block)
    requires HasRow(table, 3) && IsAbc(m)
    requires Before(table, m, 24) == Regs(0x59a8ffda, 0x47092c07, 0xabfc7920, 0x6d002f1e)
    ensures Before(table, m, 28) == Regs(0xb7f268cf, 0x786acb8f, 0xfe1623b1, 0x09388eff)
  {
    var r := Regs(0x59a8ffda, 0x47092c07, 0xabfc7920, 0x6d002f1e);
    r := Next(table, m, 24, r, 0x21e1cde6, 0, 0xb7f268cf);
    r := Next(table, m, 25, r, 0xc33707d6, 0x18, 0x09388eff);
    r := Next(table, m, 26, r, 0xf4d50d87, 0, 0xfe1623b1);
    r := Next(table, m, 27, r, 0x455a14ed, 0, 0x786acb8f);
  }

  lemma To32(table: seq<bv32>, m: Block)
    requires HasRow(table, 3) && IsAbc(m)
    requires Before(table, m, 28) == Regs(0xb7f268cf, 0x786acb8f, 0xfe1623b1, 0x09388eff)
    ensures Before(table, m, 32) == Regs(0x790a77fb, 0x726342d3, 0xa62884aa, 0x9f47e4f8)
  {
    var r := Regs(0xb7f268cf, 0x786acb8f, 0xfe1623b1, 0x09388eff);
    r := Next(table, m, 28, r, 0xa9e3e905, 0, 0x790a77fb);
    r := Next(table, m, 29, r, 0xfcefa3f8, 0, 0x9f47e4f8);
    r := Next(table, m, 30, r, 0x676f02d9, 0, 0xa62884aa);
    r := Next(table, m, 31, r, 0x8d2a4c8a, 0, 0x726342d3);
  }

  lemma To36(table: seq<bv32>, m: Block)
    requires HasRow(table, 4) && IsAbc(m)
    requires Before(table, m, 32) == Regs(0x790a77fb, 0x726342d3, 0xa62884aa, 0x9f47e4f8)
    ensures Before(table, m, 36) == Regs(0xb3707ebf, 0x3b0875c7, 0x8d212ff5, 0x60127b2e)
  {
    var r := Regs(0x790a77fb, 0x726342d3, 0xa62884aa, 0x9f47e4f8);
    r := Next(table, m, 32, r, 0xfffa3942, 0, 0xb3707ebf);
    r := Next(table, m, 33, r, 0x8771f681, 0, 0x60127b2e);
    r := Next(table, m, 34, r, 0x6d9d6122, 0, 0x8d212ff5);
    r := Next(table, m, 35, r, 0xfde5380c, 0x18, 0x3b0875c7);
  }

  lemma To40(table: seq<bv32>, m: Block)
    requires HasRow(table, 4) && IsAbc(m)
    requires Before(table, m, 36) == Regs(0xb3707ebf, 0x3b0875c7, 0x8d212ff5, 0x60127b2e)
    ensures Before(table, m, 40) == Regs(0x21b117b9, 0x5a2f5ea5, 0x3575227e, 0x6e7429d5)
  {
    var r := Regs(0xb3707ebf, 0x3b0875c7, 0x8d212ff5, 0x60127b2e);
    r := Next(table, m, 36, r, 0xa4beea44, 0, 0x21b117b9);
    r := Next(table, m, 37, r, 0x4bdecfa9, 0, 0x6e7429d5);
    r := Next(table, m, 38, r, 0xf6bb4b60, 0, 0x3575227e);
    r := Next(table, m, 39, r, 0xbebfbc70, 0, 0x5a2f5ea5);
  }

  lemma To44(table: seq<bv32>, m: Block)
    requires HasRow(table, 5) && IsAbc(m)
    requires Before(table, m, 40) == Regs(0x21b117b9, 0x5a2f5ea5, 0x3575227e, 0x6e7429d5)
    ensures Before(table, m, 44) == Regs(0x11de1779, 0x4c6124f4, 0x31c465ca, 0xfadcaa38)
  {
    var r := Regs(0x21b117b9, 0x5a2f5ea5, 0x3575227e, 0x6e7429d5);
    r := Next(table, m, 40, r, 0x289b7ec6, 0, 0x11de1779);
    r := Next(table, m, 41, r, 0xeaa127fa, 0x80636261, 0xfadcaa38);
    r := Next(table, m, 42, r, 0xd4ef3085, 0, 0x31c465ca);
    r := Next(table, m, 43, r, 0x04881d05, 0, 0x4c6124f4);
  }

  lemma To48(table: seq<bv32>, m: Block)
    requires HasRow(table, 5) && IsAbc(m)
    requires Before(table, m, 44) == Regs(0x11de1779, 0x4c6124f4, 0x31c465ca, 0xfadcaa38)
    ensures Before(table, m, 48) == Regs(0x7f2e507b, 0x7beb9700, 0x8fae6399, 0x99d9679d)
  {
    var r := Regs(0x11de1779, 0x4c6124f4, 0x31c465ca, 0xfadcaa38);
    r := Next(table, m, 44, r, 0xd9d4d039, 0, 0x7f2e507b);
    r := Next(table, m, 45, r, 0xe6db99e5, 0, 0x99d9679d);
    r := Next(table, m, 46, r, 0x1fa27cf8, 0, 0x8fae6399);
    r := Next(table, m, 47, r, 0xc4ac5665, 0, 0x7beb9700);
  }

  lemma To52(table: seq<bv32>, m: Block)
    requires HasRow(table, 6) && IsAbc(m)
    requires Before(table, m, 48) == Regs(0x7f2e507b, 0x7beb9700, 0x8fae6399, 0x99d9679d)
    ensures Before(table, m, 52) == Regs(0x7b201df8, 0x8bf025c4, 0xb298cefd, 0xf4e8e96e)
  {
    var r := Regs(0x7f2e507b, 0x7beb9700, 0x8fae6399, 0x99d9679d);
    r := Next(table, m, 48, r, 0xf4292244, 0x80636261, 0x7b201df8);
    r := Next(table, m, 49, r, 0x432aff97, 0, 0xf4e8e96e);
    r := Next(table, m, 50, r, 0xab9423a7, 0x18, 0xb298cefd);
    r := Next(table, m, 51, r, 0xfc93a039, 0, 0x8bf025c4);
  }

  lemma To56(table: seq<bv32>, m: Block)
    requires HasRow(table, 6) && IsAbc(m)
    requires Before(table, m, 52) == Regs(0x7b201df8, 0x8bf025c4, 0xb298cefd, 0xf4e8e96e)
    ensures Before(table, m, 56) == Regs(0x06cc5e8a, 0x3bfa2c27, 0x7d632dd0, 0x5b0d97aa)
  {
    var r := Regs(0x7b201df8, 0x8bf025c4, 0xb298cefd, 0xf4e8e96e);
    r := Next(table, m, 52, r, 0x655b59c3, 0, 0x06cc5e8a);
    r := Next(table, m, 53, r, 0x8f0ccc92, 0, 0x5b0d97aa);
    r := Next(table, m, 54, r, 0xffeff47d, 0, 0x7d632dd0);
    r := Next(table, m, 55, r, 0x85845dd1, 0, 0x3bfa2c27);
  }

  lemma To60(table: seq<bv32>, m: Block)
    requires HasRow(table, 7) && IsAbc(m)
    requires Before(table, m, 56) == Regs(0x06cc5e8a, 0x3bfa2c27, 0x7d632dd0, 0x5b0d97aa)
    ensures Before(table, m, 60) == Regs(0x7f81cc35, 0x7327d604, 0x4f9dbe3f, 0x094454ab)
  {
    var r := Regs(0x06cc5e8a, 0x3bfa2c27, 0x7d632dd0, 0x5b0d97aa);
    r := Next(table, m, 56, r, 0x6fa87e4f, 0, 0x7f81cc35);
    r := Next(table, m, 57, r, 0xfe2ce6e0, 0, 0x094454ab);
    r := Next(table, m, 58, r, 0xa3014314, 0, 0x4f9dbe3f);
    r := Next(table, m, 59, r, 0x4e0811a1, 0, 0x7327d604);
  }

  lemma To64(table: seq<bv32>, m: Block)
    requires HasRow(table, 7) && IsAbc(m)
    requires Before(table, m, 60) == Regs(0x7f81cc35, 0x7327d604, 0x4f9dbe3f, 0x094454ab)
    ensures Before(table, m, 64) == Regs(0x310ade8f, 0xc08226b3, 0xe484b9d8, 0x624d8cb2)
  {
    var r := Regs(0x7f81cc35, 0x7327d604, 0x4f9dbe3f, 0x094454ab);
    r := Next(table, m, 60, r, 0xf7537e82, 0, 0x310ade8f);
    r := Next(table, m, 61, r, 0xbd3af235, 0, 0x624d8cb2);
    r := Next(table, m, 62, r, 0x2ad7d2bb, 0, 0xe484b9d8);
    r := Next(table, m, 63, r, 0xeb86d391, 0, 0xc08226b3);
  }

  lemma CompressAbc(m: Block)
    requires IsAbc(m)
    ensures Compress(START, m) == Regs(0x98500190, 0xb04fd23c, 0x7d3f96d6, 0x727fe128)
  {
    var table := Constants();
    RowsOfTable(table);
    To4(table, m);
    To8(table, m);
    To12(table, m);
    To16(table, m);
    To20(table, m);
    To24(table, m);
    To28(table, m);
    To32(table, m);
    To36(table, m);
    To40(table, m);
    To44(table, m);
    To48(table, m);
    To52(table, m);
    To56(table, m);
    To60(table, m);
    To64(table, m);
  }

  // ----- the padded message -----

  /** The message, an end marker, 52 zeros and a length of 24 bits. */
  ghost predicate IsAbcBlock(block: seq<byte>) {
    && |block| == BLOCK && block[..4] == [0x61, 0x62, 0x63, 0x80]
    && forall k :: 4 <= k < 64 ==> block[k] == if k == 56 then 24 else 0
  }

  lemma PaddedAbc(block: seq<byte>, msg: seq<byte>, z: seq<byte>, f: seq<byte>)
    requires msg == [0x61, 0x62, 0x63] && z == Zeros(52) && f == [24, 0, 0, 0, 0, 0, 0, 0]
    requires block == msg + ([0x80] + z + f)
    ensures IsAbcBlock(block)
  {
  }

  lemma WordsOfAbc(block: seq<byte>)
    requires IsAbcBlock(block)
    ensures IsAbc(WordsLE(block))
  {
    assert block[4 * 0..4 * 0 + 4] == [0x61, 0x62, 0x63, 0x80] && block[4 * 14..4 * 14 + 4] == [24, 0, 0, 0];
    forall i | 0 < i < 16 && i != 14
      ensures WordsLE(block)[i] == 0
    {
      assert block[4 * i..4 * i + 4] == [0, 0, 0, 0];
    }
  }

  lemma BlockOfAbc(a: HashAlgorithm, msg: seq<byte>, f: seq<byte>)
    requires msg == [0x61, 0x62, 0x63] && f == a.field(24) == LengthLE(24)
    ensures IsAbcBlock(Padded(a, msg))
  {
    ShortLE(24);
    PaddedThree(a, msg, f);
    PaddedAbc(Padded(a, msg), msg, Zeros(52), f);
  }

  lemma HashOfBlock(msg: seq<byte>, block: seq<byte>)
    requires block == Padded(MD5(), msg) && |block| == BLOCK
    ensures Hash(MD5(), msg) == ToDigest(Compress(START, WordsLE(block)))
  {
    HashOfOneBlock(MD5(), msg);
  }

  /** The digest of "abc" that the library's test expects. */
  lemma HashAbc()
    ensures Hash(MD5(), [0x61, 0x62, 0x63]) == [0x98500190, 0xb04fd23c, 0x7d3f96d6, 0x727fe128]
  {
    var msg := [0x61, 0x62, 0x63];
    var block := Padded(MD5(), msg);
    BlockOfAbc(MD5(), msg, LengthLE(24));
    WordsOfAbc(block);
    CompressAbc(WordsLE(block));
    HashOfBlock(msg, block);
  }
}
