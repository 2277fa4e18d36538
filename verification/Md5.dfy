/**
 MD5: the definition of RFC 1321 section 3.4, the library's sixty-four step macros (md5_single in
 md5_ctx_base.c), and MD5 as an algorithm of the context manager.
 */
module Md5 {
  import opened ByteDigits
  import opened Bytes
  import opened MessagePadding
  import opened HashContext
  import opened Sha1Message
  import opened Words

  datatype Regs = Regs(a: bv32, b: bv32, c: bv32, d: bv32)

  type Block = m: seq<bv32> | |m| == 16 witness seq(16, _ => 0 as bv32)

  // ----- RFC 1321 -----

  function F(x: bv32, y: bv32, z: bv32): bv32 { (x & y) | (!x & z) }

  function G(x: bv32, y: bv32, z: bv32): bv32 { (x & z) | (y & !z) }

  function H(x: bv32, y: bv32, z: bv32): bv32 { x ^ y ^ z }

  function I(x: bv32, y: bv32, z: bv32): bv32 { y ^ (x | !z) }

  function Mix(i: nat, x: bv32, y: bv32, z: bv32): bv32 {
    if i < 16 then F(x, y, z) else if i < 32 then G(x, y, z) else if i < 48 then H(x, y, z) else I(x, y, z)
  }

  /** The message word that step i uses. */
  function Index(i: nat): (k: nat)
    ensures k < 16
  {
    if i < 16 then i else if i < 32 then (5 * i + 1) % 16 else if i < 48 then (3 * i + 5) % 16 else 7 * i % 16
  }

  /** The distance step i rotates by. */
  function Amount(i: nat): nat {
    if i < 16 then Choose(i % 4, 7, 12, 17, 22)
    else if i < 32 then Choose(i % 4, 5, 9, 14, 20)
    else if i < 48 then Choose(i % 4, 4, 11, 16, 23)
    else Choose(i % 4, 6, 10, 15, 21)
  }

  function Choose(j: nat, s0: nat, s1: nat, s2: nat, s3: nat): nat {
    if j == 0 then s0 else if j == 1 then s1 else if j == 2 then s2 else s3
  }

  function RotL(x: bv32, s: nat): bv32 {
    if s == 4 then x.RotateLeft(4)
    else if s == 5 then x.RotateLeft(5)
    else if s == 6 then x.RotateLeft(6)
    else if s == 7 then x.RotateLeft(7)
    else if s == 9 then x.RotateLeft(9)
    else if s == 10 then x.RotateLeft(10)
    else if s == 11 then x.RotateLeft(11)
    else if s == 12 then x.RotateLeft(12)
    else if s == 14 then x.RotateLeft(14)
    else if s == 15 then x.RotateLeft(15)
    else if s == 16 then x.RotateLeft(16)
    else if s == 17 then x.RotateLeft(17)
    else if s == 20 then x.RotateLeft(20)
    else if s == 21 then x.RotateLeft(21)
    else if s == 22 then x.RotateLeft(22)
    else x.RotateLeft(23)
  }

  /** The integer parts of 4294967296 times abs(sin(i + 1)), in rows of eight. */
  function TableRow(i: nat): (k: seq<bv32>)
    ensures |k| == 8
  {
    if i == 0 then [0xd76aa478, 0xe8c7b756, 0x242070db, 0xc1bdceee, 0xf57c0faf, 0x4787c62a, 0xa8304613, 0xfd469501]
    else if i == 1 then [0x698098d8, 0x8b44f7af, 0xffff5bb1, 0x895cd7be, 0x6b901122, 0xfd987193, 0xa679438e, 0x49b40821]
    else if i == 2 then [0xf61e2562, 0xc040b340, 0x265e5a51, 0xe9b6c7aa, 0xd62f105d, 0x02441453, 0xd8a1e681, 0xe7d3fbc8]
    else if i == 3 then [0x21e1cde6, 0xc33707d6, 0xf4d50d87, 0x455a14ed, 0xa9e3e905, 0xfcefa3f8, 0x676f02d9, 0x8d2a4c8a]
    else if i == 4 then [0xfffa3942, 0x8771f681, 0x6d9d6122, 0xfde5380c, 0xa4beea44, 0x4bdecfa9, 0xf6bb4b60, 0xbebfbc70]
    else if i == 5 then [0x289b7ec6, 0xeaa127fa, 0xd4ef3085, 0x04881d05, 0xd9d4d039, 0xe6db99e5, 0x1fa27cf8, 0xc4ac5665]
    else if i == 6 then [0xf4292244, 0x432aff97, 0xab9423a7, 0xfc93a039, 0x655b59c3, 0x8f0ccc92, 0xffeff47d, 0x85845dd1]
    else [0x6fa87e4f, 0xfe2ce6e0, 0xa3014314, 0x4e0811a1, 0xf7537e82, 0xbd3af235, 0x2ad7d2bb, 0xeb86d391]
  }

  function Constants(): seq<bv32> {
    TableRow(0) + TableRow(1) + TableRow(2) + TableRow(3) + TableRow(4) + TableRow(5) + TableRow(6) + TableRow(7)
  }

  function K(table: seq<bv32>, t: nat): bv32 {
    if t < |table| then table[t] else 0
  }

  function Sum4(a: bv32, f: bv32, x: bv32, t: bv32): bv32 { a + f + x + t }

  function Plus(x: bv32, y: bv32): bv32 { x + y }

  /** One operation of the rounds, after which the registers take each other's places. */
  function Round(i: nat, t: bv32, r: Regs, x: bv32): Regs {
    Regs(r.d, Plus(r.b, RotL(Sum4(r.a, Mix(i, r.b, r.c, r.d), x, t), Amount(i))), r.b, r.c)
  }

  function Rounds(table: seq<bv32>, h: Regs, m: Block, n: nat): Regs {
    if n == 0 then h else Round(n - 1, K(table, n - 1), Rounds(table, h, m, n - 1), m[Index(n - 1)])
  }

  const ROUNDS: nat := 64

  function AddRegs(h: Regs, r: Regs): Regs {
    Regs(Plus(h.a, r.a), Plus(h.b, r.b), Plus(h.c, r.c), Plus(h.d, r.d))
  }

  /** One block into the four-word buffer. */
  function Compress(h: Regs, m: Block): Regs {
    AddRegs(h, Rounds(Constants(), h, m, ROUNDS))
  }

  /** Section 3.3 */
  const START := Regs(0x67452301, 0xefcdab89, 0x98badcfe, 0x10325476)

  // ----- the library's operators -----

  function F1(b: bv32, c: bv32, d: bv32): bv32 { d ^ (b & (c ^ d)) }

  function F2(b: bv32, c: bv32, d: bv32): bv32 { c ^ (d & (b ^ c)) }

  function F3(b: bv32, c: bv32, d: bv32): bv32 { b ^ c ^ d }

  function F4(b: bv32, c: bv32, d: bv32): bv32 { c ^ (b | !d) }

  function StepF(i: nat, b: bv32, c: bv32, d: bv32): bv32 {
    if i < 16 then F1(b, c, d) else if i < 32 then F2(b, c, d) else if i < 48 then F3(b, c, d) else F4(b, c, d)
  }

  function Rol32(x: bv32, r: nat): bv32 {
    if r == 4 then (x << 4) ^ (x >> 28)
    else if r == 5 then (x << 5) ^ (x >> 27)
    else if r == 6 then (x << 6) ^ (x >> 26)
    else if r == 7 then (x << 7) ^ (x >> 25)
    else if r == 9 then (x << 9) ^ (x >> 23)
    else if r == 10 then (x << 10) ^ (x >> 22)
    else if r == 11 then (x << 11) ^ (x >> 21)
    else if r == 12 then (x << 12) ^ (x >> 20)
    else if r == 14 then (x << 14) ^ (x >> 18)
    else if r == 15 then (x << 15) ^ (x >> 17)
    else if r == 16 then (x << 16) ^ (x >> 16)
    else if r == 17 then (x << 17) ^ (x >> 15)
    else if r == 20 then (x << 20) ^ (x >> 12)
    else if r == 21 then (x << 21) ^ (x >> 11)
    else if r == 22 then (x << 22) ^ (x >> 10)
    else (x << 23) ^ (x >> 9)
  }

  function AddTo(a: bv32, f: bv32, k: bv32, w: bv32): bv32 { a + f + k + w }

  /** The constants in the step macros, in order. */
  function MacroRow(i: nat): (k: seq<bv32>)
    ensures |k| == 8
  {
    if i == 0 then [0xd76aa478, 0xe8c7b756, 0x242070db, 0xc1bdceee, 0xf57c0faf, 0x4787c62a, 0xa8304613, 0xfd469501]
    else if i == 1 then [0x698098d8, 0x8b44f7af, 0xffff5bb1, 0x895cd7be, 0x6b901122, 0xfd987193, 0xa679438e, 0x49b40821]
    else if i == 2 then [0xf61e2562, 0xc040b340, 0x265e5a51, 0xe9b6c7aa, 0xd62f105d, 0x02441453, 0xd8a1e681, 0xe7d3fbc8]
    else if i == 3 then [0x21e1cde6, 0xc33707d6, 0xf4d50d87, 0x455a14ed, 0xa9e3e905, 0xfcefa3f8, 0x676f02d9, 0x8d2a4c8a]
    else if i == 4 then [0xfffa3942, 0x8771f681, 0x6d9d6122, 0xfde5380c, 0xa4beea44, 0x4bdecfa9, 0xf6bb4b60, 0xbebfbc70]
    else if i == 5 then [0x289b7ec6, 0xeaa127fa, 0xd4ef3085, 0x04881d05, 0xd9d4d039, 0xe6db99e5, 0x1fa27cf8, 0xc4ac5665]
    else if i == 6 then [0xf4292244, 0x432aff97, 0xab9423a7, 0xfc93a039, 0x655b59c3, 0x8f0ccc92, 0xffeff47d, 0x85845dd1]
    else [0x6fa87e4f, 0xfe2ce6e0, 0xa3014314, 0x4e0811a1, 0xf7537e82, 0xbd3af235, 0x2ad7d2bb, 0xeb86d391]
  }

  function MacroConstants(): seq<bv32> {
    MacroRow(0) + MacroRow(1) + MacroRow(2) + MacroRow(3) + MacroRow(4) + MacroRow(5) + MacroRow(6) + MacroRow(7)
  }

  /** They are the table of the standard. */
  lemma ConstantsAgree()
    ensures MacroConstants() == Constants()
  {
  }

  lemma ChooseBits(b: bv32, c: bv32, d: bv32)
    ensures d ^ (b & (c ^ d)) == (b & c) | (!b & d)
  {
  }

  lemma ChooseOtherBits(b: bv32, c: bv32, d: bv32)
    ensures c ^ (d & (b ^ c)) == (b & d) | (c & !d)
  {
  }

  lemma F1IsF(b: bv32, c: bv32, d: bv32)
    ensures F1(b, c, d) == F(b, c, d)
  {
    ChooseBits(b, c, d);
  }

  lemma F2IsG(b: bv32, c: bv32, d: bv32)
    ensures F2(b, c, d) == G(b, c, d)
  {
    ChooseOtherBits(b, c, d);
  }

  lemma StepFIsMix(i: nat, b: bv32, c: bv32, d: bv32)
    ensures StepF(i, b, c, d) == Mix(i, b, c, d)
  {
    if i < 16 {
      F1IsF(b, c, d);
    } else if i < 32 {
      F2IsG(b, c, d);
    }
  }

  lemma Rotates(x: bv32, r: nat)
    ensures Rol32(x, r) == RotL(x, r)
  {
  }

  lemma SumOrder(a: bv32, f: bv32, k: bv32, w: bv32)
    ensures AddTo(a, f, k, w) == Sum4(a, f, w, k)
  {
  }

  /** A computation from start: at(i) are the registers after i operations. */
  datatype Run = Run(table: seq<bv32>, start: Regs, w: Block, at: nat -> Regs)

  ghost predicate Follows(run: Run) {
    forall i: nat {:trigger Rounds(run.table, run.start, run.w, i)} ::
      run.at(i) == Rounds(run.table, run.start, run.w, i)
  }

  function RunFrom(table: seq<bv32>, start: Regs, w: Block): Run {
    Run(table, start, w, (i: nat) => Rounds(table, start, w, i))
  }

  lemma RunFollows(table: seq<bv32>, start: Regs, w: Block)
    ensures Follows(RunFrom(table, start, w))
  {
  }

  /** The macro's expressions are the next operation. */
  lemma NextRound(t: nat, r: Regs, k: bv32, word: bv32)
    ensures Regs(r.d, Plus(r.b, Rol32(AddTo(r.a, StepF(t, r.b, r.c, r.d), k, word), Amount(t))), r.b, r.c)
         == Round(t, k, r, word)
  {
    var f := StepF(t, r.b, r.c, r.d);
    StepFIsMix(t, r.b, r.c, r.d);
    SumOrder(r.a, f, k, word);
    Rotates(AddTo(r.a, f, k, word), Amount(t));
  }

  /** One step macro, on registers in the roles it names. */
  method Step(i: nat, a: bv32, b: bv32, c: bv32, d: bv32, k: bv32, n: nat, r: nat,
              w: Block, ghost next: nat, ghost run: Run)
    returns (a': bv32)
    requires Follows(run) && run.w == w && Regs(a, b, c, d) == run.at(i)
    requires next == i + 1 && k == K(run.table, i) && n == Index(i) && r == Amount(i)
    ensures Regs(d, a', b, c) == run.at(next)
  {
    NextRound(i, Regs(a, b, c, d), k, w[n]);
    assert Regs(a, b, c, d) == Rounds(run.table, run.start, w, i);
    assert run.at(next) == Rounds(run.table, run.start, w, next) == Round(i, k, Regs(a, b, c, d), w[n]);
    var f := StepF(i, b, c, d);
    f := AddTo(a, f, k, w[n]);
    a' := Plus(b, Rol32(f, r));
  }

  /** Four steps, after which every register has its first role again. */
  method FourSteps(i: nat, r: Regs, w: Block, table: seq<bv32>, n0: nat, n1: nat, n2: nat, n3: nat,
                   r0: nat, r1: nat, r2: nat, r3: nat, ghost run: Run)
    returns (r': Regs)
    requires Follows(run) && run.w == w && run.table == table && r == run.at(i)
    requires n0 == Index(i) && n1 == Index(i + 1) && n2 == Index(i + 2) && n3 == Index(i + 3)
    requires r0 == Amount(i) && r1 == Amount(i + 1) && r2 == Amount(i + 2) && r3 == Amount(i + 3)
    ensures r' == run.at(i + 4)
  {
    var a, b, c, d := r.a, r.b, r.c, r.d;
    a := Step(i, a, b, c, d, K(table, i), n0, r0, w, i + 1, run);
    d := Step(i + 1, d, a, b, c, K(table, i + 1), n1, r1, w, i + 2, run);
    c := Step(i + 2, c, d, a, b, K(table, i + 2), n2, r2, w, i + 3, run);
    b := Step(i + 3, b, c, d, a, K(table, i + 3), n3, r3, w, i + 4, run);
    r' := Regs(a, b, c, d);
  }

  /** Steps 0 to 15: the words and the shift counts as the source lists them. */
  method Round1(r: Regs, w: Block, table: seq<bv32>, ghost run: Run) returns (r': Regs)
    requires Follows(run) && run.w == w && run.table == table && r == run.at(0)
    ensures r' == run.at(16)
  {
    r' := FourSteps(0, r, w, table, 0, 1, 2, 3, 7, 12, 17, 22, run);
    r' := FourSteps(4, r', w, table, 4, 5, 6, 7, 7, 12, 17, 22, run);
    r' := FourSteps(8, r', w, table, 8, 9, 10, 11, 7, 12, 17, 22, run);
    r' := FourSteps(12, r', w, table, 12, 13, 14, 15, 7, 12, 17, 22, run);
  }

  /** Steps 16 to 31: the words and the shift counts as the source lists them. */
  method Round2(r: Regs, w: Block, table: seq<bv32>, ghost run: Run) returns (r': Regs)
    requires Follows(run) && run.w == w && run.table == table && r == run.at(16)
    ensures r' == run.at(32)
  {
    r' := FourSteps(16, r, w, table, 1, 6, 11, 0, 5, 9, 14, 20, run);
    r' := FourSteps(20, r', w, table, 5, 10, 15, 4, 5, 9, 14, 20, run);
    r' := FourSteps(24, r', w, table, 9, 14, 3, 8, 5, 9, 14, 20, run);
    r' := FourSteps(28, r', w, table, 13, 2, 7, 12, 5, 9, 14, 20, run);
  }

  /** Steps 32 to 47: the words and the shift counts as the source lists them. */
  method Round3(r: Regs, w: Block, table: seq<bv32>, ghost run: Run) returns (r': Regs)
    requires Follows(run) && run.w == w && run.table == table && r == run.at(32)
    ensures r' == run.at(48)
  {
    r' := FourSteps(32, r, w, table, 5, 8, 11, 14, 4, 11, 16, 23, run);
    r' := FourSteps(36, r', w, table, 1, 4, 7, 10, 4, 11, 16, 23, run);
    r' := FourSteps(40, r', w, table, 13, 0, 3, 6, 4, 11, 16, 23, run);
    r' := FourSteps(44, r', w, table, 9, 12, 15, 2, 4, 11, 16, 23, run);
  }

  /** Steps 48 to 63: the words and the shift counts as the source lists them. */
  method Round4(r: Regs, w: Block, table: seq<bv32>, ghost run: Run) returns (r': Regs)
    requires Follows(run) && run.w == w && run.table == table && r == run.at(48)
    ensures r' == run.at(64)
  {
    r' := FourSteps(48, r, w, table, 0, 7, 14, 5, 6, 10, 15, 21, run);
    r' := FourSteps(52, r', w, table, 12, 3, 10, 1, 6, 10, 15, 21, run);
    r' := FourSteps(56, r', w, table, 8, 15, 6, 13, 6, 10, 15, 21, run);
    r' := FourSteps(60, r', w, table, 4, 11, 2, 9, 6, 10, 15, 21, run);
  }

  method AllRounds(w: Block, digest: Regs, table: seq<bv32>) returns (r: Regs)
    ensures r == Rounds(table, digest, w, ROUNDS)
  {
    ghost var run := RunFrom(table, digest, w);
    RunFollows(table, digest, w);
    r := Round1(digest, w, table, run);
    r := Round2(r, w, table, run);
    r := Round3(r, w, table, run);
    r := Round4(r, w, table, run);
  }

  /** md5_single */
  method Single(w: Block, digest: Regs) returns (r: Regs)
    ensures r == Compress(digest, w)
  {
    r := AllRounds(w, digest, MacroConstants());
    ConstantsAgree();
    r := AddRegs(digest, r);
  }

  // ----- MD5 for the context manager -----

  function WordsLE(data: seq<byte>): (w: seq<bv32>)
    ensures |w| == |data| / 4
  {
    seq(|data| / 4, i requires 0 <= i < |data| / 4 => LE32(data[4 * i..4 * i + 4]))
  }

  function ToDigest(r: Regs): (d: Digest)
    ensures |d| == 4
  {
    [r.a, r.b, r.c, r.d]
  }

  function FromDigest(d: Digest): Regs
    requires |d| == 4
  {
    Regs(d[0], d[1], d[2], d[3])
  }

  function CompressBytes(d: Digest, block: seq<byte>): Digest {
    if |d| == 4 && |block| == BLOCK then ToDigest(Compress(FromDigest(d), WordsLE(block))) else d
  }

  /** The length field of RFC 1321: the least significant byte first. */
  function LengthLE(n: nat): LengthField {
    [ByteAt(n, 1), ByteAt(n, 0x100), ByteAt(n, 0x1_0000), ByteAt(n, 0x100_0000),
     ByteAt(n, 0x1_0000_0000), ByteAt(n, 0x100_0000_0000),
     ByteAt(n, 0x1_0000_0000_0000), ByteAt(n, 0x100_0000_0000_0000)]
  }

  function MD5(): HashAlgorithm {
    HashAlgorithm(ToDigest(START), CompressBytes, LengthLE)
  }

  /** md5_single on bytes is the compression function of MD5(). */
  method SingleBytes(d: Digest, block: seq<byte>) returns (d': Digest)
    requires |d| == 4 && |block| == BLOCK
    ensures |d'| == 4 && d' == MD5().compress(d, block)
  {
    var r := Single(WordsLE(block), FromDigest(d));
    d' := ToDigest(r);
  }
}
