/**
 SHA-256: the standard's definition (FIPS 180-4 section 6.2.2), and the library's form with a
 circular 16-word schedule and registers that change roles instead of moving.
 */
module Sha256 {
  import opened CircularBuffer

  datatype Regs = Regs(a: bv32, b: bv32, c: bv32, d: bv32, e: bv32, f: bv32, g: bv32, h: bv32)

  type Block = m: seq<bv32> | |m| == 16 witness seq(16, _ => 0 as bv32)

  // ----- FIPS 180-4 -----

  function Ch(x: bv32, y: bv32, z: bv32): bv32 { (x & y) ^ (!x & z) }

  function Maj(x: bv32, y: bv32, z: bv32): bv32 { (x & y) ^ (x & z) ^ (y & z) }

  /** Section 4.1.2: the four functions of one word. */
  function BigSigma0(x: bv32): bv32 { x.RotateRight(2) ^ x.RotateRight(13) ^ x.RotateRight(22) }

  function BigSigma1(x: bv32): bv32 { x.RotateRight(6) ^ x.RotateRight(11) ^ x.RotateRight(25) }

  function SmallSigma0(x: bv32): bv32 { x.RotateRight(7) ^ x.RotateRight(18) ^ (x >> 3) }

  function SmallSigma1(x: bv32): bv32 { x.RotateRight(17) ^ x.RotateRight(19) ^ (x >> 10) }

  const ROUNDS: nat := 64

  /** Section 4.2.2, in rows of eight. */
  function TableRow(i: nat): (k: seq<bv32>)
    ensures |k| == 8
  {
    if i == 0 then [0x428a2f98, 0x71374491, 0xb5c0fbcf, 0xe9b5dba5, 0x3956c25b, 0x59f111f1, 0x923f82a4, 0xab1c5ed5]
    else if i == 1 then [0xd807aa98, 0x12835b01, 0x243185be, 0x550c7dc3, 0x72be5d74, 0x80deb1fe, 0x9bdc06a7, 0xc19bf174]
    else if i == 2 then [0xe49b69c1, 0xefbe4786, 0x0fc19dc6, 0x240ca1cc, 0x2de92c6f, 0x4a7484aa, 0x5cb0a9dc, 0x76f988da]
    else if i == 3 then [0x983e5152, 0xa831c66d, 0xb00327c8, 0xbf597fc7, 0xc6e00bf3, 0xd5a79147, 0x06ca6351, 0x14292967]
    else if i == 4 then [0x27b70a85, 0x2e1b2138, 0x4d2c6dfc, 0x53380d13, 0x650a7354, 0x766a0abb, 0x81c2c92e, 0x92722c85]
    else if i == 5 then [0xa2bfe8a1, 0xa81a664b, 0xc24b8b70, 0xc76c51a3, 0xd192e819, 0xd6990624, 0xf40e3585, 0x106aa070]
    else if i == 6 then [0x19a4c116, 0x1e376c08, 0x2748774c, 0x34b0bcb5, 0x391c0cb3, 0x4ed8aa4a, 0x5b9cca4f, 0x682e6ff3]
    else [0x748f82ee, 0x78a5636f, 0x84c87814, 0x8cc70208, 0x90befffa, 0xa4506ceb, 0xbef9a3f7, 0xc67178f2]
  }

  function Constants(): seq<bv32> {
    TableRow(0) + TableRow(1) + TableRow(2) + TableRow(3) + TableRow(4) + TableRow(5) + TableRow(6) + TableRow(7)
  }

  function K(table: seq<bv32>, t: nat): bv32 {
    if t < |table| then table[t] else 0
  }

  function Sum4(w: bv32, x: bv32, y: bv32, z: bv32): bv32 { w + x + y + z }

  function Mix(w2: bv32, w7: bv32, w15: bv32, w16: bv32): bv32 { Sum4(SmallSigma1(w2), w7, SmallSigma0(w15), w16) }

  /** The message schedule. */
  function Schedule(m: Block, t: nat): bv32 {
    if t < 16 then m[t]
    else Mix(Schedule(m, t - 2), Schedule(m, t - 7), Schedule(m, t - 15), Schedule(m, t - 16))
  }

  function Plus(x: bv32, y: bv32): bv32 { x + y }

  function Sum5(h: bv32, s: bv32, c: bv32, k: bv32, w: bv32): bv32 { h + s + c + k + w }

  function T1(k: bv32, r: Regs, w: bv32): bv32 {
    Sum5(r.h, BigSigma1(r.e), Ch(r.e, r.f, r.g), k, w)
  }

  function T2(r: Regs): bv32 {
    Plus(BigSigma0(r.a), Maj(r.a, r.b, r.c))
  }

  function Round(k: bv32, r: Regs, w: bv32): Regs {
    Regs(Plus(T1(k, r, w), T2(r)), r.a, r.b, r.c, Plus(r.d, T1(k, r, w)), r.e, r.f, r.g)
  }

  /** The first t rounds, with the constants of a table. */
  function Rounds(table: seq<bv32>, h: Regs, m: Block, t: nat): Regs {
    if t == 0 then h else Round(K(table, t - 1), Rounds(table, h, m, t - 1), Schedule(m, t - 1))
  }

  function AddRegs(h: Regs, r: Regs): Regs {
    Regs(Plus(h.a, r.a), Plus(h.b, r.b), Plus(h.c, r.c), Plus(h.d, r.d),
         Plus(h.e, r.e), Plus(h.f, r.f), Plus(h.g, r.g), Plus(h.h, r.h))
  }

  /** One block into the hash value. */
  function Compress(h: Regs, m: Block): Regs {
    AddRegs(h, Rounds(Constants(), h, m, ROUNDS))
  }

  /** Section 5.3.3 */
  const H0 := Regs(0x6a09e667, 0xbb67ae85, 0x3c6ef372, 0xa54ff53a, 0x510e527f, 0x9b05688c, 0x1f83d9ab, 0x5be0cd19)

  // ----- the library's operators -----

  function S0(w: bv32): bv32 { ((w >> 7) ^ (w << 25)) ^ ((w >> 18) ^ (w << 14)) ^ (w >> 3) }

  function S1(w: bv32): bv32 { ((w >> 17) ^ (w << 15)) ^ ((w >> 19) ^ (w << 13)) ^ (w >> 10) }

  function LowerS0(a: bv32): bv32 { ((a >> 2) ^ (a << 30)) ^ ((a >> 13) ^ (a << 19)) ^ ((a >> 22) ^ (a << 10)) }

  function LowerS1(e: bv32): bv32 { ((e >> 6) ^ (e << 26)) ^ ((e >> 11) ^ (e << 21)) ^ ((e >> 25) ^ (e << 7)) }

  function LowerCh(e: bv32, f: bv32, g: bv32): bv32 { (e & f) ^ (g & !e) }

  function LowerMaj(a: bv32, b: bv32, c: bv32): bv32 { (a & b) ^ (a & c) ^ (b & c) }

  function WordSum(w16: bv32, s0: bv32, w7: bv32, s1: bv32): bv32 { w16 + s0 + w7 + s1 }

  function LowerMix(w2: bv32, w7: bv32, w15: bv32, w16: bv32): bv32 { WordSum(w16, S0(w15), w7, S1(w2)) }

  /** The values the step leaves in t1 and t2. */
  function StepT1(k: bv32, e: bv32, f: bv32, g: bv32, h: bv32, w: bv32): bv32 {
    Sum5(h, LowerS1(e), LowerCh(e, f, g), k, w)
  }

  function StepT2(a: bv32, b: bv32, c: bv32): bv32 {
    Plus(LowerS0(a), LowerMaj(a, b, c))
  }

  /** The constants in the step macros, in order. */
  function MacroRow(i: nat): (k: seq<bv32>)
    ensures |k| == 8
  {
    if i == 0 then [0x428a2f98, 0x71374491, 0xb5c0fbcf, 0xe9b5dba5, 0x3956c25b, 0x59f111f1, 0x923f82a4, 0xab1c5ed5]
    else if i == 1 then [0xd807aa98, 0x12835b01, 0x243185be, 0x550c7dc3, 0x72be5d74, 0x80deb1fe, 0x9bdc06a7, 0xc19bf174]
    else if i == 2 then [0xe49b69c1, 0xefbe4786, 0x0fc19dc6, 0x240ca1cc, 0x2de92c6f, 0x4a7484aa, 0x5cb0a9dc, 0x76f988da]
    else if i == 3 then [0x983e5152, 0xa831c66d, 0xb00327c8, 0xbf597fc7, 0xc6e00bf3, 0xd5a79147, 0x06ca6351, 0x14292967]
    else if i == 4 then [0x27b70a85, 0x2e1b2138, 0x4d2c6dfc, 0x53380d13, 0x650a7354, 0x766a0abb, 0x81c2c92e, 0x92722c85]
    else if i == 5 then [0xa2bfe8a1, 0xa81a664b, 0xc24b8b70, 0xc76c51a3, 0xd192e819, 0xd6990624, 0xf40e3585, 0x106aa070]
    else if i == 6 then [0x19a4c116, 0x1e376c08, 0x2748774c, 0x34b0bcb5, 0x391c0cb3, 0x4ed8aa4a, 0x5b9cca4f, 0x682e6ff3]
    else [0x748f82ee, 0x78a5636f, 0x84c87814, 0x8cc70208, 0x90befffa, 0xa4506ceb, 0xbef9a3f7, 0xc67178f2]
  }

  function MacroConstants(): seq<bv32> {
    MacroRow(0) + MacroRow(1) + MacroRow(2) + MacroRow(3) + MacroRow(4) + MacroRow(5) + MacroRow(6) + MacroRow(7)
  }

  /** They are the table of the standard. */
  lemma ConstantsAgree()
    ensures MacroConstants() == Constants()
  {
  }

  lemma SmallSigmas(w: bv32)
    ensures S0(w) == SmallSigma0(w) && S1(w) == SmallSigma1(w)
  {
  }

  lemma BigSigmas(x: bv32)
    ensures LowerS0(x) == BigSigma0(x) && LowerS1(x) == BigSigma1(x)
  {
  }

  lemma ChBits(e: bv32, f: bv32, g: bv32)
    ensures LowerCh(e, f, g) == Ch(e, f, g)
  {
  }

  /** The macro maj is the majority of each bit. */
  lemma MajBits(x: bv32, y: bv32, z: bv32)
    ensures LowerMaj(x, y, z) == Maj(x, y, z) == (x & y) | (x & z) | (y & z)
  {
  }

  lemma WordSumOrder(w16: bv32, s0: bv32, w7: bv32, s1: bv32)
    ensures WordSum(w16, s0, w7, s1) == Sum4(s1, w7, s0, w16)
  {
  }

  lemma StepTerms(k: bv32, r: Regs, w: bv32)
    ensures StepT1(k, r.e, r.f, r.g, r.h, w) == T1(k, r, w)
    ensures StepT2(r.a, r.b, r.c) == T2(r)
  {
    BigSigmas(r.e);
    BigSigmas(r.a);
    ChBits(r.e, r.f, r.g);
    MajBits(r.a, r.b, r.c);
  }

  // ----- the circular schedule -----

  function ScheduleOf(m: Block): nat -> bv32 {
    (t: nat) => Schedule(m, t)
  }

  ghost predicate Circular(w: seq<bv32>, m: Block, n: nat)
    requires |w| == 16
  {
    Holds(w, ScheduleOf(m), n)
  }

  /** The schedule word a step computes from the buffer. */
  function NextWord(w: seq<bv32>, m: Block, i: nat): bv32
    requires |w| == 16
  {
    if i < 16 then m[i] else LowerMix(w[(i - 2) % 16], w[(i - 7) % 16], w[(i - 15) % 16], w[(i - 16) % 16])
  }

  lemma MixAgrees(w2: bv32, w7: bv32, w15: bv32, w16: bv32)
    ensures LowerMix(w2, w7, w15, w16) == Mix(w2, w7, w15, w16)
  {
    SmallSigmas(w15);
    SmallSigmas(w2);
    WordSumOrder(w16, SmallSigma0(w15), w7, SmallSigma1(w2));
  }

  lemma Recurrence(m: Block, i: nat)
    requires i >= 16
    ensures Schedule(m, i) == Mix(Schedule(m, i - 2), Schedule(m, i - 7), Schedule(m, i - 15), Schedule(m, i - 16))
  {
  }

  lemma MixOfSlots(w: seq<bv32>, m: Block, i: nat)
    requires |w| == 16 && i >= 16 && Circular(w, m, i)
    ensures Mix(w[(i - 2) % 16], w[(i - 7) % 16], w[(i - 15) % 16], w[(i - 16) % 16])
         == Mix(Schedule(m, i - 2), Schedule(m, i - 7), Schedule(m, i - 15), Schedule(m, i - 16))
  {
    GetFour(w, ScheduleOf(m), i, Mix, i - 2, i - 7, i - 15, i - 16);
  }

  lemma WordFrom(w: seq<bv32>, m: Block, i: nat, next: bv32)
    requires |w| == 16 && i >= 16 && Circular(w, m, i)
    requires next == Mix(Schedule(m, i - 2), Schedule(m, i - 7), Schedule(m, i - 15), Schedule(m, i - 16))
    ensures NextWord(w, m, i) == next
  {
    MixOfSlots(w, m, i);
    MixAgrees(w[(i - 2) % 16], w[(i - 7) % 16], w[(i - 15) % 16], w[(i - 16) % 16]);
  }

  /** The word a step computes is the next word of the schedule. */
  lemma WordIsNext(w: seq<bv32>, m: Block, i: nat)
    requires |w| == 16 && Circular(w, m, i)
    ensures NextWord(w, m, i) == Schedule(m, i)
  {
    if i >= 16 {
      Recurrence(m, i);
      WordFrom(w, m, i, Schedule(m, i));
    }
  }

  lemma CircularStep(w: seq<bv32>, m: Block, i: nat)
    requires |w| == 16 && Circular(w, m, i)
    ensures NextWord(w, m, i) == Schedule(m, i)
    ensures Circular(w[i % 16 := Schedule(m, i)], m, i + 1)
  {
    WordIsNext(w, m, i);
    Put(w, ScheduleOf(m), i);
  }

  /** The registers after a step, in their new roles. */
  function Stepped(k: bv32, r: Regs, w: bv32): Regs {
    var t1 := StepT1(k, r.e, r.f, r.g, r.h, w);
    Regs(Plus(t1, StepT2(r.a, r.b, r.c)), r.a, r.b, r.c, Plus(r.d, t1), r.e, r.f, r.g)
  }

  lemma NextRound(table: seq<bv32>, h: Regs, m: Block, i: nat, r: Regs)
    requires r == Rounds(table, h, m, i)
    ensures Stepped(K(table, i), r, Schedule(m, i)) == Rounds(table, h, m, i + 1)
  {
    StepTerms(K(table, i), r, Schedule(m, i));
  }

  // ----- one block, as sha256_single_for_mh_sha256 and its copy in the reference do it -----

  /** One step macro: the schedule word, t2, t1, then the registers in the roles of d and h. */
  method Step(i: nat, a: bv32, b: bv32, c: bv32, d: bv32, e: bv32, f: bv32, g: bv32, h: bv32,
              k: bv32, w: array<bv32>, ww: Block, ghost start: Regs, ghost table: seq<bv32>)
    returns (d': bv32, h': bv32)
    requires w.Length == 16 && Circular(w[..], ww, i) && k == K(table, i)
    requires Regs(a, b, c, d, e, f, g, h) == Rounds(table, start, ww, i)
    modifies w
    ensures Circular(w[..], ww, i + 1)
    ensures Regs(h', a, b, c, d', e, f, g) == Rounds(table, start, ww, i + 1)
  {
    CircularStep(w[..], ww, i);
    NextRound(table, start, ww, i, Regs(a, b, c, d, e, f, g, h));
    w[i % 16] := NextWord(w[..], ww, i);
    var t2 := StepT2(a, b, c);
    var t1 := StepT1(k, e, f, g, h, w[i % 16]);
    d' := Plus(d, t1);
    h' := Plus(t1, t2);
  }

  /** Eight steps, after which every register has its first role again. */
  method EightSteps(i: nat, r: Regs, w: array<bv32>, ww: Block, table: seq<bv32>, ghost start: Regs)
    returns (i': nat, r': Regs)
    requires w.Length == 16 && Circular(w[..], ww, i) && r == Rounds(table, start, ww, i)
    modifies w
    ensures i' == i + 8 && Circular(w[..], ww, i') && r' == Rounds(table, start, ww, i')
  {
    var a, b, c, d, e, f, g, h := r.a, r.b, r.c, r.d, r.e, r.f, r.g, r.h;
    d, h := Step(i, a, b, c, d, e, f, g, h, K(table, i), w, ww, start, table);
    c, g := Step(i + 1, h, a, b, c, d, e, f, g, K(table, i + 1), w, ww, start, table);
    b, f := Step(i + 2, g, h, a, b, c, d, e, f, K(table, i + 2), w, ww, start, table);
    a, e := Step(i + 3, f, g, h, a, b, c, d, e, K(table, i + 3), w, ww, start, table);
    h, d := Step(i + 4, e, f, g, h, a, b, c, d, K(table, i + 4), w, ww, start, table);
    g, c := Step(i + 5, d, e, f, g, h, a, b, c, K(table, i + 5), w, ww, start, table);
    f, b := Step(i + 6, c, d, e, f, g, h, a, b, K(table, i + 6), w, ww, start, table);
    e, a := Step(i + 7, b, c, d, e, f, g, h, a, K(table, i + 7), w, ww, start, table);
    i', r' := i + 8, Regs(a, b, c, d, e, f, g, h);
  }

  /** The sixty-four steps of the source, eight groups of eight, and the final addition. */
  method Single(ww: Block, digest: Regs) returns (r: Regs)
    ensures r == Compress(digest, ww)
  {
    ConstantsAgree();
    var w := new bv32[16];
    var i := 0;
    i, r := EightSteps(i, digest, w, ww, MacroConstants(), digest);
    i, r := EightSteps(i, r, w, ww, MacroConstants(), digest);
    i, r := EightSteps(i, r, w, ww, MacroConstants(), digest);
    i, r := EightSteps(i, r, w, ww, MacroConstants(), digest);
    i, r := EightSteps(i, r, w, ww, MacroConstants(), digest);
    i, r := EightSteps(i, r, w, ww, MacroConstants(), digest);
    i, r := EightSteps(i, r, w, ww, MacroConstants(), digest);
    i, r := EightSteps(i, r, w, ww, MacroConstants(), digest);
    r := AddRegs(digest, r);
  }
}
