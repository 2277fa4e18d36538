/**
 SHA-1: the standard's definition (FIPS 180-4 section 6.1.2), and the library's form with a
 circular 16-word schedule and registers that change roles instead of moving (section 6.1.3).
 */
module Sha1 {
  import opened CircularBuffer

  datatype Regs = Regs(a: bv32, b: bv32, c: bv32, d: bv32, e: bv32)

  type Block = m: seq<bv32> | |m| == 16 witness seq(16, _ => 0 as bv32)

  // ----- FIPS 180-4 -----

  function RotL1(x: bv32): bv32 { (x << 1) | (x >> 31) }

  function RotL5(x: bv32): bv32 { (x << 5) | (x >> 27) }

  function RotL30(x: bv32): bv32 { (x << 30) | (x >> 2) }

  function Ch(x: bv32, y: bv32, z: bv32): bv32 { (x & y) ^ (!x & z) }

  function Parity(x: bv32, y: bv32, z: bv32): bv32 { x ^ y ^ z }

  function Maj(x: bv32, y: bv32, z: bv32): bv32 { (x & y) ^ (x & z) ^ (y & z) }

  /** Section 4.1.1 */
  function F(t: nat, x: bv32, y: bv32, z: bv32): bv32 {
    if t < 20 then Ch(x, y, z) else if t < 40 then Parity(x, y, z) else if t < 60 then Maj(x, y, z) else Parity(x, y, z)
  }

  /** Section 4.2.1 */
  function K(t: nat): bv32 {
    if t < 20 then 0x5a827999 else if t < 40 then 0x6ed9eba1 else if t < 60 then 0x8f1bbcdc else 0xca62c1d6
  }

  function Mix(w3: bv32, w8: bv32, w14: bv32, w16: bv32): bv32 { RotL1(w3 ^ w8 ^ w14 ^ w16) }

  /** The message schedule. */
  function Schedule(m: Block, t: nat): bv32 {
    if t < 16 then m[t]
    else Mix(Schedule(m, t - 3), Schedule(m, t - 8), Schedule(m, t - 14), Schedule(m, t - 16))
  }

  function Sum(rotated: bv32, f: bv32, e: bv32, k: bv32, w: bv32): bv32 { rotated + f + e + k + w }

  function Round(t: nat, r: Regs, w: bv32): Regs {
    Regs(Sum(RotL5(r.a), F(t, r.b, r.c, r.d), r.e, K(t), w), r.a, RotL30(r.b), r.c, r.d)
  }

  function Rounds(h: Regs, m: Block, t: nat): Regs {
    if t == 0 then h else Round(t - 1, Rounds(h, m, t - 1), Schedule(m, t - 1))
  }

  function Plus(x: bv32, y: bv32): bv32 { x + y }

  function AddRegs(h: Regs, r: Regs): Regs {
    Regs(Plus(h.a, r.a), Plus(h.b, r.b), Plus(h.c, r.c), Plus(h.d, r.d), Plus(h.e, r.e))
  }

  /** One block into the hash value. */
  function Compress(h: Regs, m: Block): Regs {
    AddRegs(h, Rounds(h, m, ROUNDS))
  }

  const ROUNDS: nat := 80

  const H0 := Regs(0x67452301, 0xefcdab89, 0x98badcfe, 0x10325476, 0xc3d2e1f0)

  // ----- the library's operators -----

  function Rol1(x: bv32): bv32 { (x << 1) ^ (x >> 31) }

  function LowerMix(w3: bv32, w8: bv32, w14: bv32, w16: bv32): bv32 { Rol1(w3 ^ w8 ^ w14 ^ w16) }

  function Rol5(x: bv32): bv32 { (x << 5) ^ (x >> 27) }

  function Rol30(x: bv32): bv32 { (x << 30) ^ (x >> 2) }

  function F1(b: bv32, c: bv32, d: bv32): bv32 { d ^ (b & (c ^ d)) }

  function F2(b: bv32, c: bv32, d: bv32): bv32 { b ^ c ^ d }

  function F3(b: bv32, c: bv32, d: bv32): bv32 { (b & c) | (d & (b | c)) }

  function F4(b: bv32, c: bv32, d: bv32): bv32 { b ^ c ^ d }

  /** The function and the constant of the macros update_e_1 to update_e_4. */
  function StepF(i: nat, b: bv32, c: bv32, d: bv32): bv32 {
    if i < 20 then F1(b, c, d) else if i < 40 then F2(b, c, d) else if i < 60 then F3(b, c, d) else F4(b, c, d)
  }

  function StepK(i: nat): bv32 {
    if i < 20 then 0x5a827999 else if i < 40 then 0x6ed9eba1 else if i < 60 then 0x8f1bbcdc else 0xca62c1d6
  }

  function AddTo(rotated: bv32, f: bv32, e: bv32, k: bv32, w: bv32): bv32 { e + (rotated + f + k + w) }

  /** The new value of the register that has the role of e. */
  function NewE(i: nat, a: bv32, b: bv32, c: bv32, d: bv32, e: bv32, w: bv32): bv32 {
    AddTo(Rol5(a), StepF(i, b, c, d), e, StepK(i), w)
  }

  lemma Rotations(x: bv32)
    ensures Rol1(x) == RotL1(x) && Rol5(x) == RotL5(x) && Rol30(x) == RotL30(x)
  {
  }

  lemma ChooseBits(b: bv32, c: bv32, d: bv32)
    ensures d ^ (b & (c ^ d)) == (b & c) ^ (!b & d)
  {
  }

  lemma MajorityBits(b: bv32, c: bv32, d: bv32)
    ensures (b & c) | (d & (b | c)) == (b & c) ^ (b & d) ^ (c & d)
  {
  }

  lemma F1IsCh(b: bv32, c: bv32, d: bv32)
    ensures F1(b, c, d) == Ch(b, c, d)
  {
    ChooseBits(b, c, d);
  }

  lemma F3IsMaj(b: bv32, c: bv32, d: bv32)
    ensures F3(b, c, d) == Maj(b, c, d)
  {
    MajorityBits(b, c, d);
  }

  lemma StepFIsF(i: nat, b: bv32, c: bv32, d: bv32)
    ensures StepF(i, b, c, d) == F(i, b, c, d)
  {
    if i < 20 {
      F1IsCh(b, c, d);
    } else if 40 <= i < 60 {
      F3IsMaj(b, c, d);
    }
  }

  lemma SumOrder(r: bv32, f: bv32, e: bv32, k: bv32, w: bv32)
    ensures AddTo(r, f, e, k, w) == Sum(r, f, e, k, w)
  {
  }

  /** One step with the registers in new roles is one round. */
  lemma StepIsRound(i: nat, a: bv32, b: bv32, c: bv32, d: bv32, e: bv32, w: bv32)
    ensures Regs(NewE(i, a, b, c, d, e, w), a, Rol30(b), c, d) == Round(i, Regs(a, b, c, d, e), w)
  {
    Rotations(a);
    Rotations(b);
    StepFIsF(i, b, c, d);
    SumOrder(RotL5(a), F(i, b, c, d), e, K(i), w);
  }

  // ----- the circular schedule -----

  function ScheduleOf(m: Block): nat -> bv32 {
    (t: nat) => Schedule(m, t)
  }

  ghost predicate Circular(w: seq<bv32>, m: Block, n: nat)
    requires |w| == 16
  {
    Holds(w, ScheduleOf(m), n)
  }

  /** The schedule word a step computes from the buffer. */
  function NextWord(w: seq<bv32>, m: Block, i: nat): bv32
    requires |w| == 16
  {
    if i < 16 then m[i] else LowerMix(w[(i - 3) % 16], w[(i - 8) % 16], w[(i - 14) % 16], w[(i - 16) % 16])
  }

  lemma MixAgrees(w3: bv32, w8: bv32, w14: bv32, w16: bv32)
    ensures LowerMix(w3, w8, w14, w16) == Mix(w3, w8, w14, w16)
  {
    Rotations(w3 ^ w8 ^ w14 ^ w16);
  }

  lemma Recurrence(m: Block, i: nat)
    requires i >= 16
    ensures Schedule(m, i) == Mix(Schedule(m, i - 3), Schedule(m, i - 8), Schedule(m, i - 14), Schedule(m, i - 16))
  {
  }

  lemma MixOfSlots(w: seq<bv32>, m: Block, i: nat)
    requires |w| == 16 && i >= 16 && Circular(w, m, i)
    ensures Mix(w[(i - 3) % 16], w[(i - 8) % 16], w[(i - 14) % 16], w[(i - 16) % 16])
         == Mix(Schedule(m, i - 3), Schedule(m, i - 8), Schedule(m, i - 14), Schedule(m, i - 16))
  {
    GetFour(w, ScheduleOf(m), i, Mix, i - 3, i - 8, i - 14, i - 16);
  }

  lemma WordFrom(w: seq<bv32>, m: Block, i: nat, next: bv32)
    requires |w| == 16 && i >= 16 && Circular(w, m, i)
    requires next == Mix(Schedule(m, i - 3), Schedule(m, i - 8), Schedule(m, i - 14), Schedule(m, i - 16))
    ensures NextWord(w, m, i) == next
  {
    MixOfSlots(w, m, i);
    MixAgrees(w[(i - 3) % 16], w[(i - 8) % 16], w[(i - 14) % 16], w[(i - 16) % 16]);
  }

  /** The word a step computes is the next word of the schedule. */
  lemma WordIsNext(w: seq<bv32>, m: Block, i: nat)
    requires |w| == 16 && Circular(w, m, i)
    ensures NextWord(w, m, i) == Schedule(m, i)
  {
    if i >= 16 {
      Recurrence(m, i);
      WordFrom(w, m, i, Schedule(m, i));
    }
  }

  lemma CircularStep(w: seq<bv32>, m: Block, i: nat)
    requires |w| == 16 && Circular(w, m, i)
    ensures NextWord(w, m, i) == Schedule(m, i)
    ensures Circular(w[i % 16 := Schedule(m, i)], m, i + 1)
  {
    WordIsNext(w, m, i);
    Put(w, ScheduleOf(m), i);
  }

  lemma NextRound(h: Regs, m: Block, i: nat, a: bv32, b: bv32, c: bv32, d: bv32, e: bv32)
    requires Regs(a, b, c, d, e) == Rounds(h, m, i)
    ensures Regs(NewE(i, a, b, c, d, e, Schedule(m, i)), a, Rol30(b), c, d) == Rounds(h, m, i + 1)
  {
    StepIsRound(i, a, b, c, d, e, Schedule(m, i));
  }

  // ----- one block, as sha1_single_for_mh_sha1 and its copy in the reference do it -----

  /** One step macro: the schedule word, then the registers in the roles of e and b. */
  method Step(i: nat, a: bv32, b: bv32, c: bv32, d: bv32, e: bv32, w: array<bv32>, ww: Block, ghost h: Regs)
    returns (b': bv32, e': bv32)
    requires w.Length == 16 && Circular(w[..], ww, i)
    requires Regs(a, b, c, d, e) == Rounds(h, ww, i)
    modifies w
    ensures Circular(w[..], ww, i + 1)
    ensures Regs(e', a, b', c, d) == Rounds(h, ww, i + 1)
  {
    CircularStep(w[..], ww, i);
    NextRound(h, ww, i, a, b, c, d, e);
    w[i % 16] := NextWord(w[..], ww, i);
    e' := NewE(i, a, b, c, d, e, w[i % 16]);
    b' := Rol30(b);
  }

  /** Five steps, after which every register has its first role again. */
  method FiveSteps(i: nat, r: Regs, w: array<bv32>, ww: Block, ghost h: Regs) returns (i': nat, r': Regs)
    requires w.Length == 16 && Circular(w[..], ww, i) && r == Rounds(h, ww, i)
    modifies w
    ensures i' == i + 5 && Circular(w[..], ww, i') && r' == Rounds(h, ww, i')
  {
    var a, b, c, d, e := r.a, r.b, r.c, r.d, r.e;
    b, e := Step(i, a, b, c, d, e, w, ww, h);
    a, d := Step(i + 1, e, a, b, c, d, w, ww, h);
    e, c := Step(i + 2, d, e, a, b, c, w, ww, h);
    d, b := Step(i + 3, c, d, e, a, b, w, ww, h);
    c, a := Step(i + 4, b, c, d, e, a, w, ww, h);
    i', r' := i + 5, Regs(a, b, c, d, e);
  }

  /** The eighty steps of the source, sixteen groups of five, and the final addition. */
  method Single(ww: Block, digest: Regs) returns (r: Regs)
    ensures r == Compress(digest, ww)
  {
    var w := new bv32[16];
    var i := 0;
    i, r := FiveSteps(i, digest, w, ww, digest);
    i, r := FiveSteps(i, r, w, ww, digest);
    i, r := FiveSteps(i, r, w, ww, digest);
    i, r := FiveSteps(i, r, w, ww, digest);
    i, r := FiveSteps(i, r, w, ww, digest);
    i, r := FiveSteps(i, r, w, ww, digest);
    i, r := FiveSteps(i, r, w, ww, digest);
    i, r := FiveSteps(i, r, w, ww, digest);
    i, r := FiveSteps(i, r, w, ww, digest);
    i, r := FiveSteps(i, r, w, ww, digest);
    i, r := FiveSteps(i, r, w, ww, digest);
    i, r := FiveSteps(i, r, w, ww, digest);
    i, r := FiveSteps(i, r, w, ww, digest);
    i, r := FiveSteps(i, r, w, ww, digest);
    i, r := FiveSteps(i, r, w, ww, digest);
    i, r := FiveSteps(i, r, w, ww, digest);
    r := AddRegs(digest, r);
  }
}
