/** The uint64_t operations that murmur3 mixes with, each paired with the operation that undoes it. */
module Word64 {

  /** The constants murmur3 multiplies by, all odd. */
  datatype Factor = Con1 | Con2 | Fmul1 | Fmul2 | Five

  /** The distances murmur3 rotates by. */
  datatype Shift = By27 | By31 | By33

  function Xor(x: bv64, y: bv64): bv64 {
    x ^ y
  }

  function Plus(x: bv64, y: bv64): bv64 {
    x + y
  }

  function Minus(x: bv64, y: bv64): bv64 {
    x - y
  }

  lemma XorBack(x: bv64, y: bv64)
    ensures Xor(Xor(x, y), y) == x && Xor(Xor(x, y), x) == y
  {
  }

  lemma XorSwap(x: bv64, y: bv64, z: bv64)
    ensures Xor(x, Xor(y, z)) == Xor(Xor(x, z), y)
  {
    assert Xor(x, y ^ z) == Xor(x ^ z, y);
  }

  lemma PlusThenMinus(x: bv64, y: bv64)
    ensures Minus(Plus(x, y), y) == x
  {
    assert Minus(x + y, y) == x;
  }

  lemma MinusThenPlus(x: bv64, y: bv64)
    ensures Plus(Minus(x, y), y) == x
  {
    assert Plus(x - y, y) == x;
  }

  lemma PlusBack(x: bv64, y: bv64)
    ensures Minus(Plus(x, y), y) == x && Plus(Minus(x, y), y) == x
  {
    PlusThenMinus(x, y);
    MinusThenPlus(x, y);
  }

  // ----- multiplication modulo 2^64 -----

  function TimesCon1(x: bv64): bv64 { x * 0x87c37b91114253d5 }

  function OverCon1(x: bv64): bv64 { x * 0xa98409e882ce4d7d }

  function TimesCon2(x: bv64): bv64 { x * 0x4cf5ad432745937f }

  function OverCon2(x: bv64): bv64 { x * 0xa81e14edd9de2c7f }

  function TimesFmul1(x: bv64): bv64 { x * 0xff51afd7ed558ccd }

  function OverFmul1(x: bv64): bv64 { x * 0x4f74430c22a54005 }

  function TimesFmul2(x: bv64): bv64 { x * 0xc4ceb9fe1a85ec53 }

  function OverFmul2(x: bv64): bv64 { x * 0x9cb4b2f8129337db }

  function TimesFive(x: bv64): bv64 { x * 5 }

  function OverFive(x: bv64): bv64 { x * 0xcccccccccccccccd }

  function Times(x: bv64, f: Factor): bv64 {
    match f
    case Con1 => TimesCon1(x)
    case Con2 => TimesCon2(x)
    case Fmul1 => TimesFmul1(x)
    case Fmul2 => TimesFmul2(x)
    case Five => TimesFive(x)
  }

  /** Multiplication by the inverse of an odd constant modulo 2^64. */
  function Over(x: bv64, f: Factor): bv64 {
    match f
    case Con1 => OverCon1(x)
    case Con2 => OverCon2(x)
    case Fmul1 => OverFmul1(x)
    case Fmul2 => OverFmul2(x)
    case Five => OverFive(x)
  }

  lemma Con1Back(x: bv64)
    ensures OverCon1(TimesCon1(x)) == x && TimesCon1(OverCon1(x)) == x
  {
    assert OverCon1(x * 0x87c37b91114253d5) == x;
    assert TimesCon1(x * 0xa98409e882ce4d7d) == x;
  }

  lemma Con2Back(x: bv64)
    ensures OverCon2(TimesCon2(x)) == x && TimesCon2(OverCon2(x)) == x
  {
    assert OverCon2(x * 0x4cf5ad432745937f) == x;
    assert TimesCon2(x * 0xa81e14edd9de2c7f) == x;
  }

  lemma Fmul1Back(x: bv64)
    ensures OverFmul1(TimesFmul1(x)) == x && TimesFmul1(OverFmul1(x)) == x
  {
    assert OverFmul1(x * 0xff51afd7ed558ccd) == x;
    assert TimesFmul1(x * 0x4f74430c22a54005) == x;
  }

  lemma Fmul2Back(x: bv64)
    ensures OverFmul2(TimesFmul2(x)) == x && TimesFmul2(OverFmul2(x)) == x
  {
    assert OverFmul2(x * 0xc4ceb9fe1a85ec53) == x;
    assert TimesFmul2(x * 0x9cb4b2f8129337db) == x;
  }

  lemma FiveBack(x: bv64)
    ensures OverFive(TimesFive(x)) == x && TimesFive(OverFive(x)) == x
  {
    assert OverFive(x * 5) == x;
    assert TimesFive(x * 0xcccccccccccccccd) == x;
  }

  lemma TimesBack(x: bv64, f: Factor)
    ensures Over(Times(x, f), f) == x && Times(Over(x, f), f) == x
  {
    match f
    case Con1 => Con1Back(x);
    case Con2 => Con2Back(x);
    case Fmul1 => Fmul1Back(x);
    case Fmul2 => Fmul2Back(x);
    case Five => FiveBack(x);
  }

  // ----- rotations and xor-shifts -----

  function Rotl27(x: bv64): bv64 { (x << 27) | (x >> 37) }

  function Rotr27(x: bv64): bv64 { (x >> 27) | (x << 37) }

  function Rotl31(x: bv64): bv64 { (x << 31) | (x >> 33) }

  function Rotr31(x: bv64): bv64 { (x >> 31) | (x << 33) }

  function Rotl33(x: bv64): bv64 { (x << 33) | (x >> 31) }

  function Rotr33(x: bv64): bv64 { (x >> 33) | (x << 31) }

  function Rotl(x: bv64, shift: Shift): bv64 {
    match shift
    case By27 => Rotl27(x)
    case By31 => Rotl31(x)
    case By33 => Rotl33(x)
  }

  function Rotr(x: bv64, shift: Shift): bv64 {
    match shift
    case By27 => Rotr27(x)
    case By31 => Rotr31(x)
    case By33 => Rotr33(x)
  }

  lemma Rotl27Back(x: bv64)
    ensures Rotr27(Rotl27(x)) == x && Rotl27(Rotr27(x)) == x
  {
    assert Rotr27((x << 27) | (x >> 37)) == x;
    assert Rotl27((x >> 27) | (x << 37)) == x;
  }

  lemma Rotl31Back(x: bv64)
    ensures Rotr31(Rotl31(x)) == x && Rotl31(Rotr31(x)) == x
  {
    assert Rotr31((x << 31) | (x >> 33)) == x;
    assert Rotl31((x >> 31) | (x << 33)) == x;
  }

  lemma Rotl33Back(x: bv64)
    ensures Rotr33(Rotl33(x)) == x && Rotl33(Rotr33(x)) == x
  {
    assert Rotr33((x << 33) | (x >> 31)) == x;
    assert Rotl33((x >> 33) | (x << 31)) == x;
  }

  lemma RotlBack(x: bv64, shift: Shift)
    ensures Rotr(Rotl(x, shift), shift) == x && Rotl(Rotr(x, shift), shift) == x
  {
    match shift
    case By27 => Rotl27Back(x);
    case By31 => Rotl31Back(x);
    case By33 => Rotl33Back(x);
  }

  /** x ^= x >> 33 undoes itself. */
  function XorShift(x: bv64): bv64 {
    x ^ (x >> 33)
  }

  lemma XorShiftBack(x: bv64)
    ensures XorShift(XorShift(x)) == x
  {
    assert XorShift(x ^ (x >> 33)) == x;
  }
}
