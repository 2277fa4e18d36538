/**
 A uint64_t as its 64 bits, most significant first.  Shifts and rotations are then slices, which
 keeps shifts by a variable amount within the solver's reach; the operators are C's.
 */
module Bits64 {

  datatype Bits = Bits(b: seq<bool>)

  type Word = x: Bits | |x.b| == 64 witness Bits(seq(64, _ => false))

  function Zero(): Word {
    Bits(seq(64, _ => false))
  }

  function Xor(x: Word, y: Word): Word {
    Bits(seq(64, i requires 0 <= i < 64 => x.b[i] != y.b[i]))
  }

  function And(x: Word, y: Word): Word {
    Bits(seq(64, i requires 0 <= i < 64 => x.b[i] && y.b[i]))
  }

  function Or(x: Word, y: Word): Word {
    Bits(seq(64, i requires 0 <= i < 64 => x.b[i] || y.b[i]))
  }

  /** x << k */
  function Shl(x: Word, k: nat): Word
    requires k <= 64
  {
    Bits(x.b[k..] + Zero().b[..k])
  }

  /** x >> k */
  function Shr(x: Word, k: nat): Word
    requires k <= 64
  {
    Bits(Zero().b[..k] + x.b[..64 - k])
  }

  function Rotate(x: Word, k: nat): Word
    requires k <= 64
  {
    Bits(x.b[k..] + x.b[..k])
  }

  /** The shift pair the library writes for a rotation. */
  lemma ShiftsRotate(x: Word, k: nat)
    requires k <= 64
    ensures Or(Shl(x, k), Shr(x, 64 - k)) == Rotate(x, k)
  {
    var l, r := Or(Shl(x, k), Shr(x, 64 - k)).b, Rotate(x, k).b;
    forall i | 0 <= i < 64
      ensures l[i] == r[i]
    {
      if i < 64 - k {
        assert Shl(x, k).b[i] == x.b[i + k] == r[i] && !Shr(x, 64 - k).b[i];
      } else {
        assert !Shl(x, k).b[i] && Shr(x, 64 - k).b[i] == x.b[i - (64 - k)] == r[i];
      }
    }
    assert l == r;
  }

  lemma RotateNothing(x: Word)
    ensures Rotate(x, 0) == x
  {
    assert Rotate(x, 0).b == x.b;
  }

  lemma RotateStep(x: Word, k: nat)
    requires k < 64
    ensures Rotate(Rotate(x, k), 1) == Rotate(x, k + 1)
  {
    assert Rotate(Rotate(x, k), 1).b == Rotate(x, k + 1).b;
  }

  lemma RotateXor(x: Word, y: Word, k: nat)
    requires k <= 64
    ensures Rotate(Xor(x, y), k) == Xor(Rotate(x, k), Rotate(y, k))
  {
    assert Rotate(Xor(x, y), k).b == Xor(Rotate(x, k), Rotate(y, k)).b;
  }

  lemma XorZero(x: Word)
    ensures Xor(x, Zero()) == x == Xor(Zero(), x)
  {
    assert Xor(x, Zero()).b == x.b == Xor(Zero(), x).b;
  }

  lemma XorAssoc(x: Word, y: Word, z: Word)
    ensures Xor(Xor(x, y), z) == Xor(x, Xor(y, z))
  {
    assert Xor(Xor(x, y), z).b == Xor(x, Xor(y, z)).b;
  }

  /** Xor with the same word on both sides removes it. */
  lemma XorCancel(x: Word, y: Word, z: Word)
    ensures Xor(Xor(x, y), Xor(z, x)) == Xor(y, z)
  {
    assert Xor(Xor(x, y), Xor(z, x)).b == Xor(y, z).b;
  }

  /** The bits of x that mask selects are those of value, and value has no other bits. */
  predicate Meets(x: Word, mask: Word, value: Word) {
    forall i :: 0 <= i < 64 ==> value.b[i] == (x.b[i] && mask.b[i])
  }

  /** (x & mask) == value */
  method MaskedEquals(x: Word, mask: Word, value: Word) returns (eq: bool)
    ensures eq <==> Meets(x, mask, value)
  {
    eq := And(x, mask) == value;
    if Meets(x, mask, value) {
      assert And(x, mask).b == value.b;
    }
  }
}
