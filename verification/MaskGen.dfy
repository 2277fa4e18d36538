/**
 The mask for a mean chunk length (rolling_hashx_base.c).  A uint32_t is its bits, least significant
 first, so that subtraction is a borrow and rotation a cut.
 */
module MaskGen {

  type Word32 = b: seq<bool> | |b| == 32 witness seq(32, _ => false)

  function Pow2(n: nat): (p: nat)
    ensures p > 0
  {
    if n == 0 then 1 else 2 * Pow2(n - 1)
  }

  function Bit(b: bool): nat {
    if b then 1 else 0
  }

  function Value(b: seq<bool>): nat {
    if b == [] then 0 else Bit(b[0]) + 2 * Value(b[1..])
  }

  /** How many bits are set. */
  function Count(b: seq<bool>): nat {
    if b == [] then 0 else Bit(b[0]) + Count(b[1..])
  }

  /** The low bits of a number. */
  function BitsOf(n: nat, width: nat): (b: seq<bool>)
    ensures |b| == width
  {
    if width == 0 then [] else [n % 2 == 1] + BitsOf(n / 2, width - 1)
  }

  /** x - 1, modulo 2 to the number of bits: borrow from the lowest set bit. */
  function Dec(b: seq<bool>): (d: seq<bool>)
    ensures |d| == |b|
  {
    if b == [] then [] else if b[0] then [false] + b[1..] else [true] + Dec(b[1..])
  }

  function And(x: seq<bool>, y: seq<bool>): (z: seq<bool>)
    requires |x| == |y|
    ensures |z| == |x|
  {
    seq(|x|, i requires 0 <= i < |x| => x[i] && y[i])
  }

  function Or(x: seq<bool>, y: seq<bool>): (z: seq<bool>)
    requires |x| == |y|
    ensures |z| == |x|
  {
    seq(|x|, i requires 0 <= i < |x| => x[i] || y[i])
  }

  function Zeros(n: nat): (z: seq<bool>)
    ensures |z| == n
  {
    seq(n, _ => false)
  }

  /** x << i */
  function Shl(x: Word32, i: nat): Word32
    requires i <= 32
  {
    Zeros(i) + x[..32 - i]
  }

  /** x >> i */
  function Shr(x: Word32, i: nat): Word32
    requires i <= 32
  {
    x[i..] + Zeros(i)
  }

  lemma {:induction false} CountBounds(b: seq<bool>)
    ensures Count(b) == 0 <==> Value(b) == 0
  {
    if b != [] {
      CountBounds(b[1..]);
    }
  }

  lemma {:induction false} ValueOfBits(n: nat, width: nat)
    requires n < Pow2(width)
    ensures Value(BitsOf(n, width)) == n
  {
    if width > 0 {
      ValueOfBits(n / 2, width - 1);
      assert BitsOf(n, width)[1..] == BitsOf(n / 2, width - 1);
    }
  }

  lemma {:induction false} DecValue(b: seq<bool>)
    requires Value(b) > 0
    ensures Value(Dec(b)) == Value(b) - 1
  {
    if b[0] {
      assert Dec(b)[1..] == b[1..];
    } else {
      DecValue(b[1..]);
      assert Dec(b)[1..] == Dec(b[1..]);
    }
  }

  /** The place of the highest set bit. */
  function Top(b: seq<bool>): (k: nat)
    requires Count(b) > 0
    ensures k < |b|
  {
    if Count(b[1..]) == 0 then 0 else 1 + Top(b[1..])
  }

  lemma {:induction false} TopValue(b: seq<bool>)
    requires Count(b) > 0
    ensures Pow2(Top(b)) <= Value(b) < 2 * Pow2(Top(b))
  {
    CountBounds(b[1..]);
    if Count(b[1..]) > 0 {
      TopValue(b[1..]);
    }
  }

  lemma AndTails(x: seq<bool>, y: seq<bool>)
    requires |x| == |y| > 0
    ensures And(x, y)[0] == (x[0] && y[0]) && And(x, y)[1..] == And(x[1..], y[1..])
  {
  }

  lemma AndSelf(x: seq<bool>)
    ensures And(x, x) == x
  {
  }

  /** in &= in - 1 clears one bit, and not the highest unless it is the only one. */
  lemma {:induction false} ClearLowest(b: seq<bool>)
    requires Count(b) > 0
    ensures var c := And(b, Dec(b)); Count(c) == Count(b) - 1 && (Count(c) > 0 ==> Top(c) == Top(b))
  {
    var d := Dec(b);
    AndTails(b, d);
    if b[0] {
      assert d[1..] == b[1..];
      AndSelf(b[1..]);
    } else {
      assert d[1..] == Dec(b[1..]);
      ClearLowest(b[1..]);
    }
  }

  /** A single set bit is a power of two, and subtracting one sets exactly the bits below it. */
  lemma {:induction false} OneBit(b: seq<bool>)
    requires Count(b) == 1
    ensures Value(b) == Pow2(Top(b))
    ensures forall i :: 0 <= i < |b| ==> (Dec(b)[i] <==> i < Top(b))
  {
    if b[0] {
      CountBounds(b[1..]);
      NoBits(b[1..]);
    } else {
      OneBit(b[1..]);
    }
  }

  lemma {:induction false} NoBits(b: seq<bool>)
    requires Count(b) == 0
    ensures forall i :: 0 <= i < |b| ==> !b[i]
  {
    if b != [] {
      NoBits(b[1..]);
    }
  }

  /** The exponent of the largest power of two not above n. */
  function FloorLog(n: nat): (k: nat)
    ensures n > 0 ==> Pow2(k) <= n < 2 * Pow2(k)
  {
    if n < 2 then 0 else 1 + FloorLog(n / 2)
  }

  lemma {:induction false} FloorLogIs(n: nat, k: nat)
    requires Pow2(k) <= n < 2 * Pow2(k)
    ensures FloorLog(n) == k
  {
    if k > 0 {
      FloorLogIs(n / 2, k - 1);
    }
  }

  /** floor_pow2: keeps the last value before the bits run out. */
  method FloorPow2(input: Word32) returns (x: Word32)
    ensures Count(input) == 0 ==> x == input
    ensures Count(input) > 0 ==> Count(x) == 1 && Top(x) == Top(input)
    ensures Count(input) > 0 ==> Value(x) == Pow2(FloorLog(Value(input)))
  {
    var n: Word32 := input;
    x := n;
    while Value(n) != 0
      invariant Count(input) == 0 ==> x == n == input
      invariant Count(n) > 0 ==> Count(input) > 0 && Top(n) == Top(input)
      invariant Count(n) == 0 && Count(input) > 0 ==> Count(x) == 1 && Top(x) == Top(input)
      decreases Count(n)
    {
      CountBounds(n);
      ClearLowest(n);
      x := n;
      n := And(n, Dec(n));
    }
    CountBounds(n);
    if Count(input) > 0 {
      TopValue(input);
      FloorLogIs(Value(input), Top(input));
      OneBit(x);
    }
  }

  /** rol */
  method Rol(x: Word32, i: nat) returns (r: Word32)
    requires i < 32
    ensures forall k :: 0 <= k < 32 ==> r[k] == x[(k - i) % 32]
  {
    r := Or(Shl(x, i), Shr(x, 32 - i));
    forall k | 0 <= k < 32
      ensures r[k] == x[(k - i) % 32]
    {
      if k < i {
        assert (k - i) % 32 == k - i + 32;
      } else {
        assert (k - i) % 32 == k - i;
      }
    }
  }

  lemma {:induction false} CountPrefix(b: seq<bool>, k: nat)
    requires k <= |b| && forall i :: 0 <= i < |b| ==> (b[i] <==> i < k)
    ensures Count(b) == k
  {
    if b != [] {
      CountPrefix(b[1..], if k > 0 then k - 1 else 0);
    }
  }

  lemma {:induction false} CountConcat(x: seq<bool>, y: seq<bool>)
    ensures Count(x + y) == Count(x) + Count(y)
  {
    if x == [] {
      assert x + y == y;
    } else {
      assert (x + y)[1..] == x[1..] + y;
      CountConcat(x[1..], y);
    }
  }

  /** Rotating does not change how many bits are set. */
  lemma CountRotated(x: Word32, r: Word32, i: nat)
    requires i < 32 && forall k :: 0 <= k < 32 ==> r[k] == x[(k - i) % 32]
    ensures Count(r) == Count(x)
  {
    assert r[..i] == x[32 - i..];
    assert r[i..] == x[..32 - i];
    assert r == r[..i] + r[i..] && x == x[..32 - i] + x[32 - i..];
    CountConcat(r[..i], r[i..]);
    CountConcat(x[..32 - i], x[32 - i..]);
  }

  /** The means below 3 count as 2. */
  function Mean(mean: int): nat {
    if mean <= 2 then 2 else mean
  }

  /**
   _rolling_hashx_mask_gen: a run of as many one bits as the mean has binary places below its
   highest, starting at bit shift and wrapping around.
   */
  method Generate(mean: int, shift: nat) returns (mask: Word32)
    requires mean < 0x8000_0000 && shift < 32
    ensures Count(mask) == FloorLog(Mean(mean))
    ensures mean >= 2 ==> Pow2(Count(mask)) <= mean < 2 * Pow2(Count(mask))
    ensures mean < 2 ==> Count(mask) == 1
    ensures forall k :: 0 <= k < 32 ==> (mask[k] <==> (k - shift) % 32 < Count(mask))
  {
    var m := if mean <= 2 then 2 else mean;
    var bits := BitsOf(m, 32);
    Limit();
    ValueOfBits(m, 32);
    CountBounds(bits);
    var x := FloorPow2(bits);
    TopValue(bits);
    FloorLogIs(m, Top(bits));
    OneBit(x);
    CountPrefix(Dec(x), Top(bits));
    mask := Rol(Dec(x), shift);
    CountRotated(Dec(x), mask, shift);
  }

  lemma Limit()
    ensures Pow2(32) == 0x1_0000_0000
  {
    assert Pow2(8) == 0x100;
    assert Pow2(16) == 0x1_0000;
    assert Pow2(24) == 0x100_0000;
  }
}
