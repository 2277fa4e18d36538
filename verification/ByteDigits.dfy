/** The bytes of a number, as the digits that shifts and casts to uint8_t take out of it. */
module ByteDigits {
  import opened Bytes
  import opened Division

  /** The byte of n at unit, a power of 256. */
  function ByteAt(n: nat, unit: nat): byte
    requires unit > 0
  {
    (n / unit % 256) as byte
  }

  function Value(b: byte): int { b as int }

  lemma ByteBack(x: nat)
    requires x < 256
    ensures Value(x as byte) == x
  {
  }

  lemma SameByte(x: nat, y: nat, unit: nat)
    requires unit > 0 && ByteAt(x, unit) == ByteAt(y, unit)
    ensures x / unit % 256 == y / unit % 256
  {
    ByteBack(x / unit % 256);
    ByteBack(y / unit % 256);
  }

  /** Two numbers that agree below unit and in the byte at unit agree below 256 units. */
  lemma OneMoreByte(x: nat, y: nat, unit: nat)
    requires unit > 0 && x % unit == y % unit && ByteAt(x, unit) == ByteAt(y, unit)
    ensures x % (256 * unit) == y % (256 * unit)
  {
    SameByte(x, y, unit);
    LowBytes(x, unit);
    LowBytes(y, unit);
  }

  lemma LowBytes(n: nat, unit: nat)
    requires unit > 0
    ensures n % (256 * unit) == unit * (n / unit % 256) + n % unit
  {
    var q, r := n / unit, n % unit;
    var h, d := q / 256, q % 256;
    calc {
      n;
      unit * q + r;
      { assert q == 256 * h + d; }
      unit * (256 * h + d) + r;
      { DistributeByte(unit, h, d); }
      (256 * unit) * h + (unit * d + r);
    }
    Small(unit, d, r);
    Remainder(256 * unit, h, unit * d + r);
  }

  lemma DistributeByte(u: nat, h: nat, d: nat)
    ensures u * (256 * h + d) == (256 * u) * h + u * d
  {
  }

  lemma Small(u: nat, d: nat, r: nat)
    requires r < u && d < 256
    ensures u * d + r < 256 * u
  {
    assert u * d <= u * 255;
  }

  lemma ByteAdds(n: nat, unit: nat)
    requires unit > 0
    ensures n % (256 * unit) == unit * Value(ByteAt(n, unit)) + n % unit
  {
    LowBytes(n, unit);
    ByteBack(n / unit % 256);
  }

  lemma LowFour(n: nat, b0: byte, b1: byte, b2: byte, b3: byte)
    requires b0 == ByteAt(n, 1) && b1 == ByteAt(n, 0x100) && b2 == ByteAt(n, 0x1_0000) && b3 == ByteAt(n, 0x100_0000)
    ensures n % 0x1_0000_0000 == Value(b0) + 0x100 * Value(b1) + 0x1_0000 * Value(b2) + 0x100_0000 * Value(b3)
  {
    ByteAdds(n, 1);
    ByteAdds(n, 0x100);
    ByteAdds(n, 0x1_0000);
    ByteAdds(n, 0x100_0000);
  }

  /** Numbers of four bytes are the sum of their digits. */
  lemma FourBytes(n: nat, b0: byte, b1: byte, b2: byte, b3: byte)
    requires n < 0x1_0000_0000
    requires b0 == ByteAt(n, 1) && b1 == ByteAt(n, 0x100) && b2 == ByteAt(n, 0x1_0000) && b3 == ByteAt(n, 0x100_0000)
    ensures n == Value(b0) + 0x100 * Value(b1) + 0x1_0000 * Value(b2) + 0x100_0000 * Value(b3)
  {
    LowFour(n, b0, b1, b2, b3);
    SmallMod(n);
  }

  lemma SmallMod(n: nat)
    requires n < 0x1_0000_0000
    ensures n % 0x1_0000_0000 == n
  {
  }

  lemma ByteBeyond(n: nat, unit: nat)
    requires n < unit
    ensures ByteAt(n, unit) == 0
  {
    assert n / unit == 0;
  }
}
