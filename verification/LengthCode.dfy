/** What the eight bytes of a length field hold: the length modulo 2^64, in either byte order. */
module LengthCode {
  import opened ByteDigits
  import opened Bytes
  import opened Division
  import opened MessagePadding
  import opened Sha1Message
  import opened Md5

  lemma WrapByte(n: nat, unit: nat, k: nat)
    requires unit > 0 && TWO64 == 256 * k * unit
    ensures ByteAt(n % TWO64, unit) == ByteAt(n, unit)
  {
    WrapQuotient(n % TWO64, n / TWO64, unit, k);
  }

  lemma WrapQuotient(r: nat, q: nat, unit: nat, k: nat)
    requires unit > 0 && TWO64 == 256 * k * unit
    ensures (TWO64 * q + r) / unit % 256 == r / unit % 256
  {
    var a, b := r / unit, r % unit;
    Shift(unit, k, q, a);
    assert TWO64 * q + r == unit * (256 * (k * q) + a) + b;
    Quotient(unit, 256 * (k * q) + a, b);
    DropMultiple(k * q, a);
  }

  lemma DropMultiple(h: nat, a: nat)
    ensures (256 * h + a) % 256 == a % 256
  {
  }

  lemma Shift(u: nat, k: nat, q: nat, a: nat)
    requires TWO64 == 256 * k * u
    ensures TWO64 * q + u * a == u * (256 * (k * q) + a)
  {
    calc {
      TWO64 * q;
      256 * k * u * q;
      u * (256 * (k * q));
    }
    DistributeByte(u, k * q, a);
  }

  lemma LengthWraps(n: nat)
    ensures LengthBE(n % TWO64) == LengthBE(n)
  {
    WrapByte(n, 0x100_0000_0000_0000, 1);
    WrapByte(n, 0x1_0000_0000_0000, 0x100);
    WrapByte(n, 0x100_0000_0000, 0x1_0000);
    WrapByte(n, 0x1_0000_0000, 0x100_0000);
    WrapByte(n, 0x100_0000, 0x1_0000_0000);
    WrapByte(n, 0x1_0000, 0x100_0000_0000);
    WrapByte(n, 0x100, 0x1_0000_0000_0000);
    WrapByte(n, 1, 0x100_0000_0000_0000);
  }

  /** The length field holds a length exactly up to multiples of 2^64. */
  lemma LengthFieldExact(x: nat, y: nat)
    ensures LengthBE(x) == LengthBE(y) <==> x % TWO64 == y % TWO64
  {
    if LengthBE(x) == LengthBE(y) {
      LengthDecides(x, y, LengthBE(x), LengthBE(y));
    }
    LengthWraps(x);
    LengthWraps(y);
  }

  lemma LengthDecides(x: nat, y: nat, f: seq<byte>, g: seq<byte>)
    requires f == LengthBE(x) && g == LengthBE(y) && f == g
    ensures x % TWO64 == y % TWO64
  {
    assert f[7] == g[7] && f[6] == g[6] && f[5] == g[5] && f[4] == g[4];
    assert f[3] == g[3] && f[2] == g[2] && f[1] == g[1] && f[0] == g[0];
    OneMoreByte(x, y, 1);
    OneMoreByte(x, y, 0x100);
    OneMoreByte(x, y, 0x1_0000);
    OneMoreByte(x, y, 0x100_0000);
    OneMoreByte(x, y, 0x1_0000_0000);
    OneMoreByte(x, y, 0x100_0000_0000);
    OneMoreByte(x, y, 0x1_0000_0000_0000);
    OneMoreByte(x, y, 0x100_0000_0000_0000);
  }

  // ----- the number a field holds -----

  /** The number whose byte at 256^k is f[k]. */
  function ValueLE(f: LengthField): int {
    Value(f[0]) + 0x100 * Value(f[1]) + 0x1_0000 * Value(f[2]) + 0x100_0000 * Value(f[3])
    + 0x1_0000_0000 * Value(f[4]) + 0x100_0000_0000 * Value(f[5])
    + 0x1_0000_0000_0000 * Value(f[6]) + 0x100_0000_0000_0000 * Value(f[7])
  }

  /** The same, the most significant byte first. */
  function ValueBE(f: LengthField): int {
    ValueLE([f[7], f[6], f[5], f[4], f[3], f[2], f[1], f[0]])
  }

  lemma FieldLE(n: nat, f: LengthField)
    requires f == LengthLE(n)
    ensures f[0] == ByteAt(n, 1) && f[1] == ByteAt(n, 0x100)
    ensures f[2] == ByteAt(n, 0x1_0000) && f[3] == ByteAt(n, 0x100_0000)
    ensures f[4] == ByteAt(n, 0x1_0000_0000) && f[5] == ByteAt(n, 0x100_0000_0000)
    ensures f[6] == ByteAt(n, 0x1_0000_0000_0000) && f[7] == ByteAt(n, 0x100_0000_0000_0000)
  {
  }

  /** The field of MD5 holds the length modulo 2^64, the least significant byte first. */
  lemma LengthLEHolds(n: nat, f: LengthField)
    requires f == LengthLE(n)
    ensures ValueLE(f) == n % 0x1_0000_0000_0000_0000
  {
    FieldLE(n, f);
    ByteAdds(n, 1);
    ByteAdds(n, 0x100);
    ByteAdds(n, 0x1_0000);
    ByteAdds(n, 0x100_0000);
    ByteAdds(n, 0x1_0000_0000);
    ByteAdds(n, 0x100_0000_0000);
    ByteAdds(n, 0x1_0000_0000_0000);
    ByteAdds(n, 0x100_0000_0000_0000);
  }

  /** The field of SHA-1 holds it the most significant byte first. */
  lemma LengthBEHolds(n: nat, f: LengthField)
    requires f == LengthBE(n)
    ensures ValueBE(f) == n % 0x1_0000_0000_0000_0000
  {
    var g := LengthLE(n);
    LengthLEHolds(n, g);
    assert [f[7], f[6], f[5], f[4], f[3], f[2], f[1], f[0]] == g;
  }

  lemma ShortLE(n: nat)
    requires n < 256
    ensures LengthLE(n) == [n as byte, 0, 0, 0, 0, 0, 0, 0]
  {
    ByteBeyond(n, 0x100);
    ByteBeyond(n, 0x1_0000);
    ByteBeyond(n, 0x100_0000);
    ByteBeyond(n, 0x1_0000_0000);
    ByteBeyond(n, 0x100_0000_0000);
    ByteBeyond(n, 0x1_0000_0000_0000);
    ByteBeyond(n, 0x100_0000_0000_0000);
  }

  lemma ShortBE(n: nat)
    requires n < 256
    ensures LengthBE(n) == [0, 0, 0, 0, 0, 0, 0, n as byte]
  {
    ShortLE(n);
    var f, g := LengthBE(n), LengthLE(n);
    assert f == [g[7], g[6], g[5], g[4], g[3], g[2], g[1], g[0]];
  }
}
