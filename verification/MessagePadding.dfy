/**
 Message padding of MD5 (RFC 1321 sections 3.1 and 3.2) and SHA-1 (FIPS 180-4 section 5.1.1), and
 the two ways the library writes it: branch-free in place, and with a loop in a local buffer.
 */
module MessagePadding {
  import opened Bytes

  const BLOCK: nat := 64
  const TWO64: nat := 0x1_0000_0000_0000_0000

  /** The 64-bit length field; the hash decides the byte order. */
  type LengthField = f: seq<byte> | |f| == 8 witness [0, 0, 0, 0, 0, 0, 0, 0]

  function PadZeros(len: nat): nat {
    (119 - len % BLOCK) % BLOCK
  }

  /** A one bit, zeros up to the length field, and the length in bits modulo 2^64. */
  function Padding(field: nat -> LengthField, len: nat): seq<byte> {
    [0x80] + Zeros(PadZeros(len)) + field(8 * len % TWO64)
  }

  /** Padding ends on a block boundary, and no shorter run of zeros would. */
  lemma PaddingIsLeast(field: nat -> LengthField, len: nat, z: nat)
    ensures (len + |Padding(field, len)|) % BLOCK == 0
    ensures (len + 1 + z + 8) % BLOCK == 0 ==> PadZeros(len) <= z
  {
    var q, r := len / BLOCK, len % BLOCK;
    ModBlock(q, r + 9 + PadZeros(len));
    ModBlock(q, r + 9 + z);
  }

  lemma ModBlock(q: nat, r: nat)
    ensures (BLOCK * q + r) % BLOCK == r % BLOCK
  {
  }

  lemma ModTwo64(q: nat, r: nat)
    ensures (TWO64 * q + r) % TWO64 == r % TWO64
  {
    assert TWO64 * q + r == TWO64 * (q + r / TWO64) + r % TWO64;
  }

  lemma LengthMod(len: nat)
    ensures len % TWO64 % BLOCK == len % BLOCK
    ensures 8 * (len % TWO64) % TWO64 == 8 * len % TWO64
  {
    var q, r := len / TWO64, len % TWO64;
    ModBlock(TWO64 / BLOCK * q, r);
    ModTwo64(8 * q, 8 * r);
    assert len == TWO64 * q + r;
  }

  lemma PaddingOfLengthMod(field: nat -> LengthField, len: nat)
    ensures Padding(field, len % TWO64) == Padding(field, len)
  {
    LengthMod(len);
  }

  /** The low six bits of the negation of a uint64_t other than zero. */
  lemma NegationMod(x: nat)
    requires 0 < x < TWO64
    ensures (TWO64 - x) % BLOCK == (BLOCK - x % BLOCK) % BLOCK
  {
    var q, t := x / BLOCK, x % BLOCK;
    var k := TWO64 / BLOCK - q - 1;
    assert TWO64 - x == BLOCK * k + (BLOCK - t);
    ModBlock(k, BLOCK - t);
  }

  /** The branch-free step of hash_pad: the low six bits of a negated uint64_t count the zeros. */
  lemma BranchFreeZeros(n: nat)
    ensures (TWO64 - (n + 9) % TWO64) % TWO64 % BLOCK == PadZeros(n)
    ensures n % BLOCK + 9 + PadZeros(n) == if n % BLOCK < 56 then BLOCK else 2 * BLOCK
  {
    var x := (n + 9) % TWO64;
    LengthMod(n + 9);
    if x > 0 {
      NegationMod(x);
    }
    ZerosCount(n);
  }

  lemma ZerosCount(n: nat)
    ensures (BLOCK - (n + 9) % BLOCK) % BLOCK == PadZeros(n)
    ensures n % BLOCK + 9 + PadZeros(n) == if n % BLOCK < 56 then BLOCK else 2 * BLOCK
  {
    ModBlock(n / BLOCK, n % BLOCK + 9);
  }

  /** Everything between the end marker and the length field is zero: that is the padding. */
  lemma WrittenOut(before: seq<byte>, head: seq<byte>, field: nat -> LengthField, len: nat)
    requires |before| == |head| + 1 + PadZeros(len)
    requires before[..|head|] == head && before[|head|] == 0x80
    requires forall k :: |head| + 1 <= k < |before| ==> before[k] == 0
    ensures before + field(8 * len % TWO64) == head + Padding(field, len)
  {
    var z := PadZeros(len);
    assert before[|head| + 1..] == Zeros(z);
    assert before == head + ([0x80] + Zeros(z));
    Reassociate(head, [0x80] + Zeros(z), field(8 * len % TWO64));
  }

  lemma Reassociate(x: seq<byte>, y: seq<byte>, z: seq<byte>)
    ensures (x + y) + z == x + (y + z)
  {
  }

  /** The 64-bit store that ends at index end. */
  method PutLength(buf: array<byte>, end: nat, f: LengthField)
    requires 8 <= end <= buf.Length
    modifies buf
    ensures buf[..end] == old(buf[..end - 8]) + f && buf[end..] == old(buf[end..])
  {
    forall k | 0 <= k < 8 {
      buf[end - 8 + k] := f[k];
    }
  }

  /** memclr of one block from index i, and the end marker. */
  method Mark(padblock: array<byte>, i: nat)
    requires padblock.Length == 2 * BLOCK && i < BLOCK
    modifies padblock
    ensures padblock[..i] == old(padblock[..i]) && padblock[i] == 0x80
    ensures forall k :: i + 1 <= k < i + BLOCK ==> padblock[k] == 0
  {
    forall k | i <= k < i + BLOCK {
      padblock[k] := 0;
    }
    padblock[i] := 0x80;
  }

  /**
   hash_pad: writes the padding after the last, partial block in place.  It returns the number of
   blocks to hash.
   */
  method HashPad(padblock: array<byte>, totalLen: nat, field: nat -> LengthField) returns (blocks: nat)
    requires padblock.Length == 2 * BLOCK && totalLen < TWO64
    modifies padblock
    ensures blocks == if totalLen % BLOCK < 56 then 1 else 2
    ensures padblock[..BLOCK * blocks] == old(padblock[..totalLen % BLOCK]) + Padding(field, totalLen)
  {
    var i := totalLen % BLOCK;
    ghost var head := padblock[..i];
    Mark(padblock, i);
    BranchFreeZeros(totalLen);
    i := i + (TWO64 - (totalLen + 9) % TWO64) % TWO64 % BLOCK + 9;
    WrittenOut(padblock[..i - 8], head, field, totalLen);
    PutLength(padblock, i, field(8 * totalLen % TWO64));
    blocks := i / BLOCK;
  }

  /**
   The other form: the tail of the message is copied to a fresh buffer, zeros are written by a loop
   up to zeroEnd, and the length goes to the end of the first or the second block.  md5_final zeroes
   the whole buffer, the SHA-1 of mh_sha1 all but the last length field.
   */
  method PadCopy(tail: seq<byte>, totalLen: nat, field: nat -> LengthField, zeroEnd: nat)
    returns (buf: array<byte>, end: nat)
    requires |tail| < BLOCK && 2 * BLOCK - 8 <= zeroEnd <= 2 * BLOCK
    ensures fresh(buf) && buf.Length == 2 * BLOCK
    ensures end == if |tail| < 56 then BLOCK else 2 * BLOCK
    ensures |tail| == totalLen % BLOCK ==> buf[..end] == tail + Padding(field, totalLen)
  {
    buf := new byte[2 * BLOCK];
    var i := |tail|;
    forall k | 0 <= k < i {
      buf[k] := tail[k];
    }
    buf[i] := 0x80;
    i := i + 1;
    var j := i;
    while j < zeroEnd
      invariant i <= j <= zeroEnd
      invariant buf[..|tail|] == tail && buf[|tail|] == 0x80
      invariant forall k :: i <= k < j ==> buf[k] == 0
    {
      buf[j] := 0;
      j := j + 1;
    }
    end := if i > BLOCK - 8 then 2 * BLOCK else BLOCK;
    if |tail| == totalLen % BLOCK {
      ZerosCount(totalLen);
      WrittenOut(buf[..end - 8], tail, field, totalLen);
    }
    PutLength(buf, end, field(8 * totalLen % TWO64));
  }
}
