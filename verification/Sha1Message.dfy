/** SHA-1 of a whole message: the algorithm as a parameter of the context manager, and the loop that mh_sha1 uses. */
module Sha1Message {
  import opened ByteDigits
  import opened Bytes
  import opened Words
  import opened MessagePadding
  import opened HashContext
  import opened Sha1

  function ToDigest(r: Regs): (d: Digest)
    ensures |d| == 5
  {
    [r.a, r.b, r.c, r.d, r.e]
  }

  function FromDigest(d: Digest): Regs
    requires |d| == 5
  {
    Regs(d[0], d[1], d[2], d[3], d[4])
  }

  function CompressBytes(d: Digest, block: seq<byte>): Digest {
    if |d| == 5 && |block| == BLOCK then ToDigest(Compress(FromDigest(d), WordsBE(block))) else d
  }

  /** The length field of FIPS 180-4: the most significant byte first. */
  function LengthBE(n: nat): LengthField {
    [ByteAt(n, 0x100_0000_0000_0000), ByteAt(n, 0x1_0000_0000_0000),
     ByteAt(n, 0x100_0000_0000), ByteAt(n, 0x1_0000_0000),
     ByteAt(n, 0x100_0000), ByteAt(n, 0x1_0000), ByteAt(n, 0x100), ByteAt(n, 1)]
  }

  function SHA1(): HashAlgorithm {
    HashAlgorithm(ToDigest(H0), CompressBytes, LengthBE)
  }

  /** The digest covers done, a whole number of blocks. */
  ghost predicate Covers(digest: Digest, done: seq<byte>) {
    |digest| == 5 && |done| % BLOCK == 0 && digest == Absorb(SHA1(), SHA1().iv, done)
  }

  /** sha1_single on the next block of the message. */
  method SingleBytes(d: Digest, block: seq<byte>, ghost done: seq<byte>) returns (d': Digest)
    requires |block| == BLOCK && Covers(d, done)
    ensures Covers(d', done + block)
  {
    AbsorbBlock(SHA1(), done, block);
    var r := Single(WordsBE(block), FromDigest(d));
    d' := ToDigest(r);
  }

  /** The one or two blocks that hold the padding. */
  method HashEnd(d: Digest, padded: seq<byte>, ghost done: seq<byte>) returns (digest: Digest)
    requires Covers(d, done) && (|padded| == BLOCK || |padded| == 2 * BLOCK)
    ensures Covers(digest, done + padded)
  {
    assert padded == padded[..BLOCK] + padded[BLOCK..];
    Regroup(done, padded[..BLOCK], padded[BLOCK..], []);
    digest := SingleBytes(d, padded[..BLOCK], done);
    if |padded| == 2 * BLOCK {
      digest := SingleBytes(digest, padded[BLOCK..], done + padded[..BLOCK]);
    } else {
      assert padded[BLOCK..] == [] && done + padded[..BLOCK] + [] == done + padded[..BLOCK];
    }
  }

  /** The whole blocks of the input; what is left is shorter than a block. */
  method HashBlocks(input: seq<byte>) returns (digest: Digest, at: nat)
    ensures at <= |input| < at + BLOCK && at % BLOCK == 0 && Covers(digest, input[..at])
  {
    digest, at := ToDigest(H0), 0;
    while |input| - at >= BLOCK
      invariant at <= |input| && at % BLOCK == 0 && Covers(digest, input[..at])
    {
      assert input[..at] + input[at..at + BLOCK] == input[..at + BLOCK];
      digest := SingleBytes(digest, input[at..at + BLOCK], input[..at]);
      at := at + BLOCK;
    }
  }

  /** Covering the blocks and then the padded tail is covering the padded message. */
  lemma PaddedFrom(digest: Digest, input: seq<byte>, at: nat, padded: seq<byte>)
    requires at <= |input| && at % BLOCK == 0 && padded == input[at..] + Padding(LengthBE, |input|)
    requires Covers(digest, input[..at] + padded)
    ensures |digest| == 5 && digest == Hash(SHA1(), input)
  {
    assert input == input[..at] + input[at..];
    assert input[..at] + padded == Padded(SHA1(), input);
  }

  method PadTail(tail: seq<byte>, len: nat) returns (padded: seq<byte>)
    requires |tail| == len % BLOCK
    ensures padded == tail + Padding(LengthBE, len) && (|padded| == BLOCK || |padded| == 2 * BLOCK)
  {
    var buf, end := PadCopy(tail, len, LengthBE, 2 * BLOCK - 8);
    padded := buf[..end];
  }

  /** _sha1_for_mh_sha1, and its copy sha1_for_mh_sha1_ref. */
  method HashMessage(input: seq<byte>) returns (digest: Digest)
    requires |input| < 0x1_0000_0000
    ensures |digest| == 5 && digest == Hash(SHA1(), input)
  {
    var d, at := HashBlocks(input);
    var padded := PadTail(input[at..], |input|);
    digest := HashEnd(d, padded, input[..at]);
    PaddedFrom(digest, input, at, padded);
  }
}
