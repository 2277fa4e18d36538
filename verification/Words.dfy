/** 32-bit words and the two byte orders; memory is little-endian, as on the hosts the library targets. */
module Words {
  import opened Bytes

  function BE32(b: seq<byte>): bv32
    requires |b| == 4
  {
    ((b[0] as bv32) << 24) | ((b[1] as bv32) << 16) | ((b[2] as bv32) << 8) | (b[3] as bv32)
  }

  /** The words a big-endian reader sees: to_be32 of each word loaded from memory. */
  function WordsBE(data: seq<byte>): (w: seq<bv32>)
    ensures |w| == |data| / 4
  {
    seq(|data| / 4, i requires 0 <= i < |data| / 4 => BE32(data[4 * i..4 * i + 4]))
  }

  /** A word as it lies in memory. */
  function StoreLE(w: bv32): (b: seq<byte>)
    ensures |b| == 4
  {
    [(w & 0xff) as byte, ((w >> 8) & 0xff) as byte, ((w >> 16) & 0xff) as byte, (w >> 24) as byte]
  }

  /** An array of words as it lies in memory. */
  function Memory(words: seq<bv32>): (b: seq<byte>)
    ensures |b| == 4 * |words|
  {
    if words == [] then [] else StoreLE(words[0]) + Memory(words[1..])
  }

  /** The word a little-endian load reads. */
  function LE32(b: seq<byte>): bv32
    requires |b| == 4
  {
    (b[0] as bv32) | ((b[1] as bv32) << 8) | ((b[2] as bv32) << 16) | ((b[3] as bv32) << 24)
  }

  lemma LoadStored(w: bv32)
    ensures LE32(StoreLE(w)) == w
  {
  }

  lemma SliceAfter<T>(x: seq<T>, y: seq<T>, i: nat, j: nat)
    requires i <= j <= |y|
    ensures (x + y)[|x| + i..|x| + j] == y[i..j]
  {
  }

  /** Memory holds word i in its bytes 4 i to 4 i + 3, the least significant first. */
  lemma {:induction false} MemoryHolds(words: seq<bv32>, i: nat)
    requires i < |words|
    ensures LE32(Memory(words)[4 * i..4 * i + 4]) == words[i]
  {
    if i == 0 {
      assert Memory(words)[4 * 0..4 * 0 + 4] == StoreLE(words[0]);
      LoadStored(words[0]);
    } else {
      var rest := Memory(words[1..]);
      SliceAfter(StoreLE(words[0]), rest, 4 * (i - 1), 4 * (i - 1) + 4);
      assert Memory(words)[4 * i..4 * i + 4] == rest[4 * (i - 1)..4 * (i - 1) + 4];
      MemoryHolds(words[1..], i - 1);
    }
  }
}
