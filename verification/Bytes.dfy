/** Byte strings and the block fold shared by every streaming hash in the library. */
module Bytes {

  type byte = bv8

  function Zeros(n: nat): (z: seq<byte>)
    ensures |z| == n && forall i :: 0 <= i < n ==> z[i] == 0
  {
    seq(n, _ => 0 as byte)
  }

  function Flatten<B>(parts: seq<seq<B>>): seq<B> {
    if parts == [] then [] else parts[0] + Flatten(parts[1..])
  }

  lemma {:induction false} FlattenAppend<B>(parts: seq<seq<B>>, last: seq<B>)
    ensures Flatten(parts + [last]) == Flatten(parts) + last
  {
    if parts == [] {
      assert parts + [last] == [last];
    } else {
      FlattenAppend(parts[1..], last);
      assert (parts + [last])[1..] == parts[1..] + [last];
      assert parts[0] + (Flatten(parts[1..]) + last) == parts[0] + Flatten(parts[1..]) + last;
    }
  }

  /** Feeds data to f in blocks of size bytes, in order; a trailing part of a block is not fed. */
  function Fold<D>(f: (D, seq<byte>) -> D, size: nat, d: D, data: seq<byte>): D
    requires size > 0
  {
    if |data| < size then d else Fold(f, size, f(d, data[..size]), data[size..])
  }

  /** Folding over a whole number of blocks and then over the rest is folding over both. */
  lemma {:induction false} FoldConcat<D>(f: (D, seq<byte>) -> D, size: nat, blocks: nat, d: D, x: seq<byte>,
      y: seq<byte>)
    requires size > 0 && |x| == blocks * size
    ensures Fold(f, size, d, x + y) == Fold(f, size, Fold(f, size, d, x), y)
    decreases blocks
  {
    if blocks == 0 {
      assert x + y == y;
    } else {
      assert |x| == (blocks - 1) * size + size;
      assert (blocks - 1) * size >= 0;
      assert (x + y)[..size] == x[..size];
      assert (x + y)[size..] == x[size..] + y;
      FoldConcat(f, size, blocks - 1, f(d, x[..size]), x[size..], y);
    }
  }

  /** Folding over one more block is one more step. */
  lemma FoldNext<D>(f: (D, seq<byte>) -> D, size: nat, d: D, data: seq<byte>, i: nat)
    requires size > 0 && 0 <= size * i <= size * i + size <= |data|
    ensures Fold(f, size, d, data[..size * i + size])
         == f(Fold(f, size, d, data[..size * i]), data[size * i..size * i + size])
  {
    var x, y := data[..size * i], data[size * i..size * i + size];
    assert data[..size * i + size] == x + y;
    FoldConcat(f, size, i, d, x, y);
    var e := Fold(f, size, d, x);
    assert y[..size] == y && y[size..] == [];
    assert Fold(f, size, e, y) == Fold(f, size, f(e, y[..size]), y[size..]);
  }

  /** If part of the state steps on its own, it is folded on its own. */
  lemma {:induction false} FoldPart<D(!new), E>(f: (D, seq<byte>) -> D, g: (E, seq<byte>) -> E, part: D -> E, size: nat,
                                                d: D, data: seq<byte>)
    requires size > 0 && forall e, b :: |b| == size ==> part(f(e, b)) == g(part(e), b)
    ensures part(Fold(f, size, d, data)) == Fold(g, size, part(d), data)
    decreases |data|
  {
    if |data| >= size {
      FoldPart(f, g, part, size, f(d, data[..size]), data[size..]);
    }
  }
}
