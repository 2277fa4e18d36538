/**
 The in-place re-layout of the segment digests in the two reference forms: width rows of sixteen
 words become sixteen groups of width words, and back, through the frame buffer.
 */
module Relayout {
  import opened Division

  lemma InRange(width: nat, s: nat, i: nat)
    requires s < 16 && i < width
    ensures width * s + i < 16 * width && 16 * i + s < 16 * width
  {
    assert width * s <= width * 15;
  }

  /** Word i of group s is word s of row i. */
  ghost predicate Relaid(t: seq<bv32>, d: seq<bv32>, width: nat) {
    && |t| >= 16 * width && |d| >= 16 * width
    && forall s: nat, i: nat :: s < 16 && i < width ==> SameWord(t, d, width, s, i)
  }

  ghost predicate SameWord(t: seq<bv32>, d: seq<bv32>, width: nat, s: nat, i: nat)
    requires s < 16 && i < width && |t| >= 16 * width && |d| >= 16 * width
  {
    InRange(width, s, i);
    t[Cell(width, s, i)] == d[16 * i + s]
  }

  function Cell(width: nat, s: nat, i: nat): nat {
    width * s + i
  }

  /** Different places have different cells. */
  lemma CellsDiffer(width: nat, s: nat, i: nat, s': nat, i': nat)
    requires i < width && i' < width && (s != s' || i != i')
    ensures Cell(width, s, i) != Cell(width, s', i')
  {
    Remainder(width, s, i);
    Remainder(width, s', i');
    Quotient(width, s, i);
    Quotient(width, s', i');
  }

  // ----- the first re-layout -----

  /** The groups before j and the first i words of group j are in place. */
  ghost predicate LaidOut(t: seq<bv32>, d: seq<bv32>, width: nat, j: nat, i: nat) {
    && |t| >= 16 * width && |d| >= 16 * width
    && forall s: nat, m: nat ::
         s < 16 && m < width && (s < j || (s == j && m < i)) ==> SameWord(t, d, width, s, m)
  }

  lemma NextOut(t: seq<bv32>, d: seq<bv32>, width: nat, j: nat, i: nat)
    requires LaidOut(t, d, width, j, i) && j < 16 && i < width
    ensures 16 * i + j < |d| && Cell(width, j, i) < |t|
    ensures LaidOut(t[Cell(width, j, i) := d[16 * i + j]], d, width, j, i + 1)
  {
    InRange(width, j, i);
    var t' := t[Cell(width, j, i) := d[16 * i + j]];
    forall s: nat, m: nat | s < 16 && m < width && (s < j || (s == j && m < i + 1))
      ensures SameWord(t', d, width, s, m)
    {
      InRange(width, s, m);
      if s != j || m != i {
        CellsDiffer(width, s, m, j, i);
        assert SameWord(t, d, width, s, m);
      }
    }
  }

  method LayOut(digests: array<bv32>, temp: array<bv32>, width: nat)
    requires width <= 16 && digests.Length == 16 * width && temp.Length == 256 && digests != temp
    modifies temp
    ensures Relaid(temp[..], digests[..], width)
  {
    for j := 0 to 16
      invariant LaidOut(temp[..], digests[..], width, j, 0)
    {
      for i := 0 to width
        invariant LaidOut(temp[..], digests[..], width, j, i)
      {
        NextOut(temp[..], digests[..], width, j, i);
        ghost var t := temp[..];
        temp[j * width + i] := digests[16 * i + j];
        assert temp[..] == t[Cell(width, j, i) := digests[..][16 * i + j]];
      }
    }
  }

  // ----- the second re-layout -----

  lemma NextBack(t: seq<bv32>, d: seq<bv32>, width: nat, j: nat, i: nat)
    requires LaidOut(t, d, width, j, i) && j < 16 && i < width
    ensures 16 * i + j < |d| && Cell(width, j, i) < |t|
    ensures LaidOut(t, d[16 * i + j := t[Cell(width, j, i)]], width, j, i + 1)
  {
    InRange(width, j, i);
    var d' := d[16 * i + j := t[Cell(width, j, i)]];
    forall s: nat, m: nat | s < 16 && m < width && (s < j || (s == j && m < i + 1))
      ensures SameWord(t, d', width, s, m)
    {
      InRange(width, s, m);
      if s != j || m != i {
        assert SameWord(t, d, width, s, m);
      }
    }
  }

  method LayBack(digests: array<bv32>, temp: array<bv32>, width: nat)
    requires width <= 16 && digests.Length == 16 * width && temp.Length == 256 && digests != temp
    modifies temp
    ensures Relaid(digests[..], temp[..], width)
  {
    for j := 0 to 16
      invariant LaidOut(digests[..], temp[..], width, j, 0)
    {
      for i := 0 to width
        invariant LaidOut(digests[..], temp[..], width, j, i)
      {
        NextBack(digests[..], temp[..], width, j, i);
        ghost var d := temp[..];
        temp[i * 16 + j] := digests[j * width + i];
        assert temp[..] == d[16 * i + j := digests[..][Cell(width, j, i)]];
      }
    }
  }

  // ----- in place -----

  /** The memcpy back. */
  method CopyBack(digests: array<bv32>, temp: array<bv32>)
    requires digests.Length <= temp.Length && digests != temp
    modifies digests
    ensures digests[..] == temp[..digests.Length]
  {
    forall k | 0 <= k < digests.Length {
      digests[k] := temp[k];
    }
  }

  lemma RelaidPrefix(t: seq<bv32>, d: seq<bv32>, width: nat)
    requires Relaid(t, d, width)
    ensures Relaid(t[..16 * width], d[..16 * width], width)
  {
    forall s: nat, i: nat | s < 16 && i < width
      ensures SameWord(t[..16 * width], d[..16 * width], width, s, i)
    {
      InRange(width, s, i);
      assert SameWord(t, d, width, s, i);
    }
  }

  /** The first re-layout, through the frame buffer and back into the same memory. */
  method Transpose(digests: array<bv32>, temp: array<bv32>, width: nat)
    requires width <= 16 && digests.Length == 16 * width && temp.Length == 256 && digests != temp
    modifies digests, temp
    ensures Relaid(digests[..], old(digests[..]), width)
  {
    LayOut(digests, temp, width);
    RelaidPrefix(temp[..], digests[..], width);
    ghost var d := digests[..];
    assert d[..16 * width] == d && temp[..][..16 * width] == temp[..16 * width];
    CopyBack(digests, temp);
  }

  /** The second re-layout: the way back. */
  method TransposeBack(digests: array<bv32>, temp: array<bv32>, width: nat)
    requires width <= 16 && digests.Length == 16 * width && temp.Length == 256 && digests != temp
    modifies digests, temp
    ensures Relaid(old(digests[..]), digests[..], width)
  {
    LayBack(digests, temp, width);
    RelaidPrefix(digests[..], temp[..], width);
    ghost var d := digests[..];
    assert d[..16 * width] == d && temp[..][..16 * width] == temp[..16 * width];
    CopyBack(digests, temp);
  }

  // ----- one group -----

  /** Four words in a row; all others stay. */
  method StoreFour(t: array<bv32>, at: nat, w: bv32, x: bv32, y: bv32, z: bv32)
    requires at + 4 <= t.Length
    modifies t
    ensures t[at] == w && t[at + 1] == x && t[at + 2] == y && t[at + 3] == z
    ensures forall k :: 0 <= k < at || at + 4 <= k < t.Length ==> t[k] == old(t[k])
  {
    t[at] := w;
    t[at + 1] := x;
    t[at + 2] := y;
    t[at + 3] := z;
  }
}
