/** Cutting a sequence into pieces, each of the length that a function of what is left says. */
module Pieces {
  import opened Bytes

  /** A length of zero or beyond the end takes all that is left. */
  function PieceLength<T>(cut: seq<T> -> nat, s: seq<T>): (n: nat)
    requires s != []
    ensures 0 < n <= |s|
  {
    if 0 < cut(s) <= |s| then cut(s) else |s|
  }

  function Cut<T>(cut: seq<T> -> nat, s: seq<T>): seq<seq<T>> {
    if s == [] then [] else [s[..PieceLength(cut, s)]] + Cut(cut, s[PieceLength(cut, s)..])
  }

  lemma FlattenFirst<T>(first: seq<T>, rest: seq<seq<T>>)
    ensures Flatten([first] + rest) == first + Flatten(rest)
  {
    assert ([first] + rest)[0] == first && ([first] + rest)[1..] == rest;
  }

  lemma {:induction false} PiecesPartition<T>(cut: seq<T> -> nat, s: seq<T>)
    ensures Flatten(Cut(cut, s)) == s
    decreases |s|
  {
    if s != [] {
      var n := PieceLength(cut, s);
      PiecesPartition(cut, s[n..]);
      FlattenFirst(s[..n], Cut(cut, s[n..]));
      assert s[..n] + s[n..] == s;
    }
  }

  lemma Prepended<T>(first: seq<T>, rest: seq<seq<T>>, i: nat)
    requires 0 < i <= |rest| + 1
    ensures var c := [first] + rest;
            && Flatten(c[..i]) == first + Flatten(rest[..i - 1])
            && c[i..] == rest[i - 1..]
  {
    assert ([first] + rest)[..i] == [first] + rest[..i - 1];
    FlattenFirst(first, rest[..i - 1]);
  }

  lemma CutTwice<T>(s: seq<T>, n: nat, at: nat)
    requires n <= |s| && at <= |s| - n
    ensures s[..n + at] == s[..n] + s[n..][..at] && s[n + at..] == s[n..][at..]
  {
  }

  /** The pieces after any cut are those of what comes after it alone. */
  lemma {:induction false} TailDecides<T>(cut: seq<T> -> nat, s: seq<T>, i: nat)
    requires i <= |Cut(cut, s)|
    ensures var at := |Flatten(Cut(cut, s)[..i])|;
            && at <= |s|
            && s[..at] == Flatten(Cut(cut, s)[..i])
            && Cut(cut, s)[i..] == Cut(cut, s[at..])
    decreases |s|
  {
    if i == 0 {
      assert Cut(cut, s)[..0] == [] && Cut(cut, s)[0..] == Cut(cut, s) && s[0..] == s;
    } else {
      var n := PieceLength(cut, s);
      var rest := Cut(cut, s[n..]);
      assert Cut(cut, s) == [s[..n]] + rest;
      Prepended(s[..n], rest, i);
      TailDecides(cut, s[n..], i - 1);
      CutTwice(s, n, |Flatten(rest[..i - 1])|);
    }
  }

  /** Each piece is the one the function cuts off what is left. */
  lemma PieceIsCut<T>(cut: seq<T> -> nat, s: seq<T>, i: nat)
    requires i < |Cut(cut, s)|
    ensures var at := |Flatten(Cut(cut, s)[..i])|;
            && at < |s|
            && Cut(cut, s)[i] == s[at..][..PieceLength(cut, s[at..])]
            && (i < |Cut(cut, s)| - 1 ==> PieceLength(cut, s[at..]) < |s[at..]|)
  {
    TailDecides(cut, s, i);
    var rest := s[|Flatten(Cut(cut, s)[..i])|..];
    assert Cut(cut, s)[i..][0] == Cut(cut, s)[i];
    assert |Cut(cut, s)[i..]| == |Cut(cut, s)| - i;
    assert Cut(cut, rest)[1..] == Cut(cut, rest[PieceLength(cut, rest)..]);
  }
}
