/**
 Hashes that take whole blocks one by one and then a last, shorter piece with the total length, and
 what follows when each of the two can be undone.
 */
module TailHash {
  import opened Bytes
  import opened Division

  /** The bytes after the last whole block. */
  function TailOf(size: nat, msg: seq<byte>): (tail: seq<byte>)
    requires size > 0
    ensures |tail| == |msg| % size
  {
    msg[|msg| - |msg| % size..]
  }

  /** From a state at a block boundary, the rest y of a message of len bytes. */
  function End<S>(step: (S, seq<byte>) -> S, finish: (S, seq<byte>, nat) -> S, size: nat, s: S, y: seq<byte>,
                  len: nat): S
    requires size > 0
  {
    finish(Fold(step, size, s, y), TailOf(size, y), len)
  }

  lemma DropBefore(x: seq<byte>, y: seq<byte>, k: nat)
    requires k <= |y|
    ensures (x + y)[|x + y| - k..] == y[|y| - k..]
  {
  }

  lemma TailAfter(size: nat, n: nat, x: seq<byte>, y: seq<byte>)
    requires size > 0 && |x| == size * n
    ensures TailOf(size, x + y) == TailOf(size, y)
  {
    AddMultiple(size, n, |y|);
    DropBefore(x, y, |y| % size);
  }

  lemma TailIs(size: nat, n: nat, x: seq<byte>, a: seq<byte>)
    requires |x| == size * n && |a| < size
    ensures TailOf(size, x + a) == a
  {
    Remainder(size, n, |a|);
    DropBefore(x, a, |a|);
  }

  lemma FoldOne<S>(step: (S, seq<byte>) -> S, size: nat, s: S, block: seq<byte>, y: seq<byte>)
    requires size > 0 && |block| == size
    ensures Fold(step, size, s, block + y) == Fold(step, size, step(s, block), y)
  {
    assert (block + y)[..size] == block && (block + y)[size..] == y;
  }

  /** A message with the block a after x ends like y from the state after a. */
  lemma EndBlock<S>(step: (S, seq<byte>) -> S, finish: (S, seq<byte>, nat) -> S, size: nat, s: S,
                    n: nat, x: seq<byte>, a: seq<byte>, y: seq<byte>, len: nat)
    requires size > 0 && |x| == size * n && |a| == size
    ensures End(step, finish, size, s, x + (a + y), len)
         == End(step, finish, size, step(Fold(step, size, s, x), a), y, len)
  {
    FoldConcat(step, size, n, s, x, a + y);
    FoldOne(step, size, Fold(step, size, s, x), a, y);
    TailAfter(size, n, x, a + y);
    TailAfter(size, 1, a, y);
  }

  /** A message with less than a block after x finishes with that tail. */
  lemma EndTail<S>(step: (S, seq<byte>) -> S, finish: (S, seq<byte>, nat) -> S, size: nat, s: S,
                   n: nat, x: seq<byte>, a: seq<byte>, len: nat)
    requires |x| == size * n && |a| < size
    ensures End(step, finish, size, s, x + a, len) == finish(Fold(step, size, s, x), a, len)
  {
    FoldConcat(step, size, n, s, x, a);
    TailIs(size, n, x, a);
  }

  // ----- reversible steps -----

  ghost predicate Undoes<S(!new), B(!new)>(back: (S, B) -> S, forth: (S, B) -> S) {
    forall s, b {:trigger forth(s, b)} :: back(forth(s, b), b) == s
  }

  ghost predicate UndoesLast<S(!new)>(back: (S, seq<byte>, nat) -> S, forth: (S, seq<byte>, nat) -> S) {
    forall s, b, n {:trigger forth(s, b, n)} :: back(forth(s, b, n), b, n) == s
  }

  /** Takes the blocks of data back, the last one first. */
  function Unfold<S>(unstep: (S, seq<byte>) -> S, size: nat, s: S, data: seq<byte>): S
    requires size > 0
    decreases |data|
  {
    if |data| < size then s else unstep(Unfold(unstep, size, s, data[size..]), data[..size])
  }

  lemma {:induction false} UnfoldFold<S(!new)>(step: (S, seq<byte>) -> S, unstep: (S, seq<byte>) -> S, size: nat,
                                               s: S, data: seq<byte>)
    requires size > 0 && Undoes(unstep, step)
    ensures Unfold(unstep, size, Fold(step, size, s, data), data) == s
    decreases |data|
  {
    if |data| >= size {
      UnfoldFold(step, unstep, size, step(s, data[..size]), data[size..]);
    }
  }

  lemma {:induction false} FoldUnfold<S(!new)>(step: (S, seq<byte>) -> S, unstep: (S, seq<byte>) -> S, size: nat,
                                               s: S, data: seq<byte>)
    requires size > 0 && Undoes(step, unstep)
    ensures Fold(step, size, Unfold(unstep, size, s, data), data) == s
    decreases |data|
  {
    if |data| >= size {
      FoldUnfold(step, unstep, size, s, data[size..]);
      assert step(unstep(Unfold(unstep, size, s, data[size..]), data[..size]), data[..size])
          == Unfold(unstep, size, s, data[size..]);
    }
  }

  function Unend<S>(unstep: (S, seq<byte>) -> S, unfinish: (S, seq<byte>, nat) -> S, size: nat, s: S, y: seq<byte>,
                    len: nat): S
    requires size > 0
  {
    Unfold(unstep, size, unfinish(s, TailOf(size, y), len), y)
  }

  lemma EndBack<S(!new)>(step: (S, seq<byte>) -> S, unstep: (S, seq<byte>) -> S,
                         finish: (S, seq<byte>, nat) -> S, unfinish: (S, seq<byte>, nat) -> S,
                         size: nat, s: S, y: seq<byte>, len: nat)
    requires size > 0 && Undoes(unstep, step) && UndoesLast(unfinish, finish)
    ensures Unend(unstep, unfinish, size, End(step, finish, size, s, y, len), y, len) == s
  {
    UnfoldFold(step, unstep, size, s, y);
  }

  lemma EndForth<S(!new)>(step: (S, seq<byte>) -> S, unstep: (S, seq<byte>) -> S,
                          finish: (S, seq<byte>, nat) -> S, unfinish: (S, seq<byte>, nat) -> S,
                          size: nat, s: S, y: seq<byte>, len: nat)
    requires size > 0 && Undoes(step, unstep) && UndoesLast(finish, unfinish)
    ensures End(step, finish, size, Unend(unstep, unfinish, size, s, y, len), y, len) == s
  {
    FoldUnfold(step, unstep, size, unfinish(s, TailOf(size, y), len), y);
  }

  // ----- steps that keep inputs apart -----

  ghost predicate Separates<S(!new)>(step: (S, seq<byte>) -> S, size: nat) {
    forall s, a, b {:trigger step(s, a), step(s, b)} :: |a| == |b| == size && a != b ==> step(s, a) != step(s, b)
  }

  ghost predicate SeparatesLast<S(!new)>(finish: (S, seq<byte>, nat) -> S, size: nat) {
    forall s, a, b, n {:trigger finish(s, a, n), finish(s, b, n)} ::
      |a| == |b| < size && a != b ==> finish(s, a, n) != finish(s, b, n)
  }

  /** Two messages that differ in one whole block only have different hashes. */
  lemma BlockMatters<S(!new)>(step: (S, seq<byte>) -> S, unstep: (S, seq<byte>) -> S,
                              finish: (S, seq<byte>, nat) -> S, unfinish: (S, seq<byte>, nat) -> S,
                              size: nat, s: S, n: nat, x: seq<byte>, a: seq<byte>, b: seq<byte>, y: seq<byte>, len: nat)
    requires size > 0 && |x| == size * n && |a| == |b| == size && a != b
    requires Undoes(unstep, step) && UndoesLast(unfinish, finish) && Separates(step, size)
    ensures End(step, finish, size, s, x + (a + y), len) != End(step, finish, size, s, x + (b + y), len)
  {
    EndBlock(step, finish, size, s, n, x, a, y, len);
    EndBlock(step, finish, size, s, n, x, b, y, len);
    EndBack(step, unstep, finish, unfinish, size, step(Fold(step, size, s, x), a), y, len);
    EndBack(step, unstep, finish, unfinish, size, step(Fold(step, size, s, x), b), y, len);
  }

  /** Two messages of one length that differ in their last, partial block only have different hashes. */
  lemma TailMatters<S(!new)>(step: (S, seq<byte>) -> S, finish: (S, seq<byte>, nat) -> S, size: nat, s: S,
                             n: nat, x: seq<byte>, a: seq<byte>, b: seq<byte>, len: nat)
    requires |x| == size * n && |a| == |b| < size && a != b && SeparatesLast(finish, size)
    ensures End(step, finish, size, s, x + a, len) != End(step, finish, size, s, x + b, len)
  {
    EndTail(step, finish, size, s, n, x, a, len);
    EndTail(step, finish, size, s, n, x, b, len);
  }

  /** Two tails after the same blocks end as they finish from any state. */
  lemma TailsDecide<S(!new)>(step: (S, seq<byte>) -> S, finish: (S, seq<byte>, nat) -> S, size: nat, s: S,
                             n: nat, x: seq<byte>, a: seq<byte>, b: seq<byte>, m: nat, k: nat)
    requires |x| == size * n && |a| < size && |b| < size
    requires forall t :: finish(t, a, m) == finish(t, b, k) <==> a == b
    ensures End(step, finish, size, s, x + a, m) == End(step, finish, size, s, x + b, k) <==> a == b
  {
    EndTail(step, finish, size, s, n, x, a, m);
    EndTail(step, finish, size, s, n, x, b, k);
  }
}
