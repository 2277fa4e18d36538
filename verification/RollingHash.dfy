/**
 The rolling hash of rolling_hash2.c: a 64-bit hash of the last w bytes kept up to date in
 constant time, and the scan that stops at the first window whose hash meets a trigger.
 */
module RollingHash {

  import opened Bits64

  const MAX_WINDOW: nat := 48
  const TWO31: int := 0x8000_0000

  type Octet = x: int | 0 <= x < 256

  type Table = t: seq<Word> | |t| == 256 witness seq(256, _ => Bits(seq(64, _ => false)))

  // ----- the hash of a window, written directly -----

  /** The xor over the window of each byte's table word, rotated by its distance from the end. */
  function WindowHash(t: Table, win: seq<Octet>): Word
    requires |win| <= 64
  {
    if win == [] then Zero() else Xor(Rotate(t[win[0]], |win| - 1), WindowHash(t, win[1..]))
  }

  /** Appending a byte: rotate once and mix the byte in. */
  lemma {:induction false} AppendByte(t: Table, win: seq<Octet>, c: Octet)
    requires |win| < 64
    ensures WindowHash(t, win + [c]) == Xor(Rotate(WindowHash(t, win), 1), t[c])
    decreases |win|
  {
    if win == [] {
      assert win + [c] == [c];
      assert [c][1..] == [];
      assert Rotate(Zero(), 1).b == Zero().b;
      RotateNothing(t[c]);
      XorZero(t[c]);
    } else {
      var first, tail := Rotate(t[win[0]], |win| - 1), WindowHash(t, win[1..]);
      assert (win + [c])[1..] == win[1..] + [c];
      AppendByte(t, win[1..], c);
      RotateStep(t[win[0]], |win| - 1);
      RotateXor(first, tail, 1);
      XorAssoc(Rotate(first, 1), Rotate(tail, 1), t[c]);
    }
  }

  /** Sliding the window: the byte that leaves is cancelled by its word rotated by the width. */
  lemma SlideWindow(t: Table, win: seq<Octet>, c: Octet)
    requires win != [] && |win| < 64
    ensures WindowHash(t, win[1..] + [c])
         == Xor(Rotate(WindowHash(t, win), 1), Xor(t[c], Rotate(t[win[0]], |win|)))
  {
    var first, tail := Rotate(t[win[0]], |win| - 1), WindowHash(t, win[1..]);
    AppendByte(t, win[1..], c);
    RotateStep(t[win[0]], |win| - 1);
    RotateXor(first, tail, 1);
    XorCancel(Rotate(first, 1), Rotate(tail, 1), t[c]);
  }

  // ----- scanning -----

  /** What a scan is run with: the hash of a window, its width and the trigger condition. */
  datatype Params = Params(hash: seq<Octet> -> Word, w: nat, mask: Word, trigger: Word)

  function HashOf(t: Table): seq<Octet> -> Word {
    (win: seq<Octet>) => if |win| <= 64 then WindowHash(t, win) else Zero()
  }

  /** The window after i bytes of a stream that starts with the w bytes of history. */
  function WindowAt(w: nat, stream: seq<Octet>, i: nat): seq<Octet> {
    if i + w <= |stream| then stream[i..i + w] else []
  }

  predicate Hits(p: Params, win: seq<Octet>) {
    Meets(p.hash(win), p.mask, p.trigger)
  }

  function HitsAt(p: Params, stream: seq<Octet>): nat -> bool {
    (i: nat) => Hits(p, WindowAt(p.w, stream, i))
  }

  datatype Outcome = Outcome(hit: bool, offset: nat)

  /** The scan from position i: stop one past the first byte whose window hits, else at limit. */
  function Scan(hits: nat -> bool, i: nat, limit: nat): (o: Outcome)
    requires i <= limit
    ensures i <= o.offset <= limit
    decreases limit - i
  {
    if i == limit then Outcome(false, limit)
    else if hits(i + 1) then Outcome(true, i + 1)
    else Scan(hits, i + 1, limit)
  }

  /** Scan reports a hit exactly when some position hits, and then the first such position. */
  lemma {:induction false} ScanFindsFirst(hits: nat -> bool, i: nat, limit: nat)
    requires i <= limit
    ensures var o := Scan(hits, i, limit);
            && (o.hit <==> exists j: nat :: i < j <= limit && hits(j))
            && (o.hit ==> i < o.offset <= limit && hits(o.offset))
            && (!o.hit ==> o.offset == limit)
            && (forall j: nat :: i < j < o.offset ==> !hits(j))
    decreases limit - i
  {
    if i < limit && !hits(i + 1) {
      ScanFindsFirst(hits, i + 1, limit);
    }
  }

  /**
   How far _rolling_hash2_run reads.  The length is handed to the fast loop as a signed int, so
   from 2^31 on that loop makes no turn and only the first w bytes are looked at.
   */
  function Limit(w: nat, len: nat): nat {
    if len < TWO31 then len else w
  }

  /** The second table holds each word of the first, rotated by the window width. */
  ghost predicate Rotated(t1: Table, t2: Table, w: nat)
    requires w <= 64
  {
    forall k :: 0 <= k < 256 ==> t2[k] == Rotate(t1[k], w)
  }

  /** hash_fn: rotate, then mix in the byte that enters and the one that leaves. */
  function Roll(t1: Table, t2: Table, h: Word, enters: Octet, leaves: Octet): Word {
    Xor(Or(Shl(h, 1), Shr(h, 63)), Xor(t1[enters], t2[leaves]))
  }

  /** With these tables, rolling turns the hash of one window into the hash of the next. */
  ghost predicate Slides(hash: seq<Octet> -> Word, t1: Table, t2: Table, w: nat) {
    forall win: seq<Octet>, c: Octet {:trigger Roll(t1, t2, hash(win), c, win[0])} ::
      |win| == w > 0 ==> Roll(t1, t2, hash(win), c, win[0]) == hash(win[1..] + [c])
  }

  lemma RotatedTablesSlide(t1: Table, t2: Table, w: nat)
    requires 1 <= w <= MAX_WINDOW && Rotated(t1, t2, w)
    ensures Slides(HashOf(t1), t1, t2, w)
  {
    var hash := HashOf(t1);
    forall win: seq<Octet>, c: Octet {:trigger Roll(t1, t2, hash(win), c, win[0])} | |win| == w
      ensures Roll(t1, t2, hash(win), c, win[0]) == hash(win[1..] + [c])
    {
      ShiftsRotate(WindowHash(t1, win), 1);
      SlideWindow(t1, win, c);
    }
  }

  /** One step along the stream: the byte that leaves, in the history or in the buffer, and the next window. */
  lemma SlideAt(w: nat, history: seq<Octet>, buffer: seq<Octet>, i: nat)
    requires |history| == w > 0 && i < |buffer|
    ensures var win := WindowAt(w, history + buffer, i);
            && |win| == w
            && win[0] == (if i < w then history[i] else buffer[i - w])
            && win[1..] + [buffer[i]] == WindowAt(w, history + buffer, i + 1)
  {
  }

  /** The C code of hash_fn, which the loops repeat inline. */
  method HashFn(h: Word, t1: array<Word>, t2: array<Word>, newChar: Octet, oldChar: Octet,
                ghost hash: seq<Octet> -> Word, ghost w: nat, ghost win: seq<Octet>)
    returns (h': Word)
    requires t1.Length == 256 && t2.Length == 256 && Slides(hash, t1[..], t2[..], w)
    requires |win| == w > 0 && win[0] == oldChar && h == hash(win)
    ensures h' == hash(win[1..] + [newChar])
  {
    h' := Or(Shl(h, 1), Shr(h, 63));
    h' := Xor(h', Xor(t1[newChar], t2[oldChar]));
    assert h' == Roll(t1[..], t2[..], hash(win), newChar, win[0]);
  }

  /**
   _rolling_hash2_run_until_base.  The entering bytes are b[i], the leaving ones b[i - w]; the
   ghost history is what preceded b.
   */
  method RunUntilBase(idx: nat, maxIdx: int, t1: array<Word>, t2: array<Word>, b: seq<Octet>, w: nat,
                      hash: Word, mask: Word, trigger: Word, ghost p: Params, ghost history: seq<Octet>)
    returns (idx': nat, h: Word)
    requires t1.Length == 256 && t2.Length == 256
    requires p.w == w && p.mask == mask && p.trigger == trigger && Slides(p.hash, t1[..], t2[..], w)
    requires 1 <= w <= idx <= |b| && maxIdx <= |b| && |history| == w
    requires hash == p.hash(WindowAt(w, history + b, idx))
    ensures var stream, limit := history + b, if idx <= maxIdx then maxIdx else idx;
            && idx' <= limit
            && Scan(HitsAt(p, stream), idx, limit) == Outcome(idx' < limit, if idx' < limit then idx' + 1 else limit)
            && h == p.hash(WindowAt(w, stream, if idx' < limit then idx' + 1 else limit))
  {
    ghost var stream, limit := history + b, if idx <= maxIdx then maxIdx else idx;
    ghost var hits := HitsAt(p, stream);
    var i := idx;
    h := hash;
    if trigger == Zero() {
      while i < maxIdx
        invariant idx <= i <= limit
        invariant h == p.hash(WindowAt(w, stream, i))
        invariant Scan(hits, idx, limit) == Scan(hits, i, limit)
      {
        SlideAt(w, history, b, i);
        h := HashFn(h, t1, t2, b[i], b[i - w], p.hash, w, WindowAt(w, stream, i));
        var meets := MaskedEquals(h, mask, Zero());
        if meets {
          return i, h;
        }
        i := i + 1;
      }
    } else {
      while i < maxIdx
        invariant idx <= i <= limit
        invariant h == p.hash(WindowAt(w, stream, i))
        invariant Scan(hits, idx, limit) == Scan(hits, i, limit)
      {
        SlideAt(w, history, b, i);
        h := HashFn(h, t1, t2, b[i], b[i - w], p.hash, w, WindowAt(w, stream, i));
        var meets := MaskedEquals(h, mask, trigger);
        if meets {
          return i, h;
        }
        i := i + 1;
      }
    }
    return i, h;
  }

  class RhState {
    const history: array<Octet>
    const table1: array<Word>
    const table2: array<Word>
    var hash: Word
    var w: nat

    constructor ()
      ensures fresh(history) && fresh(table1) && fresh(table2)
      ensures history.Length == MAX_WINDOW && table1.Length == 256 && table2.Length == 256 && table1 != table2
    {
      history := new Octet[MAX_WINDOW](_ => 0);
      table1 := new Word[256](_ => Zero());
      table2 := new Word[256](_ => Zero());
      hash := Zero();
      w := 0;
    }

    ghost predicate Ready()
      reads this, table1, table2
    {
      && history.Length == MAX_WINDOW && table1.Length == 256 && table2.Length == 256
      && table1 != table2
      && 1 <= w <= MAX_WINDOW
      && Rotated(table1[..], table2[..], w)
    }

    ghost function Window(): seq<Octet>
      reads this, history
      requires w <= history.Length
    {
      history[..w]
    }

    ghost function Hash(): seq<Octet> -> Word
      reads this, table1
      requires table1.Length == 256
    {
      HashOf(table1[..])
    }

    /** The hash is the hash of the history window. */
    ghost predicate Valid()
      reads this, history, table1, table2
    {
      Ready() && hash == Hash()(Window())
    }

    /** A width of zero would shift by 64, which C leaves undefined; the documented widths start at one. */
    method Init(pi: Table, width: nat) returns (ret: int)
      requires history.Length == MAX_WINDOW && table1.Length == 256 && table2.Length == 256
      requires table1 != table2 && width >= 1
      modifies this, table1, table2
      ensures ret == if width <= 48 then 0 else -1
      ensures ret == 0 ==> Ready() && w == width && table1[..] == pi
      ensures ret == -1 ==> unchanged(this) && unchanged(table1) && unchanged(table2)
    {
      if width > MAX_WINDOW {
        return -1;
      }
      var i := 0;
      while i < 256
        invariant 0 <= i <= 256
        invariant table1[..i] == pi[..i]
        invariant forall k :: 0 <= k < i ==> table2[k] == Rotate(pi[k], width)
      {
        var v := pi[i];
        table1[i] := v;
        ShiftsRotate(v, width);
        table2[i] := Or(Shl(v, width), Shr(v, 64 - width));
        i := i + 1;
      }
      w := width;
      assert table1[..] == pi;
      return 0;
    }

    method Reset(initBytes: seq<Octet>)
      requires Ready() && |initBytes| >= w
      modifies this`hash, history
      ensures Valid() && Hash() == old(Hash()) && Window() == initBytes[..w]
    {
      var h := Zero();
      var i := 0;
      while i < w
        invariant 0 <= i <= w
        invariant h == WindowHash(table1[..], initBytes[..i])
      {
        AppendByte(table1[..], initBytes[..i], initBytes[i]);
        assert initBytes[..i] + [initBytes[i]] == initBytes[..i + 1];
        ShiftsRotate(h, 1);
        h := Or(Shl(h, 1), Shr(h, 63));
        h := Xor(h, table1[initBytes[i]]);
        i := i + 1;
      }
      ghost var t := table1[..];
      hash := h;
      forall k | 0 <= k < w {
        history[k] := initBytes[k];
      }
      assert table1[..] == t && history[..w] == initBytes[..w];
    }

    /** The history becomes its own last w - i bytes followed by the first i bytes of the buffer. */
    method ShiftHistory(buffer: seq<Octet>, i: nat)
      requires history.Length == MAX_WINDOW && i <= w <= MAX_WINDOW && i <= |buffer|
      modifies history
      ensures Window() == WindowAt(w, old(Window()) + buffer, i)
    {
      ghost var was := Window();
      forall k | 0 <= k < w - i {
        history[k] := history[k + i];
      }
      forall k | w - i <= k < w {
        history[k] := buffer[k - (w - i)];
      }
      assert Window() == WindowAt(w, was + buffer, i);
    }

    /** The history becomes the last w of the first i bytes of the buffer. */
    method CopyHistory(buffer: seq<Octet>, i: nat)
      requires history.Length == MAX_WINDOW && w <= MAX_WINDOW && w <= i <= |buffer|
      modifies history
      ensures Window() == WindowAt(w, old(Window()) + buffer, i)
    {
      ghost var was := Window();
      forall k | 0 <= k < w {
        history[k] := buffer[i - w + k];
      }
      assert WindowAt(w, was + buffer, i) == buffer[i - w..i];
      assert Window() == buffer[i - w..i];
    }

    /**
     _rolling_hash2_run.  It returns what Scan finds on the history window followed by the buffer,
     and leaves hash and history at the window where the scan stopped.
     */
    method Run(buffer: seq<Octet>, mask: Word, trigger: Word) returns (hit: bool, offset: nat)
      requires Valid() && |buffer| < 2 * TWO31
      modifies this`hash, history
      ensures Valid() && Hash() == old(Hash())
      ensures var stream := old(Window()) + buffer;
              && Outcome(hit, offset) == Scan(HitsAt(Params(Hash(), w, mask, trigger), stream), 0, Limit(w, |buffer|))
              && Window() == WindowAt(w, stream, offset)
    {
      RotatedTablesSlide(table1[..], table2[..], w);
      hit, offset := RunWith(buffer, mask, trigger, Params(Hash(), w, mask, trigger));
    }

    /** The body of Run, for any hash the tables slide. */
    method RunWith(buffer: seq<Octet>, mask: Word, trigger: Word, ghost p: Params) returns (hit: bool, offset: nat)
      requires history.Length == MAX_WINDOW && table1.Length == 256 && table2.Length == 256
      requires 1 <= w <= MAX_WINDOW && |buffer| < 2 * TWO31
      requires p.w == w && p.mask == mask && p.trigger == trigger && Slides(p.hash, table1[..], table2[..], w)
      requires hash == p.hash(Window())
      modifies this`hash, history
      ensures table1[..] == old(table1[..]) && table2[..] == old(table2[..])
      ensures hash == p.hash(Window())
      ensures var stream := old(Window()) + buffer;
              && Outcome(hit, offset) == Scan(HitsAt(p, stream), 0, Limit(w, |buffer|))
              && Window() == WindowAt(w, stream, offset)
    {
      var i, h, meets := Head(buffer, mask, trigger, p);
      if meets || i < w {
        offset, hit := i, meets;
        ShiftHistory(buffer, i);
        hash := h;
        return;
      }
      hit, offset := FinishRun(buffer, h, mask, trigger, p);
    }

    /** The loop over the first w positions, where the byte that leaves is in the history. */
    method Head(buffer: seq<Octet>, mask: Word, trigger: Word, ghost p: Params) returns (i: nat, h: Word, meets: bool)
      requires history.Length == MAX_WINDOW && table1.Length == 256 && table2.Length == 256
      requires 1 <= w <= MAX_WINDOW && |buffer| < 2 * TWO31
      requires p.w == w && p.mask == mask && p.trigger == trigger && Slides(p.hash, table1[..], table2[..], w)
      requires hash == p.hash(Window())
      ensures i <= w && i <= |buffer| && h == p.hash(WindowAt(w, Window() + buffer, i))
      ensures var hits, limit := HitsAt(p, Window() + buffer), Limit(w, |buffer|);
              && i <= limit
              && (meets ==> Scan(hits, 0, limit) == Outcome(true, i))
              && (!meets ==> (i == w || i == |buffer|) && Scan(hits, 0, limit) == Scan(hits, i, limit))
              && (!meets && i == w ==> !hits(i))
    {
      ghost var was, stream, limit := Window(), Window() + buffer, Limit(w, |buffer|);
      ghost var hits := HitsAt(p, stream);
      assert was == WindowAt(w, stream, 0);
      h, i := hash, 0;
      while i < w
        invariant 0 <= i <= w && i <= limit && i <= |buffer|
        invariant h == p.hash(WindowAt(w, stream, i))
        invariant Scan(hits, 0, limit) == Scan(hits, i, limit)
        invariant i > 0 ==> !hits(i)
      {
        if i == |buffer| {
          return i, h, false;
        }
        SlideAt(w, was, buffer, i);
        h := HashFn(h, table1, table2, buffer[i], history[i], p.hash, w, WindowAt(w, stream, i));
        meets := MaskedEquals(h, mask, trigger);
        i := i + 1;
        if meets {
          return;
        }
      }
      meets := false;
    }

    /** The second half of Run: the fast loop, its re-test and the copy of the last window. */
    method FinishRun(buffer: seq<Octet>, scanned: Word, mask: Word, trigger: Word, ghost p: Params)
      returns (hit: bool, offset: nat)
      requires history.Length == MAX_WINDOW && table1.Length == 256 && table2.Length == 256
      requires 1 <= w <= MAX_WINDOW && w <= |buffer| < 2 * TWO31
      requires p.w == w && p.mask == mask && p.trigger == trigger && Slides(p.hash, table1[..], table2[..], w)
      requires scanned == p.hash(WindowAt(w, Window() + buffer, w)) && !HitsAt(p, Window() + buffer)(w)
      modifies this`hash, history
      ensures table1[..] == old(table1[..]) && table2[..] == old(table2[..])
      ensures hash == p.hash(Window())
      ensures var stream := old(Window()) + buffer;
              && Outcome(hit, offset) == Scan(HitsAt(p, stream), w, Limit(w, |buffer|))
              && Window() == WindowAt(w, stream, offset)
    {
      var h;
      hit, offset, h := FinishScan(buffer, scanned, mask, trigger, p);
      CopyHistory(buffer, offset);
      hash := h;
    }

    /** The fast loop and its re-test. */
    method FinishScan(buffer: seq<Octet>, scanned: Word, mask: Word, trigger: Word, ghost p: Params)
      returns (hit: bool, offset: nat, h: Word)
      requires history.Length == MAX_WINDOW && table1.Length == 256 && table2.Length == 256
      requires 1 <= w <= MAX_WINDOW && w <= |buffer| < 2 * TWO31
      requires p.w == w && p.mask == mask && p.trigger == trigger && Slides(p.hash, table1[..], table2[..], w)
      requires scanned == p.hash(WindowAt(w, Window() + buffer, w)) && !HitsAt(p, Window() + buffer)(w)
      ensures w <= offset <= |buffer| && h == p.hash(WindowAt(w, Window() + buffer, offset))
      ensures Outcome(hit, offset) == Scan(HitsAt(p, Window() + buffer), w, Limit(w, |buffer|))
    {
      ghost var stream, limit := Window() + buffer, Limit(w, |buffer|);
      var maxIdx := if |buffer| < TWO31 then |buffer| else |buffer| - 2 * TWO31;
      var i;
      i, h := RunUntilBase(w, maxIdx, table1, table2, buffer, w, scanned, mask, trigger, p, Window());
      ScanFindsFirst(HitsAt(p, stream), w, limit);
      hit := MaskedEquals(h, mask, trigger);
      assert hit == HitsAt(p, stream)(if i < limit then i + 1 else limit);
      assert hit <==> i < limit;
      if hit {
        i := i + 1;
      }
      offset := i;
    }
  }
}
