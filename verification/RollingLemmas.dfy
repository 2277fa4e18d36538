/** Properties of whole scans: resuming, agreement of streams, and the length limit of a run. */
module RollingLemmas {
  import opened Bits64
  import opened RollingHash

  function Shift(o: Outcome, k: nat): Outcome {
    Outcome(o.hit, o.offset + k)
  }

  lemma {:induction false} ScanSplit(hits: nat -> bool, i: nat, mid: nat, limit: nat)
    requires i <= mid <= limit
    ensures var o := Scan(hits, i, mid);
            Scan(hits, i, limit) == if o.hit then o else Scan(hits, mid, limit)
    decreases mid - i
  {
    if i < mid && !hits(i + 1) {
      ScanSplit(hits, i + 1, mid, limit);
    }
  }

  lemma {:induction false} ScanShift(f: nat -> bool, g: nat -> bool, k: nat, i: nat, limit: nat)
    requires i <= limit
    requires forall j: nat :: i < j <= limit ==> f(k + j) == g(j)
    ensures Scan(f, k + i, k + limit) == Shift(Scan(g, i, limit), k)
    decreases limit - i
  {
    if i < limit {
      assert f(k + (i + 1)) == g(i + 1);
      if !g(i + 1) {
        ScanShift(f, g, k, i + 1, limit);
      }
    }
  }

  /** What follows the first limit bytes after the window does not change what a scan of them finds. */
  lemma ScanOfPrefix(p: Params, stream: seq<Octet>, limit: nat)
    requires limit + p.w <= |stream|
    ensures Scan(HitsAt(p, stream), 0, limit) == Scan(HitsAt(p, stream[..limit + p.w]), 0, limit)
  {
    var f, g := HitsAt(p, stream), HitsAt(p, stream[..limit + p.w]);
    forall j: nat | 0 < j <= limit
      ensures f(0 + j) == g(j)
    {
      assert stream[..limit + p.w][j..j + p.w] == stream[j..j + p.w];
    }
    ScanShift(f, g, 0, 0, limit);
  }

  /** Nor do the first n bytes change what a scan finds that starts with the window after them. */
  lemma ScanOfSuffix(p: Params, stream: seq<Octet>, n: nat, limit: nat)
    requires n <= limit && limit + p.w <= |stream|
    ensures Scan(HitsAt(p, stream), n, limit) == Shift(Scan(HitsAt(p, stream[n..]), 0, limit - n), n)
  {
    var f, g := HitsAt(p, stream), HitsAt(p, stream[n..]);
    forall j: nat | 0 < j <= limit - n
      ensures f(n + j) == g(j)
    {
      assert stream[n..][j..j + p.w] == stream[n + j..n + j + p.w];
    }
    ScanShift(f, g, n, 0, limit - n);
  }

  /**
   Split invariance.  A stream is a history window followed by input.  Scanning its first n input
   bytes, however few, and then resuming with the window they leave behind, finds what one scan
   finds.
   */
  lemma ResumedScan(p: Params, stream: seq<Octet>, n: nat, limit: nat)
    requires n <= limit && limit + p.w <= |stream|
    ensures var first := Scan(HitsAt(p, stream[..n + p.w]), 0, n);
            var second := Scan(HitsAt(p, stream[n..]), 0, limit - n);
            Scan(HitsAt(p, stream), 0, limit) == if first.hit then first else Shift(second, n)
  {
    ScanOfPrefix(p, stream, n);
    ScanOfSuffix(p, stream, n, limit);
    ScanSplit(HitsAt(p, stream), 0, n, limit);
  }

  /** The stream of a second run, its saved window and its buffer, is the rest of the whole stream. */
  lemma SavedWindowResumes(w: nat, history: seq<Octet>, a: seq<Octet>, b: seq<Octet>)
    requires |history| == w
    ensures (history + a + b)[..|a| + w] == history + a
    ensures (history + a + b)[|a|..] == WindowAt(w, history + a, |a|) + b
  {
  }

  /** Streams that agree on a window and on what follows it are scanned alike from there on. */
  lemma SharedWindowSharedHits(p: Params, x: seq<Octet>, y: seq<Octet>, i: nat, j: nat, n: nat)
    requires i + n + p.w <= |x| && j + n + p.w <= |y|
    requires x[i..i + n + p.w] == y[j..j + n + p.w]
    ensures Shift(Scan(HitsAt(p, x), i, i + n), j) == Shift(Scan(HitsAt(p, y), j, j + n), i)
  {
    ScanOfMiddle(p, x, i, n);
    ScanOfMiddle(p, y, j, n);
  }

  /** What is before the window and what is behind the last byte does not matter. */
  lemma ScanOfMiddle(p: Params, stream: seq<Octet>, i: nat, n: nat)
    requires i + n + p.w <= |stream|
    ensures Scan(HitsAt(p, stream), i, i + n) == Shift(Scan(HitsAt(p, stream[i..i + n + p.w]), 0, n), i)
  {
    ScanOfSuffix(p, stream, i, i + n);
    ScanOfPrefix(p, stream[i..], n);
    assert stream[i..][..n + p.w] == stream[i..i + n + p.w];
  }

  /**
   A run reports what scanning its whole buffer would report exactly when the buffer is shorter
   than 2^31 bytes or one of its first w bytes hits.
   */
  lemma RunReadsAllExactly(hits: nat -> bool, w: nat, len: nat)
    requires 1 <= w <= MAX_WINDOW
    ensures Scan(hits, 0, Limit(w, len)) == Scan(hits, 0, len)
       <==> len < 0x8000_0000 || exists j: nat :: 0 < j <= w && hits(j)
  {
    if len >= TWO31 {
      ScanSplit(hits, 0, w, len);
      ScanFindsFirst(hits, 0, w);
      ScanFindsFirst(hits, w, len);
    }
  }

  lemma HashOfOneByte(t: Table, c: Octet)
    ensures HashOf(t)([c]) == t[c]
  {
    assert [c][1..] == [];
    RotateNothing(t[c]);
    XorZero(t[c]);
    assert WindowHash(t, [c]) == Xor(Rotate(t[c], 0), Zero());
  }

  /** The word of a uint32_t: no bit among the high 32, which come first. */
  ghost predicate Fits32(x: Word) {
    forall k :: 0 <= k < 32 ==> !x.b[k]
  }

  /** The low 32 bits of x. */
  function Low32(x: Word): Word {
    Bits(seq(64, k requires 0 <= k < 64 => k >= 32 && x.b[k]))
  }

  /** With all 32 mask bits set, only a word with the same low bits meets the trigger. */
  lemma MeetsLow32(x: Word, y: Word)
    ensures Meets(x, Low32(Bits(seq(64, _ => true))), Low32(y)) <==> forall k :: 32 <= k < 64 ==> x.b[k] == y.b[k]
  {
    var mask, value := Low32(Bits(seq(64, _ => true))), Low32(y);
    assert forall k :: 32 <= k < 64 ==> (value.b[k] == (x.b[k] && mask.b[k]) <==> x.b[k] == y.b[k]);
  }

  /**
   Inputs for which the run misses a hit, for every table in which the words of two bytes x and y
   differ in some low bit, as the words of the bytes 0 and 1 in the library's table do: window width
   one, all mask bits set, the low bits of the word of y as trigger, and 2^31 times x but for a y at
   index five.
   */
  lemma LongBufferMissesHit(t: Table, x: Octet, y: Octet, k: nat) returns (p: Params, buffer: seq<Octet>)
    requires 32 <= k < 64 && t[x].b[k] != t[y].b[k]
    ensures p.hash == HashOf(t) && p.w == 1 && Fits32(p.mask) && Fits32(p.trigger) && |buffer| == 0x8000_0000
    ensures var hits := HitsAt(p, [x] + buffer);
            && Scan(hits, 0, Limit(1, |buffer|)) == Outcome(false, 1)
            && Scan(hits, 0, |buffer|) == Outcome(true, 6)
  {
    p := Params(HashOf(t), 1, Low32(Bits(seq(64, _ => true))), Low32(t[y]));
    buffer := seq(TWO31, i => if i == 5 then y else x);
    HashOfOneByte(t, x);
    HashOfOneByte(t, y);
    MeetsLow32(t[x], t[y]);
    MeetsLow32(t[y], t[y]);
    MarkedScan(p, [x] + buffer, x, y);
  }

  lemma MarkedScan(p: Params, stream: seq<Octet>, x: Octet, y: Octet)
    requires p.w == 1 && |stream| == TWO31 + 1 && !Hits(p, [x]) && Hits(p, [y])
    requires stream[..7] == [x, x, x, x, x, x, y]
    ensures Scan(HitsAt(p, stream), 0, 1) == Outcome(false, 1)
    ensures Scan(HitsAt(p, stream), 0, TWO31) == Outcome(true, 6)
  {
    var hits := HitsAt(p, stream);
    forall j: nat | j <= 6
      ensures hits(j) == (j == 6)
    {
      assert stream[j..j + 1] == [stream[..7][j]];
    }
    assert Scan(hits, 1, 1) == Outcome(false, 1);
    var i := 6;
    while i > 0
      invariant 0 <= i <= 6
      invariant i < 6 ==> Scan(hits, i, TWO31) == Outcome(true, 6)
      decreases i
    {
      i := i - 1;
    }
  }
}
