/** Rolling state in use: from init to a run, and one input given in one run or in two. */
module RollingRuns {
  import opened Bits64
  import opened RollingHash
  import opened RollingLemmas

  /** Init, reset and run on a new state: the scan of the initial window and the buffer. */
  method FirstRun(pi: Table, width: nat, initBytes: seq<Octet>, buffer: seq<Octet>, mask: Word, trigger: Word)
    returns (state: RhState, hit: bool, offset: nat)
    requires 1 <= width <= MAX_WINDOW && |initBytes| == width && |buffer| < TWO31
    ensures fresh(state) && fresh(state.history) && state.Valid() && state.w == width
    ensures Outcome(hit, offset)
         == Scan(HitsAt(Params(HashOf(pi), width, mask, trigger), initBytes + buffer), 0, |buffer|)
    ensures state.Window() == WindowAt(width, initBytes + buffer, offset)
  {
    state := new RhState();
    var ret := state.Init(pi, width);
    state.Reset(initBytes);
    assert initBytes[..width] == initBytes;
    hit, offset := state.Run(buffer, mask, trigger);
  }

  /** The window is reached in the same way whether or not more input follows. */
  lemma WindowOfPrefix(w: nat, history: seq<Octet>, a: seq<Octet>, b: seq<Octet>, o: nat)
    requires |history| == w && o <= |a|
    ensures WindowAt(w, history + (a + b), o) == WindowAt(w, history + a, o)
  {
    assert history + (a + b) == history + a + b;
    PrefixSlice(history + a, b, o, o + w);
  }

  lemma PrefixSlice<T>(x: seq<T>, y: seq<T>, i: nat, j: nat)
    requires i <= j <= |x|
    ensures (x + y)[i..j] == x[i..j]
  {
  }

  /** And whether or not more input came before. */
  lemma WindowResumed(w: nat, history: seq<Octet>, a: seq<Octet>, b: seq<Octet>, o: nat)
    requires |history| == w && o <= |b|
    ensures WindowAt(w, history + (a + b), |a| + o) == WindowAt(w, WindowAt(w, history + a, |a|) + b, o)
  {
    assert history + (a + b) == history + a + b;
    SavedWindowResumes(w, history, a, b);
    DropSlice(history + a + b, |a|, o, o + w);
  }

  lemma DropSlice<T>(s: seq<T>, n: nat, i: nat, j: nat)
    requires n <= |s| && i <= j <= |s| - n
    ensures s[n..][i..j] == s[n + i..n + j]
  {
  }

  /** What a run finds in input after a history window, and where it leaves the window. */
  function Found(p: Params, history: seq<Octet>, input: seq<Octet>): (o: Outcome)
    ensures o.offset <= |input|
  {
    Scan(HitsAt(p, history + input), 0, |input|)
  }

  function WindowAfter(p: Params, history: seq<Octet>, input: seq<Octet>): seq<Octet> {
    WindowAt(p.w, history + input, Found(p, history, input).offset)
  }

  /** The scan of both inputs is that of the first, and if it hits nothing, that of the second, resumed. */
  lemma ScansAgree(p: Params, history: seq<Octet>, a: seq<Octet>, b: seq<Octet>)
    requires |history| == p.w
    ensures var first, second := Found(p, history, a), Found(p, WindowAt(p.w, history + a, |a|), b);
            Found(p, history, a + b) == if first.hit then first else Shift(second, |a|)
  {
    SavedWindowResumes(p.w, history, a, b);
    ResumedStream(p, history + a + b, history + a, WindowAt(p.w, history + a, |a|) + b, |a|, |a + b|);
    assert history + (a + b) == history + a + b;
  }

  lemma ResumedStream(p: Params, stream: seq<Octet>, start: seq<Octet>, rest: seq<Octet>, n: nat, limit: nat)
    requires n <= limit && limit + p.w <= |stream| && stream[..n + p.w] == start && stream[n..] == rest
    ensures var first, second := Scan(HitsAt(p, start), 0, n), Scan(HitsAt(p, rest), 0, limit - n);
            Scan(HitsAt(p, stream), 0, limit) == if first.hit then first else Shift(second, n)
  {
    ResumedScan(p, stream, n, limit);
  }

  /** A run without a hit has read everything. */
  lemma NoHitReadsAll(p: Params, history: seq<Octet>, input: seq<Octet>)
    ensures !Found(p, history, input).hit ==> Found(p, history, input).offset == |input|
  {
    ScanFindsFirst(HitsAt(p, history + input), 0, |input|);
  }

  /** And so do the windows. */
  lemma WindowsAfterAgree(p: Params, history: seq<Octet>, a: seq<Octet>, b: seq<Octet>)
    requires |history| == p.w
    ensures WindowAfter(p, history, a + b)
         == if Found(p, history, a).hit then WindowAfter(p, history, a)
            else WindowAfter(p, WindowAfter(p, history, a), b)
  {
    ScansAgree(p, history, a, b);
    NoHitReadsAll(p, history, a);
    if Found(p, history, a).hit {
      WindowOfPrefix(p.w, history, a, b, Found(p, history, a).offset);
    } else {
      WindowResumed(p.w, history, a, b, Found(p, WindowAt(p.w, history + a, |a|), b).offset);
    }
  }

  /** What a run finds and leaves behind, as functions of window and input. */
  datatype Runs = Runs(found: (seq<Octet>, seq<Octet>) -> Outcome, after: (seq<Octet>, seq<Octet>) -> seq<Octet>)

  ghost predicate Tells(t: Runs, p: Params) {
    && (forall h, input {:trigger Found(p, h, input)} :: t.found(h, input) == Found(p, h, input))
    && (forall h, input {:trigger WindowAfter(p, h, input)} :: t.after(h, input) == WindowAfter(p, h, input))
  }

  function RunsOf(p: Params): Runs {
    Runs((h: seq<Octet>, input: seq<Octet>) => Found(p, h, input),
         (h: seq<Octet>, input: seq<Octet>) => WindowAfter(p, h, input))
  }

  lemma RunsTell(p: Params)
    ensures Tells(RunsOf(p), p)
  {
  }

  lemma TwoAreOne(t: Runs, p: Params, history: seq<Octet>, a: seq<Octet>, b: seq<Octet>)
    requires |history| == p.w && Tells(t, p)
    ensures var first, second := t.found(history, a), t.found(t.after(history, a), b);
            && t.found(history, a + b) == (if first.hit then first else Shift(second, |a|))
            && t.after(history, a + b) == (if first.hit then t.after(history, a) else t.after(t.after(history, a), b))
  {
    ScansAgree(p, history, a, b);
    WindowsAfterAgree(p, history, a, b);
    NoHitReadsAll(p, history, a);
    assert t.found(history, a) == Found(p, history, a) && t.after(history, a) == WindowAfter(p, history, a);
    assert t.found(history, a + b) == Found(p, history, a + b);
    assert t.after(history, a + b) == WindowAfter(p, history, a + b);
    var h := WindowAfter(p, history, a);
    assert t.found(h, b) == Found(p, h, b) && t.after(h, b) == WindowAfter(p, h, b);
  }

  /** The parameters are those of the state. */
  ghost predicate Fits(p: Params, state: RhState)
    reads state, state.table1
    requires state.table1.Length == 256
  {
    p.hash == state.Hash() && p.w == state.w
  }

  method RunFinds(state: RhState, input: seq<Octet>, mask: Word, trigger: Word, ghost p: Params, ghost t: Runs)
    returns (hit: bool, offset: nat)
    requires state.Valid() && Fits(p, state) && p.mask == mask && p.trigger == trigger && |input| < TWO31
    requires Tells(t, p)
    modifies state`hash, state.history
    ensures state.Valid() && Fits(p, state) && offset <= |input|
    ensures Outcome(hit, offset) == t.found(old(state.Window()), input)
    ensures state.Window() == t.after(old(state.Window()), input)
  {
    ghost var h := state.Window();
    assert t.found(h, input) == Found(p, h, input) && t.after(h, input) == WindowAfter(p, h, input);
    hit, offset := state.Run(input, mask, trigger);
  }

  /** Two runs, the second only if the first hits nothing, find what one run on both inputs finds. */
  method RunTwice(state: RhState, a: seq<Octet>, b: seq<Octet>, mask: Word, trigger: Word,
                  ghost p: Params, ghost t: Runs)
    returns (hit: bool, offset: nat)
    requires state.Valid() && Fits(p, state) && p.mask == mask && p.trigger == trigger && |a + b| < TWO31
    requires Tells(t, p)
    modifies state`hash, state.history
    ensures state.Valid() && Fits(p, state)
    ensures Outcome(hit, offset) == t.found(old(state.Window()), a + b)
    ensures state.Window() == t.after(old(state.Window()), a + b)
  {
    TwoAreOne(t, p, state.Window(), a, b);
    hit, offset := RunFinds(state, a, mask, trigger, p, t);
    if !hit {
      var more;
      hit, more := RunFinds(state, b, mask, trigger, p, t);
      offset := |a| + more;
    }
  }

  /** What the two ways of running have to agree on. */
  ghost predicate Alike(x: RhState, y: RhState)
    reads x, y, x.history, y.history, x.table1, y.table1
    requires x.history.Length == y.history.Length == MAX_WINDOW && x.table1.Length == y.table1.Length == 256
    requires x.w <= MAX_WINDOW && y.w <= MAX_WINDOW
  {
    x.w == y.w && x.Hash() == y.Hash() && x.Window() == y.Window() && x.hash == y.hash
  }

  lemma AlikeAgain(x: RhState, y: RhState, p: Params)
    requires x.Valid() && y.Valid() && Fits(p, x) && Fits(p, y) && x.Window() == y.Window()
    ensures Alike(x, y)
  {
  }

  /**
   Split invariance of the run.  One state runs on a, and if that hits nothing on b from what it
   saved; another, that started alike, runs on both inputs in one piece.  They report the same hit
   at the same place, and are alike again: same hash, same history.
   */
  method OneRunOrTwo(x: RhState, y: RhState, a: seq<Octet>, b: seq<Octet>, mask: Word, trigger: Word)
    returns (hit: bool, offset: nat, hit': bool, offset': nat)
    requires x.Valid() && y.Valid() && Alike(x, y) && |a + b| < TWO31
    requires x != y && x.history != y.history
    modifies x`hash, x.history, y`hash, y.history
    ensures x.Valid() && y.Valid() && Alike(x, y)
    ensures hit == hit' && offset == offset'
  {
    ghost var p := Params(x.Hash(), x.w, mask, trigger);
    RunsTell(p);
    hit, offset, hit', offset' := BothWays(x, y, a, b, mask, trigger, p, RunsOf(p));
    AlikeAgain(x, y, p);
  }

  method BothWays(x: RhState, y: RhState, a: seq<Octet>, b: seq<Octet>, mask: Word, trigger: Word,
                  ghost p: Params, ghost t: Runs)
    returns (hit: bool, offset: nat, hit': bool, offset': nat)
    requires x.Valid() && y.Valid() && Fits(p, x) && Fits(p, y) && p.mask == mask && p.trigger == trigger
    requires x.Window() == y.Window() && |a + b| < TWO31 && x != y && x.history != y.history && Tells(t, p)
    modifies x`hash, x.history, y`hash, y.history
    ensures x.Valid() && y.Valid() && Fits(p, x) && Fits(p, y)
    ensures hit == hit' && offset == offset' && x.Window() == y.Window()
  {
    hit', offset' := RunFinds(y, a + b, mask, trigger, p, t);
    hit, offset := RunTwice(x, a, b, mask, trigger, p, t);
  }
}
