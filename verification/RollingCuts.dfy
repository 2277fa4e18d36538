/** Runs in a loop, as the library's test uses them: the cuts they make in a stream. */
module RollingCuts {
  import opened Bits64
  import opened RollingHash
  import opened RollingLemmas
  import opened RollingRuns

  /** The positions after i and up to limit that hit, in order. */
  function HitList(hits: nat -> bool, i: nat, limit: nat): seq<nat>
    requires i <= limit
    decreases limit - i
  {
    if i == limit then [] else (if hits(i + 1) then [i + 1] else []) + HitList(hits, i + 1, limit)
  }

  ghost predicate Increasing(cuts: seq<nat>) {
    forall a, b :: 0 <= a < b < |cuts| ==> cuts[a] < cuts[b]
  }

  lemma Prepended(c: nat, rest: seq<nat>)
    requires Increasing(rest) && forall r :: r in rest ==> c < r
    ensures Increasing([c] + rest) && forall r :: r in [c] + rest <==> r == c || r in rest
  {
    forall a, b | 0 <= a < b < |[c] + rest|
      ensures ([c] + rest)[a] < ([c] + rest)[b]
    {
      assert rest[b - 1] in rest;
    }
  }

  /** The list holds exactly the positions that hit, each once, in increasing order. */
  lemma {:induction false} HitListExact(hits: nat -> bool, i: nat, limit: nat, list: seq<nat>)
    requires i <= limit && list == HitList(hits, i, limit)
    ensures Increasing(list)
    ensures forall j: nat :: j in list <==> i < j <= limit && hits(j)
    decreases limit - i
  {
    if i < limit {
      var rest := HitList(hits, i + 1, limit);
      HitListExact(hits, i + 1, limit, rest);
      if hits(i + 1) {
        Prepended(i + 1, rest);
      } else {
        assert list == rest;
      }
    }
  }

  /** The list goes from one result of Scan to the next. */
  lemma {:induction false} ScanHeads(hits: nat -> bool, i: nat, limit: nat)
    requires i <= limit
    ensures var o := Scan(hits, i, limit);
            HitList(hits, i, limit) == if o.hit then [o.offset] + HitList(hits, o.offset, limit) else []
    decreases limit - i
  {
    if i < limit && !hits(i + 1) {
      ScanHeads(hits, i + 1, limit);
    }
  }

  function ShiftAll(cuts: seq<nat>, k: nat): seq<nat> {
    seq(|cuts|, n requires 0 <= n < |cuts| => cuts[n] + k)
  }

  lemma ShiftAllPlus(x: seq<nat>, y: seq<nat>, k: nat)
    ensures ShiftAll(x + y, k) == ShiftAll(x, k) + ShiftAll(y, k)
  {
  }

  lemma {:induction false} HitListShift(f: nat -> bool, g: nat -> bool, k: nat, i: nat, limit: nat,
                                        fs: seq<nat>, gs: seq<nat>)
    requires i <= limit && fs == HitList(f, k + i, k + limit) && gs == HitList(g, i, limit)
    requires forall j: nat :: i < j <= limit ==> f(k + j) == g(j)
    ensures fs == ShiftAll(gs, k)
    decreases limit - i
  {
    if i < limit {
      var rest, rest' := HitList(f, k + (i + 1), k + limit), HitList(g, i + 1, limit);
      HitListShift(f, g, k, i + 1, limit, rest, rest');
      assert f(k + (i + 1)) == g(i + 1);
      if g(i + 1) {
        ShiftAllPlus([i + 1], rest', k);
      } else {
        assert gs == rest' && fs == rest;
      }
    }
  }

  lemma MiddleSlice<T>(s: seq<T>, i: nat, n: nat, j: nat, w: nat)
    requires i + n <= |s| && j + w <= n
    ensures s[i..i + n][j..j + w] == s[i + j..i + j + w]
  {
    assert forall k {:trigger s[i + j..i + j + w][k]} :: 0 <= k < w ==> s[i..i + n][j + k] == s[i + j..i + j + w][k];
  }

  /** The first n positions behind i hit for f as the first n of all do for g. */
  ghost predicate SameHits(f: nat -> bool, g: nat -> bool, i: nat, n: nat) {
    forall j: nat :: 0 < j <= n ==> f(i + j) == g(j)
  }

  lemma HitsOfPiece(p: Params, stream: seq<Octet>, piece: seq<Octet>, i: nat, n: nat)
    requires i + n + p.w <= |stream| && piece == stream[i..i + n + p.w]
    ensures SameHits(HitsAt(p, stream), HitsAt(p, piece), i, n)
  {
    forall j: nat | 0 < j <= n
      ensures HitsAt(p, stream)(i + j) == HitsAt(p, piece)(j)
    {
      MiddleSlice(stream, i, n + p.w, j, p.w);
    }
  }

  lemma CutsAlike(f: nat -> bool, g: nat -> bool, i: nat, n: nat)
    requires SameHits(f, g, i, n)
    ensures HitList(f, i, i + n) == ShiftAll(HitList(g, 0, n), i)
  {
    HitListShift(f, g, i, 0, n, HitList(f, i, i + n), HitList(g, 0, n));
  }

  /** Of a stream only the piece from the window at i on, up to the last byte read, matters. */
  lemma CutsOfPiece(p: Params, stream: seq<Octet>, piece: seq<Octet>, i: nat, n: nat)
    requires i + n + p.w <= |stream| && piece == stream[i..i + n + p.w]
    ensures HitList(HitsAt(p, stream), i, i + n) == ShiftAll(HitList(HitsAt(p, piece), 0, n), i)
  {
    HitsOfPiece(p, stream, piece, i, n);
    CutsAlike(HitsAt(p, stream), HitsAt(p, piece), i, n);
  }

  /**
   Content defines the cuts: two streams that share a window and what follows it are cut at the
   same places from there on, wherever the window stands in either and whatever came before.
   */
  lemma SharedWindowSharedCuts(p: Params, x: seq<Octet>, y: seq<Octet>, i: nat, j: nat, n: nat)
    requires i + n + p.w <= |x| && j + n + p.w <= |y|
    requires x[i..i + n + p.w] == y[j..j + n + p.w]
    ensures exists cuts ::
              && HitList(HitsAt(p, x), i, i + n) == ShiftAll(cuts, i)
              && HitList(HitsAt(p, y), j, j + n) == ShiftAll(cuts, j)
  {
    CutsOfPiece(p, x, x[i..i + n + p.w], i, n);
    CutsOfPiece(p, y, x[i..i + n + p.w], j, n);
  }

  lemma {:induction false} HitListSplit(hits: nat -> bool, i: nat, mid: nat, limit: nat)
    requires i <= mid <= limit
    ensures HitList(hits, i, limit) == HitList(hits, i, mid) + HitList(hits, mid, limit)
    decreases mid - i
  {
    if i < mid {
      HitListSplit(hits, i + 1, mid, limit);
    }
  }

  /** The cuts in input after a history window. */
  function CutsIn(p: Params, history: seq<Octet>, input: seq<Octet>): seq<nat> {
    HitList(HitsAt(p, history + input), 0, |input|)
  }

  lemma CutsOfParts(f: nat -> bool, g: nat -> bool, h: nat -> bool, n: nat, limit: nat)
    requires n <= limit && SameHits(f, g, 0, n) && SameHits(f, h, n, limit - n)
    ensures HitList(f, 0, limit) == HitList(g, 0, n) + ShiftAll(HitList(h, 0, limit - n), n)
  {
    HitListSplit(f, 0, n, limit);
    CutsAlike(f, g, 0, n);
    ShiftAllNothing(HitList(g, 0, n));
    CutsAlike(f, h, n, limit - n);
  }

  lemma HitsOfParts(p: Params, history: seq<Octet>, a: seq<Octet>, b: seq<Octet>)
    requires |history| == p.w
    ensures SameHits(HitsAt(p, history + (a + b)), HitsAt(p, history + a), 0, |a|)
    ensures SameHits(HitsAt(p, history + (a + b)), HitsAt(p, WindowAt(p.w, history + a, |a|) + b), |a|, |b|)
  {
    SavedWindowResumes(p.w, history, a, b);
    assert history + (a + b) == history + a + b;
    HitsOfPiece(p, history + (a + b), history + a, 0, |a|);
    HitsOfPiece(p, history + (a + b), WindowAt(p.w, history + a, |a|) + b, |a|, |b|);
  }

  /** Input given in two parts is cut where it is cut in one: the saved window is all that is needed. */
  lemma PartsSameCuts(p: Params, history: seq<Octet>, a: seq<Octet>, b: seq<Octet>)
    requires |history| == p.w
    ensures CutsIn(p, history, a + b)
         == CutsIn(p, history, a) + ShiftAll(CutsIn(p, WindowAt(p.w, history + a, |a|), b), |a|)
  {
    HitsOfParts(p, history, a, b);
    CutsOfParts(HitsAt(p, history + (a + b)), HitsAt(p, history + a),
                HitsAt(p, WindowAt(p.w, history + a, |a|) + b), |a|, |a + b|);
  }

  lemma ShiftAllNothing(x: seq<nat>)
    ensures ShiftAll(x, 0) == x
  {
  }

  /** Where the scan goes on behind position at: the stream from there is the window and the rest. */
  lemma NextRun(p: Params, history: seq<Octet>, input: seq<Octet>, at: nat)
    requires |history| == p.w && at <= |input|
    ensures var stream, window := history + input, WindowAt(p.w, history + input, at);
            var o := Found(p, window, input[at..]);
            && Scan(HitsAt(p, stream), at, |input|) == Shift(o, at)
            && WindowAfter(p, window, input[at..]) == WindowAt(p.w, stream, at + o.offset)
  {
    var stream, window := history + input, WindowAt(p.w, history + input, at);
    assert window + input[at..] == stream[at..];
    ScanOfSuffix(p, stream, at, |input|);
    var o := Found(p, window, input[at..]);
    DropSlice(stream, at, o.offset, o.offset + p.w);
  }

  /** What the scan hits, as a run that starts with the window at any position finds it. */
  ghost predicate TellsOn(t: Runs, w: nat, stream: seq<Octet>, input: seq<Octet>, hits: nat -> bool) {
    forall at: nat {:trigger Scan(hits, at, |input|)} :: at <= |input| ==>
      var window, end := WindowAt(w, stream, at), Scan(hits, at, |input|);
      && end == Shift(t.found(window, input[at..]), at)
      && t.after(window, input[at..]) == WindowAt(w, stream, end.offset)
  }

  lemma RunsTellOn(t: Runs, p: Params, history: seq<Octet>, input: seq<Octet>)
    requires |history| == p.w && Tells(t, p)
    ensures TellsOn(t, p.w, history + input, input, HitsAt(p, history + input))
  {
    var stream := history + input;
    forall at: nat {:trigger Scan(HitsAt(p, stream), at, |input|)} | at <= |input|
      ensures var window, end := WindowAt(p.w, stream, at), Scan(HitsAt(p, stream), at, |input|);
              && end == Shift(t.found(window, input[at..]), at)
              && t.after(window, input[at..]) == WindowAt(p.w, stream, end.offset)
    {
      var window := WindowAt(p.w, stream, at);
      NextRun(p, history, input, at);
      assert Scan(HitsAt(p, stream), at, |input|).offset == at + Found(p, window, input[at..]).offset;
      assert t.found(window, input[at..]) == Found(p, window, input[at..]);
      assert t.after(window, input[at..]) == WindowAfter(p, window, input[at..]);
    }
  }

  /** One run of the loop: it ends at the next cut, or at the end of the input when there is none. */
  method CutOnce(state: RhState, input: seq<Octet>, at: nat, mask: Word, trigger: Word,
                 ghost p: Params, ghost t: Runs, ghost stream: seq<Octet>, ghost hits: nat -> bool)
    returns (hit: bool, next: nat)
    requires state.Valid() && Fits(p, state) && p.mask == mask && p.trigger == trigger && Tells(t, p)
    requires TellsOn(t, p.w, stream, input, hits)
    requires at <= |input| < TWO31 && state.Window() == WindowAt(p.w, stream, at)
    modifies state`hash, state.history
    ensures state.Valid() && Fits(p, state) && at <= next <= |input|
    ensures Outcome(hit, next) == Scan(hits, at, |input|)
    ensures state.Window() == WindowAt(p.w, stream, next)
  {
    var rest := input[at..];
    ghost var window := state.Window();
    ghost var end := Scan(hits, at, |input|);
    assert end == Shift(t.found(window, rest), at) && t.after(window, rest) == WindowAt(p.w, stream, end.offset);
    var offset;
    hit, offset := RunFinds(state, rest, mask, trigger, p, t);
    next := at + offset;
    assert next == end.offset;
  }

  /** One more result of the scan, and what it leaves of the list. */
  lemma OneMoreCut(cuts: seq<nat>, hits: nat -> bool, at: nat, limit: nat, hit: bool, next: nat, cuts': seq<nat>)
    requires at <= limit && Scan(hits, at, limit) == Outcome(hit, next)
    requires cuts' == if hit then cuts + [next] else cuts
    ensures at <= next <= limit && if hit then at < next else next == limit
    ensures cuts + HitList(hits, at, limit) == cuts' + HitList(hits, next, limit)
  {
    ScanFindsFirst(hits, at, limit);
    ScanHeads(hits, at, limit);
  }

  function Cut(cuts: seq<nat>, hit: bool, at: nat): seq<nat> {
    if hit then cuts + [at] else cuts
  }

  method CutsWith(state: RhState, input: seq<Octet>, mask: Word, trigger: Word,
                  ghost p: Params, ghost t: Runs, ghost stream: seq<Octet>, ghost hits: nat -> bool)
    returns (cuts: seq<nat>)
    requires state.Valid() && Fits(p, state) && p.mask == mask && p.trigger == trigger && Tells(t, p)
    requires TellsOn(t, p.w, stream, input, hits)
    requires state.Window() == WindowAt(p.w, stream, 0) && |input| < TWO31
    modifies state`hash, state.history
    ensures state.Valid() && Fits(p, state)
    ensures cuts == HitList(hits, 0, |input|)
    ensures state.Window() == WindowAt(p.w, stream, |input|)
  {
    var at, hit := 0, true;
    cuts := [];
    ghost var left := HitList(hits, 0, |input|);
    while hit && at < |input|
      invariant at <= |input| && state.Valid() && Fits(p, state)
      invariant state.Window() == WindowAt(p.w, stream, at)
      invariant HitList(hits, 0, |input|) == cuts + HitList(hits, at, |input|)
      invariant !hit ==> at == |input|
      decreases |input| - at, hit
    {
      ghost var was, before := cuts, at;
      hit, at := CutOnce(state, input, at, mask, trigger, p, t, stream, hits);
      cuts := Cut(cuts, hit, at);
      OneMoreCut(was, hits, before, |input|, hit, at, cuts);
    }
  }

  /**
   The loop of the library's test: run after run on what is left, until one reports no hit.  The
   places it stops at are exactly the positions whose windows hit.
   */
  method AllCuts(state: RhState, input: seq<Octet>, mask: Word, trigger: Word) returns (cuts: seq<nat>)
    requires state.Valid() && |input| < TWO31
    modifies state`hash, state.history
    ensures state.Valid() && state.Hash() == old(state.Hash())
    ensures var p := Params(state.Hash(), state.w, mask, trigger);
            cuts == HitList(HitsAt(p, old(state.Window()) + input), 0, |input|)
    ensures var hits := HitsAt(Params(state.Hash(), state.w, mask, trigger), old(state.Window()) + input);
            Increasing(cuts) && forall j: nat :: j in cuts <==> 0 < j <= |input| && hits(j)
    ensures state.Window() == WindowAt(state.w, old(state.Window()) + input, |input|)
  {
    ghost var p, stream := Params(state.Hash(), state.w, mask, trigger), state.Window() + input;
    RunsTell(p);
    RunsTellOn(RunsOf(p), p, state.Window(), input);
    assert WindowAt(p.w, stream, 0) == state.Window();
    cuts := CutsWith(state, input, mask, trigger, p, RunsOf(p), stream, HitsAt(p, stream));
    HitListExact(HitsAt(p, stream), 0, |input|, cuts);
  }
}
