/**
 Content-defined chunking as the example program chunking_with_mb_hash.c does it: skip the least
 chunk size, then run the rolling hash until a trigger or the greatest chunk size.
 */
module Chunking {
  import opened Bits64
  import opened Bytes
  import opened RollingHash
  import opened RollingRuns
  import Pieces

  datatype Sizes = Sizes(min: nat, max: nat)

  /** The parameters the program accepts; others make it give up before it cuts anything. */
  predicate Proper(p: Params, z: Sizes) {
    p.w <= z.min <= z.max
  }

  /** The longest the next chunk of input may be. */
  function Cap(z: Sizes, input: seq<Octet>): nat {
    if |input| > z.max then z.max else |input|
  }

  /** The first n bytes of input end in a window that triggers. */
  predicate TriggersAt(p: Params, input: seq<Octet>, n: nat)
    requires p.w <= n <= |input|
  {
    Hits(p, input[n - p.w..n])
  }

  /** The least size, and then as far as a run goes that starts with the window before it. */
  function ChunkLength(p: Params, z: Sizes, input: seq<Octet>): (n: nat)
    requires Proper(p, z) && z.min < |input|
    ensures z.min <= n <= Cap(z, input)
  {
    z.min + Found(p, input[z.min - p.w..z.min], input[z.min..Cap(z, input)]).offset
  }

  /**
   The chunk is the shortest prefix longer than the least size whose last w bytes trigger, or else
   has the greatest size, or is all that is left.
   */
  ghost predicate IsCut(p: Params, z: Sizes, input: seq<Octet>, n: nat)
    requires Proper(p, z)
  {
    && z.min <= n <= z.max && n <= |input|
    && (forall k :: z.min < k < n ==> !TriggersAt(p, input, k))
    && ((n > z.min && TriggersAt(p, input, n)) || n == z.max || n == |input|)
  }

  lemma WindowOf<T>(input: seq<T>, w: nat, min: nat, cap: nat, k: nat)
    requires w <= min <= k <= cap <= |input|
    ensures (input[min - w..min] + input[min..cap])[k - min..k - min + w] == input[k - w..k]
  {
    var stream := input[min - w..min] + input[min..cap];
    assert stream == input[min - w..cap];
    var x, y := stream[k - min..k - min + w], input[k - w..k];
    forall j | 0 <= j < w
      ensures x[j] == y[j]
    {
      assert x[j] == stream[k - min + j] == input[k - w + j];
    }
    assert x == y;
  }

  lemma ChunkLengthIsCut(p: Params, z: Sizes, input: seq<Octet>)
    requires Proper(p, z) && z.min < |input|
    ensures IsCut(p, z, input, ChunkLength(p, z, input))
  {
    var stream := input[z.min - p.w..z.min] + input[z.min..Cap(z, input)];
    var hits := HitsAt(p, stream);
    ScanFindsFirst(hits, 0, Cap(z, input) - z.min);
    forall k | z.min < k <= Cap(z, input)
      ensures hits(k - z.min) == TriggersAt(p, input, k)
    {
      WindowOf(input, p.w, z.min, Cap(z, input), k);
    }
    var n := ChunkLength(p, z, input);
    forall k | z.min < k < n
      ensures !TriggersAt(p, input, k)
    {
      assert !hits(k - z.min);
    }
  }

  lemma CutIsUnique(p: Params, z: Sizes, input: seq<Octet>, m: nat, n: nat)
    requires Proper(p, z) && IsCut(p, z, input, m) && IsCut(p, z, input, n)
    ensures m == n
  {
  }

  /** How much the next chunk takes: everything, once that is at most the least size. */
  function Cutter(p: Params, z: Sizes): seq<Octet> -> nat {
    (input: seq<Octet>) => if Proper(p, z) && z.min < |input| then ChunkLength(p, z, input) else |input|
  }

  function Chunks(p: Params, z: Sizes, input: seq<Octet>): seq<seq<Octet>> {
    Pieces.Cut(Cutter(p, z), input)
  }

  /** The chunks put together are the input. */
  lemma ChunksPartition(p: Params, z: Sizes, input: seq<Octet>)
    requires Proper(p, z) && z.min > 0
    ensures Flatten(Chunks(p, z, input)) == input
  {
    Pieces.PiecesPartition(Cutter(p, z), input);
  }

  /**
   The chunks after any cut are those of the bytes after it alone: inputs that share a tail and a
   cut where it starts share all chunks from there on.
   */
  lemma TailDecidesItsChunks(p: Params, z: Sizes, input: seq<Octet>, i: nat)
    requires Proper(p, z) && z.min > 0 && i <= |Chunks(p, z, input)|
    ensures var at := |Flatten(Chunks(p, z, input)[..i])|;
            && at <= |input|
            && input[..at] == Flatten(Chunks(p, z, input)[..i])
            && Chunks(p, z, input)[i..] == Chunks(p, z, input[at..])
  {
    Pieces.TailDecides(Cutter(p, z), input, i);
  }

  /** Each chunk is a content-defined cut of what is left, or all of it once that is at most the least size. */
  lemma EveryChunkIsCut(p: Params, z: Sizes, input: seq<Octet>, i: nat)
    requires Proper(p, z) && z.min > 0 && i < |Chunks(p, z, input)|
    ensures var at := |Flatten(Chunks(p, z, input)[..i])|;
            && at < |input| && ChunkOf(p, z, input[at..], Chunks(p, z, input)[i])
            && (i < |Chunks(p, z, input)| - 1 ==> |input[at..]| > z.min)
  {
    Pieces.PieceIsCut(Cutter(p, z), input, i);
    PieceIsChunk(p, z, input[|Flatten(Chunks(p, z, input)[..i])|..]);
  }

  ghost predicate ChunkOf(p: Params, z: Sizes, rest: seq<Octet>, chunk: seq<Octet>)
    requires Proper(p, z)
  {
    && chunk <= rest
    && if |rest| > z.min then IsCut(p, z, rest, |chunk|) else chunk == rest
  }

  lemma PieceIsChunk(p: Params, z: Sizes, rest: seq<Octet>)
    requires Proper(p, z) && z.min > 0 && rest != []
    ensures ChunkOf(p, z, rest, rest[..Pieces.PieceLength(Cutter(p, z), rest)])
    ensures Pieces.PieceLength(Cutter(p, z), rest) < |rest| ==> |rest| > z.min
  {
    if |rest| > z.min {
      ChunkLengthIsCut(p, z, rest);
    } else {
      assert rest[..|rest|] == rest;
    }
  }

  /** Every chunk but the last is between the two sizes, and the last is neither empty nor too long. */
  lemma ChunkSizes(p: Params, z: Sizes, input: seq<Octet>, i: nat)
    requires Proper(p, z) && z.min > 0 && i < |Chunks(p, z, input)|
    ensures 0 < |Chunks(p, z, input)[i]| <= z.max
    ensures i < |Chunks(p, z, input)| - 1 ==> z.min <= |Chunks(p, z, input)[i]|
  {
    EveryChunkIsCut(p, z, input, i);
  }

  // ----- the cutting loops -----

  /** The rolling state is initialized for the given parameters. */
  ghost predicate SetFor(state: RhState, p: Params)
    reads state, state.table1, state.table2
  {
    state.Ready() && Fits(p, state)
  }

  /** cut says how much the next chunk takes. */
  ghost predicate Cuts(cut: seq<Octet> -> nat, t: Runs, w: nat, z: Sizes)
    requires w <= z.min <= z.max
  {
    forall input {:trigger cut(input)} ::
      cut(input) == if |input| <= z.min then |input|
                    else z.min + t.found(input[z.min - w..z.min], input[z.min..Cap(z, input)]).offset
  }

  lemma CutterCuts(p: Params, z: Sizes)
    requires Proper(p, z)
    ensures Cuts(Cutter(p, z), RunsOf(p), p.w, z)
  {
  }

  lemma WindowBefore<T>(input: seq<T>, w: nat, min: nat)
    requires w <= min <= |input|
    ensures input[min - w..][..w] == input[min - w..min]
  {
  }

  /** Reset to the window before index at. */
  method ResetBefore(state: RhState, input: seq<Octet>, at: nat, ghost p: Params)
    requires SetFor(state, p) && p.w <= at <= |input|
    modifies state`hash, state.history
    ensures SetFor(state, p) && state.Valid() && state.Window() == input[at - p.w..at]
  {
    WindowBefore(input, p.w, at);
    state.Reset(input[at - state.w..]);
  }

  /** Reset to the window before the least size, then run. */
  method RunFrom(state: RhState, input: seq<Octet>, at: nat, runLength: nat, mask: Word, trigger: Word,
                 ghost p: Params, ghost t: Runs)
    returns (offset: nat)
    requires SetFor(state, p) && p.mask == mask && p.trigger == trigger && Tells(t, p)
    requires p.w <= at && at + runLength <= |input| < TWO31
    modifies state`hash, state.history
    ensures SetFor(state, p) && offset <= runLength
    ensures offset == t.found(input[at - p.w..at], input[at..at + runLength]).offset
  {
    ResetBefore(state, input, at, p);
    var hit;
    hit, offset := RunFinds(state, input[at..at + runLength], mask, trigger, p, t);
  }

  lemma CutIs(cut: seq<Octet> -> nat, t: Runs, w: nat, z: Sizes,
              input: seq<Octet>, runLength: nat)
    requires w <= z.min <= z.max && z.min < |input| && runLength == Cap(z, input) - z.min && Cuts(cut, t, w, z)
    ensures z.min + runLength <= |input|
    ensures cut(input) == z.min + t.found(input[z.min - w..z.min], input[z.min..z.min + runLength]).offset
  {
    assert z.min + runLength == Cap(z, input);
  }

  method FindCut(state: RhState, input: seq<Octet>, z: Sizes, runLength: nat, mask: Word, trigger: Word,
                 ghost p: Params, ghost t: Runs, ghost cut: seq<Octet> -> nat)
    returns (n: nat)
    requires SetFor(state, p) && p.mask == mask && p.trigger == trigger && Proper(p, z)
    requires Tells(t, p) && Cuts(cut, t, p.w, z)
    requires z.min < |input| < TWO31 && runLength == Cap(z, input) - z.min
    modifies state`hash, state.history
    ensures SetFor(state, p) && n == cut(input) && z.min <= n <= |input|
  {
    CutIs(cut, t, p.w, z, input, runLength);
    var offset := RunFrom(state, input, z.min, runLength, mask, trigger, p, t);
    n := z.min + offset;
  }

  /** One turn of a cutting loop: the chunk is handed on and the rest kept. */
  method CutOne(state: RhState, input: seq<Octet>, z: Sizes, runLength: nat, mask: Word, trigger: Word,
                ghost p: Params, ghost t: Runs, ghost cut: seq<Octet> -> nat)
    returns (chunk: seq<Octet>, rest: seq<Octet>)
    requires SetFor(state, p) && p.mask == mask && p.trigger == trigger && Proper(p, z)
    requires Tells(t, p) && Cuts(cut, t, p.w, z)
    requires 0 < z.min < |input| < TWO31 && runLength == Cap(z, input) - z.min
    modifies state`hash, state.history
    ensures SetFor(state, p)
    ensures Pieces.Cut(cut, input) == [chunk] + Pieces.Cut(cut, rest) && |rest| < |input|
  {
    var n := FindCut(state, input, z, runLength, mask, trigger, p, t, cut);
    chunk, rest := input[..n], input[n..];
  }

  lemma OneMore<T>(all: seq<T>, x: seq<T>, left: seq<T>, y: T, z: seq<T>)
    requires all == x + left && left == [y] + z
    ensures all == x + [y] + z
  {
  }

  /** The first cutting loop: as long as more than the greatest size is left. */
  method CutLong(state: RhState, buffer: seq<Octet>, z: Sizes, mask: Word, trigger: Word,
                 ghost p: Params, ghost t: Runs, ghost cut: seq<Octet> -> nat)
    returns (chunks: seq<seq<Octet>>, rest: seq<Octet>)
    requires SetFor(state, p) && p.mask == mask && p.trigger == trigger && Proper(p, z)
    requires Tells(t, p) && Cuts(cut, t, p.w, z)
    requires 0 < z.min && |buffer| < TWO31
    modifies state`hash, state.history
    ensures SetFor(state, p) && |rest| < TWO31 && |rest| <= z.max
    ensures Pieces.Cut(cut, buffer) == chunks + Pieces.Cut(cut, rest)
  {
    var chunk;
    chunks, rest := [], buffer;
    while |rest| > z.max
      invariant SetFor(state, p) && |rest| < TWO31
      invariant Pieces.Cut(cut, buffer) == chunks + Pieces.Cut(cut, rest)
      decreases |rest|
    {
      ghost var left := Pieces.Cut(cut, rest);
      chunk, rest := CutOne(state, rest, z, z.max - z.min, mask, trigger, p, t, cut);
      OneMore(Pieces.Cut(cut, buffer), chunks, left, chunk, Pieces.Cut(cut, rest));
      chunks := chunks + [chunk];
    }
  }

  /** The second cutting loop: as long as more than the least size is left. */
  method CutShort(state: RhState, buffer: seq<Octet>, z: Sizes, mask: Word, trigger: Word,
                  ghost p: Params, ghost t: Runs, ghost cut: seq<Octet> -> nat)
    returns (chunks: seq<seq<Octet>>, rest: seq<Octet>)
    requires SetFor(state, p) && p.mask == mask && p.trigger == trigger && Proper(p, z)
    requires Tells(t, p) && Cuts(cut, t, p.w, z)
    requires 0 < z.min && |buffer| < TWO31 && |buffer| <= z.max
    modifies state`hash, state.history
    ensures SetFor(state, p) && |rest| <= z.min
    ensures Pieces.Cut(cut, buffer) == chunks + Pieces.Cut(cut, rest)
  {
    var chunk;
    chunks, rest := [], buffer;
    while |rest| > z.min
      invariant SetFor(state, p) && |rest| < TWO31 && |rest| <= z.max
      invariant Pieces.Cut(cut, buffer) == chunks + Pieces.Cut(cut, rest)
      decreases |rest|
    {
      ghost var left := Pieces.Cut(cut, rest);
      chunk, rest := CutOne(state, rest, z, |rest| - z.min, mask, trigger, p, t, cut);
      OneMore(Pieces.Cut(cut, buffer), chunks, left, chunk, Pieces.Cut(cut, rest));
      chunks := chunks + [chunk];
    }
  }

  /** What is left at the end is one chunk. */
  lemma LastChunk(cut: seq<Octet> -> nat, rest: seq<Octet>)
    requires cut(rest) == |rest|
    ensures Pieces.Cut(cut, rest) == if |rest| > 0 then [rest] else []
  {
    if rest != [] {
      assert rest[..|rest|] == rest && rest[|rest|..] == [];
    }
  }

  lemma ConcatMore<T>(x: seq<T>, y: seq<T>, z: seq<T>)
    ensures x + (y + z) == x + y + z && x + y + [] == x + y
  {
  }

  /** Both loops and the last piece. */
  method CutAll(state: RhState, buffer: seq<Octet>, z: Sizes, mask: Word, trigger: Word,
                ghost p: Params, ghost t: Runs, ghost cut: seq<Octet> -> nat)
    returns (chunks: seq<seq<Octet>>)
    requires SetFor(state, p) && p.mask == mask && p.trigger == trigger && Proper(p, z)
    requires Tells(t, p) && Cuts(cut, t, p.w, z)
    requires 0 < z.min && |buffer| < TWO31
    modifies state`hash, state.history
    ensures chunks == Pieces.Cut(cut, buffer)
  {
    var more, rest;
    chunks, rest := CutLong(state, buffer, z, mask, trigger, p, t, cut);
    more, rest := CutShort(state, rest, z, mask, trigger, p, t, cut);
    ConcatMore(chunks, more, Pieces.Cut(cut, rest));
    LastChunk(cut, rest);
    chunks := chunks + more;
    if |rest| > 0 {
      chunks := chunks + [rest];
    }
  }

  /** The cutting part of main; chunks are the pieces handed on, in order. */
  method CutBuffer(state: RhState, buffer: seq<Octet>, z: Sizes, mask: Word, trigger: Word)
    returns (ok: bool, chunks: seq<seq<Octet>>)
    requires state.Ready() && |buffer| < TWO31
    modifies state`hash, state.history
    ensures var p := Params(old(state.Hash()), old(state.w), mask, trigger);
            && (ok <==> Proper(p, z))
            && (ok ==> chunks == Chunks(p, z, buffer))
  {
    if z.min < state.w || z.min > z.max {
      return false, [];
    }
    ghost var p := Params(state.Hash(), state.w, mask, trigger);
    RunsTell(p);
    CutterCuts(p, z);
    chunks := CutAll(state, buffer, z, mask, trigger, p, RunsOf(p), Cutter(p, z));
    ok := true;
  }
}
