/** Any number of 1024-byte blocks: the lockstep form and the reference compute the same digests. */
module MhSha1Blocks {
  import opened Bytes
  import opened Words
  import opened Relayout
  import opened Sha1
  import opened MhSha1

  function MhCompressBytes(d: Digests, block: seq<byte>): Digests {
    if |block| == MH_BLOCK then MhCompress(d, WordsBE(block)) else d
  }

  /** The segment digests after the whole blocks of data. */
  function MhBlocks(d: Digests, data: seq<byte>): Digests {
    Fold(MhCompressBytes, MH_BLOCK, d, data)
  }

  function BlockAt(data: seq<byte>, i: nat): seq<byte>
    requires MH_BLOCK * (i + 1) <= |data|
  {
    data[MH_BLOCK * i..MH_BLOCK * (i + 1)]
  }

  lemma NextBlock(d: Digests, data: seq<byte>, i: nat)
    requires MH_BLOCK * (i + 1) <= |data|
    ensures MhBlocks(d, data[..MH_BLOCK * (i + 1)])
         == MhCompress(MhBlocks(d, data[..MH_BLOCK * i]), WordsBE(BlockAt(data, i)))
  {
    FoldNext(MhCompressBytes, MH_BLOCK, d, data, i);
  }

  lemma MoreBlocks(d: Digests, n: nat, x: seq<byte>, y: seq<byte>)
    requires |x| == MH_BLOCK * n
    ensures MhBlocks(d, x + y) == MhBlocks(MhBlocks(d, x), y)
  {
    FoldConcat(MhCompressBytes, MH_BLOCK, n, d, x, y);
  }

  /** SHA-1 over the words of one segment alone, block after block. */
  function SegmentChain(s: nat): (Regs, seq<byte>) -> Regs
    requires s < SEGS
  {
    (r: Regs, block: seq<byte>) => if |block| == MH_BLOCK then Compress(r, Segment(WordsBE(block), s)) else r
  }

  /** The sixteen segments are hashed independently: each lane is its own segment's SHA-1 chain. */
  lemma SegmentsIndependent(d: Digests, data: seq<byte>, s: nat)
    requires s < SEGS
    ensures Lane(MhBlocks(d, data), s) == Fold(SegmentChain(s), MH_BLOCK, Lane(d, s), data)
  {
    var lane := (e: Digests) => Lane(e, s);
    forall e: Digests, b: seq<byte> | |b| == MH_BLOCK
      ensures lane(MhCompressBytes(e, b)) == SegmentChain(s)(lane(e), b)
    {
      LaneOfFromLanes((k: nat) => SegmentAfter(e, WordsBE(b), k), s);
    }
    FoldPart(MhCompressBytes, SegmentChain(s), lane, MH_BLOCK, d, data);
  }

  // ----- which bytes a lane reads -----

  function WordBytes(data: seq<byte>, k: nat): seq<byte> {
    if 4 * k + 4 <= |data| then data[4 * k..4 * k + 4] else []
  }

  /** x and y have the same words at every index that is s modulo 16. */
  ghost predicate SameWords(x: seq<byte>, y: seq<byte>, s: nat) {
    |x| == |y| && forall k: nat {:trigger WordBytes(x, k)} :: k % 16 == s ==> WordBytes(x, k) == WordBytes(y, k)
  }

  /** f looks at a block only for the words of segment s. */
  ghost predicate ReadsSegment<D(!new)>(f: (D, seq<byte>) -> D, s: nat)
    requires s < SEGS
  {
    forall d, b, c {:trigger f(d, b), f(d, c)} ::
      |b| == |c| == MH_BLOCK && Segment(WordsBE(b), s) == Segment(WordsBE(c), s) ==> f(d, b) == f(d, c)
  }

  /** Word i of segment s is word 16 i + s of the block. */
  lemma SegmentBytes(block: seq<byte>, s: nat, i: nat)
    requires |block| == MH_BLOCK && s < SEGS && i < 16
    ensures |WordBytes(block, 16 * i + s)| == 4
    ensures Segment(WordsBE(block), s)[i] == BE32(WordBytes(block, 16 * i + s))
  {
  }

  lemma SameSegment(b: seq<byte>, c: seq<byte>, s: nat)
    requires |b| == MH_BLOCK && s < SEGS && SameWords(b, c, s)
    ensures Segment(WordsBE(b), s) == Segment(WordsBE(c), s)
  {
    forall i: nat | i < 16
      ensures Segment(WordsBE(b), s)[i] == Segment(WordsBE(c), s)[i]
    {
      SegmentBytes(b, s, i);
      SegmentBytes(c, s, i);
      SegmentIndex(i, s);
      assert WordBytes(b, 16 * i + s) == WordBytes(c, 16 * i + s);
    }
  }

  lemma SegmentIndex(i: nat, s: nat)
    requires s < SEGS
    ensures (16 * i + s) % 16 == s
  {
  }

  lemma SameWordsSplit(x: seq<byte>, y: seq<byte>, s: nat)
    requires SameWords(x, y, s) && |x| >= MH_BLOCK
    ensures SameWords(x[..MH_BLOCK], y[..MH_BLOCK], s) && SameWords(x[MH_BLOCK..], y[MH_BLOCK..], s)
  {
    forall k: nat | k % 16 == s
      ensures WordBytes(x[..MH_BLOCK], k) == WordBytes(y[..MH_BLOCK], k)
      ensures WordBytes(x[MH_BLOCK..], k) == WordBytes(y[MH_BLOCK..], k)
    {
      assert WordBytes(x, k) == WordBytes(y, k) && WordBytes(x, k + 256) == WordBytes(y, k + 256);
      WordBytesSplit(x, k);
      WordBytesSplit(y, k);
    }
  }

  lemma WordBytesSplit(x: seq<byte>, k: nat)
    requires |x| >= MH_BLOCK
    ensures WordBytes(x[..MH_BLOCK], k) == if 4 * k + 4 <= MH_BLOCK then WordBytes(x, k) else []
    ensures WordBytes(x[MH_BLOCK..], k) == WordBytes(x, k + 256)
  {
  }

  lemma {:induction false} ChainReads<D(!new)>(f: (D, seq<byte>) -> D, s: nat, d: D, x: seq<byte>, y: seq<byte>)
    requires s < SEGS && ReadsSegment(f, s) && SameWords(x, y, s)
    ensures Fold(f, MH_BLOCK, d, x) == Fold(f, MH_BLOCK, d, y)
    decreases |x|
  {
    if |x| >= MH_BLOCK {
      SameWordsSplit(x, y, s);
      SameSegment(x[..MH_BLOCK], y[..MH_BLOCK], s);
      assert f(d, x[..MH_BLOCK]) == f(d, y[..MH_BLOCK]);
      ChainReads(f, s, f(d, x[..MH_BLOCK]), x[MH_BLOCK..], y[MH_BLOCK..]);
    }
  }

  /** Lane s reads the words of the data whose index is s modulo 16, and nothing else. */
  lemma LaneReads(d: Digests, x: seq<byte>, y: seq<byte>, s: nat)
    requires s < SEGS && SameWords(x, y, s)
    ensures Lane(MhBlocks(d, x), s) == Lane(MhBlocks(d, y), s)
  {
    SegmentsIndependent(d, x, s);
    SegmentsIndependent(d, y, s);
    ChainReads(SegmentChain(s), s, Lane(d, s), x, y);
  }

  /** Changing word k can change lane k % 16 alone. */
  lemma WordChangesLane(d: Digests, x: seq<byte>, y: seq<byte>, k: nat, s: nat)
    requires |x| == |y| && s < SEGS && s != k % 16
    requires forall j :: 0 <= j < |x| && !(4 * k <= j < 4 * k + 4) ==> x[j] == y[j]
    ensures Lane(MhBlocks(d, x), s) == Lane(MhBlocks(d, y), s)
  {
    OtherWords(x, y, k, s);
    LaneReads(d, x, y, s);
  }

  lemma OtherWords(x: seq<byte>, y: seq<byte>, k: nat, s: nat)
    requires |x| == |y| && s != k % 16
    requires forall j :: 0 <= j < |x| && !(4 * k <= j < 4 * k + 4) ==> x[j] == y[j]
    ensures SameWords(x, y, s)
  {
    forall i: nat | i % 16 == s
      ensures WordBytes(x, i) == WordBytes(y, i)
    {
      OtherWord(x, y, k, i);
    }
  }

  lemma OtherWord(x: seq<byte>, y: seq<byte>, k: nat, i: nat)
    requires |x| == |y| && i != k
    requires forall j :: 0 <= j < |x| && !(4 * k <= j < 4 * k + 4) ==> x[j] == y[j]
    ensures WordBytes(x, i) == WordBytes(y, i)
  {
  }

  /** The segment digests after the first n blocks of data. */
  function After(d: Digests, data: seq<byte>, n: nat): Digests
    requires MH_BLOCK * n <= |data|
  {
    MhBlocks(d, data[..MH_BLOCK * n])
  }

  /** One turn of the block loop. */
  method BaseBlock(data: seq<byte>, i: nat, digests: array<bv32>, frame: array<bv32>, ghost start: Digests)
    requires digests.Length == 80 && frame.Length == 256 && digests != frame && MH_BLOCK * (i + 1) <= |data|
    requires digests[..] == After(start, data, i)
    modifies digests, frame
    ensures digests[..] == After(start, data, i + 1)
  {
    NextBlock(start, data, i);
    MhSha1.Single(WordsBE(BlockAt(data, i)), digests, frame);
  }

  /** _mh_sha1_block_base */
  method BlockBase(data: seq<byte>, digests: array<bv32>, frame: array<bv32>, numBlocks: nat)
    requires digests.Length == 80 && frame.Length == 256 && digests != frame && MH_BLOCK * numBlocks <= |data|
    modifies digests, frame
    ensures digests[..] == MhBlocks(old(digests[..]), data[..MH_BLOCK * numBlocks])
  {
    ghost var start := digests[..];
    for i := 0 to numBlocks
      invariant digests[..] == After(start, data, i)
    {
      BaseBlock(data, i, digests, frame, start);
    }
  }

  // ----- the reference -----

  /** Segment s of the digests laid out as uint32_t[16][5]. */
  function TransLane(t: Digests, s: nat): Regs
    requires s < SEGS
  {
    Regs(t[5 * s], t[5 * s + 1], t[5 * s + 2], t[5 * s + 3], t[5 * s + 4])
  }

  ghost predicate Transposed(t: Digests, d: Digests) {
    forall s: nat :: s < SEGS ==> TransLane(t, s) == Lane(d, s)
  }

  /** Going to the other layout and back gives the digests one started from. */
  lemma RelayoutIdentity(d: Digests, t: Digests, e: Digests)
    requires Transposed(t, d) && Transposed(t, e)
    ensures d == e
  {
    forall s: nat | s < SEGS
      ensures Lane(d, s) == Lane(e, s)
    {
      assert TransLane(t, s) == Lane(d, s) && TransLane(t, s) == Lane(e, s);
    }
    LanesDecide(d, e);
  }

  /** The re-laid words are the lanes. */
  lemma RelaidLanes(t: Digests, d: Digests)
    requires Relaid(t, d, 5)
    ensures Transposed(t, d)
  {
    forall s: nat | s < SEGS
      ensures TransLane(t, s) == Lane(d, s)
    {
      assert SameWord(t, d, 5, s, 0) && SameWord(t, d, 5, s, 1) && SameWord(t, d, 5, s, 2);
      assert SameWord(t, d, 5, s, 3) && SameWord(t, d, 5, s, 4);
    }
  }

  /** transform_input_single */
  method TransformSegment(temp: array<bv32>, ww: MhWords, s: nat)
    requires temp.Length == 256 && s < SEGS
    modifies temp
    ensures temp[16 * s..16 * s + 16] == Segment(ww, s)
    ensures forall k :: 0 <= k < 16 * s ==> temp[k] == old(temp[k])
  {
    forall k | 16 * s <= k < 16 * s + 16 {
      temp[k] := ww[16 * (k - 16 * s) + s];
    }
  }

  /** transform_input: the words of each segment, one segment after the other. */
  method TransformInput(temp: array<bv32>, ww: MhWords)
    requires temp.Length == 256
    modifies temp
    ensures forall s: nat :: s < SEGS ==> temp[16 * s..16 * s + 16] == Segment(ww, s)
  {
    for s := 0 to SEGS
      invariant forall t: nat :: t < s ==> temp[16 * t..16 * t + 16] == Segment(ww, t)
    {
      ghost var was := temp[..];
      TransformSegment(temp, ww, s);
      assert forall t: nat :: t < s ==> temp[16 * t..16 * t + 16] == was[16 * t..16 * t + 16];
    }
  }

  function LaneAt(trans: array<bv32>, s: nat): Regs
    requires trans.Length == 80 && s < SEGS
    reads trans
  {
    TransLane(trans[..], s)
  }

  function BlockOf(temp: array<bv32>, s: nat): Block
    requires temp.Length == 256 && s < SEGS
    reads temp
  {
    temp[16 * s..16 * s + 16]
  }

  /** Segment t is untouched when only the words of segment s change. */
  lemma OtherLane(was: Digests, now: Digests, s: nat, t: nat)
    requires s < SEGS && t < SEGS && t != s
    requires forall k :: 0 <= k < 5 * s || 5 * s + 5 <= k < 80 ==> now[k] == was[k]
    ensures TransLane(now, t) == TransLane(was, t)
  {
  }

  /** The hash value of one segment back in its place. */
  method StoreLane(trans: array<bv32>, s: nat, r: Regs)
    requires trans.Length == 80 && s < SEGS
    modifies trans
    ensures LaneAt(trans, s) == r
    ensures forall t: nat :: t < SEGS && t != s ==> LaneAt(trans, t) == old(LaneAt(trans, t))
  {
    ghost var was := trans[..];
    StoreWords(trans, 5 * s, r);
    forall t: nat | t < SEGS && t != s
      ensures LaneAt(trans, t) == TransLane(was, t)
    {
      OtherLane(was, trans[..], s, t);
    }
  }

  method StoreWords(trans: array<bv32>, at: nat, r: Regs)
    requires trans.Length == 80 && at + 5 <= 80
    modifies trans
    ensures trans[at] == r.a && trans[at + 1] == r.b && trans[at + 2] == r.c && trans[at + 3] == r.d
    ensures trans[at + 4] == r.e
    ensures forall k :: 0 <= k < at || at + 5 <= k < 80 ==> trans[k] == old(trans[k])
  {
    StoreFour(trans, at, r.a, r.b, r.c, r.d);
    trans[at + 4] := r.e;
  }

  /** sha1_update_one_seg */
  method UpdateSegment(temp: array<bv32>, trans: array<bv32>, s: nat)
    requires temp.Length == 256 && trans.Length == 80 && temp != trans && s < SEGS
    modifies trans
    ensures LaneAt(trans, s) == Compress(old(LaneAt(trans, s)), BlockOf(temp, s))
    ensures forall t: nat :: t < SEGS && t != s ==> LaneAt(trans, t) == old(LaneAt(trans, t))
  {
    var r := Sha1.Single(BlockOf(temp, s), LaneAt(trans, s));
    StoreLane(trans, s, r);
  }

  /** sha1_update_all_segs: the sixteen calls of the source, as a loop. */
  method UpdateAllSegments(temp: array<bv32>, trans: array<bv32>)
    requires temp.Length == 256 && trans.Length == 80 && temp != trans
    modifies trans
    ensures forall s: nat :: s < SEGS ==> LaneAt(trans, s) == Compress(old(LaneAt(trans, s)), BlockOf(temp, s))
  {
    for s := 0 to SEGS
      invariant forall t: nat :: t < s ==> LaneAt(trans, t) == Compress(old(LaneAt(trans, t)), BlockOf(temp, t))
      invariant forall t: nat :: s <= t < SEGS ==> LaneAt(trans, t) == old(LaneAt(trans, t))
    {
      UpdateSegment(temp, trans, s);
    }
  }

  /** Compressing every group with the words of its segment is the specified block step. */
  lemma CompressedTransposed(t: Digests, d: Digests, ww: MhWords, t': Digests)
    requires Transposed(t, d)
    requires forall s: nat :: s < SEGS ==> TransLane(t', s) == Compress(TransLane(t, s), Segment(ww, s))
    ensures Transposed(t', MhCompress(d, ww))
  {
    forall s: nat | s < SEGS
      ensures TransLane(t', s) == Lane(MhCompress(d, ww), s)
    {
      assert TransLane(t, s) == Lane(d, s);
      LaneOfFromLanes((k: nat) => SegmentAfter(d, ww, k), s);
    }
  }

  /** One turn of the block loop of the reference. */
  method RefTurn(ww: MhWords, digests: array<bv32>, temp: array<bv32>, ghost d: Digests)
    requires digests.Length == 80 && temp.Length == 256 && digests != temp && Transposed(digests[..], d)
    modifies digests, temp
    ensures Transposed(digests[..], MhCompress(d, ww))
  {
    ghost var t := digests[..];
    TransformInput(temp, ww);
    UpdateAllSegments(temp, digests);
    forall s: nat | s < SEGS
      ensures TransLane(digests[..], s) == Compress(TransLane(t, s), Segment(ww, s))
    {
      assert LaneAt(digests, s) == Compress(TransLane(t, s), BlockOf(temp, s));
    }
    CompressedTransposed(t, d, ww, digests[..]);
  }

  /** One turn, told of the block of the data. */
  method RefBlock(data: seq<byte>, i: nat, digests: array<bv32>, temp: array<bv32>, ghost start: Digests)
    requires digests.Length == 80 && temp.Length == 256 && digests != temp && MH_BLOCK * (i + 1) <= |data|
    requires Transposed(digests[..], After(start, data, i))
    modifies digests, temp
    ensures Transposed(digests[..], After(start, data, i + 1))
  {
    NextBlock(start, data, i);
    RefTurn(WordsBE(BlockAt(data, i)), digests, temp, After(start, data, i));
  }

  method RelayBack(digests: array<bv32>, temp: array<bv32>, ghost result: Digests)
    requires digests.Length == 80 && temp.Length == 256 && digests != temp && Transposed(digests[..], result)
    modifies digests, temp
    ensures digests[..] == result
  {
    ghost var last := digests[..];
    TransposeBack(digests, temp, 5);
    RelaidLanes(last, digests[..]);
    RelayoutIdentity(result, last, digests[..]);
  }

  /** mh_sha1_block_ref: re-layout, plain SHA-1 per segment and block, re-layout. */
  method BlockRef(data: seq<byte>, digests: array<bv32>, temp: array<bv32>, numBlocks: nat)
    requires digests.Length == 80 && temp.Length == 256 && digests != temp && MH_BLOCK * numBlocks <= |data|
    modifies digests, temp
    ensures digests[..] == MhBlocks(old(digests[..]), data[..MH_BLOCK * numBlocks])
  {
    ghost var start := digests[..];
    Transpose(digests, temp, 5);
    RelaidLanes(digests[..], start);
    for i := 0 to numBlocks
      invariant Transposed(digests[..], After(start, data, i))
    {
      RefBlock(data, i, digests, temp, start);
    }
    RelayBack(digests, temp, After(start, data, numBlocks));
  }
}
