/** mh_sha256 over any number of 1024-byte blocks: the lockstep form and the reference compute the same digests. */
module MhSha256Blocks {
  import opened Bytes
  import opened Words
  import opened Relayout
  import opened Sha256
  import opened MhSha256
  import MhSha1
  import Input = MhSha1Blocks

  function MhCompressBytes(d: Digests, block: seq<byte>): Digests {
    if |block| == MH_BLOCK then MhCompress(d, WordsBE(block)) else d
  }

  /** The segment digests after the whole blocks of data. */
  function MhBlocks(d: Digests, data: seq<byte>): Digests {
    Fold(MhCompressBytes, MH_BLOCK, d, data)
  }

  lemma NextBlock(d: Digests, data: seq<byte>, i: nat)
    requires MH_BLOCK * (i + 1) <= |data|
    ensures MhBlocks(d, data[..MH_BLOCK * (i + 1)])
         == MhCompress(MhBlocks(d, data[..MH_BLOCK * i]), WordsBE(Input.BlockAt(data, i)))
  {
    FoldNext(MhCompressBytes, MH_BLOCK, d, data, i);
  }

  /** SHA-256 over the words of one segment alone, block after block. */
  function SegmentChain(s: nat): (Regs, seq<byte>) -> Regs
    requires s < SEGS
  {
    (r: Regs, block: seq<byte>) =>
      if |block| == MH_BLOCK then Compress(r, MhSha1.Segment(WordsBE(block), s)) else r
  }

  /** The sixteen segments are hashed independently: each lane is its own segment's SHA-256 chain. */
  lemma SegmentsIndependent(d: Digests, data: seq<byte>, s: nat)
    requires s < SEGS
    ensures Lane(MhBlocks(d, data), s) == Fold(SegmentChain(s), MH_BLOCK, Lane(d, s), data)
  {
    var lane := (e: Digests) => Lane(e, s);
    forall e: Digests, b: seq<byte> | |b| == MH_BLOCK
      ensures lane(MhCompressBytes(e, b)) == SegmentChain(s)(lane(e), b)
    {
      LaneOfFromLanes((k: nat) => SegmentAfter(e, WordsBE(b), k), s);
    }
    FoldPart(MhCompressBytes, SegmentChain(s), lane, MH_BLOCK, d, data);
  }

  /** Lane s reads the words of the data whose index is s modulo 16, and nothing else. */
  lemma LaneReads(d: Digests, x: seq<byte>, y: seq<byte>, s: nat)
    requires s < SEGS && Input.SameWords(x, y, s)
    ensures Lane(MhBlocks(d, x), s) == Lane(MhBlocks(d, y), s)
  {
    SegmentsIndependent(d, x, s);
    SegmentsIndependent(d, y, s);
    Input.ChainReads(SegmentChain(s), s, Lane(d, s), x, y);
  }

  /** Changing word k can change lane k % 16 alone. */
  lemma WordChangesLane(d: Digests, x: seq<byte>, y: seq<byte>, k: nat, s: nat)
    requires |x| == |y| && s < SEGS && s != k % 16
    requires forall j :: 0 <= j < |x| && !(4 * k <= j < 4 * k + 4) ==> x[j] == y[j]
    ensures Lane(MhBlocks(d, x), s) == Lane(MhBlocks(d, y), s)
  {
    Input.OtherWords(x, y, k, s);
    LaneReads(d, x, y, s);
  }

  /** The segment digests after the first n blocks of data. */
  function After(d: Digests, data: seq<byte>, n: nat): Digests
    requires MH_BLOCK * n <= |data|
  {
    MhBlocks(d, data[..MH_BLOCK * n])
  }

  /** One turn of the block loop. */
  method BaseBlock(data: seq<byte>, i: nat, digests: array<bv32>, frame: array<bv32>, ghost start: Digests)
    requires digests.Length == 128 && frame.Length == 256 && digests != frame && MH_BLOCK * (i + 1) <= |data|
    requires digests[..] == After(start, data, i)
    modifies digests, frame
    ensures digests[..] == After(start, data, i + 1)
  {
    NextBlock(start, data, i);
    MhSha256.Single(WordsBE(Input.BlockAt(data, i)), digests, frame);
  }

  /** _mh_sha256_block_base */
  method BlockBase(data: seq<byte>, digests: array<bv32>, frame: array<bv32>, numBlocks: nat)
    requires digests.Length == 128 && frame.Length == 256 && digests != frame && MH_BLOCK * numBlocks <= |data|
    modifies digests, frame
    ensures digests[..] == MhBlocks(old(digests[..]), data[..MH_BLOCK * numBlocks])
  {
    ghost var start := digests[..];
    for i := 0 to numBlocks
      invariant digests[..] == After(start, data, i)
    {
      BaseBlock(data, i, digests, frame, start);
    }
  }

  // ----- the reference -----

  /** Segment s of the digests laid out as uint32_t[16][8]. */
  function TransLane(t: Digests, s: nat): Regs
    requires s < SEGS
  {
    Regs(t[8 * s], t[8 * s + 1], t[8 * s + 2], t[8 * s + 3], t[8 * s + 4], t[8 * s + 5], t[8 * s + 6], t[8 * s + 7])
  }

  ghost predicate Transposed(t: Digests, d: Digests) {
    forall s: nat :: s < SEGS ==> TransLane(t, s) == Lane(d, s)
  }

  /** Going to the other layout and back gives the digests one started from. */
  lemma RelayoutIdentity(d: Digests, t: Digests, e: Digests)
    requires Transposed(t, d) && Transposed(t, e)
    ensures d == e
  {
    forall s: nat | s < SEGS
      ensures Lane(d, s) == Lane(e, s)
    {
      assert TransLane(t, s) == Lane(d, s) && TransLane(t, s) == Lane(e, s);
    }
    LanesDecide(d, e);
  }

  /** The re-laid words are the lanes. */
  lemma RelaidLanes(t: Digests, d: Digests)
    requires Relaid(t, d, 8)
    ensures Transposed(t, d)
  {
    forall s: nat | s < SEGS
      ensures TransLane(t, s) == Lane(d, s)
    {
      assert SameWord(t, d, 8, s, 0) && SameWord(t, d, 8, s, 1) && SameWord(t, d, 8, s, 2) && SameWord(t, d, 8, s, 3);
      assert SameWord(t, d, 8, s, 4) && SameWord(t, d, 8, s, 5) && SameWord(t, d, 8, s, 6) && SameWord(t, d, 8, s, 7);
    }
  }

  function LaneAt(trans: array<bv32>, s: nat): Regs
    requires trans.Length == 128 && s < SEGS
    reads trans
  {
    TransLane(trans[..], s)
  }

  function BlockOf(temp: array<bv32>, s: nat): Block
    requires temp.Length == 256 && s < SEGS
    reads temp
  {
    temp[16 * s..16 * s + 16]
  }

  /** Segment t is untouched when only the words of segment s change. */
  lemma OtherLane(was: Digests, now: Digests, s: nat, t: nat)
    requires s < SEGS && t < SEGS && t != s
    requires forall k :: 0 <= k < 8 * s || 8 * s + 8 <= k < 128 ==> now[k] == was[k]
    ensures TransLane(now, t) == TransLane(was, t)
  {
  }

  /** The hash value of one segment back in its place. */
  method StoreLane(trans: array<bv32>, s: nat, r: Regs)
    requires trans.Length == 128 && s < SEGS
    modifies trans
    ensures LaneAt(trans, s) == r
    ensures forall t: nat :: t < SEGS && t != s ==> LaneAt(trans, t) == old(LaneAt(trans, t))
  {
    ghost var was := trans[..];
    StoreWords(trans, 8 * s, r);
    forall t: nat | t < SEGS && t != s
      ensures LaneAt(trans, t) == TransLane(was, t)
    {
      OtherLane(was, trans[..], s, t);
    }
  }

  method StoreWords(trans: array<bv32>, at: nat, r: Regs)
    requires trans.Length == 128 && at + 8 <= 128
    modifies trans
    ensures trans[at] == r.a && trans[at + 1] == r.b && trans[at + 2] == r.c && trans[at + 3] == r.d
    ensures trans[at + 4] == r.e && trans[at + 5] == r.f && trans[at + 6] == r.g && trans[at + 7] == r.h
    ensures forall k :: 0 <= k < at || at + 8 <= k < 128 ==> trans[k] == old(trans[k])
  {
    StoreFour(trans, at, r.a, r.b, r.c, r.d);
    StoreFour(trans, at + 4, r.e, r.f, r.g, r.h);
  }

  /** sha256_update_one_seg */
  method UpdateSegment(temp: array<bv32>, trans: array<bv32>, s: nat)
    requires temp.Length == 256 && trans.Length == 128 && temp != trans && s < SEGS
    modifies trans
    ensures LaneAt(trans, s) == Compress(old(LaneAt(trans, s)), BlockOf(temp, s))
    ensures forall t: nat :: t < SEGS && t != s ==> LaneAt(trans, t) == old(LaneAt(trans, t))
  {
    var r := Sha256.Single(BlockOf(temp, s), LaneAt(trans, s));
    StoreLane(trans, s, r);
  }

  /** sha256_update_all_segs: the sixteen calls of the source, as a loop. */
  method UpdateAllSegments(temp: array<bv32>, trans: array<bv32>)
    requires temp.Length == 256 && trans.Length == 128 && temp != trans
    modifies trans
    ensures forall s: nat :: s < SEGS ==> LaneAt(trans, s) == Compress(old(LaneAt(trans, s)), BlockOf(temp, s))
  {
    for s := 0 to SEGS
      invariant forall t: nat :: t < s ==> LaneAt(trans, t) == Compress(old(LaneAt(trans, t)), BlockOf(temp, t))
      invariant forall t: nat :: s <= t < SEGS ==> LaneAt(trans, t) == old(LaneAt(trans, t))
    {
      UpdateSegment(temp, trans, s);
    }
  }

  /** Compressing every group with the words of its segment is the specified block step. */
  lemma CompressedTransposed(t: Digests, d: Digests, ww: MhWords, t': Digests)
    requires Transposed(t, d)
    requires forall s: nat :: s < SEGS ==> TransLane(t', s) == Compress(TransLane(t, s), MhSha1.Segment(ww, s))
    ensures Transposed(t', MhCompress(d, ww))
  {
    forall s: nat | s < SEGS
      ensures TransLane(t', s) == Lane(MhCompress(d, ww), s)
    {
      assert TransLane(t, s) == Lane(d, s);
      LaneOfFromLanes((k: nat) => SegmentAfter(d, ww, k), s);
    }
  }

  /** One turn of the block loop of the reference. */
  method RefTurn(ww: MhWords, digests: array<bv32>, temp: array<bv32>, ghost d: Digests)
    requires digests.Length == 128 && temp.Length == 256 && digests != temp && Transposed(digests[..], d)
    modifies digests, temp
    ensures Transposed(digests[..], MhCompress(d, ww))
  {
    ghost var t := digests[..];
    Input.TransformInput(temp, ww);
    UpdateAllSegments(temp, digests);
    forall s: nat | s < SEGS
      ensures TransLane(digests[..], s) == Compress(TransLane(t, s), MhSha1.Segment(ww, s))
    {
      assert LaneAt(digests, s) == Compress(TransLane(t, s), BlockOf(temp, s));
    }
    CompressedTransposed(t, d, ww, digests[..]);
  }

  /** One turn, told of the block of the data. */
  method RefBlock(data: seq<byte>, i: nat, digests: array<bv32>, temp: array<bv32>, ghost start: Digests)
    requires digests.Length == 128 && temp.Length == 256 && digests != temp && MH_BLOCK * (i + 1) <= |data|
    requires Transposed(digests[..], After(start, data, i))
    modifies digests, temp
    ensures Transposed(digests[..], After(start, data, i + 1))
  {
    NextBlock(start, data, i);
    RefTurn(WordsBE(Input.BlockAt(data, i)), digests, temp, After(start, data, i));
  }

  method RelayBack(digests: array<bv32>, temp: array<bv32>, ghost result: Digests)
    requires digests.Length == 128 && temp.Length == 256 && digests != temp && Transposed(digests[..], result)
    modifies digests, temp
    ensures digests[..] == result
  {
    ghost var last := digests[..];
    TransposeBack(digests, temp, 8);
    RelaidLanes(last, digests[..]);
    RelayoutIdentity(result, last, digests[..]);
  }

  /** mh_sha256_block_ref: re-layout, plain SHA-256 per segment and block, re-layout. */
  method BlockRef(data: seq<byte>, digests: array<bv32>, temp: array<bv32>, numBlocks: nat)
    requires digests.Length == 128 && temp.Length == 256 && digests != temp && MH_BLOCK * numBlocks <= |data|
    modifies digests, temp
    ensures digests[..] == MhBlocks(old(digests[..]), data[..MH_BLOCK * numBlocks])
  {
    ghost var start := digests[..];
    Transpose(digests, temp, 8);
    RelaidLanes(digests[..], start);
    for i := 0 to numBlocks
      invariant Transposed(digests[..], After(start, data, i))
    {
      RefBlock(data, i, digests, temp, start);
    }
    RelayBack(digests, temp, After(start, data, numBlocks));
  }
}
