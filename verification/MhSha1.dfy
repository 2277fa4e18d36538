/**
 Multi-hash SHA-1 blocks: sixteen interleaved segments hashed in lockstep (mh_sha1_block_base.c),
 against sixteen separate SHA-1 computations, and the reference that re-lays the digests in place
 (mh_sha1_ref.c).
 */
module MhSha1 {
  import opened Sha1

  const SEGS: nat := 16
  const MH_BLOCK: nat := 1024

  /** uint32_t digests[5][16], in memory order. */
  type Digests = d: seq<bv32> | |d| == 80 witness seq(80, _ => 0 as bv32)

  /** One block of input, word by word. */
  type MhWords = w: seq<bv32> | |w| == 256 witness seq(256, _ => 0 as bv32)

  type Row = r: seq<bv32> | |r| == 16 witness seq(16, _ => 0 as bv32)

  // ----- the specification: sixteen independent segments -----

  function Lane(d: Digests, s: nat): Regs
    requires s < SEGS
  {
    Regs(d[s], d[16 + s], d[32 + s], d[48 + s], d[64 + s])
  }

  /** Segment s of a block: every sixteenth word, from word s. */
  function Segment(ww: MhWords, s: nat): Block
    requires s < SEGS
  {
    seq(16, i requires 0 <= i < 16 => ww[16 * i + s])
  }

  function Field(r: Regs, i: nat): bv32
    requires i < 5
  {
    match i case 0 => r.a case 1 => r.b case 2 => r.c case 3 => r.d case _ => r.e
  }

  /** The five rows whose lane s is lanes(s). */
  function FromLanes(lanes: nat -> Regs): Digests {
    seq(80, k requires 0 <= k < 80 => Field(lanes(k % 16), k / 16))
  }

  lemma LaneOfFromLanes(lanes: nat -> Regs, s: nat)
    requires s < SEGS
    ensures Lane(FromLanes(lanes), s) == lanes(s)
  {
  }

  /** Digests with the same lanes are the same. */
  lemma LanesDecide(d: Digests, e: Digests)
    requires forall s: nat :: s < SEGS ==> Lane(d, s) == Lane(e, s)
    ensures d == e
  {
    forall k | 0 <= k < 80
      ensures d[k] == e[k]
    {
      var s, i := k % 16, k / 16;
      assert Lane(d, s) == Lane(e, s);
      assert d[k] == Field(Lane(d, s), i) && e[k] == Field(Lane(e, s), i);
    }
  }

  function SegmentAfter(d: Digests, ww: MhWords, s: nat): Regs {
    if s < SEGS then Compress(Lane(d, s), Segment(ww, s)) else H0
  }

  /** One block into the segment digests. */
  function MhCompress(d: Digests, ww: MhWords): Digests {
    FromLanes((s: nat) => SegmentAfter(d, ww, s))
  }

  // ----- lockstep -----

  /** The schedule words of lane s in the frame buffer uint32_t w[16][16]. */
  function Column(w: seq<bv32>, s: nat): Row
    requires |w| == 256 && s < SEGS
  {
    seq(16, j requires 0 <= j < 16 => w[16 * j + s])
  }

  /** Lane s of the five register rows, in roles. */
  function LaneRegs(a: Row, b: Row, c: Row, d: Row, e: Row, s: nat): Regs
    requires s < SEGS
  {
    Regs(a[s], b[s], c[s], d[s], e[s])
  }

  /** Every lane stands where its own SHA-1 stands before step n. */
  ghost predicate InStep(n: nat, dg: Digests, ww: MhWords, a: Row, b: Row, c: Row, d: Row, e: Row, w: seq<bv32>)
    requires |w| == 256
  {
    forall s: nat :: s < SEGS ==> LaneInStep(n, dg, ww, a, b, c, d, e, w, s)
  }

  ghost predicate LaneInStep(n: nat, dg: Digests, ww: MhWords, a: Row, b: Row, c: Row, d: Row, e: Row, w: seq<bv32>,
                             s: nat)
    requires |w| == 256 && s < SEGS
  {
    && LaneRegs(a, b, c, d, e, s) == Rounds(Lane(dg, s), Segment(ww, s), n)
    && Circular(Column(w, s), Segment(ww, s), n)
  }

  lemma ColumnAt(w: seq<bv32>, s: nat, j: nat)
    requires |w| == 256 && s < SEGS && j < 16
    ensures Column(w, s)[j] == w[16 * j + s]
  {
  }

  /** The schedule side of a step on lane s. */
  lemma WordStored(i: nat, m: Block, w: seq<bv32>, s: nat, w': seq<bv32>)
    requires |w| == 256 && |w'| == 256 && s < SEGS && Circular(Column(w, s), m, i)
    requires Column(w', s) == Column(w, s)[i % 16 := NextWord(Column(w, s), m, i)]
    ensures Circular(Column(w', s), m, i + 1) && w'[16 * (i % 16) + s] == Schedule(m, i)
  {
    CircularStep(Column(w, s), m, i);
    ColumnAt(w', s, i % 16);
  }

  /** What one step does to lane s. */
  lemma LaneStep(i: nat, dg: Digests, ww: MhWords, a: Row, b: Row, c: Row, d: Row, e: Row, w: seq<bv32>, s: nat,
                 b': Row, e': Row, w': seq<bv32>)
    requires |w| == 256 && |w'| == 256 && s < SEGS
    requires LaneInStep(i, dg, ww, a, b, c, d, e, w, s)
    requires Column(w', s) == Column(w, s)[i % 16 := NextWord(Column(w, s), Segment(ww, s), i)]
    requires e'[s] == NewE(i, a[s], b[s], c[s], d[s], e[s], w'[16 * (i % 16) + s])
    requires b'[s] == Rol30(b[s])
    ensures LaneInStep(i + 1, dg, ww, e', a, b', c, d, w', s)
  {
    WordStored(i, Segment(ww, s), w, s, w');
    NextRound(Lane(dg, s), Segment(ww, s), i, a[s], b[s], c[s], d[s], e[s]);
  }

  /** store_w and update_w on lane s. */
  function LaneWord(i: nat, w: seq<bv32>, ww: MhWords, s: nat): bv32
    requires |w| == 256 && s < SEGS
  {
    if i < 16 then ww[16 * i + s]
    else
      LowerMix(w[16 * ((i - 3) % 16) + s], w[16 * ((i - 8) % 16) + s],
               w[16 * ((i - 14) % 16) + s], w[16 * ((i - 16) % 16) + s])
  }

  lemma LaneWordIsNext(i: nat, w: seq<bv32>, ww: MhWords, s: nat)
    requires |w| == 256 && s < SEGS
    ensures LaneWord(i, w, ww, s) == NextWord(Column(w, s), Segment(ww, s), i)
  {
    if i >= 16 {
      ColumnAt(w, s, (i - 3) % 16);
      ColumnAt(w, s, (i - 8) % 16);
      ColumnAt(w, s, (i - 14) % 16);
      ColumnAt(w, s, (i - 16) % 16);
    }
  }

  /** w' is w with row r replaced. */
  ghost predicate RowReplaced(w: seq<bv32>, w': seq<bv32>, r: nat, row: Row) {
    && |w| == |w'| == 256 && r < 16
    && forall k :: 0 <= k < 256 ==> w'[k] == if 16 * r <= k < 16 * r + 16 then row[k - 16 * r] else w[k]
  }

  lemma ColumnOfReplaced(w: seq<bv32>, w': seq<bv32>, r: nat, row: Row, s: nat)
    requires RowReplaced(w, w', r, row) && s < SEGS
    ensures Column(w', s) == Column(w, s)[r := row[s]]
  {
  }

  /** STORE_W in the first sixteen steps, UPDATE_W afterwards. */
  method UpdateW(i: nat, w: array<bv32>, ww: MhWords) returns (ghost row: Row)
    requires w.Length == 256
    modifies w
    ensures RowReplaced(old(w[..]), w[..], i % 16, row)
    ensures forall s: nat :: s < SEGS ==> row[s] == LaneWord(i, old(w[..]), ww, s)
  {
    ghost var was, r := w[..], i % 16;
    row := seq(16, s requires 0 <= s < 16 => LaneWord(i, was, ww, s));
    forall s | 0 <= s < 16 {
      w[16 * (i % 16) + s] := LaneWord(i, w[..], ww, s);
    }
    forall k | 0 <= k < 256
      ensures w[k] == if 16 * r <= k < 16 * r + 16 then row[k - 16 * r] else was[k]
    {
      if 16 * r <= k < 16 * r + 16 {
        assert w[16 * r + (k - 16 * r)] == row[k - 16 * r];
      }
    }
  }

  /** UPDATE_E1 to UPDATE_E4 */
  method UpdateE(i: nat, a: array<bv32>, b: array<bv32>, c: array<bv32>, d: array<bv32>, e: array<bv32>, w: array<bv32>)
    requires a.Length == 16 && b.Length == 16 && c.Length == 16 && d.Length == 16 && e.Length == 16 && w.Length == 256
    modifies e
    ensures forall s :: 0 <= s < 16 ==>
              e[s] == NewE(i, old(a[s]), old(b[s]), old(c[s]), old(d[s]), old(e[s]), old(w[16 * (i % 16) + s]))
  {
    forall s | 0 <= s < 16 {
      e[s] := NewE(i, a[s], b[s], c[s], d[s], e[s], w[16 * (i % 16) + s]);
    }
  }

  /** UPDATE_B */
  method UpdateB(b: array<bv32>)
    requires b.Length == 16
    modifies b
    ensures forall s :: 0 <= s < 16 ==> b[s] == Rol30(old(b[s]))
  {
    forall s | 0 <= s < 16 {
      b[s] := Rol30(b[s]);
    }
  }

  /** The five register rows and the frame buffer are different arrays. */
  ghost predicate Apart(a: array<bv32>, b: array<bv32>, c: array<bv32>, d: array<bv32>, e: array<bv32>,
                        w: array<bv32>) {
    && a.Length == 16 && b.Length == 16 && c.Length == 16 && d.Length == 16 && e.Length == 16 && w.Length == 256
    && a != b && a != c && a != d && a != e && a != w && b != c && b != d && b != e && b != w
    && c != d && c != e && c != w && d != e && d != w && e != w
  }

  /** step00_15 to step60_79 */
  method Step(i: nat, a: array<bv32>, b: array<bv32>, c: array<bv32>, d: array<bv32>, e: array<bv32>, w: array<bv32>,
              ww: MhWords, ghost dg: Digests)
    requires Apart(a, b, c, d, e, w)
    requires InStep(i, dg, ww, a[..], b[..], c[..], d[..], e[..], w[..])
    modifies b, e, w
    ensures InStep(i + 1, dg, ww, e[..], a[..], b[..], c[..], d[..], w[..])
  {
    ghost var b0, e0, w0 := b[..], e[..], w[..];
    ghost var row := UpdateW(i, w, ww);
    UpdateE(i, a, b, c, d, e, w);
    UpdateB(b);
    forall s: nat {:trigger LaneInStep(i + 1, dg, ww, e[..], a[..], b[..], c[..], d[..], w[..], s)} | s < SEGS
      ensures LaneInStep(i + 1, dg, ww, e[..], a[..], b[..], c[..], d[..], w[..], s)
    {
      assert LaneInStep(i, dg, ww, a[..], b0, c[..], d[..], e0, w0, s);
      ColumnOfReplaced(w0, w[..], i % 16, row, s);
      LaneWordIsNext(i, w0, ww, s);
      LaneStep(i, dg, ww, a[..], b0, c[..], d[..], e0, w0, s, b[..], e[..], w[..]);
    }
  }

  method FiveSteps(i: nat, a: array<bv32>, b: array<bv32>, c: array<bv32>, d: array<bv32>, e: array<bv32>,
                   w: array<bv32>, ww: MhWords, ghost dg: Digests)
    returns (i': nat)
    requires Apart(a, b, c, d, e, w)
    requires InStep(i, dg, ww, a[..], b[..], c[..], d[..], e[..], w[..])
    modifies a, b, c, d, e, w
    ensures i' == i + 5 && InStep(i', dg, ww, a[..], b[..], c[..], d[..], e[..], w[..])
  {
    Step(i, a, b, c, d, e, w, ww, dg);
    Step(i + 1, e, a, b, c, d, w, ww, dg);
    Step(i + 2, d, e, a, b, c, w, ww, dg);
    Step(i + 3, c, d, e, a, b, w, ww, dg);
    Step(i + 4, b, c, d, e, a, w, ww, dg);
    i' := i + 5;
  }

  /** init_abcde */
  method InitRow(x: array<bv32>, n: nat, digests: array<bv32>)
    requires x.Length == 16 && digests.Length == 80 && x != digests && n < 5
    modifies x
    ensures forall s :: 0 <= s < 16 ==> x[s] == digests[16 * n + s]
  {
    forall s | 0 <= s < 16 {
      x[s] := digests[16 * n + s];
    }
  }

  /** add_abcde */
  method AddRow(x: array<bv32>, n: nat, digests: array<bv32>)
    requires x.Length == 16 && digests.Length == 80 && x != digests && n < 5
    modifies digests
    ensures forall k :: 16 * n <= k < 16 * n + 16 ==> digests[k] == Plus(old(digests[k]), x[k - 16 * n])
    ensures forall k :: 0 <= k < 16 * n || 16 * n + 16 <= k < 80 ==> digests[k] == old(digests[k])
  {
    forall k | 16 * n <= k < 16 * n + 16 {
      digests[k] := Plus(digests[k], x[k - 16 * n]);
    }
  }

  method InitRows(a: array<bv32>, b: array<bv32>, c: array<bv32>, d: array<bv32>, e: array<bv32>, digests: array<bv32>,
                  ghost w: array<bv32>)
    requires Apart(a, b, c, d, e, w) && digests.Length == 80 && digests !in {a, b, c, d, e}
    modifies a, b, c, d, e
    ensures forall s: nat :: s < SEGS ==> LaneRegs(a[..], b[..], c[..], d[..], e[..], s) == Lane(digests[..], s)
  {
    InitRow(a, 0, digests);
    InitRow(b, 1, digests);
    InitRow(c, 2, digests);
    InitRow(d, 3, digests);
    InitRow(e, 4, digests);
  }

  method AddRows(a: array<bv32>, b: array<bv32>, c: array<bv32>, d: array<bv32>, e: array<bv32>, digests: array<bv32>,
                 ghost w: array<bv32>)
    requires Apart(a, b, c, d, e, w) && digests.Length == 80 && digests !in {a, b, c, d, e}
    modifies digests
    ensures forall s: nat :: s < SEGS ==>
              Lane(digests[..], s) == AddRegs(Lane(old(digests[..]), s), LaneRegs(a[..], b[..], c[..], d[..], e[..], s))
  {
    AddRow(a, 0, digests);
    AddRow(b, 1, digests);
    AddRow(c, 2, digests);
    AddRow(d, 3, digests);
    AddRow(e, 4, digests);
  }

  /** mh_sha1_single: init, the eighty steps in groups of five, and the additions. */
  method Single(ww: MhWords, digests: array<bv32>, w: array<bv32>)
    requires digests.Length == 80 && w.Length == 256 && digests != w
    modifies digests, w
    ensures digests[..] == MhCompress(old(digests[..]), ww)
  {
    ghost var dg := digests[..];
    var a, b, c, d, e := new bv32[16], new bv32[16], new bv32[16], new bv32[16], new bv32[16];
    InitRows(a, b, c, d, e, digests, w);
    EightySteps(a, b, c, d, e, w, ww, dg);
    AddRows(a, b, c, d, e, digests, w);
    CompressedLanes(dg, ww, digests[..]);
  }

  lemma CompressedLanes(dg: Digests, ww: MhWords, after: Digests)
    requires forall s: nat :: s < SEGS ==> Lane(after, s) == Compress(Lane(dg, s), Segment(ww, s))
    ensures after == MhCompress(dg, ww)
  {
    forall s: nat | s < SEGS
      ensures Lane(after, s) == Lane(MhCompress(dg, ww), s)
    {
      LaneOfFromLanes((t: nat) => SegmentAfter(dg, ww, t), s);
    }
    LanesDecide(after, MhCompress(dg, ww));
  }

  method EightySteps(a: array<bv32>, b: array<bv32>, c: array<bv32>, d: array<bv32>, e: array<bv32>, w: array<bv32>,
                     ww: MhWords, ghost dg: Digests)
    requires Apart(a, b, c, d, e, w)
    requires forall s: nat :: s < SEGS ==> LaneRegs(a[..], b[..], c[..], d[..], e[..], s) == Lane(dg, s)
    modifies a, b, c, d, e, w
    ensures forall s: nat :: s < SEGS ==>
              LaneRegs(a[..], b[..], c[..], d[..], e[..], s) == Rounds(Lane(dg, s), Segment(ww, s), ROUNDS)
  {
    var i := 0;
    i := FiveSteps(i, a, b, c, d, e, w, ww, dg);
    i := FiveSteps(i, a, b, c, d, e, w, ww, dg);
    i := FiveSteps(i, a, b, c, d, e, w, ww, dg);
    i := FiveSteps(i, a, b, c, d, e, w, ww, dg);
    i := FiveSteps(i, a, b, c, d, e, w, ww, dg);
    i := FiveSteps(i, a, b, c, d, e, w, ww, dg);
    i := FiveSteps(i, a, b, c, d, e, w, ww, dg);
    i := FiveSteps(i, a, b, c, d, e, w, ww, dg);
    i := FiveSteps(i, a, b, c, d, e, w, ww, dg);
    i := FiveSteps(i, a, b, c, d, e, w, ww, dg);
    i := FiveSteps(i, a, b, c, d, e, w, ww, dg);
    i := FiveSteps(i, a, b, c, d, e, w, ww, dg);
    i := FiveSteps(i, a, b, c, d, e, w, ww, dg);
    i := FiveSteps(i, a, b, c, d, e, w, ww, dg);
    i := FiveSteps(i, a, b, c, d, e, w, ww, dg);
    i := FiveSteps(i, a, b, c, d, e, w, ww, dg);
    assert i == ROUNDS;
    forall s: nat | s < SEGS
      ensures LaneRegs(a[..], b[..], c[..], d[..], e[..], s) == Rounds(Lane(dg, s), Segment(ww, s), ROUNDS)
    {
      assert LaneInStep(i, dg, ww, a[..], b[..], c[..], d[..], e[..], w[..], s);
    }
  }
}
