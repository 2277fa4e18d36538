/**
 Multi-hash SHA-256 blocks: sixteen interleaved segments hashed in lockstep (mh_sha256_block_base.c),
 against sixteen separate SHA-256 computations.
 */
module MhSha256 {
  import opened Sha256
  import MhSha1

  const SEGS := MhSha1.SEGS
  const MH_BLOCK := MhSha1.MH_BLOCK

  /** uint32_t digests[8][16], in memory order. */
  type Digests = d: seq<bv32> | |d| == 128 witness seq(128, _ => 0 as bv32)

  type MhWords = MhSha1.MhWords

  type Row = MhSha1.Row

  // ----- the specification: sixteen independent segments -----

  function Lane(d: Digests, s: nat): Regs
    requires s < SEGS
  {
    Regs(d[s], d[16 + s], d[32 + s], d[48 + s], d[64 + s], d[80 + s], d[96 + s], d[112 + s])
  }

  function Field(r: Regs, i: nat): bv32
    requires i < 8
  {
    match i
    case 0 => r.a case 1 => r.b case 2 => r.c case 3 => r.d case 4 => r.e case 5 => r.f case 6 => r.g case _ => r.h
  }

  /** The eight rows whose lane s is lanes(s). */
  function FromLanes(lanes: nat -> Regs): Digests {
    seq(128, k requires 0 <= k < 128 => Field(lanes(k % 16), k / 16))
  }

  lemma WordOfFromLanes(lanes: nat -> Regs, i: nat, s: nat)
    requires i < 8 && s < SEGS
    ensures FromLanes(lanes)[16 * i + s] == Field(lanes(s), i)
  {
  }

  lemma LaneOfFromLanes(lanes: nat -> Regs, s: nat)
    requires s < SEGS
    ensures Lane(FromLanes(lanes), s) == lanes(s)
  {
    WordOfFromLanes(lanes, 0, s);
    WordOfFromLanes(lanes, 1, s);
    WordOfFromLanes(lanes, 2, s);
    WordOfFromLanes(lanes, 3, s);
    WordOfFromLanes(lanes, 4, s);
    WordOfFromLanes(lanes, 5, s);
    WordOfFromLanes(lanes, 6, s);
    WordOfFromLanes(lanes, 7, s);
  }

  /** Digests with the same lanes are the same. */
  lemma LanesDecide(d: Digests, e: Digests)
    requires forall s: nat :: s < SEGS ==> Lane(d, s) == Lane(e, s)
    ensures d == e
  {
    forall k | 0 <= k < 128
      ensures d[k] == e[k]
    {
      var s, i := k % 16, k / 16;
      assert Lane(d, s) == Lane(e, s);
      assert d[k] == Field(Lane(d, s), i) && e[k] == Field(Lane(e, s), i);
    }
  }

  function SegmentAfter(d: Digests, ww: MhWords, s: nat): Regs {
    if s < SEGS then Compress(Lane(d, s), MhSha1.Segment(ww, s)) else H0
  }

  /** One block into the segment digests. */
  function MhCompress(d: Digests, ww: MhWords): Digests {
    FromLanes((s: nat) => SegmentAfter(d, ww, s))
  }

  // ----- lockstep -----

  /** The eight register rows, by role. */
  datatype Rows = Rows(a: Row, b: Row, c: Row, d: Row, e: Row, f: Row, g: Row, h: Row)

  /** The rows that eight arrays hold. */
  function Held(a: array<bv32>, b: array<bv32>, c: array<bv32>, d: array<bv32>,
                e: array<bv32>, f: array<bv32>, g: array<bv32>, h: array<bv32>): Rows
    requires a.Length == 16 && b.Length == 16 && c.Length == 16 && d.Length == 16
    requires e.Length == 16 && f.Length == 16 && g.Length == 16 && h.Length == 16
    reads a, b, c, d, e, f, g, h
  {
    Rows(a[..], b[..], c[..], d[..], e[..], f[..], g[..], h[..])
  }

  function LaneRegs(r: Rows, s: nat): Regs
    requires s < SEGS
  {
    Regs(r.a[s], r.b[s], r.c[s], r.d[s], r.e[s], r.f[s], r.g[s], r.h[s])
  }

  ghost predicate LaneInStep(table: seq<bv32>, n: nat, dg: Digests, ww: MhWords, r: Rows, w: seq<bv32>, s: nat)
    requires |w| == 256 && s < SEGS
  {
    && LaneRegs(r, s) == Rounds(table, Lane(dg, s), MhSha1.Segment(ww, s), n)
    && Circular(MhSha1.Column(w, s), MhSha1.Segment(ww, s), n)
  }

  /** Every lane stands where its own SHA-256 stands before step n. */
  ghost predicate InStep(table: seq<bv32>, n: nat, dg: Digests, ww: MhWords, r: Rows, w: seq<bv32>)
    requires |w| == 256
  {
    forall s: nat :: s < SEGS ==> LaneInStep(table, n, dg, ww, r, w, s)
  }

  /** The registers of every lane after n rounds of its own SHA-256. */
  ghost predicate Advanced(table: seq<bv32>, n: nat, dg: Digests, ww: MhWords, r: Rows) {
    forall s: nat :: s < SEGS ==> LaneRegs(r, s) == Rounds(table, Lane(dg, s), MhSha1.Segment(ww, s), n)
  }

  lemma StartsInStep(table: seq<bv32>, dg: Digests, ww: MhWords, r: Rows, w: seq<bv32>)
    requires |w| == 256 && Advanced(table, 0, dg, ww, r)
    ensures InStep(table, 0, dg, ww, r, w)
  {
  }

  lemma InStepAdvanced(table: seq<bv32>, n: nat, dg: Digests, ww: MhWords, r: Rows, w: seq<bv32>)
    requires |w| == 256 && InStep(table, n, dg, ww, r, w)
    ensures Advanced(table, n, dg, ww, r)
  {
    forall s: nat | s < SEGS
      ensures LaneRegs(r, s) == Rounds(table, Lane(dg, s), MhSha1.Segment(ww, s), n)
    {
      assert LaneInStep(table, n, dg, ww, r, w, s);
    }
  }

  /** The roles after a step: the new rows d and h, and every other row one role further. */
  function Shifted(r: Rows, d': Row, h': Row): Rows {
    Rows(h', r.a, r.b, r.c, d', r.e, r.f, r.g)
  }

  /** The schedule side of a step on lane s. */
  lemma WordStored(i: nat, m: Block, w: seq<bv32>, s: nat, w': seq<bv32>)
    requires |w| == 256 && |w'| == 256 && s < SEGS && Circular(MhSha1.Column(w, s), m, i)
    requires MhSha1.Column(w', s) == MhSha1.Column(w, s)[i % 16 := NextWord(MhSha1.Column(w, s), m, i)]
    ensures Circular(MhSha1.Column(w', s), m, i + 1) && w'[16 * (i % 16) + s] == Schedule(m, i)
  {
    CircularStep(MhSha1.Column(w, s), m, i);
    MhSha1.ColumnAt(w', s, i % 16);
  }

  /** The new values of the rows d and h in lane s, for the schedule word that step i stored. */
  ghost predicate RowsStepped(k: bv32, r: Rows, word: bv32, s: nat, d': Row, h': Row)
    requires s < SEGS
  {
    var t1 := StepT1(k, r.e[s], r.f[s], r.g[s], r.h[s], word);
    d'[s] == Plus(r.d[s], t1) && h'[s] == Plus(t1, StepT2(r.a[s], r.b[s], r.c[s]))
  }

  /** What one step does to lane s. */
  lemma LaneStep(table: seq<bv32>, i: nat, dg: Digests, ww: MhWords, r: Rows, w: seq<bv32>, s: nat,
                 d': Row, h': Row, w': seq<bv32>)
    requires |w| == 256 && |w'| == 256 && s < SEGS
    requires LaneInStep(table, i, dg, ww, r, w, s)
    requires var m, was := MhSha1.Segment(ww, s), MhSha1.Column(w, s);
             MhSha1.Column(w', s) == was[i % 16 := NextWord(was, m, i)]
    requires RowsStepped(K(table, i), r, w'[16 * (i % 16) + s], s, d', h')
    ensures LaneInStep(table, i + 1, dg, ww, Shifted(r, d', h'), w', s)
  {
    WordStored(i, MhSha1.Segment(ww, s), w, s, w');
    NextRound(table, Lane(dg, s), MhSha1.Segment(ww, s), i, LaneRegs(r, s));
  }

  /** store_w and update_w on lane s. */
  function LaneWord(i: nat, w: seq<bv32>, ww: MhWords, s: nat): bv32
    requires |w| == 256 && s < SEGS
  {
    if i < 16 then ww[16 * i + s]
    else
      LowerMix(w[16 * ((i - 2) % 16) + s], w[16 * ((i - 7) % 16) + s],
               w[16 * ((i - 15) % 16) + s], w[16 * ((i - 16) % 16) + s])
  }

  lemma LaneWordIsNext(i: nat, w: seq<bv32>, ww: MhWords, s: nat)
    requires |w| == 256 && s < SEGS
    ensures LaneWord(i, w, ww, s) == NextWord(MhSha1.Column(w, s), MhSha1.Segment(ww, s), i)
  {
    if i >= 16 {
      MhSha1.ColumnAt(w, s, (i - 16) % 16);
      MhSha1.ColumnAt(w, s, (i - 15) % 16);
      MhSha1.ColumnAt(w, s, (i - 7) % 16);
      MhSha1.ColumnAt(w, s, (i - 2) % 16);
    }
  }

  /** STORE_W in the first sixteen steps, UPDATE_W afterwards. */
  method UpdateW(i: nat, w: array<bv32>, ww: MhWords) returns (ghost row: Row)
    requires w.Length == 256
    modifies w
    ensures MhSha1.RowReplaced(old(w[..]), w[..], i % 16, row)
    ensures forall s: nat :: s < SEGS ==> row[s] == LaneWord(i, old(w[..]), ww, s)
  {
    ghost var was, r := w[..], i % 16;
    row := seq(16, s requires 0 <= s < 16 => LaneWord(i, was, ww, s));
    forall s | 0 <= s < 16 {
      w[16 * (i % 16) + s] := LaneWord(i, w[..], ww, s);
    }
    forall k | 0 <= k < 256
      ensures w[k] == if 16 * r <= k < 16 * r + 16 then row[k - 16 * r] else was[k]
    {
      if 16 * r <= k < 16 * r + 16 {
        assert w[16 * r + (k - 16 * r)] == row[k - 16 * r];
      }
    }
  }

  /** UPDATE_T2 */
  method UpdateT2(t2: array<bv32>, a: array<bv32>, b: array<bv32>, c: array<bv32>)
    requires t2.Length == 16 && a.Length == 16 && b.Length == 16 && c.Length == 16 && t2 !in {a, b, c}
    modifies t2
    ensures forall s :: 0 <= s < 16 ==> t2[s] == StepT2(a[s], b[s], c[s])
  {
    forall s | 0 <= s < 16 {
      t2[s] := StepT2(a[s], b[s], c[s]);
    }
  }

  /** UPDATE_T1 */
  method UpdateT1(t1: array<bv32>, h: array<bv32>, e: array<bv32>, f: array<bv32>, g: array<bv32>, i: nat, k: bv32,
                  w: array<bv32>)
    requires t1.Length == 16 && e.Length == 16 && f.Length == 16 && g.Length == 16 && h.Length == 16 && w.Length == 256
    requires t1 !in {e, f, g, h, w}
    modifies t1
    ensures forall s :: 0 <= s < 16 ==> t1[s] == StepT1(k, e[s], f[s], g[s], h[s], w[16 * (i % 16) + s])
  {
    forall s | 0 <= s < 16 {
      t1[s] := StepT1(k, e[s], f[s], g[s], h[s], w[16 * (i % 16) + s]);
    }
  }

  /** UPDATE_D */
  method UpdateD(d: array<bv32>, t1: array<bv32>)
    requires d.Length == 16 && t1.Length == 16 && d != t1
    modifies d
    ensures forall s :: 0 <= s < 16 ==> d[s] == Plus(old(d[s]), t1[s])
  {
    forall s | 0 <= s < 16 {
      d[s] := Plus(d[s], t1[s]);
    }
  }

  /** UPDATE_H */
  method UpdateH(h: array<bv32>, t1: array<bv32>, t2: array<bv32>)
    requires h.Length == 16 && t1.Length == 16 && t2.Length == 16 && h != t1 && h != t2
    modifies h
    ensures forall s :: 0 <= s < 16 ==> h[s] == Plus(t1[s], t2[s])
  {
    forall s | 0 <= s < 16 {
      h[s] := Plus(t1[s], t2[s]);
    }
  }

  /** The table k of mh_sha256_single. */
  function LocalRow(i: nat): (k: seq<bv32>)
    ensures |k| == 8
  {
    if i == 0 then [0x428a2f98, 0x71374491, 0xb5c0fbcf, 0xe9b5dba5, 0x3956c25b, 0x59f111f1, 0x923f82a4, 0xab1c5ed5]
    else if i == 1 then [0xd807aa98, 0x12835b01, 0x243185be, 0x550c7dc3, 0x72be5d74, 0x80deb1fe, 0x9bdc06a7, 0xc19bf174]
    else if i == 2 then [0xe49b69c1, 0xefbe4786, 0x0fc19dc6, 0x240ca1cc, 0x2de92c6f, 0x4a7484aa, 0x5cb0a9dc, 0x76f988da]
    else if i == 3 then [0x983e5152, 0xa831c66d, 0xb00327c8, 0xbf597fc7, 0xc6e00bf3, 0xd5a79147, 0x06ca6351, 0x14292967]
    else if i == 4 then [0x27b70a85, 0x2e1b2138, 0x4d2c6dfc, 0x53380d13, 0x650a7354, 0x766a0abb, 0x81c2c92e, 0x92722c85]
    else if i == 5 then [0xa2bfe8a1, 0xa81a664b, 0xc24b8b70, 0xc76c51a3, 0xd192e819, 0xd6990624, 0xf40e3585, 0x106aa070]
    else if i == 6 then [0x19a4c116, 0x1e376c08, 0x2748774c, 0x34b0bcb5, 0x391c0cb3, 0x4ed8aa4a, 0x5b9cca4f, 0x682e6ff3]
    else [0x748f82ee, 0x78a5636f, 0x84c87814, 0x8cc70208, 0x90befffa, 0xa4506ceb, 0xbef9a3f7, 0xc67178f2]
  }

  function LocalConstants(): seq<bv32> {
    LocalRow(0) + LocalRow(1) + LocalRow(2) + LocalRow(3) + LocalRow(4) + LocalRow(5) + LocalRow(6) + LocalRow(7)
  }

  /** It is the table of the standard. */
  lemma ConstantsAgree()
    ensures LocalConstants() == Constants()
  {
  }

  /** The rows of registers and scratch and the frame buffer are different arrays. */
  ghost predicate Apart(a: array<bv32>, b: array<bv32>, c: array<bv32>, d: array<bv32>,
                        e: array<bv32>, f: array<bv32>, g: array<bv32>, h: array<bv32>,
                        t1: array<bv32>, t2: array<bv32>, w: array<bv32>) {
    && a.Length == 16 && b.Length == 16 && c.Length == 16 && d.Length == 16
    && e.Length == 16 && f.Length == 16 && g.Length == 16 && h.Length == 16
    && t1.Length == 16 && t2.Length == 16 && w.Length == 256
    && a != b && a != c && a != d && a != e && a != f && a != g && a != h && a != t1 && a != t2 && a != w
    && b != c && b != d && b != e && b != f && b != g && b != h && b != t1 && b != t2 && b != w
    && c != d && c != e && c != f && c != g && c != h && c != t1 && c != t2 && c != w
    && d != e && d != f && d != g && d != h && d != t1 && d != t2 && d != w
    && e != f && e != g && e != h && e != t1 && e != t2 && e != w
    && f != g && f != h && f != t1 && f != t2 && f != w
    && g != h && g != t1 && g != t2 && g != w
    && h != t1 && h != t2 && h != w
    && t1 != t2 && t1 != w
    && t2 != w
  }

  ghost predicate Outside(digests: array<bv32>, a: array<bv32>, b: array<bv32>, c: array<bv32>, d: array<bv32>,
                          e: array<bv32>, f: array<bv32>, g: array<bv32>, h: array<bv32>) {
    && digests != a && digests != b && digests != c && digests != d
    && digests != e && digests != f && digests != g && digests != h
  }

  /** step */
  method Step(i: nat, a: array<bv32>, b: array<bv32>, c: array<bv32>, d: array<bv32>,
              e: array<bv32>, f: array<bv32>, g: array<bv32>, h: array<bv32>, k: bv32,
              t1: array<bv32>, t2: array<bv32>, w: array<bv32>, ww: MhWords,
              ghost dg: Digests, ghost table: seq<bv32>)
    requires Apart(a, b, c, d, e, f, g, h, t1, t2, w) && k == K(table, i)
    requires InStep(table, i, dg, ww, Held(a, b, c, d, e, f, g, h), w[..])
    modifies d, h, t1, t2, w
    ensures InStep(table, i + 1, dg, ww, Held(h, a, b, c, d, e, f, g), w[..])
  {
    ghost var r, w0 := Held(a, b, c, d, e, f, g, h), w[..];
    ghost var row := UpdateW(i, w, ww);
    UpdateT2(t2, a, b, c);
    UpdateT1(t1, h, e, f, g, i, k, w);
    UpdateD(d, t1);
    UpdateH(h, t1, t2);
    ghost var r' := Shifted(r, d[..], h[..]);
    forall s: nat {:trigger LaneInStep(table, i + 1, dg, ww, r', w[..], s)} | s < SEGS
      ensures LaneInStep(table, i + 1, dg, ww, r', w[..], s)
    {
      assert LaneInStep(table, i, dg, ww, r, w0, s);
      MhSha1.ColumnOfReplaced(w0, w[..], i % 16, row, s);
      LaneWordIsNext(i, w0, ww, s);
      LaneStep(table, i, dg, ww, r, w0, s, d[..], h[..], w[..]);
    }
  }

  method EightSteps(i: nat, a: array<bv32>, b: array<bv32>, c: array<bv32>, d: array<bv32>,
                    e: array<bv32>, f: array<bv32>, g: array<bv32>, h: array<bv32>,
                    t1: array<bv32>, t2: array<bv32>, w: array<bv32>, ww: MhWords,
                    ghost dg: Digests, table: seq<bv32>)
    requires Apart(a, b, c, d, e, f, g, h, t1, t2, w)
    requires InStep(table, i, dg, ww, Held(a, b, c, d, e, f, g, h), w[..])
    modifies a, b, c, d, e, f, g, h, t1, t2, w
    ensures InStep(table, i + 8, dg, ww, Held(a, b, c, d, e, f, g, h), w[..])
  {
    Step(i, a, b, c, d, e, f, g, h, K(table, i), t1, t2, w, ww, dg, table);
    Step(i + 1, h, a, b, c, d, e, f, g, K(table, i + 1), t1, t2, w, ww, dg, table);
    Step(i + 2, g, h, a, b, c, d, e, f, K(table, i + 2), t1, t2, w, ww, dg, table);
    Step(i + 3, f, g, h, a, b, c, d, e, K(table, i + 3), t1, t2, w, ww, dg, table);
    Step(i + 4, e, f, g, h, a, b, c, d, K(table, i + 4), t1, t2, w, ww, dg, table);
    Step(i + 5, d, e, f, g, h, a, b, c, K(table, i + 5), t1, t2, w, ww, dg, table);
    Step(i + 6, c, d, e, f, g, h, a, b, K(table, i + 6), t1, t2, w, ww, dg, table);
    Step(i + 7, b, c, d, e, f, g, h, a, K(table, i + 7), t1, t2, w, ww, dg, table);
  }

  /** The loop of eight renamed steps. */
  method AllSteps(a: array<bv32>, b: array<bv32>, c: array<bv32>, d: array<bv32>,
                  e: array<bv32>, f: array<bv32>, g: array<bv32>, h: array<bv32>,
                  t1: array<bv32>, t2: array<bv32>, w: array<bv32>, ww: MhWords,
                  ghost dg: Digests, table: seq<bv32>)
    requires Apart(a, b, c, d, e, f, g, h, t1, t2, w)
    requires Advanced(table, 0, dg, ww, Held(a, b, c, d, e, f, g, h))
    modifies a, b, c, d, e, f, g, h, t1, t2, w
    ensures Advanced(table, ROUNDS, dg, ww, Held(a, b, c, d, e, f, g, h))
  {
    StartsInStep(table, dg, ww, Held(a, b, c, d, e, f, g, h), w[..]);
    var i := 0;
    while i < ROUNDS
      invariant i <= ROUNDS && i % 8 == 0
      invariant InStep(table, i, dg, ww, Held(a, b, c, d, e, f, g, h), w[..])
    {
      EightSteps(i, a, b, c, d, e, f, g, h, t1, t2, w, ww, dg, table);
      i := i + 8;
    }
    InStepAdvanced(table, i, dg, ww, Held(a, b, c, d, e, f, g, h), w[..]);
  }

  /** init_abcdefgh */
  method InitRow(x: array<bv32>, n: nat, digests: array<bv32>)
    requires x.Length == 16 && digests.Length == 128 && x != digests && n < 8
    modifies x
    ensures forall s :: 0 <= s < 16 ==> x[s] == digests[16 * n + s]
  {
    forall s | 0 <= s < 16 {
      x[s] := digests[16 * n + s];
    }
  }

  /** The digests with x added to row n. */
  function WithRow(d: Digests, n: nat, x: Row): Digests {
    seq(128, k requires 0 <= k < 128 => if k / 16 == n then Plus(d[k], x[k % 16]) else d[k])
  }

  function WithField(r: Regs, n: nat, v: bv32): Regs {
    Regs(if n == 0 then Plus(r.a, v) else r.a, if n == 1 then Plus(r.b, v) else r.b,
         if n == 2 then Plus(r.c, v) else r.c, if n == 3 then Plus(r.d, v) else r.d,
         if n == 4 then Plus(r.e, v) else r.e, if n == 5 then Plus(r.f, v) else r.f,
         if n == 6 then Plus(r.g, v) else r.g, if n == 7 then Plus(r.h, v) else r.h)
  }

  lemma WordWithRow(d: Digests, n: nat, x: Row, i: nat, s: nat)
    requires i < 8 && s < SEGS
    ensures WithRow(d, n, x)[16 * i + s] == if i == n then Plus(d[16 * i + s], x[s]) else d[16 * i + s]
  {
  }

  lemma LaneWithRow(d: Digests, n: nat, x: Row, s: nat)
    requires s < SEGS
    ensures Lane(WithRow(d, n, x), s) == WithField(Lane(d, s), n, x[s])
  {
    WordWithRow(d, n, x, 0, s);
    WordWithRow(d, n, x, 1, s);
    WordWithRow(d, n, x, 2, s);
    WordWithRow(d, n, x, 3, s);
    WordWithRow(d, n, x, 4, s);
    WordWithRow(d, n, x, 5, s);
    WordWithRow(d, n, x, 6, s);
    WordWithRow(d, n, x, 7, s);
  }

  function FirstRows(d: Digests, r: Rows): Digests {
    WithRow(WithRow(WithRow(WithRow(d, 0, r.a), 1, r.b), 2, r.c), 3, r.d)
  }

  function FirstAdded(h: Regs, r: Regs): Regs {
    Regs(Plus(h.a, r.a), Plus(h.b, r.b), Plus(h.c, r.c), Plus(h.d, r.d), h.e, h.f, h.g, h.h)
  }

  function LastRows(d: Digests, r: Rows): Digests {
    WithRow(WithRow(WithRow(WithRow(d, 4, r.e), 5, r.f), 6, r.g), 7, r.h)
  }

  function LastAdded(h: Regs, r: Regs): Regs {
    Regs(h.a, h.b, h.c, h.d, Plus(h.e, r.e), Plus(h.f, r.f), Plus(h.g, r.g), Plus(h.h, r.h))
  }

  function WithRows(d: Digests, r: Rows): Digests {
    LastRows(FirstRows(d, r), r)
  }

  lemma FirstRowsAdded(d: Digests, r: Rows, s: nat)
    requires s < SEGS
    ensures Lane(FirstRows(d, r), s) == FirstAdded(Lane(d, s), LaneRegs(r, s))
  {
    var d0 := WithRow(d, 0, r.a);
    var d1 := WithRow(d0, 1, r.b);
    var d2 := WithRow(d1, 2, r.c);
    LaneWithRow(d, 0, r.a, s);
    LaneWithRow(d0, 1, r.b, s);
    LaneWithRow(d1, 2, r.c, s);
    LaneWithRow(d2, 3, r.d, s);
  }

  lemma LastRowsAdded(d: Digests, r: Rows, s: nat)
    requires s < SEGS
    ensures Lane(LastRows(d, r), s) == LastAdded(Lane(d, s), LaneRegs(r, s))
  {
    var d4 := WithRow(d, 4, r.e);
    var d5 := WithRow(d4, 5, r.f);
    var d6 := WithRow(d5, 6, r.g);
    LaneWithRow(d, 4, r.e, s);
    LaneWithRow(d4, 5, r.f, s);
    LaneWithRow(d5, 6, r.g, s);
    LaneWithRow(d6, 7, r.h, s);
  }

  lemma AddedInTwo(h: Regs, r: Regs)
    ensures LastAdded(FirstAdded(h, r), r) == AddRegs(h, r)
  {
  }

  lemma RowsAdded(d: Digests, r: Rows, s: nat)
    requires s < SEGS
    ensures Lane(WithRows(d, r), s) == AddRegs(Lane(d, s), LaneRegs(r, s))
  {
    FirstRowsAdded(d, r, s);
    LastRowsAdded(FirstRows(d, r), r, s);
    AddedInTwo(Lane(d, s), LaneRegs(r, s));
  }

  /** add_abcdefgh */
  method AddRow(x: array<bv32>, n: nat, digests: array<bv32>)
    requires x.Length == 16 && digests.Length == 128 && x != digests && n < 8
    modifies digests
    ensures digests[..] == WithRow(old(digests[..]), n, x[..])
  {
    forall k | 16 * n <= k < 16 * n + 16 {
      digests[k] := Plus(digests[k], x[k - 16 * n]);
    }
  }

  method InitRows(a: array<bv32>, b: array<bv32>, c: array<bv32>, d: array<bv32>,
                  e: array<bv32>, f: array<bv32>, g: array<bv32>, h: array<bv32>,
                  ghost t1: array<bv32>, ghost t2: array<bv32>, ghost w: array<bv32>, digests: array<bv32>,
                  ghost ww: MhWords, ghost table: seq<bv32>)
    requires Apart(a, b, c, d, e, f, g, h, t1, t2, w)
    requires digests.Length == 128 && Outside(digests, a, b, c, d, e, f, g, h)
    modifies a, b, c, d, e, f, g, h
    ensures Advanced(table, 0, digests[..], ww, Held(a, b, c, d, e, f, g, h))
  {
    InitRow(a, 0, digests);
    InitRow(b, 1, digests);
    InitRow(c, 2, digests);
    InitRow(d, 3, digests);
    InitRow(e, 4, digests);
    InitRow(f, 5, digests);
    InitRow(g, 6, digests);
    InitRow(h, 7, digests);
  }

  method AddRows(a: array<bv32>, b: array<bv32>, c: array<bv32>, d: array<bv32>,
                 e: array<bv32>, f: array<bv32>, g: array<bv32>, h: array<bv32>,
                 ghost t1: array<bv32>, ghost t2: array<bv32>, ghost w: array<bv32>, digests: array<bv32>)
    requires Apart(a, b, c, d, e, f, g, h, t1, t2, w)
    requires digests.Length == 128 && Outside(digests, a, b, c, d, e, f, g, h)
    modifies digests
    ensures digests[..] == WithRows(old(digests[..]), Held(a, b, c, d, e, f, g, h))
  {
    AddRow(a, 0, digests);
    AddRow(b, 1, digests);
    AddRow(c, 2, digests);
    AddRow(d, 3, digests);
    AddRow(e, 4, digests);
    AddRow(f, 5, digests);
    AddRow(g, 6, digests);
    AddRow(h, 7, digests);
  }

  lemma CompressedLanes(dg: Digests, ww: MhWords, r: Rows)
    requires Advanced(Constants(), ROUNDS, dg, ww, r)
    ensures WithRows(dg, r) == MhCompress(dg, ww)
  {
    forall s: nat | s < SEGS
      ensures Lane(WithRows(dg, r), s) == Lane(MhCompress(dg, ww), s)
    {
      RowsAdded(dg, r, s);
      LaneOfFromLanes((t: nat) => SegmentAfter(dg, ww, t), s);
    }
    LanesDecide(WithRows(dg, r), MhCompress(dg, ww));
  }

  /** The local register and scratch rows of mh_sha256_single. */
  method NewRows(ghost w: array<bv32>, ghost digests: array<bv32>)
    returns (a: array<bv32>, b: array<bv32>, c: array<bv32>, d: array<bv32>,
             e: array<bv32>, f: array<bv32>, g: array<bv32>, h: array<bv32>, t1: array<bv32>, t2: array<bv32>)
    requires w.Length == 256
    ensures Apart(a, b, c, d, e, f, g, h, t1, t2, w)
    ensures Outside(digests, a, b, c, d, e, f, g, h) && digests != t1 && digests != t2
    ensures fresh(a) && fresh(b) && fresh(c) && fresh(d) && fresh(e) && fresh(f) && fresh(g) && fresh(h)
    ensures fresh(t1) && fresh(t2)
  {
    a, b, c, d := new bv32[16], new bv32[16], new bv32[16], new bv32[16];
    e, f, g, h := new bv32[16], new bv32[16], new bv32[16], new bv32[16];
    t1, t2 := new bv32[16], new bv32[16];
  }

  /** mh_sha256_single */
  method Single(ww: MhWords, digests: array<bv32>, w: array<bv32>)
    requires digests.Length == 128 && w.Length == 256 && digests != w
    modifies digests, w
    ensures digests[..] == MhCompress(old(digests[..]), ww)
  {
    var a, b, c, d, e, f, g, h, t1, t2 := NewRows(w, digests);
    OneBlock(a, b, c, d, e, f, g, h, t1, t2, w, digests, ww);
  }

  method OneBlock(a: array<bv32>, b: array<bv32>, c: array<bv32>, d: array<bv32>,
                  e: array<bv32>, f: array<bv32>, g: array<bv32>, h: array<bv32>,
                  t1: array<bv32>, t2: array<bv32>, w: array<bv32>, digests: array<bv32>, ww: MhWords)
    requires Apart(a, b, c, d, e, f, g, h, t1, t2, w)
    requires digests.Length == 128 && Outside(digests, a, b, c, d, e, f, g, h)
    requires digests != t1 && digests != t2 && digests != w
    modifies a, b, c, d, e, f, g, h, t1, t2, w, digests
    ensures digests[..] == MhCompress(old(digests[..]), ww)
  {
    ConstantsAgree();
    InitRows(a, b, c, d, e, f, g, h, t1, t2, w, digests, ww, LocalConstants());
    AllSteps(a, b, c, d, e, f, g, h, t1, t2, w, ww, digests[..], LocalConstants());
    CompressedLanes(digests[..], ww, Held(a, b, c, d, e, f, g, h));
    AddRows(a, b, c, d, e, f, g, h, t1, t2, w, digests);
  }
}
