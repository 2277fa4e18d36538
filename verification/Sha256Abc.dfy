/** The value that FIPS 180 gives for SHA-256 of the block of "abc", eight rounds at a time. */
module Sha256Abc {
  import opened Sha256

  /** The registers before a round, and the next sixteen words of the schedule. */
  datatype Frame = Frame(
    r: Regs,
    w0: bv32, w1: bv32, w2: bv32, w3: bv32, w4: bv32, w5: bv32, w6: bv32, w7: bv32,
    w8: bv32, w9: bv32, w10: bv32, w11: bv32, w12: bv32, w13: bv32, w14: bv32, w15: bv32)

  function Next(k: bv32, f: Frame): Frame {
    Frame(Round(k, f.r, f.w0), f.w1, f.w2, f.w3, f.w4, f.w5, f.w6, f.w7, f.w8,
          f.w9, f.w10, f.w11, f.w12, f.w13, f.w14, f.w15, Mix(f.w14, f.w9, f.w1, f.w0))
  }

  function Four(k: seq<bv32>, j: nat, f: Frame): Frame
    requires j + 4 <= |k|
  {
    Next(k[j + 3], Next(k[j + 2], Next(k[j + 1], Next(k[j], f))))
  }

  // ----- frames of a computation -----

  function At(table: seq<bv32>, m: Block, t: nat): Frame {
    Frame(Rounds(table, H0, m, t), Schedule(m, t), Schedule(m, t + 1), Schedule(m, t + 2), Schedule(m, t + 3),
          Schedule(m, t + 4), Schedule(m, t + 5), Schedule(m, t + 6), Schedule(m, t + 7),
          Schedule(m, t + 8), Schedule(m, t + 9), Schedule(m, t + 10), Schedule(m, t + 11),
          Schedule(m, t + 12), Schedule(m, t + 13), Schedule(m, t + 14), Schedule(m, t + 15))
  }

  lemma NextIsAt(table: seq<bv32>, m: Block, t: nat)
    ensures Next(K(table, t), At(table, m, t)) == At(table, m, t + 1)
  {
    Recurrence(m, t + 16);
  }

  ghost predicate HasRow(table: seq<bv32>, i: nat) {
    forall j {:trigger TableRow(i)[j]} :: 0 <= j < 8 ==> K(table, 8 * i + j) == TableRow(i)[j]
  }

  lemma RowsOfTable(table: seq<bv32>)
    requires table == Constants()
    ensures HasRow(table, 0) && HasRow(table, 1) && HasRow(table, 2) && HasRow(table, 3)
    ensures HasRow(table, 4) && HasRow(table, 5) && HasRow(table, 6) && HasRow(table, 7)
  {
  }

  lemma FourIsAt(table: seq<bv32>, m: Block, k: seq<bv32>, j: nat, t: nat)
    requires j + 4 <= |k| && K(table, t) == k[j] && K(table, t + 1) == k[j + 1]
    requires K(table, t + 2) == k[j + 2] && K(table, t + 3) == k[j + 3]
    ensures Four(k, j, At(table, m, t)) == At(table, m, t + 4)
  {
    NextIsAt(table, m, t);
    NextIsAt(table, m, t + 1);
    NextIsAt(table, m, t + 2);
    NextIsAt(table, m, t + 3);
  }

  /** four is Four and at is At; what they compute does not matter where they are put together. */
  ghost predicate Known(four: Rounds4, at: nat -> Frame, table: seq<bv32>, m: Block) {
    && (forall k, j: nat, f {:trigger Four(k, j, f)} :: j + 4 <= |k| ==> four(k, j, f) == Four(k, j, f))
    && (forall t {:trigger At(table, m, t)} :: at(t) == At(table, m, t))
  }

  type Rounds4 = (seq<bv32>, nat, Frame) -> Frame

  function FourOf(): Rounds4 {
    (k: seq<bv32>, j: nat, f: Frame) => if j + 4 <= |k| then Four(k, j, f) else f
  }

  lemma EightIsAt(four: Rounds4, at: nat -> Frame, table: seq<bv32>, m: Block, i: nat)
    requires Known(four, at, table, m) && HasRow(table, i)
    ensures four(TableRow(i), 4, four(TableRow(i), 0, at(8 * i))) == at(8 * i + 8)
  {
    var k, t := TableRow(i), 8 * i;
    RowWords(table, i, k, t);
    FourKnown(four, at, table, m, k, 0, t);
    FourKnown(four, at, table, m, k, 4, t + 4);
  }

  lemma RowWords(table: seq<bv32>, i: nat, k: seq<bv32>, t: nat)
    requires HasRow(table, i) && k == TableRow(i) && t == 8 * i
    ensures K(table, t) == k[0] && K(table, t + 1) == k[1] && K(table, t + 2) == k[2] && K(table, t + 3) == k[3]
    ensures K(table, t + 4) == k[4] && K(table, t + 5) == k[5] && K(table, t + 6) == k[6] && K(table, t + 7) == k[7]
  {
    assert K(table, 8 * i + 0) == TableRow(i)[0] && K(table, 8 * i + 1) == TableRow(i)[1];
  }

  lemma FourKnown(four: Rounds4, at: nat -> Frame, table: seq<bv32>, m: Block, k: seq<bv32>, j: nat, t: nat)
    requires Known(four, at, table, m) && j + 4 <= |k|
    requires K(table, t) == k[j] && K(table, t + 1) == k[j + 1]
    requires K(table, t + 2) == k[j + 2] && K(table, t + 3) == k[j + 3]
    ensures four(k, j, at(t)) == at(t + 4)
  {
    FourIsAt(table, m, k, j, t);
    assert four(k, j, At(table, m, t)) == Four(k, j, At(table, m, t));
  }

  // ----- the block of "abc" -----

  const F0 := Frame(
    Regs(0x6a09e667, 0xbb67ae85, 0x3c6ef372, 0xa54ff53a, 0x510e527f, 0x9b05688c, 0x1f83d9ab, 0x5be0cd19),
    0x61626380, 0, 0, 0, 0, 0, 0, 0, 0, 0, 0, 0, 0, 0, 0, 0x18)

  const F8 := Frame(
    Regs(0x85a07b5f, 0xe5030380, 0x2b4209f5, 0x04409a6a, 0x0c657a79, 0x9b27a401, 0x714260ad, 0x43ada245),
    0, 0, 0, 0, 0, 0, 0, 0x18, 0x61626380, 0x000f0000, 0x7da86405, 0x600003c6, 0x3e9d7b78, 0x0183fc00, 0x12dcbfdb,
    0xe2e2c38e)

  const F16 := Frame(
    Regs(0xb0fa238e, 0xc0645fde, 0xd932eb16, 0x87912990, 0x07590dcd, 0x0b92f20c, 0x745a48de, 0x1e578218),
    0x61626380, 0x000f0000, 0x7da86405, 0x600003c6, 0x3e9d7b78, 0x0183fc00, 0x12dcbfdb, 0xe2e2c38e, 0xc8215c1a,
    0xb73679a2, 0xe5bc3909, 0x32663c5b, 0x9d209d67, 0xec8726cb, 0x702138a4, 0xd3b7973b)

  const F24 := Frame(
    Regs(0xc5d53d8d, 0xa7a3623f, 0xc2606d6d, 0x9dc68b63, 0xaa47c347, 0x49f5114a, 0xe1257970, 0x8ada8930),
    0xc8215c1a, 0xb73679a2, 0xe5bc3909, 0x32663c5b, 0x9d209d67, 0xec8726cb, 0x702138a4, 0xd3b7973b, 0x93f5997f,
    0x3b68ba73, 0xaff4ffc1, 0xf10a5c62, 0x0a8b3996, 0x72af830a, 0x9409e33e, 0x24641522)

  const F32 := Frame(
    Regs(0x73b33bf5, 0xea992a22, 0xa0060b30, 0x363482c9, 0xba591112, 0x0109ab3a, 0xade79437, 0x6112a3b7),
    0x93f5997f, 0x3b68ba73, 0xaff4ffc1, 0xf10a5c62, 0x0a8b3996, 0x72af830a, 0x9409e33e, 0x24641522, 0x9f47bf94,
    0xf0a64f5a, 0x3e246a79, 0x27333ba3, 0x0c4763f2, 0x840abf27, 0x7a290d5d, 0x065c43da)

  const F40 := Frame(
    Regs(0x79ea687a, 0x6dc57a8a, 0x34df1604, 0x41a65cb1, 0x1efbc0a0, 0xf0781bc8, 0xa507a53d, 0x0772a26b),
    0x9f47bf94, 0xf0a64f5a, 0x3e246a79, 0x27333ba3, 0x0c4763f2, 0x840abf27, 0x7a290d5d, 0x065c43da, 0xfb3e89cb,
    0xcc7617db, 0xb9e66c34, 0xa9993667, 0x84badedd, 0xc21462bc, 0x1487472c, 0xb20f7a99)

  const F48 := Frame(
    Regs(0x4172328d, 0xa14c14b0, 0x72ab4b91, 0x26628815, 0xfecf0bc6, 0xd57b94a9, 0xb7755da1, 0xa80f11f0),
    0xfb3e89cb, 0xcc7617db, 0xb9e66c34, 0xa9993667, 0x84badedd, 0xc21462bc, 0x1487472c, 0xb20f7a99, 0xef57b9cd,
    0xebe6b238, 0x9fe3095e, 0x78bc8d4b, 0xa43fcf15, 0x668b2ff8, 0xeeaba2cc, 0x12b1edeb)

  const F56 := Frame(
    Regs(0x38cc9913, 0x3ec45cdb, 0xf5702fdb, 0x101fd28f, 0x54cb266b, 0xe50e1b4f, 0x9f4787c3, 0x529e7d00),
    0xef57b9cd, 0xebe6b238, 0x9fe3095e, 0x78bc8d4b, 0xa43fcf15, 0x668b2ff8, 0xeeaba2cc, 0x12b1edeb, 0xb80a5a34,
    0x1ce797d5, 0x310fc1d7, 0xa31968ce, 0x7d8ce042, 0xd5892c87, 0x0ef2e48b, 0x86476aaa)

  const F64 := Frame(
    Regs(0x506e3058, 0xd39a2165, 0x04d24d6c, 0xb85e2ce9, 0x5ef50f24, 0xfb121210, 0x948d25b6, 0x961f4894),
    0xb80a5a34, 0x1ce797d5, 0x310fc1d7, 0xa31968ce, 0x7d8ce042, 0xd5892c87, 0x0ef2e48b, 0x86476aaa, 0xfb3bcd9a,
    0xe1abf701, 0x9cf194d1, 0x47ad031d, 0xaa812721, 0x04360d9c, 0xdb5ae899, 0xbe66bc93)

  lemma Value8()
    ensures Four(TableRow(0), 4, Four(TableRow(0), 0, F0)) == F8
  {
  }

  lemma To8(four: Rounds4, at: nat -> Frame, table: seq<bv32>, m: Block)
    requires Known(four, at, table, m) && HasRow(table, 0) && at(0) == F0
    ensures at(8) == F8
  {
    EightIsAt(four, at, table, m, 0);
    Value8();
  }

  lemma Value16()
    ensures Four(TableRow(1), 4, Four(TableRow(1), 0, F8)) == F16
  {
  }

  lemma To16(four: Rounds4, at: nat -> Frame, table: seq<bv32>, m: Block)
    requires Known(four, at, table, m) && HasRow(table, 1) && at(8) == F8
    ensures at(16) == F16
  {
    EightIsAt(four, at, table, m, 1);
    Value16();
  }

  lemma Value24()
    ensures Four(TableRow(2), 4, Four(TableRow(2), 0, F16)) == F24
  {
  }

  lemma To24(four: Rounds4, at: nat -> Frame, table: seq<bv32>, m: Block)
    requires Known(four, at, table, m) && HasRow(table, 2) && at(16) == F16
    ensures at(24) == F24
  {
    EightIsAt(four, at, table, m, 2);
    Value24();
  }

  lemma Value32()
    ensures Four(TableRow(3), 4, Four(TableRow(3), 0, F24)) == F32
  {
  }

  lemma To32(four: Rounds4, at: nat -> Frame, table: seq<bv32>, m: Block)
    requires Known(four, at, table, m) && HasRow(table, 3) && at(24) == F24
    ensures at(32) == F32
  {
    EightIsAt(four, at, table, m, 3);
    Value32();
  }

  lemma Value40()
    ensures Four(TableRow(4), 4, Four(TableRow(4), 0, F32)) == F40
  {
  }

  lemma To40(four: Rounds4, at: nat -> Frame, table: seq<bv32>, m: Block)
    requires Known(four, at, table, m) && HasRow(table, 4) && at(32) == F32
    ensures at(40) == F40
  {
    EightIsAt(four, at, table, m, 4);
    Value40();
  }

  lemma Value48()
    ensures Four(TableRow(5), 4, Four(TableRow(5), 0, F40)) == F48
  {
  }

  lemma To48(four: Rounds4, at: nat -> Frame, table: seq<bv32>, m: Block)
    requires Known(four, at, table, m) && HasRow(table, 5) && at(40) == F40
    ensures at(48) == F48
  {
    EightIsAt(four, at, table, m, 5);
    Value48();
  }

  lemma Value56()
    ensures Four(TableRow(6), 4, Four(TableRow(6), 0, F48)) == F56
  {
  }

  lemma To56(four: Rounds4, at: nat -> Frame, table: seq<bv32>, m: Block)
    requires Known(four, at, table, m) && HasRow(table, 6) && at(48) == F48
    ensures at(56) == F56
  {
    EightIsAt(four, at, table, m, 6);
    Value56();
  }

  lemma Value64()
    ensures Four(TableRow(7), 4, Four(TableRow(7), 0, F56)) == F64
  {
  }

  lemma To64(four: Rounds4, at: nat -> Frame, table: seq<bv32>, m: Block)
    requires Known(four, at, table, m) && HasRow(table, 7) && at(56) == F56
    ensures at(64) == F64
  {
    EightIsAt(four, at, table, m, 7);
    Value64();
  }

  lemma AllRounds(four: Rounds4, at: nat -> Frame, table: seq<bv32>, m: Block)
    requires Known(four, at, table, m) && at(0) == F0
    requires HasRow(table, 0) && HasRow(table, 1) && HasRow(table, 2) && HasRow(table, 3)
    requires HasRow(table, 4) && HasRow(table, 5) && HasRow(table, 6) && HasRow(table, 7)
    ensures at(64) == F64
  {
    To8(four, at, table, m);
    To16(four, at, table, m);
    To24(four, at, table, m);
    To32(four, at, table, m);
    To40(four, at, table, m);
    To48(four, at, table, m);
    To56(four, at, table, m);
    To64(four, at, table, m);
  }

  lemma StartsAt(table: seq<bv32>, m: Block)
    requires m == [0x61626380, 0, 0, 0, 0, 0, 0, 0, 0, 0, 0, 0, 0, 0, 0, 0x18]
    ensures At(table, m, 0) == F0
  {
  }

  lemma CompressAbc(m: Block)
    requires m == [0x61626380, 0, 0, 0, 0, 0, 0, 0, 0, 0, 0, 0, 0, 0, 0, 0x18]
    ensures Compress(H0, m)
         == Regs(0xba7816bf, 0x8f01cfea, 0x414140de, 0x5dae2223, 0xb00361a3, 0x96177a9c, 0xb410ff61, 0xf20015ad)
  {
    var table := Constants();
    RowsOfTable(table);
    StartsAt(table, m);
    AllRounds(FourOf(), (t: nat) => At(table, m, t), table, m);
    assert At(table, m, 64) == F64;
  }
}
