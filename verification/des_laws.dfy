/** What sets the other tables of the Data Encryption Standard apart: closed forms of those that
    have one, and the inverses of the others; and what they make of one round and of the block. */
module DesLaws {
  import opened DesTables
  import opened DesSpec
  import opened DesBoxes

  // ---------------------------------------------------------------------
  // Tables in closed form

  /** Each selection function gets four bits in a row, and one from either side. */
  lemma EWindows(b: nat, k: nat)
    requires b < 8 && k < 6
    ensures EBit(6 * b + k) == (4 * b + k + 31) % 32 + 1
  {
    hide EBit, InRows;
    EClosedForm();
    EAt(b, k);
  }

  lemma EAt(b: nat, k: nat)
    requires b < 8 && k < 6
    ensures |E_TABLE| == 8 && |E_TABLE[b]| == 6 && EBit(6 * b + k) == E_TABLE[b][k]
  {
    EBitShape();
    assert (6 * b + k) / 6 == b && (6 * b + k) % 6 == k;
  }

  lemma EClosedForm()
    ensures InRows(E_TABLE, 8, 6, 1, 32)
    ensures forall b, k :: 0 <= b < 8 && 0 <= k < 6 ==> E_TABLE[b][k] == (4 * b + k + 31) % 32 + 1
  {
  }

  /** C takes the key bits column by column from the left, each from the bottom up; D from
      the right, down to the middle column, of which it takes the upper half. */
  lemma ColumnsOfTheKey(j: nat)
    requires j < 28
    ensures Pc1C(j) == 57 - 8 * (j % 8) + j / 8
    ensures Pc1D(j) == if j < 24 then 63 - 8 * (j % 8) - j / 8 else 28 - 8 * (j - 24)
  {
    Pc1CRows();
    Pc1DRows();
    var r, c := j / 7, j % 7;
    hide InRows;
    assert j == 7 * r + c;
    Pc1At(j);
  }

  lemma Pc1At(j: nat)
    requires j < 28
    ensures |PC1_C| == |PC1_D| == 4 && |PC1_C[j / 7]| == |PC1_D[j / 7]| == 7
    ensures Pc1C(j) == PC1_C[j / 7][j % 7] && Pc1D(j) == PC1_D[j / 7][j % 7]
  {
    Pc1CShape();
    Pc1DShape();
  }

  /** So no parity bit of the key, one whose number is a multiple of eight, is used. */
  lemma NoParityBits(j: nat)
    requires j < 28
    ensures Pc1C(j) % 8 != 0 && Pc1D(j) % 8 != 0
  {
    hide Pc1C, Pc1D;
    ColumnsOfTheKey(j);
  }

  lemma Pc1CRows()
    ensures InRows(PC1_C, 4, 7, 1, 64)
    ensures forall r, c :: 0 <= r < 4 && 0 <= c < 7 ==>
      PC1_C[r][c] == 57 - 8 * ((7 * r + c) % 8) + (7 * r + c) / 8
  {
  }

  lemma Pc1DRows()
    ensures InRows(PC1_D, 4, 7, 1, 64)
    ensures forall r, c :: 0 <= r < 4 && 0 <= c < 7 ==>
      PC1_D[r][c] == if 7 * r + c < 24 then 63 - 8 * ((7 * r + c) % 8) - (7 * r + c) / 8 else 28 - 8 * (7 * r + c - 24)
  {
  }

  /** C and D are rotated by one place before the first two subkeys, the ninth and the last, by
      two before the others, and are back where they were in the end. */
  lemma Rotations()
    ensures forall i :: 0 <= i < 16 ==> Shift(i) == if i in {0, 1, 8, 15} then 1 else 2
    ensures TotalShift(16) == 28
  {
    assert TotalShift(8) == 14 && TotalShift(16) == 28;
  }

  // ---------------------------------------------------------------------
  // P and its inverse

  /** Where the permutation P puts each bit, in rows of one selection function. */
  const P_PLACES: seq<seq<nat>> := [
    [9, 17, 23, 31],
    [13, 28, 2, 18],
    [24, 16, 30, 6],
    [26, 20, 10, 1],
    [8, 14, 25, 3],
    [4, 29, 11, 19],
    [32, 12, 22, 7],
    [5, 27, 15, 21]]

  lemma PlacesShape()
    ensures InRows(P_PLACES, 8, 4, 1, 32)
  {
  }

  function PPlace(s: nat): (p: nat)
    requires s < 32
    ensures 1 <= p <= 32
  {
    PlacesShape();
    P_PLACES[s / 4][s % 4]
  }

  lemma PlacedRows()
    ensures InRows(P, 8, 4, 1, 32) && InRows(P_PLACES, 8, 4, 1, 32)
    ensures forall b, n :: 0 <= b < 8 && 0 <= n < 4 ==>
      var p := P_PLACES[b][n] - 1; P[p / 4][p % 4] == 4 * b + n + 1
  {
  }

  /** P is a permutation with that inverse. */
  lemma PlacedByP(s: nat)
    requires s < 32
    ensures PBit(PPlace(s) - 1) == s + 1
  {
    PlacedRows();
    PBitShape();
    assert P_PLACES[s / 4][s % 4] == PPlace(s);
  }

  /** Which bit is the `k`th of those that go to selection function `c`. */
  function Input(c: nat, k: nat): nat
    requires c < 8 && k < 6
  {
    EBit(6 * c + k)
  }

  /** The bit at place `p` goes to selection function `c` of the next round. */
  predicate Feeds(p: nat, c: nat)
    requires 1 <= p <= 32 && c < 8
  {
    exists k :: 0 <= k < 6 && Input(c, k) == p
  }

  predicate InWindow(p: nat, c: nat)
    requires 1 <= p <= 32 && c < 8
  {
    (p + 32 - 4 * c) % 32 < 6
  }

  lemma FeedsWindow(p: nat, c: nat)
    requires 1 <= p <= 32 && c < 8
    ensures Feeds(p, c) <==> InWindow(p, c)
  {
    hide EBit;
    var d := (p + 32 - 4 * c) % 32;
    if Feeds(p, c) {
      var k :| 0 <= k < 6 && Input(c, k) == p;
      EWindows(c, k);
      WindowAt(p, c, k);
    }
    if d < 6 {
      EWindows(c, d);
      WindowAt(p, c, d);
      assert Input(c, d) == p;
    }
  }

  lemma WindowAt(p: nat, c: nat, k: nat)
    requires 1 <= p <= 32 && c < 8 && k < 6
    ensures (4 * c + k + 31) % 32 + 1 == p <==> (p + 32 - 4 * c) % 32 == k
  {
  }

  lemma SpreadRows()
    ensures InRows(P_PLACES, 8, 4, 1, 32)
    ensures forall b, m, n, c :: 0 <= b < 8 && 0 <= m < n < 4 && 0 <= c < 8 ==>
      !(InWindow(P_PLACES[b][m], c) && InWindow(P_PLACES[b][n], c))
  {
  }

  /** The four bits of a selection function go to different ones in the next round. */
  lemma PSpreads(b: nat, m: nat, n: nat, c: nat)
    requires b < 8 && m < n < 4 && c < 8
    ensures !(Feeds(PPlace(4 * b + m), c) && Feeds(PPlace(4 * b + n), c))
  {
    hide Feeds, PPlace, InRows;
    SpreadRows();
    PlaceOf(b, m);
    PlaceOf(b, n);
    FeedsWindow(PPlace(4 * b + m), c);
    FeedsWindow(PPlace(4 * b + n), c);
  }

  lemma PlaceOf(b: nat, n: nat)
    requires b < 8 && n < 4
    ensures |P_PLACES| == 8 && |P_PLACES[b]| == 4 && PPlace(4 * b + n) == P_PLACES[b][n]
  {
    PlacesShape();
    assert (4 * b + n) / 4 == b && (4 * b + n) % 4 == n;
  }

  // ---------------------------------------------------------------------
  // Permuted choice 2

  /** Which bit of a subkey each bit of C, and each bit of D, becomes, 0 for those left out. */
  const C_PLACES: seq<nat> := [5, 24, 7, 16, 6, 10, 20, 18, 0, 12, 3, 15, 23, 1, 9, 19, 2, 0, 14, 22, 11, 0, 13, 4, 0, 17, 21, 8]
  const D_PLACES: seq<nat> := [23, 7, 3, 24, 11, 17, 0, 22, 4, 0, 15, 8, 1, 20, 0, 13, 10, 19, 5, 12, 14, 21, 9, 2, 18, 0, 6, 16]

  lemma CPlaces()
    ensures |C_PLACES| == 28 && InRows(PC2_C, 4, 6, 1, 28)
    ensures forall c :: 0 <= c < 28 ==>
      if c in {8, 17, 21, 24} then C_PLACES[c] == 0
      else 1 <= C_PLACES[c] <= 24 && PC2_C[(C_PLACES[c] - 1) / 6][(C_PLACES[c] - 1) % 6] == c + 1
  {
  }

  lemma DPlaces()
    ensures |D_PLACES| == 28 && InRows(PC2_D, 4, 6, 29, 56)
    ensures forall d :: 0 <= d < 28 ==>
      if d in {6, 9, 14, 25} then D_PLACES[d] == 0
      else 1 <= D_PLACES[d] <= 24 && PC2_D[(D_PLACES[d] - 1) / 6][(D_PLACES[d] - 1) % 6] == d + 29
  {
  }

  /** Every subkey holds 24 bits of C and 24 of D, each at its place, and not the other four. */
  lemma SubkeyPlaces(key: Bits, i: nat, c: nat)
    requires |key| == 64 && i < 16 && c < 28
    ensures |C_PLACES| == |D_PLACES| == 28
    ensures C_PLACES[c] == 0 <==> c in {8, 17, 21, 24}
    ensures D_PLACES[c] == 0 <==> c in {6, 9, 14, 25}
    ensures C_PLACES[c] != 0 ==>
      1 <= C_PLACES[c] <= 24 && Subkey(key, i)[C_PLACES[c] - 1] == TakeC(key)[(c + TotalShift(i + 1)) % 28]
    ensures D_PLACES[c] != 0 ==>
      1 <= D_PLACES[c] <= 24 && Subkey(key, i)[24 + D_PLACES[c] - 1] == TakeD(key)[(c + TotalShift(i + 1)) % 28]
  {
    hide TakeC, TakeD, TotalShift, InRows;
    CPlaces();
    DPlaces();
    Pc2At(c);
  }

  lemma Pc2At(c: nat)
    requires c < 28
    ensures |C_PLACES| == |D_PLACES| == 28
    ensures 1 <= C_PLACES[c] <= 24 ==> Pc2C(C_PLACES[c] - 1) == c + 1
    ensures 1 <= D_PLACES[c] <= 24 ==> Pc2D(D_PLACES[c] - 1) == c + 29
  {
    CPlaces();
    DPlaces();
    Pc2CShape();
    Pc2DShape();
  }

  lemma NeighboursInC()
    ensures InRows(PC2_C, 4, 6, 1, 28)
    ensures forall r, a, b :: 0 <= r < 4 && 0 <= a < 6 && 0 <= b < 6 ==>
      (PC2_C[r][a] + 28 - PC2_C[r][b]) % 28 !in {1, 2}
  {
  }

  lemma NeighboursInD()
    ensures InRows(PC2_D, 4, 6, 29, 56)
    ensures forall r, a, b :: 0 <= r < 4 && 0 <= a < 6 && 0 <= b < 6 ==>
      (PC2_D[r][a] + 28 - PC2_D[r][b]) % 28 !in {1, 2}
  {
  }

  /** No key bit goes to the same selection function in two successive rounds. */
  lemma NoBitStays(i: nat, j: nat, k: nat)
    requires i < 15 && j < 24 && k < 24 && j / 6 == k / 6
    ensures (Pc2C(j) - 1 + TotalShift(i + 1)) % 28 != (Pc2C(k) - 1 + TotalShift(i + 2)) % 28
    ensures (Pc2D(j) - 29 + TotalShift(i + 1)) % 28 != (Pc2D(k) - 29 + TotalShift(i + 2)) % 28
  {
    hide TotalShift, Shift, Pc2C, Pc2D, InRows;
    NeighboursInC();
    NeighboursInD();
    Pc2Row(j);
    Pc2Row(k);
    ShiftsBy(i + 1);
    Apart(Pc2C(j) - 1, Pc2C(k) - 1, TotalShift(i + 1), Shift(i + 1));
    Apart(Pc2D(j) - 29, Pc2D(k) - 29, TotalShift(i + 1), Shift(i + 1));
  }

  lemma Pc2Row(j: nat)
    requires j < 24
    ensures |PC2_C| == |PC2_D| == 4 && |PC2_C[j / 6]| == |PC2_D[j / 6]| == 6
    ensures Pc2C(j) == PC2_C[j / 6][j % 6] && Pc2D(j) == PC2_D[j / 6][j % 6]
  {
    Pc2CShape();
    Pc2DShape();
  }

  lemma ShiftsBy(i: nat)
    requires i < 16
    ensures TotalShift(i + 1) == TotalShift(i) + Shift(i)
  {
  }

  lemma Apart(a: int, b: int, t: int, n: int)
    requires (a + 28 - b) % 28 !in {1, 2} && 1 <= n <= 2
    ensures (a + t) % 28 != (b + t + n) % 28
  {
  }

  // ---------------------------------------------------------------------
  // One round, and the block around the rounds

  /** Input `j` of selection function `b`: a bit of the right half, mixed with one of the key. */
  function Mixed(lr: Bits, e: seq<nat>, k: Bits, b: nat, j: nat): Bit
    requires |lr| == 64 && |k| == 48 && IsETable(e) && b < 8 && j < 6
  {
    Xor(lr[31 + e[6 * b + j]], k[6 * b + j])
  }

  /** Whether a round flips the bit that output `n` of selection function `b` is put to. */
  function Flipped(lr: Bits, next: Bits, b: nat, n: nat): Bit
    requires |lr| == |next| == 64 && b < 8 && n < 4
  {
    Xor(lr[PPlace(4 * b + n) - 1], next[31 + PPlace(4 * b + n)])
  }

  /** In a round the right half becomes the left one, and the bits that differ between the new
      right half and the old left one spell, for each selection function, the entry that its
      inputs name. */
  lemma RoundSpells(lr: Bits, e: seq<nat>, k: Bits, b: nat)
    requires |lr| == 64 && |k| == 48 && IsETable(e) && b < 8
    ensures var next := Round(lr, e, k);
      && next[..32] == lr[32..]
      && Number(Flipped(lr, next, b, 0), Flipped(lr, next, b, 1), Flipped(lr, next, b, 2), Flipped(lr, next, b, 3)) ==
         Entry(b, Number(0, 0, Mixed(lr, e, k, b, 0), Mixed(lr, e, k, b, 5)),
               Number(Mixed(lr, e, k, b, 1), Mixed(lr, e, k, b, 2), Mixed(lr, e, k, b, 3), Mixed(lr, e, k, b, 4)))
  {
    hide Select, Number, Entry, PPlace, PBit, Flipped, Mixed;
    var x := XorBits(Expand(lr[32..], e), k);
    SelectSpells(x, b);
    FlippedIs(lr, e, k, b, 0);
    FlippedIs(lr, e, k, b, 1);
    FlippedIs(lr, e, k, b, 2);
    FlippedIs(lr, e, k, b, 3);
    MixedIs(lr, e, k, b);
  }

  lemma MixedIs(lr: Bits, e: seq<nat>, k: Bits, b: nat)
    requires |lr| == 64 && |k| == 48 && IsETable(e) && b < 8
    ensures forall j: nat :: j < 6 ==> Six(XorBits(Expand(lr[32..], e), k), b)[j] == Mixed(lr, e, k, b, j)
  {
  }

  lemma FlippedIs(lr: Bits, e: seq<nat>, k: Bits, b: nat, n: nat)
    requires |lr| == 64 && |k| == 48 && IsETable(e) && b < 8 && n < 4
    ensures Flipped(lr, Round(lr, e, k), b, n) == Select(XorBits(Expand(lr[32..], e), k))[4 * b..4 * b + 4][n]
  {
    hide Select, PPlace, PBit, Expand;
    var f := Select(XorBits(Expand(lr[32..], e), k));
    var p := PPlace(4 * b + n) - 1;
    PlacedByP(4 * b + n);
    assert Permute(f)[p] == f[4 * b + n];
  }

  /** The rounds take the keys in their order. */
  lemma FirstKeyFirst(lr: Bits, e: seq<nat>, keys: seq<Bits>)
    requires |lr| == 64 && AreKeys(keys) && keys != [] && IsETable(e)
    ensures Rounds(lr, e, keys) == Rounds(Round(lr, e, keys[0]), e, keys[1..])
  {
    hide Round, Rounds;
    RoundsCons(lr, e, keys[0], keys[1..]);
    assert [keys[0]] + keys[1..] == keys;
  }

  /** The bit of a block that is loaded as bit `c` of row `r`. */
  function Column(r: nat, c: nat): (p: nat)
    requires r < 8 && c < 8
    ensures p < 64
  {
    if r < 4 then 57 + 2 * r - 8 * c else 48 + 2 * r - 8 * c
  }

  /** The left half holds the even columns of the block, and the right one the odd columns,
      from left to right and each from the bottom up. */
  predicate Loaded(block: Bits, lr: Bits)
    requires |block| == |lr| == 64
  {
    forall r: nat, c: nat :: r < 8 && c < 8 ==> block[Column(r, c)] == lr[8 * r + c]
  }

  /** The result of a cipher is to the exchanged halves after the rounds as the block is to the
      halves before them. */
  lemma LoadedAndStored(block: Bits, lr: Bits, e: seq<nat>, keys: seq<Bits>)
    requires |block| == |lr| == 64 && AreKeys(keys) && IsETable(e) && Loaded(block, lr)
    ensures Loaded(Cipher(block, e, keys), Swap(Rounds(lr, e, keys)))
  {
    hide Swap, Rounds, FinalPermute, InitialPermute, Loaded;
    LoadedBefore(block, lr);
    LoadedAfter(Swap(Rounds(lr, e, keys)));
  }

  lemma LoadedBefore(block: Bits, lr: Bits)
    requires |block| == |lr| == 64 && Loaded(block, lr)
    ensures lr == InitialPermute(block)
  {
    hide Ip;
    forall j | 0 <= j < 64
      ensures lr[j] == InitialPermute(block)[j]
    {
      var r, c := j / 8, j % 8;
      assert j == 8 * r + c;
      IpRows(r, c);
      assert block[Column(r, c)] == lr[8 * r + c];
    }
  }

  lemma LoadedAfter(x: Bits)
    requires |x| == 64
    ensures Loaded(FinalPermute(x), x)
  {
    hide Ip, Fp;
    forall r: nat, c: nat | r < 8 && c < 8
      ensures FinalPermute(x)[Column(r, c)] == x[8 * r + c]
    {
      IpRows(r, c);
      IpUndoesFp(8 * r + c);
    }
  }
}
