/** What sets the selection functions of the Data Encryption Standard apart from arbitrary
    tables: how inputs that differ in given bits make their outputs differ. Rows are packed
    into 64-bit words, four bits an entry and the first entry first, so that a law is checked
    on all sixteen columns at once. */
module DesBoxes {
  import opened DesTables
  import opened DesSpec

  // ---------------------------------------------------------------------
  // Packed rows

  /** The rows of the selection functions, written as hexadecimal digits. */
  function Rows(b: nat): (bv64, bv64, bv64, bv64)
    requires b < 8
  {
    match b
    case 0 => (0xE4D12FB83A6C5907, 0x0F74E2D1A6CB9538, 0x41E8D62BFC973A50, 0xFC8249175B3EA06D)
    case 1 => (0xF18E6B34972DC05A, 0x3D47F28EC01A69B5, 0x0E7BA4D158C6932F, 0xD8A13F42B67C05E9)
    case 2 => (0xA09E63F51DC7B428, 0xD709346A285ECBF1, 0xD6498F30B12C5AE7, 0x1AD069874FE3B52C)
    case 3 => (0x7DE3069A1285BC4F, 0xD8B56F03472C1AE9, 0xA690CB7DF13E5284, 0x3F06A1D8945BC72E)
    case 4 => (0x2C417AB6853FD0E9, 0xEB2C47D150FA3986, 0x421BAD78F9C5630E, 0xB8C71E2D6F09A453)
    case 5 => (0xC1AF92680D34E75B, 0xAF427C9561DE0B38, 0x9EF528C3704A1DB6, 0x432C95FABE17608D)
    case 6 => (0x4B2EF08D3C975A61, 0xD0B7491AE35C2F86, 0x14BDC37EAF680592, 0x6BD814A7950FE23C)
    case _ => (0xD2846FB1A93E50C7, 0x1FD8A374C56B0E92, 0x7B419CE206ADF358, 0x21E74A8DFC90356B)
  }

  function Packed(b: nat, r: nat): bv64
    requires b < 8 && r < 4
  {
    match r
    case 0 => Rows(b).0
    case 1 => Rows(b).1
    case 2 => Rows(b).2
    case _ => Rows(b).3
  }

  /** Column `c` of a packed row. */
  function Digit(w: bv64, c: bv64): (d: bv64)
    requires c < 16
    ensures d < 16
  {
    (w >> (60 - 4 * c)) & 15
  }

  function Quad(w: bv64): (q: seq<nat>)
    ensures |q| == 4
  {
    [((w >> 12) & 15) as nat, ((w >> 8) & 15) as nat, ((w >> 4) & 15) as nat, (w & 15) as nat]
  }

  function Digits(w: bv64): seq<nat>
  {
    Quad(w >> 48) + Quad(w >> 32) + Quad(w >> 16) + Quad(w)
  }

  predicate UpperIsPacked(b: nat)
    requires b < 8
  {
    |S| == 8 && |S[b]| == 4 && S[b][0] == Digits(Rows(b).0) && S[b][1] == Digits(Rows(b).1)
  }

  predicate LowerIsPacked(b: nat)
    requires b < 8
  {
    |S| == 8 && |S[b]| == 4 && S[b][2] == Digits(Rows(b).2) && S[b][3] == Digits(Rows(b).3)
  }

  lemma Upper0()
    ensures UpperIsPacked(0)
  {
  }

  lemma Lower0()
    ensures LowerIsPacked(0)
  {
  }

  lemma Upper1()
    ensures UpperIsPacked(1)
  {
  }

  lemma Lower1()
    ensures LowerIsPacked(1)
  {
  }

  lemma Upper2()
    ensures UpperIsPacked(2)
  {
  }

  lemma Lower2()
    ensures LowerIsPacked(2)
  {
  }

  lemma Upper3()
    ensures UpperIsPacked(3)
  {
  }

  lemma Lower3()
    ensures LowerIsPacked(3)
  {
  }

  lemma Upper4()
    ensures UpperIsPacked(4)
  {
  }

  lemma Lower4()
    ensures LowerIsPacked(4)
  {
  }

  lemma Upper5()
    ensures UpperIsPacked(5)
  {
  }

  lemma Lower5()
    ensures LowerIsPacked(5)
  {
  }

  lemma Upper6()
    ensures UpperIsPacked(6)
  {
  }

  lemma Lower6()
    ensures LowerIsPacked(6)
  {
  }

  lemma Upper7()
    ensures UpperIsPacked(7)
  {
  }

  lemma Lower7()
    ensures LowerIsPacked(7)
  {
  }

  lemma PackedTables(b: nat)
    requires b < 8
    ensures UpperIsPacked(b) && LowerIsPacked(b)
  {
    hide UpperIsPacked, LowerIsPacked;
    if b == 0 {
      Upper0();
      Lower0();
    } else if b == 1 {
      Upper1();
      Lower1();
    } else if b == 2 {
      Upper2();
      Lower2();
    } else if b == 3 {
      Upper3();
      Lower3();
    } else if b == 4 {
      Upper4();
      Lower4();
    } else if b == 5 {
      Upper5();
      Lower5();
    } else if b == 6 {
      Upper6();
      Lower6();
    } else {
      Upper7();
      Lower7();
    }
  }

  lemma QuadAt(w: bv64, k: nat)
    requires k < 4
    ensures k as bv64 < 4 && Quad(w)[k] == ((w >> (12 - 4 * (k as bv64))) & 15) as nat
  {
    match k
    case 0 =>
    case 1 =>
    case 2 =>
    case _ =>
  }

  function QuadOf(w: bv64, g: nat): (q: seq<nat>)
    requires g < 4
    ensures |q| == 4
  {
    match g
    case 0 => Quad(w >> 48)
    case 1 => Quad(w >> 32)
    case 2 => Quad(w >> 16)
    case _ => Quad(w)
  }

  lemma QuadOfIs(w: bv64, g: nat)
    requires g < 4
    ensures g as bv64 < 4 && QuadOf(w, g) == Quad(w >> (48 - 16 * (g as bv64)))
  {
    hide Quad;
    match g
    case 0 =>
    case 1 =>
    case 2 =>
    case _ =>
  }

  lemma DigitsAt(w: bv64, g: nat, k: nat)
    requires g < 4 && k < 4
    ensures |Digits(w)| == 16 && Digits(w)[4 * g + k] == QuadOf(w, g)[k]
  {
    hide Quad;
  }

  lemma NumberOf(g: nat, k: nat)
    requires g < 4 && k < 4
    ensures k as bv64 < 4 && g as bv64 < 4 && (4 * g + k) as bv64 == 4 * (g as bv64) + (k as bv64)
  {
    match g
    case 0 => QuarterOf(k);
    case 1 =>
      match k {
        case 0 =>
        case 1 =>
        case 2 =>
        case _ =>
      }
    case 2 =>
      match k {
        case 0 =>
        case 1 =>
        case 2 =>
        case _ =>
      }
    case _ =>
      match k {
        case 0 =>
        case 1 =>
        case 2 =>
        case _ =>
      }
  }

  lemma QuarterOf(k: nat)
    requires k < 4
    ensures k as bv64 < 4
  {
    match k
    case 0 =>
    case 1 =>
    case 2 =>
    case _ =>
  }

  lemma GroupDigit(w: bv64, g: bv64, k: bv64)
    requires g < 4 && k < 4
    ensures 4 * g + k < 16 && Digit(w, 4 * g + k) == ((w >> (48 - 16 * g)) >> (12 - 4 * k)) & 15
  {
  }

  lemma DigitsAre(w: bv64, c: nat)
    requires c < 16
    ensures |Digits(w)| == 16 && c as bv64 < 16 && Digits(w)[c] == Digit(w, c as bv64) as nat
  {
    hide Quad, QuadOf, Digits, Digit;
    var g, k := c / 4, c % 4;
    DigitsAt(w, g, k);
    QuadOfIs(w, g);
    NumberOf(g, k);
    QuadAt(w >> (48 - 16 * (g as bv64)), k);
    GroupDigit(w, g as bv64, k as bv64);
  }

  /** The entry of selection function `b` in row `r` and column `c`. */
  function Entry(b: nat, r: nat, c: nat): nat
    requires b < 8 && r < 4 && c < 16
  {
    SShape();
    S[b][r][c]
  }

  lemma EntryPacked(b: nat, r: nat, c: nat)
    requires b < 8 && r < 4 && c < 16
    ensures c as bv64 < 16 && Entry(b, r, c) == Digit(Packed(b, r), c as bv64) as nat
  {
    hide Digit, Digits, Rows;
    PackedTables(b);
    DigitsAre(Packed(b, r), c);
  }

  // ---------------------------------------------------------------------
  // All columns at once

  /** Every column exchanged with the one whose number differs in the bits of `m`. */
  function Exchanged(w: bv64, m: bv64): bv64
  {
    if m == 1 then ((w & 0x0F0F0F0F0F0F0F0F) << 4) | ((w >> 4) & 0x0F0F0F0F0F0F0F0F)
    else if m == 2 then ((w & 0x00FF00FF00FF00FF) << 8) | ((w >> 8) & 0x00FF00FF00FF00FF)
    else if m == 4 then ((w & 0x0000FFFF0000FFFF) << 16) | ((w >> 16) & 0x0000FFFF0000FFFF)
    else if m == 6 then
      ((w >> 24) & 0x000000FF000000FF) | ((w & 0x000000FF000000FF) << 24)
      | ((w >> 8) & 0x0000FF000000FF00) | ((w & 0x0000FF000000FF00) << 8)
    else (w << 32) | (w >> 32)
  }

  lemma ExchangedDigit(w: bv64, m: bv64, c: bv64)
    requires c < 16 && m in {1, 2, 4, 6, 8}
    ensures c ^ m < 16 && Digit(Exchanged(w, m), c) == Digit(w, c ^ m)
  {
  }

  const ONES: bv64 := 0x1111111111111111

  /** In each digit at least two bits, or one, are set. */
  predicate AllTwo(x: bv64)
  {
    var p, q, r, s := x & ONES, (x >> 1) & ONES, (x >> 2) & ONES, (x >> 3) & ONES;
    (p & q) | (p & r) | (p & s) | (q & r) | (q & s) | (r & s) == ONES
  }

  predicate AllOne(x: bv64)
  {
    (x | (x >> 1) | (x >> 2) | (x >> 3)) & ONES == ONES
  }

  predicate Two(x: bv64)
  {
    x !in {0, 1, 2, 4, 8}
  }

  lemma TwoInDigit(v: bv64, w: bv64, c: bv64)
    requires c < 16 && AllTwo(v ^ w)
    ensures Two(Digit(v, c) ^ Digit(w, c))
  {
  }

  lemma OneInDigit(v: bv64, w: bv64, c: bv64)
    requires c < 16 && AllOne(v ^ w)
    ensures Digit(v, c) != Digit(w, c)
  {
  }

  predicate ColumnLaw(w: bv64, m: bv64)
  {
    AllTwo(w ^ Exchanged(w, m))
  }

  /** Rows whose numbers differ in the first bit, and columns that differ in theirs. */
  predicate OuterLaws(v: bv64, w: bv64)
  {
    var x := Exchanged(w, 8);
    && AllOne(v ^ x) && AllOne(v ^ Exchanged(x, 2))
    && AllOne(v ^ Exchanged(x, 4)) && AllOne(v ^ Exchanged(x, 6))
  }

  predicate ColumnLaws(w: bv64)
  {
    ColumnLaw(w, 1) && ColumnLaw(w, 2) && ColumnLaw(w, 4) && ColumnLaw(w, 8) && ColumnLaw(w, 6)
  }

  lemma Row0Laws()
    ensures forall b :: 0 <= b < 8 ==> ColumnLaws(Packed(b, 0))
  {
  }

  lemma Row1Laws()
    ensures forall b :: 0 <= b < 8 ==> ColumnLaws(Packed(b, 1))
  {
  }

  lemma Row2Laws()
    ensures forall b :: 0 <= b < 8 ==> ColumnLaws(Packed(b, 2))
  {
  }

  lemma Row3Laws()
    ensures forall b :: 0 <= b < 8 ==> ColumnLaws(Packed(b, 3))
  {
  }

  predicate RowLaw(b: nat, r: nat, q: nat)
    requires b < 8 && r < 4 && q < 4
  {
    AllTwo(Packed(b, r) ^ Packed(b, q))
  }

  lemma BetweenRows()
    ensures forall b :: 0 <= b < 8 ==> RowLaw(b, 0, 1) && RowLaw(b, 2, 3) && RowLaw(b, 0, 2) && RowLaw(b, 1, 3)
  {
  }

  lemma OuterEvenRows()
    ensures forall b :: 0 <= b < 8 ==> OuterLaws(Packed(b, 0), Packed(b, 2))
  {
  }

  lemma OuterOddRows()
    ensures forall b :: 0 <= b < 8 ==> OuterLaws(Packed(b, 1), Packed(b, 3))
  {
  }

  // ---------------------------------------------------------------------
  // Inputs of six bits and outputs of four

  /** The six bits that go into selection function `b`. */
  function Six(x: Bits, b: nat): (g: Bits)
    requires |x| == 48 && b < 8
    ensures |g| == 6
  {
    x[6 * b..6 * b + 6]
  }

  /** Row and column that they name. */
  function RowOf(x: Bits, b: nat): (r: nat)
    requires |x| == 48 && b < 8
    ensures r < 4
  {
    Six(x, b)[0] as int * 2 + Six(x, b)[5] as int
  }

  function Number(p: Bit, q: Bit, r: Bit, s: Bit): (c: nat)
    ensures c < 16
  {
    p as int * 8 + q as int * 4 + r as int * 2 + s as int
  }

  function ColumnOf(x: Bits, b: nat): (c: nat)
    requires |x| == 48 && b < 8
    ensures c < 16
  {
    Number(Six(x, b)[1], Six(x, b)[2], Six(x, b)[3], Six(x, b)[4])
  }

  function Mask(p: Bit, m: bv64): bv64
  {
    if p == 1 then m else 0
  }

  lemma TwoBits(p: Bit, q: Bit)
    ensures (2 * p as int + q as int) as bv64 == Mask(p, 2) | Mask(q, 1)
  {
    match 2 * p as int + q as int
    case 0 => assert p == 0 && q == 0;
    case 1 => assert p == 0 && q == 1;
    case 2 => assert p == 1 && q == 0;
    case _ => assert p == 1 && q == 1;
  }

  lemma NumberBits(p: Bit, q: Bit, r: Bit, s: Bit)
    ensures Number(p, q, r, s) as bv64 == Mask(p, 8) | Mask(q, 4) | Mask(r, 2) | Mask(s, 1)
  {
    hide Mask;
    TwoBits(p, q);
    TwoBits(r, s);
    NumberOf(2 * p as int + q as int, 2 * r as int + s as int);
    FourBits(p, q, r, s);
  }

  lemma FourBits(p: Bit, q: Bit, r: Bit, s: Bit)
    ensures 4 * (Mask(p, 2) | Mask(q, 1)) + (Mask(r, 2) | Mask(s, 1)) == Mask(p, 8) | Mask(q, 4) | Mask(r, 2) | Mask(s, 1)
  {
  }

  /** How many of the four bits of two numbers differ. */
  function Differing(a: nat, d: nat): nat
  {
    (if NibbleBit(a, 0) != NibbleBit(d, 0) then 1 else 0) + (if NibbleBit(a, 1) != NibbleBit(d, 1) then 1 else 0)
    + (if NibbleBit(a, 2) != NibbleBit(d, 2) then 1 else 0) + (if NibbleBit(a, 3) != NibbleBit(d, 3) then 1 else 0)
  }

  lemma NibbleBits(v: bv64)
    requires v < 16
    ensures var a := v as nat;
      && (NibbleBit(a, 0) == 1 <==> v & 8 != 0) && (NibbleBit(a, 1) == 1 <==> v & 4 != 0)
      && (NibbleBit(a, 2) == 1 <==> v & 2 != 0) && (NibbleBit(a, 3) == 1 <==> v & 1 != 0)
  {
  }

  lemma TwoDiffer(v: bv64, w: bv64)
    requires v < 16 && w < 16 && Two(v ^ w)
    ensures Differing(v as nat, w as nat) >= 2
  {
    hide NibbleBit;
    NibbleBits(v);
    NibbleBits(w);
  }

  lemma SelectEntry(x: Bits, b: nat, n: nat)
    requires |x| == 48 && b < 8 && n < 4
    ensures Select(x)[4 * b + n] == NibbleBit(Entry(b, RowOf(x, b), ColumnOf(x, b)), n)
  {
    hide NibbleBit;
    var i := SIndex(x, b);
    assert i == 16 * RowOf(x, b) + ColumnOf(x, b);
    assert i / 16 == RowOf(x, b) && i % 16 == ColumnOf(x, b);
    assert (4 * b + n) / 4 == b && (4 * b + n) % 4 == n;
    assert SBox(b, i) == Entry(b, RowOf(x, b), ColumnOf(x, b));
  }

  lemma NibbleSpells(k: nat)
    requires k < 16
    ensures Number(NibbleBit(k, 0), NibbleBit(k, 1), NibbleBit(k, 2), NibbleBit(k, 3)) == k
  {
    Halved(k);
    Halved(k / 2);
    Halved(k / 4);
    Quarters(k);
  }

  lemma Halved(k: nat)
    ensures k == 2 * (k / 2) + k % 2
  {
  }

  lemma Quarters(k: nat)
    requires k < 16
    ensures k / 2 / 2 == k / 4 && k / 4 / 2 == k / 8 && k / 8 % 2 == k / 8
  {
  }

  lemma EntriesAreNibbles(b: nat, r: nat, c: nat)
    requires b < 8 && r < 4 && c < 16
    ensures Entry(b, r, c) < 16
  {
    hide Digit, Packed, Entry;
    EntryPacked(b, r, c);
  }

  /** A selection function gives, as a number of four bits, the entry of the row that the outer
      two bits name and the column that the middle four do. */
  lemma SelectSpells(x: Bits, b: nat)
    requires |x| == 48 && b < 8
    ensures var f, g := Select(x)[4 * b..4 * b + 4], Six(x, b);
      Number(f[0], f[1], f[2], f[3]) == Entry(b, Number(0, 0, g[0], g[5]), Number(g[1], g[2], g[3], g[4]))
  {
    hide Select, NibbleBit, Entry, Six;
    SelectEntry(x, b, 0);
    SelectEntry(x, b, 1);
    SelectEntry(x, b, 2);
    SelectEntry(x, b, 3);
    assert RowOf(x, b) == Number(0, 0, Six(x, b)[0], Six(x, b)[5]);
    EntriesAreNibbles(b, RowOf(x, b), ColumnOf(x, b));
    NibbleSpells(Entry(b, RowOf(x, b), ColumnOf(x, b)));
  }

  /** In how many of its four bits selection function `b` differs between two results. */
  function Changes(f: Bits, g: Bits, b: nat): nat
    requires |f| == |g| == 32 && b < 8
  {
    (if f[4 * b] != g[4 * b] then 1 else 0) + (if f[4 * b + 1] != g[4 * b + 1] then 1 else 0)
    + (if f[4 * b + 2] != g[4 * b + 2] then 1 else 0) + (if f[4 * b + 3] != g[4 * b + 3] then 1 else 0)
  }

  lemma ChangesAre(x: Bits, y: Bits, b: nat)
    requires |x| == |y| == 48 && b < 8
    ensures Changes(Select(x), Select(y), b) ==
      Differing(Entry(b, RowOf(x, b), ColumnOf(x, b)), Entry(b, RowOf(y, b), ColumnOf(y, b)))
  {
    hide Select, NibbleBit, Entry, RowOf, ColumnOf;
    SelectEntry(x, b, 0);
    SelectEntry(x, b, 1);
    SelectEntry(x, b, 2);
    SelectEntry(x, b, 3);
    SelectEntry(y, b, 0);
    SelectEntry(y, b, 1);
    SelectEntry(y, b, 2);
    SelectEntry(y, b, 3);
  }

  /** The packed entry that an input names. */
  function Out(x: Bits, b: nat): bv64
    requires |x| == 48 && b < 8
  {
    Column(ColumnOf(x, b));
    Digit(Packed(b, RowOf(x, b)), ColumnOf(x, b) as bv64)
  }

  lemma Column(c: nat)
    requires c < 16
    ensures c as bv64 < 16
  {
    NumberOf(c / 4, c % 4);
  }

  lemma TwoChange(x: Bits, y: Bits, b: nat)
    requires |x| == |y| == 48 && b < 8 && Two(Out(x, b) ^ Out(y, b))
    ensures Changes(Select(x), Select(y), b) >= 2
  {
    hide Select, Entry, RowOf, ColumnOf, Packed, Digit, Two, Changes, Differing;
    ChangesAre(x, y, b);
    EntryPacked(b, RowOf(x, b), ColumnOf(x, b));
    EntryPacked(b, RowOf(y, b), ColumnOf(y, b));
    TwoDiffer(Out(x, b), Out(y, b));
  }

  lemma SameRow(b: nat, r: nat, c: bv64, m: bv64)
    requires b < 8 && r < 4 && c < 16 && m in {1, 2, 4, 6, 8}
    ensures c ^ m < 16 && Two(Digit(Packed(b, r), c) ^ Digit(Packed(b, r), c ^ m))
  {
    hide Digit, Packed, AllTwo, Two, Exchanged;
    Row0Laws();
    Row1Laws();
    Row2Laws();
    Row3Laws();
    var w := Packed(b, r);
    assert ColumnLaw(w, m);
    TwoInDigit(w, Exchanged(w, m), c);
    ExchangedDigit(w, m, c);
  }

  lemma RowsDiffer(b: nat, r: nat, q: nat)
    requires b < 8 && r < 4 && q < 4 && r != q && (r / 2 == q / 2 || r % 2 == q % 2)
    ensures RowLaw(b, r, q)
  {
    if r < q {
      RowsDifferDown(b, r, q);
    } else {
      RowsDifferDown(b, q, r);
      hide Packed, AllTwo;
      XorCommutes(Packed(b, r), Packed(b, q));
    }
  }

  lemma RowsDifferDown(b: nat, r: nat, q: nat)
    requires b < 8 && r < q < 4 && (r / 2 == q / 2 || r % 2 == q % 2)
    ensures RowLaw(b, r, q)
  {
    hide RowLaw;
    BetweenRows();
    if r == 0 {
      assert q == 1 || q == 2;
    } else {
      assert q == 3;
    }
  }

  lemma OtherRow(b: nat, r: nat, q: nat, c: bv64)
    requires b < 8 && r < 4 && q < 4 && c < 16 && r != q && (r / 2 == q / 2 || r % 2 == q % 2)
    ensures Two(Digit(Packed(b, r), c) ^ Digit(Packed(b, q), c))
  {
    hide Digit, Packed, AllTwo, Two;
    RowsDiffer(b, r, q);
    TwoInDigit(Packed(b, r), Packed(b, q), c);
  }

  lemma XorCommutes(v: bv64, w: bv64)
    ensures v ^ w == w ^ v
  {
  }

  /** The columns of inputs that differ in the middle bits of `m`. */
  lemma ColumnsDiffer(x: Bits, y: Bits, b: nat, m: bv64)
    requires |x| == |y| == 48 && b < 8 && m < 16
    requires var f, g := Six(x, b), Six(y, b);
      && (f[1] != g[1] <==> m & 8 != 0) && (f[2] != g[2] <==> m & 4 != 0)
      && (f[3] != g[3] <==> m & 2 != 0) && (f[4] != g[4] <==> m & 1 != 0)
    ensures ColumnOf(y, b) as bv64 == (ColumnOf(x, b) as bv64) ^ m
  {
    hide Number;
    var f, g := Six(x, b), Six(y, b);
    NumberBits(f[1], f[2], f[3], f[4]);
    NumberBits(g[1], g[2], g[3], g[4]);
  }

  lemma RowsOf(x: Bits, y: Bits, b: nat)
    requires |x| == |y| == 48 && b < 8
    ensures var f, g, r, q := Six(x, b), Six(y, b), RowOf(x, b), RowOf(y, b);
      && (f[0] == g[0] <==> r / 2 == q / 2) && (f[5] == g[5] <==> r % 2 == q % 2)
      && (f[0] == g[0] && f[5] == g[5] <==> r == q)
  {
  }

  lemma SameRowChanges(x: Bits, y: Bits, b: nat, m: bv64)
    requires |x| == |y| == 48 && b < 8 && m in {1, 2, 4, 6, 8}
    requires RowOf(x, b) == RowOf(y, b) && ColumnOf(y, b) as bv64 == (ColumnOf(x, b) as bv64) ^ m
    ensures Changes(Select(x), Select(y), b) >= 2
  {
    hide Select, Changes, Two, Digit, Packed, ColumnOf, RowOf;
    Column(ColumnOf(x, b));
    SameRow(b, RowOf(x, b), ColumnOf(x, b) as bv64, m);
    TwoChange(x, y, b);
  }

  lemma OtherRowChanges(x: Bits, y: Bits, b: nat)
    requires |x| == |y| == 48 && b < 8 && ColumnOf(x, b) == ColumnOf(y, b)
    requires var r, q := RowOf(x, b), RowOf(y, b); r != q && (r / 2 == q / 2 || r % 2 == q % 2)
    ensures Changes(Select(x), Select(y), b) >= 2
  {
    hide Select, Changes, Two, Digit, Packed, ColumnOf, RowOf;
    Column(ColumnOf(x, b));
    OtherRow(b, RowOf(x, b), RowOf(y, b), ColumnOf(x, b) as bv64);
    TwoChange(x, y, b);
  }

  /** Changing one of the six bits changes at least two of the four. */
  lemma OneBitChangesTwo(x: Bits, y: Bits, b: nat, i: nat)
    requires |x| == |y| == 48 && b < 8 && i < 6
    requires forall j :: 0 <= j < 6 ==> (Six(x, b)[j] != Six(y, b)[j] <==> j == i)
    ensures Changes(Select(x), Select(y), b) >= 2
  {
    hide Select, Changes, RowOf, Six, Number;
    RowsOf(x, y, b);
    if 1 <= i <= 4 {
      var m: bv64 := if i == 1 then 8 else if i == 2 then 4 else if i == 3 then 2 else 1;
      ColumnsDiffer(x, y, b, m);
      SameRowChanges(x, y, b, m);
    } else {
      OtherRowChanges(x, y, b);
    }
  }

  /** So does changing the two middle bits. */
  lemma MiddleBitsChangeTwo(x: Bits, y: Bits, b: nat)
    requires |x| == |y| == 48 && b < 8
    requires forall j :: 0 <= j < 6 ==> (Six(x, b)[j] != Six(y, b)[j] <==> j == 2 || j == 3)
    ensures Changes(Select(x), Select(y), b) >= 2
  {
    hide Select, Changes, RowOf, ColumnOf, Six;
    RowsOf(x, y, b);
    ColumnsDiffer(x, y, b, 6);
    SameRowChanges(x, y, b, 6);
  }

  /** Changing the first two bits, whatever becomes of the middle ones, changes the result. */
  lemma OuterBitsChange(x: Bits, y: Bits, b: nat)
    requires |x| == |y| == 48 && b < 8
    requires var f, g := Six(x, b), Six(y, b);
      f[0] != g[0] && f[1] != g[1] && f[4] == g[4] && f[5] == g[5]
    ensures Changes(Select(x), Select(y), b) >= 1
  {
    hide Select, Changes, RowOf, ColumnOf, Six, Digit, Packed;
    var f, g := Six(x, b), Six(y, b);
    var m: bv64 := (if f[2] != g[2] then 4 else 0) | (if f[3] != g[3] then 2 else 0);
    RowsOf(x, y, b);
    ColumnsDiffer(x, y, b, 8 | m);
    Column(ColumnOf(x, b));
    OuterRowsDiffer(b, RowOf(x, b), RowOf(y, b), ColumnOf(x, b) as bv64, m);
    OneChange(x, y, b);
  }

  lemma OneChange(x: Bits, y: Bits, b: nat)
    requires |x| == |y| == 48 && b < 8 && Out(x, b) != Out(y, b)
    ensures Changes(Select(x), Select(y), b) >= 1
  {
    hide Select, Entry, RowOf, ColumnOf, Packed, Digit, Changes, Differing;
    ChangesAre(x, y, b);
    EntryPacked(b, RowOf(x, b), ColumnOf(x, b));
    EntryPacked(b, RowOf(y, b), ColumnOf(y, b));
    OneDiffers(Out(x, b), Out(y, b));
  }

  lemma OneDiffers(v: bv64, w: bv64)
    requires v < 16 && w < 16 && v != w
    ensures Differing(v as nat, w as nat) >= 1
  {
    hide NibbleBit;
    NibbleBits(v);
    NibbleBits(w);
  }

  lemma OuterRowsDiffer(b: nat, r: nat, q: nat, c: bv64, m: bv64)
    requires b < 8 && r < 4 && q < 4 && r != q && r % 2 == q % 2 && c < 16 && m in {0, 2, 4, 6}
    ensures c ^ (8 | m) < 16 && Digit(Packed(b, r), c) != Digit(Packed(b, q), c ^ (8 | m))
  {
    hide Digit, Packed, OuterLaws;
    OuterEvenRows();
    OuterOddRows();
    if r < q {
      assert (r, q) in {(0, 2), (1, 3)};
      OuterDigits(Packed(b, r), Packed(b, q), c, m);
    } else {
      assert (q, r) in {(0, 2), (1, 3)};
      OuterBack(c, m);
      OuterDigits(Packed(b, q), Packed(b, r), c ^ (8 | m), m);
    }
  }

  lemma OuterBack(c: bv64, m: bv64)
    requires c < 16 && m in {0, 2, 4, 6}
    ensures c ^ (8 | m) < 16 && (c ^ (8 | m)) ^ (8 | m) == c
  {
  }

  lemma OuterDigits(v: bv64, w: bv64, c: bv64, m: bv64)
    requires c < 16 && m in {0, 2, 4, 6} && OuterLaws(v, w)
    ensures c ^ (8 | m) < 16 && Digit(v, c) != Digit(w, c ^ (8 | m))
  {
    hide Digit, Exchanged, AllOne, OuterLaws;
    OuterBack(c, m);
    if m == 0 {
      OuterDigitPlain(v, w, c);
    } else {
      OuterLaw(v, w, m);
      OuterDigit(v, w, c, m);
    }
  }

  lemma OuterDigitPlain(v: bv64, w: bv64, c: bv64)
    requires c < 16 && OuterLaws(v, w)
    ensures c ^ 8 < 16 && Digit(v, c) != Digit(w, c ^ 8)
  {
    hide Digit, Exchanged, AllOne;
    OneInDigit(v, Exchanged(w, 8), c);
    ExchangedDigit(w, 8, c);
  }

  lemma OuterLaw(v: bv64, w: bv64, m: bv64)
    requires m in {2, 4, 6} && OuterLaws(v, w)
    ensures AllOne(v ^ Exchanged(Exchanged(w, 8), m))
  {
    hide Exchanged, AllOne;
    if m == 2 {
      assert AllOne(v ^ Exchanged(Exchanged(w, 8), 2));
    } else if m == 4 {
      assert AllOne(v ^ Exchanged(Exchanged(w, 8), 4));
    } else {
      assert AllOne(v ^ Exchanged(Exchanged(w, 8), 6));
    }
  }

  lemma OuterDigit(v: bv64, w: bv64, c: bv64, m: bv64)
    requires c < 16 && m in {2, 4, 6} && AllOne(v ^ Exchanged(Exchanged(w, 8), m))
    ensures c ^ (8 | m) < 16 && Digit(v, c) != Digit(w, c ^ (8 | m))
  {
    hide Digit, Exchanged, AllOne;
    OneInDigit(v, Exchanged(Exchanged(w, 8), m), c);
    ExchangedDigit(Exchanged(w, 8), m, c);
    ExchangedDigit(w, 8, c ^ m);
    XorTwice(c, m);
  }

  lemma XorTwice(c: bv64, m: bv64)
    requires c < 16 && m in {2, 4, 6}
    ensures (c ^ m) ^ 8 == c ^ (8 | m)
  {
  }

  // ---------------------------------------------------------------------
  // Rows are permutations

  predicate IsOnto(s: seq<nat>)
  {
    |s| == 16 && forall v: nat :: v < 16 ==> v in s
  }

  lemma UpperRowsAreOnto()
    ensures |S| == 8
    ensures forall b :: 0 <= b < 8 ==> |S[b]| == 4 && IsOnto(S[b][0]) && IsOnto(S[b][1])
  {
  }

  lemma LowerRowsAreOnto()
    ensures |S| == 8
    ensures forall b :: 0 <= b < 8 ==> |S[b]| == 4 && IsOnto(S[b][2]) && IsOnto(S[b][3])
  {
  }

  function Below(n: nat): (all: set<nat>)
    ensures |all| == n && forall v: nat :: v in all <==> v < n
  {
    if n == 0 then {} else Below(n - 1) + {n - 1}
  }

  lemma InRest(s: seq<nat>, i: nat, j: nat, v: nat)
    requires i < j < |s| && s[i] == s[j] && v in s
    ensures v in s[..i] + s[i + 1..]
  {
    var rest := s[..i] + s[i + 1..];
    var k :| 0 <= k < |s| && s[k] == v;
    if k < i {
      assert rest[k] == v;
    } else if k > i {
      assert rest[k - 1] == v;
    } else {
      assert rest[j - 1] == v;
    }
  }

  /** A row that holds all sixteen numbers in sixteen places holds none twice. */
  lemma OntoIsInjective(s: seq<nat>, i: nat, j: nat)
    requires |s| == 16 && (forall v: nat :: v < 16 ==> v in s) && i < j < 16
    ensures s[i] != s[j]
  {
    hide Below;
    if s[i] == s[j] {
      forall v | v in Below(16)
        ensures v in s[..i] + s[i + 1..]
      {
        InRest(s, i, j, v);
      }
      FewerThanPlaces(s[..i] + s[i + 1..], Below(16));
    }
  }

  lemma {:induction false} FewerThanPlaces(s: seq<nat>, all: set<nat>)
    requires forall v :: v in all ==> v in s
    ensures |all| <= |s|
  {
    if s != [] {
      FewerThanPlaces(s[1..], all - {s[0]});
    } else {
      assert all == {};
    }
  }

  predicate Occurs(b: nat, r: nat, v: nat)
    requires b < 8 && r < 4
  {
    exists c :: 0 <= c < 16 && Entry(b, r, c) == v
  }

  /** Each row is a permutation of 0 to 15. */
  lemma RowIsPermutation(b: nat, r: nat)
    requires b < 8 && r < 4
    ensures forall v: nat :: v < 16 ==> Occurs(b, r, v)
    ensures forall c: nat, d: nat :: c < d < 16 ==> Entry(b, r, c) != Entry(b, r, d)
  {
    UpperRowsAreOnto();
    LowerRowsAreOnto();
    var s := S[b][r];
    assert IsOnto(s);
    forall v: nat | v < 16
      ensures Occurs(b, r, v)
    {
      assert v in s;
      var c :| 0 <= c < 16 && s[c] == v;
      assert Entry(b, r, c) == v;
    }
    forall c: nat, d: nat | c < d < 16
      ensures Entry(b, r, c) != Entry(b, r, d)
    {
      OntoIsInjective(s, c, d);
    }
  }

  /** So with the outer bits fixed, different middle bits give different results. */
  lemma MiddleBitsMatter(x: Bits, y: Bits, b: nat)
    requires |x| == |y| == 48 && b < 8
    requires Six(x, b)[0] == Six(y, b)[0] && Six(x, b)[5] == Six(y, b)[5] && Six(x, b) != Six(y, b)
    ensures Changes(Select(x), Select(y), b) >= 1
  {
    hide Select, Changes, Entry, Digit, Packed, Six;
    RowsOf(x, y, b);
    RowIsPermutation(b, RowOf(x, b));
    if ColumnOf(x, b) == ColumnOf(y, b) {
      SameColumn(x, y, b);
    }
    var c, d := ColumnOf(x, b), ColumnOf(y, b);
    assert Entry(b, RowOf(x, b), c) != Entry(b, RowOf(y, b), d) by {
      if c < d {
      } else {
        assert d < c;
      }
    }
    EntryPacked(b, RowOf(x, b), c);
    EntryPacked(b, RowOf(y, b), d);
    OneChange(x, y, b);
  }

  lemma SameColumn(x: Bits, y: Bits, b: nat)
    requires |x| == |y| == 48 && b < 8 && Six(x, b)[0] == Six(y, b)[0] && Six(x, b)[5] == Six(y, b)[5]
    requires ColumnOf(x, b) == ColumnOf(y, b)
    ensures Six(x, b) == Six(y, b)
  {
  }
}
