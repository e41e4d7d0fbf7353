/** The cipher as it runs, on static arrays updated in place. */
module Des {
  import opened DesTables
  import opened DesSpec

  class DesMachine {
    const C: array<Bit>
    const D: array<Bit>
    const KS: array2<Bit>
    const E: array<nat>
    /** The arrays L and R, adjacent: L is the first half. */
    const LR: array<Bit>
    const tempL: array<Bit>
    const preS: array<Bit>
    const f: array<Bit>

    ghost predicate Valid()
    {
      && C.Length == 28 && D.Length == 28 && C != D
      && KS.Length0 == 16 && KS.Length1 == 48
      && E.Length == 48
      && LR.Length == 64 && tempL.Length == 32 && f.Length == 32 && preS.Length == 48
      && tempL != f
    }

    constructor ()
      ensures Valid()
      ensures fresh(C) && fresh(D) && fresh(KS) && fresh(E) && fresh(LR) && fresh(tempL) && fresh(preS) && fresh(f)
    {
      C, D := new Bit[28], new Bit[28];
      KS := new Bit[16, 48];
      E := new nat[48];
      LR, tempL, preS, f := new Bit[64], new Bit[32], new Bit[48], new Bit[32];
    }

    /** Row `i` of the key schedule. */
    ghost function Key(i: nat): (k: Bits)
      requires Valid() && i < 16
      reads KS
      ensures |k| == 48
    {
      seq(48, j requires 0 <= j < 48 reads KS => KS[i, j])
    }

    ghost function Keys(): (ks: seq<Bits>)
      requires Valid()
      reads KS
      ensures AreKeys(ks) && |ks| == 16
    {
      seq(16, i requires 0 <= i < 16 reads KS => Key(i))
    }

    /** Rotates one half of the key by one place, in place. */
    method RotateLeft(a: array<Bit>)
      requires a.Length == 28
      modifies a
      ensures a[..] == Rotated(old(a[..]), 1)
    {
      hide Rotated;
      RotatedByOne(a[..]);
      var t := a[0];
      for j := 0 to 27
        invariant forall x :: 0 <= x < j ==> a[x] == old(a[x + 1])
        invariant forall x :: j <= x < 28 ==> a[x] == old(a[x])
      {
        a[j] := a[j + 1];
      }
      a[27] := t;
    }

    lemma RotatedByOne(s: Bits)
      requires |s| == 28
      ensures Rotated(s, 1) == s[1..] + [s[0]]
    {
    }

    method Setkey(key: array<Bit>)
      requires Valid() && key.Length >= 64 && key != C && key != D
      modifies C, D, KS
      ensures Keys() == Schedule(key[..64])
    {
      LoadHalves(key);
      MakeKeys(key[..64]);
    }

    method MakeKeys(ghost key: Bits)
      requires Valid() && |key| == 64
      requires C[..] == TakeC(key) && D[..] == TakeD(key)
      modifies C, D, KS
      ensures Keys() == Schedule(key)
    {
      hide Subkey, Rotated, TakeC, TakeD, Schedule, Key, Keys;
      RotatedNone(C[..]);
      RotatedNone(D[..]);
      for i := 0 to 16
        invariant C[..] == Rotated(TakeC(key), TotalShift(i)) && D[..] == Rotated(TakeD(key), TotalShift(i))
        invariant forall n :: 0 <= n < i ==> Key(n) == Subkey(key, n)
      {
        NextSubkey(i, key);
      }
      KeysAreSchedule(key);
    }

    method NextSubkey(i: nat, ghost key: Bits)
      requires Valid() && i < 16 && |key| == 64
      requires C[..] == Rotated(TakeC(key), TotalShift(i)) && D[..] == Rotated(TakeD(key), TotalShift(i))
      modifies C, D, KS
      ensures C[..] == Rotated(TakeC(key), TotalShift(i + 1)) && D[..] == Rotated(TakeD(key), TotalShift(i + 1))
      ensures Key(i) == Subkey(key, i)
      ensures forall n :: 0 <= n < i ==> Key(n) == old(Key(n))
    {
      hide Subkey, Rotated, TakeC, TakeD;
      RotateHalves(Shift(i), TakeC(key), TakeD(key), TotalShift(i));
      TakeSubkey(i, key);
    }

    lemma KeysAreSchedule(key: Bits)
      requires Valid() && |key| == 64
      requires forall n :: 0 <= n < 16 ==> Key(n) == Subkey(key, n)
      ensures Keys() == Schedule(key)
    {
      hide Subkey, Key;
    }

    lemma RotatedNone(s: Bits)
      requires |s| == 28
      ensures Rotated(s, 0) == s
    {
    }

    method LoadHalves(key: array<Bit>)
      requires Valid() && key.Length >= 64 && key != C && key != D
      modifies C, D
      ensures C[..] == TakeC(key[..64]) && D[..] == TakeD(key[..64])
    {
      for i := 0 to 28
        invariant forall j :: 0 <= j < i ==> C[j] == key[Pc1C(j) - 1] && D[j] == key[Pc1D(j) - 1]
      {
        hide Pc1C, Pc1D;
        C[i] := key[Pc1C(i) - 1];
        D[i] := key[Pc1D(i) - 1];
      }
    }

    method RotateHalves(shift: nat, ghost c0: Bits, ghost d0: Bits, ghost n: nat)
      requires Valid() && |c0| == 28 == |d0|
      requires C[..] == Rotated(c0, n) && D[..] == Rotated(d0, n)
      modifies C, D
      ensures C[..] == Rotated(c0, n + shift) && D[..] == Rotated(d0, n + shift)
    {
      hide Rotated;
      for k := 0 to shift
        invariant C[..] == Rotated(c0, n + k) && D[..] == Rotated(d0, n + k)
      {
        RotateLeft(C);
        RotateLeft(D);
        RotatedOnce(c0, n + k);
        RotatedOnce(d0, n + k);
      }
    }

    lemma RotatedOnce(s: Bits, n: nat)
      requires |s| == 28
      ensures Rotated(Rotated(s, n), 1) == Rotated(s, n + 1)
    {
    }

    method TakeSubkey(i: nat, ghost key: Bits)
      requires Valid() && i < 16 && |key| == 64
      requires C[..] == Rotated(TakeC(key), TotalShift(i + 1)) && D[..] == Rotated(TakeD(key), TotalShift(i + 1))
      modifies KS
      ensures Key(i) == Subkey(key, i)
      ensures forall n :: 0 <= n < i ==> Key(n) == old(Key(n))
    {
      hide Subkey, Rotated, TakeC, TakeD, Pc2C, Pc2D;
      PickBits(i);
      ghost var k, c, d := Key(i), C[..], D[..];
      forall j | 0 <= j < 48
        ensures k[j] == Subkey(key, i)[j]
      {
        SubkeyBit(key, i, j);
        assert k[j] == KS[i, j];
      }
      forall n | 0 <= n < i
        ensures Key(n) == old(Key(n))
      {
        assert forall j :: 0 <= j < 48 ==> Key(n)[j] == old(Key(n))[j];
      }
    }

    lemma {:induction false} SubkeyBit(key: Bits, i: nat, j: nat)
      requires |key| == 64 && i < 16 && j < 48
      ensures Subkey(key, i)[j] ==
              if j < 24 then Rotated(TakeC(key), TotalShift(i + 1))[Pc2C(j) - 1]
              else Rotated(TakeD(key), TotalShift(i + 1))[Pc2D(j - 24) - 29]
    {
      hide Pc2C, Pc2D, TakeC, TakeD, TotalShift;
    }

    method PickBits(i: nat)
      requires Valid() && i < 16
      modifies KS
      ensures forall j :: 0 <= j < 24 ==> KS[i, j] == C[Pc2C(j) - 1]
      ensures forall j :: 24 <= j < 48 ==> KS[i, j] == D[Pc2D(j - 24) - 29]
      ensures forall n, j :: 0 <= n < 16 && n != i && 0 <= j < 48 ==> KS[n, j] == old(KS[n, j])
    {
      hide Pc2C, Pc2D;
      for j := 0 to 24
        invariant forall x :: 0 <= x < j ==> KS[i, x] == C[Pc2C(x) - 1]
        invariant forall x :: 24 <= x < j + 24 ==> KS[i, x] == D[Pc2D(x - 24) - 29]
        invariant forall n, x :: 0 <= n < 16 && n != i && 0 <= x < 48 ==> KS[n, x] == old(KS[n, x])
      {
        KS[i, j] := C[Pc2C(j) - 1];
        KS[i, j + 24] := D[Pc2D(j) - 28 - 1];
      }
    }

    /** One round: the new R is L xor f(R, K), the new L is the old R. */
    method DoRound(i: nat)
      requires Valid() && i < 16 && IsETable(E[..])
      modifies LR, tempL, preS, f
      ensures LR[..] == Round(old(LR[..]), E[..], Key(i))
    {
      hide Expand, XorBits, Select, Permute;
      ghost var l, r := LR[..32], LR[32..];
      SaveR();
      ExpandR(i);
      SelectBits();
      NewR();
      CopyL();
      assert LR[..] == LR[..32] + LR[32..];
    }

    method SaveR()
      requires Valid()
      modifies tempL
      ensures tempL[..] == LR[32..]
    {
      for j := 0 to 32
        invariant forall x :: 0 <= x < j ==> tempL[x] == LR[32 + x]
      {
        tempL[j] := LR[32 + j];
      }
    }

    method ExpandR(i: nat)
      requires Valid() && i < 16 && IsETable(E[..])
      modifies preS
      ensures preS[..] == XorBits(Expand(LR[32..], E[..]), Key(i))
    {
      ghost var r, e, key := LR[32..], E[..], Key(i);
      for j := 0 to 48
        invariant forall x :: 0 <= x < j ==> preS[x] == Xor(r[e[x] - 1], key[x])
      {
        assert E[j] == e[j] && LR[32 + (E[j] - 1)] == r[e[j] - 1] && KS[i, j] == key[j];
        preS[j] := Xor(LR[32 + E[j] - 1], KS[i, j]);
      }
    }

    method SelectBits()
      requires Valid()
      modifies f
      ensures f[..] == Select(preS[..])
    {
      hide SBox, SIndex, NibbleBit;
      for j := 0 to 8
        invariant forall t :: 0 <= t < 4 * j ==> f[t] == NibbleBit(SBox(t / 4, SIndex(preS[..], t / 4)), t % 4)
      {
        SelectBox(j);
      }
    }

    method SelectBox(j: nat)
      requires Valid() && j < 8
      modifies f
      ensures forall t :: 4 * j <= t < 4 * j + 4 ==> f[t] == NibbleBit(SBox(t / 4, SIndex(preS[..], t / 4)), t % 4)
      ensures forall t :: 0 <= t < 4 * j ==> f[t] == old(f[t])
    {
      hide SBox, SIndex, NibbleBit;
      var k := SBox(j, SelectIndex(j));
      SetNibble(4 * j, k);
      forall t | 4 * j <= t < 4 * j + 4
        ensures f[t] == NibbleBit(SBox(t / 4, SIndex(preS[..], t / 4)), t % 4)
      {
        var x := t - 4 * j;
        assert t / 4 == j && t % 4 == x;
        assert f[4 * j + x] == NibbleBit(k, x);
      }
    }

    function SelectIndex(j: nat): (i: nat)
      requires Valid() && j < 8
      reads preS
      ensures i == SIndex(preS[..], j)
    {
      var t := 6 * j;
      preS[t] as int * 32 + preS[t + 1] as int * 8 + preS[t + 2] as int * 4 + preS[t + 3] as int * 2
      + preS[t + 4] as int + preS[t + 5] as int * 16
    }

    method SetNibble(t: nat, k: nat)
      requires Valid() && t + 4 <= 32
      modifies f
      ensures forall x :: 0 <= x < 4 ==> f[t + x] == NibbleBit(k, x)
      ensures forall x :: 0 <= x < 32 && !(t <= x < t + 4) ==> f[x] == old(f[x])
    {
      f[t] := k / 8 % 2;
      f[t + 1] := k / 4 % 2;
      f[t + 2] := k / 2 % 2;
      f[t + 3] := k % 2;
    }

    method NewR()
      requires Valid()
      modifies LR
      ensures LR[32..] == XorBits(old(LR[..32]), Permute(f[..]))
      ensures LR[..32] == old(LR[..32])
    {
      for j := 0 to 32
        invariant forall x :: 0 <= x < j ==> LR[32 + x] == Xor(LR[x], f[PBit(x) - 1])
        invariant forall x :: 0 <= x < 32 ==> LR[x] == old(LR[x])
      {
        hide PBit;
        LR[32 + j] := Xor(LR[j], f[PBit(j) - 1]);
      }
    }

    method CopyL()
      requires Valid()
      modifies LR
      ensures LR[..32] == tempL[..] && LR[32..] == old(LR[32..])
    {
      for j := 0 to 32
        invariant forall x :: 0 <= x < j ==> LR[x] == tempL[x]
        invariant forall x :: 32 <= x < 64 ==> LR[x] == old(LR[x])
      {
        LR[j] := tempL[j];
      }
    }

    /** Enciphers a block in place, or deciphers it when `edflag` is set. */
    method Encrypt(block: array<Bit>, edflag: bool)
      requires Valid() && IsETable(E[..])
      requires block.Length >= 64 && block !in {LR, tempL, preS, f}
      modifies block, LR, tempL, preS, f
      ensures block[..64] == Cipher(old(block[..64]), E[..], if edflag then Reversed(Keys()) else Keys())
      ensures block[64..] == old(block[64..])
    {
      hide InitialPermute, FinalPermute, Round, Reversed;
      ghost var b, e := block[..64], E[..];
      ghost var keys := if edflag then Reversed(Keys()) else Keys();
      LoadPermuted(block);
      ghost var start := LR[..];
      for ii := 0 to 16
        invariant LR[..] == Rounds(start, e, keys[..ii])
        invariant block[..] == old(block[..])
      {
        var i := if edflag then 15 - ii else ii;
        assert keys[ii] == Key(i);
        assert keys[..ii + 1][..ii] == keys[..ii];
        DoRound(i);
      }
      assert keys[..16] == keys;
      Exchange();
      StorePermuted(block);
    }

    method LoadPermuted(block: array<Bit>)
      requires Valid() && block.Length >= 64 && block != LR
      modifies LR
      ensures LR[..] == InitialPermute(block[..64])
    {
      for j := 0 to 64
        invariant forall x :: 0 <= x < j ==> LR[x] == block[Ip(x) - 1]
      {
        hide Ip;
        LR[j] := block[Ip(j) - 1];
      }
    }

    method Exchange()
      requires Valid()
      modifies LR
      ensures LR[..] == Swap(old(LR[..]))
    {
      for j := 0 to 32
        invariant forall x :: 0 <= x < j ==> LR[x] == old(LR[32 + x]) && LR[32 + x] == old(LR[x])
        invariant forall x :: j <= x < 32 ==> LR[x] == old(LR[x])
        invariant forall x :: 32 + j <= x < 64 ==> LR[x] == old(LR[x])
      {
        var t := LR[j];
        LR[j] := LR[32 + j];
        LR[32 + j] := t;
      }
      ghost var was := old(LR[..]);
      forall x | 0 <= x < 64
        ensures LR[x] == Swap(was)[x]
      {
        if x >= 32 {
          assert LR[32 + (x - 32)] == was[x - 32];
        }
      }
    }

    method StorePermuted(block: array<Bit>)
      requires Valid() && block.Length >= 64 && block != LR
      modifies block
      ensures block[..64] == FinalPermute(LR[..])
      ensures block[64..] == old(block[64..])
    {
      for j := 0 to 64
        invariant forall x :: 0 <= x < j ==> block[x] == LR[Fp(x) - 1]
        invariant forall x :: 64 <= x < block.Length ==> block[x] == old(block[x])
      {
        hide Fp;
        block[j] := LR[Fp(j) - 1];
      }
    }
  }
}
