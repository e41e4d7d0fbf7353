/** What the key schedule and one block encryption compute, and the algebra of
    the cipher: deciphering, complementation and the closed form of the key
    schedule. Nothing here depends on the entries of the E table beyond their
    being bit numbers, so all of it holds for every salt. */
module DesSpec {
  import opened DesTables

  type Bits = seq<Bit>

  function Xor(a: Bit, b: Bit): Bit
  {
    if a == b then 0 else 1
  }

  function Not(a: Bit): Bit
  {
    1 - a
  }

  function XorBits(a: Bits, b: Bits): (r: Bits)
    requires |a| == |b|
    ensures |r| == |a|
  {
    seq(|a|, j requires 0 <= j < |a| => Xor(a[j], b[j]))
  }

  function NotBits(a: Bits): (r: Bits)
    ensures |r| == |a|
  {
    seq(|a|, j requires 0 <= j < |a| => Not(a[j]))
  }

  predicate IsETable(e: seq<nat>)
  {
    |e| == 48 && forall j :: 0 <= j < 48 ==> 1 <= e[j] <= 32
  }

  // ---------------------------------------------------------------------
  // Key schedule

  function TakeC(key: Bits): (r: Bits)
    requires |key| == 64
    ensures |r| == 28
  {
    seq(28, j requires 0 <= j < 28 => key[Pc1C(j) - 1])
  }

  function TakeD(key: Bits): (r: Bits)
    requires |key| == 64
    ensures |r| == 28
  {
    seq(28, j requires 0 <= j < 28 => key[Pc1D(j) - 1])
  }

  /** Rotation to the left. */
  function Rotated(s: Bits, n: nat): (r: Bits)
    requires |s| == 28
    ensures |r| == 28
  {
    seq(28, j requires 0 <= j < 28 => s[(j + n) % 28])
  }

  /** By how much C and D have been rotated when subkey `i` is taken. */
  function TotalShift(i: nat): nat
    requires i <= 16
  {
    if i == 0 then 0 else TotalShift(i - 1) + Shift(i - 1)
  }

  /** Subkey `i` in closed form: every bit is a fixed bit of the key. */
  function Subkey(key: Bits, i: nat): (r: Bits)
    requires |key| == 64 && i < 16
    ensures |r| == 48
  {
    seq(48, j requires 0 <= j < 48 =>
      if j < 24 then TakeC(key)[(Pc2C(j) - 1 + TotalShift(i + 1)) % 28]
      else TakeD(key)[(Pc2D(j - 24) - 29 + TotalShift(i + 1)) % 28])
  }

  function Schedule(key: Bits): (r: seq<Bits>)
    requires |key| == 64
    ensures |r| == 16
  {
    seq(16, i requires 0 <= i < 16 => Subkey(key, i))
  }

  // ---------------------------------------------------------------------
  // The cipher

  function InitialPermute(b: Bits): (r: Bits)
    requires |b| == 64
    ensures |r| == 64
  {
    seq(64, j requires 0 <= j < 64 => b[Ip(j) - 1])
  }

  function FinalPermute(b: Bits): (r: Bits)
    requires |b| == 64
    ensures |r| == 64
  {
    seq(64, j requires 0 <= j < 64 => b[Fp(j) - 1])
  }

  function Expand(r: Bits, e: seq<nat>): (x: Bits)
    requires |r| == 32 && IsETable(e)
    ensures |x| == 48
  {
    seq(48, j requires 0 <= j < 48 => r[e[j] - 1])
  }

  /** The index into selection function `b` given by its six bits. */
  function SIndex(x: Bits, b: nat): (i: nat)
    requires |x| == 48 && b < 8
    ensures i < 64
  {
    var t := 6 * b;
    x[t] as int * 32 + x[t + 1] as int * 8 + x[t + 2] as int * 4 + x[t + 3] as int * 2
    + x[t + 4] as int + x[t + 5] as int * 16
  }

  /** Bit `n` of a four-bit number, the most significant one first. */
  function NibbleBit(k: nat, n: nat): Bit
    requires n < 4
  {
    match n
    case 0 => k / 8 % 2
    case 1 => k / 4 % 2
    case 2 => k / 2 % 2
    case _ => k % 2
  }

  function Select(x: Bits): (f: Bits)
    requires |x| == 48
    ensures |f| == 32
  {
    seq(32, t requires 0 <= t < 32 => NibbleBit(SBox(t / 4, SIndex(x, t / 4)), t % 4))
  }

  function Permute(f: Bits): (r: Bits)
    requires |f| == 32
    ensures |r| == 32
  {
    seq(32, j requires 0 <= j < 32 => f[PBit(j) - 1])
  }

  /** The round function f(R, K). */
  function F(r: Bits, e: seq<nat>, k: Bits): (f: Bits)
    requires |r| == 32 && |k| == 48 && IsETable(e)
    ensures |f| == 32
  {
    Permute(Select(XorBits(Expand(r, e), k)))
  }

  predicate AreKeys(keys: seq<Bits>)
  {
    forall i :: 0 <= i < |keys| ==> |keys[i]| == 48
  }

  function Round(lr: Bits, e: seq<nat>, k: Bits): (r: Bits)
    requires |lr| == 64 && |k| == 48 && IsETable(e)
    ensures |r| == 64
  {
    lr[32..] + XorBits(lr[..32], F(lr[32..], e, k))
  }

  function Rounds(lr: Bits, e: seq<nat>, keys: seq<Bits>): (r: Bits)
    requires |lr| == 64 && AreKeys(keys) && IsETable(e)
    ensures |r| == 64
  {
    if keys == [] then lr
    else Round(Rounds(lr, e, keys[..|keys| - 1]), e, keys[|keys| - 1])
  }

  function Swap(lr: Bits): (r: Bits)
    requires |lr| == 64
    ensures |r| == 64
  {
    lr[32..] + lr[..32]
  }

  function Cipher(block: Bits, e: seq<nat>, keys: seq<Bits>): (r: Bits)
    requires |block| == 64 && AreKeys(keys) && IsETable(e)
    ensures |r| == 64
  {
    FinalPermute(Swap(Rounds(InitialPermute(block), e, keys)))
  }

  function Reversed(keys: seq<Bits>): (r: seq<Bits>)
    ensures |r| == |keys|
    ensures forall i :: 0 <= i < |keys| ==> r[i] == keys[|keys| - 1 - i]
  {
    if keys == [] then [] else [keys[|keys| - 1]] + Reversed(keys[..|keys| - 1])
  }

  // ---------------------------------------------------------------------
  // Deciphering

  lemma {:induction false} PermutationsCancel(b: Bits)
    requires |b| == 64
    ensures FinalPermute(InitialPermute(b)) == b
    ensures InitialPermute(FinalPermute(b)) == b
  {
    forall j | 0 <= j < 64
      ensures FinalPermute(InitialPermute(b))[j] == b[j]
      ensures InitialPermute(FinalPermute(b))[j] == b[j]
    {
      FpUndoesIp(j);
      IpUndoesFp(j);
    }
  }

  /** A round with the halves exchanged is undone by the same round. */
  lemma {:induction false} RoundCancels(lr: Bits, e: seq<nat>, k: Bits)
    requires |lr| == 64 && |k| == 48 && IsETable(e)
    ensures Round(Swap(Round(lr, e, k)), e, k) == Swap(lr)
  {
    hide F;
    var l, r := lr[..32], lr[32..];
    var f := F(r, e, k);
    assert Round(lr, e, k) == r + XorBits(l, f);
    var back := Swap(Round(lr, e, k));
    assert back[..32] == XorBits(l, f) && back[32..] == r;
    assert XorBits(XorBits(l, f), f) == l;
  }

  lemma {:induction false} RoundsSnoc(lr: Bits, e: seq<nat>, keys: seq<Bits>, k: Bits)
    requires |lr| == 64 && AreKeys(keys) && |k| == 48 && IsETable(e)
    ensures AreKeys(keys + [k])
    ensures Rounds(lr, e, keys + [k]) == Round(Rounds(lr, e, keys), e, k)
  {
    assert (keys + [k])[..|keys|] == keys;
  }

  lemma {:induction false} RoundsCons(lr: Bits, e: seq<nat>, k: Bits, keys: seq<Bits>)
    requires |lr| == 64 && AreKeys(keys) && |k| == 48 && IsETable(e)
    ensures AreKeys([k] + keys)
    ensures Rounds(lr, e, [k] + keys) == Rounds(Round(lr, e, k), e, keys)
  {
    hide Round;
    if keys == [] {
      RoundsSnoc(lr, e, [], k);
      assert [] + [k] == [k] + keys;
    } else {
      var front, last := keys[..|keys| - 1], keys[|keys| - 1];
      RoundsCons(lr, e, k, front);
      RoundsSnoc(lr, e, [k] + front, last);
      assert ([k] + front) + [last] == [k] + keys;
      assert front + [last] == keys;
      RoundsSnoc(Round(lr, e, k), e, front, last);
    }
  }

  lemma {:induction false} RoundsCancel(lr: Bits, e: seq<nat>, keys: seq<Bits>)
    requires |lr| == 64 && AreKeys(keys) && IsETable(e)
    ensures AreKeys(Reversed(keys))
    ensures Rounds(Swap(Rounds(lr, e, keys)), e, Reversed(keys)) == Swap(lr)
  {
    hide Round;
    if keys != [] {
      var front, last := keys[..|keys| - 1], keys[|keys| - 1];
      var mid := Rounds(lr, e, front);
      RoundCancels(mid, e, last);
      RoundsCancel(lr, e, front);
      RoundsCons(Swap(Round(mid, e, last)), e, last, Reversed(front));
    }
  }

  /** Running the subkeys backwards deciphers, for every key schedule, every
      salted E table and every block. */
  lemma {:induction false} DecipheringRestores(block: Bits, e: seq<nat>, keys: seq<Bits>)
    requires |block| == 64 && AreKeys(keys) && IsETable(e)
    ensures AreKeys(Reversed(keys))
    ensures Cipher(Cipher(block, e, keys), e, Reversed(keys)) == block
  {
    hide InitialPermute, FinalPermute, Round, Reversed;
    var start := InitialPermute(block);
    var swapped := Swap(Rounds(start, e, keys));
    RoundsCancel(start, e, keys);
    PermutationsCancel(swapped);
    PermutationsCancel(block);
    assert Swap(Swap(start)) == start;
  }

  lemma {:induction false} ReversedTwice(keys: seq<Bits>)
    ensures Reversed(Reversed(keys)) == keys
  {
    hide Reversed;
  }

  /** And enciphering restores what was deciphered. */
  lemma {:induction false} EncipheringRestores(block: Bits, e: seq<nat>, keys: seq<Bits>)
    requires |block| == 64 && AreKeys(keys) && IsETable(e)
    ensures AreKeys(Reversed(keys))
    ensures Cipher(Cipher(block, e, Reversed(keys)), e, keys) == block
  {
    ReversedTwice(keys);
    DecipheringRestores(block, e, Reversed(keys));
  }

  // ---------------------------------------------------------------------
  // Complementation

  function NotKeys(keys: seq<Bits>): (r: seq<Bits>)
    ensures |r| == |keys|
    ensures forall i :: 0 <= i < |keys| ==> r[i] == NotBits(keys[i])
  {
    seq(|keys|, i requires 0 <= i < |keys| => NotBits(keys[i]))
  }

  lemma ScheduleComplements(key: Bits)
    requires |key| == 64
    ensures Schedule(NotBits(key)) == NotKeys(Schedule(key))
  {
    assert TakeC(NotBits(key)) == NotBits(TakeC(key));
    assert TakeD(NotBits(key)) == NotBits(TakeD(key));
    forall i | 0 <= i < 16
      ensures Subkey(NotBits(key), i) == NotBits(Subkey(key, i))
    {
    }
  }

  lemma {:induction false} FComplements(r: Bits, e: seq<nat>, k: Bits)
    requires |r| == 32 && |k| == 48 && IsETable(e)
    ensures F(NotBits(r), e, NotBits(k)) == F(r, e, k)
  {
    hide Select, Permute;
    assert XorBits(Expand(NotBits(r), e), NotBits(k)) == XorBits(Expand(r, e), k);
  }

  lemma {:induction false} RoundComplements(lr: Bits, e: seq<nat>, k: Bits)
    requires |lr| == 64 && |k| == 48 && IsETable(e)
    ensures Round(NotBits(lr), e, NotBits(k)) == NotBits(Round(lr, e, k))
  {
    hide F;
    var l, r := lr[..32], lr[32..];
    assert NotBits(lr)[..32] == NotBits(l) && NotBits(lr)[32..] == NotBits(r);
    FComplements(r, e, k);
    assert XorBits(NotBits(l), F(r, e, k)) == NotBits(XorBits(l, F(r, e, k)));
  }

  lemma {:induction false} RoundsComplement(lr: Bits, e: seq<nat>, keys: seq<Bits>)
    requires |lr| == 64 && AreKeys(keys) && IsETable(e)
    ensures AreKeys(NotKeys(keys))
    ensures Rounds(NotBits(lr), e, NotKeys(keys)) == NotBits(Rounds(lr, e, keys))
  {
    hide Round, NotBits;
    if keys != [] {
      var front, last := keys[..|keys| - 1], keys[|keys| - 1];
      assert NotKeys(keys)[..|keys| - 1] == NotKeys(front);
      RoundsComplement(lr, e, front);
      RoundComplements(Rounds(lr, e, front), e, last);
    }
  }

  /** Complementing key and block complements the result, for every E table. */
  lemma ComplementationProperty(key: Bits, block: Bits, e: seq<nat>)
    requires |key| == 64 && |block| == 64 && IsETable(e)
    ensures Cipher(NotBits(block), e, Schedule(NotBits(key))) == NotBits(Cipher(block, e, Schedule(key)))
  {
    hide Round, Rounds, Subkey;
    ScheduleComplements(key);
    var start := InitialPermute(block);
    assert InitialPermute(NotBits(block)) == NotBits(start);
    RoundsComplement(start, e, Schedule(key));
    var done := Rounds(start, e, Schedule(key));
    assert Swap(NotBits(done)) == NotBits(Swap(done));
    assert FinalPermute(NotBits(Swap(done))) == NotBits(FinalPermute(Swap(done)));
  }
}
