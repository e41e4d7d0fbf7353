/** Password hashing: the password gives the key, the salt perturbs the E
    table, and 25 encipherings of the zero block are printed in base 64. */
module DesCrypt {
  import opened DesTables
  import opened DesSpec
  import opened Des

  /** Bit `n` of a character, negative ones in two's complement. */
  function CharBit(c: int, n: nat): Bit
    decreases n
  {
    if n == 0 then c % 2 else CharBit(c / 2, n - 1)
  }

  /** Seven bits of each of the first eight characters, and a zero after each. */
  function KeyBits(pw: seq<int>): (r: Bits)
    ensures |r| == 64
  {
    seq(64, t requires 0 <= t < 64 =>
      if t % 8 < 7 && t / 8 < |pw| then CharBit(pw[t / 8], 6 - t % 8) else 0)
  }

  /** The number a printed character stands for. */
  function SaltValue(c: int): int
  {
    var c1 := if c > 'Z' as int then c - 6 else c;
    var c2 := if c1 > '9' as int then c1 - 7 else c1;
    c2 - '.' as int
  }

  /** The E table for a salt: entry `k` of the first half and entry `k` of the
      second half are exchanged for every bit set. */
  function SaltedE(salt: (int, int)): (e: seq<nat>)
    ensures IsETable(e)
  {
    seq(48, k requires 0 <= k < 48 => if Swapped(salt, k % 24) then EBit((k + 24) % 48) else EBit(k))
  }

  predicate Swapped(salt: (int, int), k: nat)
  {
    k < 12 && CharBit(SaltValue(if k < 6 then salt.0 else salt.1), k % 6) == 1
  }

  function Times(n: nat, b: Bits, e: seq<nat>, keys: seq<Bits>): (r: Bits)
    requires |b| == 64 && AreKeys(keys) && IsETable(e)
    ensures |r| == 64
  {
    if n == 0 then b else Cipher(Times(n - 1, b, e, keys), e, keys)
  }

  function Zeros(n: nat): (r: Bits)
    ensures |r| == n
  {
    seq(n, _ => 0)
  }

  /** The enciphered zero block behind a hash. */
  function HashBlock(pw: seq<int>, salt: (int, int)): (r: Bits)
    ensures |r| == 64
  {
    Times(25, Zeros(64), SaltedE(salt), Schedule(KeyBits(pw)))
  }

  function PrintDigit(v: int): int
  {
    var c := v + '.' as int;
    var c1 := if c > '9' as int then c + 7 else c;
    if c1 > 'Z' as int then c1 + 6 else c1
  }

  function Digit(b: Bits, i: nat): (v: nat)
    requires |b| == 66 && i < 11
    ensures v < 64
  {
    var t := 6 * i;
    b[t] as int * 32 + b[t + 1] as int * 16 + b[t + 2] as int * 8 + b[t + 3] as int * 4
    + b[t + 4] as int * 2 + b[t + 5] as int
  }

  function Printed(block: Bits): (r: seq<int>)
    requires |block| == 64
    ensures |r| == 11
  {
    seq(11, i requires 0 <= i < 11 => PrintDigit(Digit(block + [0, 0], i)))
  }

  function Hash(pw: seq<int>, salt: (int, int)): seq<int>
  {
    [salt.0, if salt.1 == 0 then salt.0 else salt.1] + Printed(HashBlock(pw, salt))
  }

  /** `pw` is the password without its terminating NUL, `salt` the first two
      characters of the salt. */
  method Crypt(m: DesMachine, pw: seq<int>, salt: (int, int)) returns (iobuf: seq<int>)
    requires m.Valid()
    requires forall c :: c in pw ==> c != 0
    modifies m.C, m.D, m.KS, m.E, m.LR, m.tempL, m.preS, m.f
    ensures iobuf == Hash(pw, salt)
  {
    hide Cipher, Schedule, KeyBits, SaltedE, Printed;
    var block := new Bit[66](_ => 0);
    LoadPassword(block, pw);
    m.Setkey(block);
    for i := 0 to 66
      invariant forall x :: 0 <= x < i ==> block[x] == 0
      invariant m.Keys() == Schedule(KeyBits(pw))
    {
      block[i] := 0;
    }
    SaltTable(m, salt);
    ghost var e, keys := SaltedE(salt), Schedule(KeyBits(pw));
    assert block[..64] == Zeros(64);
    for i := 0 to 25
      invariant block[..64] == Times(i, Zeros(64), e, keys)
      invariant block[64..] == [0, 0]
      invariant m.Keys() == keys && m.E[..] == e
    {
      m.Encrypt(block, false);
    }
    assert block[..] == HashBlock(pw, salt) + [0, 0] by {
      assert block[..] == block[..64] + block[64..];
    }
    var text := PrintBlock(block);
    iobuf := [salt.0, if salt.1 == 0 then salt.0 else salt.1] + text;
  }

  method LoadPassword(block: array<Bit>, pw: seq<int>)
    requires block.Length == 66 && forall x :: 0 <= x < 66 ==> block[x] == 0
    modifies block
    ensures block[..64] == KeyBits(pw)
  {
    var i, n := 0, 0;
    while n < |pw| && i < 64
      invariant n <= |pw| && i == 8 * n && i <= 64
      invariant forall t :: 0 <= t < i ==> block[t] == KeyBits(pw)[t]
      invariant forall t :: i <= t < 66 ==> block[t] == 0
    {
      var c := pw[n];
      for j := 0 to 7
        invariant i == 8 * n + j
        invariant forall t :: 0 <= t < 8 * n ==> block[t] == KeyBits(pw)[t]
        invariant forall t :: 8 * n <= t < i ==> block[t] == CharBit(c, 6 - (t - 8 * n))
        invariant forall t :: i <= t < 66 ==> block[t] == 0
      {
        block[i] := CharBit(c, 6 - j);
        i := i + 1;
      }
      i := i + 1;
      n := n + 1;
    }
  }

  method SaltTable(m: DesMachine, salt: (int, int))
    requires m.Valid()
    modifies m.E
    ensures m.E[..] == SaltedE(salt)
  {
    hide SaltValue, CharBit, Salted, EBit;
    for i := 0 to 48
      invariant forall k :: 0 <= k < i ==> m.E[k] == EBit(k)
    {
      m.E[i] := EBit(i);
    }
    NoneSalted(m.E[..], salt);
    for i := 0 to 2
      invariant Salted(m.E[..], salt, 6 * i)
    {
      var c := SaltValue(if i == 0 then salt.0 else salt.1);
      for j := 0 to 6
        invariant Salted(m.E[..], salt, 6 * i + j)
      {
        assert (6 * i + j) % 6 == j;
        SaltOne(m.E[..], salt, 6 * i + j);
        if CharBit(c, j) == 1 {
          var temp := m.E[6 * i + j];
          m.E[6 * i + j] := m.E[6 * i + j + 24];
          m.E[6 * i + j + 24] := temp;
        }
      }
    }
    AllSalted(m.E[..], salt);
  }

  lemma NoneSalted(e: seq<nat>, salt: (int, int))
    requires |e| == 48 && forall k :: 0 <= k < 48 ==> e[k] == EBit(k)
    ensures Salted(e, salt, 0)
  {
    hide EBit, Swapped;
  }

  lemma {:induction false} AllSalted(e: seq<nat>, salt: (int, int))
    requires Salted(e, salt, 12)
    ensures e == SaltedE(salt)
  {
    hide EBit, Swapped;
    forall k | 0 <= k < 48
      ensures e[k] == SaltedE(salt)[k]
    {
      OnlyTwelve(salt, k % 24);
    }
  }

  lemma OnlyTwelve(salt: (int, int), k: nat)
    ensures Swapped(salt, k) ==> k < 12
  {
  }

  lemma {:induction false} SaltOne(e: seq<nat>, salt: (int, int), k: nat)
    requires k < 12 && Salted(e, salt, k)
    ensures |e| == 48
    ensures Salted(if Swapped(salt, k) then e[k := e[k + 24]][k + 24 := e[k]] else e, salt, k + 1)
  {
    hide EBit, Swapped;
  }

  /** The first `n` of the twelve salt bits have been dealt with. */
  ghost predicate Salted(e: seq<nat>, salt: (int, int), n: nat)
  {
    && |e| == 48
    && forall k :: 0 <= k < 48 ==>
         e[k] == if k % 24 < n && Swapped(salt, k % 24) then EBit((k + 24) % 48) else EBit(k)
  }

  method PrintBlock(block: array<Bit>) returns (text: seq<int>)
    requires block.Length == 66 && block[64..] == [0, 0]
    ensures text == Printed(block[..64])
  {
    text := [];
    ghost var b := block[..];
    assert block[..64] + [0, 0] == b;
    for i := 0 to 11
      invariant |text| == i && forall x :: 0 <= x < i ==> text[x] == PrintDigit(Digit(b, x))
    {
      hide PrintDigit, Digit;
      var c := ReadDigit(block, i);
      text := text + [PrintDigit(c)];
    }
  }

  method ReadDigit(block: array<Bit>, i: nat) returns (c: nat)
    requires block.Length == 66 && i < 11
    ensures c == Digit(block[..], i)
  {
    c := 0;
    ghost var t := 6 * i;
    for j := 0 to 6
      invariant c == Prefix(block[..], t, j)
    {
      c := c * 2 + block[6 * i + j] as int;
    }
    PrefixIsDigit(block[..], i);
  }

  lemma PrefixIsDigit(b: Bits, i: nat)
    requires |b| == 66 && i < 11
    ensures Prefix(b, 6 * i, 6) == Digit(b, i)
  {
    var t := 6 * i;
    assert Prefix(b, t, 1) == b[t] as int;
    assert Prefix(b, t, 3) == Prefix(b, t, 1) * 4 + b[t + 1] as int * 2 + b[t + 2] as int;
    assert Prefix(b, t, 5) == Prefix(b, t, 3) * 4 + b[t + 3] as int * 2 + b[t + 4] as int;
  }

  /** The number formed by `n` bits from position `t` on. */
  function Prefix(b: Bits, t: nat, n: nat): nat
    requires t + n <= |b|
  {
    if n == 0 then 0 else Prefix(b, t, n - 1) * 2 + b[t + n - 1] as int
  }

  // ---------------------------------------------------------------------

  /** Only the first eight characters of a password count, and of those only
      the low seven bits. */
  lemma {:induction false} OnlyEightCharacters(pw: seq<int>, other: seq<int>, salt: (int, int))
    requires |pw| >= 8 && |other| >= 8
    requires forall n, j :: 0 <= n < 8 && 0 <= j < 7 ==> CharBit(pw[n], j) == CharBit(other[n], j)
    ensures Hash(pw, salt) == Hash(other, salt)
  {
    hide CharBit, HashBlock;
    assert KeyBits(pw) == KeyBits(other);
    assert HashBlock(pw, salt) == HashBlock(other, salt) by {
      SameKeySameBlock(pw, other, salt);
    }
  }

  lemma SameKeySameBlock(pw: seq<int>, other: seq<int>, salt: (int, int))
    requires KeyBits(pw) == KeyBits(other)
    ensures HashBlock(pw, salt) == HashBlock(other, salt)
  {
    hide KeyBits;
  }

  /** Printing a digit and reading it as a salt character are inverse. */
  lemma DigitRoundTrip(v: int)
    requires 0 <= v < 64
    ensures SaltValue(PrintDigit(v)) == v
  {
  }

  /** The text of a hash determines the whole enciphered block. */
  lemma TextDeterminesBlock(a: Bits, b: Bits)
    requires |a| == 64 == |b| && Printed(a) == Printed(b)
    ensures a == b
  {
    forall k | 0 <= k < 64
      ensures a[k] == b[k]
    {
      var i := k / 6;
      assert Printed(a)[i] == Printed(b)[i];
      DigitRoundTrip(Digit(a + [0, 0], i));
      DigitRoundTrip(Digit(b + [0, 0], i));
      SameDigitSameBits(a + [0, 0], b + [0, 0], i, k % 6);
      assert (a + [0, 0])[6 * i + k % 6] == a[k] && (b + [0, 0])[6 * i + k % 6] == b[k];
    }
  }

  lemma SameDigitSameBits(a: Bits, b: Bits, i: nat, j: nat)
    requires |a| == 66 == |b| && i < 11 && j < 6 && Digit(a, i) == Digit(b, i)
    ensures a[6 * i + j] == b[6 * i + j]
  {
    var t := 6 * i;
    SixBits(a[t], a[t + 1], a[t + 2], a[t + 3], a[t + 4], a[t + 5],
            b[t], b[t + 1], b[t + 2], b[t + 3], b[t + 4], b[t + 5]);
    assert t + j == t || t + j == t + 1 || t + j == t + 2 || t + j == t + 3 || t + j == t + 4 || t + j == t + 5;
  }

  lemma SixBits(a0: Bit, a1: Bit, a2: Bit, a3: Bit, a4: Bit, a5: Bit,
                b0: Bit, b1: Bit, b2: Bit, b3: Bit, b4: Bit, b5: Bit)
    requires a0 as int * 32 + a1 as int * 16 + a2 as int * 8 + a3 as int * 4 + a4 as int * 2 + a5 as int
          == b0 as int * 32 + b1 as int * 16 + b2 as int * 8 + b3 as int * 4 + b4 as int * 2 + b5 as int
    ensures a0 == b0 && a1 == b1 && a2 == b2 && a3 == b3 && a4 == b4 && a5 == b5
  {
  }

  lemma {:induction false} TimesInjective(n: nat, a: Bits, b: Bits, e: seq<nat>, keys: seq<Bits>)
    requires |a| == 64 == |b| && AreKeys(keys) && IsETable(e)
    requires Times(n, a, e, keys) == Times(n, b, e, keys)
    ensures a == b
  {
    hide Cipher;
    if n > 0 {
      var x, y := Times(n - 1, a, e, keys), Times(n - 1, b, e, keys);
      DecipheringRestores(x, e, keys);
      DecipheringRestores(y, e, keys);
      TimesInjective(n - 1, a, b, e, keys);
    }
  }

  // ---------------------------------------------------------------------
  // What the parts of a hash mean

  /** Deciphering the block of a hash 25 times gives the zero block again. */
  lemma HashIsUndone(pw: seq<int>, salt: (int, int))
    ensures AreKeys(Reversed(Schedule(KeyBits(pw))))
    ensures Times(25, HashBlock(pw, salt), SaltedE(salt), Reversed(Schedule(KeyBits(pw)))) == Zeros(64)
  {
    hide Times, SaltedE, Subkey, KeyBits;
    TimesUndone(25, Zeros(64), SaltedE(salt), Schedule(KeyBits(pw)));
  }

  lemma {:induction false} TimesUndone(n: nat, b: Bits, e: seq<nat>, keys: seq<Bits>)
    requires |b| == 64 && AreKeys(keys) && IsETable(e)
    ensures AreKeys(Reversed(keys)) && Times(n, Times(n, b, e, keys), e, Reversed(keys)) == b
  {
    hide Cipher;
    DecipheringRestores(b, e, keys);
    if n > 0 {
      var x := Times(n - 1, b, e, keys);
      DecipheringRestores(x, e, keys);
      TimesUndone(n - 1, b, e, keys);
      OneMoreFirst(n - 1, Cipher(x, e, keys), e, Reversed(keys));
    }
  }

  lemma {:induction false} OneMoreFirst(n: nat, b: Bits, e: seq<nat>, keys: seq<Bits>)
    requires |b| == 64 && AreKeys(keys) && IsETable(e)
    ensures Times(n + 1, b, e, keys) == Times(n, Cipher(b, e, keys), e, keys)
  {
    hide Cipher;
    if n > 0 {
      OneMoreFirst(n - 1, b, e, keys);
    }
  }

  /** The lowest `n` bits of a character and the rest of it make the character. */
  function FromBits(c: int, n: nat): int
    decreases n
  {
    if n == 0 then c else 2 * FromBits(c / 2, n - 1) + CharBit(c, 0) as int
  }

  lemma {:induction false} FromBitsIs(c: int, n: nat)
    ensures FromBits(c, n) == c
    decreases n
  {
    if n > 0 {
      FromBitsIs(c / 2, n - 1);
    }
  }

  lemma BitAbove(c: int, n: nat)
    requires n > 0
    ensures CharBit(c, n) == CharBit(c / 2, n - 1)
  {
  }

  /** The number that seven bits stand for, the first the most significant. */
  function Seven(k: Bits): int
    requires |k| >= 7
  {
    64 * k[0] as int + 32 * k[1] as int + 16 * k[2] as int + 8 * k[3] as int
    + 4 * k[4] as int + 2 * k[5] as int + k[6] as int
  }

  lemma {:induction false} CharBits(c: int, k: Bits)
    requires |k| >= 7 && 0 <= c < 128
    requires forall j :: 0 <= j < 7 ==> k[j] == CharBit(c, 6 - j)
    ensures Seven(k) == c
  {
    assert k[6] == c % 2;
    BitAbove(c, 1);
    BitAbove(c, 2);
    BitAbove(c, 3);
    BitAbove(c, 4);
    BitAbove(c, 5);
    BitAbove(c, 6);
  }

  /** The key holds the first eight characters, seven bits each, the most significant first,
      and zeros as the eighth bits and behind a shorter password. */
  lemma KeyHoldsText(pw: seq<int>, i: nat)
    requires i < 8
    ensures var k := KeyBits(pw)[8 * i..8 * i + 8];
      && k[7] == 0
      && (i < |pw| && 0 <= pw[i] < 128 ==> Seven(k) == pw[i])
      && (i >= |pw| ==> k == Zeros(8))
  {
    hide CharBit, Seven;
    var k := KeyBits(pw)[8 * i..8 * i + 8];
    forall j: nat | j < 8
      ensures k[j] == if j < 7 && i < |pw| then CharBit(pw[i], 6 - j) else 0
    {
      assert (8 * i + j) / 8 == i && (8 * i + j) % 8 == j;
    }
    if i < |pw| && 0 <= pw[i] < 128 {
      CharBits(pw[i], k);
    }
  }

  /** What is printed are the point, the slash, the numerals and the letters, in that order. */
  lemma Alphabet(v: nat)
    requires v < 64
    ensures PrintDigit(v) ==
      if v == 0 then '.' as int else if v == 1 then '/' as int else if v < 12 then '0' as int + (v - 2)
      else if v < 38 then 'A' as int + (v - 12) else 'a' as int + (v - 38)
  {
  }

  /** The twelve bits of the salt, those of its first character first, say which entries of the
      E table are exchanged with the ones 24 further on. */
  lemma SaltSwaps(v: nat, w: nat, k: nat)
    requires v < 64 && w < 64 && k < 24
    ensures var e, swap := SaltedE((PrintDigit(v), PrintDigit(w))), k < 12 && CharBit(v + 64 * w, k) == 1;
      && e[k] == (if swap then EBit(k + 24) else EBit(k))
      && e[k + 24] == (if swap then EBit(k) else EBit(k + 24))
  {
    hide SaltedE, Swapped, PrintDigit, EBit, CharBit;
    SwapsAt((PrintDigit(v), PrintDigit(w)), k);
    SwapsOfSalt(v, w, k);
  }

  lemma SwapsAt(salt: (int, int), k: nat)
    requires k < 24
    ensures SaltedE(salt)[k] == if Swapped(salt, k) then EBit(k + 24) else EBit(k)
    ensures SaltedE(salt)[k + 24] == if Swapped(salt, k) then EBit(k) else EBit(k + 24)
  {
    hide Swapped, EBit;
    assert (k + 24) % 48 == k + 24 && (k + 24 + 24) % 48 == k;
  }

  lemma SwapsOfSalt(v: nat, w: nat, k: nat)
    requires v < 64 && w < 64
    ensures Swapped((PrintDigit(v), PrintDigit(w)), k) <==> k < 12 && CharBit(v + 64 * w, k) == 1
  {
    hide SaltValue, PrintDigit, CharBit;
    DigitRoundTrip(v);
    DigitRoundTrip(w);
    if k < 12 {
      assert Power(6) == 64;
      BitsOfSum(v, w, 6, k);
    }
  }

  function Power(n: nat): (p: nat)
    ensures p >= 1
  {
    if n == 0 then 1 else 2 * Power(n - 1)
  }

  lemma {:induction false} BitsOfSum(v: nat, w: nat, m: nat, k: nat)
    requires v < Power(m)
    ensures CharBit(v + Power(m) * w, k) == if k < m then CharBit(v, k) else CharBit(w, k - m)
    decreases m
  {
    if m > 0 {
      var q := Power(m - 1) * w;
      assert Power(m) * w == 2 * q;
      assert (v + 2 * q) / 2 == v / 2 + q && (v + 2 * q) % 2 == v % 2;
      if k > 0 {
        BitsOfSum(v / 2, w, m - 1, k - 1);
      }
    }
  }
}
