/** Numbers as text: printing in a base and reading back. */
module NumberText {
  import opened Wrappers

  const MAX64: int := 0x7fff_ffff_ffff_ffff
  const MIN64: int := -0x8000_0000_0000_0000

  function Pow2(n: nat): (p: int)
    ensures p >= 1
  {
    if n == 0 then 1 else 2 * Pow2(n - 1)
  }

  /** An integer type of the machine. */
  datatype Target = Target(bits: nat, signed: bool) {

    predicate Valid()
    {
      1 <= bits <= 64
    }

    function Least(): int
      requires Valid()
    {
      if signed then -Pow2(bits - 1) else 0
    }

    predicate Fits(x: int)
      requires Valid()
    {
      Least() <= x < Least() + Pow2(bits)
    }

    /** Converting to the type keeps the low bits. */
    function Cast(x: int): (r: int)
      requires Valid()
      ensures Fits(r)
    {
      (x - Least()) % Pow2(bits) + Least()
    }
  }

  lemma {:induction false} CastFits(t: Target, x: int)
    requires t.Valid()
    ensures t.Cast(x) == x <==> t.Fits(x)
  {
    if t.Fits(x) {
      SmallRemainder(x - t.Least(), Pow2(t.bits));
    }
  }

  lemma SmallRemainder(a: int, b: int)
    requires 0 <= a < b
    ensures a % b == a
  {
  }

  function Upper(c: char): char
  {
    if 'a' <= c <= 'z' then (c as int - 32) as char else c
  }

  /** The value a character is given; characters are signed, so those past 127 are negative. */
  function DigitOf(c: char): int
  {
    if '0' <= c <= '9' then c as int - '0' as int
    else if c as int >= 128 then -1
    else Upper(c) as int - ('A' as int - 10)
  }

  predicate Accepts(c: char, b: int)
  {
    0 <= DigitOf(c) <= b
  }

  predicate IsPoint(c: char)
  {
    c == '.' || c == ','
  }

  /** How far reading has come. */
  datatype Reading =
    | Number(value: int)
    | AtPoint(value: int)
    | Bad(value: int, at: nat)
    | Overflow

  function Step(r: Reading, c: char, at: nat, b: int): Reading
  {
    if !r.Number? then r
    else if IsPoint(c) then AtPoint(r.value)
    else if !Accepts(c, b) then Bad(r.value, at)
    else if r.value * b + DigitOf(c) > MAX64 then Overflow
    else Number(r.value * b + DigitOf(c))
  }

  /** Reading digits from left to right. */
  function Read(s: string, b: int): Reading
  {
    if s == "" then Number(0)
    else Step(Read(s[..|s| - 1], b), s[|s| - 1], |s| - 1, b)
  }

  /** The number and the error code; undefined when 64 bits overflow on the way. */
  datatype Answer = Answer(value: int, error: int) | Undefined

  function SignLength(s: string): (n: nat)
    ensures n <= |s|
  {
    if s != "" && (s[0] == '-' || s[0] == '+') then 1 else 0
  }

  function Convert(s: string, b: int, t: Target): Answer
    requires t.Valid()
  {
    if b < 2 || b > 36 then Answer(0, -3)
    else if s == "" then Answer(0, -1)
    else
      match Read(s[SignLength(s)..], b)
      case Overflow => Undefined
      case Bad(value, at) => Answer(t.Cast(value), SignLength(s) + at + 1)
      case Number(value) => Finish(if s[0] == '-' then -value else value, t)
      case AtPoint(value) => Finish(if s[0] == '-' then -value else value, t)
  }

  /** The cast to the target, and the comparison of it, made in 64 bits, with the number. */
  function Finish(value: int, t: Target): Answer
    requires t.Valid()
  {
    Answer(t.Cast(value), if t.bits < 64 && t.Cast(value) != value then -2 else 0)
  }

  lemma MulNonNegative(v: int, b: int)
    requires 0 <= v && 0 <= b
    ensures 0 <= v * b
  {
  }

  lemma {:induction false} ReadNonNegative(s: string, b: int)
    requires 0 <= b
    ensures !Read(s, b).Overflow? ==> 0 <= Read(s, b).value <= MAX64
  {
    if s != "" {
      hide DigitOf;
      ReadNonNegative(s[..|s| - 1], b);
      var r := Read(s[..|s| - 1], b);
      if r.Number? { MulNonNegative(r.value, b); }
    }
  }

  /** Once reading has stopped, the rest of the text does not matter. */
  lemma {:induction false} StoppedStays(s: string, k: nat, b: int)
    requires k <= |s| && !Read(s[..k], b).Number?
    ensures Read(s, b) == Read(s[..k], b)
    decreases |s|
  {
    if k < |s| {
      assert s[..|s| - 1][..k] == s[..k];
      StoppedStays(s[..|s| - 1], k, b);
    } else {
      assert s[..k] == s;
    }
  }

  lemma ReadStep(s: string, k: nat, b: int)
    requires k < |s|
    ensures Read(s[..k + 1], b) == Step(Read(s[..k], b), s[k], k, b)
  {
    assert s[..k + 1][..k] == s[..k];
  }

  /** The value of a character, computed from its code. */
  method CurrentDigit(c: char) returns (digit: int)
    ensures digit < 0 <==> DigitOf(c) < 0
    ensures digit >= 0 ==> digit == DigitOf(c)
  {
    digit := c as int;
    if digit >= 128 { digit := -1; } // a negative code, whichever it is
    if digit < '0' as int || digit > '9' as int {
      if 'a' as int <= digit <= 'z' as int { digit := digit - 32; }
      digit := digit - ('A' as int - 10);
    } else {
      digit := digit - '0' as int;
    }
  }

  method StrToInt(s: string, b: int, t: Target) returns (r: Answer)
    requires t.Valid()
    ensures r == Convert(s, b, t)
  {
    hide Read, DigitOf, Target.Cast;
    if b < 2 || b > 36 { return Answer(0, -3); }
    if |s| == 0 { return Answer(0, -1); }
    var negative, index := false, 0;
    if s[index] == '-' {
      negative := true;
      index := index + 1;
    } else if s[index] == '+' {
      index := index + 1;
    }
    var result := 0;
    ghost var start, body := index, s[index..];
    ReadNothing(body, b);
    while index < |s| && s[index] != '.' && s[index] != ','
      invariant start <= index <= |s|
      invariant Read(body[..index - start], b) == Number(result)
      invariant 0 <= result
    {
      ghost var k := index - start;
      ReadStep(body, k, b);
      var digit := CurrentDigit(s[index]);
      if digit < 0 || digit > b {
        StoppedStays(body, k + 1, b);
        return Answer(t.Cast(result), index + 1);
      }
      result := result * b;
      result := result + digit;
      if result > MAX64 {
        StoppedStays(body, k + 1, b);
        return Undefined;
      }
      index := index + 1;
    }
    if index < |s| {
      ReadStep(body, index - start, b);
      StoppedStays(body, index - start + 1, b);
    } else {
      assert body[..index - start] == body;
    }
    if negative { result := -result; }
    var cast := t.Cast(result);
    r := Answer(cast, if t.bits < 64 && result != cast then -2 else 0);
  }

  lemma ReadNothing(s: string, b: int)
    ensures Read(s[..0], b) == Number(0)
  {
  }

  const NUMERALS: string := "0123456789abcdef"

  function Numeral(d: nat): char
    requires d < 16
  {
    NUMERALS[d]
  }

  /** The digits of a positive number, nothing for zero. */
  function Digits(n: nat, b: int): string
    requires 2 <= b <= 16
  {
    if n == 0 then "" else Digits(n / b, b) + [Numeral(n % b)]
  }

  /** The text of a number; undefined for the one number that cannot be negated. */
  function Text(n: int, b: int): Option<string>
  {
    if n == 0 || b < 2 || b > 16 then Some("0")
    else if n == MIN64 then None
    else if n < 0 then Some("-" + Digits(-n, b))
    else Some(Digits(n, b))
  }

  lemma DigitsStep(n: nat, b: int)
    requires 2 <= b <= 16 && n > 0
    ensures 0 <= n / b < n && 0 <= n % b < 16 && n == n / b * b + n % b
    ensures Digits(n, b) == Digits(n / b, b) + [Numeral(n % b)]
  {
  }

  /** The digits come out last to first. */
  method PrintDigits(n: nat, b: int) returns (s: string)
    requires 2 <= b <= 16
    ensures s == Digits(n, b)
  {
    s := "";
    var work := n;
    while work > 0
      invariant 0 <= work && Digits(n, b) == Digits(work, b) + s
    {
      hide Digits, Numeral;
      DigitsStep(work, b);
      s := [Numeral(work % b)] + s;
      work := work / b;
    }
  }

  method NumToStr(n: int, b: int) returns (r: Option<string>)
    requires MIN64 <= n <= MAX64
    ensures r == Text(n, b)
  {
    hide Digits;
    if n == 0 { return Some("0"); }
    if b < 2 || b > 16 { return Some("0"); }
    var work := n;
    if work < 0 {
      if work == MIN64 { return None; }
      work := -work;
    }
    var s := PrintDigits(work, b);
    if n < 0 { s := "-" + s; }
    return Some(s);
  }

  lemma NumeralReads(d: nat)
    requires d < 16
    ensures DigitOf(Numeral(d)) == d && !IsPoint(Numeral(d)) && Numeral(d) != '-' && Numeral(d) != '+'
  {
  }

  lemma ReadSnoc(s: string, c: char, b: int)
    ensures Read(s + [c], b) == Step(Read(s, b), c, |s|, b)
  {
    assert (s + [c])[..|s|] == s;
  }

  /** The digits of a number read back as the number. */
  lemma {:induction false} DigitsRead(n: nat, b: int)
    requires 2 <= b <= 16 && n <= MAX64
    ensures Read(Digits(n, b), b) == Number(n)
    ensures n > 0 ==> Digits(n, b) != "" && Digits(n, b)[0] != '-' && Digits(n, b)[0] != '+'
  {
    if n > 0 {
      hide Digits, Numeral, Read, DigitOf;
      DigitsStep(n, b);
      DigitsRead(n / b, b);
      NumeralReads(n % b);
      ReadSnoc(Digits(n / b, b), Numeral(n % b), b);
    }
  }

  /** A number printed in any base reads back as itself, when the target holds it. A
      narrower target reports an overflow exactly when it does not hold it. */
  lemma NumberRoundTrip(n: int, b: int, t: Target)
    requires 2 <= b <= 16 && MIN64 < n <= MAX64 && t.Valid()
    ensures Text(n, b).Some?
    ensures Convert(Text(n, b).value, b, t) ==
      Answer(t.Cast(n), if t.bits < 64 && !t.Fits(n) then -2 else 0)
    ensures t.Fits(n) ==> t.Cast(n) == n
  {
    hide Read, Digits, Target.Cast, Target.Fits, Pow2, Convert, SignLength, Text;
    CastFits(t, n);
    TextOf(n, b);
    if n == 0 {
      ZeroReads(b);
      assert "0"[0..] == ['0'] && SignLength("0") == 0 by { Unsigned("0"); }
      Converted("0", b, t, 0);
    } else {
      DigitsRead(if n < 0 then -n else n, b);
      TextParts(n, b);
      Converted(Text(n, b).value, b, t, n);
    }
  }

  lemma TextOf(n: int, b: int)
    requires 2 <= b <= 16 && MIN64 < n <= MAX64
    ensures Text(n, b).Some? && (n == 0 ==> Text(n, b).value == "0")
  {
    hide Digits;
  }

  lemma Unsigned(s: string)
    requires s != "" && s[0] != '-' && s[0] != '+'
    ensures SignLength(s) == 0
  {
  }

  /** A text with a sign and digits that read as the number without it. */
  lemma Converted(s: string, b: int, t: Target, n: int)
    requires t.Valid() && 2 <= b <= 36 && s != "" && (s[0] == '-' <==> n < 0)
    requires Read(s[SignLength(s)..], b) == Number(if n < 0 then -n else n)
    ensures Convert(s, b, t) == Answer(t.Cast(n), if t.bits < 64 && t.Cast(n) != n then -2 else 0)
  {
    hide Read, Target.Cast, SignLength;
  }

  lemma TextParts(n: int, b: int)
    requires 2 <= b <= 16 && MIN64 < n <= MAX64 && n != 0
    ensures var s := Text(n, b).value;
      && s != "" && (s[0] == '-' <==> n < 0)
      && s[SignLength(s)..] == Digits(if n < 0 then -n else n, b)
  {
    hide Digits;
    DigitsRead(if n < 0 then -n else n, b);
  }

  lemma ZeroReads(b: int)
    requires 2 <= b <= 36
    ensures Read(['0'], b) == Number(0)
  {
    OneDigit('0', b);
  }

  lemma OneDigit(c: char, b: int)
    requires 2 <= b <= 36 && Accepts(c, b) && !IsPoint(c)
    ensures Read([c], b) == Number(DigitOf(c))
  {
    hide DigitOf;
    assert [c] == "" + [c];
    ReadSnoc("", c, b);
  }

  /** Texts as the printer makes them: lower-case numerals below the base, no leading zero. */
  predicate Canonical(s: string, b: int)
  {
    (s != "" ==> s[0] != '0') && forall i :: 0 <= i < |s| ==> IsNumeral(s[i], b)
  }

  predicate IsNumeral(c: char, b: int)
  {
    ('0' <= c <= '9' || 'a' <= c <= 'f') && DigitOf(c) < b
  }

  lemma NumeralOf(c: char, b: int)
    requires b <= 16 && IsNumeral(c, b)
    ensures 0 <= DigitOf(c) < b && Numeral(DigitOf(c)) == c && !IsPoint(c)
    ensures DigitOf(c) == 0 <==> c == '0'
  {
  }

  lemma {:induction false} DivMod(v: nat, d: nat, b: int)
    requires 2 <= b && d < b
    ensures (v * b + d) / b == v && (v * b + d) % b == d
  {
    if v > 0 {
      DivMod(v - 1, d, b);
      assert v * b + d == ((v - 1) * b + d) + b;
      AddDivisor((v - 1) * b + d, b);
    }
  }

  lemma {:induction false} AddDivisor(x: int, b: int)
    requires 2 <= b
    ensures (x + b) / b == x / b + 1 && (x + b) % b == x % b
  {
    var k := (x + b) / b - x / b - 1;
    assert (x + b) / b * b + (x + b) % b == x / b * b + x % b + b;
    assert k * b == (x + b) / b * b - x / b * b - b;
    SmallMultiple(k, b);
  }

  lemma SmallMultiple(k: int, b: int)
    requires -b < k * b < b
    ensures k == 0
  {
    if k >= 1 {
      MulNonNegative(k - 1, b);
    } else if k <= -1 {
      MulNonNegative(-k - 1, b);
    }
  }

  /** A canonical text that 64 bits can hold is what the printer makes of its number. */
  lemma {:induction false} TextRoundTrip(s: string, b: int)
    requires 2 <= b <= 16 && Canonical(s, b) && !Read(s, b).Overflow?
    ensures Read(s, b).Number? && Read(s, b).value >= 0
    ensures Digits(Read(s, b).value, b) == s
    ensures s != "" ==> Read(s, b).value > 0
  {
    if s != "" {
      hide DigitOf, Numeral, Digits;
      var front, c := s[..|s| - 1], s[|s| - 1];
      TextRoundTrip(front, b);
      NumeralOf(c, b);
      var v, d := Read(front, b).value, DigitOf(c);
      assert Read(s, b) == Number(v * b + d);
      MulNonNegative(v, b);
      if v > 0 { MulNonNegative(v - 1, b); }
      DivMod(v, d, b);
      DigitsStep(v * b + d, b);
    }
  }

  /** A character that the documentation promises for base `b`: a digit or letter whose
      value is below the base. */
  predicate Promised(c: char, b: int)
  {
    ('0' <= c <= '9' || 'a' <= Lower(c) <= 'z') && 0 <= DigitOf(c) < b
  }

  function Lower(c: char): char
  {
    if 'A' <= c <= 'Z' then (c as int + 32) as char else c
  }

  /** Reading accepts the promised characters, and besides them the digit or letter whose
      value is the base itself, and the characters between '9' and 'A', taken for 3 to 9. */
  lemma AcceptedCharacters(c: char, b: int)
    requires 2 <= b <= 36
    ensures Accepts(c, b) <==>
      || Promised(c, b)
      || (DigitOf(c) == b && b < 36 && ('0' <= c <= '9' || 'a' <= Lower(c) <= 'z'))
      || (':' <= c <= '@' && c as int - ':' as int + 3 <= b)
      || (b == 36 && c as int == '[' as int)
  {
  }

  /** In base 2 the text "2" is read as two, and in base 10 the text ":" as three. */
  lemma {:induction false} ReadsTooMuch(t: Target)
    requires t.bits == 32 && t.signed
    ensures Convert("2", 2, t) == Answer(2, 0) && Convert(":", 10, t) == Answer(3, 0)
  {
    hide Read, Pow2, Target.Cast;
    assert "2"[0..] == ['2'] && ":"[0..] == [':'];
    OneDigit('2', 2);
    OneDigit(':', 10);
    Pow2Large(31);
    Pow2Large(32);
    assert t.Fits(2) && t.Fits(3) by { Pow2Doubles(31); }
    CastFits(t, 2);
    CastFits(t, 3);
  }

  lemma Pow2Doubles(n: nat)
    ensures Pow2(n + 1) == 2 * Pow2(n)
  {
  }

  lemma {:induction false} Pow2Large(n: nat)
    ensures Pow2(n) > n
  {
    if n > 0 {
      Pow2Large(n - 1);
    }
  }

  /** Position `k` is the first that reading does not accept, with no point before it and
      a number so far that 64 bits hold. */
  predicate FirstBad(s: string, k: nat, b: int)
  {
    k < |s| && Read(s[..k], b).Number? && !IsPoint(s[k]) && !Accepts(s[k], b)
  }

  /** The error position reported is that of the first bad character, counted from 1. */
  lemma ErrorPosition(s: string, b: int, t: Target, p: nat)
    requires 2 <= b <= 36 && t.Valid() && p > 0
    ensures (Convert(s, b, t).Answer? && Convert(s, b, t).error == p) <==>
      (p > SignLength(s) && FirstBad(s[SignLength(s)..], p - 1 - SignLength(s), b))
  {
    var body := s[SignLength(s)..];
    if Read(body, b).Bad? {
      BadIsFirst(body, b);
    }
    if p > SignLength(s) && FirstBad(body, p - 1 - SignLength(s), b) {
      var k := p - 1 - SignLength(s);
      ReadStep(body, k, b);
      StoppedStays(body, k + 1, b);
    }
  }

  lemma {:induction false} BadIsFirst(s: string, b: int)
    requires Read(s, b).Bad?
    ensures FirstBad(s, Read(s, b).at, b)
  {
    var front := s[..|s| - 1];
    if Read(front, b).Bad? {
      BadIsFirst(front, b);
      assert s[..Read(front, b).at] == front[..Read(front, b).at];
    }
  }

  // ---------------------------------------------------------------------
  // Signs, points and the empty text

  /** Nothing to read is an error of its own, and a wrong base another. */
  lemma NothingToRead(b: int, t: Target, s: string)
    requires t.Valid()
    ensures 2 <= b <= 36 ==> Convert("", b, t) == Answer(0, -1)
    ensures b < 2 || b > 36 ==> Convert(s, b, t) == Answer(0, -3)
  {
  }

  /** A plus sign changes nothing but the position of an error. */
  lemma PlusIsRead(s: string, b: int, t: Target)
    requires t.Valid() && 2 <= b <= 36 && s != "" && s[0] != '+' && s[0] != '-'
    ensures Convert("+" + s, b, t) ==
      match Convert(s, b, t)
      case Undefined => Undefined
      case Answer(value, error) => Answer(value, if error > 0 then error + 1 else error)
  {
    hide Read;
    assert ("+" + s)[1..] == s && s[0..] == s;
  }

  /** A minus sign negates what 64 bits can hold. */
  lemma MinusIsRead(s: string, b: int)
    requires 2 <= b <= 36 && s != "" && s[0] != '+' && s[0] != '-'
    requires Convert(s, b, Target(64, true)).Answer? && Convert(s, b, Target(64, true)).error == 0
    ensures Convert("-" + s, b, Target(64, true)) == Answer(-Convert(s, b, Target(64, true)).value, 0)
  {
    var t := Target(64, true);
    assert ("-" + s)[1..] == s && s[0..] == s;
    ReadNonNegative(s, b);
    hide Read;
    Widths();
    var r := Read(s, b);
    if !r.Overflow? {
      CastFits(t, r.value);
      CastFits(t, -r.value);
    }
  }

  lemma {:induction false} PowerOfSum(m: nat, n: nat)
    ensures Pow2(m + n) == Pow2(m) * Pow2(n)
  {
    if n > 0 {
      PowerOfSum(m, n - 1);
    }
  }

  lemma Widths()
    ensures Target(64, true).Valid() && Target(64, true).Least() == MIN64 && Pow2(64) == 2 * (MAX64 + 1)
  {
    PowerOfSum(16, 16);
    PowerOfSum(32, 16);
    PowerOfSum(48, 15);
    Pow2Doubles(63);
    SixteenBits();
  }

  lemma SixteenBits()
    ensures Pow2(15) == 32768 && Pow2(16) == 65536
  {
    assert Pow2(15) == 32768;
  }

  /** What follows a point is not read. */
  lemma PointEnds(s: string, c: char, rest: string, b: int, t: Target)
    requires t.Valid() && s != "" && (c == '.' || c == ',')
    ensures Convert(s + [c] + rest, b, t) == Convert(s, b, t)
  {
    var n := SignLength(s);
    ReadToPoint(s[n..], c, rest, b);
    assert (s + [c] + rest)[n..] == s[n..] + [c] + rest;
    hide Read;
  }

  lemma {:induction false} ReadToPoint(s: string, c: char, rest: string, b: int)
    requires c == '.' || c == ','
    ensures var r := Read(s, b);
      Read(s + [c] + rest, b) == if r.Number? then AtPoint(r.value) else r
  {
    var all := s + [c] + rest;
    if rest == [] {
      assert all[..|all| - 1] == s;
    } else {
      assert all[..|all| - 1] == s + [c] + rest[..|rest| - 1];
      ReadToPoint(s, c, rest[..|rest| - 1], b);
    }
  }
}
