/** Numbers as text: strconv.ParseUint, %d and %x. */
module Numbers {
  import opened Wrappers
  import opened Text

  predicate Base(b: int) { b == 10 || b == 16 }

  function DigitChar(d: int): char
    requires 0 <= d < 16
  {
    if d < 10 then ('0' as int + d) as char else ('a' as int + d - 10) as char
  }

  /** The value of a digit in either case, or 16 for any other character. */
  function DigitValue(c: char): (d: nat)
    ensures d <= 16
  {
    if '0' <= c <= '9' then c as int - '0' as int
    else if 'a' <= c <= 'f' then c as int - 'a' as int + 10
    else if 'A' <= c <= 'F' then c as int - 'A' as int + 10
    else 16
  }

  predicate Digits(s: string, base: int) {
    forall i :: 0 <= i < |s| ==> DigitValue(s[i]) < base
  }

  function Value(s: string, base: int): nat
    requires Base(base)
  {
    if s == [] then 0 else Value(s[..|s| - 1], base) * base + DigitValue(s[|s| - 1])
  }

  /** The shortest text of `n`, in lower case. */
  function Format(n: nat, base: int): (s: string)
    requires Base(base)
    ensures s != []
  {
    if n < base then [DigitChar(n)] else Format(n / base, base) + [DigitChar(n % base)]
  }

  /** Digits only, and no more than `max`. */
  function ParseUint(s: string, base: int, max: nat): Option<nat>
    requires Base(base)
  {
    if s == [] || !Digits(s, base) || Value(s, base) > max then None else Some(Value(s, base))
  }

  /** strconv.Atoi: a sign and digits, within 64 bits. */
  function Atoi(s: string): Option<int> {
    var signed := s != "" && (s[0] == '-' || s[0] == '+');
    match ParseUint(if signed then s[1..] else s, 10, 0x1_0000_0000_0000_0000)
    case None => None
    case Some(n) =>
      var magnitude: int := n;
      var v := if signed && s[0] == '-' then -magnitude else magnitude;
      if -0x8000_0000_0000_0000 <= v < 0x8000_0000_0000_0000 then Some(v) else None
  }

  lemma {:induction false} DigitRoundTrip(d: int)
    requires 0 <= d < 16
    ensures DigitValue(DigitChar(d)) == d && Plain(DigitChar(d))
  {
  }

  /** A digit as it is written. */
  predicate Plain(c: char) {
    '0' <= c <= '9' || 'a' <= c <= 'f'
  }

  predicate AllPlain(s: string) {
    forall i :: 0 <= i < |s| ==> Plain(s[i])
  }

  lemma {:induction false} Divide(n: nat, base: int)
    requires Base(base)
    ensures n / base * base + n % base == n && 0 <= n % base < base
    ensures n >= base ==> 0 < n / base < n
  {
  }

  lemma {:induction false} FormatValue(n: nat, base: int)
    requires Base(base)
    ensures Value(Format(n, base), base) == n
    decreases n
  {
    hide DigitChar, DigitValue;
    Divide(n, base);
    DigitRoundTrip(n % base);
    var digit := DigitChar(n % base);
    if n < base {
      assert n % base == n;
      assert Format(n, base) == [digit] && [digit][..0] == [];
      assert Value([digit], base) == Value([], base) * base + DigitValue(digit);
    } else {
      FormatValue(n / base, base);
      var init, s := Format(n / base, base), Format(n, base);
      assert s == init + [digit] && s[..|s| - 1] == init && s[|s| - 1] == digit;
    }
  }

  lemma {:induction false} FormatPlain(n: nat, base: int)
    requires Base(base)
    ensures AllPlain(Format(n, base)) && Digits(Format(n, base), base)
    decreases n
  {
    Divide(n, base);
    DigitRoundTrip(n % base);
    if n < base {
      DigitRoundTrip(n);
    } else {
      FormatPlain(n / base, base);
    }
  }

  /** A positive number does not start with a zero. */
  lemma {:induction false} FormatStart(n: nat, base: int)
    requires Base(base) && n > 0
    ensures Format(n, base)[0] != '0'
  {
    if n >= base {
      FormatStart(n / base, base);
    }
  }

  lemma {:induction false} ParseFormat(n: nat, base: int, max: nat)
    requires Base(base)
    ensures ParseUint(Format(n, base), base, max) == if n <= max then Some(n) else None
    ensures Token(Format(n, base)) && (|Format(n, base)| > 1 ==> Format(n, base)[0] != '0')
  {
    FormatValue(n, base);
    FormatPlain(n, base);
    if n > 0 {
      FormatStart(n, base);
    }
  }

  /** A number of 64 bits is read with any sign that fits it. */
  lemma {:induction false} AtoiReads(n: int)
    requires n >= 0
    ensures Atoi(Format(n, 10)) == (if n < 0x8000_0000_0000_0000 then Some(n) else None)
    ensures Atoi("+" + Format(n, 10)) == Atoi(Format(n, 10))
    ensures Atoi("-" + Format(n, 10)) == if n <= 0x8000_0000_0000_0000 then Some(-n) else None
  {
    hide Format, ParseUint;
    var s := Format(n, 10);
    ParseFormat(n, 10, 0x1_0000_0000_0000_0000);
    FormatPlain(n, 10);
    assert Plain(s[0]);
    assert ("+" + s)[1..] == s && ("-" + s)[1..] == s;
  }

  // ----- exactly the texts of a number -----

  function Zeros(n: nat): string {
    seq(n, _ => '0')
  }

  lemma {:induction false} LowerDigit(c: char)
    ensures DigitValue(LowerChar(c)) == DigitValue(c)
    ensures DigitValue(c) < 16 ==> LowerChar(c) == DigitChar(DigitValue(c))
  {
  }

  lemma {:induction false} LowerSnoc(s: string)
    requires s != []
    ensures Lower(s) == Lower(s[..|s| - 1]) + [LowerChar(s[|s| - 1])]
  {
  }

  lemma {:induction false} LowerValue(s: string, base: int)
    requires Base(base)
    ensures Value(Lower(s), base) == Value(s, base) && (Digits(Lower(s), base) <==> Digits(s, base))
  {
    hide LowerChar, DigitValue;
    if s == [] {
    } else {
      var init, c := s[..|s| - 1], s[|s| - 1];
      LowerValue(init, base);
      LowerSnoc(s);
      LowerDigit(c);
      DigitsSnoc(init, c, base);
      DigitsSnoc(Lower(init), LowerChar(c), base);
      assert s == init + [c];
    }
  }

  lemma {:induction false} DigitsSnoc(s: string, c: char, base: int)
    requires Base(base)
    ensures Digits(s + [c], base) <==> Digits(s, base) && DigitValue(c) < base
    ensures Value(s + [c], base) == Value(s, base) * base + DigitValue(c)
  {
    hide DigitValue;
    assert (s + [c])[..|s|] == s && (s + [c])[|s|] == c;
    assert forall i :: 0 <= i < |s| ==> (s + [c])[i] == s[i];
  }

  /** Zeros before a number change nothing. */
  lemma {:induction false} ZerosIgnored(z: nat, s: string, base: int)
    requires Base(base) && Digits(s, base)
    ensures Digits(Zeros(z) + s, base) && Value(Zeros(z) + s, base) == Value(s, base)
    decreases |s|, z
  {
    hide DigitValue;
    if s != [] {
      var init, c := s[..|s| - 1], s[|s| - 1];
      ZerosIgnored(z, init, base);
      DigitsSnoc(Zeros(z) + init, c, base);
      assert Zeros(z) + s == (Zeros(z) + init) + [c];
    } else if z > 0 {
      ZerosIgnored(z - 1, [], base);
      assert Zeros(z) + [] == (Zeros(z - 1) + []) + ['0'];
      DigitsSnoc(Zeros(z - 1) + [], '0', base);
      ZeroDigit();
    } else {
      assert Zeros(0) + s == s;
    }
  }

  lemma {:induction false} ZeroDigit()
    ensures DigitValue('0') == 0
  {
  }

  /** A text of digits is the shortest text of its number behind zeros. */
  lemma {:induction false} DigitsAreFormat(s: string, base: int)
    requires Base(base) && s != [] && Digits(s, base)
    ensures exists z: nat :: Lower(s) == Zeros(z) + Format(Value(s, base), base)
  {
    hide DigitValue, LowerChar, DigitChar;
    var init, c := s[..|s| - 1], s[|s| - 1];
    var d := DigitValue(c);
    LowerSnoc(s);
    LowerDigit(c);
    assert s == init + [c];
    DigitsSnoc(init, c, base);
    var v := Value(init, base);
    if init == [] {
      assert Lower(s) == Zeros(0) + [DigitChar(d)];
    } else {
      DigitsAreFormat(init, base);
      var z: nat :| Lower(init) == Zeros(z) + Format(v, base);
      if v == 0 {
        assert Lower(s) == Zeros(z + 1) + [DigitChar(d)] by {
          ZeroText(z, base);
        }
      } else {
        QuotientOf(v, d, base);
        assert Lower(s) == Zeros(z) + Format(v * base + d, base);
      }
    }
  }

  lemma {:induction false} QuotientOf(v: nat, d: nat, base: int)
    requires Base(base) && d < base && v > 0
    ensures v * base + d >= base && (v * base + d) / base == v && (v * base + d) % base == d
  {
  }

  lemma {:induction false} ZeroText(z: nat, base: int)
    requires Base(base)
    ensures Zeros(z) + Format(0, base) == Zeros(z + 1)
  {
  }

  /** A number is read from exactly the texts of it in either case, with any number of zeros before it. */
  lemma {:induction false} ParseExactly(s: string, base: int, max: nat, n: nat)
    requires Base(base)
    ensures ParseUint(s, base, max) == Some(n) <==>
            n <= max && exists z: nat :: Lower(s) == Zeros(z) + Format(n, base)
  {
    hide DigitValue, LowerChar, Value, Digits, Format;
    LowerValue(s, base);
    if ParseUint(s, base, max) == Some(n) {
      DigitsAreFormat(s, base);
    } else if n <= max && exists z: nat :: Lower(s) == Zeros(z) + Format(n, base) {
      var z: nat :| Lower(s) == Zeros(z) + Format(n, base);
      FormatPlain(n, base);
      FormatValue(n, base);
      ZerosIgnored(z, Format(n, base), base);
    }
  }
}
