/** Unsigned decimal numbers as text: printing, and parsing as a 64-bit unsigned integer. */
module Decimal {
  import opened Data

  const U64_LIMIT: nat := 0x1_0000_0000_0000_0000

  predicate IsDigit(c: char) {
    '0' <= c <= '9'
  }

  function DigitChar(d: nat): (c: char)
    requires d < 10
    ensures IsDigit(c) && (c as int) - ('0' as int) == d
  {
    ['0', '1', '2', '3', '4', '5', '6', '7', '8', '9'][d]
  }

  function Print(n: nat): (s: string)
    ensures s != [] && forall i | 0 <= i < |s| :: IsDigit(s[i])
  {
    if n < 10 then [DigitChar(n)] else Print(n / 10) + [DigitChar(n % 10)]
  }

  /** The number that a string of digits denotes. */
  function Digits(s: string): Option<nat> {
    if s == [] then Some(0)
    else
      var c := s[|s| - 1];
      var high := Digits(s[..|s| - 1]);
      if high.None? || !IsDigit(c) then None else Some(high.value * 10 + (c as int - '0' as int))
  }

  /** An optional plus sign, at least one digit, and a value below 2^64. */
  function ParseU64(s: string): Option<nat> {
    var body := if s != [] && s[0] == '+' then s[1..] else s;
    if body == [] then None
    else match Digits(body)
      case None => None
      case Some(n) => if n < U64_LIMIT then Some(n) else None
  }

  lemma {:induction false} DigitsOfPrint(n: nat)
    ensures Digits(Print(n)) == Some(n)
  {
    if n < 10 {
      assert Print(n)[..0] == [];
    } else {
      DigitsOfPrint(n / 10);
      assert Print(n)[..|Print(n)| - 1] == Print(n / 10);
    }
  }

  lemma ParseOfPrint(n: nat)
    ensures ParseU64(Print(n)) == if n < U64_LIMIT then Some(n) else None
  {
    DigitsOfPrint(n);
    assert IsDigit(Print(n)[0]);
  }

  // ---------------------------------------------------------------- what digits mean

  function Pow10(k: nat): nat {
    if k == 0 then 1 else 10 * Pow10(k - 1)
  }

  predicate AllDigits(s: string) {
    forall i | 0 <= i < |s| :: IsDigit(s[i])
  }

  /** The sum of the digits, each times the power of ten of its place. */
  function Positional(s: string): nat
    requires AllDigits(s)
  {
    if s == [] then 0 else (s[0] as int - '0' as int) * Pow10(|s| - 1) + Positional(s[1..])
  }

  lemma {:induction false} PositionalAppend(s: string, d: char)
    requires AllDigits(s) && IsDigit(d)
    ensures Positional(s + [d]) == 10 * Positional(s) + (d as int - '0' as int)
  {
    if s == [] {
      assert [d][1..] == [] && Pow10(0) == 1;
    } else {
      PositionalAppend(s[1..], d);
      assert (s + [d])[1..] == s[1..] + [d];
      var digit, p := s[0] as int - '0' as int, Pow10(|s| - 1);
      assert Pow10(|s|) == 10 * p;
      assert digit * (10 * p) == 10 * (digit * p);
    }
  }

  /** Reading digits from the front is the sum over their places. */
  lemma {:induction false} DigitsArePositional(s: string)
    ensures Digits(s) == if AllDigits(s) then Some(Positional(s)) else None
  {
    if s != [] {
      var front, d := s[..|s| - 1], s[|s| - 1];
      assert s == front + [d];
      DigitsArePositional(front);
      if AllDigits(s) {
        PositionalAppend(front, d);
      }
    }
  }

  /** A text is a 64-bit number exactly if it is digits, at least one, perhaps after a plus sign, and not too large. */
  lemma ParseU64Iff(s: string, n: nat)
    ensures var body := if s != [] && s[0] == '+' then s[1..] else s;
      ParseU64(s) == Some(n)
      <==> body != [] && AllDigits(body) && Positional(body) == n && n <= 18446744073709551615
  {
    DigitsArePositional(if s != [] && s[0] == '+' then s[1..] else s);
  }

  /** Numbers are printed without leading zeros. */
  lemma {:induction false} PrintIsCanonical(n: nat)
    ensures |Print(n)| == 1 || Print(n)[0] != '0'
  {
    if n >= 10 {
      PrintIsCanonical(n / 10);
      if |Print(n / 10)| == 1 {
        assert n / 10 < 10;
      }
    }
  }

  lemma NotShorter(p: string, q: string, sep: char, a: string, b: string)
    requires !IsDigit(sep) && forall i | 0 <= i < |q| :: IsDigit(q[i])
    requires p + [sep] + a == q + [sep] + b
    ensures |p| >= |q|
  {
    assert (p + [sep] + a)[|p|] == sep;
  }

  /** A printed number followed by a character that is not a digit determines both parts. */
  lemma PrefixInjective(m: nat, n: nat, sep: char, a: string, b: string)
    requires !IsDigit(sep)
    requires Print(m) + [sep] + a == Print(n) + [sep] + b
    ensures m == n && a == b
  {
    NotShorter(Print(m), Print(n), sep, a, b);
    NotShorter(Print(n), Print(m), sep, b, a);
    var x, y, i := Print(m) + [sep] + a, Print(n) + [sep] + b, |Print(m)|;
    assert Print(m) == x[..i] && Print(n) == y[..i];
    DigitsOfPrint(m);
    DigitsOfPrint(n);
    assert a == x[i + 1..] && b == y[i + 1..];
  }
}
