/** Decimal numerals and joined lists of texts. */
module Text {

  function Digit(n: nat): char
    requires n < 10
  {
    "0123456789"[n]
  }

  function Decimal(n: nat): (text: string)
    ensures text != ""
  {
    if n < 10 then [Digit(n)] else Decimal(n / 10) + [Digit(n % 10)]
  }

  function Joined(parts: seq<string>, separator: char): string {
    if parts == [] then ""
    else if |parts| == 1 then parts[0]
    else parts[0] + [separator] + Joined(parts[1..], separator)
  }

  // --- Decimal numerals ----------------------------------------------------------------------

  lemma {:induction false} DigitsDiffer(m: nat, n: nat)
    requires m < 10 && n < 10 && Digit(m) == Digit(n)
    ensures m == n
  {
  }

  lemma {:induction false} OneDigit(n: nat)
    ensures |Decimal(n)| == 1 <==> n < 10
  {
  }

  lemma {:induction false} DecimalIsInjective(m: nat, n: nat)
    requires Decimal(m) == Decimal(n)
    ensures m == n
  {
    var s, t := Decimal(m), Decimal(n);
    OneDigit(m);
    OneDigit(n);
    assert s[..|s| - 1] == t[..|t| - 1] && s[|s| - 1] == t[|t| - 1];
    if m >= 10 {
      assert s[..|s| - 1] == Decimal(m / 10) && t[..|t| - 1] == Decimal(n / 10);
      DecimalIsInjective(m / 10, n / 10);
      DigitsDiffer(m % 10, n % 10);
    } else {
      DigitsDiffer(m, n);
    }
  }

  predicate IsDigit(c: char) {
    '0' <= c <= '9'
  }

  lemma {:induction false} DecimalHasDigits(n: nat)
    ensures forall k :: 0 <= k < |Decimal(n)| ==> IsDigit(Decimal(n)[k])
  {
    if n >= 10 {
      DecimalHasDigits(n / 10);
    }
  }

  // --- Reading numerals ------------------------------------------------------------------------

  /** Digits without a leading zero. */
  predicate IsNumeral(text: string) {
    text != "" && (forall k :: 0 <= k < |text| ==> IsDigit(text[k])) && (|text| > 1 ==> text[0] != '0')
  }

  function DigitOf(c: char): (d: nat)
    requires IsDigit(c)
    ensures d < 10
  {
    c as int - '0' as int
  }

  function ValueOf(text: string): nat
    requires forall k :: 0 <= k < |text| ==> IsDigit(text[k])
  {
    if text == "" then 0 else ValueOf(text[..|text| - 1]) * 10 + DigitOf(text[|text| - 1])
  }

  lemma {:induction false} DigitIsRead(c: char, n: nat)
    requires IsDigit(c) && n < 10
    ensures Digit(DigitOf(c)) == c && IsDigit(Digit(n)) && DigitOf(Digit(n)) == n
  {
  }

  /** A numeral is written and read back as the same number. */
  lemma {:induction false} DecimalIsRead(n: nat)
    ensures IsNumeral(Decimal(n)) && ValueOf(Decimal(n)) == n
  {
    DecimalHasDigits(n);
    DigitIsRead('0', n % 10);
    var text := Decimal(n);
    if n < 10 {
      assert text[..0] == "";
    } else {
      DecimalIsRead(n / 10);
      assert text[..|text| - 1] == Decimal(n / 10);
      LeadingDigit(n / 10);
    }
  }

  lemma {:induction false} LeadingDigit(n: nat)
    requires n > 0
    ensures Decimal(n)[0] != '0'
  {
    if n >= 10 {
      LeadingDigit(n / 10);
    }
  }

  lemma {:induction false} DecimalExtends(n: nat, digit: nat)
    requires n > 0 && digit < 10
    ensures Decimal(n * 10 + digit) == Decimal(n) + [Digit(digit)]
  {
    assert (n * 10 + digit) / 10 == n && (n * 10 + digit) % 10 == digit;
  }

  lemma {:induction false} OneDigitIsDecimal(c: char)
    requires IsDigit(c)
    ensures ValueOf([c]) == DigitOf(c) && Decimal(DigitOf(c)) == [c]
    ensures c != '0' ==> DigitOf(c) > 0
  {
    DigitIsRead(c, 0);
    assert [c][..0] == "";
  }

  /** Only numerals read as a number are that number's numeral. */
  lemma {:induction false} NumeralIsDecimal(text: string)
    requires IsNumeral(text)
    ensures Decimal(ValueOf(text)) == text
    ensures text[0] != '0' ==> ValueOf(text) > 0
  {
    hide Decimal, Digit, DigitOf;
    var last := |text| - 1;
    if last == 0 {
      OneDigitIsDecimal(text[0]);
      assert text == [text[0]];
    } else {
      var front := text[..last];
      NumeralIsDecimal(front);
      DecimalExtends(ValueOf(front), DigitOf(text[last]));
      DigitIsRead(text[last], 0);
      assert text == front + [text[last]];
    }
  }

  // --- Joining -------------------------------------------------------------------------------------

  predicate Free(parts: seq<string>, c: char) {
    forall i :: 0 <= i < |parts| ==> c !in parts[i]
  }

  function IndexOf(s: string, c: char): nat {
    if s == "" || s[0] == c then 0 else 1 + IndexOf(s[1..], c)
  }

  lemma {:induction false} FirstSeparator(a: string, x: string, c: char)
    requires c !in a
    ensures IndexOf(a + [c] + x, c) == |a|
  {
    if a != "" {
      assert (a + [c] + x)[1..] == a[1..] + [c] + x;
      FirstSeparator(a[1..], x, c);
    }
  }

  /** The text in front of the first separator is the first part. */
  lemma {:induction false} FirstPart(a: string, b: string, x: string, y: string, c: char)
    requires c !in a && c !in b && a + [c] + x == b + [c] + y
    ensures a == b && x == y
  {
    var s := a + [c] + x;
    FirstSeparator(a, x, c);
    FirstSeparator(b, y, c);
    assert a == s[..|a|] && b == s[..|b|];
    assert x == s[|a| + 1..] && y == s[|b| + 1..];
  }

  lemma {:induction false} NoSeparator(a: string, b: string, y: string, c: char)
    requires c !in a
    ensures a != b + [c] + y
  {
    assert (b + [c] + y)[|b|] == c;
  }

  /** Lists of the same texts without the separator, and only those, join to the same text. */
  lemma {:induction false} JoinedIsInjective(xs: seq<string>, ys: seq<string>, c: char)
    requires xs != [] && ys != [] && Free(xs, c) && Free(ys, c)
    requires Joined(xs, c) == Joined(ys, c)
    ensures xs == ys
  {
    assert c !in xs[0] && c !in ys[0];
    if |xs| == 1 {
      if |ys| > 1 {
        NoSeparator(xs[0], ys[0], Joined(ys[1..], c), c);
      }
    } else if |ys| == 1 {
      NoSeparator(ys[0], xs[0], Joined(xs[1..], c), c);
    } else {
      FirstPart(xs[0], ys[0], Joined(xs[1..], c), Joined(ys[1..], c), c);
      JoinedIsInjective(xs[1..], ys[1..], c);
      assert xs == [xs[0]] + xs[1..] && ys == [ys[0]] + ys[1..];
    }
  }

  /** Joining a list to another puts one separator between. */
  lemma {:induction false} JoinedAppends(xs: seq<string>, ys: seq<string>, separator: char)
    requires xs != [] && ys != []
    ensures Joined(xs + ys, separator) == Joined(xs, separator) + [separator] + Joined(ys, separator)
  {
    if |xs| == 1 {
      assert (xs + ys)[1..] == ys;
    } else {
      assert (xs + ys)[1..] == xs[1..] + ys;
      JoinedAppends(xs[1..], ys, separator);
    }
  }
}
