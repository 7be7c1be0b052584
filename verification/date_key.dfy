/**
 The date keys of the `"Time Series (Daily)"` object, `YYYY-MM-DD`. The sort
 compares them as strings; because every key has the same width and the
 same separators, the string order is the order of the days they name.
 */
module DateKeys {
  import opened CppString

  predicate IsDigit(c: char) {
    '0' <= c <= '9'
  }

  function DigitValue(c: char): (n: nat)
    requires IsDigit(c)
    ensures n <= 9
  {
    c as int - '0' as int
  }

  predicate AllDigits(s: string) {
    forall k :: 0 <= k < |s| ==> IsDigit(s[k])
  }

  function Pow10(n: nat): (r: nat)
    ensures r > 0
  {
    if n == 0 then 1 else 10 * Pow10(n - 1)
  }

  /** The decimal value of a string of digits, most significant digit first. */
  function Num(s: string): (r: nat)
    requires AllDigits(s)
    ensures r < Pow10(|s|)
  {
    if |s| == 0 then 0
    else
      var p := Pow10(|s| - 1);
      var rest := Num(s[1..]);
      MulMonotone(DigitValue(s[0]), 9, p);
      DigitValue(s[0]) * p + rest
  }

  lemma MulMonotone(a: nat, b: nat, p: nat)
    requires a <= b
    ensures a * p <= b * p
  {
  }

  /** A smaller leading digit makes a smaller number, whatever follows. */
  lemma LeadingDigitDecides(dx: nat, dy: nat, p: nat, rx: nat, ry: nat)
    requires dx < dy && rx < p && ry < p
    ensures dx * p + rx < dy * p + ry
  {
    MulMonotone(dx + 1, dy, p);
  }

  /** Digit strings of the same length compare as strings exactly as their
      values compare, and are equal exactly when their values are. */
  lemma {:induction false} DigitsCompareAsNumbers(x: string, y: string)
    requires AllDigits(x) && AllDigits(y) && |x| == |y|
    ensures Less(x, y) <==> Num(x) < Num(y)
    ensures x == y <==> Num(x) == Num(y)
  {
    if |x| > 0 {
      var p := Pow10(|x| - 1);
      var x', y' := x[1..], y[1..];
      DigitsCompareAsNumbers(x', y');
      var dx, dy := DigitValue(x[0]), DigitValue(y[0]);
      assert Num(x) == dx * p + Num(x') && Num(y) == dy * p + Num(y');
      if dx < dy {
        LeadingDigitDecides(dx, dy, p, Num(x'), Num(y'));
      } else if dy < dx {
        LeadingDigitDecides(dy, dx, p, Num(y'), Num(x'));
      } else {
        assert x[0] == y[0];
        assert x == [x[0]] + x' && y == [y[0]] + y';
      }
    }
  }

  /** A `"Time Series (Daily)"` key: four digits, `'-'`, two digits, `'-'`,
      two digits. */
  predicate DateKey(s: string) {
    && |s| == 10 && s[4] == '-' && s[7] == '-'
    && AllDigits(s[..4]) && AllDigits(s[5..7]) && AllDigits(s[8..])
  }

  function Year(s: string): nat
    requires DateKey(s)
  {
    Num(s[..4])
  }

  function Month(s: string): (m: nat)
    requires DateKey(s)
    ensures m < 100
  {
    Num(s[5..7])
  }

  function Day(s: string): (d: nat)
    requires DateKey(s)
    ensures d < 100
  {
    Num(s[8..])
  }

  /** The eight digits of the key read as one number, `yyyymmdd`. */
  function Ymd(s: string): nat
    requires DateKey(s)
  {
    Year(s) * 10000 + Month(s) * 100 + Day(s)
  }

  /** The day named by `a` comes before the day named by `b`: an earlier
      year, or the same year and an earlier month, or the same month and an
      earlier day. */
  predicate Earlier(a: string, b: string)
    requires DateKey(a) && DateKey(b)
  {
    || Year(a) < Year(b)
    || (Year(a) == Year(b) && Month(a) < Month(b))
    || (Year(a) == Year(b) && Month(a) == Month(b) && Day(a) < Day(b))
  }

  /** The string order of two date keys is the order of their days, and of
      their `yyyymmdd` values. */
  lemma LaterDayIsGreater(a: string, b: string)
    requires DateKey(a) && DateKey(b)
    ensures Less(a, b) <==> Earlier(a, b)
    ensures Less(a, b) <==> Ymd(a) < Ymd(b)
  {
    assert a == a[..4] + a[4..] && b == b[..4] + b[4..];
    LessConcat(a[..4], b[..4], a[4..], b[4..]);
    assert a[4..] == [a[4]] + a[5..] && b[4..] == [b[4]] + b[5..];
    LessSkipsCommonHead('-', a[5..], b[5..]);
    assert a[5..] == a[5..7] + a[7..] && b[5..] == b[5..7] + b[7..];
    LessConcat(a[5..7], b[5..7], a[7..], b[7..]);
    assert a[7..] == [a[7]] + a[8..] && b[7..] == [b[7]] + b[8..];
    LessSkipsCommonHead('-', a[8..], b[8..]);
    DigitsCompareAsNumbers(a[..4], b[..4]);
    DigitsCompareAsNumbers(a[5..7], b[5..7]);
    DigitsCompareAsNumbers(a[8..], b[8..]);
  }

  /** Three literal pairs, one across a year boundary, compare as their days
      do. */
  lemma ExampleDates()
    ensures Less("2024-01-03", "2024-01-04")
    ensures Less("2024-01-04", "2024-01-05")
    ensures Less("2023-12-31", "2024-01-02")
  {
  }
}
