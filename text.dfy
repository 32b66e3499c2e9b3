/**
  Decimal rendering as `snprintf("%d")` produces it, and the size-bounded
  formatting into a `char[MAX_STR]` buffer.
*/
module Text {
  import opened Types

  function DigitChar(d: nat): (c: char)
    requires d < 10
    ensures '0' <= c <= '9'
  {
    ['0', '1', '2', '3', '4', '5', '6', '7', '8', '9'][d]
  }

  function DigitValue(c: char): (d: nat)
    requires '0' <= c <= '9'
    ensures d < 10
  {
    c as int - '0' as int
  }

  predicate AllDigits(s: string)
  {
    forall i :: 0 <= i < |s| ==> '0' <= s[i] <= '9'
  }

  /** The decimal text of a non-negative number, most significant digit first, no leading zero. */
  function Decimal(n: nat): (s: string)
    ensures 1 <= |s|
    ensures AllDigits(s)
    ensures n < 10 <==> |s| == 1
    ensures n < 1000 ==> |s| <= 3
    ensures |s| == 1 || s[0] != '0'
    decreases n
  {
    if n < 10 then [DigitChar(n)] else Decimal(n / 10) + [DigitChar(n % 10)]
  }

  /** Reads a string of digits back as a number. */
  function ParseDecimal(s: string): nat
    requires AllDigits(s)
  {
    if s == [] then 0 else ParseDecimal(s[..|s| - 1]) * 10 + DigitValue(s[|s| - 1])
  }

  /** Rendering then reading gives the number back. */
  lemma {:induction false} DecimalRoundTrip(n: nat)
    ensures ParseDecimal(Decimal(n)) == n
    decreases n
  {
    var s := Decimal(n);
    if n < 10 {
      assert s[..0] == [];
    } else {
      var d := DigitChar(n % 10);
      assert s == Decimal(n / 10) + [d];
      assert s[..|s| - 1] == Decimal(n / 10) && s[|s| - 1] == d;
      assert DigitValue(d) == n % 10;
      DecimalRoundTrip(n / 10);
      assert ParseDecimal(s) == (n / 10) * 10 + n % 10;
    }
  }

  /** Fixed-size formatting: `snprintf(buf, MAX_STR, ...)` keeps at most MAX_STR - 1 characters. */
  function Bounded(s: string): (r: string)
    ensures |r| <= MAX_STR - 1
    ensures |r| <= |s| && r == s[..|r|]
    ensures |s| <= MAX_STR - 1 ==> r == s
    ensures |s| > MAX_STR - 1 ==> |r| == MAX_STR - 1
  {
    if |s| <= MAX_STR - 1 then s else s[..MAX_STR - 1]
  }

  /** A message made of a label and a byte value: "HR:%d", "SpO2:%d", "Bat:%d". */
  function Labelled(tag: string, n: u8): (r: string)
    requires |tag| <= 5
    ensures r == tag + Decimal(n)
    ensures |r| <= MAX_STR - 1
  {
    Bounded(tag + Decimal(n))
  }

  /** The number in a labelled message reads back as the value it was made from. */
  lemma LabelledRoundTrip(tag: string, n: u8)
    requires |tag| <= 5
    ensures var r := Labelled(tag, n);
      r[..|tag|] == tag && AllDigits(r[|tag|..]) && ParseDecimal(r[|tag|..]) == n
  {
    var r := Labelled(tag, n);
    assert r[|tag|..] == Decimal(n);
    DecimalRoundTrip(n);
  }
}
