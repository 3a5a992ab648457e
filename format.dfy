/**
 * The text the dashboard shows for the integer columns of a voyage:
 * `str(x)`, `format(x, ",")` (comma thousands separators) and the
 * price string `"${}/MT".format(x)`.
 */
module Format {

  predicate IsDigit(c: char) {
    '0' <= c <= '9'
  }

  predicate AllDigits(s: string) {
    forall k :: 0 <= k < |s| ==> IsDigit(s[k])
  }

  predicate NoCommas(s: string) {
    forall k :: 0 <= k < |s| ==> s[k] != ','
  }

  function DigitChar(d: nat): (c: char)
    requires d < 10
    ensures IsDigit(c) && DigitValue(c) == d
  {
    ('0' as int + d) as char
  }

  function DigitValue(c: char): (d: nat)
    requires IsDigit(c)
  {
    c as int - '0' as int
  }

  /** The number a string of decimal digits denotes, most significant digit first. */
  function ValueOf(s: string): (n: nat)
    requires AllDigits(s)
  {
    if s == [] then 0 else 10 * ValueOf(s[..|s| - 1]) + DigitValue(s[|s| - 1])
  }

  /** Python's `str(n)` for a natural number. */
  function Decimal(n: nat): (s: string)
    ensures 1 <= |s| && AllDigits(s) && NoCommas(s)
    ensures (|s| == 1) == (n < 10)
    ensures n != 0 ==> s[0] != '0'
  {
    if n < 10 then [DigitChar(n)] else Decimal(n / 10) + [DigitChar(n % 10)]
  }

  lemma {:induction false} DecimalRoundTrip(n: nat)
    ensures ValueOf(Decimal(n)) == n
  {
    var s := Decimal(n);
    if n < 10 {
      assert s[..|s| - 1] == [];
    } else {
      assert s[..|s| - 1] == Decimal(n / 10);
      DecimalRoundTrip(n / 10);
    }
  }

  /** Python's `str(x)` for an integer. */
  function IntText(x: int): (s: string)
    ensures x >= 0 ==> AllDigits(s) && ValueOf(s) == x
    ensures x < 0 ==> |s| >= 2 && s[0] == '-' && AllDigits(s[1..]) && ValueOf(s[1..]) == -x
  {
    DecimalRoundTrip(if x < 0 then -x else x);
    if x < 0 then
      var s := "-" + Decimal(-x);
      assert s[1..] == Decimal(-x);
      s
    else Decimal(x)
  }

  /** The three zero-padded digits of a group below a thousand. */
  function Pad3(m: nat): (s: string)
    requires m < 1000
    ensures |s| == 3 && AllDigits(s) && NoCommas(s)
  {
    [DigitChar(m / 10 / 10), DigitChar(m / 10 % 10), DigitChar(m % 10)]
  }

  /** `format(n, ",")` for a natural number: groups of three digits from the right. */
  function Grouped(n: nat): (s: string)
    ensures 1 <= |s| && IsDigit(s[0])
  {
    if n < 1000 then Decimal(n) else Grouped(n / 1000) + "," + Pad3(n % 1000)
  }

  /** `format(x, ",")` for an integer (app.py:344 applies it to miles and consumption). */
  function Thousands(x: int): (s: string)
    ensures 1 <= |s| && (s[0] == '-' || IsDigit(s[0]))
    ensures s[0] == '-' <==> x < 0
  {
    if x < 0 then "-" + Grouped(-x) else Grouped(x)
  }

  /** `"${}/MT".format(p)`, the bunker price text. */
  function PriceText(p: int): (s: string)
  {
    "$" + IntText(p) + "/MT"
  }

  /** The string with every comma deleted. */
  function StripCommas(s: string): (r: string)
  {
    if s == [] then []
    else StripCommas(s[..|s| - 1]) + (if s[|s| - 1] == ',' then [] else [s[|s| - 1]])
  }

  /** Python's `s.split(",")`: the pieces between commas, empty pieces included. */
  function Split(s: string): (g: seq<string>)
    ensures |g| >= 1
  {
    if s == [] then [[]]
    else
      var init := Split(s[..|s| - 1]);
      if s[|s| - 1] == ',' then init + [[]]
      else init[..|init| - 1] + [init[|init| - 1] + [s[|s| - 1]]]
  }

  /**
   * The shape `format(n, ",")` gives a non-negative number: digit groups
   * between the commas, one to three digits in the first and exactly three
   * in every later one.
   */
  predicate CommaGroups(s: string) {
    var g := Split(s);
    && 1 <= |g[0]| <= 3
    && (forall k :: 1 <= k < |g| ==> |g[k]| == 3)
    && (forall k :: 0 <= k < |g| ==> AllDigits(g[k]))
  }

  // ---------------------------------------------------------------------
  // Splitting and stripping commas

  lemma {:induction false} StripCommasConcat(a: string, b: string)
    ensures StripCommas(a + b) == StripCommas(a) + StripCommas(b)
    decreases |b|
  {
    if b == [] {
      assert a + b == a;
    } else {
      assert (a + b)[..|a + b| - 1] == a + b[..|b| - 1];
      StripCommasConcat(a, b[..|b| - 1]);
    }
  }

  lemma {:induction false} StripCommasNoCommas(s: string)
    requires NoCommas(s)
    ensures StripCommas(s) == s
  {
    if s != [] {
      StripCommasNoCommas(s[..|s| - 1]);
    }
  }

  lemma {:induction false} SplitNoCommas(s: string)
    requires NoCommas(s)
    ensures Split(s) == [s]
  {
    if s != [] {
      SplitNoCommas(s[..|s| - 1]);
      assert s[..|s| - 1] + [s[|s| - 1]] == s;
    }
  }

  lemma {:induction false} SplitAtComma(a: string, p: string)
    requires NoCommas(p)
    ensures Split(a + [','] + p) == Split(a) + [p]
    decreases |p|
  {
    var s := a + [','] + p;
    if p == [] {
      assert s[..|s| - 1] == a;
    } else {
      assert s[..|s| - 1] == a + [','] + p[..|p| - 1];
      SplitAtComma(a, p[..|p| - 1]);
      assert p[..|p| - 1] + [p[|p| - 1]] == p;
    }
  }

  // ---------------------------------------------------------------------
  // Properties of the thousands separator

  lemma DivMod10(n: int, a: int, b: int)
    requires 0 <= b < 10 && n == 10 * a + b
    ensures n / 10 == a && n % 10 == b
  {
  }

  /** The digits of n are those of n / 1000 followed by the three of n % 1000. */
  lemma DecimalAtThousands(n: nat)
    requires n >= 1000
    ensures Decimal(n) == Decimal(n / 1000) + Pad3(n % 1000)
  {
    var q, m := n / 1000, n % 1000;
    DivMod10(n, 100 * q + m / 10, m % 10);
    DivMod10(n / 10, 10 * q + m / 10 / 10, m / 10 % 10);
    DivMod10(n / 10 / 10, q, m / 10 / 10);
    assert Decimal(n) == Decimal(n / 10) + [DigitChar(m % 10)];
    assert Decimal(n / 10) == Decimal(n / 10 / 10) + [DigitChar(m / 10 % 10)];
    assert Decimal(n / 10 / 10) == Decimal(q) + [DigitChar(m / 10 / 10)];
  }

  /** Deleting the commas from `format(n, ",")` gives `str(n)`. */
  lemma {:induction false} GroupedDigits(n: nat)
    ensures StripCommas(Grouped(n)) == Decimal(n)
  {
    if n < 1000 {
      StripCommasNoCommas(Decimal(n));
    } else {
      GroupedDigits(n / 1000);
      StripCommasAtComma(Grouped(n / 1000), Pad3(n % 1000));
      DecimalAtThousands(n);
    }
  }

  lemma StripCommasAtComma(head: string, tail: string)
    requires NoCommas(tail)
    ensures StripCommas(head + [','] + tail) == StripCommas(head) + tail
  {
    var withComma := head + [','];
    StripCommasConcat(withComma, tail);
    StripCommasConcat(head, [',']);
    StripCommasComma();
    StripCommasNoCommas(tail);
  }

  lemma StripCommasComma()
    ensures StripCommas([',']) == []
  {
    assert [','][..0] == [];
  }

  /**
   * The comma-separated groups of `format(n, ",")`: the first has one to
   * three digits and every later one exactly three.
   */
  lemma {:induction false} GroupedGroups(n: nat)
    ensures CommaGroups(Grouped(n))
  {
    if n < 1000 {
      SplitNoCommas(Decimal(n));
      ShortDecimal(n);
    } else {
      var q, m := n / 1000, n % 1000;
      assert Grouped(n) == Grouped(q) + [','] + Pad3(m);
      GroupedGroups(q);
      SplitAtComma(Grouped(q), Pad3(m));
    }
  }

  lemma ShortDecimal(n: nat)
    requires n < 1000
    ensures |Decimal(n)| <= 3
  {
    if n >= 10 {
      assert Decimal(n) == Decimal(n / 10) + [DigitChar(n % 10)];
      if n >= 100 {
        assert Decimal(n / 10) == Decimal(n / 10 / 10) + [DigitChar(n / 10 % 10)];
      }
    }
  }

  /** `format(x, ",")` with its commas deleted is `str(x)`, for negative x too. */
  lemma ThousandsDigits(x: int)
    ensures StripCommas(Thousands(x)) == IntText(x)
  {
    if x < 0 {
      var n: nat := -x;
      GroupedDigits(n);
      StripCommasConcat(['-'], Grouped(n));
      StripCommasNoCommas(['-']);
      calc {
        StripCommas(Thousands(x));
        StripCommas(['-'] + Grouped(n));
        StripCommas(['-']) + StripCommas(Grouped(n));
        ['-'] + Decimal(n);
        IntText(x);
      }
    } else {
      GroupedDigits(x);
      assert Thousands(x) == Grouped(x) && IntText(x) == Decimal(x);
    }
  }

  /** `format(x, ",")` is comma-grouped, behind a '-' when x is negative. */
  lemma ThousandsGroups(x: int)
    ensures x >= 0 ==> CommaGroups(Thousands(x))
    ensures x < 0 ==> CommaGroups(Thousands(x)[1..])
  {
    if x < 0 {
      GroupedGroups(-x);
      assert Thousands(x)[1..] == Grouped(-x);
    } else {
      GroupedGroups(x);
    }
  }

  /** The price text reads back as the price: "$", its digits, then "/MT". */
  lemma PriceTextRoundTrip(p: nat)
    ensures var s := PriceText(p);
      && |s| >= 5 && s[0] == '$' && s[|s| - 3..] == "/MT"
      && AllDigits(s[1..|s| - 3]) && ValueOf(s[1..|s| - 3]) == p
  {
    var s := PriceText(p);
    assert s[1..|s| - 3] == Decimal(p);
    DecimalRoundTrip(p);
  }

  lemma ThousandsExamples()
    ensures Thousands(8531) == "8,531"
    ensures Thousands(1800) == "1,800"
    ensures Thousands(638) == "638"
  {
    assert Pad3(531) == "531";
    assert Pad3(800) == "800";
    assert Decimal(63) == "63";
  }

  lemma ThousandsLargeExamples()
    ensures Thousands(18088) == "18,088"
  {
    assert Decimal(18) == "18";
    assert Pad3(88) == "088";
    assert Grouped(18088) == Grouped(18) + "," + Pad3(88);
  }

  lemma PriceTextExamples()
    ensures PriceText(425) == "$425/MT"
    ensures PriceText(390) == "$390/MT"
  {
    assert Decimal(42) == "42";
    assert Decimal(39) == "39";
  }
}
