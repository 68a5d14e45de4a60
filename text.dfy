/**
 * The few string operations the server relies on: the elements of
 * JavaScript's `String.prototype.split` that the handlers read, and the
 * decimal rendering of a number inside a template literal.
 */
module Text {
  import opened Wrappers

  /** Element 0 of `s.split(sep)`: everything before the first `sep`, or all of `s`. */
  function FirstField(s: string, sep: char): (r: string)
    ensures r <= s
    ensures sep !in r
    ensures |r| < |s| ==> s[|r|] == sep
  {
    if |s| == 0 || s[0] == sep then "" else [s[0]] + FirstField(s[1..], sep)
  }

  /** The last element of `s.split(sep)`: everything after the last `sep`, or all of `s`. */
  function LastField(s: string, sep: char): (r: string)
    ensures |r| <= |s| && r == s[|s| - |r|..]
    ensures sep !in r
    ensures |r| < |s| ==> s[|s| - |r| - 1] == sep
  {
    if |s| == 0 || s[|s| - 1] == sep then ""
    else
      var init := LastField(s[..|s| - 1], sep);
      LastFieldGrows(s, sep, init);
      init + [s[|s| - 1]]
  }

  /** Extending a string by a non-separator extends its last field by that character. */
  lemma LastFieldGrows(s: string, sep: char, init: string)
    requires |s| > 0 && s[|s| - 1] != sep
    requires |init| < |s| && init == s[..|s| - 1][|s| - 1 - |init|..]
    requires sep !in init
    requires |init| < |s| - 1 ==> s[|s| - 2 - |init|] == sep
    ensures var r := init + [s[|s| - 1]];
      && |r| <= |s| && r == s[|s| - |r|..]
      && sep !in r
      && (|r| < |s| ==> s[|s| - |r| - 1] == sep)
  {
    var start := |s| - 1 - |init|;
    assert s[start..] == s[..|s| - 1][start..] + [s[|s| - 1]];
  }

  /** Element 1 of `s.split(sep)`; `None` where JavaScript yields `undefined` (no `sep` in `s`). */
  function SecondField(s: string, sep: char): (r: Option<string>)
    ensures r.None? <==> sep !in s
    ensures r.Some? ==> FirstField(s, sep) + [sep] + r.value <= s && sep !in r.value
    ensures r.Some? && |FirstField(s, sep)| + 1 + |r.value| < |s| ==> s[|FirstField(s, sep)| + 1 + |r.value|] == sep
  {
    var head := FirstField(s, sep);
    if |head| == |s| then None
    else
      var rest := FirstField(s[|head| + 1..], sep);
      assert s == head + [sep] + s[|head| + 1..];
      Some(rest)
  }

  /** Splitting a joined string on a separator absent from the left part gives that part back. */
  lemma {:induction false} FirstFieldOfJoin(a: string, sep: char, b: string)
    requires sep !in a
    ensures FirstField(a + [sep] + b, sep) == a
  {
    if |a| > 0 {
      assert (a + [sep] + b)[1..] == a[1..] + [sep] + b;
      FirstFieldOfJoin(a[1..], sep, b);
    }
  }

  /** Splitting a joined string whose left part holds the separator stops inside that part. */
  lemma {:induction false} FirstFieldOfJoinTruncates(a: string, sep: char, b: string)
    requires sep in a
    ensures FirstField(a + [sep] + b, sep) < a
  {
    if a[0] != sep {
      assert (a + [sep] + b)[1..] == a[1..] + [sep] + b;
      FirstFieldOfJoinTruncates(a[1..], sep, b);
      assert a == [a[0]] + a[1..];
    }
  }

  /** The basename after the last separator is the right part, when that part has no separator. */
  lemma {:induction false} LastFieldOfJoin(a: string, sep: char, b: string)
    requires sep !in b
    ensures LastField(a + [sep] + b, sep) == b
  {
    var s := a + [sep] + b;
    if |b| > 0 {
      assert s[..|s| - 1] == a + [sep] + b[..|b| - 1];
      LastFieldOfJoin(a, sep, b[..|b| - 1]);
      assert b == b[..|b| - 1] + [b[|b| - 1]];
    }
  }

  /** Element 1 of the split of a joined string, when the left part has no separator. */
  lemma SecondFieldOfJoin(a: string, sep: char, b: string)
    requires sep !in a
    ensures SecondField(a + [sep] + b, sep) == Some(FirstField(b, sep))
  {
    var s := a + [sep] + b;
    FirstFieldOfJoin(a, sep, b);
    assert s[|a| + 1..] == b;
  }

  predicate IsDigit(c: char) { '0' <= c <= '9' }

  predicate IsDigits(s: string) { forall i :: 0 <= i < |s| ==> IsDigit(s[i]) }

  function DigitChar(d: nat): (c: char)
    requires d < 10
    ensures IsDigit(c) && c as int - '0' as int == d
  {
    (d + '0' as int) as char
  }

  /** `${n}` for a non-negative integer: decimal digits without leading zeros. */
  function Decimal(n: nat): (s: string)
    ensures |s| >= 1 && IsDigits(s)
    ensures s[0] == '0' <==> n == 0
  {
    if n < 10 then [DigitChar(n)] else Decimal(n / 10) + [DigitChar(n % 10)]
  }

  /** The value of a string of decimal digits (the reference reading of `Decimal`). */
  function DecimalValue(s: string): nat
    requires IsDigits(s)
  {
    if |s| == 0 then 0 else DecimalValue(s[..|s| - 1]) * 10 + (s[|s| - 1] as int - '0' as int)
  }

  lemma {:induction false} DecimalRoundTrip(n: nat)
    ensures DecimalValue(Decimal(n)) == n
  {
    if n >= 10 {
      var s := Decimal(n);
      assert s[..|s| - 1] == Decimal(n / 10);
      DecimalRoundTrip(n / 10);
    }
  }

  lemma DecimalInjective(n: nat, m: nat)
    ensures Decimal(n) == Decimal(m) ==> n == m
  {
    DecimalRoundTrip(n);
    DecimalRoundTrip(m);
  }
}
