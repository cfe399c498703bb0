/**
 * Python's text form of integers: `str(n)`, used to build the node resource
 * name `node_<id>`, and `int(token)`, used to read the two endpoints of an
 * edge line. Only ASCII digits are modelled. Both conversions obey CPython's
 * default `sys.int_max_str_digits` of 4300 decimal digits.
 */
module IntText {
  import opened Wrappers

  predicate IsDigit(c: char) {
    '0' <= c <= '9'
  }

  function DigitValue(c: char): nat
    requires IsDigit(c)
  {
    (c as int) - ('0' as int)
  }

  function DigitChar(d: nat): (c: char)
    requires d < 10
    ensures IsDigit(c) && DigitValue(c) == d
  {
    ('0' as int + d) as char
  }

  /** The decimal digits of a non-negative integer, without leading zeros. */
  function Digits(n: nat): (s: string)
    ensures |s| >= 1
    ensures forall i :: 0 <= i < |s| ==> IsDigit(s[i])
    ensures |s| > 1 ==> s[0] != '0'
  {
    if n < 10 then [DigitChar(n)] else Digits(n / 10) + [DigitChar(n % 10)]
  }

  /** `str(n)` for a Python int. */
  function Decimal(n: int): string
  {
    if n < 0 then "-" + Digits(-n) else Digits(n)
  }

  /** `abs(n)` */
  function Magnitude(n: int): nat {
    if n < 0 then -n else n
  }

  /** The default `sys.int_max_str_digits`: `int()` of a decimal text with
      more digits, and `str()` of an integer with more digits, raise
      ValueError. */
  const MaxStrDigits := 4300

  /** `str(n)` does not raise: `n` has at most `MaxStrDigits` digits. */
  predicate WithinStrLimit(n: int) {
    |Digits(Magnitude(n))| <= MaxStrDigits
  }

  /** The number of digits in `s`; signs and underscores do not count. */
  function DigitCount(s: string): (k: nat)
    ensures k <= |s|
  {
    if s == [] then 0
    else DigitCount(s[..|s| - 1]) + (if IsDigit(s[|s| - 1]) then 1 else 0)
  }

  /** `10 ** k` */
  function Pow10(k: nat): (p: nat)
    ensures p >= 1
  {
    if k == 0 then 1 else 10 * Pow10(k - 1)
  }

  /** A digit string as `int()` accepts it in base 10: digits, with single
      underscores allowed between two digits. */
  predicate DigitRun(s: string) {
    && |s| >= 1
    && IsDigit(s[0])
    && IsDigit(s[|s| - 1])
    && DigitsOrUnderscores(s)
    && forall i :: 0 <= i < |s| - 1 && s[i] == '_' ==> IsDigit(s[i + 1])
  }

  predicate DigitsOrUnderscores(s: string) {
    forall i :: 0 <= i < |s| ==> IsDigit(s[i]) || s[i] == '_'
  }

  /** The value of a string of digits and underscores; underscores are skipped. */
  function RunValue(s: string): nat
    requires DigitsOrUnderscores(s)
  {
    if s == [] then 0
    else if s[|s| - 1] == '_' then RunValue(s[..|s| - 1])
    else RunValue(s[..|s| - 1]) * 10 + DigitValue(s[|s| - 1])
  }

  /** `int(token)` for a token without surrounding whitespace: an optional
      sign and a digit run of at most `MaxStrDigits` digits; anything else
      raises ValueError (None here). */
  function ParseInt(s: string): Option<int>
  {
    if |s| >= 1 && (s[0] == '+' || s[0] == '-') then
      if DigitRun(s[1..]) && DigitCount(s[1..]) <= MaxStrDigits then
        Some(if s[0] == '-' then -(RunValue(s[1..]) as int) else RunValue(s[1..]))
      else None
    else if DigitRun(s) && DigitCount(s) <= MaxStrDigits then Some(RunValue(s))
    else None
  }

  lemma {:induction false} RunValueDigits(n: nat)
    ensures RunValue(Digits(n)) == n
    decreases n
  {
    if n >= 10 {
      var s := Digits(n);
      assert s[..|s| - 1] == Digits(n / 10);
      RunValueDigits(n / 10);
    }
  }

  /** In a string of digits every character counts. */
  lemma {:induction false} DigitCountOfDigits(s: string)
    requires forall i :: 0 <= i < |s| ==> IsDigit(s[i])
    ensures DigitCount(s) == |s|
  {
    if s != [] {
      DigitCountOfDigits(s[..|s| - 1]);
    }
  }

  /** A leading character adds one to the count exactly when it is a digit. */
  lemma {:induction false} DigitCountCons(c: char, s: string)
    ensures DigitCount([c] + s) == DigitCount(s) + (if IsDigit(c) then 1 else 0)
    decreases |s|
  {
    if s != [] {
      var init := s[..|s| - 1];
      assert ([c] + s)[..|s|] == [c] + init;
      DigitCountCons(c, init);
    }
  }

  /** Reading back what `str` writes gives the same integer, within the
      digit limit; past it the text is refused (and `str` itself raises). */
  lemma ParseDecimal(n: int)
    ensures ParseInt(Decimal(n)) == if WithinStrLimit(n) then Some(n) else None
  {
    var d := Digits(Magnitude(n));
    assert DigitRun(d);
    DigitCountOfDigits(d);
    RunValueDigits(Magnitude(n));
    if n < 0 {
      var s := "-" + d;
      assert s[0] == '-' && s[1..] == d;
    } else {
      assert !(d[0] == '+' || d[0] == '-');
    }
  }

  /** Distinct integers have distinct decimal forms. */
  lemma DecimalInjective(a: int, b: int)
    ensures Decimal(a) == Decimal(b) ==> a == b
  {
    RunValueDigits(Magnitude(a));
    RunValueDigits(Magnitude(b));
    if Decimal(a) == Decimal(b) && a < 0 && b < 0 {
      assert Digits(-a) == Decimal(a)[1..];
      assert Digits(-b) == Decimal(b)[1..];
    }
  }

  /** A digit string with `k` digits has a value below `10 ** k`. */
  lemma {:induction false} RunValueBound(s: string)
    requires DigitsOrUnderscores(s)
    ensures RunValue(s) < Pow10(DigitCount(s))
  {
    if s != [] {
      RunValueBound(s[..|s| - 1]);
    }
  }

  /** A number below `10 ** k` has at most `k` digits (and 0 has one). */
  lemma {:induction false} DigitsLength(n: nat, k: nat)
    requires n < Pow10(k)
    ensures |Digits(n)| <= if k == 0 then 1 else k
    decreases n
  {
    if n >= 10 {
      assert k >= 2;
      DigitsLength(n / 10, k - 1);
    }
  }

  /** Every integer `int()` accepts can be written back by `str`: its
      magnitude has no more digits than the token. */
  lemma ParsedWithinStrLimit(s: string)
    ensures ParseInt(s).Some? ==> WithinStrLimit(ParseInt(s).value)
  {
    if ParseInt(s).Some? {
      var run := if |s| >= 1 && (s[0] == '+' || s[0] == '-') then s[1..] else s;
      assert DigitRun(run) && DigitCount(run) <= MaxStrDigits;
      assert Magnitude(ParseInt(s).value) == RunValue(run);
      RunValueBound(run);
      DigitsLength(RunValue(run), DigitCount(run));
    }
  }

  /** `int()` refuses a token of more than `MaxStrDigits` digits. */
  lemma ParseIntRejectsLongToken(s: string)
    requires DigitCount(s) > MaxStrDigits
    ensures ParseInt(s) == None
  {
    if |s| >= 1 && (s[0] == '+' || s[0] == '-') {
      assert s == [s[0]] + s[1..];
      DigitCountCons(s[0], s[1..]);
    }
  }

  /** `int()` rejects a token that contains a character other than a sign,
      a digit or an underscore (such as `#`, a letter or a dot). */
  lemma ParseIntRejectsForeignChar(s: string, i: nat)
    requires i < |s| && !IsDigit(s[i]) && s[i] != '_' && s[i] != '+' && s[i] != '-'
    ensures ParseInt(s) == None
  {
    if |s| >= 1 && (s[0] == '+' || s[0] == '-') {
      assert s[1..][i - 1] == s[i];
    }
  }
}
