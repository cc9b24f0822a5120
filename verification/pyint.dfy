/**
  Python's built-in `int(s)` applied to a `str` in base 10, as used to turn the
  string keys of the marker-size JSON object into integer marker IDs.

  `int` strips surrounding whitespace, accepts one optional sign, then requires a
  non-empty run of decimal digits in which single underscores may separate two
  digits, with at most `MaxStrDigits` digits. Anything else raises `ValueError`,
  modelled here as `None`. Only ASCII input is modelled.
 */
module PyInt {
  import opened Wrappers

  predicate IsDigit(c: char) {
    '0' <= c <= '9'
  }

  /** The whitespace `int` skips around a literal: space, tab, LF, VT, FF and CR. */
  predicate IsSpace(c: char) {
    c == ' ' || 9 <= c as int <= 13
  }

  /** Python's default limit on the number of digits `int` converts from text. */
  const MaxStrDigits: nat := 4300

  function DigitValue(c: char): (d: nat)
    requires IsDigit(c)
    ensures d < 10
  {
    (c as int) - ('0' as int)
  }

  function DigitChar(d: nat): (c: char)
    requires d < 10
    ensures IsDigit(c) && DigitValue(c) == d
  {
    (('0' as int) + d) as char
  }

  /** Drops leading whitespace. */
  function TrimStart(s: string): (t: string)
    ensures |t| <= |s| && t == s[|s| - |t|..]
    ensures |t| > 0 ==> !IsSpace(t[0])
    ensures forall i :: 0 <= i < |s| - |t| ==> IsSpace(s[i])
  {
    if |s| > 0 && IsSpace(s[0]) then TrimStart(s[1..]) else s
  }

  /** Drops trailing whitespace. */
  function TrimEnd(s: string): (t: string)
    ensures |t| <= |s| && t == s[..|t|]
    ensures |t| > 0 ==> !IsSpace(t[|t| - 1])
    ensures forall i :: |t| <= i < |s| ==> IsSpace(s[i])
  {
    if |s| > 0 && IsSpace(s[|s| - 1]) then TrimEnd(s[..|s| - 1]) else s
  }

  function Strip(s: string): string {
    TrimEnd(TrimStart(s))
  }

  /**
    A digit run as `int` accepts it: non-empty, made of digits and underscores,
    every underscore standing between two digits.
   */
  predicate IsDigitRun(s: string) {
    && |s| > 0
    && DigitsOrUnderscores(s)
    && forall i :: 0 <= i < |s| && s[i] == '_' ==>
         0 < i < |s| - 1 && IsDigit(s[i - 1]) && IsDigit(s[i + 1])
  }

  predicate DigitsOrUnderscores(s: string) {
    forall i :: 0 <= i < |s| ==> IsDigit(s[i]) || s[i] == '_'
  }

  /** The number of decimal digits in `s`; underscores, signs and spaces are not counted. */
  function DigitCount(s: string): (k: nat)
    ensures k <= |s|
  {
    if |s| == 0 then 0 else (if IsDigit(s[0]) then 1 else 0) + DigitCount(s[1..])
  }

  /** A digit run `int` converts: well formed and within the digit limit. */
  predicate AcceptedRun(s: string) {
    IsDigitRun(s) && DigitCount(s) <= MaxStrDigits
  }

  /** The decimal value of the digits of `s`, underscores ignored. */
  function RunValue(s: string): nat
    requires DigitsOrUnderscores(s)
  {
    if |s| == 0 then 0
    else if s[|s| - 1] == '_' then RunValue(s[..|s| - 1])
    else 10 * RunValue(s[..|s| - 1]) + DigitValue(s[|s| - 1])
  }

  /** `int(s)`: `Some(n)` when Python returns `n`, `None` when it raises `ValueError`. */
  function ParseInt(s: string): (r: Option<int>)
    ensures |Strip(s)| == 0 ==> r.None?
    ensures r.Some? ==> DigitCount(s) <= MaxStrDigits
    ensures r.Some? && r.value < 0 ==> Strip(s)[0] == '-'
  {
    StripKeepsDigits(s);
    ParseLiteral(Strip(s))
  }

  /** The literal left once whitespace is stripped: an optional sign and an accepted run. */
  function ParseLiteral(t: string): (r: Option<int>)
    ensures r.Some? ==> 0 < |t| && DigitCount(t) <= MaxStrDigits
    ensures r.Some? && r.value < 0 ==> t[0] == '-'
  {
    if |t| > 0 && (t[0] == '-' || t[0] == '+') then
      if AcceptedRun(t[1..]) then
        var v: int := RunValue(t[1..]);
        Some(if t[0] == '-' then -v else v)
      else None
    else if AcceptedRun(t) then Some(RunValue(t))
    else None
  }

  /** Python's `str(n)` for a natural number: shortest decimal digits. */
  function ShowNat(n: nat): (s: string)
    ensures |s| > 0
    ensures forall i :: 0 <= i < |s| ==> IsDigit(s[i])
    decreases n
  {
    if n < 10 then [DigitChar(n)] else ShowNat(n / 10) + [DigitChar(n % 10)]
  }

  /** Python's `str(n)` for an integer. */
  function Show(n: int): string {
    if n < 0 then "-" + ShowNat(-n) else ShowNat(n)
  }

  lemma {:induction false} RunValueOfShowNat(n: nat)
    ensures RunValue(ShowNat(n)) == n
    decreases n
  {
    if n >= 10 {
      var s := ShowNat(n);
      assert s[..|s| - 1] == ShowNat(n / 10);
      RunValueOfShowNat(n / 10);
    }
  }

  /** Counting digits distributes over concatenation. */
  lemma {:induction false} DigitCountAppend(a: string, b: string)
    ensures DigitCount(a + b) == DigitCount(a) + DigitCount(b)
    decreases |a|
  {
    if |a| == 0 {
      assert a + b == b;
    } else {
      assert (a + b)[0] == a[0];
      assert (a + b)[1..] == a[1..] + b;
      DigitCountAppend(a[1..], b);
    }
  }

  /** Only whitespace is stripped, so no digit is lost or gained. */
  lemma StripKeepsDigits(s: string)
    ensures DigitCount(Strip(s)) == DigitCount(s)
  {
    TrimStartKeepsDigits(s);
    TrimEndKeepsDigits(TrimStart(s));
  }

  lemma {:induction false} TrimStartKeepsDigits(s: string)
    ensures DigitCount(TrimStart(s)) == DigitCount(s)
    decreases |s|
  {
    if |s| > 0 && IsSpace(s[0]) {
      TrimStartKeepsDigits(s[1..]);
    }
  }

  lemma {:induction false} TrimEndKeepsDigits(s: string)
    ensures DigitCount(TrimEnd(s)) == DigitCount(s)
    decreases |s|
  {
    if |s| > 0 && IsSpace(s[|s| - 1]) {
      var init := s[..|s| - 1];
      assert s == init + [s[|s| - 1]];
      DigitCountAppend(init, [s[|s| - 1]]);
      assert DigitCount([s[|s| - 1]]) == 0;
      TrimEndKeepsDigits(init);
    }
  }

  /** A string of digits only counts every character. */
  lemma {:induction false} DigitCountOfDigits(s: string)
    requires forall i :: 0 <= i < |s| ==> IsDigit(s[i])
    ensures DigitCount(s) == |s|
    decreases |s|
  {
    if |s| > 0 {
      DigitCountOfDigits(s[1..]);
    }
  }

  /** Text that neither starts nor ends with whitespace is left alone by `strip`. */
  lemma StripUnpadded(s: string)
    requires |s| > 0 && !IsSpace(s[0]) && !IsSpace(s[|s| - 1])
    ensures Strip(s) == s
  {
    assert TrimStart(s) == s;
  }

  /** Digits printed by `ShowNat` form a run worth the number printed, one digit per character. */
  lemma ShowNatIsRun(m: nat)
    ensures IsDigitRun(ShowNat(m)) && RunValue(ShowNat(m)) == m
    ensures DigitCount(ShowNat(m)) == |ShowNat(m)|
  {
    RunValueOfShowNat(m);
    DigitCountOfDigits(ShowNat(m));
  }

  /** Unsigned decimal text within the limit is read as its value. */
  lemma ParseNatText(m: nat)
    requires |ShowNat(m)| <= MaxStrDigits
    ensures ParseLiteral(ShowNat(m)) == Some(m)
  {
    ShowNatIsRun(m);
    assert IsDigit(ShowNat(m)[0]);
  }

  /** Negative decimal text within the limit is read as its value. */
  lemma ParseNegText(m: nat)
    requires 0 < m && |ShowNat(m)| <= MaxStrDigits
    ensures ParseLiteral("-" + ShowNat(m)) == Some(-(m as int))
  {
    ShowNatIsRun(m);
    var t := "-" + ShowNat(m);
    assert t[0] == '-' && t[1..] == ShowNat(m);
    assert AcceptedRun(t[1..]);
  }

  /**
    Decimal text produced by `str` is read back by `int` to the same value,
    sign included, for every integer within the digit limit.
   */
  lemma ParseShowRoundTrip(n: int)
    requires DigitCount(Show(n)) <= MaxStrDigits
    ensures ParseInt(Show(n)) == Some(n)
  {
    var s := Show(n);
    StripUnpadded(s);
    if n < 0 {
      ShowNatIsRun(-n);
      assert s[1..] == ShowNat(-n);
      assert DigitCount(s) == DigitCount(ShowNat(-n));
      ParseNegText(-n);
    } else {
      ShowNatIsRun(n);
      ParseNatText(n);
    }
  }

  /** Text with more than `MaxStrDigits` digits is refused, however well formed. */
  lemma TooManyDigitsRejected(s: string)
    requires DigitCount(s) > MaxStrDigits
    ensures ParseInt(s).None?
  {
  }

  /** Leading whitespace does not change what `int` reads. */
  lemma LeadingSpaceIgnored(c: char, s: string)
    requires IsSpace(c)
    ensures ParseInt([c] + s) == ParseInt(s)
  {
    assert ([c] + s)[1..] == s;
    assert TrimStart([c] + s) == TrimStart(s);
    assert Strip([c] + s) == Strip(s);
  }

  /** A control character outside that whitespace set is not skipped: the key is refused. */
  lemma FileSeparatorRejected()
    ensures ParseInt([28 as char, '7']).None?
  {
    var s := [28 as char, '7'];
    assert TrimStart(s) == s;
    assert s[..1] == [28 as char];
    assert TrimEnd(s) == s;
    assert !IsDigitRun(s) by {
      assert !IsDigit(s[0]) && s[0] != '_';
    }
  }
}
