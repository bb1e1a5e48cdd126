/**
 * Python's conversions between integers and decimal text, as the job folders
 * use them: `str(job_id)` names a job's directory and `int(dir_name)` reads a
 * directory name back as a job id.
 */
module PyInt {
  import opened Common

  predicate IsDigit(c: char)
  {
    '0' <= c <= '9'
  }

  /** ASCII characters that `int()` skips around a number */
  predicate IsSpace(c: char)
  {
    c == ' ' || 9 <= c as int <= 13 || 28 <= c as int <= 31
  }

  function DigitValue(c: char): nat
  {
    if IsDigit(c) then c as int - '0' as int else 0
  }

  function DigitChar(d: nat): (c: char)
    requires d < 10
    ensures IsDigit(c) && DigitValue(c) == d
  {
    ('0' as int + d) as char
  }

  // ---------------------------------------------------------------------
  // str(n)
  // ---------------------------------------------------------------------

  /** Decimal digits of `n`, most significant first, no leading zeros */
  function NatToString(n: nat): (s: string)
    ensures |s| >= 1 && IsDigit(s[0]) && IsDigit(s[|s| - 1])
    decreases n
  {
    if n < 10 then [DigitChar(n)] else NatToString(n / 10) + [DigitChar(n % 10)]
  }

  /** Python's `str(n)` for an int */
  function IntToString(n: int): (s: string)
    ensures s != [] && !IsSpace(s[0]) && IsDigit(s[|s| - 1])
  {
    if n < 0 then "-" + NatToString(-n) else NatToString(n)
  }

  // ---------------------------------------------------------------------
  // int(s)
  // ---------------------------------------------------------------------

  function TrimStart(s: string): (r: string)
    ensures |r| <= |s|
  {
    if s != [] && IsSpace(s[0]) then TrimStart(s[1..]) else s
  }

  function TrimEnd(s: string): (r: string)
    ensures |r| <= |s|
  {
    if s != [] && IsSpace(s[|s| - 1]) then TrimEnd(s[..|s| - 1]) else s
  }

  /** Leading and trailing white space removed */
  function Strip(s: string): string
  {
    TrimEnd(TrimStart(s))
  }

  /**
   * The digit part of a base-10 integer literal as `int()` accepts it:
   * digits, where single underscores may separate two digits
   */
  predicate IsDigitGroups(s: string)
  {
    |s| > 0 && IsDigit(s[0]) && IsGroupTail(s[1..])
  }

  /** What may follow a digit: nothing, a digit, or an underscore and a digit, and so on */
  predicate IsGroupTail(s: string)
  {
    if s == [] then true
    else if IsDigit(s[0]) then IsGroupTail(s[1..])
    else s[0] == '_' && |s| > 1 && IsDigit(s[1]) && IsGroupTail(s[2..])
  }

  /** The number the digits of `s` spell, underscores ignored */
  function DigitsValue(s: string): nat
  {
    if s == [] then 0
    else if s[|s| - 1] == '_' then DigitsValue(s[..|s| - 1])
    else 10 * DigitsValue(s[..|s| - 1]) + DigitValue(s[|s| - 1])
  }

  /** Python's `int(s)`: Some(n) where it returns n, None where it raises ValueError */
  function ParseInt(s: string): Option<int>
  {
    var t := Strip(s);
    if t != [] && (t[0] == '+' || t[0] == '-') then
      if IsDigitGroups(t[1..]) then
        Some(if t[0] == '-' then 0 - DigitsValue(t[1..]) else DigitsValue(t[1..]))
      else None
    else if IsDigitGroups(t) then Some(DigitsValue(t))
    else None
  }

  /** A directory name that `str` of the number it parses to gives back */
  predicate IsCanonical(name: string)
  {
    ParseInt(name).Some? && IntToString(ParseInt(name).value) == name
  }

  // ---------------------------------------------------------------------
  // Round trip
  // ---------------------------------------------------------------------

  /** A non-empty run of digits is a valid digit part */
  lemma {:induction false} DigitsAreGroupTail(s: string)
    requires forall i :: 0 <= i < |s| ==> IsDigit(s[i])
    ensures IsGroupTail(s)
    decreases |s|
  {
    if s != [] {
      DigitsAreGroupTail(s[1..]);
    }
  }

  lemma {:induction false} NatToStringDigits(n: nat)
    ensures forall i :: 0 <= i < |NatToString(n)| ==> IsDigit(NatToString(n)[i])
    ensures DigitsValue(NatToString(n)) == n
    decreases n
  {
    var s := NatToString(n);
    if n >= 10 {
      var t := NatToString(n / 10);
      NatToStringDigits(n / 10);
      assert s == t + [DigitChar(n % 10)];
      assert s[..|s| - 1] == t;
    }
  }

  /** str(n) of a natural number is a valid digit part with value n */
  lemma NatToStringIsDigitGroups(n: nat)
    ensures IsDigitGroups(NatToString(n)) && DigitsValue(NatToString(n)) == n
  {
    NatToStringDigits(n);
    DigitsAreGroupTail(NatToString(n)[1..]);
  }

  lemma TrimmedWhenNoSpaceAtEnds(s: string)
    requires s != [] && !IsSpace(s[0]) && !IsSpace(s[|s| - 1])
    ensures Strip(s) == s
  {
  }

  /** `int(str(n)) == n` for every integer */
  lemma {:induction false} ParseIntOfIntToString(n: int)
    ensures ParseInt(IntToString(n)) == Some(n)
  {
    var s := IntToString(n);
    TrimmedWhenNoSpaceAtEnds(s);
    if n < 0 {
      var digits := NatToString(-n);
      NatToStringIsDigitGroups(-n);
      assert s == "-" + digits && s[1..] == digits;
      assert ParseInt(s) == Some(0 - DigitsValue(digits));
    } else {
      NatToStringIsDigitGroups(n);
      assert s == NatToString(n) && IsDigit(s[0]);
    }
  }

  /** Distinct job ids get distinct directory names */
  lemma IntToStringInjective(a: int, b: int)
    ensures IntToString(a) == IntToString(b) <==> a == b
  {
    ParseIntOfIntToString(a);
    ParseIntOfIntToString(b);
  }

  /** The unknown-job directory name never reads as a job id */
  lemma UnknownIsNotAnInt()
    ensures ParseInt("UNKNOWN") == None
  {
    assert Strip("UNKNOWN") == "UNKNOWN";
    assert !IsDigit("UNKNOWN"[0]);
  }

  /** str(n) is always canonical */
  lemma IntToStringIsCanonical(n: int)
    ensures IsCanonical(IntToString(n))
  {
    ParseIntOfIntToString(n);
  }
}
