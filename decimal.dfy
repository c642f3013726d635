/**
 * Decimal text of integers: Python's `int(str)` in base 10 as the numeric
 * settings use it (surrounding whitespace, an optional sign, single
 * underscores between digits; ASCII digits only), and the part of
 * JavaScript's `Number.prototype.toString` used by the timer display.
 */
module Decimal {
  import opened Common

  predicate IsDigit(c: char)
  {
    '0' <= c <= '9'
  }

  function DigitValue(c: char): (d: nat)
    requires IsDigit(c)
    ensures d < 10
  {
    c as int - '0' as int
  }

  function DigitChar(d: nat): (c: char)
    requires d < 10
    ensures IsDigit(c) && DigitValue(c) == d
  {
    ('0' as int + d) as char
  }

  /** The shortest decimal text of `n`: no leading zero, "0" for zero. */
  function Digits(n: nat): (s: string)
    ensures |s| >= 1
    ensures forall i :: 0 <= i < |s| ==> IsDigit(s[i])
    ensures |s| > 1 ==> s[0] != '0'
    decreases n
  {
    if n < 10 then [DigitChar(n)] else Digits(n / 10) + [DigitChar(n % 10)]
  }

  /** The value of a non-empty string of decimal digits (leading zeros allowed); None for any other text. */
  function ParseDigits(s: string): (r: Option<nat>)
    ensures r.Some? <==> |s| >= 1 && forall i :: 0 <= i < |s| ==> IsDigit(s[i])
    decreases |s|
  {
    if |s| == 0 || !IsDigit(s[|s| - 1]) then None
    else if |s| == 1 then Some(DigitValue(s[0]))
    else match ParseDigits(s[..|s| - 1])
      case None => None
      case Some(v) => Some(10 * v + DigitValue(s[|s| - 1]))
  }

  /** Reading back the decimal text of `n` gives `n`. */
  lemma {:induction false} ParseDigitsOfDigits(n: nat)
    ensures ParseDigits(Digits(n)) == Some(n)
    decreases n
  {
    if n >= 10 {
      var s := Digits(n);
      assert s[..|s| - 1] == Digits(n / 10);
      ParseDigitsOfDigits(n / 10);
    }
  }

  /** Leading zeros do not change the value read. */
  lemma {:induction false} ParseDigitsLeadingZero(s: string)
    requires |s| >= 1 && forall i :: 0 <= i < |s| ==> IsDigit(s[i])
    ensures ParseDigits("0" + s) == ParseDigits(s)
    decreases |s|
  {
    var t := "0" + s;
    assert t[..|t| - 1] == "0" + s[..|s| - 1];
    if |s| > 1 {
      ParseDigitsLeadingZero(s[..|s| - 1]);
    }
  }

  /** JavaScript's text of an integer-valued number: a minus sign before the digits when negative. */
  function IntText(i: int): (s: string)
    ensures |s| >= 1 && IsDigit(s[|s| - 1])
    ensures s[0] == '-' <==> i < 0
    ensures forall k :: 1 <= k < |s| ==> IsDigit(s[k])
  {
    if i < 0 then "-" + Digits(-i) else Digits(i)
  }

  /** The characters Python's `str.isspace` accepts, which `int()` strips from both ends. */
  predicate IsPythonSpace(c: char)
  {
    c == ' ' || '\t' <= c <= '\r' || '\U{1c}' <= c <= '\U{1f}' || c == '\U{85}' || c == '\U{a0}'
    || c == '\U{1680}' || '\U{2000}' <= c <= '\U{200a}' || c == '\U{2028}' || c == '\U{2029}'
    || c == '\U{202f}' || c == '\U{205f}' || c == '\U{3000}'
  }

  /** `s` without its leading whitespace. */
  function StripStart(s: string): (t: string)
    ensures |t| <= |s| && t == s[|s| - |t|..]
    ensures |t| > 0 ==> !IsPythonSpace(t[0])
    decreases |s|
  {
    if |s| > 0 && IsPythonSpace(s[0]) then StripStart(s[1..]) else s
  }

  /** `StripStart` removes only whitespace. */
  lemma {:induction false} StripStartRemovesSpaces(s: string)
    ensures forall k :: 0 <= k < |s| - |StripStart(s)| ==> IsPythonSpace(s[k])
    decreases |s|
  {
    if |s| > 0 && IsPythonSpace(s[0]) {
      StripStartRemovesSpaces(s[1..]);
      forall k | 1 <= k < |s| - |StripStart(s)| ensures IsPythonSpace(s[k]) {
        assert s[k] == s[1..][k - 1];
      }
    }
  }

  /** `s` without its trailing whitespace. */
  function StripEnd(s: string): (t: string)
    ensures |t| <= |s| && t == s[..|t|]
    ensures |t| > 0 ==> !IsPythonSpace(t[|t| - 1])
    decreases |s|
  {
    if |s| > 0 && IsPythonSpace(s[|s| - 1]) then StripEnd(s[..|s| - 1]) else s
  }

  /** `StripEnd` removes only whitespace. */
  lemma {:induction false} StripEndRemovesSpaces(s: string)
    ensures forall k :: |StripEnd(s)| <= k < |s| ==> IsPythonSpace(s[k])
    decreases |s|
  {
    if |s| > 0 && IsPythonSpace(s[|s| - 1]) {
      StripEndRemovesSpaces(s[..|s| - 1]);
      forall k | |StripEnd(s)| <= k < |s| - 1 ensures IsPythonSpace(s[k]) {
        assert s[k] == s[..|s| - 1][k];
      }
    }
  }

  function Strip(s: string): string
  {
    StripEnd(StripStart(s))
  }

  /** Digits in which every underscore sits between two digits, as Python's integer literals allow. */
  predicate WellSeparated(s: string)
  {
    |s| >= 1 && IsDigit(s[0]) && IsDigit(s[|s| - 1])
    && (forall k :: 0 <= k < |s| ==> IsDigit(s[k]) || s[k] == '_')
    && (forall k :: 0 < k < |s| && s[k] == '_' ==> s[k - 1] != '_')
  }

  /** The text with every underscore dropped; nothing else is removed. */
  function WithoutUnderscores(s: string): (t: string)
    ensures |t| <= |s|
    ensures forall k :: 0 <= k < |t| ==> t[k] != '_'
    decreases |s|
  {
    if |s| == 0 then ""
    else (if s[0] == '_' then "" else [s[0]]) + WithoutUnderscores(s[1..])
  }

  /** Dropping the underscores of digits and underscores that start with a digit leaves non-empty digits. */
  lemma {:induction false} SeparatedToDigits(s: string)
    requires forall k :: 0 <= k < |s| ==> IsDigit(s[k]) || s[k] == '_'
    ensures forall k :: 0 <= k < |WithoutUnderscores(s)| ==> IsDigit(WithoutUnderscores(s)[k])
    ensures |s| >= 1 && IsDigit(s[0]) ==> |WithoutUnderscores(s)| >= 1
    decreases |s|
  {
    if |s| > 0 {
      SeparatedToDigits(s[1..]);
    }
  }

  /** Text of digits only has no underscore to drop. */
  lemma {:induction false} DigitsWithoutUnderscores(s: string)
    requires forall k :: 0 <= k < |s| ==> IsDigit(s[k])
    ensures WithoutUnderscores(s) == s
    decreases |s|
  {
    if |s| > 0 {
      DigitsWithoutUnderscores(s[1..]);
      assert s == [s[0]] + s[1..];
    }
  }

  /** The value of unsigned digits with optional separating underscores. */
  function ParseUnsigned(s: string): (r: Option<nat>)
    ensures r.Some? <==> WellSeparated(s)
  {
    if WellSeparated(s) then
      SeparatedToDigits(s);
      ParseDigits(WithoutUnderscores(s))
    else None
  }

  /** Text without surrounding whitespace: an optional sign, then digits with separating underscores. */
  function ParseSigned(t: string): (r: Option<int>)
    ensures r.Some? ==> |t| >= 1 && IsDigit(t[|t| - 1])
    ensures r.Some? ==> IsDigit(t[0]) || (|t| >= 2 && (t[0] == '+' || t[0] == '-') && IsDigit(t[1]))
    ensures r.Some? && t[0] == '-' ==> r.value <= 0
    ensures r.Some? && t[0] != '-' ==> r.value >= 0
  {
    if |t| >= 1 && (t[0] == '+' || t[0] == '-') then
      match ParseUnsigned(t[1..])
      case None => None
      case Some(n) => Some(if t[0] == '-' then -(n as int) else n as int)
    else
      match ParseUnsigned(t)
      case None => None
      case Some(n) => Some(n)
  }

  /**
   * `int(s)`: surrounding whitespace is ignored, a single `+` or `-` may
   * precede the digits, and underscores may separate digits; None stands
   * for the ValueError any other text raises.
   */
  function ParseInt(s: string): (r: Option<int>)
    ensures r.Some? ==> |s| >= 1
  {
    ParseSigned(Strip(s))
  }

  /** A character that can appear somewhere in text `int()` accepts. */
  predicate IntChar(c: char)
  {
    IsDigit(c) || IsPythonSpace(c) || c == '+' || c == '-' || c == '_'
  }

  /** Text that neither starts nor ends with whitespace is read as it stands. */
  lemma ParseIntUnspaced(s: string)
    requires |s| >= 1 && !IsPythonSpace(s[0]) && !IsPythonSpace(s[|s| - 1])
    ensures Strip(s) == s && ParseInt(s) == ParseSigned(s)
  {
    assert StripStart(s) == s;
    assert StripEnd(s) == s;
  }

  /** Plain digits spell the same value for `int()` as for the digit reader. */
  lemma {:induction false} ParseUnsignedOfDigits(s: string)
    requires |s| >= 1 && forall k :: 0 <= k < |s| ==> IsDigit(s[k])
    ensures ParseUnsigned(s) == ParseDigits(s)
  {
    assert WellSeparated(s);
    DigitsWithoutUnderscores(s);
  }

  /** `int()` reads back JavaScript's text of any integer. */
  lemma {:induction false} ParseIntOfIntText(i: int)
    ensures ParseInt(IntText(i)) == Some(i)
  {
    var s := IntText(i);
    var n: nat := if i < 0 then -i else i;
    var d := Digits(n);
    assert !IsPythonSpace(s[0]) && !IsPythonSpace(s[|s| - 1]);
    ParseIntUnspaced(s);
    ParseUnsignedOfDigits(d);
    ParseDigitsOfDigits(n);
    if i < 0 {
      assert s[1..] == d;
    } else {
      assert s == d && s[0] != '+' && s[0] != '-';
    }
  }

  /** `Strip(s)` is the window of `s` from `a`, with only whitespace outside it. */
  lemma StripWindow(s: string) returns (a: nat)
    ensures a + |Strip(s)| <= |s| && Strip(s) == s[a..a + |Strip(s)|]
    ensures forall j :: 0 <= j < a ==> IsPythonSpace(s[j])
    ensures forall j :: a + |Strip(s)| <= j < |s| ==> IsPythonSpace(s[j])
  {
    var u := StripStart(s);
    a := |s| - |u|;
    var t := StripEnd(u);
    StripStartRemovesSpaces(s);
    assert u == s[a..];
    assert t == s[a..a + |t|] by {
      assert t == u[..|t|];
    }
    forall j | a + |t| <= j < |s| ensures IsPythonSpace(s[j]) {
      StripEndRemovesSpaces(u);
      assert s[j] == u[j - a];
    }
  }

  /** A character that is not whitespace survives `Strip`, at its position less the `a` characters stripped in front. */
  lemma InsideStrip(s: string, k: nat) returns (a: nat)
    requires k < |s| && !IsPythonSpace(s[k])
    ensures a <= k < a + |Strip(s)| && Strip(s)[k - a] == s[k]
  {
    a := StripWindow(s);
  }

  /** Two neighbouring characters that are not whitespace survive `Strip` side by side. */
  lemma PairInsideStrip(s: string, k: nat) returns (a: nat)
    requires k + 1 < |s| && !IsPythonSpace(s[k]) && !IsPythonSpace(s[k + 1])
    ensures a <= k && k + 1 < a + |Strip(s)|
    ensures Strip(s)[k - a] == s[k] && Strip(s)[k - a + 1] == s[k + 1]
  {
    a := StripWindow(s);
    assert a + 1 + (k - a) == k + 1;
  }

  /** A character other than a digit, an underscore or a leading sign makes `ParseSigned` fail. */
  lemma SignedRejectsForeign(t: string, j: nat)
    requires j < |t| && !IsDigit(t[j]) && t[j] != '_'
    requires j == 0 ==> t[0] != '+' && t[0] != '-'
    ensures ParseSigned(t) == None
  {
    if t[0] == '+' || t[0] == '-' {
      assert t[1..][j - 1] == t[j];
      assert !WellSeparated(t[1..]);
    } else {
      assert !WellSeparated(t);
    }
  }

  /** Two underscores in a row make `ParseSigned` fail. */
  lemma SignedRefusesDoubleSeparator(t: string, j: nat)
    requires j + 1 < |t| && t[j] == '_' && t[j + 1] == '_'
    ensures ParseSigned(t) == None
  {
    if t[0] == '+' || t[0] == '-' {
      assert j >= 1;
      assert t[1..][j - 1] == '_' && t[1..][j] == '_';
      assert !WellSeparated(t[1..]);
    } else {
      assert !WellSeparated(t);
    }
  }

  /** A character that is no digit, whitespace, sign or underscore anywhere in the text makes `int()` fail. */
  lemma ParseIntRejectsForeign(s: string, k: int)
    requires 0 <= k < |s| && !IntChar(s[k])
    ensures ParseInt(s) == None
  {
    var a := InsideStrip(s, k);
    SignedRejectsForeign(Strip(s), k - a);
  }

  lemma {:induction false} StripStartSpaces(sp: string, t: string)
    requires forall k :: 0 <= k < |sp| ==> IsPythonSpace(sp[k])
    requires |t| > 0 && !IsPythonSpace(t[0])
    ensures StripStart(sp + t) == t
    decreases |sp|
  {
    if |sp| > 0 {
      assert (sp + t)[1..] == sp[1..] + t;
      StripStartSpaces(sp[1..], t);
    } else {
      assert sp + t == t;
    }
  }

  lemma {:induction false} StripEndSpaces(t: string, sp: string)
    requires forall k :: 0 <= k < |sp| ==> IsPythonSpace(sp[k])
    requires |t| > 0 && !IsPythonSpace(t[|t| - 1])
    ensures StripEnd(t + sp) == t
    decreases |sp|
  {
    if |sp| > 0 {
      assert (t + sp)[..|t + sp| - 1] == t + sp[..|sp| - 1];
      StripEndSpaces(t, sp[..|sp| - 1]);
    } else {
      assert t + sp == t;
    }
  }

  /** Whitespace before and after the number, of any length, does not change what `int()` reads. */
  lemma ParseIntIgnoresSurroundingSpace(before: string, t: string, after: string)
    requires forall k :: 0 <= k < |before| ==> IsPythonSpace(before[k])
    requires forall k :: 0 <= k < |after| ==> IsPythonSpace(after[k])
    requires |t| >= 1 && !IsPythonSpace(t[0]) && !IsPythonSpace(t[|t| - 1])
    ensures ParseInt(before + t + after) == ParseInt(t)
  {
    assert before + t + after == before + (t + after);
    StripStartSpaces(before, t + after);
    StripEndSpaces(t, after);
    ParseIntUnspaced(t);
  }

  /** A plus sign before the digits is accepted and changes nothing. */
  lemma ParseIntAcceptsPlus(n: nat)
    ensures ParseInt("+" + Digits(n)) == Some(n)
  {
    var d := Digits(n);
    var s := "+" + d;
    ParseIntUnspaced(s);
    assert s[1..] == d;
    ParseUnsignedOfDigits(d);
    ParseDigitsOfDigits(n);
  }

  lemma {:induction false} WithoutUnderscoresAppend(a: string, b: string)
    ensures WithoutUnderscores(a + b) == WithoutUnderscores(a) + WithoutUnderscores(b)
    decreases |a|
  {
    if |a| == 0 {
      assert a + b == b;
    } else {
      assert (a + b)[1..] == a[1..] + b;
      WithoutUnderscoresAppend(a[1..], b);
    }
  }

  lemma SeparatedDigits(a: string, b: string)
    requires |a| >= 1 && forall k :: 0 <= k < |a| ==> IsDigit(a[k])
    requires |b| >= 1 && forall k :: 0 <= k < |b| ==> IsDigit(b[k])
    ensures WellSeparated(a + "_" + b)
  {
    var s := a + "_" + b;
    assert forall k :: 0 <= k < |s| && k != |a| ==> IsDigit(s[k]) by {
      forall k | 0 <= k < |s| && k != |a| ensures IsDigit(s[k]) {
        if k < |a| {
          assert s[k] == a[k];
        } else {
          assert s[k] == b[k - |a| - 1];
        }
      }
    }
  }

  lemma DropSeparator(a: string, b: string)
    requires forall k :: 0 <= k < |a| ==> IsDigit(a[k])
    requires forall k :: 0 <= k < |b| ==> IsDigit(b[k])
    ensures WithoutUnderscores(a + "_" + b) == a + b
  {
    var wa, wu, wb := WithoutUnderscores(a), WithoutUnderscores("_"), WithoutUnderscores(b);
    DigitsWithoutUnderscores(a);
    DigitsWithoutUnderscores(b);
    assert wu == "" by {
      assert "_"[1..] == "";
    }
    assert WithoutUnderscores(a + "_") == a by {
      WithoutUnderscoresAppend(a, "_");
    }
    WithoutUnderscoresAppend(a + "_", b);
  }

  /** Text that starts and ends with a digit is read by the unsigned literal reader alone. */
  lemma UnsignedText(s: string)
    requires |s| >= 1 && IsDigit(s[0]) && IsDigit(s[|s| - 1])
    ensures ParseInt(s) == if ParseUnsigned(s).Some? then Some(ParseUnsigned(s).value as int) else None
  {
    ParseIntUnspaced(s);
  }

  /** An underscore between two runs of digits is ignored. */
  lemma ParseIntSkipsSeparator(a: string, b: string)
    requires |a| >= 1 && forall k :: 0 <= k < |a| ==> IsDigit(a[k])
    requires |b| >= 1 && forall k :: 0 <= k < |b| ==> IsDigit(b[k])
    ensures ParseInt(a + "_" + b) == ParseInt(a + b)
  {
    var s, d := a + "_" + b, a + b;
    assert s[0] == a[0] && s[|s| - 1] == b[|b| - 1];
    assert d[0] == a[0] && d[|d| - 1] == b[|b| - 1];
    assert forall k :: 0 <= k < |d| ==> IsDigit(d[k]) by {
      forall k | 0 <= k < |d| ensures IsDigit(d[k]) {
        if k < |a| { assert d[k] == a[k]; } else { assert d[k] == b[k - |a|]; }
      }
    }
    assert ParseUnsigned(s) == ParseUnsigned(d) by {
      SeparatedDigits(a, b);
      DropSeparator(a, b);
      ParseUnsignedOfDigits(d);
    }
    UnsignedText(s);
    UnsignedText(d);
  }

  /** Two underscores in a row anywhere make `int()` fail. */
  lemma ParseIntRefusesDoubleSeparator(s: string, k: int)
    requires 0 <= k < |s| - 1 && s[k] == '_' && s[k + 1] == '_'
    ensures ParseInt(s) == None
  {
    var a := PairInsideStrip(s, k);
    SignedRefusesDoubleSeparator(Strip(s), k - a);
  }

  /** Text that is empty or all whitespace makes `int()` fail. */
  lemma ParseIntRefusesBlank(s: string)
    requires forall k :: 0 <= k < |s| ==> IsPythonSpace(s[k])
    ensures ParseInt(s) == None
  {
    assert StripStart(s) == "";
  }
}
