/**
 * The few Python `str` and `int` builtins that the Topcoder handler relies on:
 * `str.isspace`, `str.strip`, `str.startswith`, `str.split(sep)`, `sep.join(xs)`,
 * `str(n)` for an integer and `int(s)` for a decimal string.  Each is written out
 * with the behaviour CPython gives it, `int(s)` on ASCII digits only, so that the
 * handler's own code can be read against it line by line.
 */
module PyStr {
  import opened Wrappers

  // ---------------------------------------------------------------------------
  // Characters

  /** `c.isspace()`: the characters CPython treats as white space. */
  predicate IsSpace(c: char) {
    c == ' ' || ('\t' <= c <= '\r') || ('\U{1c}' <= c <= '\U{1f}')
    || c == '\U{85}' || c == '\U{a0}' || c == '\U{1680}'
    || ('\U{2000}' <= c <= '\U{200a}') || c == '\U{2028}' || c == '\U{2029}'
    || c == '\U{202f}' || c == '\U{205f}' || c == '\U{3000}'
  }

  /** An ASCII decimal digit. */
  predicate IsDigit(c: char) {
    '0' <= c <= '9'
  }

  function DigitChar(d: nat): (c: char)
    requires d < 10
    ensures IsDigit(c) && c as int - '0' as int == d
  {
    (('0' as int) + d) as char
  }

  function DigitValue(c: char): (d: nat)
    requires IsDigit(c)
    ensures d < 10 && DigitChar(d) == c
  {
    c as int - '0' as int
  }

  // ---------------------------------------------------------------------------
  // Prefixes, slices, stripping

  /** `s.startswith(p)`. */
  predicate StartsWith(s: string, p: string) {
    |p| <= |s| && s[..|p|] == p
  }

  /** `s.endswith(p)`. */
  predicate EndsWith(s: string, p: string) {
    |p| <= |s| && s[|s| - |p|..] == p
  }

  /** `s[1:-1]`: Python clamps the slice, so a string shorter than two characters gives `''`. */
  function Inner(s: string): string {
    if |s| >= 2 then s[1..|s| - 1] else ""
  }

  /** `s.lstrip()`: `s` without its leading white space. */
  function LStrip(s: string): (r: string)
    ensures |r| <= |s|
  {
    if s != [] && IsSpace(s[0]) then LStrip(s[1..]) else s
  }

  /** `s.rstrip()`: `s` without its trailing white space. */
  function RStrip(s: string): (r: string)
    ensures |r| <= |s|
  {
    if s != [] && IsSpace(s[|s| - 1]) then RStrip(s[..|s| - 1]) else s
  }

  /** `lstrip()` removes exactly the leading run of white space: what it drops is space, what it keeps starts with none. */
  lemma {:induction false} LStripRemovesLeadingSpace(s: string)
    ensures LStrip(s) == s[|s| - |LStrip(s)|..]
    ensures forall k :: 0 <= k < |s| - |LStrip(s)| ==> IsSpace(s[k])
    ensures LStrip(s) == [] || !IsSpace(LStrip(s)[0])
  {
    if s != [] && IsSpace(s[0]) {
      LStripRemovesLeadingSpace(s[1..]);
      forall k | 1 <= k < |s| - |LStrip(s)| ensures IsSpace(s[k]) {
        assert s[k] == s[1..][k - 1];
      }
    }
  }

  /** `rstrip()` removes exactly the trailing run of white space: what it drops is space, what it keeps ends with none. */
  lemma {:induction false} RStripRemovesTrailingSpace(s: string)
    ensures RStrip(s) == s[..|RStrip(s)|]
    ensures forall k :: |RStrip(s)| <= k < |s| ==> IsSpace(s[k])
    ensures RStrip(s) == [] || !IsSpace(RStrip(s)[|RStrip(s)| - 1])
  {
    if s != [] && IsSpace(s[|s| - 1]) {
      RStripRemovesTrailingSpace(s[..|s| - 1]);
      forall k | |RStrip(s)| <= k < |s| - 1 ensures IsSpace(s[k]) {
        assert s[k] == s[..|s| - 1][k];
      }
    }
  }

  /** `s.strip()`. */
  function Strip(s: string): string {
    RStrip(LStrip(s))
  }

  /** A string with no white space at either end is left alone by `strip()`. */
  lemma StripUnpadded(s: string)
    requires s == [] || (!IsSpace(s[0]) && !IsSpace(s[|s| - 1]))
    ensures Strip(s) == s
  {
    assert LStrip(s) == s;
  }

  /**
   * `strip()` keeps one contiguous slice of `s`: everything before and after it is
   * white space, and the slice itself neither starts nor ends with white space.
   */
  lemma StripTrims(s: string)
    ensures var a := |s| - |LStrip(s)|;
            && a + |Strip(s)| <= |s|
            && Strip(s) == s[a..a + |Strip(s)|]
            && (forall k :: 0 <= k < a ==> IsSpace(s[k]))
            && (forall k :: a + |Strip(s)| <= k < |s| ==> IsSpace(s[k]))
    ensures Strip(s) == [] || (!IsSpace(Strip(s)[0]) && !IsSpace(Strip(s)[|Strip(s)| - 1]))
  {
    var l := LStrip(s);
    var a := |s| - |l|;
    var r := Strip(s);
    LStripRemovesLeadingSpace(s);
    RStripRemovesTrailingSpace(l);
    assert l == s[a..];
    assert r == l[..|r|];
    assert r == s[a..a + |r|];
    forall k | a + |r| <= k < |s| ensures IsSpace(s[k]) {
      assert s[k] == l[k - a];
    }
    if r != [] {
      assert r[0] == l[0];
    }
  }

  /** White space in front of a string makes no difference to `strip()`. */
  lemma StripLeadingSpace(c: char, s: string)
    requires IsSpace(c)
    ensures Strip([c] + s) == Strip(s)
  {
    assert ([c] + s)[1..] == s;
  }

  // ---------------------------------------------------------------------------
  // split and join

  /** `s.split(sep)` for a one-character separator: the pieces between separators, always at least one. */
  function Split(s: string, sep: char): (r: seq<string>)
    ensures |r| >= 1
    ensures forall i :: 0 <= i < |r| ==> sep !in r[i]
  {
    if s == [] then [""]
    else
      var rest := Split(s[1..], sep);
      if s[0] == sep then [""] + rest else [[s[0]] + rest[0]] + rest[1..]
  }

  /** `sep.join(xs)`. */
  function Join(xs: seq<string>, sep: string): string {
    if |xs| == 0 then ""
    else if |xs| == 1 then xs[0]
    else xs[0] + sep + Join(xs[1..], sep)
  }

  /** The number of times `c` occurs in `s` (`s.count(c)`). */
  function CountChar(s: string, c: char): nat {
    if s == [] then 0 else (if s[0] == c then 1 else 0) + CountChar(s[1..], c)
  }

  /** A split has one piece more than the string has separators. */
  lemma {:induction false} SplitCount(s: string, sep: char)
    ensures |Split(s, sep)| == CountChar(s, sep) + 1
  {
    if s != [] {
      SplitCount(s[1..], sep);
    }
  }

  /** Joining a first piece in front of at least one more. */
  lemma JoinCons(x: string, xs: seq<string>, sep: string)
    requires |xs| >= 1
    ensures Join([x] + xs, sep) == x + sep + Join(xs, sep)
  {
    assert ([x] + xs)[1..] == xs;
  }

  /** Joining the pieces of a split with the same separator gives the original string back. */
  lemma {:induction false} JoinSplit(s: string, sep: char)
    ensures Join(Split(s, sep), [sep]) == s
  {
    if s != [] {
      var rest := Split(s[1..], sep);
      JoinSplit(s[1..], sep);
      if s[0] == sep {
        assert Split(s, sep) == [""] + rest;
        assert ([""] + rest)[1..] == rest;
      } else {
        var r := Split(s, sep);
        assert r == [[s[0]] + rest[0]] + rest[1..];
        if |rest| > 1 {
          assert r[1..] == rest[1..];
          assert Join(rest, [sep]) == rest[0] + [sep] + Join(rest[1..], [sep]);
        }
      }
    }
  }

  /** A piece free of the separator, then the separator, then anything: the piece comes out first. */
  lemma {:induction false} SplitAfterPiece(a: string, sep: char, b: string)
    requires sep !in a
    ensures Split(a + [sep] + b, sep) == [a] + Split(b, sep)
  {
    var s := a + [sep] + b;
    if a == [] {
      assert s[0] == sep && s[1..] == b;
    } else {
      assert s[0] == a[0] && s[1..] == a[1..] + [sep] + b;
      SplitAfterPiece(a[1..], sep, b);
      assert [a[0]] + a[1..] == a;
    }
  }

  /** A string free of the separator splits into itself alone. */
  lemma {:induction false} SplitNoSeparator(a: string, sep: char)
    requires sep !in a
    ensures Split(a, sep) == [a]
  {
    if a != [] {
      SplitNoSeparator(a[1..], sep);
      assert [a[0]] + a[1..] == a;
    }
  }

  /** Splitting a join of separator-free pieces gives the pieces back. */
  lemma {:induction false} SplitJoin(xs: seq<string>, sep: char)
    requires |xs| >= 1
    requires forall i :: 0 <= i < |xs| ==> sep !in xs[i]
    ensures Split(Join(xs, [sep]), sep) == xs
  {
    if |xs| == 1 {
      SplitNoSeparator(xs[0], sep);
    } else {
      SplitJoin(xs[1..], sep);
      SplitAfterPiece(xs[0], sep, Join(xs[1..], [sep]));
      assert [xs[0]] + xs[1..] == xs;
    }
  }

  // ---------------------------------------------------------------------------
  // Integers as decimal text

  /** `str(n)` for a natural number: its decimal digits without leading zeros. */
  function NatToString(n: nat): (r: string)
    ensures |r| >= 1
    ensures forall i :: 0 <= i < |r| ==> IsDigit(r[i])
    ensures |r| > 1 ==> r[0] != '0'
  {
    if n < 10 then [DigitChar(n)] else NatToString(n / 10) + [DigitChar(n % 10)]
  }

  /** `str(n)` (and `'{}'.format(n)`) for any integer: a minus sign in front of a negative one. */
  function IntToString(n: int): (r: string)
    ensures |r| >= 1 && !IsSpace(r[0]) && IsDigit(r[|r| - 1])
    ensures n < 0 <==> r[0] == '-'
  {
    if n < 0 then "-" + NatToString(-n) else NatToString(n)
  }

  /**
   * The digit part that `int()` accepts: ASCII digits, where a single underscore may
   * stand between two digits (as in `1_000`).
   */
  predicate DigitString(s: string) {
    && |s| >= 1
    && IsDigit(s[0])
    && DigitChars(s)
    && forall i :: 0 <= i < |s| && s[i] == '_' ==> i + 1 < |s| && IsDigit(s[i + 1])
  }

  predicate DigitChars(s: string) {
    forall i :: 0 <= i < |s| ==> IsDigit(s[i]) || s[i] == '_'
  }

  /** The value of a digit string, read left to right; underscores carry no digit. */
  function DigitsValue(s: string): nat
    requires DigitChars(s)
  {
    if s == [] then 0
    else if s[|s| - 1] == '_' then DigitsValue(s[..|s| - 1])
    else DigitsValue(s[..|s| - 1]) * 10 + DigitValue(s[|s| - 1])
  }

  /**
   * The white space `int()` skips around a number: the ASCII space and `\t` to `\r`,
   * and any non-ASCII character that `isspace()` accepts (CPython turns those into
   * spaces first).  Unlike `strip()`, it does not skip the ASCII separators U+001C to
   * U+001F.
   */
  predicate IntSpace(c: char) {
    c == ' ' || ('\t' <= c <= '\r') || (c >= '\U{80}' && IsSpace(c))
  }

  /** `s` without the leading white space that `int()` skips. */
  function IntLStrip(s: string): (r: string)
    ensures |r| <= |s|
  {
    if s != [] && IntSpace(s[0]) then IntLStrip(s[1..]) else s
  }

  /** `s` without the trailing white space that `int()` skips. */
  function IntRStrip(s: string): (r: string)
    ensures |r| <= |s|
  {
    if s != [] && IntSpace(s[|s| - 1]) then IntRStrip(s[..|s| - 1]) else s
  }

  /** The text `int()` reads once the white space around it is skipped. */
  function IntStrip(s: string): string {
    IntRStrip(IntLStrip(s))
  }

  /** A string with no such white space at either end is read as it is. */
  lemma IntStripUnpadded(s: string)
    requires s == [] || (!IntSpace(s[0]) && !IntSpace(s[|s| - 1]))
    ensures IntStrip(s) == s
  {
    assert IntLStrip(s) == s;
  }

  /** The white space `int()` skips is white space to `strip()` too. */
  lemma IntSpaceIsSpace(c: char)
    ensures IntSpace(c) ==> IsSpace(c)
  {
  }

  /**
   * `int(s)` in base 10: the white space `IntSpace` is skipped around the number, an
   * optional sign comes first, then a digit string; anything else is a `ValueError`,
   * modelled as `None`.
   */
  function ParseInt(s: string): Option<int> {
    var t := IntStrip(s);
    if |t| >= 1 && (t[0] == '-' || t[0] == '+') then
      var digits := t[1..];
      if DigitString(digits) then
        var v: int := DigitsValue(digits);
        Some(if t[0] == '-' then -v else v)
      else None
    else if DigitString(t) then Some(DigitsValue(t))
    else None
  }

  /** The decimal text of a natural number reads back as that number. */
  lemma {:induction false} NatToStringValue(n: nat)
    ensures DigitString(NatToString(n))
    ensures DigitsValue(NatToString(n)) == n
  {
    var r := NatToString(n);
    if n < 10 {
      assert r[..0] == [];
    } else {
      NatToStringValue(n / 10);
      assert r[..|r| - 1] == NatToString(n / 10);
    }
  }

  /** The decimal text of a natural number has no white space at either end. */
  lemma NatToStringUnpadded(n: nat)
    ensures IntStrip(NatToString(n)) == NatToString(n)
  {
    var s := NatToString(n);
    assert IsDigit(s[0]) && IsDigit(s[|s| - 1]);
    IntStripUnpadded(s);
  }

  /** A digit string with nothing to strip reads as its value. */
  lemma ParseUnsigned(t: string)
    requires IntStrip(t) == t && DigitString(t)
    ensures ParseInt(t) == Some(DigitsValue(t) as int)
  {
    assert t[0] != '-' && t[0] != '+';
  }

  /** A minus sign before a digit string, with nothing to strip, reads as the negated value. */
  lemma ParseMinus(t: string)
    requires IntStrip(t) == t && |t| >= 1 && t[0] == '-' && DigitString(t[1..])
    ensures ParseInt(t) == Some(-(DigitsValue(t[1..]) as int))
  {
  }

  /** `int(str(n)) == n` for a natural number. */
  lemma ParseNatToString(n: nat)
    ensures ParseInt(NatToString(n)) == Some(n)
  {
    NatToStringUnpadded(n);
    NatToStringValue(n);
    ParseUnsigned(NatToString(n));
  }

  /** `int(str(-n)) == -n` for a positive number. */
  lemma ParseNegativeToString(n: nat)
    requires n > 0
    ensures ParseInt("-" + NatToString(n)) == Some(-(n as int))
  {
    var d := NatToString(n);
    var s := "-" + d;
    assert s[0] == '-' && s[|s| - 1] == d[|d| - 1];
    IntStripUnpadded(s);
    NatToStringValue(n);
    assert s[1..] == d;
    ParseMinus(s);
  }

  /** `int(str(n)) == n` for every integer. */
  lemma ParseIntToString(n: int)
    ensures ParseInt(IntToString(n)) == Some(n)
  {
    if n < 0 {
      ParseNegativeToString(-n);
    } else {
      ParseNatToString(n);
    }
  }

  /**
   * `strip()` removes a leading U+001C, but `int()` does not skip it: `int('\x1c5')`
   * is a `ValueError`.
   */
  lemma ParseIntKeepsSeparator()
    ensures Strip("\U{1c}5") == "5"
    ensures ParseInt("\U{1c}5") == None
  {
    StripLeadingSpace('\U{1c}', "5");
    StripUnpadded("5");
    assert IntStrip("\U{1c}5") == "\U{1c}5";
  }
}
