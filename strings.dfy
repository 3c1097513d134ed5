/**
 * The two pieces of JavaScript's string library the components rely on:
 * `String.prototype.split` / `Array.prototype.join` with a one-character
 * separator, and the rendering of an integral number inside a template
 * literal (`${n}`), together with a decimal reader that serves as its inverse.
 */
module Strings {
  import opened Wrappers

  // ---------------------------------------------------------------------------
  // split and join on a single separator character
  // ---------------------------------------------------------------------------

  /**
   * `s.split(sep)`: the maximal separator-free pieces of `s`, in order.
   * As in JavaScript, the empty string splits into one empty piece and a
   * leading, trailing or doubled separator produces empty pieces.
   */
  function Split(s: string, sep: char): (pieces: seq<string>)
    ensures |pieces| >= 1
    ensures forall i :: 0 <= i < |pieces| ==> sep !in pieces[i]
    decreases |s|
  {
    if |s| == 0 then [""]
    else
      var rest := Split(s[1..], sep);
      if s[0] == sep then [""] + rest
      else [[s[0]] + rest[0]] + rest[1..]
  }

  /** `parts.join(sep)`: the parts with one separator between each two; `[]` joins to `""`. */
  function Join(parts: seq<string>, sep: char): (s: string)
    ensures |parts| == 0 ==> s == ""
    ensures |parts| >= 1 ==> parts[0] <= s
    ensures |parts| >= 2 ==> sep in s
  {
    if |parts| == 0 then ""
    else if |parts| == 1 then parts[0]
    else parts[0] + [sep] + Join(parts[1..], sep)
  }

  /** Joining the pieces of a split gives back the original string. */
  lemma {:induction false} JoinSplit(s: string, sep: char)
    ensures Join(Split(s, sep), sep) == s
    decreases |s|
  {
    if |s| != 0 {
      var rest := Split(s[1..], sep);
      JoinSplit(s[1..], sep);
      if s[0] == sep {
        assert Split(s, sep) == [""] + rest;
        assert ([""] + rest)[1..] == rest;
        assert s == [sep] + s[1..];
      } else {
        var pieces := Split(s, sep);
        assert pieces == [[s[0]] + rest[0]] + rest[1..];
        if |rest| == 1 {
          assert s == [s[0]] + rest[0];
        } else {
          assert pieces[1..] == rest[1..];
          assert Join(rest, sep) == rest[0] + [sep] + Join(rest[1..], sep);
          assert s == [s[0]] + rest[0] + [sep] + Join(rest[1..], sep);
        }
      }
    }
  }

  /** Prepending a separator-free text `a` extends the first piece by `a` and leaves the others. */
  lemma {:induction false} SplitSeparatorFree(a: string, t: string, sep: char)
    requires sep !in a
    ensures Split(a + t, sep) == [a + Split(t, sep)[0]] + Split(t, sep)[1..]
    decreases |a|
  {
    if |a| != 0 {
      assert (a + t)[0] == a[0];
      assert (a + t)[1..] == a[1..] + t;
      SplitSeparatorFree(a[1..], t, sep);
      assert [a[0]] + (a[1..] + Split(t, sep)[0]) == a + Split(t, sep)[0];
    } else {
      var pieces := Split(t, sep);
      assert a + t == t;
      assert a + pieces[0] == pieces[0];
      assert pieces == [pieces[0]] + pieces[1..];
    }
  }

  /** A separator-free text followed by a separator is exactly the first piece. */
  lemma SplitAfterPiece(a: string, t: string, sep: char)
    requires sep !in a
    ensures Split(a + [sep] + t, sep) == [a] + Split(t, sep)
  {
    assert a + [sep] + t == a + ([sep] + t);
    SplitSeparatorFree(a, [sep] + t, sep);
    assert ([sep] + t)[0] == sep && ([sep] + t)[1..] == t;
    assert Split([sep] + t, sep) == [""] + Split(t, sep);
    assert a + "" == a;
  }

  /** A separator-free text is a single piece. */
  lemma SplitSinglePiece(a: string, sep: char)
    requires sep !in a
    ensures Split(a, sep) == [a]
  {
    assert a + "" == a;
    SplitSeparatorFree(a, "", sep);
  }

  /** Splitting the join of non-empty, separator-free parts gives back the parts. */
  lemma {:induction false} SplitJoin(parts: seq<string>, sep: char)
    requires |parts| >= 1
    requires forall i :: 0 <= i < |parts| ==> sep !in parts[i]
    ensures Split(Join(parts, sep), sep) == parts
    decreases |parts|
  {
    if |parts| == 1 {
      SplitSinglePiece(parts[0], sep);
    } else {
      SplitJoin(parts[1..], sep);
      SplitAfterPiece(parts[0], Join(parts[1..], sep), sep);
      assert [parts[0]] + parts[1..] == parts;
    }
  }

  // ---------------------------------------------------------------------------
  // integers in decimal, as `${n}` renders an integral number
  // ---------------------------------------------------------------------------

  predicate IsDigit(c: char) {
    '0' <= c <= '9'
  }

  predicate AllDigits(s: string) {
    forall i :: 0 <= i < |s| ==> IsDigit(s[i])
  }

  function DigitChar(d: nat): (c: char)
    requires d < 10
    ensures IsDigit(c)
  {
    ('0' as int + d) as char
  }

  function DigitValue(c: char): nat
    requires IsDigit(c)
  {
    c as int - '0' as int
  }

  /** The decimal digits of `n`: no leading zero, except for `0` itself. */
  function NatToDecimal(n: nat): (s: string)
    ensures |s| >= 1 && AllDigits(s)
    ensures s[0] == '0' <==> n == 0
    decreases n
  {
    if n < 10 then [DigitChar(n)]
    else NatToDecimal(n / 10) + [DigitChar(n % 10)]
  }

  /**
   * The canonical decimal form of an integer: digits without a leading zero
   * (except `0` itself), after a minus sign for a negative number (never `-0`).
   */
  predicate CanonicalDecimal(s: string) {
    if |s| >= 1 && s[0] == '-' then |s| >= 2 && AllDigits(s[1..]) && s[1] != '0'
    else |s| >= 1 && AllDigits(s) && (s[0] == '0' ==> |s| == 1)
  }

  /** `${n}` for an integral number: a minus sign before a negative number's digits. */
  function IntToDecimal(n: int): (s: string)
    ensures CanonicalDecimal(s)
    ensures s[0] == '-' <==> n < 0
  {
    if n < 0 then "-" + NatToDecimal(-n) else NatToDecimal(n)
  }

  /** The number a string of decimal digits denotes (most significant digit first). */
  function DigitsValue(s: string): nat
    requires AllDigits(s)
  {
    if |s| == 0 then 0
    else 10 * DigitsValue(s[..|s| - 1]) + DigitValue(s[|s| - 1])
  }

  /** Reads an optionally negative decimal integer; anything else is `None`. */
  function ParseDecimal(s: string): Option<int>
  {
    if |s| >= 2 && s[0] == '-' && AllDigits(s[1..]) then Some(0 - DigitsValue(s[1..]) as int)
    else if |s| >= 1 && AllDigits(s) then Some(DigitsValue(s))
    else None
  }

  lemma {:induction false} NatToDecimalValue(n: nat)
    ensures DigitsValue(NatToDecimal(n)) == n
    decreases n
  {
    var s := NatToDecimal(n);
    if n >= 10 {
      NatToDecimalValue(n / 10);
      assert s[..|s| - 1] == NatToDecimal(n / 10);
    }
  }

  /** Rendering an integer and reading it back gives the integer. */
  lemma DecimalRoundTrip(n: int)
    ensures ParseDecimal(IntToDecimal(n)) == Some(n)
  {
    if n < 0 {
      var digits := NatToDecimal(-n);
      NatToDecimalValue(-n);
      var s := "-" + digits;
      assert IntToDecimal(n) == s;
      assert s[1..] == digits;
      assert |s| >= 2 && s[0] == '-' && AllDigits(s[1..]);
    } else {
      var s := NatToDecimal(n);
      NatToDecimalValue(n);
      assert IntToDecimal(n) == s;
      assert s[0] != '-';
    }
  }

  /** A digit string without a leading zero denotes a positive number. */
  lemma {:induction false} LeadingDigitPositive(s: string)
    requires |s| >= 1 && AllDigits(s) && s[0] != '0'
    ensures DigitsValue(s) >= 1
    decreases |s|
  {
    if |s| > 1 {
      LeadingDigitPositive(s[..|s| - 1]);
    }
  }

  /** A canonical digit string is the rendering of the number it denotes. */
  lemma {:induction false} CanonicalDigitsAreRendering(s: string)
    requires |s| >= 1 && AllDigits(s) && (s[0] == '0' ==> |s| == 1)
    ensures NatToDecimal(DigitsValue(s)) == s
    decreases |s|
  {
    if |s| > 1 {
      var p := s[..|s| - 1];
      var d := DigitValue(s[|s| - 1]);
      LeadingDigitPositive(p);
      CanonicalDigitsAreRendering(p);
      var n := DigitsValue(s);
      assert n == 10 * DigitsValue(p) + d;
      assert n / 10 == DigitsValue(p) && n % 10 == d;
      assert DigitChar(d) == s[|s| - 1];
      assert s == p + [s[|s| - 1]];
    } else {
      assert DigitChar(DigitValue(s[0])) == s[0];
      assert DigitsValue(s) == DigitValue(s[0]) by {
        assert s[..0] == "";
      }
    }
  }

  /** Every canonical decimal string reads as an integer whose rendering it is. */
  lemma CanonicalIsRendering(s: string)
    requires CanonicalDecimal(s)
    ensures ParseDecimal(s).Some? && IntToDecimal(ParseDecimal(s).value) == s
  {
    if s[0] == '-' {
      CanonicalDigitsAreRendering(s[1..]);
      LeadingDigitPositive(s[1..]);
      assert s == "-" + s[1..];
    } else {
      CanonicalDigitsAreRendering(s);
    }
  }

  /** Distinct integers render differently. */
  lemma DecimalInjective(m: int, n: int)
    requires IntToDecimal(m) == IntToDecimal(n)
    ensures m == n
  {
    DecimalRoundTrip(m);
    DecimalRoundTrip(n);
  }
}
