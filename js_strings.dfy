/** The string operations the rules rely on: `String.prototype.trim`, the
    regular-expression class `\s`, `String.prototype.replace` with a string
    pattern, and the decimal rendering of an integer in a template literal. */
module JsStrings {

  /** ECMAScript WhiteSpace and LineTerminator code points: the set both
      `trim` strips and `\s` matches. */
  predicate IsWhitespace(c: char)
  {
    || c == '\t' || c == '\n' || c == '\U{000B}' || c == '\U{000C}' || c == '\r'
    || c == ' ' || c == '\U{00A0}' || c == '\U{1680}'
    || ('\U{2000}' <= c <= '\U{200A}')
    || c == '\U{2028}' || c == '\U{2029}' || c == '\U{202F}' || c == '\U{205F}'
    || c == '\U{3000}' || c == '\U{FEFF}'
  }

  predicate AllWhitespace(s: string)
  {
    forall i :: 0 <= i < |s| ==> IsWhitespace(s[i])
  }

  /** Drops leading whitespace. */
  function TrimStart(s: string): string
  {
    if |s| > 0 && IsWhitespace(s[0]) then TrimStart(s[1..]) else s
  }

  /** Drops trailing whitespace. */
  function TrimEnd(s: string): string
  {
    if |s| > 0 && IsWhitespace(s[|s| - 1]) then TrimEnd(s[..|s| - 1]) else s
  }

  /** `s.trim()`. */
  function Trim(s: string): string
  {
    TrimEnd(TrimStart(s))
  }

  /** TrimStart cuts a whitespace prefix and stops at the first other
      character. */
  lemma {:induction false} TrimStartSpec(s: string)
    ensures |TrimStart(s)| <= |s| && TrimStart(s) == s[|s| - |TrimStart(s)|..]
    ensures AllWhitespace(s[..|s| - |TrimStart(s)|])
    ensures TrimStart(s) == [] || !IsWhitespace(TrimStart(s)[0])
  {
    if |s| > 0 && IsWhitespace(s[0]) {
      TrimStartSpec(s[1..]);
      var r := TrimStart(s[1..]);
      assert s[1..][..|s[1..]| - |r|] == s[1..|s| - |r|];
    }
  }

  /** TrimEnd cuts a whitespace suffix and stops at the last other
      character. */
  lemma {:induction false} TrimEndSpec(s: string)
    ensures |TrimEnd(s)| <= |s| && TrimEnd(s) == s[..|TrimEnd(s)|]
    ensures AllWhitespace(s[|TrimEnd(s)|..])
    ensures TrimEnd(s) == [] || !IsWhitespace(TrimEnd(s)[|TrimEnd(s)| - 1])
  {
    if |s| > 0 && IsWhitespace(s[|s| - 1]) {
      var t := s[..|s| - 1];
      TrimEndSpec(t);
      var r := TrimEnd(t);
      forall i | 0 <= i < |s| - |r| ensures IsWhitespace(s[|r|..][i]) {
        if i < |t| - |r| {
          assert s[|r|..][i] == t[|r|..][i];
        }
      }
    }
  }

  /** `s.trim()` is a contiguous piece of `s`, with only whitespace cut
      from either end and no whitespace left at either of its own ends. */
  lemma TrimSpec(s: string)
    ensures exists i, j :: 0 <= i <= j <= |s| && Trim(s) == s[i..j] &&
              AllWhitespace(s[..i]) && AllWhitespace(s[j..])
    ensures Trim(s) == [] || (!IsWhitespace(Trim(s)[0]) && !IsWhitespace(Trim(s)[|Trim(s)| - 1]))
  {
    var t := TrimStart(s);
    TrimStartSpec(s);
    TrimEndSpec(t);
    var i := |s| - |t|;
    var j := i + |TrimEnd(t)|;
    assert Trim(s) == s[i..j];
    assert s[j..] == t[|TrimEnd(t)|..];
    if Trim(s) != [] {
      assert Trim(s)[0] == t[0];
    }
  }

  /** TrimStart strips everything exactly when everything is whitespace. */
  lemma {:induction false} TrimStartEmptyIff(s: string)
    ensures TrimStart(s) == [] <==> AllWhitespace(s)
  {
    if |s| > 0 && IsWhitespace(s[0]) {
      TrimStartEmptyIff(s[1..]);
    }
  }

  /** `s.trim() === ''` holds exactly when every character of `s` is
      whitespace. */
  lemma TrimEmptyIff(s: string)
    ensures Trim(s) == [] <==> AllWhitespace(s)
  {
    TrimStartEmptyIff(s);
    TrimStartSpec(s);
    TrimEndSpec(TrimStart(s));
  }

  /** `pat` occurs in `s` at position `i`. */
  predicate OccursAt(s: string, pat: string, i: nat)
  {
    i + |pat| <= |s| && s[i..i + |pat|] == pat
  }

  /** `s.replace(pat, rep)` for a string pattern: the first occurrence of
      `pat`, if any, becomes `rep` (replacement patterns such as `$&` are not
      interpreted). */
  function ReplaceFirst(s: string, pat: string, rep: string): string
    decreases |s|
  {
    if |s| < |pat| then s
    else if s[..|pat|] == pat then rep + s[|pat|..]
    else [s[0]] + ReplaceFirst(s[1..], pat, rep)
  }

  /** Dropping the first character shifts every occurrence by one. */
  lemma OccursShift(s: string, pat: string, j: nat)
    requires |s| > 0
    ensures OccursAt(s[1..], pat, j) <==> OccursAt(s, pat, j + 1)
  {
    if j + 1 + |pat| <= |s| {
      assert s[1..][j..j + |pat|] == s[j + 1..j + 1 + |pat|];
    }
  }

  /** Without an occurrence of the pattern, `replace` returns its input. */
  lemma {:induction false} ReplaceFirstAbsent(s: string, pat: string, rep: string)
    requires forall i: nat :: i <= |s| ==> !OccursAt(s, pat, i)
    ensures ReplaceFirst(s, pat, rep) == s
    decreases |s|
  {
    if |s| >= |pat| {
      assert !OccursAt(s, pat, 0);
      assert s[0..|pat|] == s[..|pat|];
      forall i: nat | i <= |s[1..]| ensures !OccursAt(s[1..], pat, i) {
        OccursShift(s, pat, i);
      }
      ReplaceFirstAbsent(s[1..], pat, rep);
      assert [s[0]] + s[1..] == s;
    }
  }

  /** With an occurrence at `i` and none before it, `replace` substitutes
      exactly that occurrence and keeps everything around it. */
  lemma {:induction false} ReplaceFirstAt(s: string, pat: string, rep: string, i: nat)
    requires OccursAt(s, pat, i)
    requires forall j: nat :: j < i ==> !OccursAt(s, pat, j)
    ensures ReplaceFirst(s, pat, rep) == s[..i] + rep + s[i + |pat|..]
    decreases i
  {
    if i == 0 {
      assert s[..|pat|] == s[0..0 + |pat|];
    } else {
      var t := s[1..];
      assert |s| >= |pat| && s[..|pat|] != pat by {
        assert !OccursAt(s, pat, 0);
        assert s[0..|pat|] == s[..|pat|];
      }
      assert OccursAt(t, pat, i - 1) by {
        OccursShift(s, pat, i - 1);
      }
      forall j: nat | j < i - 1 ensures !OccursAt(t, pat, j) {
        OccursShift(s, pat, j);
      }
      ReplaceFirstAt(t, pat, rep, i - 1);
      calc {
        ReplaceFirst(s, pat, rep);
        [s[0]] + ReplaceFirst(t, pat, rep);
        [s[0]] + (t[..i - 1] + rep + t[i - 1 + |pat|..]);
        { assert [s[0]] + t[..i - 1] == s[..i]; assert t[i - 1 + |pat|..] == s[i + |pat|..]; }
        s[..i] + rep + s[i + |pat|..];
      }
    }
  }

  function DigitChar(d: nat): (c: char)
    requires d < 10
  {
    "0123456789"[d]
  }

  /** The decimal numeral of a natural number, most significant digit first. */
  function NatToString(n: nat): (r: string)
    ensures |r| > 0
    ensures forall i :: 0 <= i < |r| ==> '0' <= r[i] <= '9'
    decreases n
  {
    if n < 10 then [DigitChar(n)] else NatToString(n / 10) + [DigitChar(n % 10)]
  }

  /** `${i}` for an integral number of at most 2^53 in magnitude: an optional
      minus sign followed by the decimal numeral of `|i|`. */
  function IntToString(i: int): string
  {
    if i < 0 then "-" + NatToString(-i) else NatToString(i)
  }

  /** A non-negative number renders as a numeral that reads back as it. */
  lemma IntToStringNonNegative(i: int)
    requires i >= 0
    ensures |IntToString(i)| > 0 && '0' <= IntToString(i)[0] <= '9'
    ensures DecimalValue(IntToString(i)) == i
  {
    NatToStringRoundTrip(i);
  }

  /** A negative number renders as a minus sign followed by the numeral of
      its absolute value. */
  lemma IntToStringNegative(i: int)
    requires i < 0
    ensures |IntToString(i)| > 1 && IntToString(i)[0] == '-'
    ensures DecimalValue(IntToString(i)[1..]) == -i
  {
    var n: nat := -i;
    var digits := NatToString(n);
    NatToStringRoundTrip(n);
    assert IntToString(i) == "-" + digits;
    SignedNumeral(digits, n);
  }

  /** Dropping the sign of a signed numeral leaves the digits and their value. */
  lemma SignedNumeral(digits: string, n: nat)
    requires |digits| > 0 && DecimalValue(digits) == n
    ensures |"-" + digits| > 1 && ("-" + digits)[0] == '-'
    ensures DecimalValue(("-" + digits)[1..]) == n
  {
    assert ("-" + digits)[1..] == digits;
  }

  /** The number a decimal numeral denotes. */
  function DecimalValue(digits: string): int
  {
    if digits == [] then 0
    else 10 * DecimalValue(digits[..|digits| - 1]) + (digits[|digits| - 1] as int - '0' as int)
  }

  /** `NatToString` is read back by `DecimalValue`: the numeral is correct. */
  lemma {:induction false} NatToStringRoundTrip(n: nat)
    ensures DecimalValue(NatToString(n)) == n
    decreases n
  {
    var r := NatToString(n);
    if n >= 10 {
      NatToStringRoundTrip(n / 10);
      assert r[..|r| - 1] == NatToString(n / 10);
    }
  }
}
