/** The JavaScript built-ins the app leans on, written out with their exact
    semantics: truncating `%`, `Math.floor` of a quotient, clamping,
    `String.prototype.trim`, ASCII `toLowerCase`, `includes`, `join`,
    decimal rendering of integers and `padStart`. */
module Js {

  // ---------------------------------------------------------------- numbers

  function Max(a: int, b: int): int { if a >= b then a else b }
  function Min(a: int, b: int): int { if a <= b then a else b }

  /** `Math.max(lo, Math.min(x, hi))`. */
  function Clamp(x: int, lo: int, hi: int): (r: int)
    requires lo <= hi
    ensures lo <= r <= hi
    ensures lo <= x <= hi ==> r == x
    ensures x < lo ==> r == lo
    ensures x > hi ==> r == hi
  {
    Max(lo, Min(x, hi))
  }

  /** JavaScript `a % b` for a positive divisor: the remainder takes the sign
      of the dividend (truncation toward zero), unlike Dafny's Euclidean `%`. */
  function Rem(a: int, b: int): (r: int)
    requires b > 0
    ensures a >= 0 ==> 0 <= r < b
    ensures a < 0 ==> -b < r <= 0
  {
    if a >= 0 then a % b else -((-a) % b)
  }

  /** `Math.floor(a / b)` for a positive divisor. Dafny's `/` is Euclidean,
      which floors exactly when the divisor is positive. */
  function FloorDiv(a: int, b: int): (q: int)
    requires b > 0
    ensures q * b <= a < q * b + b
    ensures a >= 0 ==> q >= 0
  {
    a / b
  }

  // ---------------------------------------------------------------- strings

  /** ECMAScript WhiteSpace and LineTerminator code points: what `trim()`
      strips and what the regex class `\s` matches. */
  predicate IsWhitespace(c: char) {
    || c == '\t' || c == '\n' || c == '\U{000B}' || c == '\U{000C}' || c == '\r'
    || c == ' ' || c == '\U{00A0}' || c == '\U{1680}'
    || ('\U{2000}' <= c <= '\U{200A}')
    || c == '\U{2028}' || c == '\U{2029}' || c == '\U{202F}' || c == '\U{205F}'
    || c == '\U{3000}' || c == '\U{FEFF}'
  }

  /** The characters a regex `.` refuses to match. */
  predicate IsLineTerminator(c: char) {
    c == '\n' || c == '\r' || c == '\U{2028}' || c == '\U{2029}'
  }

  predicate AllWhitespace(s: string) {
    forall i :: 0 <= i < |s| ==> IsWhitespace(s[i])
  }

  /** A text is blank exactly when both sides of any split are. */
  lemma AllWhitespaceSplit(s: string, n: nat)
    requires n <= |s|
    ensures AllWhitespace(s) <==> AllWhitespace(s[..n]) && AllWhitespace(s[n..])
  {
    assert forall i :: 0 <= i < n ==> s[..n][i] == s[i];
    assert forall i :: n <= i < |s| ==> s[n..][i - n] == s[i];
  }

  lemma AllWhitespaceCons(c: char, s: string)
    ensures AllWhitespace([c] + s) <==> IsWhitespace(c) && AllWhitespace(s)
  {
    var t := [c] + s;
    if AllWhitespace(t) {
      forall i | 0 <= i < |s| ensures IsWhitespace(s[i]) {
        assert t[i + 1] == s[i];
      }
      assert t[0] == c;
    }
    if IsWhitespace(c) && AllWhitespace(s) {
      forall i | 0 <= i < |t| ensures IsWhitespace(t[i]) {
        if i > 0 {
          assert t[i] == s[i - 1];
        }
      }
    }
  }

  /** Length of the blank run at the start of `s`. */
  function LeadingBlanks(s: string): (n: nat)
    ensures n <= |s| && AllWhitespace(s[..n])
    ensures n < |s| ==> !IsWhitespace(s[n])
  {
    if |s| > 0 && IsWhitespace(s[0]) then
      var k := LeadingBlanks(s[1..]);
      assert s[1..][..k] == s[1..k + 1];
      k + 1
    else 0
  }

  /** Length of the blank run at the end of `s`. */
  function TrailingBlanks(s: string): (n: nat)
    ensures n <= |s| && AllWhitespace(s[|s| - n..])
    ensures n < |s| ==> !IsWhitespace(s[|s| - n - 1])
  {
    if |s| > 0 && IsWhitespace(s[|s| - 1]) then
      var k := TrailingBlanks(s[..|s| - 1]);
      assert s[..|s| - 1][|s| - 1 - k..] == s[|s| - 1 - k..|s| - 1];
      k + 1
    else 0
  }

  /** `r` is `s` with a blank prefix of length `a` and a blank suffix cut. */
  predicate TrimmedAt(s: string, r: string, a: int) {
    && 0 <= a && a + |r| <= |s| && r == s[a..a + |r|]
    && AllWhitespace(s[..a]) && AllWhitespace(s[a + |r|..])
  }

  /** `s.trim()`: only whitespace is cut, from either end, and none is
      left at either end; the result is empty exactly for all-blank input. */
  function Trim(s: string): (r: string)
    ensures TrimmedAt(s, r, LeadingBlanks(s))
    ensures r != [] ==> !IsWhitespace(r[0]) && !IsWhitespace(r[|r| - 1])
    ensures r == [] <==> AllWhitespace(s)
  {
    var a := LeadingBlanks(s);
    var b := TrailingBlanks(s[a..]);
    assert s[a..][|s| - a - b..] == s[|s| - b..];
    assert b < |s| - a ==> s[a..][|s| - a - b - 1] == s[|s| - b - 1];
    BlankCut(s, a, b);
    s[a..|s| - b]
  }

  lemma BlankCut(s: string, a: nat, b: nat)
    requires a <= |s| && AllWhitespace(s[..a]) && (a < |s| ==> !IsWhitespace(s[a]))
    requires b <= |s| - a && AllWhitespace(s[|s| - b..])
    requires b < |s| - a ==> !IsWhitespace(s[|s| - b - 1])
    ensures TrimmedAt(s, s[a..|s| - b], a)
    ensures s[a..|s| - b] == [] <==> AllWhitespace(s)
  {
    if a + b == |s| {
      assert s == s[..a];
    }
  }

  /** A text without blanks at its ends is its own trim. */
  lemma TrimUnblanked(s: string)
    requires |s| > 0 && !IsWhitespace(s[0]) && !IsWhitespace(s[|s| - 1])
    ensures Trim(s) == s
  {
    assert LeadingBlanks(s) == 0;
  }

  function LowerChar(c: char): char {
    if 'A' <= c <= 'Z' then (c as int + 32) as char else c
  }

  /** `toLowerCase()`, restricted to ASCII letters: CJK text is untouched. */
  function Lower(s: string): (r: string)
    ensures |r| == |s|
    ensures forall i :: 0 <= i < |s| ==> r[i] == LowerChar(s[i])
  {
    seq(|s|, i requires 0 <= i < |s| => LowerChar(s[i]))
  }

  /** A text without ASCII capitals is its own lower case. */
  lemma LowerUncapitalised(s: string)
    requires forall i :: 0 <= i < |s| ==> !('A' <= s[i] <= 'Z')
    ensures Lower(s) == s
  {
  }

  /** `sub` occurs in `s` starting at position `i`. */
  predicate OccursAt(s: string, sub: string, i: int) {
    0 <= i && i + |sub| <= |s| && s[i..i + |sub|] == sub
  }

  /** `s.includes(sub)`. */
  predicate Contains(s: string, sub: string) {
    exists i | 0 <= i <= |s| :: OccursAt(s, sub, i)
  }

  lemma ContainsPrefix(s: string, p: string, sub: string)
    requires Contains(p, sub)
    ensures Contains(p + s, sub)
  {
    var i :| 0 <= i <= |p| && OccursAt(p, sub, i);
    assert (p + s)[i..i + |sub|] == p[i..i + |sub|];
    assert OccursAt(p + s, sub, i);
  }

  lemma ContainsTrans(a: string, b: string, c: string)
    requires Contains(a, b) && Contains(b, c)
    ensures Contains(a, c)
  {
    var i :| 0 <= i <= |a| && OccursAt(a, b, i);
    var j :| 0 <= j <= |b| && OccursAt(b, c, j);
    forall k | 0 <= k < |c| ensures a[i + j + k] == c[k] {
      assert a[i + j + k] == a[i..i + |b|][j + k] == b[j + k];
      assert b[j + k] == b[j..j + |c|][k];
    }
    assert a[i + j..i + j + |c|] == c;
    assert OccursAt(a, c, i + j);
  }

  /** Lower-casing both sides keeps an occurrence. */
  lemma LowerContains(a: string, b: string)
    requires Contains(a, b)
    ensures Contains(Lower(a), Lower(b))
  {
    var i :| 0 <= i <= |a| && OccursAt(a, b, i);
    assert Lower(a)[i..i + |b|] == Lower(b);
    assert OccursAt(Lower(a), Lower(b), i);
  }

  /** `parts.join(sep)`. */
  function Join(parts: seq<string>, sep: string): string {
    if |parts| == 0 then ""
    else if |parts| == 1 then parts[0]
    else parts[0] + sep + Join(parts[1..], sep)
  }

  function DigitChar(d: int): char
    requires 0 <= d < 10
  {
    "0123456789"[d]
  }

  /** Decimal rendering of a natural number, no leading zeros. */
  function NatToString(n: nat): (r: string)
    ensures |r| >= 1
    ensures forall i :: 0 <= i < |r| ==> '0' <= r[i] <= '9'
    decreases n
  {
    if n < 10 then [DigitChar(n)] else NatToString(n / 10) + [DigitChar(n % 10)]
  }

  /** Different naturals render differently. */
  lemma {:induction false} NatToStringInjective(n: nat, m: nat)
    ensures NatToString(n) == NatToString(m) ==> n == m
    decreases n
  {
    var a, b := NatToString(n), NatToString(m);
    if n >= 10 && m >= 10 {
      NatToStringInjective(n / 10, m / 10);
      assert a[..|a| - 1] == NatToString(n / 10) && a[|a| - 1] == DigitChar(n % 10);
      assert b[..|b| - 1] == NatToString(m / 10) && b[|b| - 1] == DigitChar(m % 10);
    } else if n < 10 && m < 10 {
      assert a[0] == DigitChar(n) && b[0] == DigitChar(m);
    } else {
      assert |a| != |b|;
    }
  }

  /** `String(n)` / `${n}` for an integer. */
  function IntToString(n: int): (r: string)
    ensures |r| >= 1
    ensures forall i :: 0 <= i < |r| ==> '0' <= r[i] <= '9' || (i == 0 && r[i] == '-')
  {
    if n < 0 then "-" + NatToString(-n) else NatToString(n)
  }

  /** Different integers render differently. */
  lemma {:induction false} IntToStringInjective(n: int, m: int)
    ensures IntToString(n) == IntToString(m) ==> n == m
  {
    if n < 0 && m < 0 {
      NegativesInjective(n, m);
    } else if n >= 0 && m >= 0 {
      NatToStringInjective(n, m);
    } else if n < 0 {
      SignsDiffer(n, m);
    } else {
      SignsDiffer(m, n);
    }
  }

  /** A non-negative number renders as its decimal digits alone. */
  lemma NonNegativeRendering(n: int)
    requires n >= 0
    ensures IntToString(n) == NatToString(n)
  {
  }

  /** A negative number renders as a minus sign before its magnitude. */
  lemma {:induction false} NegativeRendering(n: int)
    requires n < 0
    ensures IntToString(n)[0] == '-' && IntToString(n)[1..] == NatToString(-n)
  {
    var r := "-" + NatToString(-n);
    assert r[1..] == NatToString(-n);
  }

  lemma {:induction false} NegativesInjective(n: int, m: int)
    requires n < 0 && m < 0
    ensures IntToString(n) == IntToString(m) ==> n == m
  {
    if IntToString(n) == IntToString(m) {
      NegativeRendering(n);
      NegativeRendering(m);
      var a, b: nat := -n, -m;
      assert NatToString(a) == NatToString(b);
      NatToStringInjective(a, b);
    }
  }

  /** A negative and a non-negative number never render alike. */
  lemma {:induction false} SignsDiffer(n: int, m: int)
    requires n < 0 <= m
    ensures IntToString(n) != IntToString(m)
  {
    NegativeRendering(n);
    assert IntToString(m)[0] != '-';
  }

  /** `s.padStart(2, '0')`. */
  function PadStart2(s: string): (r: string)
    ensures |r| == if |s| < 2 then 2 else |s|
    ensures r[|r| - |s|..] == s
  {
    if |s| == 0 then "00" else if |s| == 1 then "0" + s else s
  }
}
